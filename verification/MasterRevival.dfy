/** Master revival and cutover (src/master_revival.rs, src/db/master_cutovers.rs): every database step of
    any number of watchers, in any order and with any stale arguments. */
module MasterRevival {
  import opened Common

  type Id = string

  const MASTER_REVIVE_FUSE_THRESHOLD := 5

  datatype SessionStatus = Active | Killed | Closed | Failed
  datatype MasterState = Idle | Busy

  /** The columns of `sessions` that these steps read or write. */
  datatype Session = Session(
    status: SessionStatus,
    masterPid: int,
    masterPaneId: Option<string>,
    generation: int,
    retryCount: int,
    nextRetryAt: int,
    masterState: MasterState,
    pendingTell: Option<string>,
    lastExitReason: Option<string>)
  {
    predicate Is(pid: int, gen: int) {
      status == Active && masterPid == pid && generation == gen
    }

    function Idled(): Session {
      this.(masterState := Idle, pendingTell := None)
    }

    function Ended(to: SessionStatus, reason: string): Session {
      Idled().(status := to, lastExitReason := Some(reason))
    }
  }

  datatype CutoverState = Preparing | Spawning | Verifying | ActiveCutover | RolledBack | FailedCutover | Released
  {
    /** The states of the partial unique index. */
    predicate Occupying() {
      Preparing? || Spawning? || Verifying? || ActiveCutover?
    }

    predicate InFlight() {
      Preparing? || Spawning? || Verifying?
    }
  }

  datatype Cutover = Cutover(
    sessionId: Id,
    state: CutoverState,
    oldMasterPid: Option<int>,
    newMasterPid: Option<int>,
    newMasterGeneration: Option<int>,
    newMasterPaneId: Option<string>,
    ackReadyAt: Option<int>,
    readinessMode: Option<string>,
    completedAt: Option<int>)
  {
    predicate Rivals(other: Cutover) {
      sessionId == other.sessionId && state.Occupying() && other.state.Occupying()
    }

    function Moved(to: CutoverState, now: int): Cutover {
      this.(state := to, completedAt := if to.Occupying() then completedAt else Some(now))
    }
  }

  type Sessions = map<Id, Session>
  type Cutovers = map<Id, Cutover>

  function NewSession(pid: int): Session {
    Session(Active, pid, None, 0, 0, 0, Idle, None, None)
  }

  /** 1, 2, 4, 8 and from then on 16 seconds. */
  function Backoff(attempt: int): int {
    if attempt <= 1 then 1 else if attempt == 2 then 2 else if attempt == 3 then 4 else if attempt == 4 then 8 else 16
  }

  predicate Occupied(cutovers: Cutovers, sid: Id) {
    exists id :: id in cutovers && cutovers[id].sessionId == sid && cutovers[id].state.Occupying()
  }

  predicate HasInflight(cutovers: Cutovers, sid: Id) {
    exists id :: id in cutovers && cutovers[id].sessionId == sid && cutovers[id].state.InFlight()
  }

  /** Whether the unique index would refuse moving this row to `to`. */
  predicate IndexRefuses(cutovers: Cutovers, id: Id, to: CutoverState)
    requires id in cutovers
  {
    to.Occupying()
    && exists other :: other in cutovers && other != id
                       && cutovers[other].sessionId == cutovers[id].sessionId && cutovers[other].state.Occupying()
  }

  // The steps.

  datatype Op =
    | InsertSession(sid: Id, pid: int)
    | Claim(sid: Id, pid: int, gen: int)
    | Complete(sid: Id, gen: int, newPid: int, pane: string)
    | Attempt(sid: Id, pid: int, gen: int, now: int)
    | Fuse(sid: Id)
    | Confirm(sid: Id, pid: int, gen: int)
    | Close(sid: Id)
    | Kill(sid: Id)
    | Spawned(sid: Id, newPid: int, pane: string)
    | SpawnedAfterClaim(sid: Id, gen: int, newPid: int, pane: string)
    | ClaimCutover(id: Id, sid: Id, oldPid: Option<int>)
    | MoveCutover(id: Id, from: CutoverState, to: CutoverState, now: int)
    | SpawnCutover(id: Id, from: CutoverState, to: CutoverState, newPid: int, gen: int, pane: string, now: int)
    | AckCutover(id: Id, mode: string, now: int)

  /** What a step that took effect did; a step whose WHERE clause matched nothing leaves no event. */
  datatype Event =
    | Minted(sid: Id, gen: int, byClaim: bool)
    | Wrote(sid: Id, gen: int, pid: int)
    | Spawn(sid: Id, retryCount: int, delay: int)
    | Exhausted(sid: Id, retryCount: int)
    | Confirmed(sid: Id)
    | Stopped(sid: Id)

  /** `fusing` holds the sessions whose fifth attempt is recorded and whose fuse is still to be written. */
  datatype State = State(sessions: Sessions, cutovers: Cutovers, fusing: multiset<Id>, trace: seq<Event>)
  {
    predicate Has(sid: Id, pid: int, gen: int) {
      sid in sessions && sessions[sid].Is(pid, gen)
    }

    predicate IsActive(sid: Id) {
      sid in sessions && sessions[sid].status == Active
    }

    predicate HasGeneration(sid: Id, gen: int) {
      IsActive(sid) && sessions[sid].generation == gen
    }

    function With(sid: Id, row: Session, e: Event): State {
      this.(sessions := sessions[sid := row], trace := trace + [e])
    }
  }

  function SessionStep(s: State, op: Op): State {
    match op
    case InsertSession(sid, pid) =>
      if sid in s.sessions then s else s.(sessions := s.sessions[sid := NewSession(pid)])
    case Claim(sid, pid, gen) =>
      if !s.Has(sid, pid, gen) then s else
        s.With(sid, s.sessions[sid].Idled().(generation := gen + 1), Minted(sid, gen + 1, true))
    case Complete(sid, gen, newPid, pane) =>
      if !s.HasGeneration(sid, gen) then s else
        s.With(sid, s.sessions[sid].Idled().(masterPid := newPid, masterPaneId := Some(pane),
                                             lastExitReason := Some("OOM_OR_CRASH")), Wrote(sid, gen, newPid))
    case Attempt(sid, pid, gen, now) =>
      if !s.Has(sid, pid, gen) then s else
        var n := s.sessions[sid].retryCount + 1;
        var row := s.sessions[sid].(retryCount := n, nextRetryAt := now + Backoff(n),
                                    lastExitReason := Some("REVIVE_FAILED"));
        if n >= MASTER_REVIVE_FUSE_THRESHOLD
        then s.With(sid, row, Exhausted(sid, n)).(fusing := s.fusing + multiset{sid})
        else s.With(sid, row, Spawn(sid, n, Backoff(n)))
    case Fuse(sid) =>
      if sid !in s.sessions then s else
        s.With(sid, s.sessions[sid].Ended(Failed, "FUSED"), Stopped(sid)).(fusing := s.fusing - multiset{sid})
    case Confirm(sid, pid, gen) =>
      if !s.Has(sid, pid, gen) then s else
        s.With(sid, s.sessions[sid].(retryCount := 0, nextRetryAt := 0), Confirmed(sid))
    case Close(sid) =>
      if !s.IsActive(sid) then s else s.With(sid, s.sessions[sid].Ended(Closed, "IDLE_MASTER_EXIT"), Stopped(sid))
    case Kill(sid) =>
      if !s.IsActive(sid) then s else s.With(sid, s.sessions[sid].Ended(Killed, "INTENTIONAL_KILL"), Stopped(sid))
    case Spawned(sid, newPid, pane) =>
      if sid !in s.sessions then s else
        var gen := s.sessions[sid].generation + 1;
        s.With(sid, s.sessions[sid].Idled().(masterPid := newPid, masterPaneId := Some(pane), generation := gen),
               Minted(sid, gen, false))
    case SpawnedAfterClaim(sid, gen, newPid, pane) =>
      if !s.HasGeneration(sid, gen) then s else
        s.With(sid, s.sessions[sid].Idled().(masterPid := newPid, masterPaneId := Some(pane)), Wrote(sid, gen, newPid))
    case _ => s
  }

  function CutoverStep(cutovers: Cutovers, sessions: Sessions, op: Op): Cutovers {
    match op
    case ClaimCutover(id, sid, oldPid) =>
      if Occupied(cutovers, sid) || id in cutovers || sid !in sessions then cutovers
      else cutovers[id := Cutover(sid, Preparing, oldPid, None, None, None, None, None, None)]
    case MoveCutover(id, from, to, now) =>
      if id !in cutovers || cutovers[id].state != from || IndexRefuses(cutovers, id, to) then cutovers
      else cutovers[id := cutovers[id].Moved(to, now)]
    case SpawnCutover(id, from, to, newPid, gen, pane, now) =>
      if id !in cutovers || cutovers[id].state != from || IndexRefuses(cutovers, id, to) then cutovers
      else cutovers[id := cutovers[id].Moved(to, now).(newMasterPid := Some(newPid), newMasterGeneration := Some(gen),
                                                       newMasterPaneId := Some(pane))]
    case AckCutover(id, mode, now) =>
      if id !in cutovers || !cutovers[id].state.Verifying? then cutovers
      else cutovers[id := cutovers[id].(ackReadyAt := Some(now), readinessMode := Some(mode))]
    case _ => cutovers
  }

  function Step(s: State, op: Op): State {
    SessionStep(s, op).(cutovers := CutoverStep(s.cutovers, s.sessions, op))
  }

  function Execute(s: State, ops: seq<Op>): State {
    if ops == [] then s else Step(Execute(s, ops[..|ops| - 1]), ops[|ops| - 1])
  }

  function Init(): State {
    State(map[], map[], multiset{}, [])
  }

  // What the events say about a session.

  function LastMinted(trace: seq<Event>, sid: Id): int {
    if trace == [] then 0 else
      var e := trace[|trace| - 1];
      if e.Minted? && e.sid == sid then e.gen else LastMinted(trace[..|trace| - 1], sid)
  }

  function AttemptsSince(trace: seq<Event>, sid: Id): int {
    if trace == [] then 0 else
      var e := trace[|trace| - 1];
      var before := AttemptsSince(trace[..|trace| - 1], sid);
      if e.sid != sid then before
      else if e.Confirmed? then 0
      else if e.Spawn? || e.Exhausted? then before + 1
      else before
  }

  function SpawnsSince(trace: seq<Event>, sid: Id): int {
    if trace == [] then 0 else
      var e := trace[|trace| - 1];
      var before := SpawnsSince(trace[..|trace| - 1], sid);
      if e.sid != sid then before else if e.Confirmed? then 0 else if e.Spawn? then before + 1 else before
  }

  predicate StoppedIn(trace: seq<Event>, sid: Id) {
    exists i :: 0 <= i < |trace| && trace[i] == Stopped(sid)
  }

  /** An event is in order after `past`. Generations are minted one by one; a claimed write carries the
      last one; attempts count up to four spawns, with doubling delays, before they exhaust the session;
      and a stopped session is only stopped again or given a generation without a claim. */
  predicate InOrder(past: seq<Event>, e: Event) {
    match e
    case Minted(sid, gen, byClaim) => gen == LastMinted(past, sid) + 1 && (byClaim ==> !StoppedIn(past, sid))
    case Wrote(sid, gen, _) => gen == LastMinted(past, sid) && !StoppedIn(past, sid)
    case Spawn(sid, n, delay) =>
      && n == AttemptsSince(past, sid) + 1
      && 1 <= n <= 4
      && delay == [1, 2, 4, 8][n - 1]
      && !StoppedIn(past, sid)
    case Exhausted(sid, n) =>
      && n == AttemptsSince(past, sid) + 1
      && n >= MASTER_REVIVE_FUSE_THRESHOLD
      && !StoppedIn(past, sid)
    case Confirmed(sid) => !StoppedIn(past, sid)
    case Stopped(_) => true
  }

  predicate Orderly(trace: seq<Event>) {
    forall j :: 0 <= j < |trace| ==> InOrder(trace[..j], trace[j])
  }

  // The invariant.

  predicate RowOk(s: State, sid: Id, r: Session) {
    && r.generation == LastMinted(s.trace, sid)
    && r.retryCount == AttemptsSince(s.trace, sid)
    && r.retryCount >= 0
    && (r.status == Active <==> !StoppedIn(s.trace, sid))
    && (r.status == Active && r.retryCount >= MASTER_REVIVE_FUSE_THRESHOLD ==> sid in s.fusing)
  }

  predicate Untouched(trace: seq<Event>, sid: Id) {
    LastMinted(trace, sid) == 0 && AttemptsSince(trace, sid) == 0 && !StoppedIn(trace, sid)
  }

  ghost predicate SessionsOk(s: State) {
    && Orderly(s.trace)
    && (forall sid :: sid in s.sessions ==> RowOk(s, sid, s.sessions[sid]))
    && (forall sid :: sid !in s.sessions ==> Untouched(s.trace, sid))
  }

  predicate CutoversOk(cutovers: Cutovers) {
    && (forall a, b :: a in cutovers && b in cutovers && cutovers[a].Rivals(cutovers[b]) ==> a == b)
    && (forall id :: id in cutovers && !cutovers[id].state.Occupying() ==> cutovers[id].completedAt.Some?)
  }

  lemma Append(trace: seq<Event>, e: Event)
    requires Orderly(trace) && InOrder(trace, e)
    ensures var next := trace + [e];
            && Orderly(next)
            && (forall sid :: LastMinted(next, sid) ==
                  if e.Minted? && e.sid == sid then e.gen else LastMinted(trace, sid))
            && (forall sid :: AttemptsSince(next, sid) ==
                  if e.sid != sid then AttemptsSince(trace, sid)
                  else if e.Confirmed? then 0
                  else if e.Spawn? || e.Exhausted? then AttemptsSince(trace, sid) + 1
                  else AttemptsSince(trace, sid))
            && (forall sid :: StoppedIn(next, sid) <==> StoppedIn(trace, sid) || e == Stopped(sid))
  {
    var next := trace + [e];
    assert next[..|trace|] == trace;
    forall j | 0 <= j < |next|
      ensures InOrder(next[..j], next[j])
    {
      assert j < |trace| ==> next[..j] == trace[..j];
    }
    forall sid
      ensures StoppedIn(next, sid) <==> StoppedIn(trace, sid) || e == Stopped(sid)
    {
      if StoppedIn(trace, sid) {
        var i :| 0 <= i < |trace| && trace[i] == Stopped(sid);
        assert next[i] == Stopped(sid);
      }
      if e == Stopped(sid) {
        assert next[|trace|] == Stopped(sid);
      }
    }
  }

  predicate OneEvent(s: State, next: State, sid: Id, e: Event) {
    && sid in s.sessions
    && sid in next.sessions
    && e.sid == sid
    && next.trace == s.trace + [e]
    && next.sessions == s.sessions[sid := next.sessions[sid]]
    && (forall other :: other != sid && other in s.fusing ==> other in next.fusing)
  }

  /** A session step changes nothing, inserts a fresh row, or rewrites one row and leaves one event. */
  lemma StepShape(s: State, op: Op)
    ensures var next := SessionStep(s, op);
            || next == s
            || (op.InsertSession? && op.sid !in s.sessions
                && next == s.(sessions := s.sessions[op.sid := NewSession(op.pid)]))
            || (|next.trace| == |s.trace| + 1 && OneEvent(s, next, next.trace[|s.trace|].sid, next.trace[|s.trace|]))
  {
  }

  lemma StepInOrder(s: State, op: Op)
    requires SessionsOk(s)
    ensures var next := SessionStep(s, op);
            |next.trace| == |s.trace| + 1 ==> InOrder(s.trace, next.trace[|s.trace|])
  {
    hide LastMinted, AttemptsSince, StoppedIn, Orderly;
  }

  lemma StepRow(s: State, op: Op)
    requires SessionsOk(s)
    ensures var next := SessionStep(s, op);
            |next.trace| == |s.trace| + 1 ==>
              var e := next.trace[|s.trace|];
              e.sid in next.sessions && RowAfter(s, e, next.sessions[e.sid], next.fusing)
  {
    hide LastMinted, AttemptsSince, StoppedIn, Orderly, InOrder;
  }

  /** `RowOk` after one more event, said with the events before it. */
  predicate RowAfter(s: State, e: Event, r: Session, fusing: multiset<Id>) {
    && r.generation == (if e.Minted? then e.gen else LastMinted(s.trace, e.sid))
    && r.retryCount == (if e.Confirmed? then 0
                        else AttemptsSince(s.trace, e.sid) + if e.Spawn? || e.Exhausted? then 1 else 0)
    && r.retryCount >= 0
    && (r.status == Active <==> !StoppedIn(s.trace, e.sid) && !e.Stopped?)
    && (r.status == Active && r.retryCount >= MASTER_REVIVE_FUSE_THRESHOLD ==> e.sid in fusing)
  }

  lemma OneRow(s: State, next: State, sid: Id, e: Event)
    requires SessionsOk(s) && OneEvent(s, next, sid, e)
    requires InOrder(s.trace, e) && RowAfter(s, e, next.sessions[sid], next.fusing)
    ensures SessionsOk(next)
  {
    hide InOrder, LastMinted, AttemptsSince, StoppedIn, Orderly;
    Append(s.trace, e);
  }

  lemma SessionStepKeeps(s: State, op: Op)
    requires SessionsOk(s)
    ensures SessionsOk(SessionStep(s, op))
  {
    hide SessionStep, InOrder, RowAfter, LastMinted, AttemptsSince, StoppedIn, Orderly;
    StepShape(s, op);
    StepInOrder(s, op);
    StepRow(s, op);
    var next := SessionStep(s, op);
    if |next.trace| == |s.trace| + 1 {
      var e := next.trace[|s.trace|];
      OneRow(s, next, e.sid, e);
    }
  }

  lemma CutoverStepKeeps(cutovers: Cutovers, sessions: Sessions, op: Op)
    requires CutoversOk(cutovers)
    ensures CutoversOk(CutoverStep(cutovers, sessions, op))
  {
  }

  ghost predicate Inv(s: State) {
    SessionsOk(s) && CutoversOk(s.cutovers)
  }

  lemma SameSessions(s: State, cutovers: Cutovers)
    requires SessionsOk(s)
    ensures SessionsOk(s.(cutovers := cutovers))
  {
    hide LastMinted, AttemptsSince, StoppedIn, Orderly;
  }

  lemma StepKeeps(s: State, op: Op)
    requires Inv(s)
    ensures Inv(Step(s, op))
  {
    hide SessionStep, CutoverStep, SessionsOk, CutoversOk;
    SessionStepKeeps(s, op);
    CutoverStepKeeps(s.cutovers, s.sessions, op);
    SameSessions(SessionStep(s, op), CutoverStep(s.cutovers, s.sessions, op));
  }

  lemma {:induction false} RunKeeps(s: State, ops: seq<Op>)
    requires Inv(s)
    ensures Inv(Execute(s, ops))
  {
    hide Step, Inv;
    if ops != [] {
      RunKeeps(s, ops[..|ops| - 1]);
      StepKeeps(Execute(s, ops[..|ops| - 1]), ops[|ops| - 1]);
    }
  }

  lemma OneMore(s: State, ops: seq<Op>, op: Op)
    ensures Execute(s, ops + [op]) == Step(Execute(s, ops), op)
  {
    assert (ops + [op])[..|ops|] == ops;
  }

  /** The invariant holds in every state that any interleaving of steps can reach. */
  lemma Reachable(ops: seq<Op>)
    ensures Inv(Execute(Init(), ops))
  {
    RunKeeps(Init(), ops);
  }

  lemma StepGrows(s: State, op: Op)
    ensures s.trace <= Step(s, op).trace
    ensures s.sessions.Keys <= Step(s, op).sessions.Keys
    ensures s.cutovers.Keys <= Step(s, op).cutovers.Keys
    ensures forall id :: id in s.cutovers && s.cutovers[id].completedAt.Some? ==>
              Step(s, op).cutovers[id].completedAt.Some?
  {
    StepShape(s, op);
  }

  /** Events are only ever added, rows are never removed, and no cutover's completion time is cleared. */
  lemma {:induction false} RunGrows(s: State, ops: seq<Op>)
    ensures s.trace <= Execute(s, ops).trace
    ensures s.sessions.Keys <= Execute(s, ops).sessions.Keys
    ensures s.cutovers.Keys <= Execute(s, ops).cutovers.Keys
    ensures forall id :: id in s.cutovers && s.cutovers[id].completedAt.Some? ==>
              Execute(s, ops).cutovers[id].completedAt.Some?
  {
    hide Step;
    if ops != [] {
      RunGrows(s, ops[..|ops| - 1]);
      StepGrows(Execute(s, ops[..|ops| - 1]), ops[|ops| - 1]);
    }
  }

  // Generations.

  predicate MintsFor(e: Event, sid: Id) {
    e.Minted? && e.sid == sid
  }

  predicate MintedIn(trace: seq<Event>, sid: Id, from: nat) {
    exists i :: from <= i < |trace| && MintsFor(trace[i], sid)
  }

  predicate MintedAs(trace: seq<Event>, sid: Id, gen: int) {
    exists i :: 0 <= i < |trace| && MintsFor(trace[i], sid) && trace[i].gen == gen
  }

  lemma MintedInLast(trace: seq<Event>, sid: Id, from: nat)
    requires from < |trace|
    ensures MintedIn(trace, sid, from) <==>
              MintedIn(trace[..|trace| - 1], sid, from) || MintsFor(trace[|trace| - 1], sid)
  {
    var before := trace[..|trace| - 1];
    assert forall i :: 0 <= i < |before| ==> before[i] == trace[i];
    if MintedIn(before, sid, from) {
      var i :| from <= i < |before| && MintsFor(before[i], sid);
      assert MintsFor(trace[i], sid);
    }
  }

  /** Over the events since `from`, the latest generation grows exactly when one was minted. */
  lemma {:induction false} MintedSince(trace: seq<Event>, sid: Id, from: nat)
    requires Orderly(trace) && from <= |trace|
    ensures LastMinted(trace[..from], sid) <= LastMinted(trace, sid)
    ensures LastMinted(trace[..from], sid) < LastMinted(trace, sid) <==> MintedIn(trace, sid, from)
  {
    hide MintedIn, Orderly;
    if from == |trace| {
      assert trace[..from] == trace;
      NoneYet(trace, sid);
    } else {
      var last := |trace| - 1;
      Prefix(trace, last);
      MintedSince(trace[..last], sid, from);
      assert trace[..last][..from] == trace[..from];
      MintedInLast(trace, sid, from);
      LastMintedStep(trace, sid);
    }
  }

  lemma NoneYet(trace: seq<Event>, sid: Id)
    ensures !MintedIn(trace, sid, |trace|)
  {
  }

  lemma LastMintedStep(trace: seq<Event>, sid: Id)
    requires Orderly(trace) && trace != []
    ensures LastMinted(trace, sid) ==
            LastMinted(trace[..|trace| - 1], sid) + if MintsFor(trace[|trace| - 1], sid) then 1 else 0
  {
    assert InOrder(trace[..|trace| - 1], trace[|trace| - 1]);
  }

  lemma Prefix(trace: seq<Event>, n: nat)
    requires Orderly(trace) && n <= |trace|
    ensures Orderly(trace[..n])
  {
    hide InOrder;
    forall j | 0 <= j < n
      ensures InOrder(trace[..n][..j], trace[..n][j])
    {
      assert trace[..n][..j] == trace[..j];
    }
  }

  /** A minted generation is at most the latest one after it and above every latest one before it. */
  lemma MintedAround(trace: seq<Event>, sid: Id, i: nat, j: nat)
    requires Orderly(trace) && i < |trace| && j <= |trace| && MintsFor(trace[i], sid)
    ensures i < j <==> trace[i].gen <= LastMinted(trace[..j], sid)
  {
    assert InOrder(trace[..i], trace[i]);
    hide Orderly, MintedIn;
    if i < j {
      Prefix(trace, j);
      MintedSince(trace[..j], sid, i + 1);
      assert trace[..j][..i + 1] == trace[..i + 1];
      assert trace[..i + 1][..i] == trace[..i];
    } else {
      Prefix(trace, i);
      MintedSince(trace[..i], sid, j);
      assert trace[..i][..j] == trace[..j];
    }
  }

  lemma MintedOnce(trace: seq<Event>, sid: Id, i: nat, j: nat)
    requires Orderly(trace) && i < j < |trace|
    requires MintsFor(trace[i], sid) && MintsFor(trace[j], sid)
    ensures trace[i].gen < trace[j].gen
  {
    assert InOrder(trace[..j], trace[j]);
    hide Orderly, LastMinted;
    MintedAround(trace, sid, i, j);
  }

  lemma {:induction false} EveryGenerationMinted(trace: seq<Event>, sid: Id, gen: int)
    requires Orderly(trace) && 1 <= gen <= LastMinted(trace, sid)
    ensures MintedAs(trace, sid, gen)
  {
    var last := |trace| - 1;
    Prefix(trace, last);
    LastMintedStep(trace, sid);
    if gen == LastMinted(trace, sid) && MintsFor(trace[last], sid) {
      assert MintsFor(trace[last], sid) && trace[last].gen == gen;
    } else {
      EveryGenerationMinted(trace[..last], sid, gen);
      var i :| 0 <= i < last && MintsFor(trace[..last][i], sid) && trace[..last][i].gen == gen;
      assert MintsFor(trace[i], sid);
    }
  }

  /** The row's generation counts the generations minted for it: the values 1 .. generation, each minted
      once and in order, whoever minted them. */
  lemma GenerationsAreMintedOnce(ops: seq<Op>, sid: Id)
    requires sid in Execute(Init(), ops).sessions
    ensures var s := Execute(Init(), ops);
            && s.sessions[sid].generation == LastMinted(s.trace, sid)
            && (forall i, j :: 0 <= i < j < |s.trace| && MintsFor(s.trace[i], sid) && MintsFor(s.trace[j], sid)
                  ==> s.trace[i].gen < s.trace[j].gen)
            && (forall gen :: 1 <= gen <= s.sessions[sid].generation ==> MintedAs(s.trace, sid, gen))
  {
    Reachable(ops);
    var s := Execute(Init(), ops);
    hide Execute, Orderly;
    assert RowOk(s, sid, s.sessions[sid]);
    forall i, j | 0 <= i < j < |s.trace| && MintsFor(s.trace[i], sid) && MintsFor(s.trace[j], sid)
      ensures s.trace[i].gen < s.trace[j].gen
    {
      MintedOnce(s.trace, sid, i, j);
    }
    forall gen | 1 <= gen <= s.sessions[sid].generation
      ensures MintedAs(s.trace, sid, gen)
    {
      EveryGenerationMinted(s.trace, sid, gen);
    }
  }

  /** A write under generation `gen` comes after every event that minted a generation up to `gen` and
      before any that minted a later one: an older master never overwrites a newer one. */
  lemma WritesAreFenced(ops: seq<Op>, j: nat)
    requires j < |Execute(Init(), ops).trace| && Execute(Init(), ops).trace[j].Wrote?
    ensures var trace := Execute(Init(), ops).trace;
            forall i :: 0 <= i < |trace| && MintsFor(trace[i], trace[j].sid) ==>
              (i < j <==> trace[i].gen <= trace[j].gen)
  {
    Reachable(ops);
    var trace := Execute(Init(), ops).trace;
    assert InOrder(trace[..j], trace[j]);
    hide Execute, Orderly, LastMinted;
    forall i | 0 <= i < |trace| && MintsFor(trace[i], trace[j].sid)
      ensures i < j <==> trace[i].gen <= trace[j].gen
    {
      MintedAround(trace, trace[j].sid, i, j);
    }
  }

  lemma FenceFrom(seen: State, more: seq<Op>, sid: Id)
    requires Inv(seen) && sid in seen.sessions
    ensures var now := Execute(seen, more);
            && sid in now.sessions
            && seen.sessions[sid].generation <= now.sessions[sid].generation
            && (now.sessions[sid].generation == seen.sessions[sid].generation <==>
                  !MintedIn(now.trace, sid, |seen.trace|))
            && (now.sessions[sid].status == Active <==> !StoppedIn(now.trace, sid))
  {
    var now := Execute(seen, more);
    RunKeeps(seen, more);
    RunGrows(seen, more);
    hide Execute, Orderly, LastMinted, MintedIn, StoppedIn;
    assert now.trace[..|seen.trace|] == seen.trace;
    assert RowOk(seen, sid, seen.sessions[sid]) && RowOk(now, sid, now.sessions[sid]);
    MintedSince(now.trace, sid, |seen.trace|);
  }

  /** A session keeps the generation a watcher has seen exactly as long as nobody mints another, and is
      ACTIVE exactly as long as nobody stops it: a snapshot that still matches is not a reused one. */
  lemma GenerationIsAFence(ops: seq<Op>, more: seq<Op>, sid: Id)
    requires sid in Execute(Init(), ops).sessions
    ensures var seen := Execute(Init(), ops);
            var now := Execute(seen, more);
            && sid in now.sessions
            && seen.sessions[sid].generation <= now.sessions[sid].generation
            && (now.sessions[sid].generation == seen.sessions[sid].generation <==>
                  !MintedIn(now.trace, sid, |seen.trace|))
            && (now.sessions[sid].status == Active <==> !StoppedIn(now.trace, sid))
  {
    Reachable(ops);
    hide Inv;
    FenceFrom(Execute(Init(), ops), more, sid);
  }

  /** After a successful claim, the claimed generation is writable exactly until the session is stopped or
      another generation minted, and no one else can claim the generation it was claimed from. */
  lemma ClaimIsExclusive(ops: seq<Op>, sid: Id, pid: int, gen: int, more: seq<Op>)
    requires Execute(Init(), ops).Has(sid, pid, gen)
    ensures var claimed := Execute(Init(), ops + [Claim(sid, pid, gen)]);
            var now := Execute(claimed, more);
            && (now.HasGeneration(sid, gen + 1) <==>
                  !StoppedIn(now.trace, sid) && !MintedIn(now.trace, sid, |claimed.trace|))
            && (forall anyPid :: !now.Has(sid, anyPid, gen))
  {
    OneMore(Init(), ops, Claim(sid, pid, gen));
    GenerationIsAFence(ops + [Claim(sid, pid, gen)], more, sid);
  }

  // The retry budget.

  lemma {:induction false} SpawnsAreAttempts(trace: seq<Event>, sid: Id)
    requires Orderly(trace)
    ensures 0 <= SpawnsSince(trace, sid) <= 4
    ensures SpawnsSince(trace, sid) <= AttemptsSince(trace, sid)
  {
    if trace != [] {
      var last := |trace| - 1;
      Prefix(trace, last);
      SpawnsAreAttempts(trace[..last], sid);
      assert InOrder(trace[..last], trace[last]);
    }
  }

  /** Between two confirmations at most four attempts spawn a master, each after twice the delay of the one
      before; and outside the window of a pending fuse no ACTIVE session has more than four. */
  lemma ReviveBudget(ops: seq<Op>, sid: Id)
    ensures var s := Execute(Init(), ops);
            && SpawnsSince(s.trace, sid) <= 4
            && (forall j :: 0 <= j < |s.trace| && s.trace[j].Spawn? ==> SpawnsWithBackoff(s.trace[..j], s.trace[j]))
            && (s.IsActive(sid) && sid !in s.fusing ==> SpawnsSince(s.trace, sid) <= s.sessions[sid].retryCount <= 4)
  {
    Reachable(ops);
    var s := Execute(Init(), ops);
    hide Execute;
    SpawnsAreAttempts(s.trace, sid);
    assert s.IsActive(sid) ==> RowOk(s, sid, s.sessions[sid]);
    forall j | 0 <= j < |s.trace| && s.trace[j].Spawn?
      ensures SpawnsWithBackoff(s.trace[..j], s.trace[j])
    {
      assert InOrder(s.trace[..j], s.trace[j]);
    }
  }

  predicate SpawnsWithBackoff(past: seq<Event>, e: Event)
    requires e.Spawn?
  {
    var n := AttemptsSince(past, e.sid);
    e.retryCount == n + 1 && 0 <= n < 4 && e.delay == [1, 2, 4, 8][n]
  }

  lemma StoppedEarlier(trace: seq<Event>, n: nat, sid: Id)
    requires n <= |trace| && StoppedIn(trace[..n], sid)
    ensures StoppedIn(trace, sid)
  {
    var i :| 0 <= i < n && trace[..n][i] == Stopped(sid);
    assert trace[i] == Stopped(sid);
  }

  /** A session that was killed, closed or fused is never ACTIVE again, and from then on no claim, claimed
      write, attempt or confirmation of it takes effect. */
  lemma StoppedForever(ops: seq<Op>, more: seq<Op>, sid: Id)
    requires StoppedIn(Execute(Init(), ops).trace, sid)
    ensures var stopped := Execute(Init(), ops);
            var now := Execute(stopped, more);
            && !now.IsActive(sid)
            && (forall j :: |stopped.trace| <= j < |now.trace| && now.trace[j].sid == sid ==>
                  now.trace[j].Stopped? || (now.trace[j].Minted? && !now.trace[j].byClaim))
  {
    var stopped := Execute(Init(), ops);
    var now := Execute(stopped, more);
    Reachable(ops);
    RunKeeps(stopped, more);
    RunGrows(stopped, more);
    hide Execute, StoppedIn, LastMinted, AttemptsSince;
    assert now.trace[..|stopped.trace|] == stopped.trace;
    StoppedEarlier(now.trace, |stopped.trace|, sid);
    assert sid in now.sessions ==> RowOk(now, sid, now.sessions[sid]);
    forall j | |stopped.trace| <= j < |now.trace| && now.trace[j].sid == sid
      ensures now.trace[j].Stopped? || (now.trace[j].Minted? && !now.trace[j].byClaim)
    {
      assert now.trace[..j][..|stopped.trace|] == stopped.trace;
      StoppedEarlier(now.trace[..j], |stopped.trace|, sid);
      assert InOrder(now.trace[..j], now.trace[j]);
    }
  }

  // Who wrote what the rows say.

  datatype Column = StatusColumn | MasterColumn | GenerationColumn | RetryColumn | MoodColumn | ReasonColumn

  datatype Cell =
    | StatusCell(status: SessionStatus)
    | MasterCell(pid: int, pane: Option<string>)
    | GenerationCell(generation: int)
    | RetryCell(count: int, nextAt: int)
    | MoodCell(state: MasterState, tell: Option<string>)
    | ReasonCell(reason: Option<string>)

  function CellOf(r: Session, c: Column): Cell {
    match c
    case StatusColumn => StatusCell(r.status)
    case MasterColumn => MasterCell(r.masterPid, r.masterPaneId)
    case GenerationColumn => GenerationCell(r.generation)
    case RetryColumn => RetryCell(r.retryCount, r.nextRetryAt)
    case MoodColumn => MoodCell(r.masterState, r.pendingTell)
    case ReasonColumn => ReasonCell(r.lastExitReason)
  }

  /** The WHERE clause of the step matches the row of this session. */
  predicate Matches(s: State, op: Op, sid: Id) {
    match op
    case InsertSession(id, _) => id == sid && sid !in s.sessions
    case _ =>
      && sid in s.sessions
      && var r := s.sessions[sid];
      match op
      case Claim(id, pid, gen) => id == sid && r.status == Active && r.masterPid == pid && r.generation == gen
      case Attempt(id, pid, gen, _) => id == sid && r.status == Active && r.masterPid == pid && r.generation == gen
      case Confirm(id, pid, gen) => id == sid && r.status == Active && r.masterPid == pid && r.generation == gen
      case Complete(id, gen, _, _) => id == sid && r.status == Active && r.generation == gen
      case SpawnedAfterClaim(id, gen, _, _) => id == sid && r.status == Active && r.generation == gen
      case Close(id) => id == sid && r.status == Active
      case Kill(id) => id == sid && r.status == Active
      case Fuse(id) => id == sid
      case Spawned(id, _, _) => id == sid
      case _ => false
  }

  /** What a step whose clause matches puts into a column, if it sets it at all. */
  function Sets(s: State, op: Op, sid: Id, c: Column): Option<Cell> {
    match c
    case StatusColumn =>
      if op.InsertSession? then Some(StatusCell(Active))
      else if op.Fuse? then Some(StatusCell(Failed))
      else if op.Close? then Some(StatusCell(Closed))
      else if op.Kill? then Some(StatusCell(Killed))
      else None
    case MasterColumn =>
      if op.InsertSession? then Some(MasterCell(op.pid, None))
      else if op.Complete? || op.Spawned? || op.SpawnedAfterClaim? then Some(MasterCell(op.newPid, Some(op.pane)))
      else None
    case GenerationColumn =>
      if op.InsertSession? then Some(GenerationCell(0))
      else if (op.Claim? || op.Spawned?) && sid in s.sessions
      then Some(GenerationCell(s.sessions[sid].generation + 1))
      else None
    case RetryColumn =>
      if op.InsertSession? || op.Confirm? then Some(RetryCell(0, 0))
      else if op.Attempt? && sid in s.sessions then
        var failed := s.sessions[sid].retryCount;
        var delay := if failed <= 0 then 1 else if failed >= 4 then 16 else [1, 2, 4, 8][failed];
        Some(RetryCell(failed + 1, op.now + delay))
      else None
    case MoodColumn => if op.Attempt? || op.Confirm? then None else Some(MoodCell(Idle, None))
    case ReasonColumn =>
      if op.InsertSession? then Some(ReasonCell(None))
      else if op.Complete? then Some(ReasonCell(Some("OOM_OR_CRASH")))
      else if op.Attempt? then Some(ReasonCell(Some("REVIVE_FAILED")))
      else if op.Fuse? then Some(ReasonCell(Some("FUSED")))
      else if op.Close? then Some(ReasonCell(Some("IDLE_MASTER_EXIT")))
      else if op.Kill? then Some(ReasonCell(Some("INTENTIONAL_KILL")))
      else None
  }

  predicate SetsColumn(s: State, op: Op, sid: Id, c: Column) {
    Matches(s, op, sid) && Sets(s, op, sid, c).Some?
  }

  lemma UnmatchedStep(s: State, op: Op, sid: Id)
    requires !Matches(s, op, sid)
    ensures sid in Step(s, op).sessions <==> sid in s.sessions
    ensures sid in s.sessions ==> Step(s, op).sessions[sid] == s.sessions[sid]
  {
    hide CutoverStep;
  }

  lemma MasterStep(s: State, op: Op, sid: Id, c: Column)
    requires Matches(s, op, sid) && (op.InsertSession? || op.Complete? || op.Spawned? || op.SpawnedAfterClaim?)
    ensures sid in Step(s, op).sessions
    ensures Sets(s, op, sid, c).Some? ==> CellOf(Step(s, op).sessions[sid], c) == Sets(s, op, sid, c).value
    ensures Sets(s, op, sid, c).None? ==>
              sid in s.sessions && CellOf(Step(s, op).sessions[sid], c) == CellOf(s.sessions[sid], c)
  {
    hide CutoverStep;
  }

  lemma CounterStep(s: State, op: Op, sid: Id, c: Column)
    requires Matches(s, op, sid) && (op.Claim? || op.Attempt? || op.Confirm?)
    ensures sid in Step(s, op).sessions
    ensures Sets(s, op, sid, c).Some? ==> CellOf(Step(s, op).sessions[sid], c) == Sets(s, op, sid, c).value
    ensures Sets(s, op, sid, c).None? ==>
              sid in s.sessions && CellOf(Step(s, op).sessions[sid], c) == CellOf(s.sessions[sid], c)
  {
    hide CutoverStep;
  }

  lemma EndStep(s: State, op: Op, sid: Id, c: Column)
    requires Matches(s, op, sid) && (op.Fuse? || op.Close? || op.Kill?)
    ensures sid in Step(s, op).sessions
    ensures Sets(s, op, sid, c).Some? ==> CellOf(Step(s, op).sessions[sid], c) == Sets(s, op, sid, c).value
    ensures Sets(s, op, sid, c).None? ==>
              sid in s.sessions && CellOf(Step(s, op).sessions[sid], c) == CellOf(s.sessions[sid], c)
  {
    hide CutoverStep;
  }

  lemma MatchedStep(s: State, op: Op, sid: Id, c: Column)
    requires Matches(s, op, sid)
    ensures sid in Step(s, op).sessions
    ensures Sets(s, op, sid, c).Some? ==> CellOf(Step(s, op).sessions[sid], c) == Sets(s, op, sid, c).value
    ensures Sets(s, op, sid, c).None? ==>
              sid in s.sessions && CellOf(Step(s, op).sessions[sid], c) == CellOf(s.sessions[sid], c)
  {
    hide Step, Sets, CellOf;
    if op.InsertSession? || op.Complete? || op.Spawned? || op.SpawnedAfterClaim? {
      MasterStep(s, op, sid, c);
    } else if op.Claim? || op.Attempt? || op.Confirm? {
      CounterStep(s, op, sid, c);
    } else {
      EndStep(s, op, sid, c);
    }
  }

  /** From any state: a step that sets a column of a row puts its value there, and any other step leaves it. */
  lemma ColumnStep(s: State, op: Op, sid: Id, c: Column)
    ensures sid in Step(s, op).sessions <==> sid in s.sessions || Matches(s, op, sid)
    ensures SetsColumn(s, op, sid, c) ==> CellOf(Step(s, op).sessions[sid], c) == Sets(s, op, sid, c).value
    ensures sid in Step(s, op).sessions && !SetsColumn(s, op, sid, c) ==>
              sid in s.sessions && CellOf(Step(s, op).sessions[sid], c) == CellOf(s.sessions[sid], c)
  {
    hide Step, Matches, Sets, CellOf;
    if Matches(s, op, sid) {
      MatchedStep(s, op, sid, c);
    } else {
      UnmatchedStep(s, op, sid);
    }
  }

  /** Step `u` of the run set the column, and no later step has. */
  ghost predicate SetAt(ops: seq<Op>, sid: Id, c: Column, cell: Cell, u: nat) {
    && u < |ops|
    && Matches(Execute(Init(), ops[..u]), ops[u], sid)
    && Sets(Execute(Init(), ops[..u]), ops[u], sid, c) == Some(cell)
    && forall j :: u < j < |ops| ==> !SetsColumn(Execute(Init(), ops[..j]), ops[j], sid, c)
  }

  /** In every reachable state each column of a row holds what the last step that set it put there: the row names the
      master of its last spawn or claimed write, carries the reason of its last failure or end, and so on. */
  lemma {:induction false} RowsSayWhatWasWritten(ops: seq<Op>, sid: Id, c: Column) returns (u: nat)
    requires sid in Execute(Init(), ops).sessions
    ensures SetAt(ops, sid, c, CellOf(Execute(Init(), ops).sessions[sid], c), u)
  {
    hide Step, Matches, Sets, SetsColumn, CellOf;
    var before, last := ops[..|ops| - 1], |ops| - 1;
    var s := Execute(Init(), before);
    ColumnStep(s, ops[last], sid, c);
    if SetsColumn(s, ops[last], sid, c) {
      u := last;
      SetsMeans(s, ops[last], sid, c);
    } else {
      u := RowsSayWhatWasWritten(before, sid, c);
      assert before[..u] == ops[..u] && before[u] == ops[u];
      forall j | u < j < |ops|
        ensures !SetsColumn(Execute(Init(), ops[..j]), ops[j], sid, c)
      {
        assert j < last ==> before[..j] == ops[..j] && before[j] == ops[j];
      }
    }
  }

  lemma SetsMeans(s: State, op: Op, sid: Id, c: Column)
    requires SetsColumn(s, op, sid, c)
    ensures Matches(s, op, sid) && Sets(s, op, sid, c).Some?
  {
  }

  /** The same for cutovers: what a step that takes effect makes of the row of cutover `id`, column by column. */
  predicate CutoverMatches(s: State, op: Op, id: Id) {
    match op
    case ClaimCutover(cid, sid, _) =>
      && cid == id && id !in s.cutovers && sid in s.sessions
      && forall other :: other in s.cutovers && s.cutovers[other].sessionId == sid ==>
           s.cutovers[other].state in {RolledBack, FailedCutover, Released}
    case MoveCutover(cid, from, to, _) => cid == id && Movable(s, id, from, to)
    case SpawnCutover(cid, from, to, _, _, _, _) => cid == id && Movable(s, id, from, to)
    case AckCutover(cid, _, _) => cid == id && id in s.cutovers && s.cutovers[id].state == Verifying
    case _ => false
  }

  /** The row has the expected state, and the unique index lets it have the new one. */
  predicate Movable(s: State, id: Id, from: CutoverState, to: CutoverState) {
    && id in s.cutovers
    && s.cutovers[id].state == from
    && (to in {Preparing, Spawning, Verifying, ActiveCutover} ==>
          forall other :: other in s.cutovers && other != id
                          && s.cutovers[other].sessionId == s.cutovers[id].sessionId ==>
            s.cutovers[other].state in {RolledBack, FailedCutover, Released})
  }

  lemma CutoverColumns(s: State, op: Op, id: Id)
    ensures var next := Step(s, op).cutovers;
            var moves := op.MoveCutover? || op.SpawnCutover?;
            if !CutoverMatches(s, op, id) then
              (id in next <==> id in s.cutovers) && (id in next ==> next[id] == s.cutovers[id])
            else
              && id in next
              && next[id].sessionId == (if op.ClaimCutover? then op.sid else s.cutovers[id].sessionId)
              && next[id].state ==
                 (if op.ClaimCutover? then Preparing else if moves then op.to else s.cutovers[id].state)
              && next[id].oldMasterPid == (if op.ClaimCutover? then op.oldPid else s.cutovers[id].oldMasterPid)
              && (next[id].newMasterPid, next[id].newMasterGeneration, next[id].newMasterPaneId) ==
                 (if op.ClaimCutover? then (None, None, None)
                  else if op.SpawnCutover? then (Some(op.newPid), Some(op.gen), Some(op.pane))
                  else var was := s.cutovers[id];
                       (was.newMasterPid, was.newMasterGeneration, was.newMasterPaneId))
              && (next[id].ackReadyAt, next[id].readinessMode) ==
                 (if op.ClaimCutover? then (None, None)
                  else if op.AckCutover? then (Some(op.now), Some(op.mode))
                  else (s.cutovers[id].ackReadyAt, s.cutovers[id].readinessMode))
              && next[id].completedAt ==
                 (if op.ClaimCutover? then None
                  else if moves && op.to in {RolledBack, FailedCutover, Released} then Some(op.now)
                  else s.cutovers[id].completedAt)
  {
  }

  // Cutovers and the death classifier.

  /** In every reachable state a session has at most one cutover under way or active, every other cutover
      has its completion time, and later steps keep it. */
  lemma CutoversAreExclusive(ops: seq<Op>, more: seq<Op>)
    ensures var s := Execute(Init(), ops);
            && (forall a, b :: a in s.cutovers && b in s.cutovers && s.cutovers[a].Rivals(s.cutovers[b]) ==> a == b)
            && (forall id :: id in s.cutovers && !s.cutovers[id].state.Occupying() ==>
                  id in Execute(s, more).cutovers && Execute(s, more).cutovers[id].completedAt.Some?)
  {
    Reachable(ops);
    RunGrows(Execute(Init(), ops), more);
  }

  datatype DeathDecision = Revive | IntentionalExit | Stale

  /** The classifier; the row and the cutovers are read under two separate acquisitions of the connection. */
  function Classify(row: Option<Session>, inflight: bool, pid: int, gen: int): DeathDecision {
    match row
    case None => Stale
    case Some(r) =>
      if r.status != Active then IntentionalExit
      else if inflight then IntentionalExit
      else if r.masterPid == pid && r.generation == gen then Revive
      else Stale
  }

  function RowOf(s: State, sid: Id): Option<Session> {
    if sid in s.sessions then Some(s.sessions[sid]) else None
  }

  /** The row is ACTIVE and names this master under this generation. */
  predicate NamesMaster(s: State, sid: Id, pid: int, gen: int) {
    && sid in s.sessions
    && s.sessions[sid].status == Active && s.sessions[sid].masterPid == pid && s.sessions[sid].generation == gen
  }

  /** No cutover of the session is PREPARING, SPAWNING or VERIFYING. */
  predicate NoneUnderWay(cutovers: Cutovers, sid: Id) {
    forall id :: id in cutovers && cutovers[id].sessionId == sid ==>
      cutovers[id].state in {ActiveCutover, RolledBack, FailedCutover, Released}
  }

  /** With the row read in `first`, the cutovers in `second` and the claim made in `third`: the answer is
      Revive exactly when the row matched and no cutover was in flight, and a claim that then succeeds
      was overtaken by no stop and no other generation since the row was read. */
  lemma ReviveIsSafe(ops: seq<Op>, between: seq<Op>, later: seq<Op>, sid: Id, pid: int, gen: int)
    ensures var first := Execute(Init(), ops);
            var second := Execute(first, between);
            var third := Execute(second, later);
            var answer := Classify(RowOf(first, sid), HasInflight(second.cutovers, sid), pid, gen);
            && (answer == Revive <==> NamesMaster(first, sid, pid, gen) && NoneUnderWay(second.cutovers, sid))
            && (answer == Stale <==>
                  sid !in first.sessions
                  || (first.sessions[sid].status == Active && NoneUnderWay(second.cutovers, sid)
                      && !NamesMaster(first, sid, pid, gen)))
            && (answer == Revive && between == [] && later == [] ==>
                  Step(third, Claim(sid, pid, gen)).trace == third.trace + [Minted(sid, gen + 1, true)])
            && (answer == Revive && third.Has(sid, pid, gen) ==>
                  !StoppedIn(third.trace, sid) && !MintedIn(third.trace, sid, |first.trace|))
  {
    var first := Execute(Init(), ops);
    var second := Execute(first, between);
    var third := Execute(second, later);
    hide Execute, StoppedIn, MintedIn;
    ExecuteJoins(first, between, later);
    EmptyRun(first);
    if first.Has(sid, pid, gen) {
      GenerationIsAFence(ops, between + later, sid);
    }
  }

  lemma EmptyRun(s: State)
    ensures Execute(s, []) == s
  {
  }

  lemma {:induction false} ExecuteJoins(s: State, a: seq<Op>, b: seq<Op>)
    ensures Execute(Execute(s, a), b) == Execute(s, a + b)
  {
    hide Step;
    if b == [] {
      assert a + b == a;
    } else {
      ExecuteJoins(s, a, b[..|b| - 1]);
      assert (a + b)[..|a + b| - 1] == a + b[..|b| - 1];
    }
  }

  // The interlock between the answer Revive and the claim.

  predicate InFlightOf(cutovers: Cutovers, id: Id, sid: Id) {
    id in cutovers && cutovers[id].sessionId == sid && cutovers[id].state.InFlight()
  }

  /** The step takes effect and leaves cutover `id` of the session in flight. */
  predicate Begins(s: State, op: Op, id: Id, sid: Id) {
    match op
    case ClaimCutover(cid, csid, _) =>
      cid == id && csid == sid && sid in s.sessions && id !in s.cutovers && !Occupied(s.cutovers, sid)
    case MoveCutover(cid, from, to, _) => cid == id && Moves(s, id, sid, from, to) && to.InFlight()
    case SpawnCutover(cid, from, to, _, _, _, _) => cid == id && Moves(s, id, sid, from, to) && to.InFlight()
    case _ => false
  }

  /** The step takes effect and moves the cutover to a state that is not in flight. */
  predicate Ends(s: State, op: Op, id: Id, sid: Id) {
    match op
    case MoveCutover(cid, from, to, _) => cid == id && Moves(s, id, sid, from, to) && !to.InFlight()
    case SpawnCutover(cid, from, to, _, _, _, _) => cid == id && Moves(s, id, sid, from, to) && !to.InFlight()
    case _ => false
  }

  predicate Moves(s: State, id: Id, sid: Id, from: CutoverState, to: CutoverState) {
    && id in s.cutovers
    && s.cutovers[id].sessionId == sid && s.cutovers[id].state == from
    && !IndexRefuses(s.cutovers, id, to)
  }

  /** Only these steps change whether a cutover is in flight. */
  lemma FlightStep(s: State, op: Op, id: Id, sid: Id)
    ensures InFlightOf(Step(s, op).cutovers, id, sid) <==>
              Begins(s, op, id, sid) || (InFlightOf(s.cutovers, id, sid) && !Ends(s, op, id, sid))
  {
    hide Occupied, IndexRefuses;
  }

  /** Step `i` of the run begins a cutover of the session that no later step of the run ends. */
  predicate BegunAt(s: State, ops: seq<Op>, id: Id, sid: Id, i: nat) {
    && i < |ops|
    && Begins(Execute(s, ops[..i]), ops[i], id, sid)
    && forall j :: i < j < |ops| ==> !Ends(Execute(s, ops[..j]), ops[j], id, sid)
  }

  ghost predicate BegunSince(s: State, ops: seq<Op>, sid: Id, id: Id) {
    exists i: nat :: BegunAt(s, ops, id, sid, i)
  }

  /** Some step of the run begins a cutover of the session that no later one ends. */
  ghost predicate Overtaken(s: State, ops: seq<Op>, sid: Id) {
    exists id :: BegunSince(s, ops, sid, id)
  }

  lemma ClaimMints(s: State, sid: Id, pid: int, gen: int)
    requires s.Has(sid, pid, gen)
    ensures Step(s, Claim(sid, pid, gen)).trace == s.trace + [Minted(sid, gen + 1, true)]
  {
  }

  lemma {:induction false} FlightRun(s: State, ops: seq<Op>, id: Id, sid: Id)
    requires !InFlightOf(s.cutovers, id, sid)
    ensures InFlightOf(Execute(s, ops).cutovers, id, sid) <==> BegunSince(s, ops, sid, id)
  {
    hide Step, InFlightOf, Begins, Ends;
    if ops != [] {
      var before, op := ops[..|ops| - 1], ops[|ops| - 1];
      FlightRun(s, before, id, sid);
      FlightStep(Execute(s, before), op, id, sid);
      BegunLast(s, ops, id, sid);
    }
  }

  lemma BegunLast(s: State, ops: seq<Op>, id: Id, sid: Id)
    requires ops != []
    ensures var before, op := ops[..|ops| - 1], ops[|ops| - 1];
            BegunSince(s, ops, sid, id) <==>
              Begins(Execute(s, before), op, id, sid)
              || (BegunSince(s, before, sid, id) && !Ends(Execute(s, before), op, id, sid))
  {
    hide Execute, Begins, Ends;
    var before, op := ops[..|ops| - 1], ops[|ops| - 1];
    var last := |ops| - 1;
    assert forall j :: 0 <= j < last ==> before[..j] == ops[..j] && before[j] == ops[j];
    if Begins(Execute(s, before), op, id, sid) {
      assert BegunAt(s, ops, id, sid, last);
    }
    if BegunSince(s, before, sid, id) && !Ends(Execute(s, before), op, id, sid) {
      var i: nat :| BegunAt(s, before, id, sid, i);
      assert BegunAt(s, ops, id, sid, i);
    }
    if BegunSince(s, ops, sid, id) && !Begins(Execute(s, before), op, id, sid) {
      var i: nat :| BegunAt(s, ops, id, sid, i);
      assert BegunAt(s, before, id, sid, i);
      assert !Ends(Execute(s, ops[..last]), ops[last], id, sid);
    }
  }

  /** The row is read in `first` and the cutovers in `second`, whatever happened before and between, and the claim
      is made after the steps `later`. When the answer was Revive and the claim succeeds, it does so beside a
      cutover in flight exactly if one of these steps began a cutover of the session that none of them ended. */
  lemma {:induction false} InterlockExactly(first: State, second: State, later: seq<Op>, sid: Id, pid: int, gen: int)
    requires Classify(RowOf(first, sid), HasInflight(second.cutovers, sid), pid, gen) == Revive
    requires Execute(second, later).Has(sid, pid, gen)
    ensures HasInflight(Execute(second, later).cutovers, sid) <==> Overtaken(second, later, sid)
    ensures var third := Execute(second, later);
            Step(third, Claim(sid, pid, gen)).trace == third.trace + [Minted(sid, gen + 1, true)]
  {
    var third := Execute(second, later);
    hide Execute, BegunSince, Step;
    ClaimMints(third, sid, pid, gen);
    assert !HasInflight(second.cutovers, sid);
    forall id
      ensures InFlightOf(third.cutovers, id, sid) <==> BegunSince(second, later, sid, id)
    {
      FlightRun(second, later, id, sid);
    }
    if HasInflight(third.cutovers, sid) {
      var id :| id in third.cutovers && third.cutovers[id].sessionId == sid && third.cutovers[id].state.InFlight();
      assert InFlightOf(third.cutovers, id, sid);
    }
    if Overtaken(second, later, sid) {
      var id :| BegunSince(second, later, sid, id);
      assert InFlightOf(third.cutovers, id, sid);
    }
  }

  /** A step that could begin a cutover of the session, by its arguments alone. */
  predicate MayBegin(op: Op, sid: Id) {
    || (op.ClaimCutover? && op.sid == sid)
    || ((op.MoveCutover? || op.SpawnCutover?) && op.to.InFlight())
  }

  /** So if no step since the answer could begin one, whatever else happened, no claim is made beside one. */
  lemma {:induction false} InterlockKept(first: State, second: State, later: seq<Op>, sid: Id, pid: int, gen: int)
    requires Classify(RowOf(first, sid), HasInflight(second.cutovers, sid), pid, gen) == Revive
    requires forall i :: 0 <= i < |later| ==> !MayBegin(later[i], sid)
    ensures !HasInflight(Execute(second, later).cutovers, sid)
  {
    hide Execute;
    StaysClear(second, later, sid);
  }

  lemma {:induction false} StaysClear(s: State, ops: seq<Op>, sid: Id)
    requires !HasInflight(s.cutovers, sid)
    requires forall i :: 0 <= i < |ops| ==> !MayBegin(ops[i], sid)
    ensures !HasInflight(Execute(s, ops).cutovers, sid)
  {
    if ops != [] {
      var before, op := ops[..|ops| - 1], ops[|ops| - 1];
      StaysClear(s, before, sid);
      hide Step;
      forall id
        ensures !InFlightOf(Step(Execute(s, before), op).cutovers, id, sid)
      {
        FlightStep(Execute(s, before), op, id, sid);
        assert !InFlightOf(Execute(s, before).cutovers, id, sid);
      }
      assert forall id :: id in Execute(s, ops).cutovers ==> !InFlightOf(Execute(s, ops).cutovers, id, sid);
    }
  }

  /** The race, from any state with a matching ACTIVE row and no cutover under way: the answer is Revive, then any
      new cutover is claimed, and then the claim of the master succeeds with that cutover PREPARING. */
  lemma InterlockRace(s: State, sid: Id, pid: int, gen: int, id: Id, oldPid: Option<int>)
    requires s.Has(sid, pid, gen) && !Occupied(s.cutovers, sid) && id !in s.cutovers
    ensures Classify(RowOf(s, sid), HasInflight(s.cutovers, sid), pid, gen) == Revive
    ensures var end := Execute(s, [ClaimCutover(id, sid, oldPid), Claim(sid, pid, gen)]);
            && end.trace == s.trace + [Minted(sid, gen + 1, true)]
            && InFlightOf(end.cutovers, id, sid) && end.cutovers[id].state == Preparing
  {
    var start, claim := ClaimCutover(id, sid, oldPid), Claim(sid, pid, gen);
    OneStep(s, start);
    OneMore(s, [start], claim);
    assert [start] + [claim] == [start, claim];
    hide Execute;
  }

  lemma OneStep(s: State, op: Op)
    ensures Execute(s, [op]) == Step(s, op)
  {
    assert [op][..0] == [];
  }

  // The store.

  datatype TransitionOutcome = Claimed | StaleTransition
  datatype AttemptDecision = SpawnAttempt(retryCount: int, nextRetryAt: int) | Fused | StaleAttempt
  datatype CutoverClaim = CutoverClaimed | AlreadyActive
  datatype CutoverUpdate = Updated | StaleUpdate
  datatype DbError = ConstraintViolation | NoRow | WentStale

  lemma KillRewrites(s: State, sid: Id)
    requires s.IsActive(sid)
    ensures Step(s, Kill(sid)) == s.With(sid, s.sessions[sid].Ended(Killed, "INTENTIONAL_KILL"), Stopped(sid))
  {
  }

  lemma FuseRewrites(s: State, sid: Id)
    requires sid in s.sessions
    ensures Step(s, Fuse(sid)) ==
            s.With(sid, s.sessions[sid].Ended(Failed, "FUSED"), Stopped(sid)).(fusing := s.fusing - multiset{sid})
  {
  }

  lemma AttemptRewrites(s: State, sid: Id, pid: int, gen: int, now: int)
    requires Inv(s)
    ensures !s.Has(sid, pid, gen) ==> Step(s, Attempt(sid, pid, gen, now)) == s
    ensures s.Has(sid, pid, gen) ==>
              var n := s.sessions[sid].retryCount + 1;
              var next := Step(s, Attempt(sid, pid, gen, now));
              && n >= 1
              && next.cutovers == s.cutovers
              && next.sessions == s.sessions[sid := s.sessions[sid].(retryCount := n, nextRetryAt := now + Backoff(n),
                                                                     lastExitReason := Some("REVIVE_FAILED"))]
              && next.trace == s.trace + [if n >= 5 then Exhausted(sid, n) else Spawn(sid, n, Backoff(n))]
              && next.fusing == if n >= 5 then s.fusing + multiset{sid} else s.fusing
  {
    hide LastMinted, AttemptsSince, StoppedIn, Orderly;
    assert sid in s.sessions ==> RowOk(s, sid, s.sessions[sid]);
  }

  lemma ClaimRewrites(s: State, sid: Id, pid: int, gen: int)
    ensures var next := Step(s, Claim(sid, pid, gen));
            if s.Has(sid, pid, gen)
            then |next.trace| > |s.trace| && sid in next.sessions && next.sessions[sid].generation == gen + 1
            else next == s
  {
  }

  lemma CompleteRewrites(s: State, sid: Id, gen: int, pid: int, pane: string)
    ensures var next := Step(s, Complete(sid, gen, pid, pane));
            if s.HasGeneration(sid, gen) then |next.trace| > |s.trace| && next.Has(sid, pid, gen) else next == s
  {
  }

  function ActiveOf(sessions: Sessions): set<Id> {
    set sid | sid in sessions && sessions[sid].status == Active
  }

  function AllKilled(sessions: Sessions, ids: set<Id>): Sessions {
    map sid | sid in sessions :: if sid in ids then sessions[sid].Ended(Killed, "INTENTIONAL_KILL") else sessions[sid]
  }

  function AgentsKilled(agents: map<Id, AgentRow>, ids: set<Id>): map<Id, AgentRow> {
    map a | a in agents :: if agents[a].sessionId in ids then agents[a].Killed() else agents[a]
  }

  lemma NoneKilled(sessions: Sessions, agents: map<Id, AgentRow>)
    ensures AllKilled(sessions, {}) == sessions && AgentsKilled(agents, {}) == agents
  {
  }

  lemma OneMoreKilled(sessions: Sessions, agents: map<Id, AgentRow>, ids: set<Id>, sid: Id)
    requires sid in sessions && sid !in ids
    ensures sid in AllKilled(sessions, ids) && AllKilled(sessions, ids)[sid] == sessions[sid]
    ensures AllKilled(sessions, ids)[sid := sessions[sid].Ended(Killed, "INTENTIONAL_KILL")] ==
            AllKilled(sessions, ids + {sid})
    ensures AgentsKilled(AgentsKilled(agents, ids), {sid}) == AgentsKilled(agents, ids + {sid})
  {
  }

  /** The columns of `agents` that a shutdown reads or writes. */
  datatype AgentRow = AgentRow(sessionId: Id, state: string, stateVersion: int)
  {
    predicate Terminal() {
      state == "CRASHED" || state == "KILLED"
    }

    function Killed(): AgentRow {
      if Terminal() then this else this.(state := "KILLED", stateVersion := stateVersion + 1)
    }
  }

  /** A shutdown kills every ACTIVE session and every agent of one that has not already ended, and nothing else;
      a second one finds nothing to do. */
  lemma ShutdownKillsTheActive(sessions: Sessions, agents: map<Id, AgentRow>)
    ensures var active := ActiveOf(sessions);
            var after, left := AllKilled(sessions, active), AgentsKilled(agents, active);
            && after.Keys == sessions.Keys && left.Keys == agents.Keys
            && ActiveOf(after) == {}
            && (forall sid :: sid in sessions ==>
                  after[sid] == if sessions[sid].status != Active then sessions[sid]
                                else sessions[sid].(status := SessionStatus.Killed, masterState := Idle,
                                                    pendingTell := None, lastExitReason := Some("INTENTIONAL_KILL")))
            && (forall a :: a in agents ==>
                  var owner := agents[a].sessionId;
                  left[a] == if owner !in sessions || sessions[owner].status != Active
                                || agents[a].state == "CRASHED" || agents[a].state == "KILLED" then agents[a]
                             else AgentRow(owner, "KILLED", agents[a].stateVersion + 1))
  {
  }

  /** The tables. A method that takes the connection once is one step of the machine above; one that takes it
      twice lets the steps of others come `between`. */
  class MasterStore {
    var sessions: Sessions
    var cutovers: Cutovers
    var agents: map<Id, AgentRow>
    ghost var fusing: multiset<Id>
    ghost var trace: seq<Event>

    ghost function Now(): State
      reads this
    {
      State(sessions, cutovers, fusing, trace)
    }

    ghost predicate Valid()
      reads this
    {
      Inv(Now())
    }

    constructor (agents: map<Id, AgentRow>)
      ensures Valid() && Now() == Init() && this.agents == agents
    {
      sessions, cutovers, fusing, trace := map[], map[], multiset{}, [];
      this.agents := agents;
      new;
      Reachable([]);
    }

    method InsertSession(sid: Id, pid: int) returns (r: Result<(), DbError>)
      requires Valid()
      modifies `sessions, `cutovers, `fusing, `trace
      ensures Valid() && Now() == Step(old(Now()), Op.InsertSession(sid, pid))
      ensures r.Ok? <==> sid !in old(sessions)
    {
      hide Inv;
      StepKeeps(Now(), Op.InsertSession(sid, pid));
      if sid in sessions {
        return Err(ConstraintViolation);
      }
      sessions := sessions[sid := NewSession(pid)];
      return Ok(());
    }

    method TryClaimMasterTransition(sid: Id, pid: int, gen: int) returns (r: TransitionOutcome)
      requires Valid()
      modifies `sessions, `cutovers, `fusing, `trace
      ensures Valid() && Now() == Step(old(Now()), Claim(sid, pid, gen))
      ensures r == Claimed <==> |trace| > |old(trace)|
    {
      hide Inv;
      StepKeeps(Now(), Claim(sid, pid, gen));
      if sid in sessions && sessions[sid].Is(pid, gen) {
        sessions := sessions[sid := sessions[sid].(generation := sessions[sid].generation + 1, masterState := Idle,
                                                   pendingTell := None)];
        trace := trace + [Minted(sid, gen + 1, true)];
        return Claimed;
      }
      return StaleTransition;
    }

    method CompleteClaimedMasterTransition(sid: Id, gen: int, newPid: int, pane: string) returns (r: Option<int>)
      requires Valid()
      modifies `sessions, `cutovers, `fusing, `trace
      ensures Valid() && Now() == Step(old(Now()), Complete(sid, gen, newPid, pane))
      ensures r == if |trace| > |old(trace)| then Some(gen) else None
    {
      hide Inv;
      StepKeeps(Now(), Complete(sid, gen, newPid, pane));
      if sid in sessions && sessions[sid].status == Active && sessions[sid].generation == gen {
        sessions := sessions[sid := sessions[sid].(masterPid := newPid, masterPaneId := Some(pane), masterState := Idle,
                                                   pendingTell := None, lastExitReason := Some("OOM_OR_CRASH"))];
        trace := trace + [Wrote(sid, gen, newPid)];
        return Some(gen);
      }
      return None;
    }

    /** The claim and the completion take the connection separately. Once the claim has succeeded, the call
        succeeds exactly if in between nobody stopped the session or minted another generation. */
    method ReviveSessionMaster(sid: Id, pid: int, gen: int, newPid: int, pane: string, between: seq<Op>)
      returns (r: Result<int, DbError>)
      requires Valid()
      modifies `sessions, `cutovers, `fusing, `trace
      ensures Valid()
      ensures !old(Now()).Has(sid, pid, gen) ==> r == Ok(gen) && Now() == old(Now())
      ensures old(Now()).Has(sid, pid, gen) ==>
                var claimed := Step(old(Now()), Claim(sid, pid, gen));
                var resumed := Execute(claimed, between);
                && Now() == Step(resumed, Complete(sid, gen + 1, newPid, pane))
                && (r == Ok(gen + 1) <==>
                      !StoppedIn(resumed.trace, sid) && !MintedIn(resumed.trace, sid, |claimed.trace|))
                && (r == Ok(gen + 1) ==> Now().Has(sid, newPid, gen + 1))
                && (r != Ok(gen + 1) ==> r == Err(WentStale) && Now() == resumed)
    {
      hide Inv, Step, Execute, StoppedIn, MintedIn;
      ClaimRewrites(Now(), sid, pid, gen);
      var claim := TryClaimMasterTransition(sid, pid, gen);
      if claim != Claimed {
        return Ok(gen);
      }
      ghost var claimed := Now();
      Others(between);
      FenceFrom(claimed, between, sid);
      CompleteRewrites(Now(), sid, gen + 1, newPid, pane);
      var done := CompleteClaimedMasterTransition(sid, gen + 1, newPid, pane);
      return if done.Some? then Ok(done.value) else Err(WentStale);
    }

    /** The part of an attempt that holds the connection: the new count and the time of the next retry. */
    method CountAttempt(sid: Id, pid: int, gen: int, now: int) returns (r: Option<(int, int)>)
      requires Valid()
      modifies `sessions, `cutovers, `fusing, `trace
      ensures Valid() && Now() == Step(old(Now()), Attempt(sid, pid, gen, now))
      ensures r.None? <==> !old(Now()).Has(sid, pid, gen)
      ensures r.None? ==> Now() == old(Now())
      ensures r.Some? ==>
                && sid in sessions
                && r.value.0 == sessions[sid].retryCount == old(sessions)[sid].retryCount + 1 >= 1
                && r.value.1 == sessions[sid].nextRetryAt == now + Backoff(r.value.0)
                && fusing == if r.value.0 >= 5 then old(fusing) + multiset{sid} else old(fusing)
    {
      hide Inv, Step;
      StepKeeps(Now(), Attempt(sid, pid, gen, now));
      AttemptRewrites(Now(), sid, pid, gen, now);
      if sid !in sessions || !sessions[sid].Is(pid, gen) {
        return None;
      }
      var n := sessions[sid].retryCount + 1;
      var nextRetryAt := now + Backoff(n);
      sessions := sessions[sid := sessions[sid].(retryCount := n, nextRetryAt := nextRetryAt,
                                                 lastExitReason := Some("REVIVE_FAILED"))];
      trace := trace + [if n >= MASTER_REVIVE_FUSE_THRESHOLD then Exhausted(sid, n) else Spawn(sid, n, Backoff(n))];
      fusing := if n >= MASTER_REVIVE_FUSE_THRESHOLD then fusing + multiset{sid} else fusing;
      return Some((n, nextRetryAt));
    }

    /** The fifth attempt fuses the session; the fuse takes the connection anew. */
    method RecordMasterReviveAttempt(sid: Id, pid: int, gen: int, now: int, between: seq<Op>)
      returns (r: AttemptDecision)
      requires Valid()
      modifies `sessions, `cutovers, `fusing, `trace
      ensures Valid() && (between == [] ==> fusing == old(fusing))
      ensures var attempted := Step(old(Now()), Attempt(sid, pid, gen, now));
              Now() == if r == Fused then Step(Execute(attempted, between), Fuse(sid)) else attempted
      ensures r == StaleAttempt <==> !old(Now()).Has(sid, pid, gen)
      ensures r != StaleAttempt ==>
                var failed := old(sessions)[sid].retryCount;
                r == if failed >= 4 then Fused else SpawnAttempt(failed + 1, now + [1, 2, 4, 8][failed])
      ensures r == Fused ==> sid in sessions && sessions[sid].status == Failed
    {
      hide Inv, Step, Execute;
      var counted := CountAttempt(sid, pid, gen, now);
      if counted.None? {
        return StaleAttempt;
      }
      if counted.value.0 >= MASTER_REVIVE_FUSE_THRESHOLD {
        RunGrows(Now(), between);
        EmptyRun(Now());
        Others(between);
        FuseRewrites(Now(), sid);
        FuseSessionAfterMasterReviveExhausted(sid);
        assert old(fusing) + multiset{sid} - multiset{sid} == old(fusing);
        return Fused;
      }
      return SpawnAttempt(counted.value.0, counted.value.1);
    }

    /** Any session can be fused, and the UPDATE has no status guard: one that was killed becomes FAILED. */
    method FuseSessionAfterMasterReviveExhausted(sid: Id)
      requires Valid()
      modifies `sessions, `cutovers, `fusing, `trace
      ensures Valid() && Now() == Step(old(Now()), Fuse(sid))
    {
      hide Inv;
      StepKeeps(Now(), Fuse(sid));
      if sid in sessions {
        sessions := sessions[sid := sessions[sid].(status := Failed, masterState := Idle, pendingTell := None,
                                                   lastExitReason := Some("FUSED"))];
        trace, fusing := trace + [Stopped(sid)], fusing - multiset{sid};
      }
    }

    method ConfirmMasterStable(sid: Id, pid: int, gen: int) returns (r: TransitionOutcome)
      requires Valid()
      modifies `sessions, `cutovers, `fusing, `trace
      ensures Valid() && Now() == Step(old(Now()), Confirm(sid, pid, gen))
      ensures r == Claimed <==> |trace| > |old(trace)|
    {
      hide Inv;
      StepKeeps(Now(), Confirm(sid, pid, gen));
      if sid in sessions && sessions[sid].Is(pid, gen) {
        sessions := sessions[sid := sessions[sid].(retryCount := 0, nextRetryAt := 0)];
        trace := trace + [Confirmed(sid)];
        return Claimed;
      }
      return StaleTransition;
    }

    method MarkSessionIntentionalKilled(sid: Id) returns (changes: nat)
      requires Valid()
      modifies `sessions, `cutovers, `fusing, `trace
      ensures Valid() && Now() == Step(old(Now()), Kill(sid))
      ensures changes == |trace| - |old(trace)|
    {
      hide Inv;
      StepKeeps(Now(), Kill(sid));
      if sid in sessions && sessions[sid].status == Active {
        sessions := sessions[sid := sessions[sid].(status := Killed, masterState := Idle, pendingTell := None,
                                                   lastExitReason := Some("INTENTIONAL_KILL"))];
        trace := trace + [Stopped(sid)];
        return 1;
      }
      return 0;
    }

    method MarkSessionClosedAfterIdleMasterDeath(sid: Id)
      requires Valid()
      modifies `sessions, `cutovers, `fusing, `trace
      ensures Valid() && Now() == Step(old(Now()), Close(sid))
    {
      hide Inv;
      StepKeeps(Now(), Close(sid));
      if sid in sessions && sessions[sid].status == Active {
        sessions := sessions[sid := sessions[sid].(status := Closed, masterState := Idle, pendingTell := None,
                                                   lastExitReason := Some("IDLE_MASTER_EXIT"))];
        trace := trace + [Stopped(sid)];
      }
    }

    /** One transaction, with the effect of a kill of every ACTIVE session in some order; the agents of these
        sessions that have not ended are killed with them. */
    method MarkAllSessionsIntentionalShutdown() returns (changes: nat, ghost kills: seq<Op>)
      requires Valid()
      modifies this
      ensures Valid() && Now() == Execute(old(Now()), kills)
      ensures forall i :: 0 <= i < |kills| ==> kills[i].Kill?
      ensures changes == |ActiveOf(old(sessions))|
      ensures sessions == AllKilled(old(sessions), ActiveOf(old(sessions)))
      ensures agents == AgentsKilled(old(agents), ActiveOf(old(sessions)))
    {
      hide Inv, Step, Execute, AllKilled, AgentsKilled;
      EmptyRun(Now());
      var active := ActiveOf(sessions);
      var left := active;
      changes, kills := 0, [];
      NoneKilled(sessions, agents);
      assert active - left == {};
      while left != {}
        invariant Valid() && Now() == Execute(old(Now()), kills)
        invariant forall i :: 0 <= i < |kills| ==> kills[i].Kill?
        invariant left <= active && changes == |active| - |left|
        invariant sessions == AllKilled(old(sessions), active - left)
        invariant agents == AgentsKilled(old(agents), active - left)
        decreases |left|
      {
        var sid :| sid in left;
        assert active - (left - {sid}) == (active - left) + {sid};
        OneMoreKilled(old(sessions), old(agents), active - left, sid);
        OneMore(old(Now()), kills, Kill(sid));
        KillRewrites(Now(), sid);
        var n := MarkSessionIntentionalKilled(sid);
        agents := AgentsKilled(agents, {sid});
        changes, left, kills := changes + n, left - {sid}, kills + [Kill(sid)];
      }
      assert active - left == active;
    }

    /** Returns the generation of the row, which is one more than before. */
    method RecordSpawnedMasterRuntime(sid: Id, pane: string, pid: int) returns (r: Result<int, DbError>)
      requires Valid()
      modifies `sessions, `cutovers, `fusing, `trace
      ensures Valid() && Now() == Step(old(Now()), Spawned(sid, pid, pane))
      ensures r == if sid in old(sessions) then Ok(old(sessions)[sid].generation + 1) else Err(NoRow)
      ensures r.Ok? ==>
                && sid in sessions
                && sessions[sid] == old(sessions)[sid].(masterPid := pid, masterPaneId := Some(pane),
                                                        generation := r.value, masterState := Idle, pendingTell := None)
    {
      hide Inv;
      StepKeeps(Now(), Spawned(sid, pid, pane));
      if sid !in sessions {
        return Err(NoRow);
      }
      sessions := sessions[sid := sessions[sid].(masterPid := pid, masterPaneId := Some(pane), masterState := Idle,
                                                 generation := sessions[sid].generation + 1, pendingTell := None)];
      trace := trace + [Minted(sid, sessions[sid].generation, false)];
      return Ok(sessions[sid].generation);
    }

    method RecordSpawnedMasterRuntimeAfterClaim(sid: Id, pane: string, pid: int, gen: int) returns (r: Option<int>)
      requires Valid()
      modifies `sessions, `cutovers, `fusing, `trace
      ensures Valid() && Now() == Step(old(Now()), SpawnedAfterClaim(sid, gen, pid, pane))
      ensures r == if |trace| > |old(trace)| then Some(gen) else None
      ensures r == Some(gen) <==> old(Now()).HasGeneration(sid, gen)
      ensures r.Some? ==>
                && sid in sessions
                && sessions[sid] == old(sessions)[sid].(masterPid := pid, masterPaneId := Some(pane),
                                                        masterState := Idle, pendingTell := None)
      ensures r.None? ==> sessions == old(sessions)
    {
      hide Inv;
      StepKeeps(Now(), SpawnedAfterClaim(sid, gen, pid, pane));
      if sid in sessions && sessions[sid].status == Active && sessions[sid].generation == gen {
        sessions := sessions[sid := sessions[sid].(masterPid := pid, masterPaneId := Some(pane), masterState := Idle,
                                                   pendingTell := None)];
        trace := trace + [Wrote(sid, gen, pid)];
        return Some(gen);
      }
      return None;
    }

    /** The answer of an undisturbed call: Revive exactly when the row matches and no cutover is in flight. */
    method ClassifyMasterDeath(sid: Id, pid: int, gen: int) returns (r: DeathDecision)
      ensures r == Classify(RowOf(Now(), sid), HasInflight(cutovers, sid), pid, gen)
      ensures r == Revive <==> Now().Has(sid, pid, gen) && !HasInflight(cutovers, sid)
    {
      if sid !in sessions {
        return Stale;
      }
      var row := sessions[sid];
      if row.status != Active || HasInflight(cutovers, sid) {
        return IntentionalExit;
      }
      return if row.masterPid == pid && row.generation == gen then Revive else Stale;
    }

    method ClaimMasterCutover(id: Id, sid: Id, oldPid: Option<int>) returns (r: Result<CutoverClaim, DbError>)
      requires Valid()
      modifies `sessions, `cutovers, `fusing, `trace
      ensures Valid() && Now() == Step(old(Now()), ClaimCutover(id, sid, oldPid))
      ensures r == Ok(AlreadyActive) <==> Occupied(old(cutovers), sid)
      ensures r == Ok(CutoverClaimed) <==> cutovers != old(cutovers)
      ensures r.Err? <==> !Occupied(old(cutovers), sid) && (id in old(cutovers) || sid !in old(sessions))
    {
      hide Inv;
      StepKeeps(Now(), ClaimCutover(id, sid, oldPid));
      if Occupied(cutovers, sid) {
        return Ok(AlreadyActive);
      }
      if id in cutovers || sid !in sessions {
        return Err(ConstraintViolation);
      }
      cutovers := cutovers[id := Cutover(sid, Preparing, oldPid, None, None, None, None, None, None)];
      return Ok(CutoverClaimed);
    }

    method UpdateMasterCutoverState(id: Id, from: CutoverState, to: CutoverState, now: int)
      returns (r: Result<CutoverUpdate, DbError>)
      requires Valid()
      modifies `sessions, `cutovers, `fusing, `trace
      ensures Valid() && Now() == Step(old(Now()), MoveCutover(id, from, to, now))
      ensures r == Ok(StaleUpdate) <==> id !in old(cutovers) || old(cutovers)[id].state != from
      ensures r.Err? <==> id in old(cutovers) && old(cutovers)[id].state == from && IndexRefuses(old(cutovers), id, to)
      ensures r == Ok(Updated) ==> cutovers[id].state == to
    {
      hide Inv;
      StepKeeps(Now(), MoveCutover(id, from, to, now));
      if id !in cutovers || cutovers[id].state != from {
        return Ok(StaleUpdate);
      }
      if IndexRefuses(cutovers, id, to) {
        return Err(ConstraintViolation);
      }
      var ends := to.RolledBack? || to.FailedCutover? || to.Released?;
      var completedAt := if ends then Some(now) else cutovers[id].completedAt;
      cutovers := cutovers[id := cutovers[id].(state := to, completedAt := completedAt)];
      return Ok(Updated);
    }

    method UpdateMasterCutoverSpawnMetadata(id: Id, from: CutoverState, to: CutoverState, newPid: int, gen: int,
                                            pane: string, now: int)
      returns (r: Result<CutoverUpdate, DbError>)
      requires Valid()
      modifies `sessions, `cutovers, `fusing, `trace
      ensures Valid() && Now() == Step(old(Now()), SpawnCutover(id, from, to, newPid, gen, pane, now))
      ensures r == Ok(StaleUpdate) <==> id !in old(cutovers) || old(cutovers)[id].state != from
      ensures r.Err? <==> id in old(cutovers) && old(cutovers)[id].state == from && IndexRefuses(old(cutovers), id, to)
    {
      hide Inv;
      StepKeeps(Now(), SpawnCutover(id, from, to, newPid, gen, pane, now));
      if id !in cutovers || cutovers[id].state != from {
        return Ok(StaleUpdate);
      }
      if IndexRefuses(cutovers, id, to) {
        return Err(ConstraintViolation);
      }
      var ends := to.RolledBack? || to.FailedCutover? || to.Released?;
      var completedAt := if ends then Some(now) else cutovers[id].completedAt;
      cutovers := cutovers[id := cutovers[id].(state := to, completedAt := completedAt, newMasterPid := Some(newPid),
                                               newMasterGeneration := Some(gen), newMasterPaneId := Some(pane))];
      return Ok(Updated);
    }

    method MarkMasterCutoverAckReady(id: Id, mode: string, now: int) returns (r: CutoverUpdate)
      requires Valid()
      modifies `sessions, `cutovers, `fusing, `trace
      ensures Valid() && Now() == Step(old(Now()), AckCutover(id, mode, now))
      ensures r == Updated <==> id in old(cutovers) && old(cutovers)[id].state == Verifying
    {
      hide Inv;
      StepKeeps(Now(), AckCutover(id, mode, now));
      if id in cutovers && cutovers[id].state == Verifying {
        cutovers := cutovers[id := cutovers[id].(ackReadyAt := Some(now), readinessMode := Some(mode))];
        return Updated;
      }
      return StaleUpdate;
    }

    /** Every step of the machine is what one of the methods does. */
    method Perform(op: Op)
      requires Valid()
      modifies `sessions, `cutovers, `fusing, `trace
      ensures Valid() && Now() == Step(old(Now()), op)
    {
      hide Inv, Step;
      match op {
        case InsertSession(sid, pid) => var _ := InsertSession(sid, pid);
        case Claim(sid, pid, gen) => var _ := TryClaimMasterTransition(sid, pid, gen);
        case Complete(sid, gen, newPid, pane) => var _ := CompleteClaimedMasterTransition(sid, gen, newPid, pane);
        case Attempt(sid, pid, gen, now) => var _ := CountAttempt(sid, pid, gen, now);
        case Fuse(sid) => FuseSessionAfterMasterReviveExhausted(sid);
        case Confirm(sid, pid, gen) => var _ := ConfirmMasterStable(sid, pid, gen);
        case Close(sid) => MarkSessionClosedAfterIdleMasterDeath(sid);
        case Kill(sid) => var _ := MarkSessionIntentionalKilled(sid);
        case Spawned(sid, newPid, pane) => var _ := RecordSpawnedMasterRuntime(sid, pane, newPid);
        case SpawnedAfterClaim(sid, gen, newPid, pane) =>
          var _ := RecordSpawnedMasterRuntimeAfterClaim(sid, pane, newPid, gen);
        case ClaimCutover(id, sid, oldPid) => var _ := ClaimMasterCutover(id, sid, oldPid);
        case MoveCutover(id, from, to, now) => var _ := UpdateMasterCutoverState(id, from, to, now);
        case SpawnCutover(id, from, to, newPid, gen, pane, now) =>
          var _ := UpdateMasterCutoverSpawnMetadata(id, from, to, newPid, gen, pane, now);
        case AckCutover(id, mode, now) => var _ := MarkMasterCutoverAckReady(id, mode, now);
      }
    }

    /** What others do while a call does not hold the connection. */
    method Others(ops: seq<Op>)
      requires Valid()
      modifies `sessions, `cutovers, `fusing, `trace
      ensures Valid() && Now() == Execute(old(Now()), ops)
    {
      hide Inv, Step, Execute;
      EmptyRun(Now());
      for i := 0 to |ops|
        invariant Valid() && Now() == Execute(old(Now()), ops[..i])
      {
        OneMore(old(Now()), ops[..i], ops[i]);
        assert ops[..i + 1] == ops[..i] + [ops[i]];
        Perform(ops[i]);
      }
      assert ops[..|ops|] == ops;
    }
  }
}

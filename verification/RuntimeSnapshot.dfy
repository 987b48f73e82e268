/** The runtime snapshot (src/runtime_events.rs): how a daemon's state is classified, and the window of job
    events that a snapshot carries. */
module RuntimeSnapshot {
  import opened Common

  // The classification.

  const STARTING_WINDOW_SECS := 120

  datatype RuntimeState = Active | Inactive | Starting | Degraded

  datatype Session = Session(id: string, status: string, masterPaneId: Option<string>, createdAt: int)
  datatype Agent = Agent(id: string, state: string, createdAt: int)

  /** The inventory, and what the probes of tmux said: one answer for each session and each agent. */
  datatype Probed = Probed(sessions: seq<Session>, masterUp: seq<bool>, agents: seq<Agent>, workerUp: seq<bool>)
  {
    predicate WellFormed() {
      |masterUp| == |sessions| && |workerUp| == |agents|
    }

    predicate HasInventory() {
      exists i :: 0 <= i < |sessions| && sessions[i].status == "ACTIVE"
    }

    /** An ACTIVE session without its master. */
    predicate MasterDown(i: nat)
      requires WellFormed()
    {
      i < |sessions| && sessions[i].status == "ACTIVE" && !masterUp[i]
    }

    predicate WorkerDown(i: nat)
      requires WellFormed()
    {
      i < |agents| && agents[i].state !in {"CRASHED", "KILLED"} && !workerUp[i]
    }

    predicate SomethingDown()
      requires WellFormed()
    {
      (exists i: nat :: i < |sessions| && MasterDown(i)) || (exists i: nat :: i < |agents| && WorkerDown(i))
    }

    /** Everything that is down may still be starting: a master without a pane, a SPAWNING worker, both young. */
    predicate Excused(now: int)
      requires WellFormed()
    {
      && (forall i: nat :: i < |sessions| && MasterDown(i) ==>
            sessions[i].masterPaneId.None? && Young(sessions[i].createdAt, now))
      && (forall i: nat :: i < |agents| && WorkerDown(i) ==>
            agents[i].state == "SPAWNING" && Young(agents[i].createdAt, now))
    }
  }

  predicate TerminalAgent(state: string) {
    state == "CRASHED" || state == "KILLED"
  }

  predicate Young(createdAt: int, now: int) {
    now - createdAt < 120
  }

  const I64_MAX := 0x7FFF_FFFF_FFFF_FFFF
  const I64_MIN := -0x8000_0000_0000_0000

  function SaturatingSub(a: int, b: int): int {
    if a - b > I64_MAX then I64_MAX else if a - b < I64_MIN then I64_MIN else a - b
  }

  /** Saturation does not move a difference across the window. */
  function WithinStartingWindow(createdAt: int, now: int): (r: bool)
    ensures r == Young(createdAt, now)
  {
    SaturatingSub(now, createdAt) < STARTING_WINDOW_SECS
  }

  function SessionIsDegraded(s: Session, up: bool, now: int): bool {
    if s.status != "ACTIVE" || up then false
    else if s.masterPaneId.Some? then true
    else !WithinStartingWindow(s.createdAt, now)
  }

  function AgentIsDegraded(a: Agent, up: bool, now: int): bool {
    if TerminalAgent(a.state) || up then false
    else if a.state != "SPAWNING" then true
    else !WithinStartingWindow(a.createdAt, now)
  }

  /** The state by its meaning. */
  function StateOf(p: Probed, now: int): RuntimeState
    requires p.WellFormed()
  {
    if !p.HasInventory() then Inactive
    else if !p.SomethingDown() then Active
    else if p.Excused(now) then Starting
    else Degraded
  }

  /** The flags of the code and the state they select. */
  method BuildRuntimeState(p: Probed, now: int) returns (state: RuntimeState, active: bool, degraded: bool)
    requires p.WellFormed()
    ensures state == StateOf(p, now)
    ensures active <==> state == Active
    ensures degraded <==> state == Degraded
    ensures state == Starting <==> p.HasInventory() && p.SomethingDown() && p.Excused(now)
  {
    var hasInventory, allMastersAlive, someSessionDegraded := false, true, false;
    for i := 0 to |p.sessions|
      invariant hasInventory <==> exists j :: 0 <= j < i && p.sessions[j].status == "ACTIVE"
      invariant allMastersAlive <==> forall j: nat :: j < i ==> !p.MasterDown(j)
      invariant someSessionDegraded <==> exists j :: 0 <= j < i && SessionIsDegraded(p.sessions[j], p.masterUp[j], now)
    {
      var session := p.sessions[i];
      if session.status == "ACTIVE" {
        hasInventory := true;
        allMastersAlive := allMastersAlive && p.masterUp[i];
      }
      someSessionDegraded := someSessionDegraded || SessionIsDegraded(session, p.masterUp[i], now);
      assert session.status == "ACTIVE" && !p.masterUp[i] <==> p.MasterDown(i);
    }
    var allWorkersAlive, someAgentDegraded := true, false;
    for i := 0 to |p.agents|
      invariant allWorkersAlive <==> forall j: nat :: j < i ==> !p.WorkerDown(j)
      invariant someAgentDegraded <==> exists j :: 0 <= j < i && AgentIsDegraded(p.agents[j], p.workerUp[j], now)
    {
      if !TerminalAgent(p.agents[i].state) {
        allWorkersAlive := allWorkersAlive && p.workerUp[i];
      }
      someAgentDegraded := someAgentDegraded || AgentIsDegraded(p.agents[i], p.workerUp[i], now);
      assert !TerminalAgent(p.agents[i].state) && !p.workerUp[i] <==> p.WorkerDown(i);
    }
    active := hasInventory && allMastersAlive && allWorkersAlive;
    degraded := hasInventory && (someSessionDegraded || someAgentDegraded);
    FlagsMean(p, now);
    state := if active then Active else if degraded then Degraded else if hasInventory then Starting else Inactive;
  }

  predicate SomeDegraded(p: Probed, now: int)
    requires p.WellFormed()
  {
    || (exists j :: 0 <= j < |p.sessions| && SessionIsDegraded(p.sessions[j], p.masterUp[j], now))
    || (exists j :: 0 <= j < |p.agents| && AgentIsDegraded(p.agents[j], p.workerUp[j], now))
  }

  /** Something is degraded exactly if something that is down has no excuse. */
  lemma FlagsMean(p: Probed, now: int)
    requires p.WellFormed()
    ensures SomeDegraded(p, now) <==> !p.Excused(now)
    ensures !p.Excused(now) ==> p.SomethingDown()
  {
    assert forall i: nat :: i < |p.sessions| ==>
             (SessionIsDegraded(p.sessions[i], p.masterUp[i], now) <==>
                p.MasterDown(i) && !(p.sessions[i].masterPaneId.None? && Young(p.sessions[i].createdAt, now)));
    assert forall i: nat :: i < |p.agents| ==>
             (AgentIsDegraded(p.agents[i], p.workerUp[i], now) <==>
                p.WorkerDown(i) && !(p.agents[i].state == "SPAWNING" && Young(p.agents[i].createdAt, now)));
  }

  /** With inventory and liveness fixed, only the passing of the window changes the state: Active, Inactive
      and Degraded stay, and Starting becomes Degraded once anything that is down has outlived its window. */
  lemma StateInTime(p: Probed, now: int, later: int)
    requires p.WellFormed() && now <= later
    ensures StateOf(p, now) != Starting ==> StateOf(p, later) == StateOf(p, now)
    ensures StateOf(p, now) == Starting ==> StateOf(p, later) == if Expired(p, later) then Degraded else Starting
  {
  }

  predicate Expired(p: Probed, now: int)
    requires p.WellFormed()
  {
    || (exists i: nat :: i < |p.sessions| && p.MasterDown(i) && now >= p.sessions[i].createdAt + 120)
    || (exists i: nat :: i < |p.agents| && p.WorkerDown(i) && now >= p.agents[i].createdAt + 120)
  }

  // The event window.

  const WINDOW := 500

  /** A row of `job_transitions`, with the workspace that its project joins it to. */
  datatype JobEvent = JobEvent(id: int, workspace: string, body: string)

  predicate InScope(e: JobEvent, workspace: Option<string>) {
    workspace.None? || workspace.value == e.workspace
  }

  function Visible(log: seq<JobEvent>, workspace: Option<string>): seq<JobEvent> {
    if log == [] then [] else
      var e := log[|log| - 1];
      Visible(log[..|log| - 1], workspace) + if InScope(e, workspace) then [e] else []
  }

  function Tail(s: seq<JobEvent>, n: nat): (r: seq<JobEvent>)
    ensures |r| == if |s| <= n then |s| else n
  {
    if |s| <= n then s else s[|s| - n..]
  }

  /** The ids of an append-only table with AUTOINCREMENT. */
  predicate Increasing(log: seq<JobEvent>) {
    && (forall i :: 0 <= i < |log| ==> log[i].id > 0)
    && (forall i, j :: 0 <= i < j < |log| ==> log[i].id < log[j].id)
  }

  function Cursor(log: seq<JobEvent>, workspace: Option<string>): int {
    var v := Visible(log, workspace);
    if v == [] then 0 else v[|v| - 1].id
  }

  function Above(s: seq<JobEvent>, cursor: int): seq<JobEvent> {
    if s == [] then [] else
      var e := s[|s| - 1];
      Above(s[..|s| - 1], cursor) + if e.id > cursor then [e] else []
  }

  function Reversed(s: seq<JobEvent>): (r: seq<JobEvent>)
    ensures |r| == |s| && forall i :: 0 <= i < |s| ==> r[i] == s[|s| - 1 - i]
  {
    seq(|s|, i requires 0 <= i < |s| => s[|s| - 1 - i])
  }

  lemma VisibleLast(log: seq<JobEvent>, i: nat, workspace: Option<string>)
    requires i < |log|
    ensures Visible(log[..i + 1], workspace) ==
            Visible(log[..i], workspace) + if InScope(log[i], workspace) then [log[i]] else []
  {
    assert log[..i + 1][..i] == log[..i];
  }

  lemma TailOf(a: seq<JobEvent>, b: seq<JobEvent>, n: nat)
    requires |b| == n || (a == [] && |b| <= n)
    ensures Tail(a + b, n) == b
  {
  }

  method QueryCursor(log: seq<JobEvent>, workspace: Option<string>) returns (cursor: int)
    requires Increasing(log)
    ensures cursor == Cursor(log, workspace)
  {
    hide InScope, Visible;
    cursor := 0;
    assert Visible(log[..0], workspace) == [] by { NothingVisible(log[..0], workspace); }
    for i := 0 to |log|
      invariant cursor == Cursor(log[..i], workspace)
      invariant forall j :: i <= j < |log| ==> log[j].id > cursor
    {
      VisibleLast(log, i, workspace);
      if InScope(log[i], workspace) && log[i].id > cursor {
        cursor := log[i].id;
      }
    }
    assert log[..|log|] == log;
  }

  lemma NothingVisible(log: seq<JobEvent>, workspace: Option<string>)
    requires log == []
    ensures Visible(log, workspace) == []
  {
  }

  /** Newest first up to the limit, and then reversed. */
  method QueryWindow(log: seq<JobEvent>, workspace: Option<string>) returns (events: seq<JobEvent>)
    ensures events == Tail(Visible(log, workspace), 500)
  {
    hide InScope, Visible, Tail;
    var rows: seq<JobEvent> := [];
    var i := |log|;
    assert log[..i] == log;
    while i > 0 && |rows| < WINDOW
      invariant 0 <= i <= |log| && |rows| <= WINDOW
      invariant Visible(log, workspace) == Visible(log[..i], workspace) + Reversed(rows)
    {
      i := i - 1;
      VisibleLast(log, i, workspace);
      if InScope(log[i], workspace) {
        assert Reversed(rows + [log[i]]) == [log[i]] + Reversed(rows);
        rows := rows + [log[i]];
      }
    }
    events := Reversed(rows);
    if i == 0 {
      NothingVisible(log[..0], workspace);
    }
    TailOf(Visible(log[..i], workspace), events, WINDOW);
  }

  /** The last visible events in order, and the greatest visible id or 0. */
  method QueryRuntimeJobEvents(log: seq<JobEvent>, workspace: Option<string>)
    returns (events: seq<JobEvent>, cursor: int)
    requires Increasing(log)
    ensures events == Tail(Visible(log, workspace), 500)
    ensures cursor == Cursor(log, workspace)
  {
    cursor := QueryCursor(log, workspace);
    events := QueryWindow(log, workspace);
  }

  lemma {:induction false} VisibleJoin(a: seq<JobEvent>, b: seq<JobEvent>, workspace: Option<string>)
    ensures Visible(a + b, workspace) == Visible(a, workspace) + Visible(b, workspace)
  {
    if b == [] {
      assert a + b == a;
    } else {
      assert (a + b)[..|a + b| - 1] == a + b[..|b| - 1];
      VisibleJoin(a, b[..|b| - 1], workspace);
    }
  }

  lemma {:induction false} AboveJoin(a: seq<JobEvent>, b: seq<JobEvent>, cursor: int)
    ensures Above(a + b, cursor) == Above(a, cursor) + Above(b, cursor)
  {
    if b == [] {
      assert a + b == a;
    } else {
      assert (a + b)[..|a + b| - 1] == a + b[..|b| - 1];
      AboveJoin(a, b[..|b| - 1], cursor);
    }
  }

  lemma {:induction false} AboveAll(s: seq<JobEvent>, cursor: int)
    requires forall i :: 0 <= i < |s| ==> s[i].id > cursor
    ensures Above(s, cursor) == s
  {
    if s != [] {
      AboveAll(s[..|s| - 1], cursor);
      assert s == s[..|s| - 1] + [s[|s| - 1]];
    }
  }

  lemma {:induction false} AboveNone(s: seq<JobEvent>, cursor: int)
    requires forall i :: 0 <= i < |s| ==> s[i].id <= cursor
    ensures Above(s, cursor) == []
  {
    if s != [] {
      AboveNone(s[..|s| - 1], cursor);
    }
  }

  lemma {:induction false} VisibleIsFrom(log: seq<JobEvent>, workspace: Option<string>)
    ensures forall e :: e in Visible(log, workspace) ==> e in log
    ensures Increasing(log) ==> Increasing(Visible(log, workspace))
  {
    if log != [] {
      VisibleIsFrom(log[..|log| - 1], workspace);
      assert forall e :: e in log[..|log| - 1] ==> e in log;
      assert Increasing(log) ==> forall e :: e in log[..|log| - 1] ==> e.id < log[|log| - 1].id;
    }
  }

  /** Visible are exactly the events of the log that are in the workspace asked for, or all if none is; in the order of
      the log, which their ids show. */
  lemma {:induction false} VisibleIs(log: seq<JobEvent>, workspace: Option<string>, e: JobEvent)
    ensures e in Visible(log, workspace) <==> e in log && (workspace == None || workspace == Some(e.workspace))
    ensures Increasing(log) ==> Increasing(Visible(log, workspace))
  {
    VisibleIsFrom(log, workspace);
    if log != [] {
      var before := log[..|log| - 1];
      VisibleIs(before, workspace, e);
      assert e in log <==> e in before || e == log[|log| - 1];
    }
  }

  /** The cursor is the greatest visible id, or 0 if there is none. */
  lemma CursorIsMax(log: seq<JobEvent>, workspace: Option<string>)
    requires Increasing(log)
    ensures var c, v := Cursor(log, workspace), Visible(log, workspace);
            && (forall e :: e in v ==> e.id <= c)
            && (v == [] ==> c == 0)
            && (v != [] ==> exists e :: e in v && e.id == c)
  {
    VisibleIsFrom(log, workspace);
    hide Visible;
    var v := Visible(log, workspace);
    if v != [] {
      assert v[|v| - 1] in v && v[|v| - 1].id == Cursor(log, workspace);
    }
  }

  lemma AddedAreLater(past: seq<JobEvent>, added: seq<JobEvent>, e: JobEvent, f: JobEvent)
    requires Increasing(past + added) && e in past && f in added
    ensures e.id < f.id
  {
    var i :| 0 <= i < |past| && past[i] == e;
    var j :| 0 <= j < |added| && added[j] == f;
    assert (past + added)[i] == e && (past + added)[|past| + j] == f;
  }

  lemma AfterCursor(past: seq<JobEvent>, added: seq<JobEvent>, workspace: Option<string>)
    requires Increasing(past + added)
    ensures var c := Cursor(past, workspace);
            && (forall e :: e in Visible(past, workspace) ==> e.id <= c)
            && (forall e :: e in Visible(added, workspace) ==> e.id > c)
  {
    PrefixIncreasing(past, added);
    CursorIsMax(past, workspace);
    VisibleIsFrom(past, workspace);
    VisibleIsFrom(added, workspace);
    hide Visible, Cursor;
    forall f | f in Visible(added, workspace)
      ensures f.id > Cursor(past, workspace)
    {
      if Visible(past, workspace) != [] {
        var e :| e in Visible(past, workspace) && e.id == Cursor(past, workspace);
        AddedAreLater(past, added, e, f);
      } else {
        assert f in past + added;
      }
    }
  }

  lemma TailLength(s: seq<JobEvent>, n: nat)
    ensures Tail(s, n) == s <==> |s| <= n
  {
  }

  lemma TailAbove(s: seq<JobEvent>, n: nat, cursor: int)
    requires forall e :: e in s ==> e.id > cursor
    ensures Above(Tail(s, n), cursor) == Tail(s, n)
  {
    hide Above;
    AboveAll(Tail(s, n), cursor);
  }

  lemma TailBelow(s: seq<JobEvent>, n: nat, cursor: int)
    requires forall e :: e in s ==> e.id <= cursor
    ensures Above(Tail(s, n), cursor) == []
  {
    hide Above;
    AboveNone(Tail(s, n), cursor);
  }

  lemma TailJoin(a: seq<JobEvent>, b: seq<JobEvent>, n: nat)
    ensures Tail(a + b, n) == if |b| >= n then Tail(b, n) else Tail(a, n - |b|) + b
  {
  }

  /** What a consumer at the cursor of the log sees of the events added since: the last 500 visible ones in
      order, whatever came before. So it sees all of them exactly if they are at most 500. */
  lemma WindowSinceCursor(past: seq<JobEvent>, added: seq<JobEvent>, workspace: Option<string>)
    requires Increasing(past + added)
    ensures var seen := Above(Tail(Visible(past + added, workspace), WINDOW), Cursor(past, workspace));
            && seen == Tail(Visible(added, workspace), 500)
            && (seen == Visible(added, workspace) <==> |Visible(added, workspace)| <= 500)
  {
    var c, v, w := Cursor(past, workspace), Visible(past, workspace), Visible(added, workspace);
    hide Visible, Cursor, Above, Increasing, Tail;
    VisibleJoin(past, added, workspace);
    TailJoin(v, w, WINDOW);
    TailLength(w, WINDOW);
    AfterCursor(past, added, workspace);
    TailAbove(w, WINDOW, c);
    if |w| < WINDOW {
      TailBelow(v, WINDOW - |w|, c);
      AboveJoin(Tail(v, WINDOW - |w|), w, c);
    }
  }

  // Following the log by repeated snapshots.

  function Concat(batches: seq<seq<JobEvent>>): seq<JobEvent> {
    if batches == [] then [] else Concat(batches[..|batches| - 1]) + batches[|batches| - 1]
  }

  /** The consumer takes of each snapshot what is above the cursor of the one before. */
  function Followed(batches: seq<seq<JobEvent>>, workspace: Option<string>): seq<JobEvent> {
    if batches == [] then [] else
      var before := batches[..|batches| - 1];
      Followed(before, workspace)
      + Above(Tail(Visible(Concat(batches), workspace), WINDOW), Cursor(Concat(before), workspace))
  }

  predicate Small(batches: seq<seq<JobEvent>>, workspace: Option<string>) {
    forall i :: 0 <= i < |batches| ==> |Visible(batches[i], workspace)| <= 500
  }

  /** Over any number of snapshots what the consumer gets is in the order of the log, without repetition, and
      visible; and it is every visible event exactly if at most 500 were added between any two snapshots. */
  lemma {:induction false} FollowingIsLossless(batches: seq<seq<JobEvent>>, workspace: Option<string>)
    requires Increasing(Concat(batches))
    ensures Increasing(Followed(batches, workspace))
    ensures forall e :: e in Followed(batches, workspace) ==> e in Visible(Concat(batches), workspace)
    ensures |Followed(batches, workspace)| <= |Visible(Concat(batches), workspace)|
    ensures |Followed(batches, workspace)| == |Visible(Concat(batches), workspace)| <==> Small(batches, workspace)
    ensures Followed(batches, workspace) == Visible(Concat(batches), workspace) <==> Small(batches, workspace)
  {
    if batches != [] {
      var before, added := batches[..|batches| - 1], batches[|batches| - 1];
      PrefixIncreasing(Concat(before), added);
      FollowingIsLossless(before, workspace);
      hide Increasing, Visible, Above, Cursor, Concat;
      LastBatch(batches);
      WindowSinceCursor(Concat(before), added, workspace);
      VisibleJoin(Concat(before), added, workspace);
      SmallLast(batches, workspace);
      VisibleIsFrom(Concat(batches), workspace);
      var past, news := Visible(Concat(before), workspace), Visible(added, workspace);
      AppendTail(Followed(before, workspace), past, news);
    }
  }

  lemma TailIncreases(past: seq<JobEvent>, s: seq<JobEvent>, n: nat)
    requires Increasing(past + s)
    ensures Increasing(Tail(s, n))
  {
    var log, tail := past + s, Tail(s, n);
    var skipped := |log| - |tail|;
    assert forall i :: 0 <= i < |tail| ==> tail[i] == log[skipped + i];
  }

  lemma IncreasingJoin(a: seq<JobEvent>, b: seq<JobEvent>)
    requires Increasing(a) && Increasing(b)
    requires forall i, j :: 0 <= i < |a| && 0 <= j < |b| ==> a[i].id < b[j].id
    ensures Increasing(a + b)
  {
    var all := a + b;
    assert forall i :: 0 <= i < |a| ==> all[i] == a[i];
    assert forall i :: |a| <= i < |all| ==> all[i] == b[i - |a|];
  }

  lemma TailMember(s: seq<JobEvent>, n: nat, j: nat)
    requires j < |Tail(s, n)|
    ensures Tail(s, n)[j] in s
  {
  }

  /** Of an increasing log, events picked in order from a first part and the last ones of the rest increase. */
  lemma AppendTail(picked: seq<JobEvent>, past: seq<JobEvent>, news: seq<JobEvent>)
    requires Increasing(picked) && (forall e :: e in picked ==> e in past) && Increasing(past + news)
    ensures Increasing(picked + Tail(news, WINDOW))
    ensures forall e :: e in picked + Tail(news, WINDOW) ==> e in past + news
  {
    hide Increasing, Tail;
    var tail := Tail(news, WINDOW);
    TailIncreases(past, news, WINDOW);
    forall j | 0 <= j < |tail|
      ensures tail[j] in news
    {
      TailMember(news, WINDOW, j);
    }
    forall i, j | 0 <= i < |picked| && 0 <= j < |tail|
      ensures picked[i].id < tail[j].id
    {
      AddedAreLater(past, news, picked[i], tail[j]);
    }
    IncreasingJoin(picked, tail);
  }

  lemma LastBatch(batches: seq<seq<JobEvent>>)
    requires batches != []
    ensures Concat(batches) == Concat(batches[..|batches| - 1]) + batches[|batches| - 1]
  {
  }

  lemma SmallLast(batches: seq<seq<JobEvent>>, workspace: Option<string>)
    requires batches != []
    ensures Small(batches, workspace) <==>
              Small(batches[..|batches| - 1], workspace) && |Visible(batches[|batches| - 1], workspace)| <= WINDOW
  {
    hide Visible;
    var before := batches[..|batches| - 1];
    assert forall i :: 0 <= i < |before| ==> before[i] == batches[i];
    if Small(batches, workspace) {
      assert |Visible(batches[|batches| - 1], workspace)| <= WINDOW;
    }
  }

  lemma PrefixIncreasing(a: seq<JobEvent>, b: seq<JobEvent>)
    requires Increasing(a + b)
    ensures Increasing(a)
  {
    assert forall i :: 0 <= i < |a| ==> (a + b)[i] == a[i];
  }
}

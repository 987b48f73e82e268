/** The double-checked token refresh of `GatewayCore::valid_access_token` (src/claude_gateway.rs),
    as a machine whose threads take atomic steps in any order. */
module TokenRefresh {
  import opened Common

  const NANOS := 1_000_000_000
  const FAILURE_CACHE_TTL := 30 * NANOS
  const TOKEN_EXPIRY_SAFETY_WINDOW := 5 * 60 * NANOS
  const INVALID_GRANT_ERROR_CODE := "AH_CLAUDE_GATEWAY_REFRESH_INVALID_GRANT"
  const REFRESH_FAILED_ERROR_CODE := "AH_CLAUDE_GATEWAY_REFRESH_FAILED"

  /** Times are nanoseconds: `expiresAt` on the wall clock, `failedAt` on the monotonic one. */
  datatype TokenSet = TokenSet(accessToken: string, refreshToken: string, expiresAt: int)
  datatype UpstreamError = InvalidGrant(body: string) | Http(status: nat, body: string)
  datatype GatewayError = GatewayError(status: nat, errorCode: string, body: string)
  datatype CredentialEvent = RefreshFailed(errorCode: string, upstreamError: string)
  datatype CachedFailure = CachedFailure(error: GatewayError, failedAt: int)

  type Answer = Result<TokenSet, UpstreamError>
  type Outcome = Result<string, GatewayError>

  predicate ValidForForwarding(t: TokenSet, wall: int) {
    t.expiresAt - wall > TOKEN_EXPIRY_SAFETY_WINDOW
  }

  predicate Fresh(f: CachedFailure, mono: int) {
    mono - f.failedAt < FAILURE_CACHE_TTL
  }

  function MapRefreshError(e: UpstreamError): GatewayError {
    match e
    case InvalidGrant(body) => GatewayError(401, INVALID_GRANT_ERROR_CODE, body)
    case Http(status, body) => GatewayError(status, REFRESH_FAILED_ERROR_CODE, body)
  }

  function EventOf(e: GatewayError): CredentialEvent {
    RefreshFailed(e.errorCode, if e.errorCode == INVALID_GRANT_ERROR_CODE then "invalid_grant" else e.errorCode)
  }

  /** Where one caller stands. From `Recheck` to `Unlock` it holds the refresh lock. */
  datatype Pc =
    | Idle
    | FastCheck
    | Waiting
    | Recheck
    | CacheCheck
    | ReadRefreshToken
    | CallUpstream(refreshToken: string)
    | InFlight(refreshToken: string)
    | StoreToken(refreshed: TokenSet)
    | ClearFailure(accessToken: string)
    | CacheFailure(error: GatewayError)
    | RecordEvent(error: GatewayError)
    | Unlock(outcome: Outcome)
    | Done(outcome: Outcome)
  {
    predicate HoldsLock() {
      !(Idle? || FastCheck? || Waiting? || Done?)
    }
  }

  /** What the upstream sees. */
  datatype Entry =
    | Start(refreshToken: string, wall: int, mono: int)
    | Refreshed(token: TokenSet, mono: int)
    | Refused(error: UpstreamError, mono: int)
  {
    predicate RefusedGrant() {
      Refused? && error.InvalidGrant?
    }
  }

  datatype State = State(
    token: TokenSet,
    lock: Option<nat>,
    failure: Option<CachedFailure>,
    events: seq<CredentialEvent>,
    wall: int,
    mono: int,
    threads: map<nat, Pc>,
    log: seq<Entry>)
  {
    function PcOf(t: nat): Pc {
      if t in threads then threads[t] else Idle
    }

    function Go(t: nat, pc: Pc): State {
      this.(threads := threads[t := pc])
    }
  }

  /** Time passes on both clocks, a thread takes its next step, or the upstream answers a thread. */
  datatype Action = Tick(wallDelta: nat, monoDelta: nat) | Run(t: nat) | Respond(t: nat, answer: Answer)

  function RunStep(s: State, t: nat): State {
    match s.PcOf(t)
    case Idle => s.Go(t, FastCheck)
    case FastCheck =>
      if ValidForForwarding(s.token, s.wall) then s.Go(t, Done(Ok(s.token.accessToken))) else s.Go(t, Waiting)
    case Waiting =>
      if s.lock.None? then s.(lock := Some(t)).Go(t, Recheck) else s
    case Recheck =>
      if ValidForForwarding(s.token, s.wall) then s.Go(t, Unlock(Ok(s.token.accessToken))) else s.Go(t, CacheCheck)
    case CacheCheck =>
      if s.failure.Some? && Fresh(s.failure.value, s.mono)
      then s.Go(t, Unlock(Err(s.failure.value.error)))
      else s.Go(t, ReadRefreshToken)
    case ReadRefreshToken => s.Go(t, CallUpstream(s.token.refreshToken))
    case CallUpstream(r) => s.(log := s.log + [Start(r, s.wall, s.mono)]).Go(t, InFlight(r))
    case InFlight(_) => s
    case StoreToken(refreshed) => s.(token := refreshed).Go(t, ClearFailure(refreshed.accessToken))
    case ClearFailure(a) => s.(failure := None).Go(t, Unlock(Ok(a)))
    case CacheFailure(e) => s.(failure := Some(CachedFailure(e, s.mono))).Go(t, RecordEvent(e))
    case RecordEvent(e) => s.(events := s.events + [EventOf(e)]).Go(t, Unlock(Err(e)))
    case Unlock(r) => s.(lock := None).Go(t, Done(r))
    case Done(_) => s.Go(t, Idle)
  }

  function RespondStep(s: State, t: nat, answer: Answer): State {
    if !s.PcOf(t).InFlight? then s else
      match answer
      case Ok(token) => s.(log := s.log + [Refreshed(token, s.mono)]).Go(t, StoreToken(token))
      case Err(error) =>
        var e := MapRefreshError(error);
        s.(log := s.log + [Refused(error, s.mono)])
         .Go(t, if error.InvalidGrant? then CacheFailure(e) else RecordEvent(e))
  }

  function Step(s: State, a: Action): State {
    match a
    case Tick(dw, dm) => s.(wall := s.wall + dw, mono := s.mono + dm)
    case Run(t) => RunStep(s, t)
    case Respond(t, answer) => RespondStep(s, t, answer)
  }

  function Execute(s: State, actions: seq<Action>): State {
    if actions == [] then s else Step(Execute(s, actions[..|actions| - 1]), actions[|actions| - 1])
  }

  function Init(seed: TokenSet, wall: int, mono: int): State {
    State(seed, None, None, [], wall, mono, map[], [])
  }

  // What the upstream's view of a run determines.

  /** The token of the most recent successful refresh, the seed if there is none. */
  function Latest(seed: TokenSet, log: seq<Entry>): TokenSet {
    if log == [] then seed else
      var e := log[|log| - 1];
      if e.Refreshed? then e.token else Latest(seed, log[..|log| - 1])
  }

  /** The refused grant that no later refresh has cleared. */
  function Standing(log: seq<Entry>): Option<CachedFailure> {
    if log == [] then None else
      var e := log[|log| - 1];
      if e.Refreshed? then None
      else if e.RefusedGrant() then Some(CachedFailure(MapRefreshError(e.error), e.mono))
      else Standing(log[..|log| - 1])
  }

  function EventsOf(log: seq<Entry>): seq<CredentialEvent> {
    if log == [] then [] else
      var e := log[|log| - 1];
      EventsOf(log[..|log| - 1]) + (if e.Refused? then [EventOf(MapRefreshError(e.error))] else [])
  }

  function Issued(seed: TokenSet, log: seq<Entry>): set<string> {
    if log == [] then {seed.accessToken} else
      var e := log[|log| - 1];
      Issued(seed, log[..|log| - 1]) + (if e.Refreshed? then {e.token.accessToken} else {})
  }

  function Refusals(log: seq<Entry>): set<GatewayError> {
    if log == [] then {} else
      var e := log[|log| - 1];
      Refusals(log[..|log| - 1]) + (if e.Refused? then {MapRefreshError(e.error)} else {})
  }

  predicate Open(log: seq<Entry>) {
    log != [] && log[|log| - 1].Start?
  }

  /** No refused grant is less than the cache lifetime old. */
  predicate Quiet(log: seq<Entry>, mono: int) {
    forall i :: 0 <= i < |log| && log[i].RefusedGrant() ==> mono - log[i].mono >= FAILURE_CACHE_TTL
  }

  /** An entry is in order after `past`: calls and answers alternate, a call presents the refresh token of
      the most recent refresh, only once that token is inside its safety window and no refusal is recent. */
  predicate InOrder(seed: TokenSet, past: seq<Entry>, e: Entry) {
    match e
    case Start(r, wall, mono) =>
      && !Open(past)
      && r == Latest(seed, past).refreshToken
      && !ValidForForwarding(Latest(seed, past), wall)
      && Quiet(past, mono)
    case _ => Open(past)
  }

  predicate Orderly(seed: TokenSet, log: seq<Entry>) {
    forall j :: 0 <= j < |log| ==> InOrder(seed, log[..j], log[j])
  }

  // The invariant.

  predicate Genuine(seed: TokenSet, log: seq<Entry>, r: Outcome) {
    match r
    case Ok(a) => a in Issued(seed, log)
    case Err(e) => e in Refusals(log)
  }

  predicate CallAllowed(s: State) {
    !ValidForForwarding(s.token, s.wall) && Quiet(s.log, s.mono)
  }

  predicate ThreadOk(seed: TokenSet, s: State, pc: Pc) {
    match pc
    case CacheCheck => !ValidForForwarding(s.token, s.wall)
    case ReadRefreshToken => CallAllowed(s)
    case CallUpstream(r) => CallAllowed(s) && r == s.token.refreshToken
    case StoreToken(token) =>
      token == Latest(seed, s.log) && Standing(s.log).None? && token.accessToken in Issued(seed, s.log)
    case ClearFailure(a) => Standing(s.log).None? && a in Issued(seed, s.log)
    case CacheFailure(e) =>
      && Standing(s.log).Some? && Standing(s.log).value.error == e
      && Standing(s.log).value.failedAt <= s.mono && e in Refusals(s.log)
    case RecordEvent(e) => e in Refusals(s.log)
    case Unlock(r) => Genuine(seed, s.log, r)
    case Done(r) => Genuine(seed, s.log, r)
    case _ => true
  }

  /** The cache holds the standing refusal, stamped no earlier than the refusal itself. */
  predicate CacheInSync(failure: Option<CachedFailure>, log: seq<Entry>) {
    var standing := Standing(log);
    match failure
    case None => standing.None?
    case Some(f) => standing.Some? && f.error == standing.value.error && standing.value.failedAt <= f.failedAt
  }

  predicate EventsInSync(s: State, pc: Pc) {
    EventsOf(s.log) == s.events + (if pc.CacheFailure? || pc.RecordEvent? then [EventOf(pc.error)] else [])
  }

  /** The shared cells agree with the upstream log, but for what the lock holder is still to write. */
  predicate SharedOk(seed: TokenSet, s: State, pc: Pc) {
    && Orderly(seed, s.log)
    && (Open(s.log) <==> pc.InFlight?)
    && (forall i :: 0 <= i < |s.log| ==> s.log[i].mono <= s.mono)
    && (pc.StoreToken? || s.token == Latest(seed, s.log))
    && (pc.StoreToken? || pc.ClearFailure? || pc.CacheFailure? || CacheInSync(s.failure, s.log))
    && (s.failure.Some? ==> s.failure.value.error in Refusals(s.log))
    && EventsInSync(s, pc)
    && s.token.accessToken in Issued(seed, s.log)
  }

  ghost predicate Inv(seed: TokenSet, s: State) {
    && (forall t: nat :: s.PcOf(t).HoldsLock() <==> s.lock == Some(t))
    && (forall t: nat :: ThreadOk(seed, s, s.PcOf(t)))
    && SharedOk(seed, s, if s.lock.None? then Idle else s.PcOf(s.lock.value))
  }

  lemma Append(seed: TokenSet, log: seq<Entry>, e: Entry)
    requires Orderly(seed, log) && InOrder(seed, log, e)
    ensures Orderly(seed, log + [e])
    ensures Latest(seed, log + [e]) == if e.Refreshed? then e.token else Latest(seed, log)
    ensures Standing(log + [e]) ==
            if e.Refreshed? then None
            else if e.RefusedGrant() then Some(CachedFailure(MapRefreshError(e.error), e.mono))
            else Standing(log)
    ensures EventsOf(log + [e]) == EventsOf(log) + if e.Refused? then [EventOf(MapRefreshError(e.error))] else []
    ensures Issued(seed, log + [e]) == Issued(seed, log) + if e.Refreshed? then {e.token.accessToken} else {}
    ensures Refusals(log + [e]) == Refusals(log) + if e.Refused? then {MapRefreshError(e.error)} else {}
    ensures Open(log + [e]) <==> e.Start?
  {
    var next := log + [e];
    assert next[..|log|] == log;
    forall j | 0 <= j < |next|
      ensures InOrder(seed, next[..j], next[j])
    {
      assert j < |log| ==> next[..j] == log[..j];
    }
  }

  /** Once the cached refusal is stale, every refusal is: an older one was followed by a call, and that
      call already had to wait for it. */
  lemma QuietWhenStale(seed: TokenSet, s: State)
    requires Orderly(seed, s.log) && !Open(s.log) && CacheInSync(s.failure, s.log)
    requires forall i :: 0 <= i < |s.log| ==> s.log[i].mono <= s.mono
    requires s.failure.Some? ==> !Fresh(s.failure.value, s.mono)
    ensures Quiet(s.log, s.mono)
  {
    forall i | 0 <= i < |s.log| && s.log[i].RefusedGrant()
      ensures s.mono - s.log[i].mono >= FAILURE_CACHE_TTL
    {
      if i < |s.log| - 1 {
        var past := s.log[..i + 1];
        assert InOrder(seed, past, s.log[i + 1]);
        assert past[i] == s.log[i] && !Open(past);
      }
    }
  }

  /** A step of one thread keeps the invariant if it keeps that thread's own part and the shared part:
      while a thread holds the lock the others only carry answers, which stay genuine as the log grows. */
  lemma OneThreadMoves(seed: TokenSet, s: State, next: State, t: nat)
    requires Inv(seed, s)
    requires next.threads == s.threads[t := next.PcOf(t)]
    requires next.PcOf(t).HoldsLock() <==> next.lock == Some(t)
    requires next.lock == s.lock || (s.lock.None? && next.lock == Some(t)) || (s.lock == Some(t) && next.lock.None?)
    requires s.lock == Some(t) || next == s.(threads := next.threads, lock := next.lock)
    requires Issued(seed, s.log) <= Issued(seed, next.log) && Refusals(s.log) <= Refusals(next.log)
    requires ThreadOk(seed, next, next.PcOf(t))
    requires SharedOk(seed, next, if next.lock.None? then Idle else next.PcOf(next.lock.value))
    ensures Inv(seed, next)
  {
    hide SharedOk, Issued, Refusals, Latest, Standing, Quiet;
    forall u: nat
      ensures next.PcOf(u).HoldsLock() <==> next.lock == Some(u)
      ensures ThreadOk(seed, next, next.PcOf(u))
    {
      if u != t {
        assert next.PcOf(u) == s.PcOf(u);
        assert ThreadOk(seed, s, s.PcOf(u));
        assert s.PcOf(u).HoldsLock() <==> s.lock == Some(u);
      }
    }
  }

  lemma RunShape(s: State, t: nat)
    requires s.PcOf(t).HoldsLock() <==> s.lock == Some(t)
    ensures var next := RunStep(s, t);
            next != s ==>
              && next.threads == s.threads[t := next.PcOf(t)]
              && (next.PcOf(t).HoldsLock() <==> next.lock == Some(t))
              && (next.lock == s.lock
                  || (s.lock.None? && next.lock == Some(t)) || (s.lock == Some(t) && next.lock.None?))
              && (s.lock == Some(t) || next == s.(threads := next.threads, lock := next.lock))
  {
  }

  lemma RunKeepsInv(seed: TokenSet, s: State, t: nat)
    requires Inv(seed, s)
    ensures Inv(seed, RunStep(s, t))
  {
    hide ThreadOk, SharedOk, RunStep, Issued, Refusals;
    assert s.PcOf(t).HoldsLock() <==> s.lock == Some(t);
    RunShape(s, t);
    if RunStep(s, t) != s {
      if s.lock == Some(t) {
        HolderStep(seed, s, t);
      } else {
        OutsiderStep(seed, s, t);
      }
      OneThreadMoves(seed, s, RunStep(s, t), t);
    }
  }

  lemma OutsiderStep(seed: TokenSet, s: State, t: nat)
    requires Inv(seed, s) && s.lock != Some(t)
    ensures var next := RunStep(s, t);
            && ThreadOk(seed, next, next.PcOf(t))
            && SharedOk(seed, next, if next.lock.None? then Idle else next.PcOf(next.lock.value))
  {
    hide Issued, Refusals, Latest, Standing, Orderly, Open, EventsOf;
    assert ThreadOk(seed, s, s.PcOf(t));
    assert !s.PcOf(t).HoldsLock();
  }

  lemma HolderStep(seed: TokenSet, s: State, t: nat)
    requires Inv(seed, s) && s.lock == Some(t)
    ensures ThreadOk(seed, RunStep(s, t), RunStep(s, t).PcOf(t))
    ensures SharedOk(seed, RunStep(s, t), if RunStep(s, t).lock.None? then Idle else RunStep(s, t).PcOf(t))
    ensures Issued(seed, s.log) <= Issued(seed, RunStep(s, t).log) && Refusals(s.log) <= Refusals(RunStep(s, t).log)
  {
    hide Issued, Refusals, Latest, Standing, Orderly, Open, EventsOf;
    assert ThreadOk(seed, s, s.PcOf(t));
    match s.PcOf(t)
    case CacheCheck =>
      if !(s.failure.Some? && Fresh(s.failure.value, s.mono)) {
        QuietWhenStale(seed, s);
      }
    case CallUpstream(r) =>
      Append(seed, s.log, Start(r, s.wall, s.mono));
    case _ =>
  }

  lemma RespondKeepsInv(seed: TokenSet, s: State, t: nat, answer: Answer)
    requires Inv(seed, s)
    ensures Inv(seed, RespondStep(s, t, answer))
  {
    hide Issued, Refusals, Latest, Standing, Orderly, Open, EventsOf;
    if s.PcOf(t).InFlight? {
      assert s.PcOf(t).HoldsLock();
      var e := match answer case Ok(token) => Refreshed(token, s.mono) case Err(error) => Refused(error, s.mono);
      Append(seed, s.log, e);
      OneThreadMoves(seed, s, RespondStep(s, t, answer), t);
    }
  }

  lemma TickKeepsInv(seed: TokenSet, s: State, dw: nat, dm: nat)
    requires Inv(seed, s)
    ensures Inv(seed, Step(s, Tick(dw, dm)))
  {
    var next := Step(s, Tick(dw, dm));
    forall t: nat
      ensures ThreadOk(seed, next, next.PcOf(t))
    {
      assert ThreadOk(seed, s, s.PcOf(t));
    }
  }

  lemma {:induction false} Invariant(seed: TokenSet, wall: int, mono: int, actions: seq<Action>)
    ensures Inv(seed, Execute(Init(seed, wall, mono), actions))
  {
    if actions != [] {
      var prefix, a := actions[..|actions| - 1], actions[|actions| - 1];
      Invariant(seed, wall, mono, prefix);
      var s := Execute(Init(seed, wall, mono), prefix);
      match a
      case Tick(dw, dm) => TickKeepsInv(seed, s, dw, dm);
      case Run(t) => RunKeepsInv(seed, s, t);
      case Respond(t, answer) => RespondKeepsInv(seed, s, t, answer);
    }
  }

  // The results, for every interleaving of any number of threads.

  /** At most one refresh is in flight, and every call presents the refresh token of the most recent
      successful refresh: the successful refreshes form one unbroken chain from the seed. */
  lemma RefreshesFormAChain(seed: TokenSet, wall: int, mono: int, actions: seq<Action>)
    ensures var s := Execute(Init(seed, wall, mono), actions);
            && (forall t: nat, u: nat :: s.PcOf(t).InFlight? && s.PcOf(u).InFlight? ==> t == u)
            && (forall j :: 0 <= j < |s.log| && s.log[j].Start? ==>
                  && s.log[j].refreshToken == Latest(seed, s.log[..j]).refreshToken
                  && (j + 1 < |s.log| ==> !s.log[j + 1].Start?))
            && (forall j :: 0 <= j < |s.log| && !s.log[j].Start? ==> j > 0 && s.log[j - 1].Start?)
  {
    Invariant(seed, wall, mono, actions);
    var s := Execute(Init(seed, wall, mono), actions);
    forall t: nat, u: nat | s.PcOf(t).InFlight? && s.PcOf(u).InFlight?
      ensures t == u
    {
      assert s.PcOf(t).HoldsLock() && s.PcOf(u).HoldsLock();
    }
    forall j | 0 <= j < |s.log|
      ensures s.log[j].Start? ==> j + 1 < |s.log| ==> !s.log[j + 1].Start?
      ensures !s.log[j].Start? ==> j > 0 && s.log[j - 1].Start?
    {
      assert InOrder(seed, s.log[..j], s.log[j]);
      if j + 1 < |s.log| {
        assert InOrder(seed, s.log[..j + 1], s.log[j + 1]);
        assert s.log[..j + 1][j] == s.log[j];
      }
    }
  }

  /** After a successful refresh no call starts until the new token is inside its safety window, and
      after a refused grant none starts for the cache lifetime. */
  lemma RefreshesAreSpaced(seed: TokenSet, wall: int, mono: int, actions: seq<Action>, i: nat, j: nat)
    requires var log := Execute(Init(seed, wall, mono), actions).log; i < j < |log| && log[j].Start?
    ensures var log := Execute(Init(seed, wall, mono), actions).log;
            && (log[i].Refreshed? && (forall k :: i < k < j ==> !log[k].Refreshed?) ==>
                  log[i].token.expiresAt - log[j].wall <= 300 * NANOS)
            && (log[i].RefusedGrant() ==> log[j].mono - log[i].mono >= 30 * NANOS)
  {
    Invariant(seed, wall, mono, actions);
    var log := Execute(Init(seed, wall, mono), actions).log;
    assert InOrder(seed, log[..j], log[j]);
    assert log[..j][i] == log[i];
    if log[i].Refreshed? && forall k :: i < k < j ==> !log[k].Refreshed? {
      LatestIs(seed, log, i, j);
    }
  }

  lemma {:induction false} LatestIs(seed: TokenSet, log: seq<Entry>, i: nat, j: nat)
    requires i < j <= |log| && log[i].Refreshed? && forall k :: i < k < j ==> !log[k].Refreshed?
    ensures Latest(seed, log[..j]) == log[i].token
  {
    if i < j - 1 {
      LatestIs(seed, log, i, j - 1);
      assert log[..j][..j - 1] == log[..j - 1];
    }
  }

  /** Whenever the lock is free, the three shared cells are a function of the upstream's log: the latest
      token, the standing refusal, and one event for each failed call, in order. */
  lemma CellsReplayTheLog(seed: TokenSet, wall: int, mono: int, actions: seq<Action>)
    ensures var s := Execute(Init(seed, wall, mono), actions);
            s.lock.None? ==>
              && s.token == Latest(seed, s.log)
              && CacheInSync(s.failure, s.log)
              && s.events == EventsOf(s.log)
              && |s.events| == FailedCalls(s.log)
              && (forall i :: 0 <= i < |s.log| && s.log[i].Refused? ==> ReportedAt(s.log, i, s.events))
  {
    Invariant(seed, wall, mono, actions);
    var s := Execute(Init(seed, wall, mono), actions);
    CountEvents(s.log);
    hide Execute;
    forall i | 0 <= i < |s.log| && s.log[i].Refused?
      ensures ReportedAt(s.log, i, EventsOf(s.log))
    {
      EventOfRefusal(s.log, i);
    }
  }

  /** The event of the failed call at `i`, which comes after those of the failed calls before it. */
  predicate ReportedAt(log: seq<Entry>, i: nat, events: seq<CredentialEvent>)
    requires i < |log| && log[i].Refused?
  {
    var n := FailedCalls(log[..i]);
    && n < |events|
    && events[n] == match log[i].error
                    case InvalidGrant(_) => RefreshFailed("AH_CLAUDE_GATEWAY_REFRESH_INVALID_GRANT", "invalid_grant")
                    case Http(_, _) =>
                      RefreshFailed("AH_CLAUDE_GATEWAY_REFRESH_FAILED", "AH_CLAUDE_GATEWAY_REFRESH_FAILED")
  }

  lemma TwoCodes()
    ensures "AH_CLAUDE_GATEWAY_REFRESH_INVALID_GRANT" != "AH_CLAUDE_GATEWAY_REFRESH_FAILED"
  {
    assert |"AH_CLAUDE_GATEWAY_REFRESH_INVALID_GRANT"| == 39 && |"AH_CLAUDE_GATEWAY_REFRESH_FAILED"| == 32;
  }

  lemma {:induction false} EventOfRefusal(log: seq<Entry>, i: nat)
    requires i < |log| && log[i].Refused?
    ensures ReportedAt(log, i, EventsOf(log))
  {
    var before := log[..|log| - 1];
    TwoCodes();
    if i == |log| - 1 {
      CountEvents(before);
    } else {
      assert before[..i] == log[..i];
      EventOfRefusal(before, i);
    }
  }

  function FailedCalls(log: seq<Entry>): nat {
    |set i | 0 <= i < |log| && log[i].Refused?|
  }

  lemma {:induction false} CountEvents(log: seq<Entry>)
    ensures |EventsOf(log)| == FailedCalls(log)
  {
    if log != [] {
      var n := |log| - 1;
      CountEvents(log[..n]);
      var all, some := set i | 0 <= i < |log| && log[i].Refused?, set i | 0 <= i < n && log[..n][i].Refused?;
      assert all == some + if log[n].Refused? then {n} else {};
    }
  }

  /** The thread has its answer and is on the way out with it. */
  predicate Carries(pc: Pc, r: Outcome) {
    match pc
    case StoreToken(token) => r == Ok(token.accessToken)
    case ClearFailure(a) => r == Ok(a)
    case CacheFailure(e) => r == Err(e)
    case RecordEvent(e) => r == Err(e)
    case Unlock(o) => r == o
    case Done(o) => r == o
    case _ => false
  }

  /** The step in which a call gets its answer: it finds the shared token outside its safety window, or a
      cached refusal less than the cache lifetime old, or the upstream answers this very call. */
  predicate Decides(s: State, a: Action, t: nat, r: Outcome) {
    match s.PcOf(t)
    case FastCheck => a == Run(t) && ValidForForwarding(s.token, s.wall) && r == Ok(s.token.accessToken)
    case Recheck => a == Run(t) && ValidForForwarding(s.token, s.wall) && r == Ok(s.token.accessToken)
    case CacheCheck =>
      a == Run(t) && s.failure.Some? && Fresh(s.failure.value, s.mono) && r == Err(s.failure.value.error)
    case InFlight(_) =>
      a.Respond? && a.t == t
      && r == (match a.answer case Ok(token) => Ok(token.accessToken) case Err(e) => Err(MapRefreshError(e)))
    case _ => false
  }

  lemma CarriedOrDecided(s: State, a: Action, t: nat, r: Outcome)
    requires Carries(Step(s, a).PcOf(t), r)
    ensures Carries(s.PcOf(t), r) || Decides(s, a, t, r)
  {
    hide MapRefreshError, EventOf, ValidForForwarding, Fresh;
  }

  /** Step `k` decides the answer `r` of thread `t`, which carries it from then on: it is the answer of one call. */
  ghost predicate DecidedAt(start: State, actions: seq<Action>, t: nat, r: Outcome, k: nat) {
    && k < |actions|
    && Decides(Execute(start, actions[..k]), actions[k], t, r)
    && forall j :: k < j <= |actions| ==> Carries(Execute(start, actions[..j]).PcOf(t), r)
  }

  lemma {:induction false} AnswerWasDecided(start: State, actions: seq<Action>, t: nat, r: Outcome) returns (k: nat)
    requires !Carries(start.PcOf(t), r) && Carries(Execute(start, actions).PcOf(t), r)
    ensures DecidedAt(start, actions, t, r, k)
  {
    hide Step, Carries, Decides;
    var before, last := actions[..|actions| - 1], |actions| - 1;
    CarriedOrDecided(Execute(start, before), actions[last], t, r);
    assert actions[..|actions|] == actions;
    if Carries(Execute(start, before).PcOf(t), r) {
      k := AnswerWasDecided(start, before, t, r);
      assert before[..k] == actions[..k] && before[k] == actions[k];
      forall j | k < j <= |actions|
        ensures Carries(Execute(start, actions[..j]).PcOf(t), r)
      {
        assert j <= last ==> before[..j] == actions[..j];
      }
    } else {
      k := last;
    }
  }

  // The cached refusal and its stamp.

  /** Step `k` of the run stored the cached refusal `f`, and it has been there ever since. */
  ghost predicate StoredAt(start: State, actions: seq<Action>, f: CachedFailure, k: nat) {
    && k < |actions|
    && actions[k].Run?
    && Execute(start, actions[..k]).PcOf(actions[k].t) == CacheFailure(f.error)
    && Execute(start, actions[..k]).mono == f.failedAt
    && forall j :: k < j <= |actions| ==> Execute(start, actions[..j]).failure == Some(f)
  }

  lemma FailureMoves(s: State, a: Action, f: CachedFailure)
    requires Step(s, a).failure == Some(f) && s.failure != Some(f)
    ensures a.Run? && s.PcOf(a.t) == CacheFailure(f.error) && s.mono == f.failedAt
  {
    hide MapRefreshError, EventOf, ValidForForwarding, Fresh;
  }

  /** A cached refusal is stamped with the clock of the step that stored it. */
  lemma {:induction false} StampIsTheClock(start: State, actions: seq<Action>, f: CachedFailure) returns (k: nat)
    requires start.failure.None? && Execute(start, actions).failure == Some(f)
    ensures StoredAt(start, actions, f, k)
  {
    hide Step;
    var before, last := actions[..|actions| - 1], |actions| - 1;
    assert actions[..|actions|] == actions;
    if Execute(start, before).failure == Some(f) {
      k := StampIsTheClock(start, before, f);
      assert before[..k] == actions[..k] && before[k] == actions[k];
      forall j | k < j <= |actions|
        ensures Execute(start, actions[..j]).failure == Some(f)
      {
        assert j <= last ==> before[..j] == actions[..j];
      }
    } else {
      FailureMoves(Execute(start, before), actions[last], f);
      k := last;
    }
  }

  lemma {:induction false} ClockRuns(start: State, actions: seq<Action>, k: nat)
    requires k <= |actions|
    ensures Execute(start, actions[..k]).mono <= Execute(start, actions).mono
  {
    if k == |actions| {
      assert actions[..k] == actions;
    } else {
      var before := actions[..|actions| - 1];
      assert before[..k] == actions[..k];
      ClockRuns(start, before, k);
      hide Execute;
      ClockSteps(Execute(start, before), actions[|actions| - 1]);
    }
  }

  lemma ClockSteps(s: State, a: Action)
    ensures s.mono <= Step(s, a).mono
  {
    hide MapRefreshError, EventOf, ValidForForwarding, Fresh;
  }

  /** The error is that of the refused grant at `i`, which no refresh and no refused grant has followed. */
  predicate StandsAt(log: seq<Entry>, i: nat, error: GatewayError) {
    && i < |log|
    && log[i].RefusedGrant()
    && error == GatewayError(401, "AH_CLAUDE_GATEWAY_REFRESH_INVALID_GRANT", log[i].error.body)
    && forall j :: i < j < |log| ==> !log[j].Refreshed? && !log[j].RefusedGrant()
  }

  lemma {:induction false} StandingStands(log: seq<Entry>) returns (i: nat)
    requires Standing(log).Some?
    ensures StandsAt(log, i, Standing(log).value.error) && log[i].mono == Standing(log).value.failedAt
  {
    if log[|log| - 1].RefusedGrant() {
      i := |log| - 1;
    } else {
      i := StandingStands(log[..|log| - 1]);
      assert log[..|log| - 1][i] == log[i];
    }
  }

  /** What the cache check means for a caller. It lets the caller through exactly if nothing is cached or 30 s
      have passed since the step that cached it, and then the log has no refused grant that recent. Otherwise
      it answers with the standing refusal: the refused grant that no refresh has followed. */
  lemma CacheAnswersStandingRefusal(seed: TokenSet, wall: int, mono: int, actions: seq<Action>, t: nat)
    requires Execute(Init(seed, wall, mono), actions).PcOf(t) == CacheCheck
    ensures var start := Init(seed, wall, mono);
            var s := Execute(start, actions);
            var next := Step(s, Run(t)).PcOf(t);
            if s.failure.None? then next == ReadRefreshToken && Quiet(s.log, s.mono)
            else exists k: nat, i: nat ::
                   && StoredAt(start, actions, s.failure.value, k)
                   && StandsAt(s.log, i, s.failure.value.error)
                   && var stored := Execute(start, actions[..k]).mono;
                   && s.log[i].mono <= stored <= s.mono
                   && (if s.mono - stored >= 30 * NANOS then next == ReadRefreshToken && Quiet(s.log, s.mono)
                       else next == Unlock(Err(s.failure.value.error)))
  {
    var start := Init(seed, wall, mono);
    var s := Execute(start, actions);
    Invariant(seed, wall, mono, actions);
    assert s.PcOf(t).HoldsLock();
    hide Execute;
    if !(s.failure.Some? && Fresh(s.failure.value, s.mono)) {
      QuietWhenStale(seed, s);
    }
    if s.failure.Some? {
      var k := StampIsTheClock(start, actions, s.failure.value);
      ClockRuns(start, actions, k);
      var i := StandingStands(s.log);
    }
  }

  /** The error that a caller gets for a refusal of its own. */
  predicate RefusedWith(e: UpstreamError, r: Outcome) {
    match e
    case InvalidGrant(body) => r == Err(GatewayError(401, "AH_CLAUDE_GATEWAY_REFRESH_INVALID_GRANT", body))
    case Http(status, body) => r == Err(GatewayError(status, "AH_CLAUDE_GATEWAY_REFRESH_FAILED", body))
  }

  /** What happened to the caller at the step that decided its answer: the shared token was outside its safety
      window, or the upstream answered this call, or a standing refusal had been cached less than 30 s before. */
  ghost predicate JustifiedAt(start: State, actions: seq<Action>, t: nat, r: Outcome, k: nat) {
    && k < |actions|
    && var s := Execute(start, actions[..k]);
    match s.PcOf(t)
    case InFlight(_) =>
      && actions[k].Respond? && actions[k].t == t
      && (match actions[k].answer case Ok(token) => r == Ok(token.accessToken) case Err(e) => RefusedWith(e, r))
    case CacheCheck =>
      && r.Err?
      && exists c: nat, i: nat ::
           && c < k
           && StoredAt(start, actions[..k], CachedFailure(r.error, Execute(start, actions[..k][..c]).mono), c)
           && StandsAt(s.log, i, r.error)
           && s.mono - Execute(start, actions[..k][..c]).mono < 30 * NANOS
    case _ => s.token.expiresAt - s.wall > 300 * NANOS && r == Ok(s.token.accessToken)
  }

  lemma DecisionIsJustified(seed: TokenSet, wall: int, mono: int, actions: seq<Action>, t: nat, r: Outcome, k: nat)
    requires k < |actions| && Decides(Execute(Init(seed, wall, mono), actions[..k]), actions[k], t, r)
    ensures JustifiedAt(Init(seed, wall, mono), actions, t, r, k)
  {
    var start := Init(seed, wall, mono);
    var s := Execute(start, actions[..k]);
    if s.PcOf(t) == CacheCheck {
      Invariant(seed, wall, mono, actions[..k]);
      hide Execute;
      assert s.PcOf(t).HoldsLock();
      var c := StampIsTheClock(start, actions[..k], s.failure.value);
      var i := StandingStands(s.log);
      assert s.failure.value == CachedFailure(r.error, Execute(start, actions[..k][..c]).mono);
    }
  }

  /** Every answer was decided by a step of the call that returns it. An access token was at that moment the
      shared token, outside its safety window, or came from the upstream in answer to this call. An error was
      the refusal of this call, or the standing refusal, cached less than 30 s before. */
  lemma AnswersAreGenuine(seed: TokenSet, wall: int, mono: int, actions: seq<Action>, t: nat) returns (k: nat)
    requires Execute(Init(seed, wall, mono), actions).PcOf(t).Done?
    ensures var start := Init(seed, wall, mono);
            var r := Execute(start, actions).PcOf(t).outcome;
            DecidedAt(start, actions, t, r, k) && JustifiedAt(start, actions, t, r, k)
    ensures var end := Execute(Init(seed, wall, mono), actions); Genuine(seed, end.log, end.PcOf(t).outcome)
  {
    var start := Init(seed, wall, mono);
    Invariant(seed, wall, mono, actions);
    var end := Execute(start, actions);
    assert ThreadOk(seed, end, end.PcOf(t));
    hide Execute, Decides, JustifiedAt;
    assert start.PcOf(t) == Idle;
    k := AnswerWasDecided(start, actions, t, end.PcOf(t).outcome);
    DecisionIsJustified(seed, wall, mono, actions, t, end.PcOf(t).outcome, k);
  }

  /** A caller between two calls that finds a token with more than five minutes left is answered with it in its next
      steps, whoever holds the lock; any other caller goes to wait for the lock. Nothing shared moves. */
  lemma ValidTokenNeedsNoLock(s: State, t: nat)
    ensures s.PcOf(t).Done? ==> RunStep(s, t) == s.Go(t, Idle)
    ensures s.PcOf(t).Idle? ==>
              RunStep(RunStep(s, t), t) ==
              s.Go(t, if s.token.expiresAt - s.wall > 300 * NANOS then Done(Ok(s.token.accessToken)) else Waiting)
  {
    if s.PcOf(t).Idle? {
      var called := RunStep(s, t);
      forall pc: Pc
        ensures called.Go(t, pc) == s.Go(t, pc)
      {
        assert called.Go(t, pc).threads == s.Go(t, pc).threads;
      }
    }
  }

  /** The clocks show the time that has passed. */
  lemma {:induction false} ClocksShowTheTicks(s: State, actions: seq<Action>)
    ensures Execute(s, actions).wall == s.wall + Passed(actions).0
    ensures Execute(s, actions).mono == s.mono + Passed(actions).1
  {
    if actions != [] {
      ClocksShowTheTicks(s, actions[..|actions| - 1]);
    }
  }

  function Passed(actions: seq<Action>): (int, int) {
    if actions == [] then (0, 0)
    else
      var (w, m) := Passed(actions[..|actions| - 1]);
      match actions[|actions| - 1]
      case Tick(dw, dm) => (w + dw, m + dm)
      case _ => (w, m)
  }

  function StepsLeft(pc: Pc): nat {
    match pc
    case Idle => 13
    case FastCheck => 12
    case Waiting => 11
    case Recheck => 10
    case CacheCheck => 9
    case ReadRefreshToken => 8
    case CallUpstream(_) => 7
    case InFlight(_) => 6
    case StoreToken(_) => 3
    case ClearFailure(_) => 2
    case CacheFailure(_) => 3
    case RecordEvent(_) => 2
    case Unlock(_) => 1
    case Done(_) => 0
  }

  /** Whether an action is one that the holder `t` waits for. */
  predicate Moves(s: State, t: nat, a: Action) {
    if s.PcOf(t).InFlight? then a.Respond? && a.t == t else a == Run(t)
  }

  /** How often `t` moves in a schedule. */
  function MovesOf(s: State, t: nat, actions: seq<Action>): nat {
    if actions == [] then 0 else
      var before := actions[..|actions| - 1];
      MovesOf(s, t, before) + if Moves(Execute(s, before), t, actions[|actions| - 1]) then 1 else 0
  }

  /** While `t` holds the lock, its moves bring it nearer to the release and nothing else moves it. */
  lemma OthersLeave(s: State, t: nat, a: Action)
    requires s.lock == Some(t) && s.PcOf(t).HoldsLock()
    requires a.Tick? || a.t != t
    ensures Step(s, a).PcOf(t) == s.PcOf(t)
  {
    hide MapRefreshError, EventOf, ValidForForwarding, Fresh;
  }

  lemma HolderAdvances(s: State, t: nat, a: Action)
    requires s.lock == Some(t) && s.PcOf(t).HoldsLock()
    ensures var next := Step(s, a);
            next.lock == Some(t) ==>
              && next.PcOf(t).HoldsLock()
              && StepsLeft(next.PcOf(t)) + (if Moves(s, t, a) then 1 else 0) <= StepsLeft(s.PcOf(t))
  {
    hide MapRefreshError, EventOf, ValidForForwarding, Fresh;
    if a.Tick? || a.t != t {
      OthersLeave(s, t, a);
      hide Step;
    }
  }

  /** In every schedule, whatever the other threads do, the lock has been released by the time its holder has
      moved ten times. */
  lemma {:induction false} LockIsReleased(s: State, t: nat, actions: seq<Action>)
    requires s.lock == Some(t) && s.PcOf(t).HoldsLock()
    ensures MovesOf(s, t, actions) >= StepsLeft(s.PcOf(t)) ==>
              exists n :: 0 <= n <= |actions| && Execute(s, actions[..n]).lock != Some(t)
    ensures StepsLeft(s.PcOf(t)) <= 10
  {
    if forall n :: 0 <= n <= |actions| ==> Execute(s, actions[..n]).lock == Some(t) {
      StillHolding(s, t, actions);
    }
  }

  lemma {:induction false} StillHolding(s: State, t: nat, actions: seq<Action>)
    requires s.lock == Some(t) && s.PcOf(t).HoldsLock()
    requires forall n :: 0 <= n <= |actions| ==> Execute(s, actions[..n]).lock == Some(t)
    ensures var end := Execute(s, actions);
            end.lock == Some(t) && end.PcOf(t).HoldsLock()
            && StepsLeft(end.PcOf(t)) + MovesOf(s, t, actions) <= StepsLeft(s.PcOf(t))
  {
    hide Step, Moves;
    assert actions[..|actions|] == actions;
    if actions != [] {
      var before := actions[..|actions| - 1];
      forall n | 0 <= n <= |before|
        ensures Execute(s, before[..n]).lock == Some(t)
      {
        assert before[..n] == actions[..n];
      }
      StillHolding(s, t, before);
      HolderAdvances(Execute(s, before), t, actions[|actions| - 1]);
    }
  }

  // The code itself, as one caller runs it without interference.

  /** Runs thread `t` to its answer; `elapsed` passes on both clocks while the upstream works. */
  ghost function Solo(s: State, t: nat, upstream: string -> Answer, elapsed: nat): (r: State)
    requires s.lock == if s.PcOf(t).HoldsLock() then Some(t) else None
    ensures r.PcOf(t).Done? && r.lock.None?
    decreases StepsLeft(s.PcOf(t))
  {
    match s.PcOf(t)
    case Done(_) => s
    case InFlight(r) => Solo(Step(Step(s, Tick(elapsed, elapsed)), Respond(t, upstream(r))), t, upstream, elapsed)
    case _ => Solo(Step(s, Run(t)), t, upstream, elapsed)
  }

  lemma SoloStep(s: State, t: nat, upstream: string -> Answer, elapsed: nat)
    requires s.lock == if s.PcOf(t).HoldsLock() then Some(t) else None
    ensures var next := Step(s, Run(t));
            !s.PcOf(t).InFlight? && !s.PcOf(t).Done? ==>
              && next.lock == (if next.PcOf(t).HoldsLock() then Some(t) else None)
              && Solo(s, t, upstream, elapsed) == Solo(next, t, upstream, elapsed)
    ensures s.PcOf(t).InFlight? ==>
              var next := Step(Step(s, Tick(elapsed, elapsed)), Respond(t, upstream(s.PcOf(t).refreshToken)));
              && next.lock == (if next.PcOf(t).HoldsLock() then Some(t) else None)
              && Solo(s, t, upstream, elapsed) == Solo(next, t, upstream, elapsed)
    ensures s.PcOf(t).Done? ==> Solo(s, t, upstream, elapsed) == s
  {
  }

  /** The three cells. */
  datatype Shared = Shared(token: TokenSet, failure: Option<CachedFailure>, events: seq<CredentialEvent>)

  /** What an answer of the upstream, arriving at time `at`, makes of them. */
  predicate Applied(was: Shared, at: int, answer: Answer, r: Outcome, now: Shared) {
    match answer
    case Ok(renewed) => r == Ok(renewed.accessToken) && now == Shared(renewed, None, was.events)
    case Err(InvalidGrant(body)) =>
      var e := GatewayError(401, "AH_CLAUDE_GATEWAY_REFRESH_INVALID_GRANT", body);
      var event := RefreshFailed("AH_CLAUDE_GATEWAY_REFRESH_INVALID_GRANT", "invalid_grant");
      r == Err(e) && now == Shared(was.token, Some(CachedFailure(e, at)), was.events + [event])
    case Err(Http(status, body)) =>
      var event := RefreshFailed("AH_CLAUDE_GATEWAY_REFRESH_FAILED", "AH_CLAUDE_GATEWAY_REFRESH_FAILED");
      && r == Err(GatewayError(status, "AH_CLAUDE_GATEWAY_REFRESH_FAILED", body))
      && now == was.(events := was.events + [event])
  }

  lemma SuccessApplied(was: Shared, at: int, refreshed: TokenSet)
    ensures Applied(was, at, Ok(refreshed), Ok(refreshed.accessToken), Shared(refreshed, None, was.events))
  {
  }

  lemma RefusalApplied(was: Shared, at: int, error: UpstreamError)
    ensures var e := MapRefreshError(error);
            var failure := if error.InvalidGrant? then Some(CachedFailure(e, at)) else was.failure;
            Applied(was, at, Err(error), Err(e), Shared(was.token, failure, was.events + [EventOf(e)]))
  {
    TwoCodes();
  }

  /** What an undisturbed call makes of them. */
  predicate Served(
      was: Shared, wall: int, mono: int, upstream: string -> Answer, elapsed: nat, r: Outcome, now: Shared) {
    if was.token.expiresAt - wall > 300 * NANOS then r == Ok(was.token.accessToken) && now == was
    else if was.failure.Some? && mono - was.failure.value.failedAt < 30 * NANOS
    then r == Err(was.failure.value.error) && now == was
    else Applied(was, mono + elapsed, upstream(was.token.refreshToken), r, now)
  }

  class GatewayCore {
    var token: TokenSet
    var refreshFailure: Option<CachedFailure>
    var events: seq<CredentialEvent>

    constructor (seed: TokenSet)
      ensures token == seed && refreshFailure.None? && events == []
    {
      token, refreshFailure, events := seed, None, [];
    }

    ghost function Cells(wall: int, mono: int): State
      reads this
    {
      State(token, None, refreshFailure, events, wall, mono, map[], [])
    }

    ghost function Held(): Shared
      reads this
    {
      Shared(token, refreshFailure, events)
    }

    /** The body of `valid_access_token` computes what the machine computes for an undisturbed thread. */
    method ValidAccessToken(wall: int, mono: int, upstream: string -> Answer, elapsed: nat) returns (r: Outcome)
      modifies this
      ensures Served(old(Held()), wall, mono, upstream, elapsed, r, Held())
      ensures var s := Solo(old(Cells(wall, mono)), 0, upstream, elapsed);
              && s.PcOf(0) == Done(r)
              && token == s.token && refreshFailure == s.failure && events == s.events
    {
      hide Solo;
      ghost var s := Cells(wall, mono);
      ghost var end := Solo(s, 0, upstream, elapsed);
      SoloStep(s, 0, upstream, elapsed);
      s := Step(s, Run(0));
      SoloStep(s, 0, upstream, elapsed);
      s := Step(s, Run(0));
      SoloStep(s, 0, upstream, elapsed);
      if ValidForForwarding(token, wall) {
        return Ok(token.accessToken);
      }
      r, s := RefreshUnderLock(wall, mono, upstream, elapsed, Step(s, Run(0)));
    }

    /** The part of `valid_access_token` that holds the refresh lock. */
    method RefreshUnderLock(wall: int, mono: int, upstream: string -> Answer, elapsed: nat, ghost start: State)
      returns (r: Outcome, ghost s: State)
      requires start == Cells(wall, mono).(lock := Some(0)).Go(0, Recheck)
      modifies this
      ensures Served(old(Held()), wall, mono, upstream, elapsed, r, Held())
      ensures s == Solo(start, 0, upstream, elapsed)
      ensures s.PcOf(0) == Done(r)
      ensures token == s.token && refreshFailure == s.failure && events == s.events
    {
      hide Solo, MapRefreshError, EventOf, CacheInSync;
      s := start;
      SoloStep(s, 0, upstream, elapsed);
      s := Step(s, Run(0));
      SoloStep(s, 0, upstream, elapsed);
      if ValidForForwarding(token, wall) {
        s := Step(s, Run(0));
        SoloStep(s, 0, upstream, elapsed);
        return Ok(token.accessToken), s;
      }
      var cached := CachedFailureInsideRefreshLock(mono);
      s := Step(s, Run(0));
      SoloStep(s, 0, upstream, elapsed);
      if cached.Some? {
        s := Step(s, Run(0));
        SoloStep(s, 0, upstream, elapsed);
        return Err(cached.value), s;
      }
      r, s := AskUpstream(mono, upstream, elapsed, s);
    }

    /** The refresh itself: the current refresh token goes to the upstream. */
    method AskUpstream(mono: int, upstream: string -> Answer, elapsed: nat, ghost start: State)
      returns (r: Outcome, ghost s: State)
      requires start.token == token && start.failure == refreshFailure && start.events == events
      requires start.mono == mono && start.lock == Some(0) && start.PcOf(0) == ReadRefreshToken
      modifies this
      ensures Applied(old(Held()), mono + elapsed, upstream(old(token).refreshToken), r, Held())
      ensures s == Solo(start, 0, upstream, elapsed)
      ensures s.PcOf(0) == Done(r)
      ensures token == s.token && refreshFailure == s.failure && events == s.events
    {
      hide Solo, EventOf, ValidForForwarding, Fresh;
      s := start;
      SoloStep(s, 0, upstream, elapsed);
      var answer := upstream(token.refreshToken);
      s := Step(s, Run(0));
      SoloStep(s, 0, upstream, elapsed);
      s := Step(s, Run(0));
      SoloStep(s, 0, upstream, elapsed);
      s := Step(Step(s, Tick(elapsed, elapsed)), Respond(0, answer));
      r, s := ApplyAnswer(mono + elapsed, upstream, elapsed, answer, s);
    }

    /** Storing what the upstream answered. */
    method ApplyAnswer(mono: int, upstream: string -> Answer, elapsed: nat, answer: Answer, ghost start: State)
      returns (r: Outcome, ghost s: State)
      requires start.token == token && start.failure == refreshFailure && start.events == events
      requires start.mono == mono && start.lock == Some(0)
      requires start.PcOf(0) == match answer
                                case Ok(t) => StoreToken(t)
                                case Err(InvalidGrant(b)) => CacheFailure(MapRefreshError(InvalidGrant(b)))
                                case Err(e) => RecordEvent(MapRefreshError(e))
      modifies this
      ensures Applied(old(Held()), mono, answer, r, Held())
      ensures s == Solo(start, 0, upstream, elapsed)
      ensures s.PcOf(0) == Done(r)
      ensures token == s.token && refreshFailure == s.failure && events == s.events
    {
      hide Solo, Applied, EventOf, MapRefreshError, ValidForForwarding, Fresh, RespondStep;
      s := start;
      SoloStep(s, 0, upstream, elapsed);
      match answer {
      case Ok(refreshed) =>
        SuccessApplied(Held(), mono, refreshed);
        token := refreshed;
        s := Step(s, Run(0));
        SoloStep(s, 0, upstream, elapsed);
        refreshFailure := None;
        r := Ok(refreshed.accessToken);
      case Err(error) =>
        RefusalApplied(Held(), mono, error);
        var gatewayError := MapRefreshError(error);
        if error.InvalidGrant? {
          refreshFailure := Some(CachedFailure(gatewayError, mono));
          s := Step(s, Run(0));
          SoloStep(s, 0, upstream, elapsed);
        }
        events := events + [EventOf(gatewayError)];
        r := Err(gatewayError);
      }
      s := Step(s, Run(0));
      SoloStep(s, 0, upstream, elapsed);
      s := Step(s, Run(0));
      SoloStep(s, 0, upstream, elapsed);
    }

    /** With a cache in step with a log of the upstream, the answer is the log's standing refusal or none, and
        it is that refusal while the log has it less than the cache lifetime ago. */
    method CachedFailureInsideRefreshLock(mono: int) returns (r: Option<GatewayError>)
      ensures forall log :: CacheInSync(refreshFailure, log) ==>
                && (r.Some? ==> Standing(log).Some? && r.value == Standing(log).value.error)
                && (Standing(log).Some? && Fresh(Standing(log).value, mono) ==> r.Some?)
      ensures r == if refreshFailure.Some? && mono - refreshFailure.value.failedAt < FAILURE_CACHE_TTL
                   then Some(refreshFailure.value.error) else None
    {
      if refreshFailure.Some? && Fresh(refreshFailure.value, mono) {
        r := Some(refreshFailure.value.error);
      } else {
        r := None;
      }
    }
  }
}

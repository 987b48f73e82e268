/** The job state gate (src/db/job_state.rs) with the audit trail it writes (src/db/jobs.rs): gate calls,
    requeues, cancel requests and takeovers, where the check of a gate call and its UPDATE may be apart. */
module JobGate {
  import opened Common
  import Json
  import JsonGrammar

  type Id = string

  datatype JobStatus = Queued | Dispatched | Completed | Cancelled | Failed

  function AsDbStr(status: JobStatus): string {
    match status
    case Queued => "QUEUED"
    case Dispatched => "DISPATCHED"
    case Completed => "COMPLETED"
    case Cancelled => "CANCELLED"
    case Failed => "FAILED"
  }

  function FromDbStr(text: string): Option<JobStatus> {
    match text
    case "QUEUED" => Some(Queued)
    case "DISPATCHED" => Some(Dispatched)
    case "COMPLETED" => Some(Completed)
    case "CANCELLED" => Some(Cancelled)
    case "FAILED" => Some(Failed)
    case _ => None
  }

  /** Each status has one text and every other text is unrecognized. */
  lemma DbStrRoundTrip(text: string, status: JobStatus)
    ensures FromDbStr(text) == Some(status) <==> text == AsDbStr(status)
  {
    assert AsDbStr(status)[0] == 'C' ==> AsDbStr(status)[1] in {'O', 'A'};
    assert |"QUEUED"| == |"FAILED"| == 6 && "QUEUED"[0] == 'Q' && "FAILED"[0] == 'F';
    assert |"COMPLETED"| == |"CANCELLED"| == 9 && "COMPLETED"[1] == 'O' && "CANCELLED"[1] == 'A';
    assert |"DISPATCHED"| == 10;
  }

  lemma DbTexts()
    ensures AsDbStr(Queued) == "QUEUED" && AsDbStr(Dispatched) == "DISPATCHED" && AsDbStr(Completed) == "COMPLETED"
    ensures AsDbStr(Cancelled) == "CANCELLED" && AsDbStr(Failed) == "FAILED"
  {
  }

  predicate LegalEdge(from: JobStatus, to: JobStatus) {
    match from
    case Queued => to in {Dispatched, Cancelled, Failed}
    case Dispatched => to in {Completed, Failed, Cancelled, Queued}
    case Failed => to in {Completed, Queued}
    case _ => false
  }

  /** What a submission or a recovery says about the job that it inserts. */
  datatype Draft = Draft(
    agentId: Id,
    requestId: Option<string>,
    promptText: string,
    errorReason: Option<string>,
    cancelRequested: bool,
    requiresPhysicalEvidence: bool,
    requiresTestEvidence: bool)
  {
    predicate Repeats(j: Job) {
      j.agentId == agentId && j.requestId == requestId
    }
  }

  datatype Job = Job(
    agentId: Id,
    requestId: Option<string>,
    promptText: string,
    createdAt: int,
    requiresPhysicalEvidence: bool,
    requiresTestEvidence: bool,
    status: string,
    errorReason: Option<string>,
    dispatchedAt: Option<int>,
    dispatchedAtSeqId: Option<int>,
    completedAt: Option<int>,
    cancelRequested: bool)
  {
    predicate Is(s: JobStatus) {
      FromDbStr(status) == Some(s)
    }

    /** The columns that the UPDATE of a transition writes. */
    function Moved(to: JobStatus, now: int): Job {
      var j := this.(status := AsDbStr(to));
      match to
      case Dispatched => j.(dispatchedAt := Some(now))
      case Queued => j.(dispatchedAt := None, dispatchedAtSeqId := None, completedAt := None)
      case _ => j.(completedAt := Some(now))
    }
  }

  datatype Kind = JobTransition | JobUpdated

  /** A row of `job_transitions`: the edge, and the job as it was right after it. */
  datatype Transition = Transition(
    jobId: Id,
    agentId: Id,
    kind: Kind,
    from: Option<JobStatus>,
    to: JobStatus,
    reason: string,
    dispatchedAt: Option<int>,
    completedAt: Option<int>,
    cancelRequested: bool,
    errorReason: Option<string>,
    createdAt: int)

  function Audit(id: Id, job: Job, kind: Kind, from: Option<JobStatus>, to: JobStatus, reason: string,
                 now: int): Transition
  {
    Transition(id, job.agentId, kind, from, to, reason, job.dispatchedAt, job.completedAt, job.cancelRequested,
               job.errorReason, now)
  }

  datatype AgentEvent = AgentEvent(agentId: Id, eventType: string, payload: string)

  // Late evidence.

  /** The payload of the agent's latest `state_change` event. */
  function LatestStateChange(events: seq<AgentEvent>, agentId: Id): Option<string> {
    if events == [] then None else
      var e := events[|events| - 1];
      if e.agentId == agentId && e.eventType == "state_change" then Some(e.payload)
      else LatestStateChange(events[..|events| - 1], agentId)
  }

  predicate ReportsHealthCompletion(payload: string, jobId: Id) {
    var v := match Json.Parse(payload) case Some(v) => v case None => Json.Object(map[]);
    && Json.GetString(v, "reason") == Some("HEALTH_CHECK_STUCK")
    && (match Json.Get(v, "signal_kinds")
        case Some(Array(signals)) => Json.String("health:completion") in signals
        case _ => false)
    && Json.GetString(v, "job_id") == Some(jobId)
  }

  predicate LateEvidence(events: seq<AgentEvent>, agentId: Id, jobId: Id) {
    var payload := LatestStateChange(events, agentId);
    payload.Some? && ReportsHealthCompletion(payload.value, jobId)
  }

  /** Event `n` is the latest state change of the agent, and its payload is a JSON text of an object that reports the
      health check's completion signal for this job. */
  ghost predicate EvidentAt(events: seq<AgentEvent>, n: nat, agentId: Id, jobId: Id) {
    && n < |events|
    && IsStateChange(events[n], agentId)
    && (forall m :: n < m < |events| ==> !IsStateChange(events[m], agentId))
    && exists members :: JsonGrammar.Derives(events[n].payload, Json.Object(members)) && Reports(members, jobId)
  }

  predicate IsStateChange(e: AgentEvent, agentId: Id) {
    e.agentId == agentId && e.eventType == "state_change"
  }

  predicate Reports(members: map<string, Json.Value>, jobId: Id) {
    && "reason" in members && members["reason"] == Json.String("HEALTH_CHECK_STUCK")
    && "job_id" in members && members["job_id"] == Json.String(jobId)
    && "signal_kinds" in members && members["signal_kinds"].Array?
    && Json.String("health:completion") in members["signal_kinds"].items
  }

  lemma PayloadReports(payload: string, jobId: Id)
    ensures ReportsHealthCompletion(payload, jobId) <==>
              exists members :: JsonGrammar.Derives(payload, Json.Object(members)) && Reports(members, jobId)
  {
    hide Json.Parse, JsonGrammar.Derives;
    if ReportsHealthCompletion(payload, jobId) {
      var v := Json.Parse(payload).value;
      JsonGrammar.ParseIsExact(payload, v);
      assert v == Json.Object(v.members) && Reports(v.members, jobId);
    }
    forall members | JsonGrammar.Derives(payload, Json.Object(members)) && Reports(members, jobId)
      ensures ReportsHealthCompletion(payload, jobId)
    {
      JsonGrammar.ParseIsExact(payload, Json.Object(members));
    }
  }

  lemma {:induction false} LatestIs(events: seq<AgentEvent>, agentId: Id) returns (n: nat)
    requires LatestStateChange(events, agentId).Some?
    ensures n < |events| && IsStateChange(events[n], agentId)
    ensures events[n].payload == LatestStateChange(events, agentId).value
    ensures forall m :: n < m < |events| ==> !IsStateChange(events[m], agentId)
  {
    if IsStateChange(events[|events| - 1], agentId) {
      n := |events| - 1;
    } else {
      n := LatestIs(events[..|events| - 1], agentId);
    }
  }

  lemma {:induction false} LatestFound(events: seq<AgentEvent>, agentId: Id, n: nat)
    requires n < |events| && IsStateChange(events[n], agentId)
    requires forall m :: n < m < |events| ==> !IsStateChange(events[m], agentId)
    ensures LatestStateChange(events, agentId) == Some(events[n].payload)
  {
    if n < |events| - 1 {
      assert !IsStateChange(events[|events| - 1], agentId);
      LatestFound(events[..|events| - 1], agentId, n);
    }
  }

  lemma LateEvidenceMeans(events: seq<AgentEvent>, agentId: Id, jobId: Id)
    ensures LateEvidence(events, agentId, jobId) <==> exists n: nat :: EvidentAt(events, n, agentId, jobId)
  {
    hide ReportsHealthCompletion, Reports, JsonGrammar.Derives, LatestStateChange;
    if LateEvidence(events, agentId, jobId) {
      var n := LatestIs(events, agentId);
      PayloadReports(events[n].payload, jobId);
      assert EvidentAt(events, n, agentId, jobId);
    }
    if exists n: nat :: EvidentAt(events, n, agentId, jobId) {
      var n: nat :| EvidentAt(events, n, agentId, jobId);
      LatestFound(events, agentId, n);
      PayloadReports(events[n].payload, jobId);
    }
  }

  // The steps.

  type Jobs = map<Id, Job>

  datatype Op =
    | AddAgent(agentId: Id)
    | Insert(id: Id, draft: Draft, reason: string, now: int)
    | Publish(event: AgentEvent)
    | Check(id: Id, from: JobStatus, to: JobStatus)
    | Update(id: Id, from: JobStatus, to: JobStatus, reason: string, now: int)
    | SetError(id: Id, error: Option<string>)
    | RequestCancel(id: Id, now: int)
    | SetSeqId(id: Id, seqId: int)

  /** `passed` holds the gate checks that have succeeded and may still be followed by their UPDATE. */
  datatype State = State(agents: set<Id>, jobs: Jobs, rows: seq<Transition>, events: seq<AgentEvent>,
                         passed: set<(Id, JobStatus, JobStatus)>)
  {
    predicate Has(id: Id, status: JobStatus) {
      id in jobs && jobs[id].Is(status)
    }

    predicate Permits(id: Id, from: JobStatus, to: JobStatus) {
      && Has(id, from)
      && LegalEdge(from, to)
      && (from == Failed && to == Completed ==> LateEvidence(events, jobs[id].agentId, id))
    }

    predicate Taken(agentId: Id, requestId: Option<string>) {
      requestId.Some? && exists id :: id in jobs && jobs[id].agentId == agentId && jobs[id].requestId == requestId
    }

    function With(id: Id, job: Job, row: Transition): State {
      this.(jobs := jobs[id := job], rows := rows + [row])
    }
  }

  function NewJob(d: Draft, now: int): Job {
    Job(d.agentId, d.requestId, d.promptText, now, d.requiresPhysicalEvidence, d.requiresTestEvidence, AsDbStr(Queued),
        d.errorReason, None, None, None, d.cancelRequested)
  }

  function Step(s: State, op: Op): State {
    match op
    case AddAgent(agentId) => s.(agents := s.agents + {agentId})
    case Insert(id, draft, reason, now) =>
      if id in s.jobs || s.Taken(draft.agentId, draft.requestId) || draft.agentId !in s.agents then s else
        var job := NewJob(draft, now);
        s.With(id, job, Audit(id, job, JobTransition, None, Queued, reason, now))
    case Publish(event) => s.(events := s.events + [event])
    case Check(id, from, to) =>
      if s.Permits(id, from, to) then s.(passed := s.passed + {(id, from, to)}) else s
    case Update(id, from, to, reason, now) =>
      if (id, from, to) !in s.passed || !s.Has(id, from) then s else
        var job := s.jobs[id].Moved(to, now);
        s.With(id, job, Audit(id, job, JobTransition, Some(from), to, reason, now))
    case SetError(id, error) =>
      if id !in s.jobs then s else s.(jobs := s.jobs[id := s.jobs[id].(errorReason := error)])
    case RequestCancel(id, now) =>
      if !s.Has(id, Dispatched) || s.jobs[id].cancelRequested then s else
        var job := s.jobs[id].(cancelRequested := true);
        s.With(id, job, Audit(id, job, JobUpdated, Some(Dispatched), Dispatched, "cancel_requested", now))
    case SetSeqId(id, seqId) =>
      if !s.Has(id, Dispatched) then s
      else s.(jobs := s.jobs[id := s.jobs[id].(dispatchedAtSeqId := Some(seqId))])
  }

  function Execute(s: State, ops: seq<Op>): State {
    if ops == [] then s else Step(Execute(s, ops[..|ops| - 1]), ops[|ops| - 1])
  }

  function Init(): State {
    State({}, map[], [], [], {})
  }

  /** The gate's evidence is what the run has published, in order, and its agents are those the run has added. */
  lemma {:induction false} RunHoldsWhatWasPublished(ops: seq<Op>)
    ensures Execute(Init(), ops).events == Published(ops)
    ensures forall a :: a in Execute(Init(), ops).agents <==> AddAgent(a) in ops
  {
    if ops != [] {
      var before, op := ops[..|ops| - 1], ops[|ops| - 1];
      RunHoldsWhatWasPublished(before);
      assert ops == before + [op];
      var s := Execute(Init(), before);
      assert Step(s, op).events == s.events + (if op.Publish? then [op.event] else []);
      assert Step(s, op).agents == s.agents + (if op.AddAgent? then {op.agentId} else {});
    }
  }

  function Published(ops: seq<Op>): seq<AgentEvent> {
    if ops == [] then [] else
      Published(ops[..|ops| - 1]) + (if ops[|ops| - 1].Publish? then [ops[|ops| - 1].event] else [])
  }

  // What the audit trail says about a job.

  function LastRow(rows: seq<Transition>, id: Id): (r: Option<Transition>)
    ensures r.Some? ==> r.value.jobId == id
  {
    if rows == [] then None
    else if rows[|rows| - 1].jobId == id then Some(rows[|rows| - 1])
    else LastRow(rows[..|rows| - 1], id)
  }

  function LastStatus(rows: seq<Transition>, id: Id): Option<JobStatus> {
    match LastRow(rows, id)
    case Some(r) => Some(r.to)
    case None => None
  }

  function LastCancelAt(rows: seq<Transition>, id: Id): Option<int> {
    if rows == [] then None else
      var r := rows[|rows| - 1];
      if r.jobId == id && r.reason == "cancel_requested" then Some(r.createdAt)
      else LastCancelAt(rows[..|rows| - 1], id)
  }

  /** Whether the job's first row already carries the cancel flag. */
  function BornCancelled(rows: seq<Transition>, id: Id): bool {
    rows != [] &&
      var r := rows[|rows| - 1];
      if r.jobId == id && r.from.None? then r.cancelRequested else BornCancelled(rows[..|rows| - 1], id)
  }

  /** A row is in order after `past`: it starts where the job's last row ended, the first one enters
      QUEUED, a transition follows an edge of the table and an update leaves the job DISPATCHED. */
  predicate InOrder(past: seq<Transition>, r: Transition) {
    Follows(LastStatus(past, r.jobId), r)
  }

  predicate Orderly(rows: seq<Transition>) {
    forall i :: 0 <= i < |rows| ==> InOrder(rows[..i], rows[i])
  }

  predicate TimesFit(status: JobStatus, dispatchedAt: Option<int>, seqId: Option<int>, completedAt: Option<int>) {
    match status
    case Queued => dispatchedAt.None? && seqId.None? && completedAt.None?
    case Dispatched => dispatchedAt.Some? && completedAt.None?
    case _ => completedAt.Some?
  }

  // The invariant.

  /** The job as its last audit row shows it, with times that fit its status. */
  predicate Shows(r: Option<Transition>, j: Job) {
    && r.Some?
    && j.Is(r.value.to)
    && r.value.agentId == j.agentId
    && r.value.dispatchedAt == j.dispatchedAt
    && r.value.completedAt == j.completedAt
    && r.value.cancelRequested == j.cancelRequested
    && TimesFit(r.value.to, j.dispatchedAt, j.dispatchedAtSeqId, j.completedAt)
  }

  predicate PassedOk(s: State, p: (Id, JobStatus, JobStatus)) {
    && p.0 in s.jobs
    && LegalEdge(p.1, p.2)
  }

  ghost predicate Inv(s: State) {
    && Orderly(s.rows)
    && (forall id :: id in s.jobs ==> Shows(LastRow(s.rows, id), s.jobs[id]))
    && (forall id :: id !in s.jobs ==> LastRow(s.rows, id).None?)
    && (forall id :: id in s.jobs ==> s.jobs[id].agentId in s.agents)
    && (forall p :: p in s.passed ==> PassedOk(s, p))
    && RequestsOk(s.jobs)
  }

  predicate RequestsOk(jobs: Jobs) {
    forall a, b :: a in jobs && b in jobs && SameRequest(jobs[a], jobs[b]) ==> a == b
  }

  predicate SameRequest(a: Job, b: Job) {
    a.requestId.Some? && a.requestId == b.requestId && a.agentId == b.agentId
  }

  lemma Append(rows: seq<Transition>, r: Transition)
    requires Orderly(rows) && InOrder(rows, r)
    ensures Orderly(rows + [r])
    ensures forall id :: LastRow(rows + [r], id) == if r.jobId == id then Some(r) else LastRow(rows, id)
  {
    var next := rows + [r];
    assert next[..|rows|] == rows;
    hide InOrder;
    forall i | 0 <= i < |next|
      ensures InOrder(next[..i], next[i])
    {
      assert i < |rows| ==> next[..i] == rows[..i];
    }
  }

  lemma RequestsStay(jobs: Jobs, id: Id, job: Job)
    requires RequestsOk(jobs)
    requires forall other :: other in jobs && other != id ==> !SameRequest(jobs[other], job)
    ensures RequestsOk(jobs[id := job])
  {
  }

  lemma PassedStay(s: State, next: State)
    requires forall p :: p in s.passed ==> PassedOk(s, p)
    requires next.passed == s.passed && s.jobs.Keys <= next.jobs.Keys
    ensures forall p :: p in next.passed ==> PassedOk(next, p)
  {
    hide LegalEdge;
    forall p | p in next.passed
      ensures PassedOk(next, p)
    {
      assert PassedOk(s, p);
    }
  }

  /** A step that writes one job and one audit row. */
  lemma OneRow(s: State, id: Id, job: Job, r: Transition)
    requires Inv(s) && r.jobId == id && InOrder(s.rows, r)
    requires Shows(Some(r), job) && job.agentId in s.agents
    requires forall other :: other in s.jobs && other != id ==> !SameRequest(s.jobs[other], job)
    ensures Inv(s.With(id, job, r))
  {
    var next := s.With(id, job, r);
    RequestsStay(s.jobs, id, job);
    PassedStay(s, next);
    hide InOrder, Orderly, PassedOk, Shows, LastRow, RequestsOk, SameRequest;
    Append(s.rows, r);
    forall other | other in next.jobs
      ensures Shows(LastRow(next.rows, other), next.jobs[other])
    {
      assert other != id ==> Shows(LastRow(s.rows, other), s.jobs[other]);
    }
  }

  /** A step that writes one job, leaving its audited columns alone. */
  lemma OneJob(s: State, id: Id, job: Job)
    requires Inv(s) && id in s.jobs && Shows(LastRow(s.rows, id), job)
    requires job.agentId == s.jobs[id].agentId && job.requestId == s.jobs[id].requestId
    ensures Inv(s.(jobs := s.jobs[id := job]))
  {
    var next := s.(jobs := s.jobs[id := job]);
    RequestsStay(s.jobs, id, job);
    PassedStay(s, next);
    hide InOrder, Orderly, PassedOk, Shows, LastRow, RequestsOk, SameRequest;
    forall other | other in next.jobs
      ensures Shows(LastRow(next.rows, other), next.jobs[other])
    {
      assert Shows(LastRow(s.rows, other), s.jobs[other]);
    }
  }

  /** A step that touches neither jobs nor audit rows. */
  lemma NoJob(s: State, next: State)
    requires Inv(s)
    requires next.jobs == s.jobs && next.rows == s.rows && next.passed == s.passed && s.agents <= next.agents
    ensures Inv(next)
  {
    hide Orderly, Shows, LastRow, RequestsOk;
    PassedStay(s, next);
  }

  lemma CheckKeeps(s: State, id: Id, from: JobStatus, to: JobStatus)
    requires Inv(s) && s.Permits(id, from, to)
    ensures Inv(s.(passed := s.passed + {(id, from, to)}))
  {
    hide InOrder, Orderly, LastRow, FromDbStr;
    var next := s.(passed := s.passed + {(id, from, to)});
    forall other | other in next.jobs
      ensures Shows(LastRow(next.rows, other), next.jobs[other])
    {
      assert Shows(LastRow(s.rows, other), s.jobs[other]);
    }
    forall p | p in next.passed
      ensures PassedOk(next, p)
    {
      assert p in s.passed ==> PassedOk(s, p);
    }
  }

  lemma InsertKeeps(s: State, op: Op)
    requires Inv(s) && op.Insert?
    ensures Inv(Step(s, op))
  {
    hide InOrder, Orderly, LastRow;
    var d := op.draft;
    if op.id !in s.jobs && !s.Taken(d.agentId, d.requestId) && d.agentId in s.agents {
      var job := NewJob(d, op.now);
      var row := Audit(op.id, job, JobTransition, None, Queued, op.reason, op.now);
      FirstRow(s, op.id, row);
      NewIs(d, op.now);
      OneRow(s, op.id, job, row);
    }
  }

  lemma FirstRow(s: State, id: Id, r: Transition)
    requires LastRow(s.rows, id).None? && r.jobId == id && r.from.None? && r.to == Queued && r.kind == JobTransition
    ensures InOrder(s.rows, r)
  {
  }

  lemma NewIs(d: Draft, now: int)
    ensures NewJob(d, now).Is(Queued)
  {
    DbStrRoundTrip(AsDbStr(Queued), Queued);
  }

  lemma MovedIs(j: Job, to: JobStatus, now: int)
    ensures j.Moved(to, now).Is(to)
  {
    DbStrRoundTrip(AsDbStr(to), to);
  }

  lemma JobFacts(s: State, id: Id, job: Job)
    requires Inv(s) && id in s.jobs
    requires job.agentId == s.jobs[id].agentId && job.requestId == s.jobs[id].requestId
    ensures Shows(LastRow(s.rows, id), s.jobs[id]) && job.agentId in s.agents
    ensures forall other :: other in s.jobs && other != id ==> !SameRequest(s.jobs[other], job)
  {
    hide Orderly, Shows, LastRow, PassedOk;
  }

  lemma UpdateKeeps(s: State, op: Op)
    requires Inv(s) && op.Update?
    ensures Inv(Step(s, op))
  {
    hide Inv, LastRow, FromDbStr, AsDbStr, SameRequest;
    if (op.id, op.from, op.to) in s.passed && s.Has(op.id, op.from) {
      var job := s.jobs[op.id].Moved(op.to, op.now);
      var row := Audit(op.id, job, JobTransition, Some(op.from), op.to, op.reason, op.now);
      PassedIsLegal(s, op.id, op.from, op.to);
      JobFacts(s, op.id, job);
      MovedIs(s.jobs[op.id], op.to, op.now);
      OneRow(s, op.id, job, row);
    }
  }

  lemma CancelKeeps(s: State, op: Op)
    requires Inv(s) && op.RequestCancel?
    ensures Inv(Step(s, op))
  {
    hide Inv, LastRow, FromDbStr, AsDbStr, SameRequest;
    if s.Has(op.id, Dispatched) && !s.jobs[op.id].cancelRequested {
      var job := s.jobs[op.id].(cancelRequested := true);
      var row := Audit(op.id, job, JobUpdated, Some(Dispatched), Dispatched, "cancel_requested", op.now);
      JobFacts(s, op.id, job);
      OneRow(s, op.id, job, row);
    }
  }

  lemma StepKeeps(s: State, op: Op)
    requires Inv(s)
    ensures Inv(Step(s, op))
  {
    match op {
      case AddAgent(_) => NoJob(s, Step(s, op));
      case Insert(_, _, _, _) => InsertKeeps(s, op);
      case Publish(_) => NoJob(s, Step(s, op));
      case Check(id, from, to) =>
        if s.Permits(id, from, to) {
          CheckKeeps(s, id, from, to);
        }
      case Update(_, _, _, _, _) => UpdateKeeps(s, op);
      case SetError(id, error) =>
        if id in s.jobs {
          assert Shows(LastRow(s.rows, id), s.jobs[id]);
          OneJob(s, id, s.jobs[id].(errorReason := error));
        }
      case RequestCancel(_, _) => CancelKeeps(s, op);
      case SetSeqId(id, seqId) =>
        if s.Has(id, Dispatched) {
          assert Shows(LastRow(s.rows, id), s.jobs[id]);
          OneJob(s, id, s.jobs[id].(dispatchedAtSeqId := Some(seqId)));
        }
    }
  }

  lemma {:induction false} RunKeeps(s: State, ops: seq<Op>)
    requires Inv(s)
    ensures Inv(Execute(s, ops))
  {
    hide Step, Inv;
    if ops != [] {
      RunKeeps(s, ops[..|ops| - 1]);
      StepKeeps(Execute(s, ops[..|ops| - 1]), ops[|ops| - 1]);
    }
  }

  /** The invariant holds in every state that any interleaving of steps can reach. */
  lemma Reachable(ops: seq<Op>)
    ensures Inv(Execute(Init(), ops))
  {
    RunKeeps(Init(), ops);
  }

  // The chain of a job.

  function History(rows: seq<Transition>, id: Id): seq<Transition> {
    if rows == [] then [] else
      var before := History(rows[..|rows| - 1], id);
      if rows[|rows| - 1].jobId == id then before + [rows[|rows| - 1]] else before
  }

  /** How a row may follow the status that the job had. */
  predicate Follows(last: Option<JobStatus>, r: Transition) {
    && r.from == last
    && (last.None? ==> r.to == Queued && r.kind == JobTransition)
    && (last.Some? && r.kind == JobTransition ==> LegalEdge(last.value, r.to))
    && (r.kind == JobUpdated ==> last == Some(Dispatched) && r.to == Dispatched)
  }

  function Ends(h: seq<Transition>): Option<JobStatus> {
    if h == [] then None else Some(h[|h| - 1].to)
  }

  /** From QUEUED along edges of the table, each row starting where the one before it ended. */
  predicate Chain(h: seq<Transition>) {
    forall k :: 0 <= k < |h| ==> Follows(Ends(h[..k]), h[k])
  }

  lemma Extend(h: seq<Transition>, r: Transition)
    ensures Chain(h + [r]) <==> Chain(h) && Follows(Ends(h), r)
  {
    hide Follows;
    var next := h + [r];
    assert next[..|h|] == h && next[|h|] == r;
    assert forall k :: 0 <= k < |h| ==> next[..k] == h[..k] && next[k] == h[k];
  }

  lemma Prefix(rows: seq<Transition>)
    requires Orderly(rows) && rows != []
    ensures Orderly(rows[..|rows| - 1])
    ensures InOrder(rows[..|rows| - 1], rows[|rows| - 1])
  {
    hide InOrder;
    var before := rows[..|rows| - 1];
    forall i | 0 <= i < |before|
      ensures InOrder(before[..i], before[i])
    {
      assert before[..i] == rows[..i];
    }
  }

  lemma {:induction false} HistoryIsAChain(rows: seq<Transition>, id: Id)
    requires Orderly(rows)
    ensures Chain(History(rows, id))
    ensures LastStatus(rows, id) == Ends(History(rows, id))
  {
    hide Follows, Chain, Orderly;
    if rows != [] {
      var before, r := rows[..|rows| - 1], rows[|rows| - 1];
      Prefix(rows);
      HistoryIsAChain(before, id);
      if r.jobId == id {
        Extend(History(before, id), r);
      }
    } else {
      EmptyChain();
    }
  }

  lemma EmptyChain()
    ensures Chain([])
  {
  }

  /** Entries minus exits. */
  function Count(h: seq<Transition>, status: JobStatus): int {
    if h == [] then 0 else
      var r := h[|h| - 1];
      Count(h[..|h| - 1], status) + (if r.to == status then 1 else 0) - (if r.from == Some(status) then 1 else 0)
  }

  lemma {:induction false} Balance(h: seq<Transition>, status: JobStatus)
    requires Chain(h)
    ensures Count(h, status) == if Ends(h) == Some(status) then 1 else 0
  {
    hide Chain, LegalEdge;
    if h != [] {
      assert h == h[..|h| - 1] + [h[|h| - 1]];
      Extend(h[..|h| - 1], h[|h| - 1]);
      Balance(h[..|h| - 1], status);
    }
  }

  /** Every job's audit rows are a chain of table-legal edges from its first status to its current one, and
      for every status the entries exceed the exits by one if it is the current one and else by none. */
  lemma AuditIsAChain(ops: seq<Op>, id: Id, status: JobStatus)
    requires id in Execute(Init(), ops).jobs
    ensures var s := Execute(Init(), ops);
            var h := History(s.rows, id);
            && Chain(h)
            && h != [] && s.Has(id, h[|h| - 1].to)
            && Count(h, status) == if s.Has(id, status) then 1 else 0
  {
    Reachable(ops);
    var s := Execute(Init(), ops);
    hide Execute, Chain, Orderly, FromDbStr;
    HistoryIsAChain(s.rows, id);
    assert Shows(LastRow(s.rows, id), s.jobs[id]);
    Balance(History(s.rows, id), status);
  }

  /** The last audit row of a job shows the job as it is, and its times fit its status. */
  lemma AuditIsCurrent(ops: seq<Op>, id: Id)
    requires id in Execute(Init(), ops).jobs
    ensures var s := Execute(Init(), ops);
            var j, r := s.jobs[id], LastRow(s.rows, id);
            && r.Some?
            && j.Is(r.value.to)
            && (r.value.dispatchedAt, r.value.completedAt, r.value.cancelRequested) ==
               (j.dispatchedAt, j.completedAt, j.cancelRequested)
            && TimesFit(r.value.to, j.dispatchedAt, j.dispatchedAtSeqId, j.completedAt)
  {
    Reachable(ops);
    var s := Execute(Init(), ops);
    assert Shows(LastRow(s.rows, id), s.jobs[id]);
  }

  /** A status only changes along an edge of the table, even if the check that allowed it is long past. */
  lemma ChangesAreLegal(ops: seq<Op>, op: Op, id: Id)
    requires id in Execute(Init(), ops).jobs
    ensures var s := Execute(Init(), ops);
            var next := Step(s, op);
            && id in next.jobs
            && (next.jobs[id].status != s.jobs[id].status ==>
                  && op.Update? && op.id == id
                  && s.jobs[id].status == AsDbStr(op.from) && next.jobs[id].status == AsDbStr(op.to)
                  && (op.from, op.to) in {(Queued, Dispatched), (Queued, Cancelled), (Queued, Failed),
                                          (Dispatched, Completed), (Dispatched, Failed), (Dispatched, Cancelled),
                                          (Dispatched, Queued), (Failed, Completed), (Failed, Queued)})
  {
    Reachable(ops);
    var s := Execute(Init(), ops);
    hide Execute, Inv, Step, AsDbStr;
    JobColumns(s, op, id);
    if op.Update? {
      PassedIsLegal(s, op.id, op.from, op.to);
    }
  }

  // Every transition was checked.

  /** Step `k` of the run is a gate check that succeeds. */
  predicate CheckedAt(ops: seq<Op>, k: nat, id: Id, from: JobStatus, to: JobStatus) {
    k < |ops| && ops[k] == Check(id, from, to) && Execute(Init(), ops[..k]).Permits(id, from, to)
  }

  /** Step `u` of the run is the UPDATE that writes audit row `i`. */
  predicate WrittenAt(ops: seq<Op>, u: nat, i: nat, id: Id, from: JobStatus, to: JobStatus) {
    && u < |ops|
    && ops[u].Update? && ops[u].id == id && ops[u].from == from && ops[u].to == to
    && |Execute(Init(), ops[..u]).rows| == i
    && Execute(Init(), ops[..u]).Has(id, from)
  }

  lemma CheckedEarlier(ops: seq<Op>, k: nat, id: Id, from: JobStatus, to: JobStatus)
    requires ops != [] && CheckedAt(ops[..|ops| - 1], k, id, from, to)
    ensures CheckedAt(ops, k, id, from, to)
  {
    hide Execute;
    assert ops[..|ops| - 1][..k] == ops[..k];
  }

  lemma {:induction false} PassedWasChecked(ops: seq<Op>, id: Id, from: JobStatus, to: JobStatus) returns (k: nat)
    requires (id, from, to) in Execute(Init(), ops).passed
    ensures CheckedAt(ops, k, id, from, to)
  {
    var before, op := ops[..|ops| - 1], ops[|ops| - 1];
    hide CheckedAt;
    if (id, from, to) in Execute(Init(), before).passed {
      k := PassedWasChecked(before, id, from, to);
      CheckedEarlier(ops, k, id, from, to);
    } else {
      k := |ops| - 1;
      PassedByCheck(Execute(Init(), before), op, id, from, to);
      CheckedNow(ops, id, from, to);
    }
  }

  lemma PassedByCheck(s: State, op: Op, id: Id, from: JobStatus, to: JobStatus)
    requires (id, from, to) !in s.passed && (id, from, to) in Step(s, op).passed
    ensures op == Check(id, from, to) && s.Permits(id, from, to)
  {
  }

  lemma CheckedNow(ops: seq<Op>, id: Id, from: JobStatus, to: JobStatus)
    requires ops != [] && ops[|ops| - 1] == Check(id, from, to)
    requires Execute(Init(), ops[..|ops| - 1]).Permits(id, from, to)
    ensures CheckedAt(ops, |ops| - 1, id, from, to)
  {
  }

  lemma WrittenByUpdate(s: State, op: Op)
    ensures var next := Step(s, op);
            && s.rows <= next.rows && |next.rows| <= |s.rows| + 1
            && (|next.rows| > |s.rows| && IsTransition(next.rows[|s.rows|]) ==>
                  var r := next.rows[|s.rows|];
                  && op.Update? && op.id == r.jobId && op.from == r.from.value && op.to == r.to
                  && s.Has(r.jobId, r.from.value) && (r.jobId, r.from.value, r.to) in s.passed)
  {
    hide FromDbStr, AsDbStr, LateEvidence;
  }

  predicate IsTransition(r: Transition) {
    r.from.Some? && r.kind == JobTransition
  }

  /** Behind every transition row there is its UPDATE, made while the job had the old status, and before that
      a check of the same edge that succeeded. */
  lemma {:induction false} TransitionsWereChecked(ops: seq<Op>, i: nat) returns (k: nat, u: nat)
    requires i < |Execute(Init(), ops).rows| && IsTransition(Execute(Init(), ops).rows[i])
    ensures var r := Execute(Init(), ops).rows[i];
            && k < u
            && WrittenAt(ops, u, i, r.jobId, r.from.value, r.to)
            && CheckedAt(ops, k, r.jobId, r.from.value, r.to)
  {
    hide Step, CheckedAt, WrittenAt;
    var before, op := ops[..|ops| - 1], ops[|ops| - 1];
    var s := Execute(Init(), before);
    WrittenByUpdate(s, op);
    var r := Execute(Init(), ops).rows[i];
    if i < |s.rows| {
      assert s.rows[i] == r;
      k, u := TransitionsWereChecked(before, i);
      CheckedEarlier(ops, k, r.jobId, r.from.value, r.to);
      WrittenEarlier(ops, u, i, r.jobId, r.from.value, r.to);
    } else {
      k := PassedWasChecked(before, r.jobId, r.from.value, r.to);
      u := |ops| - 1;
      CheckedBounds(before, k, r.jobId, r.from.value, r.to);
      CheckedEarlier(ops, k, r.jobId, r.from.value, r.to);
      WrittenNow(ops, r.jobId, r.from.value, r.to);
    }
  }

  lemma CheckedBounds(ops: seq<Op>, k: nat, id: Id, from: JobStatus, to: JobStatus)
    requires CheckedAt(ops, k, id, from, to)
    ensures k < |ops|
  {
  }

  lemma WrittenEarlier(ops: seq<Op>, u: nat, i: nat, id: Id, from: JobStatus, to: JobStatus)
    requires ops != [] && WrittenAt(ops[..|ops| - 1], u, i, id, from, to)
    ensures WrittenAt(ops, u, i, id, from, to)
  {
    hide Execute;
    assert ops[..|ops| - 1][..u] == ops[..u];
  }

  lemma WrittenNow(ops: seq<Op>, id: Id, from: JobStatus, to: JobStatus)
    requires ops != [] && ops[|ops| - 1].Update?
    requires var op := ops[|ops| - 1]; op.id == id && op.from == from && op.to == to
    requires Execute(Init(), ops[..|ops| - 1]).Has(id, from)
    ensures WrittenAt(ops, |ops| - 1, |Execute(Init(), ops[..|ops| - 1]).rows|, id, from, to)
  {
    hide Execute;
  }

  /** The job is FAILED and its agent's latest state change reports health completion of it. */
  ghost predicate LateFor(s: State, id: Id) {
    && id in s.jobs
    && s.jobs[id].status == "FAILED"
    && exists n: nat :: EvidentAt(s.events, n, s.jobs[id].agentId, id)
  }

  /** From any state: the gate permits a transition exactly if the job exists with the expected status, the edge is in
      the table, and for FAILED to COMPLETED there is late evidence. */
  lemma GatePermitsExactly(s: State, id: Id, from: JobStatus, to: JobStatus)
    ensures s.Permits(id, from, to) <==>
              && id in s.jobs
              && s.jobs[id].status == AsDbStr(from)
              && (from, to) in {(Queued, Dispatched), (Queued, Cancelled), (Queued, Failed), (Dispatched, Completed),
                                (Dispatched, Failed), (Dispatched, Cancelled), (Dispatched, Queued),
                                (Failed, Completed), (Failed, Queued)}
              && ((from, to) == (Failed, Completed) ==> LateFor(s, id))
  {
    hide LateEvidence, EvidentAt, FromDbStr, AsDbStr;
    DbTexts();
    if id in s.jobs {
      DbStrRoundTrip(s.jobs[id].status, from);
      LateEvidenceMeans(s.events, s.jobs[id].agentId, id);
    }
  }

  /** Row `i` was written after a check at which there was late evidence. */
  ghost predicate Evidenced(ops: seq<Op>, i: nat, id: Id) {
    exists k: nat, u: nat ::
      && k < u
      && WrittenAt(ops, u, i, id, Failed, Completed)
      && CheckedAt(ops, k, id, Failed, Completed)
      && LateFor(Execute(Init(), ops[..k]), id)
  }

  /** COMPLETED is entered from DISPATCHED, or from FAILED after a check that found the job FAILED and its
      agent's latest state change, at that moment, to be a health completion of this very job. */
  lemma CompletionNeedsEvidence(ops: seq<Op>, i: nat)
    requires i < |Execute(Init(), ops).rows| && Execute(Init(), ops).rows[i].to == Completed
    ensures var r := Execute(Init(), ops).rows[i];
            r.from == Some(Dispatched) || (r.from == Some(Failed) && Evidenced(ops, i, r.jobId))
  {
    hide Execute, LastRow, FromDbStr, LateEvidence, Inv, WrittenAt, LateFor;
    Reachable(ops);
    var r := Execute(Init(), ops).rows[i];
    RowInOrder(Execute(Init(), ops), i);
    if r.from == Some(Failed) {
      var k, u := TransitionsWereChecked(ops, i);
      CheckedIsLate(ops, k, r.jobId);
      assert Evidenced(ops, i, r.jobId);
    }
  }

  lemma CheckedIsLate(ops: seq<Op>, k: nat, id: Id)
    requires CheckedAt(ops, k, id, Failed, Completed)
    ensures k <= |ops| && LateFor(Execute(Init(), ops[..k]), id)
  {
    hide Execute, LateFor;
    var s := Execute(Init(), ops[..k]);
    GatePermitsExactly(s, id, Failed, Completed);
  }

  lemma RowInOrder(s: State, i: nat)
    requires Inv(s) && i < |s.rows|
    ensures InOrder(s.rows[..i], s.rows[i])
  {
    hide InOrder;
  }

  // Who wrote what the rows and the jobs say.

  /** The job of a step that inserts it. */
  predicate Inserts(s: State, op: Op, id: Id) {
    && op.Insert? && op.id == id && id !in s.jobs && op.draft.agentId in s.agents
    && (op.draft.requestId.Some? ==>
          forall other :: other in s.jobs ==> !op.draft.Repeats(s.jobs[other]))
  }

  predicate Updates(s: State, op: Op, id: Id) {
    && op.Update? && op.id == id && id in s.jobs
    && s.jobs[id].status == AsDbStr(op.from) && (id, op.from, op.to) in s.passed
  }

  predicate Requests(s: State, op: Op, id: Id) {
    op.RequestCancel? && op.id == id && id in s.jobs && s.jobs[id].status == "DISPATCHED" && !s.jobs[id].cancelRequested
  }

  /** From any state: which jobs there are after a step, and what an inserted one holds. */
  lemma JobInserted(s: State, op: Op, id: Id)
    ensures var jobs := Step(s, op).jobs;
            && (id in jobs <==> id in s.jobs || Inserts(s, op, id))
            && (Inserts(s, op, id) ==>
                  var d := op.draft;
                  jobs[id] == Job(d.agentId, d.requestId, d.promptText, op.now, d.requiresPhysicalEvidence,
                                  d.requiresTestEvidence, "QUEUED", d.errorReason, None, None, None, d.cancelRequested))
  {
    hide FromDbStr, LegalEdge, LateEvidence;
  }

  /** What a step makes of each column of a job. */
  predicate ColumnsAfter(s: State, op: Op, id: Id, now: Job)
    requires id in s.jobs
  {
    var was, moved := s.jobs[id], Updates(s, op, id);
    && now == was.(status := now.status, errorReason := now.errorReason, dispatchedAt := now.dispatchedAt,
                   dispatchedAtSeqId := now.dispatchedAtSeqId, completedAt := now.completedAt,
                   cancelRequested := now.cancelRequested)
    && now.status == (if moved then AsDbStr(op.to) else was.status)
    && now.errorReason == (if op.SetError? && op.id == id then op.error else was.errorReason)
    && now.dispatchedAt ==
       (if moved && op.to == Dispatched then Some(op.now)
        else if moved && op.to == Queued then None else was.dispatchedAt)
    && now.dispatchedAtSeqId ==
       (if moved && op.to == Queued then None
        else if op.SetSeqId? && op.id == id && was.status == "DISPATCHED" then Some(op.seqId)
        else was.dispatchedAtSeqId)
    && now.completedAt ==
       (if moved && op.to in {Completed, Cancelled, Failed} then Some(op.now)
        else if moved && op.to == Queued then None else was.completedAt)
    && now.cancelRequested == (was.cancelRequested || Requests(s, op, id))
  }

  lemma UpdateColumns(s: State, op: Op, id: Id)
    requires id in s.jobs && op.Update?
    ensures id in Step(s, op).jobs && ColumnsAfter(s, op, id, Step(s, op).jobs[id])
  {
    DbStrRoundTrip(s.jobs[id].status, op.from);
    hide FromDbStr, AsDbStr, LegalEdge, LateEvidence;
    if Updates(s, op, id) {
      assert Step(s, op).jobs[id] == s.jobs[id].Moved(op.to, op.now);
    } else {
      assert Step(s, op).jobs[id] == s.jobs[id];
    }
    hide Step;
  }

  lemma OtherColumns(s: State, op: Op, id: Id)
    requires id in s.jobs && !op.Update?
    ensures id in Step(s, op).jobs && ColumnsAfter(s, op, id, Step(s, op).jobs[id])
  {
    if op.RequestCancel? || op.SetSeqId? {
      DispatchedColumns(s, op, id);
    } else if op.SetError? {
      hide AsDbStr;
    } else {
      KeepsColumns(s, op, id);
      hide AsDbStr, Step;
    }
  }

  lemma KeepsColumns(s: State, op: Op, id: Id)
    requires id in s.jobs && (op.AddAgent? || op.Insert? || op.Publish? || op.Check?)
    ensures id in Step(s, op).jobs && Step(s, op).jobs[id] == s.jobs[id]
  {
    hide FromDbStr, AsDbStr, LegalEdge, LateEvidence;
  }

  lemma DispatchedColumns(s: State, op: Op, id: Id)
    requires id in s.jobs && (op.RequestCancel? || op.SetSeqId?)
    ensures id in Step(s, op).jobs && ColumnsAfter(s, op, id, Step(s, op).jobs[id])
  {
    DbStrRoundTrip(s.jobs[id].status, Dispatched);
    DbTexts();
    hide FromDbStr, AsDbStr, LegalEdge, LateEvidence;
  }

  /** From any state: every column of a job is what the step that just ran wrote there, or what it was. */
  lemma JobColumns(s: State, op: Op, id: Id)
    requires id in s.jobs
    ensures id in Step(s, op).jobs && ColumnsAfter(s, op, id, Step(s, op).jobs[id])
  {
    hide Step, ColumnsAfter;
    if op.Update? {
      UpdateColumns(s, op, id);
    } else {
      OtherColumns(s, op, id);
    }
  }

  /** From any state: a step leaves no audit row or one, which says what the step did and when, and shows the job as
      it is after it. */
  lemma RowOfStep(s: State, op: Op)
    ensures var next := Step(s, op);
            && s.rows <= next.rows && |next.rows| <= |s.rows| + 1
            && (|next.rows| > |s.rows| <==>
                  (op.Insert? && Inserts(s, op, op.id)) || (op.Update? && Updates(s, op, op.id))
                  || (op.RequestCancel? && Requests(s, op, op.id)))
            && (|next.rows| > |s.rows| ==> op.id in next.jobs && RowSays(next.rows[|s.rows|], op, next.jobs[op.id]))
  {
    if (op.Update? || op.RequestCancel?) && op.id in s.jobs {
      DbStrRoundTrip(s.jobs[op.id].status, if op.Update? then op.from else Dispatched);
    }
    DbTexts();
    hide FromDbStr, AsDbStr, LegalEdge, LateEvidence;
  }

  predicate RowSays(r: Transition, op: Op, job: Job)
    requires op.Insert? || op.Update? || op.RequestCancel?
  {
    && r.jobId == op.id
    && r.createdAt == op.now
    && r.agentId == job.agentId
    && r.dispatchedAt == job.dispatchedAt
    && r.completedAt == job.completedAt
    && r.cancelRequested == job.cancelRequested
    && r.errorReason == job.errorReason
    && (op.Insert? ==> r.kind == JobTransition && r.from == None && r.to == Queued && r.reason == op.reason)
    && (op.Update? ==> r.kind == JobTransition && r.from == Some(op.from) && r.to == op.to && r.reason == op.reason)
    && (op.RequestCancel? ==> && r.kind == JobUpdated && r.from == Some(Dispatched) && r.to == Dispatched
                              && r.reason == "cancel_requested" && r.cancelRequested)
  }

  /** Step `u` of the run wrote audit row `i`. */
  ghost predicate RowBy(ops: seq<Op>, u: nat, i: nat) {
    && u < |ops|
    && i < |Execute(Init(), ops).rows|
    && |Execute(Init(), ops[..u]).rows| == i
    && |Execute(Init(), ops[..u + 1]).rows| == i + 1
    && (ops[u].Insert? || ops[u].Update? || ops[u].RequestCancel?)
    && ops[u].id in Execute(Init(), ops[..u + 1]).jobs
    && RowSays(Execute(Init(), ops).rows[i], ops[u], Execute(Init(), ops[..u + 1]).jobs[ops[u].id])
  }

  /** Every audit row was written by one step of the run, carries that step's time and reason, and shows the job as that
      step left it. */
  lemma {:induction false} RowsSayWhoWroteThem(ops: seq<Op>, i: nat) returns (u: nat)
    requires i < |Execute(Init(), ops).rows|
    ensures RowBy(ops, u, i)
  {
    hide Step, RowSays;
    var before, last := ops[..|ops| - 1], |ops| - 1;
    var s := Execute(Init(), before);
    RowOfStep(s, ops[last]);
    assert ops[..|ops|] == ops;
    if i < |s.rows| {
      u := RowsSayWhoWroteThem(before, i);
      assert before[..u] == ops[..u] && before[..u + 1] == ops[..u + 1];
      assert s.rows[i] == Execute(Init(), ops).rows[i];
    } else {
      u := last;
    }
  }

  /** Two jobs never answer the same request of the same agent. */
  lemma RequestsAreUnique(ops: seq<Op>, a: Id, b: Id)
    requires a in Execute(Init(), ops).jobs && b in Execute(Init(), ops).jobs
    requires SameRequest(Execute(Init(), ops).jobs[a], Execute(Init(), ops).jobs[b])
    ensures a == b
  {
    Reachable(ops);
  }

  // Terminal jobs.

  lemma HistoryAppends(rows: seq<Transition>, r: Transition, id: Id)
    ensures History(rows + [r], id) == History(rows, id) + if r.jobId == id then [r] else []
  {
    assert (rows + [r])[..|rows|] == rows;
  }

  predicate SameButError(a: Job, b: Job) {
    a == b.(errorReason := a.errorReason)
  }

  lemma PassedIsLegal(s: State, id: Id, from: JobStatus, to: JobStatus)
    requires Inv(s)
    ensures (id, from, to) in s.passed ==> LegalEdge(from, to)
  {
    hide Orderly, LastRow, Shows;
    assert (id, from, to) in s.passed ==> PassedOk(s, (id, from, to));
  }

  lemma StepLeavesTerminal(s: State, op: Op, id: Id, status: JobStatus)
    requires Inv(s) && s.Has(id, status) && status in {Completed, Cancelled}
    ensures var next := Step(s, op);
            && next.Has(id, status)
            && SameButError(next.jobs[id], s.jobs[id])
            && History(next.rows, id) == History(s.rows, id)
  {
    if op.Update? {
      PassedIsLegal(s, op.id, op.from, op.to);
    }
    JobLeft(s, op, id, status);
    hide Step, Inv, History;
    var next := Step(s, op);
    if next.rows != s.rows {
      HistoryAppends(s.rows, next.rows[|s.rows|], id);
    }
  }

  lemma JobLeft(s: State, op: Op, id: Id, status: JobStatus)
    requires s.Has(id, status) && status in {Completed, Cancelled}
    requires op.Update? && (op.id, op.from, op.to) in s.passed ==> LegalEdge(op.from, op.to)
    ensures var next := Step(s, op);
            && id in next.jobs
            && SameButError(next.jobs[id], s.jobs[id])
            && (next.rows == s.rows
                || (|next.rows| == |s.rows| + 1
                    && next.rows == s.rows + [next.rows[|s.rows|]] && next.rows[|s.rows|].jobId != id))
  {
    hide FromDbStr, AsDbStr, LateEvidence;
  }

  /** COMPLETED and CANCELLED are absorbing: the job gets no further audit row, and of its columns only
      `error_reason` can still change. */
  lemma {:induction false} TerminalForever(ops: seq<Op>, more: seq<Op>, id: Id, status: JobStatus)
    requires status in {Completed, Cancelled} && Execute(Init(), ops).Has(id, status)
    ensures var ended := Execute(Init(), ops);
            var now := Execute(ended, more);
            && now.Has(id, status)
            && SameButError(now.jobs[id], ended.jobs[id])
            && History(now.rows, id) == History(ended.rows, id)
  {
    hide Step, Inv, History;
    if more != [] {
      TerminalForever(ops, more[..|more| - 1], id, status);
      Reachable(ops);
      RunKeeps(Execute(Init(), ops), more[..|more| - 1]);
      StepLeavesTerminal(Execute(Execute(Init(), ops), more[..|more| - 1]), more[|more| - 1], id, status);
    }
  }

  // The takeover of pending cancellations.

  predicate TakesOver(s: State, id: Id, now: int, timeout: int) {
    && s.Has(id, Dispatched)
    && s.jobs[id].cancelRequested
    && LastCancelAt(s.rows, id).Some?
    && now - LastCancelAt(s.rows, id).value >= timeout
  }

  predicate Marked(r: Transition, id: Id) {
    r.jobId == id && r.reason == "cancel_requested"
  }

  /** A cancel request of the job was recorded. */
  predicate Requested(rows: seq<Transition>, id: Id) {
    exists i :: 0 <= i < |rows| && Marked(rows[i], id) && rows[i].kind == JobUpdated
  }

  /** A gate call or the insertion of the job used the text of a cancel request as its reason. */
  predicate Borrowed(rows: seq<Transition>, id: Id) {
    exists i :: 0 <= i < |rows| && Marked(rows[i], id) && rows[i].kind == JobTransition
  }

  predicate CancelOk(s: State, id: Id, j: Job) {
    && (j.cancelRequested <==> BornCancelled(s.rows, id) || Requested(s.rows, id))
    && !(BornCancelled(s.rows, id) && Requested(s.rows, id))
  }

  predicate CancelsOk(s: State) {
    forall id :: id in s.jobs ==> CancelOk(s, id, s.jobs[id])
  }

  lemma {:induction false} NoRowNoCancel(rows: seq<Transition>, id: Id)
    requires LastRow(rows, id).None?
    ensures !Requested(rows, id) && !BornCancelled(rows, id)
  {
    if rows != [] {
      NoRowNoCancel(rows[..|rows| - 1], id);
      RequestedAppends(rows[..|rows| - 1], rows[|rows| - 1], id);
      assert rows == rows[..|rows| - 1] + [rows[|rows| - 1]];
    }
  }

  lemma NoJobNoCancel(s: State, id: Id)
    requires Inv(s) && id !in s.jobs
    ensures !Requested(s.rows, id) && !BornCancelled(s.rows, id)
  {
    NoRowNoCancel(s.rows, id);
  }

  lemma RequestedAppends(rows: seq<Transition>, r: Transition, id: Id)
    ensures Requested(rows + [r], id) <==> Requested(rows, id) || (Marked(r, id) && r.kind == JobUpdated)
    ensures Borrowed(rows + [r], id) <==> Borrowed(rows, id) || (Marked(r, id) && r.kind == JobTransition)
  {
    hide Marked;
    var next := rows + [r];
    assert next[|rows|] == r && forall i :: 0 <= i < |rows| ==> next[i] == rows[i];
    if Requested(rows, id) {
      var i :| 0 <= i < |rows| && Marked(rows[i], id) && rows[i].kind == JobUpdated;
      assert Marked(next[i], id);
    }
    if Borrowed(rows, id) {
      var i :| 0 <= i < |rows| && Marked(rows[i], id) && rows[i].kind == JobTransition;
      assert Marked(next[i], id);
    }
  }

  lemma BornAppends(rows: seq<Transition>, r: Transition, id: Id)
    ensures BornCancelled(rows + [r], id) ==
            if r.jobId == id && r.from.None? then r.cancelRequested else BornCancelled(rows, id)
  {
    assert (rows + [r])[..|rows|] == rows;
  }

  /** The takeover finds a time exactly if a request is recorded or its text was borrowed. */
  lemma {:induction false} LastCancelFound(rows: seq<Transition>, id: Id)
    ensures LastCancelAt(rows, id).Some? <==> Requested(rows, id) || Borrowed(rows, id)
  {
    if rows != [] {
      LastCancelFound(rows[..|rows| - 1], id);
      RequestedAppends(rows[..|rows| - 1], rows[|rows| - 1], id);
      assert rows == rows[..|rows| - 1] + [rows[|rows| - 1]];
    }
  }

  lemma StepKeepsCancels(s: State, op: Op)
    requires Inv(s) && CancelsOk(s)
    ensures CancelsOk(Step(s, op))
  {
    CancelShape(s, op);
    hide Step, Inv, Requested, BornCancelled;
    var next := Step(s, op);
    forall id | id in next.jobs
      ensures CancelOk(next, id, next.jobs[id])
    {
      if id in s.jobs {
        assert CancelOk(s, id, s.jobs[id]);
      } else {
        NoJobNoCancel(s, id);
      }
      if |next.rows| > |s.rows| {
        RequestedAppends(s.rows, next.rows[|s.rows|], id);
        BornAppends(s.rows, next.rows[|s.rows|], id);
      }
    }
  }

  /** What a step does to the cancel flags: one that sets a flag leaves the row that says so. */
  lemma CancelShape(s: State, op: Op)
    ensures var next := Step(s, op);
            if |next.rows| == |s.rows| then
              && next.rows == s.rows
              && next.jobs.Keys == s.jobs.Keys
              && (forall id :: id in s.jobs ==> next.jobs[id].cancelRequested == s.jobs[id].cancelRequested)
            else
              && |next.rows| == |s.rows| + 1
              && var r := next.rows[|s.rows|];
              && next.rows == s.rows + [r]
              && next.jobs.Keys == s.jobs.Keys + {r.jobId}
              && (forall id :: id in s.jobs && id != r.jobId ==> next.jobs[id] == s.jobs[id])
              && next.jobs[r.jobId].cancelRequested == r.cancelRequested
              && (r.jobId in s.jobs <==> r.from.Some?)
              && (r.kind == JobUpdated ==> Marked(r, r.jobId) && r.jobId in s.jobs
                                           && !s.jobs[r.jobId].cancelRequested && r.cancelRequested)
              && (r.kind == JobTransition && r.jobId in s.jobs ==> r.cancelRequested == s.jobs[r.jobId].cancelRequested)
  {
    hide FromDbStr, AsDbStr, LegalEdge, LateEvidence;
  }

  lemma {:induction false} RunKeepsCancels(ops: seq<Op>)
    ensures CancelsOk(Execute(Init(), ops))
  {
    hide Step, Inv;
    if ops != [] {
      var before, op := ops[..|ops| - 1], ops[|ops| - 1];
      RunKeepsCancels(before);
      Reachable(before);
      StepKeepsCancels(Execute(Init(), before), op);
    }
  }

  /** A pending cancellation of a DISPATCHED job is taken over from its timeout on, counted from the newest row
      marked as a cancel request. There is such a row, and so a time that is late enough, exactly if the job
      was inserted without the flag or some gate call borrowed the mark. Nothing else is ever taken over. */
  lemma TakeoverIsBounded(ops: seq<Op>, id: Id)
    ensures var s := Execute(Init(), ops);
            if id !in s.jobs || s.jobs[id].status != "DISPATCHED" || !s.jobs[id].cancelRequested
               || (BornCancelled(s.rows, id) && !Borrowed(s.rows, id))
            then forall now, timeout :: !TakesOver(s, id, now, timeout)
            else LastCancelAt(s.rows, id).Some? &&
                 forall now, timeout ::
                   TakesOver(s, id, now, timeout) <==> now - LastCancelAt(s.rows, id).value >= timeout
  {
    RunKeepsCancels(ops);
    var s := Execute(Init(), ops);
    hide Execute;
    if id in s.jobs {
      DbStrRoundTrip(s.jobs[id].status, Dispatched);
      DbTexts();
      hide FromDbStr, AsDbStr;
      if s.Has(id, Dispatched) && s.jobs[id].cancelRequested {
        assert CancelOk(s, id, s.jobs[id]);
        LastCancelFound(s.rows, id);
      }
    }
  }

  lemma {:induction false} NewestMark(rows: seq<Transition>, id: Id) returns (i: nat)
    requires LastCancelAt(rows, id).Some?
    ensures i < |rows| && Marked(rows[i], id) && LastCancelAt(rows, id) == Some(rows[i].createdAt)
    ensures forall j :: i < j < |rows| ==> !Marked(rows[j], id)
  {
    if Marked(rows[|rows| - 1], id) {
      i := |rows| - 1;
    } else {
      i := NewestMark(rows[..|rows| - 1], id);
    }
  }

  /** A pending cancellation that was requested while the job was DISPATCHED, and whose mark nobody borrowed, is taken
      over exactly from the timeout after that request on. */
  lemma TakeoverCountsFromRequest(ops: seq<Op>, id: Id) returns (u: nat)
    requires var s := Execute(Init(), ops);
             && s.Has(id, Dispatched) && s.jobs[id].cancelRequested
             && !BornCancelled(s.rows, id) && !Borrowed(s.rows, id)
    ensures u < |ops| && ops[u].RequestCancel? && Requests(Execute(Init(), ops[..u]), ops[u], id)
    ensures forall now, timeout ::
              TakesOver(Execute(Init(), ops), id, now, timeout) <==> now - ops[u].now >= timeout
  {
    TakeoverIsBounded(ops, id);
    var s := Execute(Init(), ops);
    hide Execute, Borrowed, BornCancelled;
    var i := NewestMark(s.rows, id);
    NotBorrowed(s.rows, id, i);
    u := RowsSayWhoWroteThem(ops, i);
    var before := Execute(Init(), ops[..u]);
    RowOfStep(before, ops[u]);
    WroteARow(ops, u, i);
  }

  lemma NotBorrowed(rows: seq<Transition>, id: Id, i: nat)
    requires i < |rows| && Marked(rows[i], id) && !Borrowed(rows, id)
    ensures rows[i].kind == JobUpdated
  {
  }

  lemma WroteARow(ops: seq<Op>, u: nat, i: nat)
    requires RowBy(ops, u, i)
    ensures |Step(Execute(Init(), ops[..u]), ops[u]).rows| > i
  {
    assert ops[..u + 1][..u] == ops[..u];
    assert Execute(Init(), ops[..u + 1]) == Step(Execute(Init(), ops[..u]), ops[u]);
  }

  lemma {:induction false} NoRowNoMark(rows: seq<Transition>, id: Id)
    requires LastRow(rows, id).None?
    ensures LastCancelAt(rows, id).None?
  {
    if rows != [] {
      NoRowNoMark(rows[..|rows| - 1], id);
    }
  }

  lemma UnmarkedRow(rows: seq<Transition>, r: Transition, id: Id)
    requires !Marked(r, id)
    ensures LastCancelAt(rows + [r], id) == LastCancelAt(rows, id)
  {
    assert (rows + [r])[..|rows|] == rows;
  }

  lemma OtherReasons()
    ensures RECOVERED != "cancel_requested" && DISPATCHED != "cancel_requested"
  {
    assert RECOVERED[0] == 'r' && DISPATCHED[0] == 'd' && "cancel_requested"[0] == 'c';
  }

  const RECOVERED := "recovery_recovered_create"
  const DISPATCHED := "dispatch_job_to_agent"

  /** A job is recovered, checked and dispatched. */
  function Redispatched(s: State, id: Id, draft: Draft, now: int): State {
    GateCall(Step(s, Insert(id, draft, RECOVERED, now)), id, Queued, Dispatched, DISPATCHED, now)
  }

  lemma RedispatchIs(s: State, id: Id, draft: Draft, now: int)
    requires id !in s.jobs && !s.Taken(draft.agentId, draft.requestId) && draft.agentId in s.agents
    ensures var end := Redispatched(s, id, draft, now);
            var job := NewJob(draft, now);
            var sent := job.Moved(Dispatched, now);
            && id in end.jobs && end.jobs[id] == sent
            && end.rows == s.rows + [Audit(id, job, JobTransition, None, Queued, RECOVERED, now)]
                                  + [Audit(id, sent, JobTransition, Some(Queued), Dispatched, DISPATCHED, now)]
  {
    var mid := Step(s, Insert(id, draft, RECOVERED, now));
    NewIs(draft, now);
    hide FromDbStr, AsDbStr, LateEvidence, GateCall;
    assert mid.jobs[id] == NewJob(draft, now);
    assert mid.Permits(id, Queued, Dispatched);
    GateCallIs(mid, id, Queued, Dispatched, DISPATCHED, now);
  }

  /** Whatever has happened before, a job that is recovered with the flag set and dispatched to its agent is
      DISPATCHED with a pending cancellation that no time is late enough to take over. */
  lemma RecoveredCancelHangs(ops: seq<Op>, id: Id, draft: Draft, now: int)
    requires var s := Execute(Init(), ops);
             id !in s.jobs && !s.Taken(draft.agentId, draft.requestId) && draft.agentId in s.agents
    requires draft.cancelRequested
    ensures var end := Redispatched(Execute(Init(), ops), id, draft, now);
            && end.Has(id, Dispatched)
            && end.jobs[id].cancelRequested
            && forall later, timeout :: !TakesOver(end, id, later, timeout)
  {
    var s := Execute(Init(), ops);
    Reachable(ops);
    NoJobNoMark(s, id);
    hide Execute, Inv, Redispatched, FromDbStr, AsDbStr, LastCancelAt;
    RedispatchIs(s, id, draft, now);
    OtherReasons();
    var job := NewJob(draft, now);
    MovedIs(job, Dispatched, now);
    var first := Audit(id, job, JobTransition, None, Queued, RECOVERED, now);
    var second := Audit(id, job.Moved(Dispatched, now), JobTransition, Some(Queued), Dispatched, DISPATCHED, now);
    UnmarkedRow(s.rows, first, id);
    UnmarkedRow(s.rows + [first], second, id);
  }

  lemma NoJobNoMark(s: State, id: Id)
    requires Inv(s) && id !in s.jobs
    ensures LastCancelAt(s.rows, id).None?
  {
    NoRowNoMark(s.rows, id);
  }

  // The store.

  datatype GateError = NotFound | UnrecognizedStatus | CasMismatch | NoLateEvidence | IllegalEdge | ConstraintViolation

  /** A gate call whose check and UPDATE are not separated. */
  function GateCall(s: State, id: Id, from: JobStatus, to: JobStatus, reason: string, now: int): State {
    Step(Step(s, Check(id, from, to)), Update(id, from, to, reason, now))
  }

  lemma GateCallKeeps(s: State, id: Id, from: JobStatus, to: JobStatus, reason: string, now: int)
    requires Inv(s)
    ensures Inv(GateCall(s, id, from, to, reason, now))
  {
    hide Step, Inv;
    StepKeeps(s, Check(id, from, to));
    StepKeeps(Step(s, Check(id, from, to)), Update(id, from, to, reason, now));
  }

  lemma GateCallIs(s: State, id: Id, from: JobStatus, to: JobStatus, reason: string, now: int)
    requires s.Permits(id, from, to)
    ensures var job := s.jobs[id].Moved(to, now);
            GateCall(s, id, from, to, reason, now) ==
            s.With(id, job, Audit(id, job, JobTransition, Some(from), to, reason, now))
             .(passed := s.passed + {(id, from, to)})
  {
    hide FromDbStr, AsDbStr, LateEvidence, LegalEdge;
  }

  lemma InsertIs(s: State, id: Id, draft: Draft, reason: string, now: int)
    ensures var next := Step(s, Insert(id, draft, reason, now));
            var job := NewJob(draft, now);
            next == if id in s.jobs || s.Taken(draft.agentId, draft.requestId) || draft.agentId !in s.agents then s
                    else s.With(id, job, Audit(id, job, JobTransition, None, Queued, reason, now))
  {
  }

  class JobStore {
    var agents: set<Id>
    var jobs: Jobs
    var rows: seq<Transition>
    var events: seq<AgentEvent>
    ghost var passed: set<(Id, JobStatus, JobStatus)>

    ghost function Now(): State
      reads this
    {
      State(agents, jobs, rows, events, passed)
    }

    ghost predicate Valid()
      reads this
    {
      Inv(Now())
    }

    constructor ()
      ensures Valid() && Now() == Init()
    {
      agents, jobs, rows, events, passed := {}, map[], [], [], {};
      new;
      Reachable([]);
    }

    /** A submission that repeats a request of the same agent gets the job of the first one; one for an agent
        that does not exist is refused. */
    method InsertJob(id: Id, agentId: Id, requestId: Option<string>, prompt: string, now: int)
      returns (r: Result<Id, GateError>)
      requires Valid()
      modifies this
      ensures Valid()
      ensures var draft := Draft(agentId, requestId, prompt, None, false, false, false);
              Now() == Step(old(Now()), Insert(id, draft, "submit", now))
      ensures r.Ok? <==> old(Now()).Taken(agentId, requestId) || (id !in old(jobs) && agentId in agents)
      ensures r.Ok? ==> r.value in jobs && jobs[r.value].agentId == agentId && jobs[r.value].requestId == requestId
      ensures r.Ok? && !old(Now()).Taken(agentId, requestId) ==> r.value == id
    {
      r := InsertQueued(id, Draft(agentId, requestId, prompt, None, false, false, false), "submit", now);
    }

    method InsertRecoveredQueuedJob(id: Id, agentId: Id, requestId: Option<string>, prompt: string, cancel: bool,
                                    physical: bool, test: bool, error: string, now: int)
      returns (r: Result<Id, GateError>)
      requires Valid()
      modifies this
      ensures Valid()
      ensures var draft := Draft(agentId, requestId, prompt, Some(error), cancel, physical, test);
              Now() == Step(old(Now()), Insert(id, draft, "recovery_recovered_create", now))
      ensures r.Ok? <==> old(Now()).Taken(agentId, requestId) || (id !in old(jobs) && agentId in agents)
      ensures r.Ok? ==> r.value in jobs && jobs[r.value].agentId == agentId && jobs[r.value].requestId == requestId
      ensures r.Ok? && !old(Now()).Taken(agentId, requestId) ==> r.value == id
    {
      var draft := Draft(agentId, requestId, prompt, Some(error), cancel, physical, test);
      r := InsertQueued(id, draft, RECOVERED, now);
    }

    method InsertQueued(id: Id, draft: Draft, reason: string, now: int) returns (r: Result<Id, GateError>)
      requires Valid()
      modifies this
      ensures Valid() && Now() == Step(old(Now()), Insert(id, draft, reason, now))
      ensures var taken := old(Now()).Taken(draft.agentId, draft.requestId);
              r.Ok? <==> taken || (id !in old(jobs) && draft.agentId in agents)
      ensures r.Ok? ==> r.value in jobs && draft.Repeats(jobs[r.value])
      ensures r.Ok? && !old(Now()).Taken(draft.agentId, draft.requestId) ==> r.value == id
    {
      hide Inv, Step;
      StepKeeps(Now(), Insert(id, draft, reason, now));
      InsertIs(Now(), id, draft, reason, now);
      var same := set other | other in jobs && draft.Repeats(jobs[other]);
      if draft.requestId.Some? && same != {} {
        var existing :| existing in same;
        return Ok(existing);
      }
      assert forall other :: other in jobs && draft.Repeats(jobs[other]) ==> other in same;
      if id in jobs || draft.agentId !in agents {
        return Err(ConstraintViolation);
      }
      jobs := jobs[id := NewJob(draft, now)];
      rows := rows + [Audit(id, jobs[id], JobTransition, None, Queued, reason, now)];
      return Ok(id);
    }

    /** The gate: the status is written exactly if it is the expected one and the edge is permitted, and a
        rejected call writes nothing. */
    method TransitJobState(id: Id, from: JobStatus, to: JobStatus, reason: string, now: int)
      returns (r: Result<(), GateError>)
      requires Valid()
      modifies this
      ensures Valid()
      ensures r.Ok? <==> old(Now()).Permits(id, from, to)
      ensures Now() == if r.Ok? then GateCall(old(Now()), id, from, to, reason, now) else old(Now())
      ensures r == Err(NotFound) <==> id !in jobs
      ensures r == Err(UnrecognizedStatus) <==> id in jobs && FromDbStr(old(jobs)[id].status).None?
      ensures r == Err(CasMismatch) <==> id in jobs && FromDbStr(old(jobs)[id].status) !in {None, Some(from)}
      ensures r == Err(IllegalEdge) <==> old(Now()).Has(id, from) && !LegalEdge(from, to)
      ensures r.Err? ==> r.error != ConstraintViolation
    {
      hide Inv, FromDbStr, AsDbStr, LateEvidence, Step;
      GateCallKeeps(Now(), id, from, to, reason, now);
      if id !in jobs {
        return Err(NotFound);
      }
      var job := jobs[id];
      var actual := FromDbStr(job.status);
      if actual.None? {
        return Err(UnrecognizedStatus);
      }
      if actual.value != from {
        return Err(CasMismatch);
      }
      if from == Failed && to == Completed && !LateEvidence(events, job.agentId, id) {
        return Err(NoLateEvidence);
      }
      if !LegalEdge(from, to) {
        return Err(IllegalEdge);
      }
      GateCallIs(Now(), id, from, to, reason, now);
      match to {
        case Dispatched => job := job.(status := AsDbStr(to), dispatchedAt := Some(now));
        case Queued =>
          job := job.(status := AsDbStr(to), dispatchedAt := None, dispatchedAtSeqId := None, completedAt := None);
        case _ => job := job.(status := AsDbStr(to), completedAt := Some(now));
      }
      jobs := jobs[id := job];
      rows := rows + [Audit(id, job, JobTransition, Some(from), to, reason, now)];
      passed := passed + {(id, from, to)};
      return Ok(());
    }

    /** The takeover: true exactly if the job is DISPATCHED with a cancellation that has been pending for
        the timeout since the latest row that records its request, and then the job is CANCELLED. */
    method ForceCancelPendingDispatchedJob(id: Id, now: int, timeout: int) returns (r: Result<bool, GateError>)
      requires Valid()
      modifies this
      ensures Valid()
      ensures r == if id in old(jobs) then Ok(TakesOver(old(Now()), id, now, timeout)) else Err(NotFound)
      ensures Now() == if r == Ok(true)
                       then GateCall(old(Now()), id, Dispatched, Cancelled, "cancel_timeout_takeover", now)
                       else old(Now())
      ensures r == Ok(true) ==>
                && old(jobs)[id].status == "DISPATCHED" && old(jobs)[id].cancelRequested
                && id in jobs && jobs[id].status == "CANCELLED" && jobs[id].completedAt == Some(now)
    {
      hide Inv, LastCancelAt, GateCall;
      if id !in jobs {
        return Err(NotFound);
      }
      DbStrRoundTrip(jobs[id].status, Dispatched);
      hide FromDbStr, AsDbStr;
      if jobs[id].status != AsDbStr(Dispatched) || !jobs[id].cancelRequested {
        return Ok(false);
      }
      var requestedAt := QueryCancelRequestedAt(id);
      if requestedAt.None? || now - requestedAt.value < timeout {
        return Ok(false);
      }
      GateCallIs(Now(), id, Dispatched, Cancelled, "cancel_timeout_takeover", now);
      DbTexts();
      var moved := TransitJobState(id, Dispatched, Cancelled, "cancel_timeout_takeover", now);
      return match moved case Ok(_) => Ok(true) case Err(e) => Err(e);
    }

    /** `ORDER BY job_event_id DESC LIMIT 1`: the newest matching row. */
    method QueryCancelRequestedAt(id: Id) returns (r: Option<int>)
      ensures r == LastCancelAt(rows, id)
    {
      var i := |rows|;
      assert rows[..i] == rows;
      while i > 0
        invariant 0 <= i <= |rows|
        invariant LastCancelAt(rows, id) == LastCancelAt(rows[..i], id)
      {
        assert rows[..i][..i - 1] == rows[..i - 1];
        i := i - 1;
        if rows[i].jobId == id && rows[i].reason == "cancel_requested" {
          return Some(rows[i].createdAt);
        }
      }
      return None;
    }

    /** A requeue writes `error_reason` before the gate decides. A rejected one leaves statuses and audit
        as they were, and `error_reason` too unless the job has the expected status and no edge to QUEUED. */
    method RequeueJobState(id: Id, from: JobStatus, error: Option<string>, reason: string, now: int)
      returns (r: Result<(), GateError>)
      requires Valid()
      modifies this
      ensures Valid()
      ensures r.Ok? <==> old(Now()).Has(id, from) && from in {Dispatched, Failed}
      ensures r.Ok? ==> Now() == GateCall(Step(old(Now()), SetError(id, error)), id, from, Queued, reason, now)
      ensures r.Err? ==> Now() == if old(Now()).Has(id, from) then Step(old(Now()), SetError(id, error)) else old(Now())
      ensures r.Err? ==> (Now() == old(Now()) <==>
                            !old(Now()).Has(id, from) || old(jobs)[id].errorReason == error)
    {
      hide Inv, FromDbStr, AsDbStr, GateCall, LateEvidence;
      if id !in jobs {
        return Err(NotFound);
      }
      var actual := FromDbStr(jobs[id].status);
      if actual.None? {
        return Err(UnrecognizedStatus);
      }
      if actual.value != from {
        return Err(CasMismatch);
      }
      StepKeeps(Now(), SetError(id, error));
      jobs := jobs[id := jobs[id].(errorReason := error)];
      r := TransitJobState(id, from, Queued, reason, now);
      if old(jobs)[id].errorReason == error {
        assert old(jobs)[id := old(jobs)[id].(errorReason := error)] == old(jobs);
      }
    }

    method RequestDispatchedJobCancel(id: Id, now: int) returns (changes: nat)
      requires Valid()
      modifies this
      ensures Valid() && Now() == Step(old(Now()), RequestCancel(id, now))
      ensures changes == |rows| - |old(rows)|
      ensures changes == if Requests(old(Now()), RequestCancel(id, now), id) then 1 else 0
      ensures changes == 1 ==>
                && jobs == old(jobs)[id := old(jobs)[id].(cancelRequested := true)]
                && rows[|old(rows)|].jobId == id && rows[|old(rows)|].createdAt == now
                && rows[|old(rows)|].reason == "cancel_requested"
    {
      hide Inv;
      StepKeeps(Now(), RequestCancel(id, now));
      if id !in jobs {
        return 0;
      }
      DbStrRoundTrip(jobs[id].status, Dispatched);
      hide FromDbStr, AsDbStr;
      if jobs[id].status != AsDbStr(Dispatched) || jobs[id].cancelRequested {
        return 0;
      }
      jobs := jobs[id := jobs[id].(cancelRequested := true)];
      rows := rows + [Audit(id, jobs[id], JobUpdated, Some(Dispatched), Dispatched, "cancel_requested", now)];
      return 1;
    }
  }
}

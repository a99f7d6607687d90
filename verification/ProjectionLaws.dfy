/** What a log of events projects to, told from the kinds and payloads of its events. */
module ProjectionLaws {
  import opened Common
  import opened EventCore

  // ---- the last event that says something ----

  /** What the last event with an answer says; `start` without one. */
  function Latest<T>(log: seq<Event>, says: Event -> Option<T>, start: T): T {
    if log == [] then start
    else if says(log[|log| - 1]).Some? then says(log[|log| - 1]).value
    else Latest(log[..|log| - 1], says, start)
  }

  lemma {:induction false} LatestIs<T>(log: seq<Event>, says: Event -> Option<T>, start: T, v: T)
    ensures Latest(log, says, start) == v <==>
      || (exists k :: 0 <= k < |log| && says(log[k]) == Some(v) && forall m :: k < m < |log| ==> says(log[m]) == None)
      || (v == start && forall m :: 0 <= m < |log| ==> says(log[m]) == None)
  {
    if log != [] {
      var n := |log| - 1;
      LatestIs(log[..n], says, start, v);
      assert forall i :: 0 <= i < n ==> log[..n][i] == log[i];
      if says(log[n]).None? {
        hide Latest;
        if k :| 0 <= k < |log| && says(log[k]) == Some(v) && forall m :: k < m < |log| ==> says(log[m]) == None {
          assert says(log[..n][k]) == Some(v);
        }
        if k :| 0 <= k < n && says(log[..n][k]) == Some(v) && forall m :: k < m < n ==> says(log[..n][m]) == None {
          assert says(log[k]) == Some(v);
        }
      }
    }
  }

  // ---- what the kinds mean ----

  /** The status an event of this kind moves the task to. */
  function StatusSet(e: Event): Option<Status> {
    match e.kind
    case "task.started" => Some(Running)
    case "resume" => Some(Running)
    case "plan.created" => Some(Running)
    case "plan_created" => Some(Running)
    case "workstream_started" => Some(Running)
    case "task.cancel_requested" => Some(Cancelling)
    case "hierarchy_completed" => Some(Completed)
    case "task.completed" => Some(Completed)
    case "hierarchy_failed" => Some(Failed)
    case "task.failed" => Some(Failed)
    case "project_lease_lost" => Some(Failed)
    case "task.cancelled" => Some(Cancelled)
    case _ => None
  }

  /** The phase it moves the task to. */
  function PhaseSet(e: Event): Option<Phase> {
    if "model_request_" <= e.kind then Some(AtModel)
    else if "job." <= e.kind then Some(AtExecution)
    else
      match e.kind
      case "task.started" => Some(AtRunning)
      case "resume" => Some(AtRunning)
      case "plan.created" => Some(AtPlanning)
      case "plan_created" => Some(AtPlanning)
      case "workstream_started" => Some(AtManaging)
      case "task.cancel_requested" => Some(AtCancelling)
      case "hierarchy_completed" => Some(AtFinish)
      case "task.completed" => Some(AtFinish)
      case "hierarchy_failed" => Some(AtFinish)
      case "task.failed" => Some(AtFinish)
      case "project_lease_lost" => Some(AtFinish)
      case "task.cancelled" => Some(AtFinish)
      case _ => None
  }

  /** Whether a cancellation is asked for from then on. */
  function CancelSet(e: Event): Option<bool> {
    match e.kind
    case "task.started" => Some(false)
    case "resume" => Some(false)
    case "task.cancel_requested" => Some(true)
    case "task.cancelled" => Some(true)
    case _ => None
  }

  /** The text of a payload entry that is there and not empty. */
  function TextAt(payload: Record, key: string, default: string): string {
    if key in payload && Truthy(payload[key]) then Str(payload[key]) else default
  }

  /** The error it leaves. */
  function ErrorSet(e: Event): Option<Option<string>> {
    match e.kind
    case "workstream_failed" => Some(Some(TextAt(e.payload, "summary", "workstream failed")))
    case "model_request_failed" => Some(Some(TextAt(e.payload, "error", "model request failed")))
    case "hierarchy_failed" => Some(Some(TextAt(e.payload, "error", TextAt(e.payload, "summary", e.kind))))
    case "task.failed" => Some(Some(TextAt(e.payload, "error", TextAt(e.payload, "summary", e.kind))))
    case "project_lease_lost" => Some(Some(TextAt(e.payload, "error", TextAt(e.payload, "summary", e.kind))))
    case _ => None
  }

  /** The workstream it is about, by its own field or by its payload; "" for none. */
  function StreamId(e: Event): string {
    if e.workstreamId.Some? && e.workstreamId.value != "" then e.workstreamId.value
    else TextAt(e.payload, "workstream_id", "")
  }

  function CallId(e: Event): string {
    if e.callId.Some? && e.callId.value != "" then e.callId.value
    else TextAt(e.payload, "logical_request_id", TextAt(e.payload, "call_id", ""))
  }

  function At(payload: Record, key: string): Json {
    if key in payload then payload[key] else Null
  }

  /** What an event says of the call or the job it is about. */
  function CallFields(e: Event): Record
    requires "model_request_" <= e.kind
  {
    map["state" := Text(e.kind[14..]), "attempt_id" := At(e.payload, "attempt_id"),
        "agent_instance_id" := if e.agentId.Some? then Text(e.agentId.value) else Null,
        "sequence" := Number(e.sequence)]
  }

  function JobFields(e: Event): Record
    requires "job." <= e.kind
  {
    map["state" := Text(e.kind[4..]), "attempt" := At(e.payload, "attempt"),
        "fencing_token" := At(e.payload, "fencing_token"), "sequence" := Number(e.sequence)]
  }

  /** The whole record of a call, as an event about it leaves it. */
  function CallSet(e: Event, id: string): Option<Option<Record>> {
    if "model_request_" <= e.kind && CallId(e) == id != "" then Some(Some(CallFields(e) + map["call_id" := Text(id)]))
    else None
  }

  function JobSet(e: Event, id: string): Option<Option<Record>> {
    if "job." <= e.kind && TextAt(e.payload, "job_id", "") == id != "" then
      Some(Some(JobFields(e) + map["job_id" := Text(id)]))
    else None
  }

  /** What an event about a workstream says of one of its entries. */
  function StreamSet(e: Event, id: string, key: string): Option<Json> {
    if StreamId(e) != id || id == "" then None
    else
      match e.kind
      case "workstream_started" =>
        if key == "status" then Some(Text("running")) else if key == "sequence" then Some(Number(e.sequence)) else None
      case "workstream_completed" => EndSet(e, key, "completed")
      case "workstream_failed" => EndSet(e, key, "failed")
      case _ => None
  }

  function EndSet(e: Event, key: string, status: string): Option<Json> {
    if key == "status" then Some(Text(status))
    else if key == "summary" then Some(At(e.payload, "summary"))
    else if key == "sequence" then Some(Number(e.sequence))
    else None
  }

  // ---- one event ----

  function OrElse<T>(said: Option<T>, was: T): T {
    if said.Some? then said.value else was
  }

  function Looked(m: map<string, Record>, id: string): Option<Record> {
    if id in m then Some(m[id]) else None
  }

  function Entry(m: map<string, Record>, id: string, key: string): Option<Json> {
    if id in m && key in m[id] then Some(m[id][key]) else None
  }

  predicate Late(kind: string) {
    kind in {"task.cancel_requested", "hierarchy_completed", "task.completed", "hierarchy_failed", "task.failed",
             "project_lease_lost", "task.cancelled"}
  }

  predicate Early(kind: string) {
    kind in {"task.started", "resume", "plan.created", "plan_created", "workstream_started", "workstream_completed",
             "workstream_failed"}
  }

  /** The branches that test a prefix take none of the literal kinds. */
  lemma KindsApart(kind: string)
    ensures Late(kind) || Early(kind) ==> !("model_request_" <= kind) && !("job." <= kind)
    ensures !("model_request_" <= kind && "job." <= kind)
    ensures Late(kind) ==> !Early(kind)
  {
    if "model_request_" <= kind || "job." <= kind {
      assert kind[0] == 'm' || kind[0] == 'j';
    }
  }

  lemma FirstTexts(own: Option<string>, payload: Record, a: string, b: string, default: string)
    ensures FirstOf(None, payload, [a], default) == TextAt(payload, a, default)
    ensures FirstOf(None, payload, [a, b], default) == TextAt(payload, a, TextAt(payload, b, default))
    ensures FirstOf(own, payload, [a], default) ==
      if own.Some? && own.value != "" then own.value else TextAt(payload, a, default)
    ensures FirstOf(own, payload, [a, b], default) ==
      if own.Some? && own.value != "" then own.value else TextAt(payload, a, TextAt(payload, b, default))
  {
    assert [a, b][1..] == [b] && [a][1..] == [] && [b][1..] == [];
    hide Str, Truthy;
  }

  /** The branch of an event, with the prefix tests decided. */
  lemma Branch(p: Projection, e: Event)
    ensures Late(e.kind) ==> Transition(p, e) == TaskEvent(p, e)
    ensures "model_request_" <= e.kind ==> Transition(p, e) == ModelRequest(p, e)
    ensures "job." <= e.kind ==> Transition(p, e) == JobEvent(p, e)
    ensures !Late(e.kind) && !Early(e.kind) && !("model_request_" <= e.kind) && !("job." <= e.kind) ==>
      Transition(p, e) == p || e.kind == "job.cancel_requested" || e.kind == "job.cancelled"
  {
    KindsApart(e.kind);
    hide WorkstreamStarted, WorkstreamEnded, ModelRequest, JobEvent;
  }

  /** Status, phase, cancellation flag and error, as one event changes them. */
  predicate Moves(p: Projection, e: Event, q: Projection) {
    && q.status == OrElse(StatusSet(e), p.status) && q.phase == OrElse(PhaseSet(e), p.phase)
    && q.cancellationRequested == OrElse(CancelSet(e), p.cancellationRequested)
    && q.lastError == OrElse(ErrorSet(e), p.lastError)
  }

  lemma PrefixMoves(p: Projection, e: Event)
    requires "model_request_" <= e.kind || "job." <= e.kind
    ensures Moves(p, e, Transition(p, e))
  {
    Branch(p, e);
    KindsApart(e.kind);
    FirstTexts(None, e.payload, "error", "", "model request failed");
    hide Transition, FirstOf, RecordAt, TextAt;
  }

  lemma StartMoves(p: Projection, e: Event)
    requires e.kind in {"task.started", "resume", "plan.created", "plan_created", "workstream_started"}
    ensures Moves(p, e, Transition(p, e))
  {
    KindsApart(e.kind);
    hide FirstOf, RecordAt, TextAt, TaskEvent, ModelRequest, JobEvent, WorkstreamEnded, At;
  }

  lemma EndMoves(p: Projection, e: Event)
    requires e.kind in {"workstream_completed", "workstream_failed"}
    ensures Moves(p, e, Transition(p, e))
  {
    KindsApart(e.kind);
    EndedBranch(p, e);
    FirstTexts(None, e.payload, "summary", "", "workstream failed");
    Ending(e.kind);
    hide FirstOf, RecordAt, TextAt, Transition, EndsWith;
  }

  lemma EndedBranch(p: Projection, e: Event)
    requires e.kind in {"workstream_completed", "workstream_failed"}
    ensures Transition(p, e) == WorkstreamEnded(p, e)
  {
    hide TaskEvent, ModelRequest, JobEvent, WorkstreamEnded, WorkstreamStarted;
  }

  lemma Ending(kind: string)
    requires kind in {"workstream_completed", "workstream_failed"}
    ensures EndsWith(kind, "completed") <==> kind == "workstream_completed"
  {
    if kind == "workstream_failed" {
      assert kind[|kind| - 9..][0] != "completed"[0];
    } else {
      assert kind[11..] == "completed";
    }
  }

  lemma EarlyMoves(p: Projection, e: Event)
    requires Early(e.kind)
    ensures Moves(p, e, Transition(p, e))
  {
    hide Transition, Moves;
    if e.kind in {"workstream_completed", "workstream_failed"} {
      EndMoves(p, e);
    } else {
      StartMoves(p, e);
    }
  }

  lemma LateMoves(p: Projection, e: Event)
    requires Late(e.kind)
    ensures Moves(p, e, Transition(p, e))
  {
    Branch(p, e);
    hide Transition, Moves;
    if e.kind in {"hierarchy_failed", "task.failed", "project_lease_lost"} {
      FailMoves(p, e);
    } else if e.kind in {"hierarchy_completed", "task.completed"} {
      CompleteMoves(p, e);
    } else if e.kind == "task.cancelled" {
      CancelledMoves(p, e);
    } else {
      CancelMoves(p, e);
    }
  }

  lemma FailMoves(p: Projection, e: Event)
    requires e.kind in {"hierarchy_failed", "task.failed", "project_lease_lost"}
    ensures Moves(p, e, TaskEvent(p, e))
  {
    KindsApart(e.kind);
    FirstTexts(None, e.payload, "error", "summary", e.kind);
    hide FirstOf, TextAt;
  }

  lemma CompleteMoves(p: Projection, e: Event)
    requires e.kind in {"hierarchy_completed", "task.completed"}
    ensures Moves(p, e, TaskEvent(p, e))
  {
    KindsApart(e.kind);
    hide FirstOf, TextAt;
  }

  lemma CancelMoves(p: Projection, e: Event)
    requires e.kind == "task.cancel_requested"
    ensures Moves(p, e, TaskEvent(p, e))
  {
    KindsApart(e.kind);
    hide FirstOf, TextAt;
  }

  lemma CancelledMoves(p: Projection, e: Event)
    requires e.kind == "task.cancelled"
    ensures Moves(p, e, TaskEvent(p, e))
  {
    KindsApart(e.kind);
    hide FirstOf, TextAt;
  }

  lemma OtherMoves(p: Projection, e: Event)
    requires !Late(e.kind) && !Early(e.kind) && !("model_request_" <= e.kind) && !("job." <= e.kind)
    ensures Moves(p, e, Transition(p, e))
  {
    Branch(p, e);
    assert e.kind != "job.cancel_requested" && e.kind != "job.cancelled";
    OthersSayNothing(e);
    hide Transition, StatusSet, PhaseSet, CancelSet, ErrorSet;
  }

  lemma OthersSayNothing(e: Event)
    requires !Late(e.kind) && !Early(e.kind) && !("model_request_" <= e.kind) && !("job." <= e.kind)
    ensures StatusSet(e) == None && PhaseSet(e) == None && CancelSet(e) == None && ErrorSet(e) == None
  {
    hide TextAt;
  }

  lemma TaskMoves(p: Projection, e: Event)
    ensures Moves(p, e, Transition(p, e))
  {
    hide *;
    if "model_request_" <= e.kind || "job." <= e.kind {
      PrefixMoves(p, e);
    } else if Early(e.kind) {
      EarlyMoves(p, e);
    } else if Late(e.kind) {
      LateMoves(p, e);
    } else {
      OtherMoves(p, e);
    }
  }

  // ---- records of calls, jobs and workstreams ----

  /** The record of each id names it, and has no entries but those an event sets. */
  predicate Kept(records: map<string, Record>, own: string, keys: set<string>) {
    forall id :: id in records ==>
      own in records[id] && records[id].Keys == keys + {own} && records[id][own] == Text(id)
  }

  const CALL_KEYS := {"state", "attempt_id", "agent_instance_id", "sequence"}
  const JOB_KEYS := {"state", "attempt", "fencing_token", "sequence"}

  lemma Overwritten(records: map<string, Record>, own: string, keys: set<string>, id: string, fields: Record)
    requires Kept(records, own, keys) && fields.Keys == keys && own !in keys
    ensures RecordAt(records, id, map[own := Text(id)]) + fields == fields + map[own := Text(id)]
    ensures Kept(records[id := fields + map[own := Text(id)]], own, keys)
  {
  }

  /** Only the branch of their prefix touches the records of calls and of jobs. */
  lemma RecordsStay(p: Projection, e: Event)
    ensures !("model_request_" <= e.kind) ==> Transition(p, e).calls == p.calls
    ensures !("job." <= e.kind) ==> Transition(p, e).jobs == p.jobs
  {
    WorkstreamFacts(p, e);
    CallFacts(p, e);
    TaskFacts(p, e);
    KindsApart(e.kind);
    hide WorkstreamStarted, WorkstreamEnded, ModelRequest, JobEvent, TaskEvent;
  }

  lemma CallKeys(e: Event)
    requires "model_request_" <= e.kind
    ensures CallFields(e).Keys == CALL_KEYS && "call_id" !in CALL_KEYS
  {
  }

  lemma JobKeys(e: Event)
    requires "job." <= e.kind
    ensures JobFields(e).Keys == JOB_KEYS && "job_id" !in JOB_KEYS
  {
  }

  lemma CallRecorded(p: Projection, e: Event)
    requires "model_request_" <= e.kind
    ensures var id := CallId(e);
            ModelRequest(p, e).calls ==
              if id == "" then p.calls
              else p.calls[id := RecordAt(p.calls, id, map["call_id" := Text(id)]) + CallFields(e)]
  {
    FirstTexts(e.callId, e.payload, "logical_request_id", "call_id", "");
    hide FirstOf, TextAt, RecordAt;
  }

  lemma JobRecorded(p: Projection, e: Event)
    requires "job." <= e.kind
    ensures var id := TextAt(e.payload, "job_id", "");
            JobEvent(p, e).jobs ==
              if id == "" then p.jobs
              else p.jobs[id := RecordAt(p.jobs, id, map["job_id" := Text(id)]) + JobFields(e)]
  {
    FirstTexts(None, e.payload, "job_id", "", "");
    hide FirstOf, TextAt, RecordAt;
  }

  lemma CallMoves(p: Projection, e: Event, id: string)
    requires Kept(p.calls, "call_id", CALL_KEYS)
    ensures Looked(Transition(p, e).calls, id) == OrElse(CallSet(e, id), Looked(p.calls, id))
    ensures Kept(Transition(p, e).calls, "call_id", CALL_KEYS)
  {
    RecordsStay(p, e);
    if "model_request_" <= e.kind {
      Branch(p, e);
      CallRecorded(p, e);
      CallKeys(e);
      Overwritten(p.calls, "call_id", CALL_KEYS, CallId(e), CallFields(e));
      hide Transition, ModelRequest, CallFields, CallId, RecordAt, Kept, CALL_KEYS;
    }
  }

  lemma JobMoves(p: Projection, e: Event, id: string)
    requires Kept(p.jobs, "job_id", JOB_KEYS)
    ensures Looked(Transition(p, e).jobs, id) == OrElse(JobSet(e, id), Looked(p.jobs, id))
    ensures Kept(Transition(p, e).jobs, "job_id", JOB_KEYS)
  {
    RecordsStay(p, e);
    if "job." <= e.kind {
      Branch(p, e);
      JobRecorded(p, e);
      JobKeys(e);
      Overwritten(p.jobs, "job_id", JOB_KEYS, TextAt(e.payload, "job_id", ""), JobFields(e));
      hide Transition, JobEvent, JobFields, TextAt, RecordAt, Kept, JOB_KEYS;
    }
  }

  function OrStays<T>(said: Option<T>, was: Option<T>): Option<T> {
    if said.Some? then said else was
  }

  lemma StreamMoves(p: Projection, e: Event, id: string, key: string)
    ensures Entry(Transition(p, e).workstreams, id, key)
      == OrStays(StreamSet(e, id, key), Entry(p.workstreams, id, key))
  {
    KindsApart(e.kind);
    if e.kind == "workstream_started" {
      FirstTexts(e.workstreamId, e.payload, "workstream_id", "", "");
      hide FirstOf, TextAt, WorkstreamEnded, ModelRequest, JobEvent, TaskEvent;
    } else if e.kind in {"workstream_completed", "workstream_failed"} {
      EndedBranch(p, e);
      EndedMoves(p, e, id, key);
      hide Transition;
    } else {
      StreamsStay(p, e);
      hide Transition;
    }
  }

  lemma EndedMoves(p: Projection, e: Event, id: string, key: string)
    requires e.kind in {"workstream_completed", "workstream_failed"}
    ensures Entry(WorkstreamEnded(p, e).workstreams, id, key)
      == OrStays(StreamSet(e, id, key), Entry(p.workstreams, id, key))
  {
    EndRecorded(p, e);
    hide WorkstreamEnded, StreamId, RecordAt;
    var fields := EndFields(e);
    RecordAtIs(p.workstreams, StreamId(e), key);
    EndFieldsAre(e, key);
    hide EndFields, StreamSet;
  }

  function EndFields(e: Event): Record {
    map["status" := Text(if e.kind == "workstream_completed" then "completed" else "failed"),
        "summary" := At(e.payload, "summary"), "sequence" := Number(e.sequence)]
  }

  lemma EndFieldsAre(e: Event, key: string)
    requires e.kind in {"workstream_completed", "workstream_failed"}
    ensures StreamId(e) != "" ==>
      StreamSet(e, StreamId(e), key) == if key in EndFields(e) then Some(EndFields(e)[key]) else None
    ensures forall id :: id != StreamId(e) || id == "" ==> StreamSet(e, id, key) == None
  {
    hide StreamId;
  }

  lemma RecordAtIs(records: map<string, Record>, id: string, key: string)
    ensures key in RecordAt(records, id, map[]) <==> Entry(records, id, key).Some?
    ensures Entry(records, id, key).Some? ==> RecordAt(records, id, map[])[key] == Entry(records, id, key).value
  {
  }

  lemma EndRecorded(p: Projection, e: Event)
    requires e.kind in {"workstream_completed", "workstream_failed"}
    ensures var id := StreamId(e);
            WorkstreamEnded(p, e).workstreams ==
              if id == "" then p.workstreams
              else p.workstreams[id := RecordAt(p.workstreams, id, map[]) + EndFields(e)]
  {
    FirstTexts(e.workstreamId, e.payload, "workstream_id", "", "");
    Ending(e.kind);
    hide FirstOf, TextAt, EndsWith, RecordAt;
  }

  lemma StreamsStay(p: Projection, e: Event)
    requires e.kind !in {"workstream_started", "workstream_completed", "workstream_failed"}
    ensures Transition(p, e).workstreams == p.workstreams
  {
    CallFacts(p, e);
    TaskFacts(p, e);
    hide WorkstreamStarted, WorkstreamEnded, ModelRequest, JobEvent, TaskEvent;
  }

  // ---- whole logs ----

  function CallOf(id: string): Event -> Option<Option<Record>> {
    (e: Event) => CallSet(e, id)
  }

  function JobOf(id: string): Event -> Option<Option<Record>> {
    (e: Event) => JobSet(e, id)
  }

  function StreamOf(id: string, key: string): Event -> Option<Option<Json>> {
    (e: Event) => if StreamSet(e, id, key).Some? then Some(StreamSet(e, id, key)) else None
  }

  /** Status, phase, cancellation flag and error are what the last event that sets them says. */
  predicate TellsTask(p: Projection, log: seq<Event>) {
    && p.status == Latest(log, StatusSet, Pending)
    && p.phase == Latest(log, PhaseSet, AtStart)
    && p.cancellationRequested == Latest(log, CancelSet, false)
    && p.lastError == Latest(log, ErrorSet, None)
    && p.eventCount == p.sequence == |log|
    && (log != [] ==> p.lastEventType == Some(log[|log| - 1].kind) && p.lastEventAt == Some(log[|log| - 1].timestamp))
  }

  /** Each call and job has the record its last event leaves, each entry of a workstream what the last
      event that sets it says; and nothing else is recorded. */
  ghost predicate TellsRecords(p: Projection, log: seq<Event>) {
    && (forall id :: Looked(p.calls, id) == Latest(log, CallOf(id), None))
    && (forall id :: Looked(p.jobs, id) == Latest(log, JobOf(id), None))
    && (forall id, key :: Entry(p.workstreams, id, key) == Latest(log, StreamOf(id, key), None))
  }

  ghost predicate KeepsRecords(p: Projection) {
    Kept(p.calls, "call_id", CALL_KEYS) && Kept(p.jobs, "job_id", JOB_KEYS)
  }

  lemma LatestAppends<T>(log: seq<Event>, e: Event, says: Event -> Option<T>, start: T)
    ensures Latest(log + [e], says, start) == OrElse(says(e), Latest(log, says, start))
  {
    assert (log + [e])[..|log|] == log;
  }

  lemma StepTellsTask(p: Projection, log: seq<Event>, e: Event)
    requires TellsTask(p, log) && Apply(p, e).Success?
    ensures TellsTask(Apply(p, e).projection, log + [e])
  {
    TaskMoves(p, e);
    LatestAppends(log, e, StatusSet, Pending);
    LatestAppends(log, e, PhaseSet, AtStart);
    LatestAppends(log, e, CancelSet, false);
    LatestAppends(log, e, ErrorSet, None);
    hide Transition, StatusSet, PhaseSet, CancelSet, ErrorSet, Latest;
  }

  lemma StepTellsRecords(p: Projection, log: seq<Event>, e: Event)
    requires TellsRecords(p, log) && KeepsRecords(p) && Apply(p, e).Success?
    ensures TellsRecords(Apply(p, e).projection, log + [e]) && KeepsRecords(Apply(p, e).projection)
  {
    hide Transition, Latest, CallSet, JobSet, StreamSet, Kept, CALL_KEYS, JOB_KEYS, Entry, Looked;
    CallMoves(p, e, "");
    JobMoves(p, e, "");
    forall id
      ensures Looked(Apply(p, e).projection.calls, id) == Latest(log + [e], CallOf(id), None)
      ensures Looked(Apply(p, e).projection.jobs, id) == Latest(log + [e], JobOf(id), None)
    {
      CallMoves(p, e, id);
      JobMoves(p, e, id);
      LatestAppends(log, e, CallOf(id), None);
      LatestAppends(log, e, JobOf(id), None);
    }
    forall id, key
      ensures Entry(Apply(p, e).projection.workstreams, id, key) == Latest(log + [e], StreamOf(id, key), None)
    {
      StreamMoves(p, e, id, key);
      LatestAppends(log, e, StreamOf(id, key), None);
    }
  }

  lemma FreshTells(task: string, session: string)
    ensures TellsTask(Fresh(task, session), []) && TellsRecords(Fresh(task, session), [])
    ensures KeepsRecords(Fresh(task, session))
  {
  }

  lemma {:induction false} FoldTells(log: seq<Event>, task: string, session: string)
    requires IsLog(log, task, session)
    ensures var r := Fold(Fresh(task, session), log);
            r.Success? && TellsTask(r.projection, log) && TellsRecords(r.projection, log) && KeepsRecords(r.projection)
  {
    hide *;
    if log == [] {
      EmptyFold(task, session);
      FreshTells(task, session);
    } else {
      var front, e := log[..|log| - 1], log[|log| - 1];
      assert log == front + [e];
      LogPrefix(front, e, task, session);
      FoldTells(front, task, session);
      FoldOfLog(log, task, session);
      FoldAppends(Fresh(task, session), front, e);
      var p := Fold(Fresh(task, session), front).projection;
      StepTellsTask(p, front, e);
      StepTellsRecords(p, front, e);
    }
  }

  lemma EmptyFold(task: string, session: string)
    ensures Fold(Fresh(task, session), []) == Success(Fresh(task, session))
  {
  }

  /** The projection of any events of a task and a session that can be projected is that of their log
      in order, and tells of it what the last events say. */
  lemma ProjectionTells(events: seq<Event>, task: string, session: string) returns (log: seq<Event>)
    requires !Blank(task) && !Blank(session) && ProjectEvents(events, Some(task), Some(session)).Success?
    ensures IsLog(log, task, session) && multiset(log) == multiset(events)
    ensures var p := ProjectEvents(events, Some(task), Some(session)).projection;
            TellsTask(p, log) && TellsRecords(p, log)
  {
    if events == [] {
      log := [];
      EmptyReplay(task, session);
      hide ProjectEvents, Blank;
      EmptyFold(task, session);
      FreshTells(task, session);
    } else {
      ProjectionExact(events, Some(task), Some(session));
      assert Blank("");
      hide ProjectEvents, Blank, Fold, TellsTask, TellsRecords, KeepsRecords;
      var l, t, u :| IsLog(l, t, u) && multiset(l) == multiset(events) && Fits(Some(task), t) && Fits(Some(session), u);
      log := l;
      FoldTells(log, task, session);
    }
  }

  /** So a task stands at a status exactly when the last event that moves the status says so. */
  lemma StatusExactly(p: Projection, log: seq<Event>, status: Status)
    requires TellsTask(p, log)
    ensures p.status == status <==>
      || (exists k :: 0 <= k < |log| && StatusSet(log[k]) == Some(status)
                      && forall m :: k < m < |log| ==> StatusSet(log[m]) == None)
      || (status == Pending && forall m :: 0 <= m < |log| ==> StatusSet(log[m]) == None)
  {
    LatestIs(log, StatusSet, Pending, status);
    hide Latest, StatusSet;
  }

  /** In particular, a completed task is one whose last word on its status is that it completed. */
  lemma CompletedExactly(p: Projection, log: seq<Event>)
    requires TellsTask(p, log)
    ensures p.status == Completed <==>
      exists k :: 0 <= k < |log| && log[k].kind in {"hierarchy_completed", "task.completed"}
                  && forall m :: k < m < |log| ==> StatusSet(log[m]) == None
  {
    StatusExactly(p, log, Completed);
    forall k | 0 <= k < |log|
      ensures StatusSet(log[k]) == Some(Completed) <==> log[k].kind in {"hierarchy_completed", "task.completed"}
    {
    }
    hide Latest, StatusSet;
  }

  /** A retained log that projects tells the same, in its own order. */
  lemma LogTells(log: seq<Event>, task: string, session: string, p: Projection)
    requires log != [] && Ascends(log) && ProjectEvents(log, Some(task), Some(session)) == Success(p)
    ensures TellsTask(p, log) && TellsRecords(p, log)
  {
    ProjectionExact(log, Some(task), Some(session));
    AscendsSorted(log);
    hide ProjectEvents, Fold, TellsTask, TellsRecords, KeepsRecords, SortedBefore, Ascends;
    var l, t, u :| IsLog(l, t, u) && multiset(l) == multiset(log) && Fits(Some(task), t) && Fits(Some(session), u);
    SortedLog(log, l, t, u);
    FoldTells(log, t, u);
  }

  /** An append that returns has stored the checkpoint that tells of the whole log. */
  method AppendTells(core: TaskEventCore, event: Event) returns (r: AppendResult)
    requires core.Valid() && !Blank(event.taskId) && !Blank(event.sessionId)
    modifies core
    ensures r.Appended? ==>
      && r.event.taskId in core.checkpoints && r.event in core.LogOf(r.event.taskId)
      && TellsTask(core.checkpoints[r.event.taskId].projection, core.LogOf(r.event.taskId))
      && TellsRecords(core.checkpoints[r.event.taskId].projection, core.LogOf(r.event.taskId))
  {
    hide ProjectEvents, TellsTask, TellsRecords, Blank, Numbered, ValidLog, TaskEventCore.Valid;
    ghost var stored;
    r, stored := core.Append(event);
    if r.Appended? {
      ghost var task := r.event.taskId;
      core.LogIsValid(task);
      LogTells(core.LogOf(task), task, core.checkpoints[task].projection.sessionId, core.checkpoints[task].projection);
    }
  }
}

/** Task projections: a deterministic fold over the durable event log, rebuilt
    page by page and checkpointed after every append. */
module EventCore {
  import opened Common

  datatype Json = Null | Flag(b: bool) | Number(n: int) | Text(s: string)

  type Record = map<string, Json>

  datatype Event = Event(
    taskId: string, sessionId: string, kind: string, payload: Record, sequence: nat, id: string, timestamp: string,
    workstreamId: Option<string>, agentId: Option<string>, callId: Option<string>)

  datatype Status = Pending | Running | Cancelling | Cancelled | Completed | Failed

  datatype Phase = AtStart | AtRunning | AtPlanning | AtManaging | AtModel | AtExecution | AtCancelling | AtFinish

  datatype Projection = Projection(
    taskId: string, sessionId: string, sequence: nat, status: Status, phase: Phase, cancellationRequested: bool,
    eventCount: nat, workstreams: map<string, Record>, calls: map<string, Record>, jobs: map<string, Record>,
    lastError: Option<string>, lastEventType: Option<string>, lastEventAt: Option<string>)

  datatype Error = WrongTask | WrongSession | WrongSequence | NotFromOne | MissingIds | BadPageSize

  datatype Result = Success(projection: Projection) | Failure(error: Error)

  // ---- Python values ----

  function Decimal(n: int): string
    decreases if n < 0 then 1 - n else n
  {
    if n < 0 then "-" + Decimal(-n)
    else (if n < 10 then "" else Decimal(n / 10)) + ["0123456789"[n % 10]]
  }

  predicate Truthy(j: Json) {
    match j
    case Null => false
    case Flag(b) => b
    case Number(n) => n != 0
    case Text(s) => s != ""
  }

  function Str(j: Json): string {
    match j
    case Null => "None"
    case Flag(b) => if b then "True" else "False"
    case Number(n) => Decimal(n)
    case Text(s) => s
  }

  function Get(r: Record, key: string): Json {
    if key in r then r[key] else Null
  }

  /** `str(own or payload.get(k1) or payload.get(k2) ... or default)`. */
  function FirstOf(own: Option<string>, payload: Record, keys: seq<string>, default: string): string
    decreases |keys|
  {
    if own.Some? && own.value != "" then own.value
    else if keys == [] then default
    else if Truthy(Get(payload, keys[0])) then Str(payload[keys[0]])
    else FirstOf(None, payload, keys[1..], default)
  }

  predicate StartsWith(s: string, prefix: string) {
    prefix <= s
  }

  predicate EndsWith(s: string, suffix: string) {
    |suffix| <= |s| && s[|s| - |suffix|..] == suffix
  }

  function RecordAt(records: map<string, Record>, id: string, initial: Record): Record {
    if id in records then records[id] else initial
  }

  // ---- one event ----

  /** `apply_event`. The branches are tried in this order. */
  function Apply(p: Projection, e: Event): Result {
    if e.taskId != p.taskId then Failure(WrongTask)
    else if e.sessionId != p.sessionId then Failure(WrongSession)
    else if e.sequence != p.sequence + 1 then Failure(WrongSequence)
    else
      Success(Transition(p, e).(sequence := e.sequence, eventCount := p.eventCount + 1,
                                lastEventType := Some(e.kind), lastEventAt := Some(e.timestamp)))
  }

  function Transition(p: Projection, e: Event): Projection {
    if e.kind == "task.started" || e.kind == "resume" then
      p.(status := Running, phase := AtRunning, cancellationRequested := false)
    else if e.kind == "plan.created" || e.kind == "plan_created" then p.(status := Running, phase := AtPlanning)
    else if e.kind == "workstream_started" then WorkstreamStarted(p, e)
    else if e.kind == "workstream_completed" || e.kind == "workstream_failed" then WorkstreamEnded(p, e)
    else if StartsWith(e.kind, "model_request_") then ModelRequest(p, e)
    else if StartsWith(e.kind, "job.") then JobEvent(p, e)
    else TaskEvent(p, e)
  }

  predicate AsksToCancel(kind: string) {
    kind == "task.cancel_requested" || kind == "job.cancel_requested"
  }

  predicate MeansCompleted(kind: string) {
    kind == "hierarchy_completed" || kind == "task.completed"
  }

  predicate MeansFailed(kind: string) {
    kind == "hierarchy_failed" || kind == "task.failed" || kind == "project_lease_lost"
  }

  predicate MeansCancelled(kind: string) {
    kind == "task.cancelled" || kind == "job.cancelled"
  }

  /** The branches behind the one for every `job.` event. */
  function TaskEvent(p: Projection, e: Event): Projection {
    if AsksToCancel(e.kind) then
      p.(status := Cancelling, phase := AtCancelling, cancellationRequested := true)
    else if MeansCompleted(e.kind) then p.(status := Completed, phase := AtFinish)
    else if MeansFailed(e.kind) then
      p.(status := Failed, phase := AtFinish,
         lastError := Some(FirstOf(None, e.payload, ["error", "summary"], e.kind)))
    else if MeansCancelled(e.kind) then
      p.(status := Cancelled, phase := AtFinish, cancellationRequested := true)
    else p
  }

  function WorkstreamStarted(p: Projection, e: Event): Projection {
    var id := FirstOf(e.workstreamId, e.payload, ["workstream_id"], "");
    var entry := RecordAt(p.workstreams, id, map[])
                 + map["status" := Text("running"), "sequence" := Number(e.sequence)];
    p.(status := Running, phase := AtManaging,
       workstreams := if id == "" then p.workstreams else p.workstreams[id := entry])
  }

  function WorkstreamEnded(p: Projection, e: Event): Projection {
    var id := FirstOf(e.workstreamId, e.payload, ["workstream_id"], "");
    var outcome := if EndsWith(e.kind, "completed") then "completed" else "failed";
    var entry := RecordAt(p.workstreams, id, map[])
                 + map["status" := Text(outcome), "summary" := Get(e.payload, "summary"),
                       "sequence" := Number(e.sequence)];
    p.(workstreams := if id == "" then p.workstreams else p.workstreams[id := entry],
       lastError := if outcome == "failed" then Some(FirstOf(None, e.payload, ["summary"], "workstream failed"))
                    else p.lastError)
  }

  function ModelRequest(p: Projection, e: Event): Projection {
    var id := FirstOf(e.callId, e.payload, ["logical_request_id", "call_id"], "");
    var prefix := if StartsWith(e.kind, "model_request_") then |"model_request_"| else 0;
    var entry := RecordAt(p.calls, id, map["call_id" := Text(id)])
                 + map["state" := Text(e.kind[prefix..]),
                       "attempt_id" := Get(e.payload, "attempt_id"),
                       "agent_instance_id" := if e.agentId.Some? then Text(e.agentId.value) else Null,
                       "sequence" := Number(e.sequence)];
    p.(phase := AtModel,
       calls := if id == "" then p.calls else p.calls[id := entry],
       lastError := if e.kind == "model_request_failed"
                    then Some(FirstOf(None, e.payload, ["error"], "model request failed"))
                    else p.lastError)
  }

  function JobEvent(p: Projection, e: Event): Projection {
    var id := FirstOf(None, e.payload, ["job_id"], "");
    var entry := RecordAt(p.jobs, id, map["job_id" := Text(id)])
                 + map["state" := Text(e.kind[if StartsWith(e.kind, "job.") then |"job."| else 0..]),
                       "attempt" := Get(e.payload, "attempt"), "fencing_token" := Get(e.payload, "fencing_token"),
                       "sequence" := Number(e.sequence)];
    p.(phase := AtExecution, jobs := if id == "" then p.jobs else p.jobs[id := entry])
  }

  function Fresh(taskId: string, sessionId: string): Projection {
    Projection(taskId, sessionId, 0, Pending, AtStart, false, 0, map[], map[], map[], None, None, None)
  }

  function Fold(p: Projection, events: seq<Event>): Result
    decreases |events|
  {
    if events == [] then Success(p)
    else
      match Apply(p, events[0])
      case Failure(error) => Failure(error)
      case Success(next) => Fold(next, events[1..])
  }

  // ---- sorting ----

  /** The order of `(sequence, event_id)`. */
  predicate Before(a: Event, b: Event) {
    a.sequence < b.sequence || (a.sequence == b.sequence && TextLess(a.id, b.id))
  }

  /** Insert behind everything that does not come later. */
  function Insert(sorted: seq<Event>, e: Event): seq<Event> {
    if sorted == [] || !Before(e, sorted[|sorted| - 1]) then sorted + [e]
    else Insert(sorted[..|sorted| - 1], e) + [sorted[|sorted| - 1]]
  }

  /** Python's stable `sorted`. */
  function Sorted(events: seq<Event>): seq<Event> {
    if events == [] then [] else Insert(Sorted(events[..|events| - 1]), events[|events| - 1])
  }

  // ---- projecting a log ----

  function Or(given: Option<string>, default: string): string {
    if given.Some? && given.value != "" then given.value else default
  }

  /** `project_events`. */
  function ProjectEvents(events: seq<Event>, taskId: Option<string>, sessionId: Option<string>): Result {
    var ordered := Sorted(events);
    if ordered == [] then
      if Or(taskId, "") == "" || Or(sessionId, "") == "" || Blank(taskId.value) || Blank(sessionId.value) then
        Failure(MissingIds)
      else Success(Fresh(taskId.value, sessionId.value))
    else if ordered[0].sequence != 1 then Failure(NotFromOne)
    else
      var task, session := Or(taskId, ordered[0].taskId), Or(sessionId, ordered[0].sessionId);
      if Blank(task) || Blank(session) then Failure(MissingIds)
      else Fold(Fresh(task, session), ordered)
  }

  /** A complete log of one task and one session: sequences 1, 2, ..., n. */
  ghost predicate IsLog(log: seq<Event>, task: string, session: string) {
    forall i :: 0 <= i < |log| ==>
      log[i].sequence == i + 1 && log[i].taskId == task && log[i].sessionId == session
  }

  ghost predicate SortedBefore(s: seq<Event>) {
    forall i, k :: 0 <= i < k < |s| ==> !Before(s[k], s[i])
  }

  lemma {:induction false} InsertKeeps(s: seq<Event>, e: Event)
    ensures multiset(Insert(s, e)) == multiset(s) + multiset{e}
  {
    if s != [] && Before(e, s[|s| - 1]) {
      var front := s[..|s| - 1];
      assert s == front + [s[|s| - 1]];
      InsertKeeps(front, e);
    }
  }

  lemma InsertMembers(s: seq<Event>, e: Event, x: Event)
    requires x in Insert(s, e)
    ensures x in s || x == e
  {
    InsertKeeps(s, e);
    assert x in multiset(Insert(s, e));
  }

  lemma {:induction false} InsertSorts(s: seq<Event>, e: Event)
    requires SortedBefore(s)
    ensures SortedBefore(Insert(s, e))
  {
    hide Before;
    if s != [] {
      var front, last := s[..|s| - 1], s[|s| - 1];
      if Before(e, last) {
        InsertSorts(front, e);
        forall x | x in Insert(front, e)
          ensures !Before(last, x)
        {
          InsertMembers(front, e, x);
          BeforeAsymmetric(e, last);
        }
      } else {
        forall i | 0 <= i < |s|
          ensures !Before(e, s[i])
        {
          if Before(e, s[i]) && i < |s| - 1 {
            BeforeChain(e, s[i], last);
          }
        }
      }
    }
  }

  lemma BeforeAsymmetric(a: Event, b: Event)
    requires Before(a, b)
    ensures !Before(b, a)
  {
    TextTrichotomy(a.id, b.id);
  }

  /** What comes before one element of a sorted list comes before the next. */
  lemma BeforeChain(a: Event, b: Event, c: Event)
    requires Before(a, b) && !Before(c, b)
    ensures Before(a, c)
  {
    TextTrichotomy(b.id, c.id);
    if a.sequence == b.sequence == c.sequence && TextLess(b.id, c.id) {
      TextTransitive(a.id, b.id, c.id);
    }
  }

  lemma {:induction false} SortedKeeps(s: seq<Event>)
    ensures multiset(Sorted(s)) == multiset(s) && SortedBefore(Sorted(s)) && |Sorted(s)| == |s|
  {
    if s != [] {
      var front, last := s[..|s| - 1], s[|s| - 1];
      assert s == front + [last];
      SortedKeeps(front);
      InsertKeeps(Sorted(front), last);
      InsertSorts(Sorted(front), last);
    }
    assert |multiset(Sorted(s))| == |multiset(s)|;
  }

  // ---- what a projection is ----

  /** The last element of a sorted shuffle of a log is the log's last. */
  lemma LastOfSorted(t: seq<Event>, log: seq<Event>, task: string, session: string)
    requires IsLog(log, task, session) && SortedBefore(t) && multiset(t) == multiset(log) && |t| == |log| > 0
    ensures t[|t| - 1] == log[|log| - 1]
  {
    var n := |log|;
    var x, y := t[n - 1], log[n - 1];
    assert x in multiset(log) && y in multiset(t);
    var k :| 0 <= k < n && t[k] == y;
    var j :| 0 <= j < n && log[j] == x;
    assert k < n - 1 ==> !Before(x, y);
  }

  lemma Fronts(t: seq<Event>, log: seq<Event>, task: string, session: string)
    requires IsLog(log, task, session) && SortedBefore(t) && |t| == |log| > 0
    ensures IsLog(log[..|log| - 1], task, session) && SortedBefore(t[..|t| - 1])
  {
    hide Before;
  }

  /** A complete log is its own sorted form, however it is shuffled. */
  lemma {:induction false} SortedLog(t: seq<Event>, log: seq<Event>, task: string, session: string)
    requires IsLog(log, task, session) && SortedBefore(t) && multiset(t) == multiset(log)
    ensures t == log
  {
    hide *;
    assert |multiset(t)| == |multiset(log)|;
    var n := |log|;
    if n > 0 {
      LastOfSorted(t, log, task, session);
      Fronts(t, log, task, session);
      SameFronts(t, log);
      SortedLog(t[..n - 1], log[..n - 1], task, session);
    }
  }

  lemma SameFronts(t: seq<Event>, log: seq<Event>)
    requires |t| == |log| > 0 && multiset(t) == multiset(log) && t[|t| - 1] == log[|log| - 1]
    ensures multiset(t[..|t| - 1]) == multiset(log[..|log| - 1])
    ensures t[..|t| - 1] == log[..|log| - 1] ==> t == log
  {
    hide *;
    var n, x := |log|, log[|log| - 1];
    assert t == t[..n - 1] + [x] && log == log[..n - 1] + [x];
    assert multiset(t[..n - 1]) == multiset(t) - multiset{x};
    assert multiset(log[..n - 1]) == multiset(log) - multiset{x};
  }

  /** The events continue a projection without a hole or a foreign event. */
  ghost predicate Continues(p: Projection, events: seq<Event>) {
    forall i :: 0 <= i < |events| ==>
      events[i].sequence == p.sequence + 1 + i && events[i].taskId == p.taskId && events[i].sessionId == p.sessionId
  }

  lemma TransitionFacts(p: Projection, e: Event)
    ensures var q := Transition(p, e);
            && q.taskId == p.taskId && q.sessionId == p.sessionId && q.eventCount == p.eventCount
            && (CancelFlagged(p) ==> CancelFlagged(q))
  {
    WorkstreamFacts(p, e);
    CallFacts(p, e);
    TaskFacts(p, e);
    hide FirstOf, StartsWith, WorkstreamStarted, WorkstreamEnded, ModelRequest, JobEvent, TaskEvent;
  }

  lemma TaskFacts(p: Projection, e: Event)
    ensures var q := TaskEvent(p, e);
            && q == p.(status := q.status, phase := q.phase, cancellationRequested := q.cancellationRequested,
                       lastError := q.lastError)
            && (CancelFlagged(p) ==> CancelFlagged(q))
  {
    hide FirstOf, AsksToCancel, MeansCompleted, MeansFailed, MeansCancelled;
  }

  lemma WorkstreamFacts(p: Projection, e: Event)
    ensures var q := WorkstreamStarted(p, e);
            q == p.(status := Running, phase := AtManaging, workstreams := q.workstreams)
    ensures var q := WorkstreamEnded(p, e); q == p.(workstreams := q.workstreams, lastError := q.lastError)
  {
    hide FirstOf, RecordAt, EndsWith;
  }

  lemma CallFacts(p: Projection, e: Event)
    ensures var q := ModelRequest(p, e); q == p.(phase := AtModel, calls := q.calls, lastError := q.lastError)
    ensures var q := JobEvent(p, e); q == p.(phase := AtExecution, jobs := q.jobs)
  {
    hide FirstOf, RecordAt, StartsWith;
  }

  lemma ApplyFacts(p: Projection, e: Event)
    ensures Apply(p, e).Success? <==> Continues(p, [e])
    ensures Apply(p, e).Success? ==>
              var q := Apply(p, e).projection;
              && q.taskId == p.taskId && q.sessionId == p.sessionId
              && q.sequence == p.sequence + 1 && q.eventCount == p.eventCount + 1
              && (CancelFlagged(p) ==> CancelFlagged(q))
  {
    hide Transition;
    TransitionFacts(p, e);
    assert [e][0] == e;
  }

  /** A task that is being or has been cancelled carries the request flag. */
  predicate CancelFlagged(p: Projection) {
    p.status in {Cancelling, Cancelled} ==> p.cancellationRequested
  }

  lemma {:induction false} FoldFacts(p: Projection, events: seq<Event>)
    ensures Fold(p, events).Success? <==> Continues(p, events)
    ensures Fold(p, events).Success? ==>
              var q := Fold(p, events).projection;
              && q.taskId == p.taskId && q.sessionId == p.sessionId
              && q.sequence == p.sequence + |events| && q.eventCount == p.eventCount + |events|
              && (CancelFlagged(p) ==> CancelFlagged(q))
    decreases |events|
  {
    if events != [] {
      hide Transition, CancelFlagged;
      var e, rest := events[0], events[1..];
      ApplyFacts(p, e);
      assert Continues(p, events) ==> Continues(p, [e]);
      if Apply(p, e).Success? {
        hide Apply;
        FoldFacts(Apply(p, e).projection, rest);
        ContinuesSplit(p, events, Apply(p, e).projection);
      }
    }
  }

  lemma ContinuesSplit(p: Projection, events: seq<Event>, q: Projection)
    requires events != [] && Continues(p, [events[0]])
    requires q.taskId == p.taskId && q.sessionId == p.sessionId && q.sequence == p.sequence + 1
    ensures Continues(p, events) <==> Continues(q, events[1..])
  {
    assert [events[0]][0] == events[0];
    if Continues(q, events[1..]) {
      forall i | 0 <= i < |events|
        ensures events[i].sequence == p.sequence + 1 + i
        ensures events[i].taskId == p.taskId && events[i].sessionId == p.sessionId
      {
        if i > 0 {
          assert events[i] == events[1..][i - 1];
        }
      }
    }
  }

  predicate Fits(given: Option<string>, actual: string) {
    !Blank(actual) && Or(given, actual) == actual
  }

  /** A non-empty replay succeeds exactly when its events, in some order, are a
      complete log of the requested task and session; and it is then the fold
      of that log. */
  lemma ProjectionExact(events: seq<Event>, taskId: Option<string>, sessionId: Option<string>)
    requires events != []
    ensures ProjectEvents(events, taskId, sessionId).Success? <==>
              exists log, task, session :: IsLog(log, task, session) && multiset(log) == multiset(events)
                                           && Fits(taskId, task) && Fits(sessionId, session)
    ensures forall log, task, session | IsLog(log, task, session) && multiset(log) == multiset(events)
                                        && Fits(taskId, task) && Fits(sessionId, session) ::
              ProjectEvents(events, taskId, sessionId) == Fold(Fresh(task, session), log)
  {
    var ordered := Sorted(events);
    SortedKeeps(events);
    var r := ProjectEvents(events, taskId, sessionId);
    if r.Success? {
      var task, session := Or(taskId, ordered[0].taskId), Or(sessionId, ordered[0].sessionId);
      FoldFacts(Fresh(task, session), ordered);
      assert IsLog(ordered, task, session) && multiset(ordered) == multiset(events);
      assert Fits(taskId, task) && Fits(sessionId, session);
    }
    forall log, task, session | IsLog(log, task, session) && multiset(log) == multiset(events)
                                && Fits(taskId, task) && Fits(sessionId, session)
      ensures r == Fold(Fresh(task, session), log) && r.Success?
    {
      SortedLog(ordered, log, task, session);
      FoldFacts(Fresh(task, session), log);
    }
  }

  /** The order in which events arrive does not matter. */
  lemma OrderIrrelevant(a: seq<Event>, b: seq<Event>, taskId: Option<string>, sessionId: Option<string>)
    requires multiset(a) == multiset(b)
    ensures var r, s := ProjectEvents(a, taskId, sessionId), ProjectEvents(b, taskId, sessionId);
            r == s || (r.Failure? && s.Failure?)
  {
    assert |multiset(a)| == |multiset(b)|;
    if a != [] {
      ProjectionExact(a, taskId, sessionId);
      ProjectionExact(b, taskId, sessionId);
    }
  }

  /** Every projection of a log: a cancelled status implies the request flag,
      and all events are counted. */
  lemma ProjectionFacts(events: seq<Event>, taskId: Option<string>, sessionId: Option<string>)
    requires ProjectEvents(events, taskId, sessionId).Success?
    ensures var p := ProjectEvents(events, taskId, sessionId).projection;
            CancelFlagged(p) && p.sequence == p.eventCount == |events|
  {
    SortedKeeps(events);
    var ordered := Sorted(events);
    if ordered != [] {
      FoldFacts(Fresh(Or(taskId, ordered[0].taskId), Or(sessionId, ordered[0].sessionId)), ordered);
    }
  }

  /** Job events leave the task's own status alone: the branch for them stands
      before the ones that name `job.cancel_requested` and `job.cancelled`. */
  lemma JobEventsSpareTheTask(p: Projection, e: Event)
    requires Apply(p, e).Success? && StartsWith(e.kind, "job.")
    ensures var q := Apply(p, e).projection;
            && q.status == p.status && q.cancellationRequested == p.cancellationRequested && q.lastError == p.lastError
            && q.phase == AtExecution && q.workstreams == p.workstreams && q.calls == p.calls
  {
    assert e.kind[0] == 'j';
  }

  /** So no number of job events, cancellations included, ever moves a task. */
  lemma {:induction false} JobLogsSpareTheTask(p: Projection, events: seq<Event>)
    requires Fold(p, events).Success? && forall e :: e in events ==> StartsWith(e.kind, "job.")
    ensures var q := Fold(p, events).projection;
            q.status == p.status && q.cancellationRequested == p.cancellationRequested && q.lastError == p.lastError
    decreases |events|
  {
    hide Apply, StartsWith;
    if events != [] {
      var q := Apply(p, events[0]).projection;
      assert events[0] in events;
      JobEventsSpareTheTask(p, events[0]);
      JobLogsSpareTheTask(q, events[1..]);
    }
  }

  lemma {:induction false} FoldAppends(p: Projection, events: seq<Event>, e: Event)
    requires Fold(p, events).Success?
    ensures Fold(p, events + [e]) == Apply(Fold(p, events).projection, e)
    decreases |events|
  {
    hide Apply;
    if events == [] {
      assert [] + [e] == [e];
    } else {
      assert (events + [e])[1..] == events[1..] + [e];
      FoldAppends(Apply(p, events[0]).projection, events[1..], e);
    }
  }

  /** Rebuilding after an append is applying the one new event. */
  lemma RebuildIsOneStep(log: seq<Event>, e: Event, task: string, session: string)
    requires IsLog(log + [e], task, session) && !Blank(task) && !Blank(session)
    ensures var before := ProjectEvents(log, Some(task), Some(session));
            before.Success? && ProjectEvents(log + [e], Some(task), Some(session)) == Apply(before.projection, e)
  {
    hide Apply, Fold, Sorted, Continues;
    LogPrefix(log, e, task, session);
    assert task != "" && session != "" by { assert Blank(""); }
    FoldOfLog(log, task, session);
    FoldAppends(Fresh(task, session), log, e);
    if log == [] {
      EmptyReplay(task, session);
    } else {
      ProjectionExact(log, Some(task), Some(session));
    }
    ProjectionExact(log + [e], Some(task), Some(session));
  }

  lemma LogPrefix(log: seq<Event>, e: Event, task: string, session: string)
    requires IsLog(log + [e], task, session)
    ensures IsLog(log, task, session)
  {
    assert forall i :: 0 <= i < |log| ==> log[i] == (log + [e])[i];
  }

  lemma FoldOfLog(log: seq<Event>, task: string, session: string)
    requires IsLog(log, task, session)
    ensures Fold(Fresh(task, session), log).Success?
  {
    FoldFacts(Fresh(task, session), log);
  }

  lemma EmptyReplay(task: string, session: string)
    requires !Blank(task) && !Blank(session)
    ensures ProjectEvents([], Some(task), Some(session)) == Fold(Fresh(task, session), [])
  {
    assert Blank("");
  }

  // ---- the repository and the core ----

  /** A stored projection. The checksum is an injective digest, so it is
      modelled by the projection it digests. */
  datatype Checkpoint = Checkpoint(projection: Projection, sequence: nat, checksum: Projection)

  /** `replay_events`: the first `limit` events above the cursor, ascending. */
  function Page(log: seq<Event>, cursor: nat, limit: nat): seq<Event> {
    var later := Above(log, cursor);
    if |later| <= limit then later else later[..limit]
  }

  function Above(log: seq<Event>, cursor: nat): seq<Event> {
    if log == [] then []
    else if log[0].sequence > cursor then [log[0]] + Above(log[1..], cursor)
    else Above(log[1..], cursor)
  }

  /** The sequences from + 1, from + 2, ... without a hole. */
  ghost predicate Numbered(log: seq<Event>, from: nat) {
    forall i :: 0 <= i < |log| ==> log[i].sequence == from + 1 + i
  }

  /** Retained rows in their order; compaction may have left holes. */
  ghost predicate Ascends(log: seq<Event>) {
    forall i, k :: 0 <= i < k < |log| ==> log[i].sequence < log[k].sequence
  }

  /** The cursor has passed the first `n` events and no other. */
  predicate Passed(log: seq<Event>, n: nat, cursor: nat)
    requires n <= |log|
  {
    (n > 0 ==> log[n - 1].sequence <= cursor) && (n < |log| ==> log[n].sequence > cursor)
  }

  lemma {:induction false} AboveCursor(log: seq<Event>, n: nat, cursor: nat)
    requires Ascends(log) && n <= |log| && Passed(log, n, cursor)
    ensures Above(log, cursor) == log[n..]
    decreases |log|
  {
    if log != [] {
      if n > 0 {
        assert log[0].sequence <= log[n - 1].sequence;
        AboveCursor(log[1..], n - 1, cursor);
        assert log[1..][n - 1..] == log[n..];
      } else {
        assert |log| > 1 ==> log[1].sequence > log[0].sequence;
        AboveCursor(log[1..], 0, cursor);
      }
    }
  }

  /** The next page of a log, with or without holes, is its next stretch, and its last event is
      the cursor for the page after it. */
  lemma PageIsNext(log: seq<Event>, n: nat, cursor: nat, limit: nat)
    requires Ascends(log) && n <= |log| && Passed(log, n, cursor) && limit > 0
    ensures var page := Page(log, cursor, limit);
            && n + |page| <= |log| && log[..n] + page == log[..n + |page|]
            && (page != [] ==> Passed(log, n + |page|, page[|page| - 1].sequence))
            && (|page| < limit ==> n + |page| == |log|)
            && (page == [] ==> n == |log|)
  {
    AboveCursor(log, n, cursor);
    hide Above;
    var page := Page(log, cursor, limit);
    assert page == log[n..n + |page|];
  }

  // ---- retention ----

  /** The event kinds compaction keeps forever. */
  const TERMINAL_KINDS := {
    "completion_reconciliation", "effect_applied", "finish_chat_turn", "hierarchy_completed", "hierarchy_failed",
    "model_request_aborted", "model_request_completed", "model_request_failed", "project_lease_lost", "test_result"}

  predicate Terminal(e: Event) {
    e.kind in TERMINAL_KINDS
  }

  /** What the age limit leaves. */
  function Young(log: seq<Event>, cutoff: string): seq<Event> {
    if log == [] then []
    else
      var n := |log| - 1;
      Young(log[..n], cutoff) + if Terminal(log[n]) || !TextLess(log[n].timestamp, cutoff) then [log[n]] else []
  }

  /** What the size limit leaves: the newest `max` events that are not terminal, and the terminal ones. */
  function Newest(log: seq<Event>, max: nat): seq<Event> {
    if log == [] then []
    else
      var n := |log| - 1;
      if Terminal(log[n]) then Newest(log[..n], max) + [log[n]]
      else if max > 0 then Newest(log[..n], max - 1) + [log[n]]
      else Newest(log[..n], 0)
  }

  /** Rows were only deleted. */
  ghost predicate Thinned(kept: seq<Event>, log: seq<Event>) {
    && Ascends(kept) && |kept| <= |log|
    && (forall e :: e in kept ==> e in log)
    && (forall e :: e in log && Terminal(e) ==> e in kept)
    && (kept != [] ==> log != [] && kept[|kept| - 1].sequence <= log[|log| - 1].sequence)
  }

  lemma ThinnedMore(kept: seq<Event>, log: seq<Event>)
    requires log != [] && Ascends(log) && Thinned(kept, log[..|log| - 1])
    ensures Thinned(kept + [log[|log| - 1]], log)
    ensures !Terminal(log[|log| - 1]) ==> Thinned(kept, log)
  {
    hide Terminal;
    var n := |log| - 1;
    forall e | e in log && e != log[n]
      ensures e in log[..n]
    {
      var i :| 0 <= i < |log| && log[i] == e;
      assert log[..n][i] == e;
    }
    assert n > 0 ==> log[..n][n - 1].sequence < log[n].sequence;
  }

  lemma {:induction false} YoungThins(log: seq<Event>, cutoff: string)
    requires Ascends(log)
    ensures Thinned(Young(log, cutoff), log)
  {
    if log != [] {
      var n := |log| - 1;
      YoungThins(log[..n], cutoff);
      ThinnedMore(Young(log[..n], cutoff), log);
      assert Young(log[..n], cutoff) + [] == Young(log[..n], cutoff);
      hide Terminal, Thinned;
    }
  }

  lemma {:induction false} NewestThins(log: seq<Event>, max: nat)
    requires Ascends(log)
    ensures Thinned(Newest(log, max), log)
  {
    if log != [] {
      var n := |log| - 1;
      var less := if Terminal(log[n]) || max == 0 then max else max - 1;
      NewestThins(log[..n], less);
      ThinnedMore(Newest(log[..n], less), log);
      hide Terminal, Thinned;
    }
  }

  lemma ThinnedTwice(a: seq<Event>, b: seq<Event>, c: seq<Event>)
    requires Thinned(a, b) && Thinned(b, c)
    ensures Thinned(a, c)
  {
    hide Terminal;
  }

  // ---- the class ----

  /** Superseded is the refusal to replace the checkpoint of a longer log. */
  datatype AppendResult = Appended(event: Event) | Rejected | ProjectionError(error: Error) | Superseded

  /** Retained events of one task, none behind the cursor's latest sequence. */
  ghost predicate ValidLog(task: string, log: seq<Event>, latest: nat) {
    && Ascends(log)
    && forall i :: 0 <= i < |log| ==>
      1 <= log[i].sequence <= latest && log[i].taskId == task && !Blank(task) && !Blank(log[i].sessionId)
  }

  lemma LogGrows(task: string, log: seq<Event>, latest: nat, entry: Event)
    requires ValidLog(task, log, latest)
    requires entry.taskId == task && entry.sequence == latest + 1 && !Blank(task) && !Blank(entry.sessionId)
    ensures ValidLog(task, log + [entry], latest + 1)
  {
    hide Blank;
  }

  lemma LogShrinks(task: string, kept: seq<Event>, log: seq<Event>, latest: nat)
    requires ValidLog(task, log, latest) && Thinned(kept, log)
    ensures ValidLog(task, kept, latest)
  {
    hide Blank, Terminal;
    forall i | 0 <= i < |kept|
      ensures 1 <= kept[i].sequence <= latest && kept[i].taskId == task && !Blank(task) && !Blank(kept[i].sessionId)
    {
      assert kept[i] in log;
    }
  }

  /** Sequences up to `latest` fill a log without holes exactly when there are `latest` of them. */
  lemma {:induction false} FullExactly(log: seq<Event>, latest: nat)
    requires Ascends(log) && forall i :: 0 <= i < |log| ==> 1 <= log[i].sequence <= latest
    ensures |log| <= latest
    ensures |log| == latest ==> Numbered(log, 0)
    ensures log != [] && log[|log| - 1].sequence == latest && Numbered(log, 0) ==> |log| == latest
  {
    if log != [] {
      var n := |log| - 1;
      forall i | 0 <= i < n
        ensures 1 <= log[..n][i].sequence <= log[n].sequence - 1
      {
        assert log[i].sequence < log[n].sequence;
      }
      FullExactly(log[..n], log[n].sequence - 1);
      if |log| == latest {
        assert forall i :: 0 <= i < n ==> log[..n][i] == log[i];
      }
    }
  }

  class TaskEventCore {
    var logs: map<string, seq<Event>>
    var latest: map<string, nat>
    var retainedFrom: map<string, nat>
    var checkpoints: map<string, Checkpoint>

    function LogOf(task: string): seq<Event>
      reads this`logs
    {
      if task in logs then logs[task] else []
    }

    /** The latest sequence of the task's cursor row, 0 without one. */
    function LatestOf(task: string): nat
      reads this`latest
    {
      if task in latest then latest[task] else 0
    }

    /** How many sequences were given out to events that have been compacted away. */
    function Holes(task: string): int
      reads this`logs, this`latest
    {
      LatestOf(task) - |LogOf(task)|
    }

    ghost predicate Valid()
      reads this`logs, this`latest, this`checkpoints
    {
      && (forall t :: t in logs ==> ValidLog(t, logs[t], LatestOf(t)))
      && (forall t :: t in checkpoints ==> checkpoints[t].sequence <= LatestOf(t))
    }

    /** A projection up to this sequence may be saved: no longer one is stored. */
    predicate Replaceable(task: string, sequence: nat)
      reads this`checkpoints
    {
      task in checkpoints ==> checkpoints[task].sequence <= sequence
    }

    predicate OneSession(task: string, session: string)
      reads this`logs
    {
      forall e :: e in LogOf(task) ==> e.sessionId == session
    }

    constructor ()
      ensures Valid() && logs == map[] && latest == map[] && retainedFrom == map[] && checkpoints == map[]
    {
      logs, latest, retainedFrom, checkpoints := map[], map[], map[], map[];
    }

    lemma LogIsValid(task: string)
      requires Valid()
      ensures LogOf(task) == [] || ValidLog(task, LogOf(task), LatestOf(task))
      ensures Ascends(LogOf(task)) && Holes(task) >= 0
    {
      if task in logs {
        FullExactly(logs[task], LatestOf(task));
      }
    }

    /** `rebuild`, with any page size and with or without a session. */
    method Rebuild(task: string, session: Option<string>, pageSize: int) returns (r: Result)
      requires Valid()
      ensures r == if pageSize < 1 then Failure(BadPageSize) else ProjectEvents(LogOf(task), Some(task), session)
    {
      hide *;
      if pageSize < 1 { return Failure(BadPageSize); }
      var events: seq<Event> := [];
      var cursor := 0;
      ghost var log := LogOf(task);
      LogIsValid(task);
      FirstPassed(task);
      while true
        invariant |events| <= |log| && events == log[..|events|] && Passed(log, |events|, cursor)
        decreases |log| - |events|
      {
        var page := Page(LogOf(task), cursor, pageSize);
        PageIsNext(log, |events|, cursor, pageSize);
        if page == [] { break; }
        events := events + page;
        cursor := page[|page| - 1].sequence;
        if |page| < pageSize { break; }
      }
      assert events == log;
      r := ProjectEvents(events, Some(task), session);
    }

    lemma FirstPassed(task: string)
      requires Valid()
      ensures Passed(LogOf(task), 0, 0)
    {
    }

    /** The id is on a retained event, of this or of another task. */
    predicate Known(id: string)
      reads this`logs
    {
      exists t :: t in logs && exists e :: e in logs[t] && e.id == id
    }

    /** The repository's `append_event`: a retained id returns its event, a new event takes the
        sequence behind the task's cursor. */
    method Store(event: Event) returns (stored: Option<Event>)
      requires Valid() && !Blank(event.taskId) && !Blank(event.sessionId)
      modifies this`logs, this`latest, this`retainedFrom
      ensures Valid()
      ensures stored.None? <==> !old(Known(event.id)) && event.sequence != 0
                                && event.sequence != old(LatestOf(event.taskId)) + 1
      ensures stored.Some? ==> stored.value.id == event.id && stored.value in LogOf(stored.value.taskId)
      ensures old(Known(event.id)) || stored.None? ==> logs == old(logs) && latest == old(latest)
      ensures !old(Known(event.id)) && stored.Some? ==>
                && stored.value == event.(sequence := old(LatestOf(event.taskId)) + 1)
                && logs == old(logs)[event.taskId := old(LogOf(event.taskId)) + [stored.value]]
                && latest == old(latest)[event.taskId := stored.value.sequence]
      ensures forall t :: Holes(t) == old(Holes(t))
    {
      hide Blank, ValidLog;
      if t :| t in logs && exists e :: e in logs[t] && e.id == event.id {
        var entry :| entry in logs[t] && entry.id == event.id;
        EntryOf(t, entry);
        return Some(entry);
      }
      var sequence := LatestOf(event.taskId) + 1;
      if event.sequence != 0 && event.sequence != sequence { return None; }
      var entry := event.(sequence := sequence);
      hide Known;
      Insert(entry);
      return Some(entry);
    }

    /** The two writes behind the checks: the event row and the cursor row. */
    method Insert(entry: Event)
      requires Valid() && !Blank(entry.taskId) && !Blank(entry.sessionId)
      requires entry.sequence == LatestOf(entry.taskId) + 1
      modifies this`logs, this`latest, this`retainedFrom
      ensures Valid()
      ensures logs == old(logs)[entry.taskId := old(LogOf(entry.taskId)) + [entry]]
      ensures latest == old(latest)[entry.taskId := entry.sequence]
      ensures entry in LogOf(entry.taskId)
      ensures forall t :: Holes(t) == old(Holes(t))
    {
      hide Blank, ValidLog;
      var task, log := entry.taskId, LogOf(entry.taskId);
      NoLogYet(task);
      LogGrows(task, log, LatestOf(task), entry);
      if task !in retainedFrom {
        retainedFrom := retainedFrom[task := if log == [] then 1 else log[0].sequence];
      }
      logs := logs[task := log + [entry]];
      latest := latest[task := entry.sequence];
      assert logs[task][|log|] == entry;
    }

    lemma EntryOf(t: string, e: Event)
      requires Valid() && t in logs && e in logs[t]
      ensures e.taskId == t
    {
      var i :| 0 <= i < |logs[t]| && logs[t][i] == e;
    }

    lemma NoLogYet(task: string)
      requires Valid()
      ensures ValidLog(task, LogOf(task), LatestOf(task))
    {
    }

    /** `append`: store, rebuild, checkpoint. `stored` is what the repository answered. */
    method Append(event: Event) returns (r: AppendResult, ghost stored: Option<Event>)
      requires Valid() && !Blank(event.taskId) && !Blank(event.sessionId)
      modifies this
      ensures Valid()
      ensures stored.None? <==> !old(Known(event.id)) && event.sequence != 0
                                && event.sequence != old(LatestOf(event.taskId)) + 1
      ensures stored.Some? ==> stored.value.id == event.id && stored.value in LogOf(stored.value.taskId)
      ensures old(Known(event.id)) || stored.None? ==> logs == old(logs) && latest == old(latest)
      ensures !old(Known(event.id)) && stored.Some? ==>
                && stored.value == event.(sequence := old(LatestOf(event.taskId)) + 1)
                && logs == old(logs)[event.taskId := old(LogOf(event.taskId)) + [stored.value]]
                && latest == old(latest)[event.taskId := stored.value.sequence]
      ensures forall t :: Holes(t) == old(Holes(t))
      ensures r == Rejected <==> stored.None?
      // the append returns exactly when the log runs from 1 without a hole, holds one session only,
      // and is not shorter than the one of the stored checkpoint
      ensures stored.Some? ==>
                (r.ProjectionError? <==> !(Numbered(LogOf(stored.value.taskId), 0)
                                           && OneSession(stored.value.taskId, stored.value.sessionId)))
      ensures r == Superseded <==>
                && stored.Some? && !r.ProjectionError?
                && !old(Replaceable(stored.value.taskId, |LogOf(stored.value.taskId)|))
      // for a new event: exactly when no event of the task was ever compacted away
      ensures !old(Known(event.id)) && stored.Some? ==>
                && (r.Appended? <==> old(Holes(event.taskId)) == 0 && old(OneSession(event.taskId, event.sessionId)))
                && (r.Appended? || r.ProjectionError?)
      ensures r.Appended? ==> stored == Some(r.event) && CheckpointHolds(r.event.taskId)
      ensures !r.Appended? ==> checkpoints == old(checkpoints)
      ensures forall t :: t in old(checkpoints) ==>
                t in checkpoints && checkpoints[t].sequence >= old(checkpoints)[t].sequence
    {
      hide ProjectEvents, Blank, ValidLog, Numbered;
      var entry := Store(event);
      stored := entry;
      if entry.None? { return Rejected, stored; }
      var task, session := entry.value.taskId, entry.value.sessionId;
      StoredIds(entry.value);
      LogIsValid(task);
      RebuildSucceeds(LogOf(task), task, session);
      if !old(Known(event.id)) {
        NewEntry(entry.value);
      }
      var projection := Rebuild(task, Some(session), 1000);
      match projection
      case Failure(error) => return ProjectionError(error), stored;
      case Success(p) =>
        var saved := SaveProjection(task, p);
        return if saved then Appended(entry.value) else Superseded, stored;
    }

    /** `save_event_projection`. */
    method SaveProjection(task: string, p: Projection) returns (saved: bool)
      requires Valid() && p.sequence <= LatestOf(task)
      modifies this`checkpoints
      ensures Valid()
      ensures saved <==> old(Replaceable(task, p.sequence))
      ensures checkpoints == if saved then old(checkpoints)[task := Checkpoint(p, p.sequence, p)]
                             else old(checkpoints)
    {
      if task in checkpoints && checkpoints[task].sequence > p.sequence { return false; }
      checkpoints := checkpoints[task := Checkpoint(p, p.sequence, p)];
      return true;
    }

    lemma StoredIds(e: Event)
      requires Valid() && e in LogOf(e.taskId)
      ensures Ascends(LogOf(e.taskId)) && (forall x :: x in LogOf(e.taskId) ==> x.taskId == e.taskId)
      ensures !Blank(e.taskId) && !Blank(e.sessionId)
    {
    }

    /** Behind a new event the log is without holes exactly when nothing was compacted away. */
    lemma NewEntry(e: Event)
      requires Valid() && LogOf(e.taskId) != [] && LogOf(e.taskId)[|LogOf(e.taskId)| - 1] == e
      requires e.sequence == LatestOf(e.taskId)
      ensures Numbered(LogOf(e.taskId), 0) <==> Holes(e.taskId) == 0
    {
      FullExactly(LogOf(e.taskId), LatestOf(e.taskId));
    }

    /** What `verify_checkpoint` looks for. */
    ghost predicate CheckpointHolds(task: string)
      reads this
    {
      && task in checkpoints
      && var c := checkpoints[task];
      && ProjectEvents(LogOf(task), Some(task), Some(c.projection.sessionId)) == Success(c.projection)
      && c.sequence == c.projection.sequence == |LogOf(task)| && c.checksum == c.projection
    }

    /** `verify_checkpoint`; None is the projection error it lets through. */
    method VerifyCheckpoint(task: string) returns (r: Option<bool>)
      requires Valid()
      ensures CheckpointHolds(task) ==> r == Some(true)
      ensures r == Some(true) ==>
                && task in checkpoints
                && ProjectEvents(LogOf(task), Some(task), Some(checkpoints[task].projection.sessionId))
                   == Success(checkpoints[task].projection)
    {
      if task !in checkpoints { return Some(false); }
      var c := checkpoints[task];
      var projection := Rebuild(task, Some(c.projection.sessionId), 1000);
      match projection
      case Failure(_) => return None;
      case Success(p) => return Some(c.sequence == p.sequence && c.checksum == p && c.projection == p);
    }

    /** `compact_events` for one task: old events and all but the newest ones go, terminal ones stay,
        and the cursor row remembers from where the log is retained. */
    method Compact(task: string, cutoff: string, max: nat) returns (deleted: nat)
      requires Valid()
      modifies this`logs, this`retainedFrom
      ensures Valid()
      ensures LogOf(task) == Newest(Young(old(LogOf(task)), cutoff), max)
      ensures Thinned(LogOf(task), old(LogOf(task)))
      ensures logs == old(logs)[task := LogOf(task)]
      ensures deleted == |old(LogOf(task))| - |LogOf(task)| && Holes(task) == old(Holes(task)) + deleted
      ensures task in latest ==>
                && task in retainedFrom
                && (forall e :: e in LogOf(task) ==> e.sequence >= retainedFrom[task])
                && (LogOf(task) == [] ==> retainedFrom[task] == latest[task] + 1)
    {
      hide Terminal, Thinned, ValidLog, Newest, Young;
      var log := LogOf(task);
      NoLogYet(task);
      Compacted(task, log, LatestOf(task), cutoff, max);
      var young := DropOld(log, cutoff);
      var kept := KeepNewest(young, max);
      logs := logs[task := kept];
      deleted := |log| - |kept|;
      if task in latest {
        retainedFrom := retainedFrom[task := if kept == [] then latest[task] + 1 else kept[0].sequence];
      }
    }
  }

  /** What compaction leaves of a task's log. */
  lemma Compacted(task: string, log: seq<Event>, latest: nat, cutoff: string, max: nat)
    requires ValidLog(task, log, latest)
    ensures var kept := Newest(Young(log, cutoff), max);
            && Thinned(kept, log) && ValidLog(task, kept, latest) && |kept| <= |log|
            && forall e :: e in kept ==> e.sequence >= kept[0].sequence
  {
    hide Terminal, Thinned, Newest, Young, Blank;
    var young := Young(log, cutoff);
    YoungThins(log, cutoff);
    ThinnedAscends(young, log);
    NewestThins(young, max);
    ThinnedTwice(Newest(young, max), young, log);
    ThinnedAscends(Newest(young, max), log);
    LogShrinks(task, Newest(young, max), log, latest);
  }

  lemma ThinnedAscends(kept: seq<Event>, log: seq<Event>)
    requires Thinned(kept, log)
    ensures Ascends(kept) && |kept| <= |log|
    ensures forall e :: e in kept ==> e.sequence >= kept[0].sequence
  {
    hide Terminal;
  }

  method DropOld(log: seq<Event>, cutoff: string) returns (young: seq<Event>)
    ensures young == Young(log, cutoff)
  {
    hide Terminal;
    young := [];
    for k := 0 to |log|
      invariant young == Young(log[..k], cutoff)
    {
      assert log[..k + 1][..k] == log[..k];
      if Terminal(log[k]) || !TextLess(log[k].timestamp, cutoff) {
        young := young + [log[k]];
      }
    }
    assert log[..|log|] == log;
  }

  lemma Regroup(a: seq<Event>, e: Event, b: seq<Event>)
    ensures (a + [e]) + b == a + ([e] + b)
  {
  }

  lemma NewestOfNone(max: nat)
    ensures Newest([], max) == []
  {
  }

  lemma NewestUnfolds(log: seq<Event>, k: nat, max: nat)
    requires k < |log|
    ensures Newest(log[..k + 1], max) ==
            if Terminal(log[k]) then Newest(log[..k], max) + [log[k]]
            else if max > 0 then Newest(log[..k], max - 1) + [log[k]]
            else Newest(log[..k], 0)
  {
    assert log[..k + 1][..k] == log[..k];
  }

  /** Walks from the newest event down, as the descending query does. */
  method KeepNewest(log: seq<Event>, max: nat) returns (kept: seq<Event>)
    ensures kept == Newest(log, max)
  {
    hide Terminal, Newest;
    kept := [];
    var left: nat := max;
    var k: nat := |log|;
    assert log[..|log|] == log;
    while k > 0
      invariant 0 <= k <= |log| && left <= max
      invariant Newest(log[..k], left) + kept == Newest(log, max)
    {
      ghost var more, before := left, kept;
      k := k - 1;
      NewestUnfolds(log, k, more);
      if Terminal(log[k]) {
        kept := [log[k]] + kept;
      } else if left > 0 {
        kept := [log[k]] + kept;
        left := left - 1;
      }
      Regroup(Newest(log[..k], left), log[k], before);
    }
    NewestOfNone(left);
  }

  /** The retained log of one task rebuilds for a session exactly when it runs from 1 without a
      hole and has no event of another session. */
  lemma RebuildSucceeds(log: seq<Event>, task: string, session: string)
    requires Ascends(log) && (forall e :: e in log ==> e.taskId == task) && log != [] && !Blank(task) && !Blank(session)
    ensures var r := ProjectEvents(log, Some(task), Some(session));
            && (r.Success? <==> Numbered(log, 0) && forall e :: e in log ==> e.sessionId == session)
            && (r.Success? ==> r.projection.sequence == |log| && r.projection.sessionId == session)
  {
    hide ProjectEvents, Fold, SortedBefore, Ascends;
    assert Blank("");
    ProjectionExact(log, Some(task), Some(session));
    var r := ProjectEvents(log, Some(task), Some(session));
    if Numbered(log, 0) && forall e :: e in log ==> e.sessionId == session {
      assert IsLog(log, task, session);
      FoldFacts(Fresh(task, session), log);
    }
    if r.Success? {
      var l, t, s :| IsLog(l, t, s) && multiset(l) == multiset(log) && Fits(Some(task), t) && Fits(Some(session), s);
      AscendsSorted(log);
      SortedLog(log, l, t, s);
    }
  }

  lemma AscendsSorted(log: seq<Event>)
    requires Ascends(log)
    ensures SortedBefore(log)
  {
  }

  // ---- appends that store their event and raise ----

  predicate FreshEvent(event: Event) {
    event.sequence == 0 && !Blank(event.taskId) && !Blank(event.sessionId)
  }

  /** A core with one task, whose event ids are known. */
  predicate OneTask(logs: map<string, seq<Event>>, task: string, ids: set<string>) {
    logs.Keys <= {task} && forall e :: task in logs && e in logs[task] ==> e.id in ids
  }

  /** The append of an event with a new id. */
  method AppendNew(core: TaskEventCore, event: Event, ghost ids: set<string>) returns (r: AppendResult)
    requires core.Valid() && FreshEvent(event) && OneTask(core.logs, event.taskId, ids) && event.id !in ids
    modifies core
    ensures core.Valid() && OneTask(core.logs, event.taskId, ids + {event.id})
    ensures core.LogOf(event.taskId) ==
            old(core.LogOf(event.taskId)) + [event.(sequence := old(core.LatestOf(event.taskId)) + 1)]
    ensures core.LatestOf(event.taskId) == old(core.LatestOf(event.taskId)) + 1
    ensures core.Holes(event.taskId) == old(core.Holes(event.taskId))
    ensures r.Appended? || r.ProjectionError?
    ensures r.Appended? <==>
              old(core.Holes(event.taskId)) == 0 && old(core.OneSession(event.taskId, event.sessionId))
    ensures r.Appended? ==>
              event.taskId in core.checkpoints && core.checkpoints[event.taskId].sequence == |core.LogOf(event.taskId)|
  {
    hide ProjectEvents, Blank, Numbered, ValidLog;
    ghost var stored;
    r, stored := core.Append(event);
  }

  /** Two events of one session, appended one after the other. */
  method AppendBoth(a: Event, b: Event) returns (core: TaskEventCore)
    requires FreshEvent(a) && FreshEvent(b) && a.taskId == b.taskId && a.sessionId == b.sessionId && a.id != b.id
    ensures fresh(core) && core.Valid() && core.LogOf(a.taskId) == [a.(sequence := 1), b.(sequence := 2)]
    ensures a.taskId in core.checkpoints && core.checkpoints[a.taskId].sequence == 2
    ensures OneTask(core.logs, a.taskId, {a.id, b.id})
  {
    hide Blank, ProjectEvents, FreshEvent, ValidLog, TaskEventCore.Valid;
    core := new TaskEventCore();
    var r := AppendNew(core, a, {});
    assert core.LogOf(a.taskId) == [a.(sequence := 1)];
    r := AppendNew(core, b, {a.id});
    assert {} + {a.id} + {b.id} == {a.id, b.id};
  }

  /** Retention deletes the newest event, and then the append of the one before it is retried: the
      log is without a hole and of one session, and shorter than the one of the checkpoint. */
  method RetryAfterCompaction(a: Event, b: Event, cutoff: string, max: nat)
    returns (core: TaskEventCore, retried: AppendResult)
    requires FreshEvent(a) && FreshEvent(b) && a.taskId == b.taskId && a.sessionId == b.sessionId && a.id != b.id
    requires Terminal(a) && !Terminal(b) && TextLess(b.timestamp, cutoff)
    ensures core.Valid() && core.LogOf(a.taskId) == [a.(sequence := 1)] && retried == Superseded
    ensures a.taskId in core.checkpoints && core.checkpoints[a.taskId].sequence == 2
  {
    hide Terminal, Blank, ProjectEvents, TextLess, FreshEvent, ValidLog, TaskEventCore.Valid, Newest, Young, Thinned;
    core := AppendBoth(a, b);
    OldOneGoes(a, b, cutoff, max);
    var deleted := core.Compact(a.taskId, cutoff, max);
    FreshIds(a);
    assert core.logs[a.taskId][0].id == a.id;
    ghost var stored;
    retried, stored := core.Append(a);
  }

  lemma FreshIds(event: Event)
    requires FreshEvent(event)
    ensures !Blank(event.taskId) && !Blank(event.sessionId)
  {
  }

  lemma OldOneGoes(a: Event, b: Event, cutoff: string, max: nat)
    requires Terminal(a) && !Terminal(b) && TextLess(b.timestamp, cutoff)
    ensures Newest(Young([a.(sequence := 1), b.(sequence := 2)], cutoff), max) == [a.(sequence := 1)]
  {
    hide TextLess;
    var log := [a.(sequence := 1), b.(sequence := 2)];
    assert log[..1] == [log[0]] && [log[0]][..0] == [];
    assert Young([log[0]], cutoff) == [log[0]];
  }

  /** An event of another session is stored and raises, and so does the next one of any session. */
  method ForeignEventStays(a: Event, b: Event, c: Event)
    returns (core: TaskEventCore, foreign: AppendResult, next: AppendResult)
    requires FreshEvent(a) && FreshEvent(b) && FreshEvent(c) && a.taskId == b.taskId == c.taskId
    requires a.id != b.id && c.id !in {a.id, b.id} && a.sessionId != b.sessionId
    ensures core.LogOf(a.taskId) == [a.(sequence := 1), b.(sequence := 2), c.(sequence := 3)]
    ensures foreign.ProjectionError? && next.ProjectionError?
  {
    hide Blank, ProjectEvents, FreshEvent, ValidLog, TaskEventCore.Valid;
    core := new TaskEventCore();
    var r := AppendNew(core, a, {});
    assert core.LogOf(a.taskId) == [a.(sequence := 1)];
    foreign := AppendNew(core, b, {a.id});
    assert core.LogOf(a.taskId) == [a.(sequence := 1), b.(sequence := 2)];
    next := AppendNew(core, c, {a.id, b.id});
  }

  /** Retention deletes the only event, and the next append of the same session raises. */
  method HoleStays(a: Event, b: Event, cutoff: string, max: nat) returns (core: TaskEventCore, next: AppendResult)
    requires FreshEvent(a) && FreshEvent(b) && a.taskId == b.taskId && a.sessionId == b.sessionId && a.id != b.id
    requires !Terminal(a) && TextLess(a.timestamp, cutoff)
    ensures core.LogOf(a.taskId) == [b.(sequence := 2)] && next.ProjectionError?
  {
    hide Terminal, Blank, ProjectEvents, TextLess, FreshEvent, ValidLog, TaskEventCore.Valid, Newest, Young, Thinned;
    core := new TaskEventCore();
    var r := AppendNew(core, a, {});
    assert core.LogOf(a.taskId) == [a.(sequence := 1)];
    OnlyOneGoes(a, cutoff, max);
    var deleted := core.Compact(a.taskId, cutoff, max);
    next := AppendNew(core, b, {a.id});
  }

  lemma OnlyOneGoes(a: Event, cutoff: string, max: nat)
    requires !Terminal(a) && TextLess(a.timestamp, cutoff)
    ensures Newest(Young([a.(sequence := 1)], cutoff), max) == []
  {
    hide TextLess;
    var log := [a.(sequence := 1)];
    assert log[..0] == [];
    assert Young(log, cutoff) == [];
  }
}

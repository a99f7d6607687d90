/** The durable job queue: leases, fencing tokens, retries, cancellation and
    expiry recovery. One transaction is one atomic step on two tables. */
module Jobs {
  import opened Common
  import opened IsoTime

  datatype Status = Queued | Running | Retry | Completed | Failed | Cancelled

  /** A row of `durable_jobs`. Payload and result are canonical JSON texts. */
  datatype Job = Job(
    id: string, namespace: string, taskId: Option<string>, kind: string, key: string, payload: string,
    status: Status, priority: int, attempts: nat, maxAttempts: int, availableAt: Stamp,
    leaseOwner: Option<string>, leaseExpires: Option<Stamp>, token: nat, cancelRequested: bool,
    result: string, error: Option<string>, createdAt: Stamp, updatedAt: Stamp, completedAt: Option<Stamp>)
  {
    predicate Terminal() {
      status in {Completed, Failed, Cancelled}
    }
  }

  /** Both tables. A job without a counter has counter zero. */
  datatype Tables = Tables(jobs: map<string, Job>, counters: map<string, nat>) {
    function Counter(id: string): nat {
      if id in counters then counters[id] else 0
    }
  }

  datatype Error =
    | Closing | InvalidArgument | IdempotencyConflict | DuplicateId
    | DateOverflow | LeaseLost | NotRequested | UnknownJob

  datatype Outcome = Row(job: Job) | Nothing | Changed(count: nat) | Raised(error: Error)

  /** What a caller asks to enqueue; `newId` is the id used when none is given. */
  datatype Request = Request(
    id: Option<string>, newId: string, namespace: string, taskId: Option<string>, kind: string, key: string,
    payload: string, priority: int, maxAttempts: int, availableAt: Option<Stamp>)

  /** One call, with the clock reading it was given. Clocks may run backward. */
  datatype Op =
    | Enqueue(accepting: bool, request: Request, now: Stamp)
    | Claim(worker: string, namespace: string, ttl: real, kinds: seq<string>, now: Stamp)
    | Heartbeat(id: string, worker: string, token: int, ttl: real, now: Stamp)
    | Complete(id: string, worker: string, token: int, result: string, now: Stamp)
    | Fail(id: string, worker: string, token: int, error: string, retryable: bool, delay: real, now: Stamp)
    | Cancel(id: string, now: Stamp)
    | AcknowledgeCancel(id: string, worker: string, token: int, now: Stamp)
    | RecoverExpired(now: Stamp)

  // ---- row tests ----

  /** The WHERE clause of the claim query. */
  predicate Claimable(j: Job, namespace: string, kinds: seq<string>, now: Stamp) {
    && j.namespace == namespace && !j.cancelRequested && j.attempts < j.maxAttempts
    && SqlLe(j.availableAt, now)
    && (j.status in {Queued, Retry} || Expired(j, now))
    && (kinds == [] || j.kind in kinds)
  }

  /** `status = 'running' AND lease_expires_at <= ?`. */
  predicate Expired(j: Job, now: Stamp) {
    j.status == Running && j.leaseExpires.Some? && SqlLe(j.leaseExpires.value, now)
  }

  /** `ORDER BY priority DESC, created_at, job_id`. */
  predicate Precedes(a: Job, b: Job) {
    a.priority > b.priority
    || (a.priority == b.priority
        && (TextLess(Iso(a.createdAt), Iso(b.createdAt))
            || (Iso(a.createdAt) == Iso(b.createdAt) && TextLess(a.id, b.id))))
  }

  /** The lease test of `_require_current`, which compares instants. */
  predicate HeldBy(j: Job, worker: string, token: int, now: Stamp) {
    && j.status == Running && j.leaseOwner == Some(worker) && j.token == token
    && j.leaseExpires.Some? && Instant(j.leaseExpires.value) > Instant(now)
  }

  predicate Holds(s: Tables, id: string, worker: string, token: int, now: Stamp) {
    id in s.jobs && HeldBy(s.jobs[id], worker, token, now)
  }

  // ---- row updates ----

  function NewRow(r: Request, now: Stamp): Job {
    Job(if r.id.Some? && r.id.value != "" then r.id.value else r.newId,
        r.namespace, r.taskId, r.kind, r.key, r.payload, Queued, r.priority, 0, r.maxAttempts,
        if r.availableAt.Some? then r.availableAt.value else now,
        None, None, 0, false, "{}", None, now, now, None)
  }

  function Released(j: Job, status: Status, now: Stamp, completedAt: Option<Stamp>): Job {
    j.(status := status, leaseOwner := None, leaseExpires := None, updatedAt := now, completedAt := completedAt)
  }

  function RecoveredRow(j: Job, now: Stamp): Job {
    if j.cancelRequested then Released(j, Cancelled, now, Some(now))
    else if j.attempts < j.maxAttempts then Released(j, Retry, now, None)
    else Released(j, Failed, now, Some(now)).(error := Some("lease expired after final attempt"))
  }

  // ---- one transaction ----

  predicate SameRequest(j: Job, r: Request) {
    j.kind == r.kind && j.taskId == r.taskId && j.payload == r.payload && j.maxAttempts == r.maxAttempts
  }

  ghost predicate EnqueueStep(s: Tables, accepting: bool, r: Request, now: Stamp, out: Outcome, s': Tables) {
    var row := NewRow(r, now);
    if !accepting then out == Raised(Closing) && s' == s
    else if Blank(r.kind) || Blank(r.key) || Blank(r.namespace) || r.priority < 0 || r.maxAttempts < 1 then
      out == Raised(InvalidArgument) && s' == s
    else if exists id :: id in s.jobs && s.jobs[id].namespace == r.namespace && s.jobs[id].key == r.key then
      && s' == s
      && exists id :: id in s.jobs && s.jobs[id].namespace == r.namespace && s.jobs[id].key == r.key
           && out == if SameRequest(s.jobs[id], r) then Row(s.jobs[id]) else Raised(IdempotencyConflict)
    else if row.id in s.jobs then out == Raised(DuplicateId) && s' == s
    else out == Row(row) && s' == s.(jobs := s.jobs[row.id := row])
  }

  ghost predicate ClaimStep(s: Tables, worker: string, namespace: string, ttl: real, kinds: seq<string>, now: Stamp,
                            out: Outcome, s': Tables) {
    if Blank(worker) || Blank(namespace) || ttl <= 0.0 then out == Raised(InvalidArgument) && s' == s
    else if Later(now, ttl).None? then out == Raised(DateOverflow) && s' == s
    else if forall id :: id in s.jobs ==> !Claimable(s.jobs[id], namespace, kinds, now) then
      out == Nothing && s' == s
    else
      && out.Row? && out.job.id in s.jobs
      && var id := out.job.id; var j := s.jobs[id];
      && Claimable(j, namespace, kinds, now)
      && (forall i :: i in s.jobs && Claimable(s.jobs[i], namespace, kinds, now) ==> !Precedes(s.jobs[i], j))
      && out.job == j.(status := Running, attempts := j.attempts + 1, leaseOwner := Some(worker),
                       leaseExpires := Some(Later(now, ttl).value), token := out.job.token,
                       error := None, updatedAt := now)
      && out.job.token == 1 + (if s.Counter(id) > j.token then s.Counter(id) else j.token)
      && s' == Tables(s.jobs[id := out.job], s.counters[id := out.job.token])
  }

  ghost predicate Replaced(s: Tables, id: string, row: Job, out: Outcome, s': Tables) {
    out == Row(row) && s' == s.(jobs := s.jobs[id := row])
  }

  ghost predicate Refused(s: Tables, error: Error, out: Outcome, s': Tables) {
    out == Raised(error) && s' == s
  }

  function FailedRow(j: Job, error: string, retryable: bool, available: Stamp, now: Stamp): Job {
    var again := retryable && j.attempts < j.maxAttempts;
    Released(j, if again then Retry else Failed, now, if again then None else Some(now))
      .(error := Some(error), availableAt := available)
  }

  function CancelledRow(j: Job, now: Stamp): Job {
    if j.Terminal() then j
    else if j.status == Running then j.(cancelRequested := true, updatedAt := now)
    else j.(status := Cancelled, cancelRequested := true, completedAt := Some(now), updatedAt := now)
  }

  ghost predicate Next(s: Tables, op: Op, out: Outcome, s': Tables) {
    match op
    case Enqueue(accepting, r, now) => EnqueueStep(s, accepting, r, now, out, s')
    case Claim(worker, namespace, ttl, kinds, now) => ClaimStep(s, worker, namespace, ttl, kinds, now, out, s')
    case Heartbeat(id, worker, token, ttl, now) =>
      if ttl <= 0.0 then Refused(s, InvalidArgument, out, s')
      else if Later(now, ttl).None? then Refused(s, DateOverflow, out, s')
      else if !Holds(s, id, worker, token, now) || s.jobs[id].cancelRequested then Refused(s, LeaseLost, out, s')
      else Replaced(s, id, s.jobs[id].(leaseExpires := Later(now, ttl), updatedAt := now), out, s')
    case Complete(id, worker, token, result, now) =>
      if !Holds(s, id, worker, token, now) || s.jobs[id].cancelRequested then Refused(s, LeaseLost, out, s')
      else Replaced(s, id, Released(s.jobs[id], Completed, now, Some(now)).(result := result), out, s')
    case Fail(id, worker, token, error, retryable, delay, now) =>
      if Blank(error) || delay < 0.0 then Refused(s, InvalidArgument, out, s')
      else if !Holds(s, id, worker, token, now) || s.jobs[id].cancelRequested then Refused(s, LeaseLost, out, s')
      else if Later(now, delay).None? then Refused(s, DateOverflow, out, s')
      else Replaced(s, id, FailedRow(s.jobs[id], error, retryable, Later(now, delay).value, now), out, s')
    case Cancel(id, now) =>
      if id !in s.jobs then Refused(s, UnknownJob, out, s')
      else Replaced(s, id, CancelledRow(s.jobs[id], now), out, s')
    case AcknowledgeCancel(id, worker, token, now) =>
      if !Holds(s, id, worker, token, now) then Refused(s, LeaseLost, out, s')
      else if !s.jobs[id].cancelRequested then Refused(s, NotRequested, out, s')
      else Replaced(s, id, Released(s.jobs[id], Cancelled, now, Some(now)), out, s')
    case RecoverExpired(now) =>
      && out == Changed(|set id | id in s.jobs && Expired(s.jobs[id], now)|)
      && s' == s.(jobs := map id | id in s.jobs ::
                            if Expired(s.jobs[id], now) then RecoveredRow(s.jobs[id], now) else s.jobs[id])
  }

  // ---- what every reachable table satisfies ----

  ghost predicate RowInv(j: Job, counter: nat) {
    && j.attempts == j.token == counter && j.attempts <= j.maxAttempts && 1 <= j.maxAttempts && 0 <= j.priority
    && (j.status == Running <==> j.leaseOwner.Some?)
    && (j.leaseOwner.Some? <==> j.leaseExpires.Some?)
    && (j.Terminal() <==> j.completedAt.Some?)
    && (j.status == Cancelled <==> j.cancelRequested && j.status != Running)
  }

  ghost predicate Inv(s: Tables) {
    && s.counters.Keys <= s.jobs.Keys
    && (forall id :: id in s.jobs ==> s.jobs[id].id == id && RowInv(s.jobs[id], s.Counter(id)))
    && (forall a, b | a in s.jobs && b in s.jobs ::
          s.jobs[a].namespace == s.jobs[b].namespace && s.jobs[a].key == s.jobs[b].key ==> a == b)
  }

  /** Replacing one row by a well-formed one of the same identity. */
  lemma RowKeepsInv(s: Tables, id: string, row: Job, s': Tables)
    requires Inv(s) && id in s.jobs
    requires s'.jobs == s.jobs[id := row] && s'.counters.Keys <= s'.jobs.Keys
    requires forall i :: i in s.jobs && i != id ==> s'.Counter(i) == s.Counter(i)
    requires row.id == id && row.namespace == s.jobs[id].namespace && row.key == s.jobs[id].key
    requires RowInv(row, s'.Counter(id))
    ensures Inv(s')
  {
  }

  lemma EnqueueKeepsInv(s: Tables, accepting: bool, r: Request, now: Stamp, out: Outcome, s': Tables)
    requires Inv(s) && EnqueueStep(s, accepting, r, now, out, s')
    ensures Inv(s')
  {
  }

  lemma ClaimKeepsInv(s: Tables, worker: string, namespace: string, ttl: real, kinds: seq<string>, now: Stamp,
                      out: Outcome, s': Tables)
    requires Inv(s) && ClaimStep(s, worker, namespace, ttl, kinds, now, out, s')
    ensures Inv(s')
  {
    hide SqlLe, Later, Blank, Precedes;
    if out.Row? {
      RowKeepsInv(s, out.job.id, out.job, s');
    }
  }

  lemma RecoverKeepsInv(s: Tables, now: Stamp, s': Tables)
    requires Inv(s) && s'.counters == s.counters
    requires s'.jobs == map id | id in s.jobs ::
               if Expired(s.jobs[id], now) then RecoveredRow(s.jobs[id], now) else s.jobs[id]
    ensures Inv(s')
  {
    hide SqlLe, RowInv, Expired, RecoveredRow;
    assert s'.jobs.Keys == s.jobs.Keys;
    forall id | id in s.jobs
      ensures s'.jobs[id].id == id && RowInv(s'.jobs[id], s'.Counter(id))
      ensures s'.jobs[id].namespace == s.jobs[id].namespace && s'.jobs[id].key == s.jobs[id].key
    {
      if Expired(s.jobs[id], now) {
        RecoveredRowInv(s.jobs[id], s.Counter(id), now);
      }
    }
  }

  lemma RecoveredRowInv(j: Job, counter: nat, now: Stamp)
    requires RowInv(j, counter) && Expired(j, now)
    ensures RowInv(RecoveredRow(j, now), counter)
    ensures RecoveredRow(j, now).id == j.id
    ensures RecoveredRow(j, now).namespace == j.namespace && RecoveredRow(j, now).key == j.key
  {
  }

  lemma NextKeepsInv(s: Tables, op: Op, out: Outcome, s': Tables)
    requires Inv(s) && Next(s, op, out, s')
    ensures Inv(s')
  {
    hide SqlLe, Later, Instant, Blank, EnqueueStep, ClaimStep, RecoveredRow, Inv;
    match op
    case Enqueue(accepting, r, now) => EnqueueKeepsInv(s, accepting, r, now, out, s');
    case Claim(worker, namespace, ttl, kinds, now) => ClaimKeepsInv(s, worker, namespace, ttl, kinds, now, out, s');
    case RecoverExpired(now) => RecoverKeepsInv(s, now, s');
    case _ =>
      if s' != s {
        RowInvAt(s, op.id);
        RowKeepsInv(s, op.id, out.job, s');
      }
  }

  lemma RowInvAt(s: Tables, id: string)
    requires Inv(s)
    ensures s.counters.Keys <= s.jobs.Keys
    ensures id in s.jobs ==> s.jobs[id].id == id && RowInv(s.jobs[id], s.Counter(id))
  {
  }

  /** The two tables behind the queue, and this process's intake switch. */
  class DurableJobQueue {
    var jobs: map<string, Job>
    var counters: map<string, nat>
    var accepting: bool

    ghost function Db(): Tables
      reads this
    {
      Tables(jobs, counters)
    }

    ghost predicate Valid()
      reads this
    {
      Inv(Db())
    }

    constructor ()
      ensures Valid() && Db() == Tables(map[], map[]) && accepting
    {
      jobs, counters, accepting := map[], map[], true;
    }

    method EnqueueJob(r: Request, now: Stamp) returns (out: Outcome)
      requires Valid()
      modifies this`jobs
      ensures Valid() && Next(old(Db()), Enqueue(accepting, r, now), out, Db())
    {
      hide Inv, Blank, SameRequest;
      ghost var before := Db();
      if !accepting { return Raised(Closing); }
      if Blank(r.kind) || Blank(r.key) || Blank(r.namespace) { return Raised(InvalidArgument); }
      if r.priority < 0 || r.maxAttempts < 1 { return Raised(InvalidArgument); }
      if id :| id in jobs && jobs[id].namespace == r.namespace && jobs[id].key == r.key {
        return if SameRequest(jobs[id], r) then Row(jobs[id]) else Raised(IdempotencyConflict);
      }
      var row := NewRow(r, now);
      if row.id in jobs { return Raised(DuplicateId); }
      jobs := jobs[row.id := row];
      out := Row(row);
      NextKeepsInv(before, Enqueue(accepting, r, now), out, Db());
    }

    /** The claim query: the first claimable row in claim order. */
    method SelectClaimable(namespace: string, kinds: seq<string>, now: Stamp) returns (best: Option<Job>)
      requires Valid()
      ensures best.None? ==> forall id :: id in jobs ==> !Claimable(jobs[id], namespace, kinds, now)
      ensures best.Some? ==> best.value.id in jobs && best.value == jobs[best.value.id]
      ensures best.Some? ==> Claimable(best.value, namespace, kinds, now)
      ensures best.Some? ==> forall id :: id in jobs && Claimable(jobs[id], namespace, kinds, now)
                                          ==> !Precedes(jobs[id], best.value)
    {
      best := None;
      var rest := jobs.Keys;
      while rest != {}
        invariant rest <= jobs.Keys
        invariant best.None? ==> forall id :: id in jobs.Keys - rest ==> !Claimable(jobs[id], namespace, kinds, now)
        invariant best.Some? ==> best.value.id in jobs && best.value == jobs[best.value.id]
        invariant best.Some? ==> Claimable(best.value, namespace, kinds, now)
        invariant best.Some? ==> forall id :: id in jobs.Keys - rest && Claimable(jobs[id], namespace, kinds, now)
                                              ==> !Precedes(jobs[id], best.value)
      {
        var id :| id in rest;
        rest := rest - {id};
        if Claimable(jobs[id], namespace, kinds, now) {
          if best.None? || Precedes(jobs[id], best.value) {
            forall other | best.Some? && Precedes(jobs[id], best.value)
                           && other in jobs && Precedes(jobs[other], jobs[id])
              ensures Precedes(jobs[other], best.value)
            {
              PrecedesTransitive(jobs[other], jobs[id], best.value);
            }
            PrecedesTotal(jobs[id], jobs[id]);
            best := Some(jobs[id]);
          }
        }
      }
    }

    method ClaimJob(worker: string, namespace: string, ttl: real, kinds: seq<string>, now: Stamp) returns (out: Outcome)
      requires Valid()
      modifies this`jobs, this`counters
      ensures Valid() && Next(old(Db()), Claim(worker, namespace, ttl, kinds, now), out, Db())
    {
      hide Inv, SqlLe, Later, Blank, Precedes, Claimable;
      ghost var before := Db();
      if Blank(worker) || Blank(namespace) || ttl <= 0.0 { return Raised(InvalidArgument); }
      var expires := Later(now, ttl);
      if expires.None? { return Raised(DateOverflow); }
      var found := SelectClaimable(namespace, kinds, now);
      if found.None? { return Nothing; }
      var row := found.value;
      var last := if row.id in counters then counters[row.id] else 0;
      var token := 1 + if last > row.token then last else row.token;
      counters := counters[row.id := token];
      // UPDATE ... WHERE job_id = ? AND fencing_token = ? always finds its row.
      assert jobs[row.id].token == row.token;
      jobs := jobs[row.id := row.(status := Running, attempts := row.attempts + 1, leaseOwner := Some(worker),
                                  leaseExpires := expires, token := token, error := None, updatedAt := now)];
      out := Row(jobs[row.id]);
      NextKeepsInv(before, Claim(worker, namespace, ttl, kinds, now), out, Db());
    }

    /** `_require_current`. */
    method RequireCurrent(id: string, worker: string, token: int, now: Stamp, allowCancel: bool)
      returns (row: Option<Job>)
      ensures row == if Holds(Db(), id, worker, token, now) && (allowCancel || !jobs[id].cancelRequested)
                     then Some(jobs[id]) else None
    {
      if id !in jobs { return None; }
      var j := jobs[id];
      if j.status != Running || j.leaseOwner != Some(worker) || j.token != token { return None; }
      if j.leaseExpires.None? || Instant(j.leaseExpires.value) <= Instant(now) { return None; }
      if j.cancelRequested && !allowCancel { return None; }
      return Some(j);
    }

    method HeartbeatJob(id: string, worker: string, token: int, ttl: real, now: Stamp) returns (out: Outcome)
      requires Valid()
      modifies this`jobs
      ensures Valid() && Next(old(Db()), Heartbeat(id, worker, token, ttl, now), out, Db())
    {
      hide Inv, Later, Instant, Blank, HeldBy;
      ghost var before := Db();
      if ttl <= 0.0 { return Raised(InvalidArgument); }
      var expires := Later(now, ttl);
      if expires.None? { return Raised(DateOverflow); }
      var current := RequireCurrent(id, worker, token, now, false);
      if current.None? { return Raised(LeaseLost); }
      jobs := jobs[id := current.value.(leaseExpires := expires, updatedAt := now)];
      out := Row(jobs[id]);
      NextKeepsInv(before, Heartbeat(id, worker, token, ttl, now), out, Db());
    }

    method CompleteJob(id: string, worker: string, token: int, result: string, now: Stamp) returns (out: Outcome)
      requires Valid()
      modifies this`jobs
      ensures Valid() && Next(old(Db()), Complete(id, worker, token, result, now), out, Db())
    {
      hide Inv, Later, Instant, Blank, HeldBy;
      ghost var before := Db();
      var current := RequireCurrent(id, worker, token, now, false);
      if current.None? { return Raised(LeaseLost); }
      jobs := jobs[id := current.value.(status := Completed, result := result, leaseOwner := None,
                                        leaseExpires := None, updatedAt := now, completedAt := Some(now))];
      out := Row(jobs[id]);
      NextKeepsInv(before, Complete(id, worker, token, result, now), out, Db());
    }

    method FailJob(id: string, worker: string, token: int, error: string, retryable: bool, delay: real, now: Stamp)
      returns (out: Outcome)
      requires Valid()
      modifies this`jobs
      ensures Valid() && Next(old(Db()), Fail(id, worker, token, error, retryable, delay, now), out, Db())
    {
      hide Inv, Later, Instant, Blank, HeldBy;
      ghost var before := Db();
      if Blank(error) || delay < 0.0 { return Raised(InvalidArgument); }
      var current := RequireCurrent(id, worker, token, now, false);
      if current.None? { return Raised(LeaseLost); }
      var row := current.value;
      var shouldRetry := retryable && row.attempts < row.maxAttempts;
      var available := Later(now, delay);
      if available.None? { return Raised(DateOverflow); }
      jobs := jobs[id := row.(status := if shouldRetry then Retry else Failed, error := Some(error),
                              availableAt := available.value, leaseOwner := None, leaseExpires := None,
                              updatedAt := now, completedAt := if shouldRetry then None else Some(now))];
      out := Row(jobs[id]);
      NextKeepsInv(before, Fail(id, worker, token, error, retryable, delay, now), out, Db());
    }

    method CancelJob(id: string, now: Stamp) returns (out: Outcome)
      requires Valid()
      modifies this`jobs
      ensures Valid() && Next(old(Db()), Cancel(id, now), out, Db())
    {
      hide Inv, Later, Instant, Blank, HeldBy;
      ghost var before := Db();
      if id !in jobs { return Raised(UnknownJob); }
      var row := jobs[id];
      if row.Terminal() {
        assert jobs == jobs[id := row];
        return Row(row);
      }
      if row.status == Running {
        jobs := jobs[id := row.(cancelRequested := true, updatedAt := now)];
      } else {
        jobs := jobs[id := row.(status := Cancelled, cancelRequested := true,
                                completedAt := Some(now), updatedAt := now)];
      }
      out := Row(jobs[id]);
      NextKeepsInv(before, Cancel(id, now), out, Db());
    }

    method AcknowledgeCancelJob(id: string, worker: string, token: int, now: Stamp) returns (out: Outcome)
      requires Valid()
      modifies this`jobs
      ensures Valid() && Next(old(Db()), AcknowledgeCancel(id, worker, token, now), out, Db())
    {
      hide Inv, Later, Instant, Blank, HeldBy;
      ghost var before := Db();
      var current := RequireCurrent(id, worker, token, now, true);
      if current.None? { return Raised(LeaseLost); }
      if !current.value.cancelRequested { return Raised(NotRequested); }
      jobs := jobs[id := current.value.(status := Cancelled, leaseOwner := None, leaseExpires := None,
                                        completedAt := Some(now), updatedAt := now)];
      out := Row(jobs[id]);
      NextKeepsInv(before, AcknowledgeCancel(id, worker, token, now), out, Db());
    }

    method RecoverRow(id: string, now: Stamp)
      requires id in jobs
      modifies this`jobs
      ensures jobs == old(jobs)[id := RecoveredRow(old(jobs[id]), now)]
    {
      var row := jobs[id];
      var status := if row.cancelRequested then Cancelled
                    else if row.attempts < row.maxAttempts then Retry else Failed;
      var error := if status == Failed then Some("lease expired after final attempt") else row.error;
      jobs := jobs[id := row.(status := status, leaseOwner := None, leaseExpires := None, error := error,
                              updatedAt := now, completedAt := if status == Retry then None else Some(now))];
    }

    method RecoverExpiredJobs(now: Stamp) returns (out: Outcome)
      requires Valid()
      modifies this`jobs
      ensures Valid() && Next(old(Db()), RecoverExpired(now), out, Db())
    {
      hide Inv, Next, RecoveredRow, Expired;
      ghost var s := Db();
      var rows := set id | id in jobs && Expired(jobs[id], now);
      ghost var all := rows;
      var changed := 0;
      while rows != {}
        invariant rows <= all && changed == |all| - |rows|
        invariant jobs.Keys == s.jobs.Keys
        invariant forall id :: id in s.jobs ==>
                    jobs[id] == if id in all && id !in rows then RecoveredRow(s.jobs[id], now) else s.jobs[id]
      {
        var id :| id in rows;
        rows := rows - {id};
        RecoverRow(id, now);
        changed := changed + 1;
      }
      RecoverDone(s, now, all, jobs);
      return Changed(changed);
    }

    method StopAccepting()
      modifies this`accepting
      ensures !accepting
    {
      accepting := false;
    }
  }

  lemma RecoverDone(s: Tables, now: Stamp, expired: set<string>, jobs: map<string, Job>)
    requires Inv(s) && jobs.Keys == s.jobs.Keys && expired == set id | id in s.jobs && Expired(s.jobs[id], now)
    requires forall id :: id in s.jobs ==>
               jobs[id] == if id in expired then RecoveredRow(s.jobs[id], now) else s.jobs[id]
    ensures Next(s, RecoverExpired(now), Changed(|expired|), s.(jobs := jobs)) && Inv(s.(jobs := jobs))
  {
    var s' := s.(jobs := jobs);
    assert Next(s, RecoverExpired(now), Changed(|expired|), s') by {
      hide RecoveredRow, Expired, Inv;
      assert jobs == map id | id in s.jobs ::
        if Expired(s.jobs[id], now) then RecoveredRow(s.jobs[id], now) else s.jobs[id];
    }
    hide Next, Inv, RecoveredRow, Expired;
    NextKeepsInv(s, RecoverExpired(now), Changed(|expired|), s');
  }

  lemma PrecedesTransitive(a: Job, b: Job, c: Job)
    requires Precedes(a, b) && Precedes(b, c)
    ensures Precedes(a, c)
  {
    var x, y, z := Iso(a.createdAt), Iso(b.createdAt), Iso(c.createdAt);
    if TextLess(x, y) && TextLess(y, z) {
      TextTransitive(x, y, z);
    }
    if TextLess(a.id, b.id) && TextLess(b.id, c.id) {
      TextTransitive(a.id, b.id, c.id);
    }
  }

  lemma PrecedesTotal(a: Job, b: Job)
    ensures Precedes(a, b) || Precedes(b, a) || a.id == b.id
    ensures !Precedes(a, b) || !Precedes(b, a)
  {
    TextTrichotomy(Iso(a.createdAt), Iso(b.createdAt));
    TextTrichotomy(a.id, b.id);
  }
}

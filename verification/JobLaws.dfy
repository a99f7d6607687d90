/** What claims, leases, retries and cancellation mean for a caller, told in fields and instants over
    whole runs. Where times are compared, the clocks of the run show one UTC offset. */
module JobLaws {
  import opened Common
  import opened IsoTime
  import opened Jobs
  import opened JobRuns

  // ---- runs on clocks of one offset ----

  predicate Shows(t: Option<Stamp>, offset: int) {
    t.Some? ==> t.value.offset == offset
  }

  ghost predicate OneClock(calls: seq<Call>, offset: int) {
    forall k :: 0 <= k < |calls| ==>
      && calls[k].op.now.offset == offset
      && (calls[k].op.Enqueue? ==> Shows(calls[k].op.request.availableAt, offset))
  }

  predicate RowClock(j: Job, offset: int) {
    j.availableAt.offset == offset && j.createdAt.offset == offset && Shows(j.leaseExpires, offset)
  }

  ghost predicate Clocked(s: Tables, offset: int) {
    forall id :: id in s.jobs ==> RowClock(s.jobs[id], offset)
  }

  lemma StepClocked(s: Tables, op: Op, out: Outcome, s': Tables, offset: int)
    requires Next(s, op, out, s') && Clocked(s, offset) && op.now.offset == offset
    requires op.Enqueue? ==> Shows(op.request.availableAt, offset)
    ensures Clocked(s', offset)
  {
    hide SqlLe, Instant, Blank, Precedes, HeldBy, Claimable, Expired, SameRequest, RowClock;
    if op.Enqueue? {
      hide ClaimStep, RecoveredRow, FailedRow, CancelledRow;
      NewRowClocked(op.request, op.now, offset);
    } else {
      hide EnqueueStep;
      forall id | id in s'.jobs
        ensures RowClock(s'.jobs[id], offset)
      {
        RowStepClocked(s, op, out, s', id, offset);
      }
    }
  }

  lemma NewRowClocked(r: Request, now: Stamp, offset: int)
    requires now.offset == offset && Shows(r.availableAt, offset)
    ensures RowClock(NewRow(r, now), offset)
  {
  }

  lemma RowStepClocked(s: Tables, op: Op, out: Outcome, s': Tables, id: string, offset: int)
    requires Next(s, op, out, s') && !op.Enqueue? && Clocked(s, offset) && op.now.offset == offset && id in s'.jobs
    ensures RowClock(s'.jobs[id], offset)
  {
    if op.RecoverExpired? || op.Claim? {
      hide *;
      SystemStepClocked(s, op, out, s', id, offset);
    } else {
      hide SqlLe, Instant, Blank, Precedes, HeldBy, Claimable, Expired, EnqueueStep, ClaimStep, RecoveredRow, RowClock;
      if s' != s && id == op.id {
        hide Next;
        WorkerStepClocked(s, op, out, s', offset);
      }
    }
  }

  lemma SystemStepClocked(s: Tables, op: Op, out: Outcome, s': Tables, id: string, offset: int)
    requires op.RecoverExpired? || op.Claim?
    requires Next(s, op, out, s') && Clocked(s, offset) && op.now.offset == offset && id in s'.jobs
    ensures RowClock(s'.jobs[id], offset)
  {
    hide SqlLe, Instant, Blank, Precedes, HeldBy, Claimable, Expired, EnqueueStep, FailedRow, CancelledRow;
  }

  lemma WorkerStepClocked(s: Tables, op: Op, out: Outcome, s': Tables, offset: int)
    requires ByToken(op) || op.Complete? || op.Cancel?
    requires Next(s, op, out, s') && Clocked(s, offset) && op.now.offset == offset && s' != s
    ensures op.id in s'.jobs && RowClock(s'.jobs[op.id], offset)
  {
    hide SqlLe, Instant, Blank, Precedes, HeldBy, Claimable, Expired, EnqueueStep, ClaimStep, RecoveredRow;
  }

  lemma {:induction false} RunClocked(states: seq<Tables>, calls: seq<Call>, offset: int, k: nat)
    requires IsRun(states, calls) && OneClock(calls, offset) && k < |states|
    ensures Clocked(states[k], offset)
  {
    hide Next;
    if k > 0 {
      RunClocked(states, calls, offset, k - 1);
      StepClocked(states[k - 1], calls[k - 1].op, calls[k - 1].out, states[k], offset);
    }
  }

  // ---- claims ----

  /** The job may be run at this instant: it is due, uncancelled, has an attempt left, and waits or
      has lost its worker. */
  predicate MayRun(j: Job, namespace: string, kinds: seq<string>, instant: int) {
    && j.namespace == namespace && (|kinds| > 0 ==> j.kind in kinds)
    && !j.cancelRequested && j.attempts < j.maxAttempts
    && Instant(j.availableAt) <= instant
    && match j.status
       case Queued => true
       case Retry => true
       case Running => j.leaseExpires.Some? && Instant(j.leaseExpires.value) <= instant
       case _ => false
  }

  /** A claim that is not refused takes a job that may run, the one of highest priority and among
      those the oldest; and it takes none only when none may run. */
  lemma ClaimExactly(states: seq<Tables>, calls: seq<Call>, k: nat, offset: int)
    requires IsRun(states, calls) && OneClock(calls, offset) && k < |calls| && calls[k].op.Claim?
    ensures var op, out, jobs := calls[k].op, calls[k].out, states[k].jobs;
            && (out.Raised? <==>
                  Blank(op.worker) || Blank(op.namespace) || op.ttl <= 0.0 || Later(op.now, op.ttl).None?)
            && (out == Nothing || out.Row? || out.Raised?)
            && (out == Nothing ==>
                  forall id :: id in jobs ==> !MayRun(jobs[id], op.namespace, op.kinds, Instant(op.now)))
            && (out.Row? ==>
                  && out.job.id in jobs
                  && var j := jobs[out.job.id];
                  && MayRun(j, op.namespace, op.kinds, Instant(op.now))
                  && forall id :: id in jobs && MayRun(jobs[id], op.namespace, op.kinds, Instant(op.now)) ==>
                       || jobs[id].priority < j.priority
                       || (jobs[id].priority == j.priority && Instant(jobs[id].createdAt) > Instant(j.createdAt))
                       || (jobs[id].priority == j.priority && Instant(jobs[id].createdAt) == Instant(j.createdAt)
                           && !TextLess(id, j.id)))
  {
    var op, out, s := calls[k].op, calls[k].out, states[k];
    assert Next(s, op, out, states[k + 1]);
    RunClocked(states, calls, offset, k);
    RunInv(states, calls, k);
    hide MayRun, Claimable, Precedes, Instant, Later, Blank, Inv, Clocked;
    forall id | id in s.jobs
      ensures Claimable(s.jobs[id], op.namespace, op.kinds, op.now)
         <==> MayRun(s.jobs[id], op.namespace, op.kinds, Instant(op.now))
      ensures out.Row? && !Precedes(s.jobs[id], s.jobs[out.job.id]) ==>
                var j := s.jobs[out.job.id];
                || s.jobs[id].priority < j.priority
                || (s.jobs[id].priority == j.priority && Instant(s.jobs[id].createdAt) > Instant(j.createdAt))
                || (s.jobs[id].priority == j.priority && Instant(s.jobs[id].createdAt) == Instant(j.createdAt)
                    && !TextLess(id, j.id))
    {
      RowAt(s, id, offset);
      ClaimableMeans(s.jobs[id], op.namespace, op.kinds, op.now);
      if out.Row? {
        RowAt(s, out.job.id, offset);
        PrecedesMeans(s.jobs[id], s.jobs[out.job.id]);
      }
    }
  }

  lemma RowAt(s: Tables, id: string, offset: int)
    requires Clocked(s, offset) && Inv(s) && id in s.jobs
    ensures RowClock(s.jobs[id], offset) && s.jobs[id].id == id
  {
    hide RowClock;
  }

  lemma ClaimableMeans(j: Job, namespace: string, kinds: seq<string>, now: Stamp)
    requires RowClock(j, now.offset)
    ensures Claimable(j, namespace, kinds, now) <==> MayRun(j, namespace, kinds, Instant(now))
  {
    hide SqlLe, Instant;
    SqlLeMeans(j.availableAt, now);
    if j.leaseExpires.Some? {
      SqlLeMeans(j.leaseExpires.value, now);
    }
  }

  lemma SqlLeMeans(a: Stamp, b: Stamp)
    requires a.offset == b.offset
    ensures SqlLe(a, b) <==> Instant(a) <= Instant(b)
  {
    hide TextLess, Iso, Instant;
    IsoOrder(b, a);
  }

  lemma PrecedesMeans(a: Job, b: Job)
    requires a.createdAt.offset == b.createdAt.offset
    ensures !Precedes(a, b) ==>
      || a.priority < b.priority
      || (a.priority == b.priority && Instant(a.createdAt) > Instant(b.createdAt))
      || (a.priority == b.priority && Instant(a.createdAt) == Instant(b.createdAt) && !TextLess(a.id, b.id))
  {
    IsoOrder(a.createdAt, b.createdAt);
    IsoOrder(b.createdAt, a.createdAt);
    TextTrichotomy(Iso(a.createdAt), Iso(b.createdAt));
    hide TextLess, Iso, Instant;
  }

  // ---- retries ----

  predicate Fails(c: Call, id: string) {
    c.op.Fail? && c.op.id == id && c.out.Row?
  }

  /** `now + timedelta(seconds)`, to half a microsecond. */
  predicate About(instant: int, from: int, seconds: real) {
    -0.5 <= (instant - from) as real - seconds * 1_000_000.0 <= 0.5
  }

  lemma LaterIsAbout(t: Stamp, seconds: real)
    ensures Later(t, seconds).Some? ==> About(Instant(Later(t, seconds).value), Instant(t), seconds)
  {
    Rounds(seconds * 1_000_000.0);
    hide RoundHalfEven;
  }

  lemma Rounds(x: real)
    ensures -0.5 <= RoundHalfEven(x) as real - x <= 0.5
  {
  }

  /** A failed attempt is repeated if and only if that was asked for and an attempt is left. */
  lemma FailExactly(states: seq<Tables>, calls: seq<Call>, k: nat, id: string)
    requires IsRun(states, calls) && k < |calls| && Fails(calls[k], id)
    ensures id in states[k].jobs && id in states[k + 1].jobs
    ensures var op, was, now := calls[k].op, states[k].jobs[id], states[k + 1].jobs[id];
            && now.status == (if op.retryable && was.attempts < was.maxAttempts then Retry else Failed)
            && now.error == Some(op.error) && now.leaseOwner == None && now.leaseExpires == None
            && now.attempts == was.attempts && now.maxAttempts == was.maxAttempts
            && now.cancelRequested == was.cancelRequested == false
            && About(Instant(now.availableAt), Instant(op.now), op.delay) && op.delay >= 0.0
            && now == calls[k].out.job
  {
    var op := calls[k].op;
    assert Next(states[k], op, calls[k].out, states[k + 1]);
    LaterIsAbout(op.now, op.delay);
    hide Later, Instant, Blank, About, HeldBy;
  }

  /** Only a failed attempt moves the time from which a job may run. */
  lemma {:induction false} AvailabilityStays(states: seq<Tables>, calls: seq<Call>, i: nat, k: nat, id: string)
    requires IsRun(states, calls) && i <= k < |states| && id in states[i].jobs
    requires forall m :: i <= m < k ==> !Fails(calls[m], id)
    ensures id in states[k].jobs && states[k].jobs[id].availableAt == states[i].jobs[id].availableAt
    decreases k - i
  {
    hide *;
    RunShape(states, calls);
    if i < k {
      AvailabilityStays(states, calls, i, k - 1, id);
      NextAt(states, calls, k);
      assert calls[k - 1] == Call(calls[k - 1].op, calls[k - 1].out);
      AvailabilityStep(states[k - 1], calls[k - 1].op, calls[k - 1].out, states[k], id);
    }
  }

  lemma AvailabilityStep(s: Tables, op: Op, out: Outcome, s': Tables, id: string)
    requires Next(s, op, out, s') && id in s.jobs && !Fails(Call(op, out), id)
    ensures id in s'.jobs && s'.jobs[id].availableAt == s.jobs[id].availableAt
  {
    hide SqlLe, Instant, Blank, Precedes, HeldBy, Claimable, Expired, SameRequest, Later;
  }

  /** After a failed attempt, no claim of the job succeeds before the delay is over. */
  lemma RetryWaits(states: seq<Tables>, calls: seq<Call>, i: nat, k: nat, id: string, offset: int)
    requires IsRun(states, calls) && OneClock(calls, offset) && i < k < |calls|
    requires Fails(calls[i], id) && Claims(calls[k], id) && forall m :: i < m < k ==> !Fails(calls[m], id)
    ensures (Instant(calls[k].op.now) - Instant(calls[i].op.now)) as real >= calls[i].op.delay * 1_000_000.0 - 0.5
  {
    hide Next, Inv;
    FailExactly(states, calls, i, id);
    AvailabilityStays(states, calls, i + 1, k, id);
    ClaimExactly(states, calls, k, offset);
  }

  /** And once it is over, a claim in its namespace that is not refused finds something to run. */
  lemma RetryReturns(states: seq<Tables>, calls: seq<Call>, i: nat, k: nat, id: string, offset: int)
    requires IsRun(states, calls) && OneClock(calls, offset) && i < k < |calls| && Fails(calls[i], id)
    requires calls[i].out.job.status == Retry
    requires id in states[k].jobs && states[k].jobs[id] == calls[i].out.job
    requires calls[k].op.Claim? && calls[k].op.namespace == states[k].jobs[id].namespace && calls[k].op.kinds == []
    requires (Instant(calls[k].op.now) - Instant(calls[i].op.now)) as real >= calls[i].op.delay * 1_000_000.0 + 0.5
    ensures calls[k].out != Nothing
  {
    hide Next, Inv;
    FailExactly(states, calls, i, id);
    ClaimExactly(states, calls, k, offset);
    assert MayRun(states[k].jobs[id], calls[k].op.namespace, [], Instant(calls[k].op.now));
  }

  // ---- leases ----

  /** The last claim of the job before call `k` was call `i`. */
  ghost predicate LastClaim(calls: seq<Call>, i: nat, k: nat, id: string) {
    i < k <= |calls| && Claims(calls[i], id) && forall m :: i < m < k ==> !Claims(calls[m], id)
  }

  /** A running job belongs to the worker that claimed it last, under the token of that claim. */
  lemma {:induction false} OwnerClaimedLast(states: seq<Tables>, calls: seq<Call>, k: nat, id: string) returns (i: nat)
    requires IsRun(states, calls) && k < |states| && id in states[k].jobs && states[k].jobs[id].status == Running
    ensures LastClaim(calls, i, k, id) && calls[i].out.job.token == states[k].jobs[id].token
    ensures states[k].jobs[id].leaseOwner == Some(calls[i].op.worker)
  {
    hide Next;
    if Claims(calls[k - 1], id) {
      i := k - 1;
      ClaimedRow(states[k - 1], calls[k - 1].op, calls[k - 1].out, states[k], id);
    } else {
      RunInv(states, calls, k - 1);
      StillRuns(states[k - 1], calls[k - 1].op, calls[k - 1].out, states[k], id);
      hide Inv;
      i := OwnerClaimedLast(states, calls, k - 1, id);
    }
  }

  lemma ClaimedRow(s: Tables, op: Op, out: Outcome, s': Tables, id: string)
    requires Next(s, op, out, s') && Claims(Call(op, out), id)
    ensures id in s.jobs && id in s'.jobs && s'.jobs[id] == out.job && out.job.leaseOwner == Some(op.worker)
    ensures out.job.status == Running && out.job.leaseExpires.Some? && op.ttl > 0.0
    ensures About(Instant(out.job.leaseExpires.value), Instant(op.now), op.ttl)
    ensures out.job.attempts == s.jobs[id].attempts + 1
    ensures out.job.cancelRequested == s.jobs[id].cancelRequested == false
  {
    LaterIsAbout(op.now, op.ttl);
    hide SqlLe, Instant, Blank, Precedes, Later, About, HeldBy, Expired;
  }

  lemma StillRuns(s: Tables, op: Op, out: Outcome, s': Tables, id: string)
    requires Inv(s) && Next(s, op, out, s') && !Claims(Call(op, out), id)
    requires id in s'.jobs && s'.jobs[id].status == Running
    ensures id in s.jobs && s.jobs[id].status == Running
    ensures s.jobs[id].token == s'.jobs[id].token && s.jobs[id].leaseOwner == s'.jobs[id].leaseOwner
  {
    hide SqlLe, Instant, Blank, Precedes, Later, Expired, SameRequest, Inv;
    if op.Claim? {
      hide HeldBy;
    }
  }

  predicate Succeeds(c: Call, id: string) {
    ByToken(c.op) && c.op.id == id && c.out.Row?
  }

  /** Whoever extends, finishes or gives up a job is the worker of its last claim, with the token of
      that claim, before the lease has run out. */
  lemma OnlyTheHolder(states: seq<Tables>, calls: seq<Call>, k: nat, id: string) returns (i: nat)
    requires IsRun(states, calls) && k < |calls| && Succeeds(calls[k], id)
    ensures LastClaim(calls, i, k, id)
    ensures calls[k].op.worker == calls[i].op.worker && calls[k].op.token == calls[i].out.job.token
    ensures id in states[k].jobs && states[k].jobs[id].leaseExpires.Some?
    ensures Instant(calls[k].op.now) < Instant(states[k].jobs[id].leaseExpires.value)
  {
    assert Next(states[k], calls[k].op, calls[k].out, states[k + 1]);
    HolderFields(states[k], calls[k].op, calls[k].out, states[k + 1]);
    hide Next, Instant;
    i := OwnerClaimedLast(states, calls, k, id);
  }

  lemma HolderFields(s: Tables, op: Op, out: Outcome, s': Tables)
    requires Next(s, op, out, s') && ByToken(op) && out.Row?
    ensures op.id in s.jobs && s.jobs[op.id].status == Running && s.jobs[op.id].leaseOwner == Some(op.worker)
    ensures s.jobs[op.id].token == op.token && s.jobs[op.id].leaseExpires.Some?
    ensures Instant(s.jobs[op.id].leaseExpires.value) > Instant(op.now)
    ensures op.AcknowledgeCancel? || !s.jobs[op.id].cancelRequested
  {
    hide Instant, Blank, Later;
  }

  /** A lease lasts for its time, and no longer: while nothing else has touched the job since its
      claim, completing it succeeds if and only if worker and token are those of the claim and the
      time granted is not over. */
  lemma LeaseExactly(states: seq<Tables>, calls: seq<Call>, i: nat, k: nat, id: string) returns (expiry: int)
    requires IsRun(states, calls) && i < k < |calls| && Claims(calls[i], id)
    requires id in states[k].jobs && states[k].jobs[id] == calls[i].out.job
    requires calls[k].op.Complete? && calls[k].op.id == id
    ensures About(expiry, Instant(calls[i].op.now), calls[i].op.ttl)
    ensures calls[k].out.Row? <==>
      && calls[k].op.worker == calls[i].op.worker && calls[k].op.token == calls[i].out.job.token
      && Instant(calls[k].op.now) < expiry
    ensures calls[k].out.Row? ==>
      && id in states[k + 1].jobs && states[k + 1].jobs[id].status == Completed
      && states[k + 1].jobs[id].result == calls[k].op.result
      && states[k + 1].jobs[id].leaseOwner == None
    ensures !calls[k].out.Row? ==> calls[k].out == Raised(LeaseLost) && states[k + 1] == states[k]
  {
    assert calls[i].op.Claim? && calls[i].out.Row? && Claims(Call(calls[i].op, calls[i].out), id);
    hide *;
    RunShape(states, calls);
    NextAt(states, calls, i + 1);
    NextAt(states, calls, k + 1);
    ClaimedRow(states[i], calls[i].op, calls[i].out, states[i + 1], id);
    expiry := Instant(calls[i].out.job.leaseExpires.value);
    CompleteStep(states[k], calls[k].op, calls[k].out, states[k + 1]);
  }

  lemma CompleteStep(s: Tables, op: Op, out: Outcome, s': Tables)
    requires Next(s, op, out, s') && op.Complete? && op.id in s.jobs
    requires s.jobs[op.id].status == Running && s.jobs[op.id].leaseExpires.Some? && !s.jobs[op.id].cancelRequested
    ensures var j := s.jobs[op.id];
            && (out.Row? <==> Some(op.worker) == j.leaseOwner && op.token == j.token
                              && Instant(op.now) < Instant(j.leaseExpires.value))
            && (out.Row? ==> op.id in s'.jobs && s'.jobs[op.id].status == Completed
                             && s'.jobs[op.id].result == op.result && s'.jobs[op.id].leaseOwner == None)
            && (!out.Row? ==> out == Raised(LeaseLost) && s' == s)
  {
    hide Instant, Later;
  }

  /** A heartbeat grants the time anew, counted from the call. */
  lemma HeartbeatExtends(states: seq<Tables>, calls: seq<Call>, k: nat, id: string)
    requires IsRun(states, calls) && k < |calls| && calls[k].op.Heartbeat? && Succeeds(calls[k], id)
    ensures id in states[k].jobs && id in states[k + 1].jobs && states[k + 1].jobs[id].leaseExpires.Some?
    ensures About(Instant(states[k + 1].jobs[id].leaseExpires.value), Instant(calls[k].op.now), calls[k].op.ttl)
    ensures states[k + 1].jobs[id].status == Running && calls[k].op.ttl > 0.0
    ensures states[k + 1].jobs[id].token == states[k].jobs[id].token
    ensures states[k + 1].jobs[id].leaseOwner == states[k].jobs[id].leaseOwner
  {
    assert Next(states[k], calls[k].op, calls[k].out, states[k + 1]);
    LaterIsAbout(calls[k].op.now, calls[k].op.ttl);
    hide Instant, Later, About;
  }

  // ---- cancellation and recovery ----

  /** The job was cancelled, or its cancellation waits for its worker, or it had ended before. */
  predicate Stopped(j: Job) {
    j.Terminal() || (j.status == Running && j.cancelRequested)
  }

  lemma StoppedStep(s: Tables, op: Op, out: Outcome, s': Tables, id: string)
    requires Inv(s) && Next(s, op, out, s') && id in s.jobs && Stopped(s.jobs[id])
    ensures id in s'.jobs && Stopped(s'.jobs[id])
    ensures !Claims(Call(op, out), id)
    ensures Succeeds(Call(op, out), id) ==> op.AcknowledgeCancel? && s'.jobs[id].status == Cancelled
    ensures !s.jobs[id].Terminal() ==> s'.jobs[id].status in {Running, Cancelled}
    ensures s.jobs[id].Terminal() ==> s'.jobs[id] == s.jobs[id]
  {
    hide SqlLe, Instant, Blank, Precedes, Later, SameRequest, Inv;
    if s.jobs[id].Terminal() {
      RowMoves(s, op, out, s', id);
    }
  }

  lemma {:induction false} StaysStopped(states: seq<Tables>, calls: seq<Call>, i: nat, k: nat, id: string)
    requires IsRun(states, calls) && i <= k < |states| && id in states[i].jobs && Stopped(states[i].jobs[id])
    ensures id in states[k].jobs && Stopped(states[k].jobs[id])
    ensures !states[i].jobs[id].Terminal() ==> states[k].jobs[id].status in {Running, Cancelled}
    ensures states[i].jobs[id].Terminal() ==> states[k].jobs[id] == states[i].jobs[id]
    decreases k - i
  {
    hide Next, Inv;
    if i < k {
      StaysStopped(states, calls, i, k - 1, id);
      RunInv(states, calls, k - 1);
      StoppedStep(states[k - 1], calls[k - 1].op, calls[k - 1].out, states[k], id);
    }
  }

  /** Once a cancellation was accepted, the job is never claimed, extended, completed or failed again;
      what had not ended by then ends cancelled, if at all. */
  lemma CancelStops(states: seq<Tables>, calls: seq<Call>, i: nat, k: nat, id: string)
    requires IsRun(states, calls) && i < k < |calls| && calls[i].op.Cancel? && calls[i].op.id == id && calls[i].out.Row?
    ensures id in states[i].jobs && id in states[k].jobs
    ensures !Claims(calls[k], id) && (Succeeds(calls[k], id) ==> calls[k].op.AcknowledgeCancel?)
    ensures !states[i].jobs[id].Terminal() && states[k].jobs[id].Terminal() ==> states[k].jobs[id].status == Cancelled
    ensures states[i].jobs[id].status in {Queued, Retry} ==> states[k].jobs[id].status == Cancelled
    ensures states[i].jobs[id].Terminal() ==> states[k].jobs[id] == states[i].jobs[id]
  {
    hide Inv;
    assert Next(states[i], calls[i].op, calls[i].out, states[i + 1]);
    hide Next;
    StaysStopped(states, calls, i + 1, k, id);
    RunInv(states, calls, k);
    StoppedStep(states[k], calls[k].op, calls[k].out, states[k + 1], id);
  }

  /** Recovery ends the leases that have run out, and no other: the job is repeated while an attempt
      is left, and otherwise failed, unless its cancellation was waiting. */
  lemma RecoveryExactly(states: seq<Tables>, calls: seq<Call>, k: nat, id: string, offset: int)
    requires IsRun(states, calls) && OneClock(calls, offset) && k < |calls|
    requires calls[k].op.RecoverExpired? && id in states[k].jobs
    ensures id in states[k + 1].jobs
    ensures var was, now := states[k].jobs[id], states[k + 1].jobs[id];
            if was.status == Running && was.leaseExpires.Some?
               && Instant(was.leaseExpires.value) <= Instant(calls[k].op.now) then
              && now.leaseOwner == None && now.leaseExpires == None && now.attempts == was.attempts
              && now.status == (if was.cancelRequested then Cancelled
                                else if was.attempts < was.maxAttempts then Retry else Failed)
            else now == was
  {
    assert Next(states[k], calls[k].op, calls[k].out, states[k + 1]);
    RunClocked(states, calls, offset, k);
    RunInv(states, calls, k);
    RowAt(states[k], id, offset);
    hide Instant, SqlLe, Inv, Clocked;
    if states[k].jobs[id].leaseExpires.Some? {
      SqlLeMeans(states[k].jobs[id].leaseExpires.value, calls[k].op.now);
    }
  }

  // ---- new jobs ----

  /** The first request under a key makes one waiting job with what was asked for, to be run from the
      time asked for or at once. */
  lemma EnqueuedWaits(states: seq<Tables>, calls: seq<Call>, k: nat, offset: int)
    requires IsRun(states, calls) && k < |calls| && calls[k].op.Enqueue? && calls[k].out.Row?
    requires forall id :: id in states[k].jobs ==>
               || states[k].jobs[id].namespace != calls[k].op.request.namespace
               || states[k].jobs[id].key != calls[k].op.request.key
    ensures var op, r, j := calls[k].op, calls[k].op.request, calls[k].out.job;
            && j.id !in states[k].jobs && states[k + 1].jobs == states[k].jobs[j.id := j]
            && (r.id.Some? && r.id.value != "" ==> j.id == r.id.value)
            && j.namespace == r.namespace && j.kind == r.kind && j.key == r.key && j.payload == r.payload
            && j.taskId == r.taskId && j.priority == r.priority >= 0 && j.maxAttempts == r.maxAttempts >= 1
            && j.createdAt == op.now && j.availableAt == (if r.availableAt.Some? then r.availableAt.value else op.now)
            && MayRun(j, r.namespace, [], Instant(j.availableAt)) && j.attempts == 0 && j.token == 0
  {
    assert Next(states[k], calls[k].op, calls[k].out, states[k + 1]);
    hide Blank, Instant;
  }

  /** A request under a known key changes nothing; it finds the job if it asks for the same work and
      raises otherwise. */
  lemma KnownKeyExactly(states: seq<Tables>, calls: seq<Call>, k: nat, id: string)
    requires IsRun(states, calls) && k < |calls| && calls[k].op.Enqueue? && calls[k].op.accepting
    requires id in states[k].jobs && states[k].jobs[id].namespace == calls[k].op.request.namespace
    requires states[k].jobs[id].key == calls[k].op.request.key
    ensures states[k + 1] == states[k]
    ensures calls[k].out != Raised(InvalidArgument) ==>
      var r, j := calls[k].op.request, states[k].jobs[id];
      var same := r.kind == j.kind && r.taskId == j.taskId && r.payload == j.payload && r.maxAttempts == j.maxAttempts;
      calls[k].out == if same then Row(j) else Raised(IdempotencyConflict)
  {
    assert Next(states[k], calls[k].op, calls[k].out, states[k + 1]);
    RunInv(states, calls, k);
    hide Blank, Instant, RowInv;
  }
}

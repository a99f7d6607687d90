/** Safety of the job queue over whole runs: any number of workers and
    processes, any interleaving of calls, any clock readings. */
module JobRuns {
  import opened Common
  import opened IsoTime
  import opened Jobs

  datatype Call = Call(op: Op, out: Outcome)

  /** A run from empty tables; `states[k]` is what call `k` finds. */
  ghost predicate IsRun(states: seq<Tables>, calls: seq<Call>) {
    && |states| == |calls| + 1 && states[0] == Tables(map[], map[])
    && forall k :: 0 <= k < |calls| ==> Next(states[k], calls[k].op, calls[k].out, states[k + 1])
  }

  predicate Claims(c: Call, id: string) {
    c.op.Claim? && c.out.Row? && c.out.job.id == id
  }

  predicate Completes(c: Call, id: string) {
    c.op.Complete? && c.op.id == id && c.out.Row?
  }

  predicate ByToken(op: Op) {
    op.Heartbeat? || op.Complete? || op.Fail? || op.AcknowledgeCancel?
  }

  /** Calls that may repeat for ever: heartbeats, and cancelling a job again
      that is still running. */
  predicate Repeatable(op: Op, j: Job) {
    op.Heartbeat? || (op.Cancel? && j.status == Running && j.cancelRequested)
  }

  /** Work left in a job: attempts not yet used, then how far the current one is. */
  function WorkLeft(j: Job): int {
    if j.Terminal() then 0
    else 3 * (j.maxAttempts - j.attempts) + if j.status != Running then 1 else if j.cancelRequested then 2 else 3
  }

  predicate SameIdentity(a: Job, b: Job) {
    && a.id == b.id && a.namespace == b.namespace && a.taskId == b.taskId && a.kind == b.kind && a.key == b.key
    && a.payload == b.payload && a.priority == b.priority
    && a.maxAttempts == b.maxAttempts && a.createdAt == b.createdAt
  }

  // ---- one step, seen from one row ----

  lemma RowMoves(s: Tables, op: Op, out: Outcome, s': Tables, id: string)
    requires Inv(s) && Next(s, op, out, s') && id in s.jobs
    ensures id in s'.jobs
    ensures SameIdentity(s'.jobs[id], s.jobs[id])
    ensures s.jobs[id].Terminal() ==> s'.jobs[id] == s.jobs[id]
    ensures s'.jobs[id].token == s.jobs[id].token + if Claims(Call(op, out), id) then 1 else 0
    ensures Claims(Call(op, out), id) ==> s'.jobs[id] == out.job
    ensures s'.jobs[id] == s.jobs[id] || WorkLeft(s'.jobs[id]) < WorkLeft(s.jobs[id])
         || (Repeatable(op, s.jobs[id]) && WorkLeft(s'.jobs[id]) == WorkLeft(s.jobs[id]))
    ensures !Repeatable(op, s.jobs[id]) && s'.jobs[id] != s.jobs[id] ==> WorkLeft(s'.jobs[id]) < WorkLeft(s.jobs[id])
  {
    hide SqlLe, Later, Instant, Blank, Precedes, Inv, Expired;
    RowInvAt(s, id);
    if op.RecoverExpired? {
      RecoveredMoves(s, op.now, id);
    } else if op.Claim? {
      hide HeldBy, FailedRow, CancelledRow, Released, RecoveredRow;
      if out.Row? {
        RowInvAt(s, out.job.id);
        ClaimableOpen(s.jobs[out.job.id], op.namespace, op.kinds, op.now);
        hide Claimable;
      }
    } else {
      hide Claimable, RecoveredRow, EnqueueStep, ClaimStep;
      if op.Enqueue? {
        EnqueueKeepsRows(s, op.accepting, op.request, op.now, out, s', id);
      }
    }
  }

  lemma ClaimableOpen(j: Job, namespace: string, kinds: seq<string>, now: Stamp)
    requires Claimable(j, namespace, kinds, now)
    ensures !j.Terminal() && !j.cancelRequested && j.attempts < j.maxAttempts
  {
  }

  lemma EnqueueKeepsRows(s: Tables, accepting: bool, r: Request, now: Stamp, out: Outcome, s': Tables, id: string)
    requires EnqueueStep(s, accepting, r, now, out, s') && id in s.jobs
    ensures id in s'.jobs && s'.jobs[id] == s.jobs[id]
  {
    hide Blank, SameRequest;
  }

  lemma RecoveredMoves(s: Tables, now: Stamp, id: string)
    requires id in s.jobs && RowInv(s.jobs[id], s.Counter(id))
    ensures Expired(s.jobs[id], now) ==>
      && !s.jobs[id].Terminal() && SameIdentity(RecoveredRow(s.jobs[id], now), s.jobs[id])
      && RecoveredRow(s.jobs[id], now).token == s.jobs[id].token
      && WorkLeft(RecoveredRow(s.jobs[id], now)) < WorkLeft(s.jobs[id])
  {
    hide SqlLe;
  }

  // ---- invariants of runs ----

  lemma {:induction false} RunInv(states: seq<Tables>, calls: seq<Call>, k: nat)
    requires IsRun(states, calls) && k < |states|
    ensures Inv(states[k])
  {
    if k > 0 {
      hide Next, Inv;
      RunInv(states, calls, k - 1);
      NextKeepsInv(states[k - 1], calls[k - 1].op, calls[k - 1].out, states[k]);
    }
  }

  /** Rows are never removed, tokens never fall, and a finished row is final. */
  lemma {:induction false} RowsPersist(states: seq<Tables>, calls: seq<Call>, i: nat, k: nat, id: string)
    requires IsRun(states, calls) && i <= k < |states| && id in states[i].jobs
    ensures id in states[k].jobs && SameIdentity(states[k].jobs[id], states[i].jobs[id])
    ensures states[i].jobs[id].token <= states[k].jobs[id].token
    ensures states[i].jobs[id].Terminal() ==> states[k].jobs[id] == states[i].jobs[id]
    decreases k - i
  {
    if i < k {
      hide Next, Inv;
      RowsPersist(states, calls, i, k - 1, id);
      RunInv(states, calls, k - 1);
      RowMoves(states[k - 1], calls[k - 1].op, calls[k - 1].out, states[k], id);
    }
  }

  /** Enqueueing the same request again, at any later time, finds the job the
      first call created and changes nothing. */
  lemma EnqueueIsIdempotent(states: seq<Tables>, calls: seq<Call>, i: nat, k: nat)
    requires IsRun(states, calls) && i < k < |calls|
    requires calls[i].op.Enqueue? && calls[i].out.Row?
    requires calls[k].op.Enqueue? && calls[k].op.accepting
    requires calls[k].op.request.(newId := "") == calls[i].op.request.(newId := "")
    ensures states[k + 1] == states[k] && calls[k].out.Row? && calls[k].out.job.id == calls[i].out.job.id
  {
    hide SqlLe, Blank, Later, Instant, ClaimStep, RecoveredRow, FailedRow, CancelledRow, HeldBy;
    var id := calls[i].out.job.id;
    assert Next(states[i], calls[i].op, calls[i].out, states[i + 1]);
    assert Next(states[k], calls[k].op, calls[k].out, states[k + 1]);
    RunInv(states, calls, i);
    RunInv(states, calls, k);
    RowsPersist(states, calls, i + 1, k, id);
  }

  lemma ClaimAt(states: seq<Tables>, calls: seq<Call>, i: nat, id: string)
    requires IsRun(states, calls) && i < |calls| && Claims(calls[i], id)
    ensures id in states[i].jobs && id in states[i + 1].jobs
    ensures calls[i].out.job.token == states[i + 1].jobs[id].token == states[i].jobs[id].token + 1
    ensures !states[i].jobs[id].Terminal()
  {
    hide Inv, SqlLe, Precedes;
    RunInv(states, calls, i);
    RowMoves(states[i], calls[i].op, calls[i].out, states[i + 1], id);
  }

  /** Tokens issued for a job strictly increase. */
  lemma TokensIncrease(states: seq<Tables>, calls: seq<Call>, i: nat, k: nat, id: string)
    requires IsRun(states, calls) && i < k < |calls| && Claims(calls[i], id) && Claims(calls[k], id)
    ensures calls[i].out.job.token < calls[k].out.job.token
  {
    hide Next;
    ClaimAt(states, calls, i, id);
    ClaimAt(states, calls, k, id);
    RowsPersist(states, calls, i + 1, k, id);
  }

  /** A holder whose token has been superseded can change nothing. */
  lemma StaleTokenChangesNothing(states: seq<Tables>, calls: seq<Call>, i: nat, k: nat, id: string)
    requires IsRun(states, calls) && i < k < |calls| && Claims(calls[i], id)
    requires ByToken(calls[k].op) && calls[k].op.id == id && calls[k].op.token < calls[i].out.job.token
    ensures calls[k].out.Raised? && states[k + 1] == states[k]
  {
    hide Next;
    assert Next(states[k], calls[k].op, calls[k].out, states[k + 1]);
    ClaimAt(states, calls, i, id);
    RowsPersist(states, calls, i + 1, k, id);
    StaleStep(states[k], calls[k].op, calls[k].out, states[k + 1]);
  }

  lemma StaleStep(s: Tables, op: Op, out: Outcome, s': Tables)
    requires Next(s, op, out, s') && ByToken(op)
    requires op.id in s.jobs && op.token < s.jobs[op.id].token
    ensures out.Raised? && s' == s
  {
    hide Later, Instant, Blank, EnqueueStep, ClaimStep, RecoveredRow, FailedRow, CancelledRow, Released;
  }

  /** A successful `complete` carries the largest token the run ever issues for
      the job, and is the only one. */
  lemma CompletionIsUnique(states: seq<Tables>, calls: seq<Call>, k: nat, id: string)
    requires IsRun(states, calls) && k < |calls| && Completes(calls[k], id)
    ensures forall i :: 0 <= i < |calls| && Claims(calls[i], id) ==> calls[i].out.job.token <= calls[k].op.token
    ensures forall i :: 0 <= i < |calls| && Completes(calls[i], id) ==> i == k
    ensures forall i :: k < i < |states| ==> id in states[i].jobs && states[i].jobs[id] == calls[k].out.job
  {
    CompleteAt(states, calls, k, id);
    hide Next;
    forall i | k < i < |states|
      ensures id in states[i].jobs && states[i].jobs[id] == calls[k].out.job
    {
      RowsPersist(states, calls, k + 1, i, id);
    }
    forall i | 0 <= i < |calls| && Claims(calls[i], id)
      ensures calls[i].out.job.token <= calls[k].op.token
    {
      ClaimAt(states, calls, i, id);
      if i < k {
        RowsPersist(states, calls, i + 1, k, id);
      }
    }
    forall i | 0 <= i < |calls| && Completes(calls[i], id)
      ensures i == k
    {
      CompleteAt(states, calls, i, id);
      if i < k {
        RowsPersist(states, calls, i + 1, k, id);
      }
    }
  }

  lemma CompleteAt(states: seq<Tables>, calls: seq<Call>, k: nat, id: string)
    requires IsRun(states, calls) && k < |calls| && Completes(calls[k], id)
    ensures id in states[k].jobs && !states[k].jobs[id].Terminal() && states[k].jobs[id].token == calls[k].op.token
    ensures id in states[k + 1].jobs && states[k + 1].jobs[id] == calls[k].out.job && calls[k].out.job.Terminal()
  {
    assert Next(states[k], calls[k].op, calls[k].out, states[k + 1]);
  }

  // ---- bounded work ----

  /** How many of the first `k` calls changed an existing row of the job,
      leaving out the repeatable ones. */
  ghost function EffectiveSteps(states: seq<Tables>, calls: seq<Call>, id: string, k: nat): nat
    requires k <= |calls| < |states|
  {
    if k == 0 then 0
    else
      EffectiveSteps(states, calls, id, k - 1)
      + if Effective(states[k - 1], calls[k - 1], states[k], id) then 1 else 0
  }

  ghost function ClaimCount(calls: seq<Call>, id: string, k: nat): nat
    requires k <= |calls|
  {
    if k == 0 then 0 else ClaimCount(calls, id, k - 1) + if Claims(calls[k - 1], id) then 1 else 0
  }

  /** The counts so far, against the row as it stands. */
  ghost predicate Bounded(effective: nat, claims: nat, s: Tables, id: string) {
    if id !in s.jobs then effective == 0 == claims
    else
      var j := s.jobs[id];
      && effective + WorkLeft(j) <= 3 * j.maxAttempts + 1
      && claims == j.attempts == j.token <= j.maxAttempts
      && WorkLeft(j) >= 0
  }

  lemma {:induction false} WorkIsBounded(states: seq<Tables>, calls: seq<Call>, id: string, k: nat)
    requires IsRun(states, calls) && k <= |calls|
    ensures Bounded(EffectiveSteps(states, calls, id, k), ClaimCount(calls, id, k), states[k], id)
  {
    hide *;
    RunShape(states, calls);
    if k == 0 {
      NoneYet(states, calls, id);
    } else {
      WorkIsBounded(states, calls, id, k - 1);
      RunInv(states, calls, k - 1);
      RunInv(states, calls, k);
      CountsGrow(states, calls, id, k);
      NextAt(states, calls, k);
      StepStaysBounded(states[k - 1], calls[k - 1], states[k], id,
        EffectiveSteps(states, calls, id, k - 1), ClaimCount(calls, id, k - 1));
    }
  }

  lemma RunShape(states: seq<Tables>, calls: seq<Call>)
    requires IsRun(states, calls)
    ensures |states| == |calls| + 1
  {
  }

  lemma NoneYet(states: seq<Tables>, calls: seq<Call>, id: string)
    requires IsRun(states, calls)
    ensures Bounded(EffectiveSteps(states, calls, id, 0), ClaimCount(calls, id, 0), states[0], id)
  {
  }

  lemma NextAt(states: seq<Tables>, calls: seq<Call>, k: nat)
    requires IsRun(states, calls) && 0 < k <= |calls|
    ensures Next(states[k - 1], calls[k - 1].op, calls[k - 1].out, states[k])
  {
    hide Next;
  }

  ghost predicate Effective(s: Tables, c: Call, s': Tables, id: string) {
    id in s.jobs && id in s'.jobs && s'.jobs[id] != s.jobs[id] && !Repeatable(c.op, s.jobs[id])
  }

  lemma CountsGrow(states: seq<Tables>, calls: seq<Call>, id: string, k: nat)
    requires 0 < k <= |calls| < |states|
    ensures EffectiveSteps(states, calls, id, k) == EffectiveSteps(states, calls, id, k - 1)
      + if Effective(states[k - 1], calls[k - 1], states[k], id) then 1 else 0
    ensures ClaimCount(calls, id, k) == ClaimCount(calls, id, k - 1) + if Claims(calls[k - 1], id) then 1 else 0
  {
  }

  lemma StepStaysBounded(s: Tables, c: Call, s': Tables, id: string, effective: nat, claims: nat)
    requires Inv(s) && Inv(s') && Next(s, c.op, c.out, s') && Bounded(effective, claims, s, id)
    ensures Bounded(effective + (if Effective(s, c, s', id) then 1 else 0),
      claims + (if Claims(c, id) then 1 else 0), s', id)
  {
    assert RowOk(s', id) by { RowInvAt(s', id); }
    hide Next, Inv, Claims, Repeatable;
    assert c == Call(c.op, c.out);
    if id in s.jobs {
      RowMoves(s, c.op, c.out, s', id);
    } else {
      NewRowAt(s, c.op, c.out, s', id);
    }
  }

  ghost predicate RowOk(s: Tables, id: string) {
    id in s.jobs ==> RowInv(s.jobs[id], s.Counter(id))
  }

  lemma NewRowAt(s: Tables, op: Op, out: Outcome, s': Tables, id: string)
    requires Inv(s) && Next(s, op, out, s') && id !in s.jobs
    ensures !Claims(Call(op, out), id)
    ensures id in s'.jobs ==> WorkLeft(s'.jobs[id]) == 3 * s'.jobs[id].maxAttempts + 1 && s'.jobs[id].attempts == 0
  {
    hide SqlLe, Later, Instant, Blank, Precedes, Inv;
  }

  // ---- leases and clocks ----

  /** A running job is current for its holder exactly when the SQL tests do not
      call its lease expired, for all clocks of two offsets, if and only if the
      offsets agree. They do when every caller leaves the clock to the queue, which reads UTC. */
  lemma LeaseOrExpired(o1: int, o2: int)
    requires -1440 < o1 < 1440 && -1440 < o2 < 1440
    ensures (forall j: Job, now: Stamp |
               j.status == Running && j.leaseOwner.Some? && j.leaseExpires.Some?
               && j.leaseExpires.value.offset == o1 && now.offset == o2 ::
               HeldBy(j, j.leaseOwner.value, j.token, now) <==> !Expired(j, now))
       <==> o1 == o2
  {
    hide SqlLe;
    SqlOrderIsTimeOrder(o1, o2);
    if o1 != o2 {
      var a: Stamp, b: Stamp :| a.offset == o1 && b.offset == o2 && SqlLe(a, b) != (Instant(a) <= Instant(b));
      var j := Job("j", "local", None, "k", "key", "{}", Running, 0, 1, 1, b, Some("w"), Some(a), 1, false,
                   "{}", None, b, b, None);
      assert HeldBy(j, "w", 1, b) == Expired(j, b);
    }
  }

  /** Two claims of one state under one clock pick the same row. */
  lemma ClaimIsDeterministic(s: Tables, op: Op, out1: Outcome, s1: Tables, out2: Outcome, s2: Tables)
    requires Inv(s) && op.Claim? && Next(s, op, out1, s1) && Next(s, op, out2, s2)
    ensures out1 == out2 && s1 == s2
  {
    hide SqlLe, Precedes;
    if out1.Row? {
      PrecedesTotal(s.jobs[out1.job.id], s.jobs[out2.job.id]);
    }
  }
}

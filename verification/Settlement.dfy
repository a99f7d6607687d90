/** How a plan ends: integration gate, terminal statuses, Manager reports and final verdict. */
module Settlement {
  import opened Common

  datatype Status =
    | Pending | Ready | Running | Testing | Approved
    | Abandoned | Skipped | Failed | Blocked | Cancelled

  /** A workstream: `manager` is the id it carries ("" for none), `reserved` the one reserved for it. */
  datatype Stream = Stream(id: string, items: seq<string>, manager: string, reserved: string)

  type Statuses = map<string, Status>

  function StatusOf(m: Statuses, id: string, absent: Status): Status {
    if id in m then m[id] else absent
  }

  function ManagerOf(s: Stream): string {
    if s.manager != "" then s.manager else s.reserved
  }

  predicate DistinctIds(plan: seq<Stream>) {
    forall i, j :: 0 <= i < j < |plan| ==> plan[i].id != plan[j].id
  }

  predicate Covers(plan: seq<Stream>, streams: Statuses) {
    && (forall s <- plan :: s.id in streams)
    && (forall id <- streams :: exists s <- plan :: s.id == id)
  }

  // ---------------------------------------------------------------- integration gate

  /**
   * What one turn of the gate loop meets: the statuses the workers left, whether the task was
   * stopped before or during the tests, the test result, the streams its output mentions and
   * whether remediation grants another turn.
   */
  datatype Round = Round(
    items: Statuses, streams: Statuses,
    stopped: bool, stoppedInTests: bool,
    passed: bool, mentioned: set<string>, retries: bool)

  datatype Gate = Retry | Stopped | NotRun | NotRequired | Passed | Exhausted

  function GateOf(r: Round, required: bool): Gate {
    if r.stopped || Cancelled in r.streams.Values then Stopped
    else if Approved !in r.streams.Values then NotRun
    else if !required then NotRequired
    else if r.stoppedInTests then Stopped
    else if r.passed then Passed
    else if r.retries then Retry
    else Exhausted
  }

  /** The streams a failed integration run is charged to: those it mentions, or else all of them. */
  function AffectedIds(plan: seq<Stream>, mentioned: set<string>): set<string> {
    var hit := set s | s in plan && s.id in mentioned :: s.id;
    if hit != {} then hit else set s | s in plan :: s.id
  }

  function ItemsOf(plan: seq<Stream>, ids: set<string>): set<string> {
    set s, item | s in plan && s.id in ids && item in s.items :: item
  }

  function Painted(m: Statuses, keys: set<string>, mark: Status): Statuses {
    map id | id in m.Keys + keys :: if id in keys then mark else m[id]
  }

  /** The turn that ends the gate loop. */
  ghost predicate EndsAt(rounds: seq<Round>, required: bool, n: nat) {
    && n < |rounds|
    && GateOf(rounds[n], required) != Retry
    && forall i :: 0 <= i < n ==> GateOf(rounds[i], required) == Retry
  }

  /** There was approved work, nobody stopped the run, its required tests failed, and a further turn
      was granted. */
  predicate FailedAndRetried(r: Round, required: bool) {
    && !r.stopped && Cancelled !in r.streams.Values && Approved in r.streams.Values
    && required && !r.stoppedInTests && !r.passed && r.retries
  }

  /** When the gate loop goes on, opens the gate, or ends as cancelled, from the fields of a turn. */
  lemma GateExactly(r: Round, required: bool)
    ensures GateOf(r, required) == Retry <==> FailedAndRetried(r, required)
    ensures GateOf(r, required) == Exhausted <==>
      && !r.stopped && Cancelled !in r.streams.Values && Approved in r.streams.Values
      && required && !r.stoppedInTests && !r.passed && !r.retries
    ensures GateOf(r, required) == NotRequired <==>
      !r.stopped && Cancelled !in r.streams.Values && Approved in r.streams.Values && !required
    ensures GateOf(r, required) == Passed <==>
      && !r.stopped && Cancelled !in r.streams.Values && Approved in r.streams.Values
      && required && !r.stoppedInTests && r.passed
    ensures GateOf(r, required) == NotRun <==>
      !r.stopped && Cancelled !in r.streams.Values && Approved !in r.streams.Values
    ensures GateOf(r, required) == Stopped <==>
      || r.stopped || Cancelled in r.streams.Values
      || (Approved in r.streams.Values && required && r.stoppedInTests)
  {
  }

  lemma Retried(r: Round, required: bool)
    requires !r.stopped && Cancelled !in r.streams.Values && Approved in r.streams.Values
    requires required && !r.stoppedInTests && !r.passed && r.retries
    ensures FailedAndRetried(r, required)
  {
  }

  /** A stream is charged with a failed run if the run's output mentions it, or no stream at all. */
  lemma ChargedExactly(plan: seq<Stream>, mentioned: set<string>, id: string)
    ensures id in AffectedIds(plan, mentioned) <==>
      && (exists s :: s in plan && s.id == id)
      && (id in mentioned || forall s :: s in plan ==> s.id !in mentioned)
  {
    var hit := set s | s in plan && s.id in mentioned :: s.id;
    if hit != {} {
      var some :| some in hit;
      assert exists s :: s in plan && s.id == some;
    }
    forall s | s in plan && s.id in mentioned
      ensures s.id in hit
    {
    }
  }

  // ---------------------------------------------------------------- terminal statuses

  predicate IsTerminal(s: Status) {
    s in {Approved, Abandoned, Skipped}
  }

  function SettledItem(now: Status, attempted: bool): Status {
    if IsTerminal(now) then now else if attempted then Abandoned else Skipped
  }

  function SettledStream(items: seq<Status>, before: Status): Status {
    if items != [] && forall s <- items :: s == Approved then Approved
    else if Abandoned in items || before in {Running, Failed, Blocked, Abandoned} then Abandoned
    else Skipped
  }

  /** A stream with the statuses it ends with, its items in their order. */
  datatype Terminal = Terminal(stream: Stream, status: Status, items: seq<Status>)

  function ItemStatuses(ids: seq<string>, m: Statuses): (r: seq<Status>)
    ensures |r| == |ids|
    ensures forall i :: 0 <= i < |ids| ==> r[i] == StatusOf(m, ids[i], Skipped)
  {
    seq(|ids|, i requires 0 <= i < |ids| => StatusOf(m, ids[i], Skipped))
  }

  function View(plan: seq<Stream>, items: Statuses, streams: Statuses): (r: seq<Terminal>)
    requires forall s <- plan :: s.id in streams
    ensures |r| == |plan|
    ensures forall i :: 0 <= i < |plan| ==>
      r[i] == Terminal(plan[i], streams[plan[i].id], ItemStatuses(plan[i].items, items))
  {
    seq(|plan|, i requires 0 <= i < |plan| =>
      Terminal(plan[i], streams[plan[i].id], ItemStatuses(plan[i].items, items)))
  }

  predicate WholeStream(t: Terminal) {
    t.status == Approved && forall s <- t.items :: s == Approved
  }

  predicate PartStream(t: Terminal) {
    t.status in {Abandoned, Skipped} || exists s <- t.items :: s in {Abandoned, Skipped}
  }

  /** What terminalisation leaves of a stream that stood at `before` with these item statuses. */
  predicate SettledFrom(t: Terminal, before: Status, was: Statuses, attempted: set<string>) {
    && |t.items| == |t.stream.items|
    && (forall i :: 0 <= i < |t.items| ==>
      t.items[i] == SettledItem(StatusOf(was, t.stream.items[i], Pending), t.stream.items[i] in attempted))
    && t.status == SettledStream(t.items, before)
  }

  /** Every item of a non-empty stream reached approval. */
  predicate DoneStream(s: Stream, items: Statuses) {
    s.items != [] && forall id <- s.items :: StatusOf(items, id, Pending) == Approved
  }

  predicate Done(plan: seq<Stream>, items: Statuses) {
    forall s <- plan :: DoneStream(s, items)
  }

  /**
   * Terminal statuses depend on the items alone where it matters: a stream ends APPROVED exactly
   * when it has items and each is approved, whatever the Manager's verdict left in its own status.
   */
  lemma SettledExactly(t: Terminal, before: Status, was: Statuses, attempted: set<string>)
    requires SettledFrom(t, before, was, attempted)
    ensures IsTerminal(t.status) && forall s <- t.items :: IsTerminal(s)
    ensures t.status == Approved <==> DoneStream(t.stream, was)
    ensures WholeStream(t) <==> !PartStream(t)
    ensures WholeStream(t) <==> DoneStream(t.stream, was)
  {
    if DoneStream(t.stream, was) {
      forall s | s in t.items
        ensures s == Approved
      {
        var i :| 0 <= i < |t.items| && t.items[i] == s;
        assert t.stream.items[i] in t.stream.items;
      }
    } else if t.stream.items != [] {
      var id :| id in t.stream.items && StatusOf(was, id, Pending) != Approved;
      var i :| 0 <= i < |t.stream.items| && t.stream.items[i] == id;
      assert t.items[i] in t.items && t.items[i] != Approved;
    }
  }

  /** What each item and the stream end as: approved work stays approved, work somebody attempted is
      abandoned, and the rest is skipped. */
  lemma SettledMeans(t: Terminal, before: Status, was: Statuses, attempted: set<string>)
    requires SettledFrom(t, before, was, attempted)
    ensures forall i :: 0 <= i < |t.items| ==>
      var id, now := t.stream.items[i], t.items[i];
      && (now == Approved <==> id in was && was[id] == Approved)
      && (now == Abandoned <==>
           if id in was && was[id] in {Approved, Abandoned, Skipped} then was[id] == Abandoned else id in attempted)
      && (now == Skipped <==>
           if id in was && was[id] in {Approved, Abandoned, Skipped} then was[id] == Skipped else id !in attempted)
    ensures t.status == Approved <==> t.items != [] && forall s <- t.items :: s == Approved
    ensures t.status == Abandoned <==>
      && !(t.items != [] && forall s <- t.items :: s == Approved)
      && (Abandoned in t.items || before in {Running, Failed, Blocked, Abandoned})
    ensures t.status in {Approved, Abandoned, Skipped}
  {
  }

  // ---------------------------------------------------------------- Manager reports

  datatype Bucket = InCompleted | InAbandoned | InSkipped

  function BucketOf(s: Status): Bucket {
    match s
    case Approved => InCompleted
    case Abandoned => InAbandoned
    case Failed => InAbandoned
    case _ => InSkipped
  }

  datatype ReportStatus = ReportCompleted | ReportPartial | ReportAbandoned

  datatype Report = Report(
    stream: string, status: ReportStatus,
    completed: seq<string>, abandoned: seq<string>, skipped: seq<string>)

  function Chosen(ids: seq<string>, statuses: seq<Status>, b: Bucket): seq<string>
    requires |ids| == |statuses|
  {
    if ids == [] then []
    else
      var n := |ids| - 1;
      Chosen(ids[..n], statuses[..n], b) + (if BucketOf(statuses[n]) == b then [ids[n]] else [])
  }

  /** The report holds each item of the stream in the list its status belongs to. */
  predicate Reports(t: Terminal, r: Report)
    requires |t.items| == |t.stream.items|
  {
    && r.stream == t.stream.id
    && r.completed == Chosen(t.stream.items, t.items, InCompleted)
    && r.abandoned == Chosen(t.stream.items, t.items, InAbandoned)
    && r.skipped == Chosen(t.stream.items, t.items, InSkipped)
    && r.status == (
      if t.stream.items == [] then (if t.status == Approved then ReportCompleted else ReportAbandoned)
      else if r.abandoned == [] && r.skipped == [] then ReportCompleted
      else if r.completed != [] then ReportPartial
      else ReportAbandoned)
  }

  lemma ChosenLast(ids: seq<string>, statuses: seq<Status>, b: Bucket)
    requires |ids| == |statuses| > 0
    ensures var n := |ids| - 1;
      multiset(Chosen(ids, statuses, b)) == multiset(Chosen(ids[..n], statuses[..n], b))
        + if BucketOf(statuses[n]) == b then multiset{ids[n]} else multiset{}
  {
  }

  lemma {:induction false} ChosenPartition(ids: seq<string>, statuses: seq<Status>)
    requires |ids| == |statuses|
    ensures multiset(Chosen(ids, statuses, InCompleted)) + multiset(Chosen(ids, statuses, InAbandoned))
      + multiset(Chosen(ids, statuses, InSkipped)) == multiset(ids)
  {
    if ids != [] {
      var n := |ids| - 1;
      ChosenPartition(ids[..n], statuses[..n]);
      hide Chosen;
      ChosenLast(ids, statuses, InCompleted);
      ChosenLast(ids, statuses, InAbandoned);
      ChosenLast(ids, statuses, InSkipped);
      AddOne(multiset(Chosen(ids[..n], statuses[..n], InCompleted)),
        multiset(Chosen(ids[..n], statuses[..n], InAbandoned)),
        multiset(Chosen(ids[..n], statuses[..n], InSkipped)), multiset{ids[n]});
      LastCounts(ids);
    }
  }

  lemma LastCounts(ids: seq<string>)
    requires ids != []
    ensures multiset(ids) == multiset(ids[..|ids| - 1]) + multiset{ids[|ids| - 1]}
  {
    assert ids == ids[..|ids| - 1] + [ids[|ids| - 1]];
  }

  lemma AddOne(a: multiset<string>, b: multiset<string>, c: multiset<string>, x: multiset<string>)
    ensures (a + x) + (b + multiset{}) + (c + multiset{}) == (a + b + c) + x
    ensures (a + multiset{}) + (b + x) + (c + multiset{}) == (a + b + c) + x
    ensures (a + multiset{}) + (b + multiset{}) + (c + x) == (a + b + c) + x
  {
  }

  lemma {:induction false} ChosenHolds(ids: seq<string>, statuses: seq<Status>, b: Bucket, id: string)
    requires |ids| == |statuses|
    ensures id in Chosen(ids, statuses, b)
      <==> exists i :: 0 <= i < |ids| && ids[i] == id && BucketOf(statuses[i]) == b
  {
    if ids != [] {
      var n := |ids| - 1;
      ChosenHolds(ids[..n], statuses[..n], b, id);
      if i :| 0 <= i < |ids| && ids[i] == id && BucketOf(statuses[i]) == b {
        if i < n {
          assert ids[..n][i] == id && statuses[..n][i] == statuses[i];
        }
      }
    }
  }

  lemma ChosenEmpty(ids: seq<string>, statuses: seq<Status>, b: Bucket)
    requires |ids| == |statuses|
    ensures Chosen(ids, statuses, b) == []
      <==> forall i :: 0 <= i < |ids| ==> BucketOf(statuses[i]) != b
  {
    if Chosen(ids, statuses, b) != [] {
      ChosenHolds(ids, statuses, b, Chosen(ids, statuses, b)[0]);
    }
    forall i | 0 <= i < |ids| && BucketOf(statuses[i]) == b
      ensures Chosen(ids, statuses, b) != []
    {
      ChosenHolds(ids, statuses, b, ids[i]);
    }
  }

  predicate Files(r: Report, id: string, s: Status) {
    match s
    case Approved => id in r.completed
    case Abandoned => id in r.abandoned
    case Failed => id in r.abandoned
    case _ => id in r.skipped
  }

  /** A report loses and repeats no item, and files each under its own status. */
  lemma ReportPartitions(t: Terminal, r: Report)
    requires |t.items| == |t.stream.items| && Reports(t, r)
    ensures multiset(r.completed) + multiset(r.abandoned) + multiset(r.skipped) == multiset(t.stream.items)
    ensures forall i :: 0 <= i < |t.items| ==> Files(r, t.stream.items[i], t.items[i])
  {
    hide Chosen;
    var ids := t.stream.items;
    ChosenPartition(ids, t.items);
    forall i | 0 <= i < |t.items|
      ensures Files(r, ids[i], t.items[i])
    {
      ChosenHolds(ids, t.items, BucketOf(t.items[i]), ids[i]);
    }
  }

  /** In a run that was not cancelled a report says completed exactly for an approved stream. */
  lemma ReportAgrees(t: Terminal, r: Report, before: Status, was: Statuses, attempted: set<string>)
    requires SettledFrom(t, before, was, attempted) && Reports(t, r)
    ensures r.status == ReportCompleted <==> t.status == Approved
    ensures r.status == ReportCompleted <==> DoneStream(t.stream, was)
    ensures r.status == ReportPartial <==> r.completed != [] && t.status != Approved
  {
    SettledExactly(t, before, was, attempted);
    ChosenEmpty(t.stream.items, t.items, InCompleted);
    ChosenEmpty(t.stream.items, t.items, InAbandoned);
    ChosenEmpty(t.stream.items, t.items, InSkipped);
    assert forall i :: 0 <= i < |t.items| ==> t.items[i] in t.items;
  }

  // ---------------------------------------------------------------- verdict

  datatype PlanStatus = PlanCompleted | PlanPartial | PlanFailed | PlanCancelled

  datatype Review = Review(tool: string, verdict: string)

  predicate Approves(r: Review) {
    r.tool == "complete_plan" && r.verdict == "approved"
  }

  datatype Ending = Unfinished | ReportsMissing | Ended(status: PlanStatus)

  predicate ReviewApproves(r: Option<Review>) {
    r.Some? && Approves(r.value)
  }

  function Verdict(ts: seq<Terminal>, gate: bool, cancelled: bool, review: Option<Review>, covered: bool): PlanStatus {
    var approved := (forall t <- ts :: WholeStream(t)) && gate && ReviewApproves(review);
    if cancelled then PlanCancelled
    else if !covered then PlanFailed
    else if approved then PlanCompleted
    else if exists t <- ts :: PartStream(t) then PlanPartial
    else PlanFailed
  }

  // ---------------------------------------------------------------- the run

  lemma PaintTwice(m: Statuses, a: set<string>, b: set<string>, mark: Status)
    ensures Painted(Painted(m, a, mark), b, mark) == Painted(m, a + b, mark)
    ensures Painted(m, {}, mark) == m
  {
  }

  lemma PaintOne(m: Statuses, key: string, mark: Status)
    ensures m[key := mark] == Painted(m, {key}, mark)
  {
  }

  function SetOf(ids: seq<string>): set<string> {
    set id | id in ids
  }

  function IdsOf(plan: seq<Stream>): set<string> {
    set s | s in plan :: s.id
  }

  lemma OneMore(plan: seq<Stream>, i: nat, ids: set<string>)
    requires i < |plan|
    ensures ItemsOf(plan[..i + 1], ids)
      == ItemsOf(plan[..i], ids) + if plan[i].id in ids then SetOf(plan[i].items) else {}
    ensures ids * IdsOf(plan[..i + 1]) == ids * IdsOf(plan[..i]) + if plan[i].id in ids then {plan[i].id} else {}
  {
    assert plan[..i + 1] == plan[..i] + [plan[i]];
  }

  lemma Nothing(plan: seq<Stream>, ids: set<string>)
    ensures ItemsOf(plan[..0], ids) == {} && ids * IdsOf(plan[..0]) == {}
  {
  }

  lemma NoItems(items: seq<string>)
    ensures SetOf(items[..0]) == {}
  {
  }

  lemma Everything(plan: seq<Stream>, mentioned: set<string>)
    ensures AffectedIds(plan, mentioned) * IdsOf(plan) == AffectedIds(plan, mentioned)
  {
  }

  lemma MarkKeeps(plan: seq<Stream>, mentioned: set<string>, streams: Statuses, mark: Status)
    requires Covers(plan, streams)
    ensures Covers(plan, Painted(streams, AffectedIds(plan, mentioned), mark))
  {
  }

  lemma OneMoreItem(items: seq<string>, j: nat)
    requires j < |items|
    ensures SetOf(items[..j + 1]) == SetOf(items[..j]) + {items[j]}
  {
    assert items[..j + 1] == items[..j] + [items[j]];
  }

  /** The statuses with which a turn leaves the gate loop. */
  function ItemsLeft(plan: seq<Stream>, r: Round, required: bool): Statuses {
    if GateOf(r, required) == Exhausted
    then Painted(r.items, ItemsOf(plan, AffectedIds(plan, r.mentioned)), Abandoned)
    else r.items
  }

  function StreamsLeft(plan: seq<Stream>, r: Round, required: bool): Statuses {
    if GateOf(r, required) == Exhausted
    then Painted(r.streams, AffectedIds(plan, r.mentioned), Abandoned)
    else r.streams
  }

  /** The items of the plan settled, the others as they were. */
  function Settle(m: Statuses, keys: set<string>, attempted: set<string>): Statuses {
    map id | id in m.Keys + keys ::
      if id in keys then SettledItem(StatusOf(m, id, Pending), id in attempted) else m[id]
  }

  function AllItems(plan: seq<Stream>): set<string> {
    set s, item | s in plan && item in s.items :: item
  }

  lemma SettleNothing(m: Statuses, attempted: set<string>)
    ensures Settle(m, {}, attempted) == m
  {
  }

  lemma SettleOne(m: Statuses, id: string, attempted: set<string>)
    ensures IsTerminal(StatusOf(m, id, Pending)) ==> Settle(m, {id}, attempted) == m
    ensures !IsTerminal(StatusOf(m, id, Pending)) ==>
      Settle(m, {id}, attempted) == m[id := if id in attempted then Abandoned else Skipped]
  {
  }

  lemma SettleTwice(m: Statuses, a: set<string>, b: set<string>, attempted: set<string>)
    ensures Settle(Settle(m, a, attempted), b, attempted) == Settle(m, a + b, attempted)
  {
  }

  lemma StaysSettled(m: Statuses, a: set<string>, b: set<string>, attempted: set<string>, plan: seq<Stream>, k: nat)
    requires k < |plan| && a == AllItems(plan)
    ensures ItemStatuses(plan[k].items, Settle(m, a, attempted)) ==
            ItemStatuses(plan[k].items, Settle(m, a + b, attempted))
  {
    assert plan[k] in plan;
    forall i | 0 <= i < |plan[k].items|
      ensures plan[k].items[i] in a
    {
      assert plan[k].items[i] in plan[k].items;
    }
  }

  lemma OneMoreStream(plan: seq<Stream>)
    ensures AllItems(plan[..0]) == {}
    ensures forall i :: 0 <= i < |plan| ==>
      AllItems(plan[..i + 1]) == AllItems(plan[..i]) + SetOf(plan[i].items)
  {
    forall i | 0 <= i < |plan|
      ensures AllItems(plan[..i + 1]) == AllItems(plan[..i]) + SetOf(plan[i].items)
    {
      assert plan[..i + 1] == plan[..i] + [plan[i]];
    }
  }

  /** The Managers that speak for these streams. */
  function Managers(ts: seq<Terminal>): set<string> {
    set t | t in ts :: ManagerOf(t.stream)
  }

  predicate FirstOfManager(ts: seq<Terminal>, k: nat)
    requires k < |ts|
  {
    forall j :: 0 <= j < k ==> ManagerOf(ts[j].stream) != ManagerOf(ts[k].stream)
  }

  lemma OneMoreManagerNone(ts: seq<Terminal>)
    ensures Managers(ts[..0]) == {}
  {
  }

  lemma OneMoreManager(ts: seq<Terminal>, i: nat)
    requires i < |ts|
    ensures Managers(ts[..i + 1]) == Managers(ts[..i]) + {ManagerOf(ts[i].stream)}
    ensures FirstOfManager(ts, i) <==> ManagerOf(ts[i].stream) !in Managers(ts[..i])
  {
    assert ts[..i + 1] == ts[..i] + [ts[i]];
    forall j | 0 <= j < i
      ensures ManagerOf(ts[j].stream) in Managers(ts[..i])
    {
      assert ts[..i][j] in ts[..i];
    }
  }

  lemma NoneChosen(ids: seq<string>, statuses: seq<Status>)
    requires |ids| == |statuses|
    ensures forall b :: Chosen(ids[..0], statuses[..0], b) == []
  {
  }

  lemma OneMoreChosen(ids: seq<string>, statuses: seq<Status>, i: nat)
    requires i < |ids| == |statuses|
    ensures forall b ::
      Chosen(ids[..i + 1], statuses[..i + 1], b)
      == Chosen(ids[..i], statuses[..i], b) + if BucketOf(statuses[i]) == b then [ids[i]] else []
  {
    assert ids[..i + 1][..i] == ids[..i] && statuses[..i + 1][..i] == statuses[..i];
  }

  method BuildReport(t: Terminal) returns (r: Report)
    requires |t.items| == |t.stream.items|
    ensures Reports(t, r)
  {
    hide Chosen;
    var ids := t.stream.items;
    var completed, abandoned, skipped := [], [], [];
    NoneChosen(ids, t.items);
    for i := 0 to |ids|
      invariant completed == Chosen(ids[..i], t.items[..i], InCompleted)
      invariant abandoned == Chosen(ids[..i], t.items[..i], InAbandoned)
      invariant skipped == Chosen(ids[..i], t.items[..i], InSkipped)
    {
      OneMoreChosen(ids, t.items, i);
      if t.items[i] == Approved {
        completed := completed + [ids[i]];
      } else if t.items[i] in {Abandoned, Failed} {
        abandoned := abandoned + [ids[i]];
      } else {
        skipped := skipped + [ids[i]];
      }
    }
    assert ids[..|ids|] == ids && t.items[..|ids|] == t.items;
    var status := ReportAbandoned;
    if ids == [] {
      if t.status == Approved {
        status := ReportCompleted;
      }
    } else if abandoned == [] && skipped == [] {
      status := ReportCompleted;
    } else if completed != [] {
      status := ReportPartial;
    }
    r := Report(t.stream.id, status, completed, abandoned, skipped);
  }

  /** The Managers expected to report: the one reserved for each stream. */
  function Expected(plan: seq<Stream>): (r: seq<string>)
    ensures |r| == |plan| && forall i :: 0 <= i < |plan| ==> r[i] == plan[i].reserved
  {
    seq(|plan|, i requires 0 <= i < |plan| => plan[i].reserved)
  }

  function ManagersOf(plan: seq<Stream>): set<string> {
    set s | s in plan :: ManagerOf(s)
  }

  /**
   * Reports of a run that was not cancelled: each Manager's report splits the items of its stream
   * by the status they end with, and says completed exactly when all of them were approved.
   */
  ghost predicate ReportsTell(plan: seq<Stream>, items: Statuses, attempted: set<string>,
      reports: map<string, Report>)
  {
    forall k :: 0 <= k < |plan| && FirstStreamOf(plan, k) ==>
      && ManagerOf(plan[k]) in reports
      && ReportTells(plan[k], items, attempted, reports[ManagerOf(plan[k])])
  }

  /** In any run, a Manager's report splits the items of its stream, none lost or repeated. */
  ghost predicate ReportsSplit(plan: seq<Stream>, reports: map<string, Report>) {
    forall k :: 0 <= k < |plan| && FirstStreamOf(plan, k) ==>
      && ManagerOf(plan[k]) in reports
      && ReportSplits(plan[k], reports[ManagerOf(plan[k])])
  }

  ghost predicate ReportSplits(s: Stream, r: Report) {
    && r.stream == s.id
    && multiset(r.completed) + multiset(r.abandoned) + multiset(r.skipped) == multiset(s.items)
  }

  predicate FirstStreamOf(plan: seq<Stream>, k: nat)
    requires k < |plan|
  {
    forall j :: 0 <= j < k ==> ManagerOf(plan[j]) != ManagerOf(plan[k])
  }

  ghost predicate ReportTells(s: Stream, items: Statuses, attempted: set<string>, r: Report) {
    && r.stream == s.id
    && multiset(r.completed) + multiset(r.abandoned) + multiset(r.skipped) == multiset(s.items)
    && (forall id <- s.items :: Files(r, id, SettledItem(StatusOf(items, id, Pending), id in attempted)))
    && (r.status == ReportCompleted <==> DoneStream(s, items))
    && (r.status == ReportPartial <==> r.completed != [] && !DoneStream(s, items))
  }

  /** When a plan ends in which status, from what the last turn of the gate loop met. */
  ghost predicate EndsAs(plan: seq<Stream>, r: Round, gate: Gate, stopNow: bool, stopLater: bool,
      review: Review, covered: bool, status: PlanStatus)
  {
    var cancelled := gate == Stopped || (stopNow && stopLater);
    var whole := gate != Exhausted && Done(plan, r.items);
    && (status == PlanCancelled <==> cancelled)
    && (status == PlanCompleted <==>
      && !cancelled && !stopNow && covered
      && whole && gate in {NotRequired, Passed} && Approves(review))
    && (status == PlanPartial <==> !cancelled && covered && !whole)
    && (status == PlanFailed <==>
      && !cancelled
      && (covered ==> whole && (gate == NotRun || stopNow || !Approves(review))))
  }

  /** What the report loop and the verdict see once the statuses are terminal. */
  ghost predicate AllSettled(plan: seq<Stream>, ts: seq<Terminal>, items: Statuses, streams: Statuses,
      attempted: set<string>)
  {
    && |ts| == |plan|
    && forall k :: 0 <= k < |plan| ==>
      && ts[k].stream == plan[k]
      && plan[k].id in streams
      && SettledFrom(ts[k], streams[plan[k].id], items, attempted)
  }

  lemma ViewSettled(plan: seq<Stream>, items: Statuses, streams: Statuses, attempted: set<string>, after: Statuses)
    requires Covers(plan, streams) && Covers(plan, after)
    requires forall s <- plan ::
      after[s.id] == SettledStream(ItemStatuses(s.items, Settle(items, AllItems(plan), attempted)), streams[s.id])
    ensures AllSettled(plan, View(plan, Settle(items, AllItems(plan), attempted), after), items, streams, attempted)
  {
    var settled := Settle(items, AllItems(plan), attempted);
    var ts := View(plan, settled, after);
    forall k | 0 <= k < |plan|
      ensures SettledFrom(ts[k], streams[plan[k].id], items, attempted)
    {
      hide SettledStream, SettledItem;
      assert plan[k] in plan;
      forall i | 0 <= i < |plan[k].items|
        ensures plan[k].items[i] in AllItems(plan)
      {
        assert plan[k].items[i] in plan[k].items;
      }
    }
  }

  lemma ViewManagers(plan: seq<Stream>, ts: seq<Terminal>)
    requires |ts| == |plan| && forall k :: 0 <= k < |plan| ==> ts[k].stream == plan[k]
    ensures Managers(ts) == ManagersOf(plan)
    ensures forall k :: 0 <= k < |plan| ==> (FirstOfManager(ts, k) <==> FirstStreamOf(plan, k))
  {
    forall t | t in ts
      ensures t.stream in plan
    {
      var k :| 0 <= k < |ts| && ts[k] == t;
      assert plan[k] in plan;
    }
    forall s | s in plan
      ensures exists t :: t in ts && t.stream == s
    {
      var k :| 0 <= k < |plan| && plan[k] == s;
      assert ts[k] in ts;
    }
  }

  lemma ReportTold(t: Terminal, r: Report, before: Status, items: Statuses, attempted: set<string>)
    requires SettledFrom(t, before, items, attempted) && Reports(t, r)
    ensures ReportTells(t.stream, items, attempted, r)
  {
    hide Chosen, Files;
    ReportPartitions(t, r);
    ReportAgrees(t, r, before, items, attempted);
    SettledExactly(t, before, items, attempted);
    forall id | id in t.stream.items
      ensures Files(r, id, SettledItem(StatusOf(items, id, Pending), id in attempted))
    {
      var i :| 0 <= i < |t.stream.items| && t.stream.items[i] == id;
      assert Files(r, t.stream.items[i], t.items[i]);
    }
  }

  lemma ReportsTold(plan: seq<Stream>, ts: seq<Terminal>, items: Statuses, streams: Statuses,
      attempted: set<string>, reports: map<string, Report>)
    requires AllSettled(plan, ts, items, streams, attempted)
    requires reports.Keys == Managers(ts)
    requires forall k :: 0 <= k < |ts| && FirstOfManager(ts, k) ==> Reports(ts[k], reports[ManagerOf(ts[k].stream)])
    ensures ReportsTell(plan, items, attempted, reports)
  {
    hide ReportTells, Reports, SettledFrom, Managers;
    ViewManagers(plan, ts);
    forall k | 0 <= k < |plan| && FirstStreamOf(plan, k)
      ensures ManagerOf(plan[k]) in reports
      ensures ReportTells(plan[k], items, attempted, reports[ManagerOf(plan[k])])
    {
      assert plan[k] in plan;
      ReportTold(ts[k], reports[ManagerOf(plan[k])], streams[plan[k].id], items, attempted);
    }
  }

  lemma ReportsSplitAll(plan: seq<Stream>, ts: seq<Terminal>, reports: map<string, Report>)
    requires |ts| == |plan|
    requires forall k :: 0 <= k < |plan| ==> ts[k].stream == plan[k] && |ts[k].items| == |plan[k].items|
    requires reports.Keys == Managers(ts)
    requires forall k :: 0 <= k < |ts| && FirstOfManager(ts, k) ==> Reports(ts[k], reports[ManagerOf(ts[k].stream)])
    ensures ReportsSplit(plan, reports)
  {
    hide Reports, Managers, ReportSplits;
    ViewManagers(plan, ts);
    forall k | 0 <= k < |plan| && FirstStreamOf(plan, k)
      ensures ManagerOf(plan[k]) in reports
      ensures ReportSplits(plan[k], reports[ManagerOf(plan[k])])
    {
      assert plan[k] in plan;
      OneSplits(ts[k], reports[ManagerOf(plan[k])]);
    }
  }

  lemma OneSplits(t: Terminal, r: Report)
    requires |t.items| == |t.stream.items| && Reports(t, r)
    ensures ReportSplits(t.stream, r)
  {
    hide Chosen;
    ReportPartitions(t, r);
  }

  lemma ExhaustedLeavesWork(plan: seq<Stream>, r: Round, required: bool)
    requires Covers(plan, r.streams) && GateOf(r, required) == Exhausted
    ensures !Done(plan, ItemsLeft(plan, r, required))
  {
    var id :| id in r.streams && r.streams[id] == Approved;
    assert exists s <- plan :: s.id == id;
    var ids := AffectedIds(plan, r.mentioned);
    var hit := set s | s in plan && s.id in r.mentioned :: s.id;
    if hit == {} {
      assert id in ids;
    }
    assert ids != {};
    var one :| one in ids;
    var s :| s in plan && s.id == one;
    if s.items != [] {
      var item := s.items[0];
      assert s in plan && s.id in ids && item in s.items;
      assert item in ItemsOf(plan, ids);
    }
  }

  /** Whole and partial streams, as the verdict sees them, told from the statuses before settling. */
  ghost predicate Sees(plan: seq<Stream>, ts: seq<Terminal>, items: Statuses) {
    && ((forall t <- ts :: WholeStream(t)) <==> Done(plan, items))
    && ((exists t <- ts :: PartStream(t)) <==> !Done(plan, items))
  }

  /** The stored status of a run that reached its verdict uncancelled. */
  lemma VerdictTells(plan: seq<Stream>, ts: seq<Terminal>, items: Statuses, streams: Statuses,
      attempted: set<string>)
    requires AllSettled(plan, ts, items, streams, attempted)
    ensures Sees(plan, ts, items)
  {
    hide SettledFrom, DoneStream, WholeStream, PartStream;
    if Done(plan, items) {
      forall t | t in ts
        ensures WholeStream(t) && !PartStream(t)
      {
        var k :| 0 <= k < |plan| && ts[k] == t;
        assert plan[k] in plan;
        SettledExactly(t, streams[plan[k].id], items, attempted);
      }
    } else {
      var s :| s in plan && !DoneStream(s, items);
      var k :| 0 <= k < |plan| && plan[k] == s;
      SettledExactly(ts[k], streams[s.id], items, attempted);
      assert ts[k] in ts && PartStream(ts[k]) && !WholeStream(ts[k]);
    }
  }

  lemma VerdictEnds(plan: seq<Stream>, r: Round, required: bool, ts: seq<Terminal>, stopNow: bool, stopLater: bool,
      review: Review, covered: bool)
    requires Covers(plan, r.streams) && GateOf(r, required) != Retry
    requires GateOf(r, required) != Stopped ==> Sees(plan, ts, ItemsLeft(plan, r, required))
    ensures var gate := GateOf(r, required);
      var reviewed := if gate != Stopped && !stopNow then Some(review) else None;
      EndsAs(plan, r, gate, stopNow, stopLater, review, covered,
        Verdict(ts, gate in {NotRequired, Passed}, gate == Stopped || (stopNow && stopLater), reviewed, covered))
  {
    hide Done, WholeStream, PartStream, Approves, Painted, AffectedIds, ItemsOf;
    if GateOf(r, required) == Exhausted {
      ExhaustedLeavesWork(plan, r, required);
    }
  }

  /** How a plan ends, from the fields of the last turn. */
  lemma EndsExactly(plan: seq<Stream>, r: Round, required: bool, stopNow: bool, stopLater: bool,
      review: Review, covered: bool, status: PlanStatus)
    requires GateOf(r, required) != Retry
    requires EndsAs(plan, r, GateOf(r, required), stopNow, stopLater, review, covered, status)
    ensures status == PlanCompleted <==>
      && !r.stopped && !stopNow && Cancelled !in r.streams.Values && Approved in r.streams.Values
      && (!required || (!r.stoppedInTests && r.passed))
      && (forall s <- plan :: s.items != [] && forall id <- s.items :: id in r.items && r.items[id] == Approved)
      && covered && review == Review("complete_plan", "approved")
    ensures status == PlanCancelled <==>
      || r.stopped || Cancelled in r.streams.Values
      || (Approved in r.streams.Values && required && r.stoppedInTests)
      || (stopNow && stopLater)
    ensures status == PlanPartial <==>
      && status != PlanCancelled && covered
      && ((exists s <- plan ::
                    s.items == [] || exists id <- s.items :: !(id in r.items && r.items[id] == Approved))
          || (Approved in r.streams.Values && required && !r.passed))
  {
    GateExactly(r, required);
    DoneExactly(plan, r.items);
    hide GateOf, Done;
  }

  lemma DoneExactly(plan: seq<Stream>, items: Statuses)
    ensures Done(plan, items) <==>
      forall s <- plan :: s.items != [] && forall id <- s.items :: id in items && items[id] == Approved
  {
  }

  // ---------------------------------------------------------------- results about runs

  predicate Distinct(ids: seq<string>) {
    forall i, j :: 0 <= i < j < |ids| ==> ids[i] != ids[j]
  }

  lemma {:induction false} EqualsItsSet(ids: seq<string>)
    ensures multiset(SetOf(ids)) == multiset(ids) <==> Distinct(ids)
  {
    if ids == [] {
      assert multiset(ids) == multiset(SetOf(ids));
    } else {
      var n := |ids| - 1;
      EqualsItsSet(ids[..n]);
      assert ids == ids[..n] + [ids[n]];
      assert SetOf(ids) == SetOf(ids[..n]) + {ids[n]};
      if ids[n] in ids[..n] {
        assert multiset(ids)[ids[n]] >= 2;
        assert multiset(SetOf(ids))[ids[n]] <= 1;
      } else {
        assert multiset(SetOf(ids)) == multiset(SetOf(ids[..n])) + multiset{ids[n]};
        assert multiset(ids) == multiset(ids[..n]) + multiset{ids[n]};
        assert multiset(SetOf(ids[..n])) == multiset(ids[..n]) <==> multiset(SetOf(ids)) == multiset(ids) by {
          CancelOne(multiset(SetOf(ids[..n])), multiset(ids[..n]), ids[n]);
        }
      }
    }
  }

  /** No expected Manager is missing, none reported uncalled, and none was expected twice. */
  predicate AllReported(expected: seq<string>, reported: set<string>) {
    && (forall id <- expected :: id in reported)
    && (forall id <- reported :: id in expected)
    && Distinct(expected)
  }

  /** Comparing the sorted lists of expected and of reporting Managers decides that. */
  lemma SortedListsDecide(expected: seq<string>, reported: set<string>)
    ensures multiset(reported) == multiset(expected) <==> AllReported(expected, reported)
  {
    EqualsItsSet(expected);
    if multiset(reported) == multiset(expected) {
      forall id
        ensures id in reported <==> id in expected
      {
        assert id in multiset(reported) <==> id in multiset(expected);
      }
    }
    if (forall id <- expected :: id in reported) && forall id <- reported :: id in expected {
      assert reported == SetOf(expected);
    }
    if multiset(reported) == multiset(expected) {
      assert reported == SetOf(expected);
    }
  }

  lemma CancelOne(a: multiset<string>, b: multiset<string>, x: string)
    ensures a == b <==> a + multiset{x} == b + multiset{x}
  {
    if a + multiset{x} == b + multiset{x} {
      assert a == (a + multiset{x}) - multiset{x};
      assert b == (b + multiset{x}) - multiset{x};
    }
  }

  /**
   * When every stream carries no Manager but its reserved one, the barrier lets the Director
   * through exactly when no Manager was reserved twice; then each stream has its own report.
   */
  lemma BarrierExactly(plan: seq<Stream>)
    requires forall s <- plan :: s.manager == "" || s.manager == s.reserved
    ensures AllReported(Expected(plan), ManagersOf(plan)) <==> Distinct(Expected(plan))
    ensures Distinct(Expected(plan)) ==> forall k :: 0 <= k < |plan| ==> FirstStreamOf(plan, k)
  {
    forall s | s in plan
      ensures ManagerOf(s) in Expected(plan)
    {
      var k :| 0 <= k < |plan| && plan[k] == s;
      assert Expected(plan)[k] == ManagerOf(s);
    }
    forall id | id in Expected(plan)
      ensures id in ManagersOf(plan)
    {
      var k :| 0 <= k < |plan| && Expected(plan)[k] == id;
      assert plan[k] in plan && ManagerOf(plan[k]) == id;
    }
    assert ManagersOf(plan) == SetOf(Expected(plan));
    forall k, j | 0 <= j < k < |plan| && Distinct(Expected(plan))
      ensures ManagerOf(plan[j]) != ManagerOf(plan[k])
    {
      assert Expected(plan)[j] != Expected(plan)[k];
      assert plan[j] in plan && plan[k] in plan;
    }
  }

  predicate Open(s: Status) {
    s in {Pending, Ready}
  }

  /** The statuses while the workers are at it. */
  datatype Work = Work(items: Statuses, streams: Statuses)

  /** One pass of the scheduling loop: the task was stopped, nothing is ready, or a batch is run. */
  datatype Pass = StopAll | SkipAll | Batch(ids: set<string>)

  /** What a pass changes. Of a batch it is assumed, not derived, that the workers of a stream write
      the statuses of that stream's own items only; the scheduling itself takes open streams and
      closes them. */
  ghost predicate Passes(plan: seq<Stream>, w: Work, pass: Pass, v: Work) {
    && v.streams.Keys == w.streams.Keys && w.items.Keys <= v.items.Keys
    && match pass
      case StopAll =>
        && (forall id <- w.streams :: v.streams[id] == if Open(w.streams[id]) then Cancelled else w.streams[id])
        && (forall id <- w.items :: v.items[id] == if Open(w.items[id]) then Cancelled else w.items[id])
      case SkipAll =>
        && (forall id <- w.streams :: v.streams[id] == if w.streams[id] == Pending then Skipped else w.streams[id])
        && (forall id <- w.items :: v.items[id] == w.items[id] || (Open(w.items[id]) && v.items[id] == Skipped))
      case Batch(ids) =>
        && (forall id <- ids :: id in w.streams && Open(w.streams[id]))
        && (forall id <- w.streams :: if id in ids then v.streams[id] in {Approved, Cancelled, Abandoned}
                                      else v.streams[id] == w.streams[id])
        && (forall id <- w.items :: id !in ItemsOf(plan, ids) ==> v.items[id] == w.items[id])
  }

  ghost predicate IsDrain(plan: seq<Stream>, works: seq<Work>, passes: seq<Pass>) {
    && |works| == |passes| + 1
    && forall k :: 0 <= k < |passes| ==> Passes(plan, works[k], passes[k], works[k + 1])
  }

  /** The workers brought one pair of status tables to the other. */
  ghost predicate Drains(plan: seq<Stream>, before: Work, after: Work) {
    exists works, passes :: IsDrain(plan, works, passes) && works[0] == before && works[|passes|] == after
  }

  /** The stream is closed and its items are approved. */
  predicate Rests(s: Stream, w: Work) {
    && s.id in w.streams && w.streams[s.id] == Approved
    && forall id <- s.items :: id in w.items && w.items[id] == Approved
  }

  /** Workers touch a stream only while it is open. */
  lemma {:induction false} RestingStays(plan: seq<Stream>, works: seq<Work>, passes: seq<Pass>, k: nat, s: Stream)
    requires DistinctIds(plan) && OwnItems(plan) && IsDrain(plan, works, passes) && k < |works|
    requires s in plan && Rests(s, works[0])
    ensures Rests(s, works[k])
  {
    if k > 0 {
      RestingStays(plan, works, passes, k - 1, s);
      assert Passes(plan, works[k - 1], passes[k - 1], works[k]);
      PassLeavesResting(plan, works[k - 1], passes[k - 1], works[k], s);
    }
  }

  lemma PassLeavesResting(plan: seq<Stream>, w: Work, pass: Pass, v: Work, s: Stream)
    requires DistinctIds(plan) && OwnItems(plan) && Passes(plan, w, pass, v) && s in plan && Rests(s, w)
    ensures Rests(s, v)
  {
    if pass.Batch? {
      forall id | id in s.items
        ensures id !in ItemsOf(plan, pass.ids)
      {
      }
    }
  }

  /** The statuses the workers of turn `i` start from: what remediation reopened after the turn before. */
  function ItemsBefore(plan: seq<Stream>, items: Statuses, rounds: seq<Round>, i: nat): Statuses
    requires i < |rounds|
  {
    if i == 0 then items
    else Painted(rounds[i - 1].items, ItemsOf(plan, AffectedIds(plan, rounds[i - 1].mentioned)), Pending)
  }

  function StreamsBefore(plan: seq<Stream>, streams: Statuses, rounds: seq<Round>, i: nat): Statuses
    requires i < |rounds|
  {
    if i == 0 then streams
    else Painted(rounds[i - 1].streams, AffectedIds(plan, rounds[i - 1].mentioned), Pending)
  }

  ghost predicate Turns(plan: seq<Stream>, items: Statuses, streams: Statuses, rounds: seq<Round>) {
    forall i :: 0 <= i < |rounds| ==>
      Drains(plan, Work(ItemsBefore(plan, items, rounds, i), StreamsBefore(plan, streams, rounds, i)),
        Work(rounds[i].items, rounds[i].streams))
  }

  predicate OwnItems(plan: seq<Stream>) {
    forall s, t, id :: s in plan && t in plan && id in s.items && id in t.items ==> s == t
  }

  /**
   * Remediation reopens only what it charges: a stream finished before the loop and charged by no
   * failed turn reaches the end of the loop with its status and its approved items, if workers
   * keep to the items of their own streams, as `Passes` assumes.
   */
  lemma {:induction false} UnchargedWorkStays(plan: seq<Stream>, items: Statuses, streams: Statuses,
      rounds: seq<Round>, n: nat, s: Stream)
    requires DistinctIds(plan) && OwnItems(plan) && Turns(plan, items, streams, rounds) && n < |rounds|
    requires s in plan && Rests(s, Work(items, streams))
    requires forall i :: 0 <= i < n ==> s.id !in AffectedIds(plan, rounds[i].mentioned)
    ensures Rests(s, Work(rounds[n].items, rounds[n].streams))
  {
    hide *;
    if n > 0 {
      UnchargedWorkStays(plan, items, streams, rounds, n - 1, s);
      UnpaintedRests(plan, rounds[n - 1], s);
    }
    TurnStart(plan, items, streams, rounds, n);
    DrainLeavesResting(plan, Work(ItemsBefore(plan, items, rounds, n), StreamsBefore(plan, streams, rounds, n)),
      Work(rounds[n].items, rounds[n].streams), s);
  }

  lemma TurnStart(plan: seq<Stream>, items: Statuses, streams: Statuses, rounds: seq<Round>, n: nat)
    requires Turns(plan, items, streams, rounds) && n < |rounds|
    ensures var from := Work(ItemsBefore(plan, items, rounds, n), StreamsBefore(plan, streams, rounds, n));
      && Drains(plan, from, Work(rounds[n].items, rounds[n].streams))
      && from == if n == 0 then Work(items, streams)
                 else
                   var ids := AffectedIds(plan, rounds[n - 1].mentioned);
                   Work(Painted(rounds[n - 1].items, ItemsOf(plan, ids), Pending),
                        Painted(rounds[n - 1].streams, ids, Pending))
  {
    hide Drains, Painted, AffectedIds, ItemsOf;
  }

  lemma DrainLeavesResting(plan: seq<Stream>, before: Work, after: Work, s: Stream)
    requires DistinctIds(plan) && OwnItems(plan) && s in plan && Drains(plan, before, after) && Rests(s, before)
    ensures Rests(s, after)
  {
    hide Rests, Passes;
    var works, passes :| IsDrain(plan, works, passes) && works[0] == before && works[|passes|] == after;
    RestingStays(plan, works, passes, |passes|, s);
  }

  lemma UnpaintedRests(plan: seq<Stream>, r: Round, s: Stream)
    requires DistinctIds(plan) && OwnItems(plan) && s in plan && Rests(s, Work(r.items, r.streams))
    requires s.id !in AffectedIds(plan, r.mentioned)
    ensures var ids := AffectedIds(plan, r.mentioned);
      Rests(s, Work(Painted(r.items, ItemsOf(plan, ids), Pending), Painted(r.streams, ids, Pending)))
  {
    hide AffectedIds;
    var ids := AffectedIds(plan, r.mentioned);
    forall id | id in s.items
      ensures id !in ItemsOf(plan, ids)
    {
    }
  }

  lemma PlanHasStatuses(plan: seq<Stream>, streams: Statuses)
    requires Covers(plan, streams)
    ensures forall s <- plan :: s.id in streams
  {
  }

  lemma GivesUp(plan: seq<Stream>, mentioned: set<string>, streams: Statuses)
    requires forall s <- plan :: s.id in streams
    ensures forall s <- plan ::
      var after := Painted(streams, AffectedIds(plan, mentioned), Abandoned);
      && s.id in after
      && after[s.id] ==
           if s.id in mentioned || forall t <- plan :: t.id !in mentioned then Abandoned else streams[s.id]
  {
    hide AffectedIds;
    forall s | s in plan
      ensures var after := Painted(streams, AffectedIds(plan, mentioned), Abandoned);
        && s.id in after
        && after[s.id] ==
           if s.id in mentioned || forall t <- plan :: t.id !in mentioned then Abandoned else streams[s.id]
    {
      ChargedExactly(plan, mentioned, s.id);
    }
  }

  class Settlement {
    const plan: seq<Stream>
    const required: bool
    var itemStatus: Statuses
    var streamStatus: Statuses
    var gate: bool
    var cancelled: bool
    var reports: map<string, Report>
    var reviews: nat

    predicate Valid()
      reads this
    {
      DistinctIds(plan) && Covers(plan, streamStatus)
    }

    constructor (plan: seq<Stream>, required: bool, items: Statuses, streams: Statuses)
      requires DistinctIds(plan) && Covers(plan, streams)
      ensures Valid() && this.plan == plan && this.required == required
      ensures itemStatus == items && streamStatus == streams
      ensures !gate && !cancelled && reports == map[] && reviews == 0
    {
      this.plan, this.required := plan, required;
      itemStatus, streamStatus := items, streams;
      gate, cancelled, reports, reviews := false, false, map[], 0;
    }

    /** Marks the affected streams and their items, to retry them or to give them up. */
    method Mark(mentioned: set<string>, mark: Status)
      requires Valid()
      modifies this`itemStatus, this`streamStatus
      ensures Valid()
      ensures itemStatus == Painted(old(itemStatus), ItemsOf(plan, AffectedIds(plan, mentioned)), mark)
      ensures streamStatus == Painted(old(streamStatus), AffectedIds(plan, mentioned), mark)
    {
      hide Painted, ItemsOf, SetOf, IdsOf;
      var ids := AffectedIds(plan, mentioned);
      PaintTwice(itemStatus, {}, {}, mark);
      PaintTwice(streamStatus, {}, {}, mark);
      Nothing(plan, ids);
      for i := 0 to |plan|
        invariant itemStatus == Painted(old(itemStatus), ItemsOf(plan[..i], ids), mark)
        invariant streamStatus == Painted(old(streamStatus), ids * IdsOf(plan[..i]), mark)
      {
        OneMore(plan, i, ids);
        PaintTwice(old(itemStatus), ItemsOf(plan[..i], ids), SetOf(plan[i].items), mark);
        PaintTwice(old(streamStatus), ids * IdsOf(plan[..i]), {plan[i].id}, mark);
        if plan[i].id in ids {
          MarkStream(plan[i], mark);
        } else {
          assert ItemsOf(plan[..i + 1], ids) == ItemsOf(plan[..i], ids);
          assert ids * IdsOf(plan[..i + 1]) == ids * IdsOf(plan[..i]);
        }
      }
      assert plan[..|plan|] == plan;
      Everything(plan, mentioned);
      MarkKeeps(plan, mentioned, old(streamStatus), mark);
    }

    method MarkStream(s: Stream, mark: Status)
      modifies this`itemStatus, this`streamStatus
      ensures itemStatus == Painted(old(itemStatus), SetOf(s.items), mark)
      ensures streamStatus == Painted(old(streamStatus), {s.id}, mark)
    {
      hide Painted, SetOf;
      PaintOne(streamStatus, s.id, mark);
      streamStatus := streamStatus[s.id := mark];
      assert SetOf(s.items[..0]) == {} by {
        NoItems(s.items);
      }
      PaintTwice(itemStatus, {}, {}, mark);
      for j := 0 to |s.items|
        invariant itemStatus == Painted(old(itemStatus), SetOf(s.items[..j]), mark)
        invariant streamStatus == Painted(old(streamStatus), {s.id}, mark)
      {
        OneMoreItem(s.items, j);
        PaintOne(itemStatus, s.items[j], mark);
        PaintTwice(old(itemStatus), SetOf(s.items[..j]), {s.items[j]}, mark);
        itemStatus := itemStatus[s.items[j] := mark];
      }
      assert s.items[..|s.items|] == s.items;
    }

    /**
     * The gate loop over the turns the workers, the tests and remediation produce. It hands over
     * the statuses of the turn that ended it, with the work of an exhausted remediation given up.
     */
    method RunGate(rounds: seq<Round>) returns (done: bool, n: nat)
      requires Valid() && !gate && !cancelled
      requires forall r <- rounds :: Covers(plan, r.streams)
      modifies this`itemStatus, this`streamStatus, this`gate, this`cancelled
      ensures Valid()
      ensures !done ==> forall r <- rounds :: GateOf(r, required) == Retry
      ensures !done ==> !gate && !cancelled
      ensures done ==> EndsAt(rounds, required, n)
      ensures done ==> itemStatus == ItemsLeft(plan, rounds[n], required)
      ensures done ==> streamStatus == StreamsLeft(plan, rounds[n], required)
      ensures done ==> gate == (GateOf(rounds[n], required) in {NotRequired, Passed})
      ensures done ==> cancelled == (GateOf(rounds[n], required) == Stopped)
      // every turn before the last failed its required tests and was granted another one
      ensures n <= |rounds| && (!done ==> n == |rounds|)
      ensures forall i :: 0 <= i < n ==> FailedAndRetried(rounds[i], required)
      // the gate opens for approved work whose tests passed or were not required
      ensures done ==> (gate <==>
        && !rounds[n].stopped && Cancelled !in rounds[n].streams.Values && Approved in rounds[n].streams.Values
        && (!required || (!rounds[n].stoppedInTests && rounds[n].passed)))
      ensures done ==> (cancelled <==>
        || rounds[n].stopped || Cancelled in rounds[n].streams.Values
        || (Approved in rounds[n].streams.Values && required && rounds[n].stoppedInTests))
      // what a failed run is charged to is given up when no further turn is granted
      ensures done ==> forall s <- plan ::
        && s.id in rounds[n].streams
        && streamStatus[s.id] ==
          if required && Approved in rounds[n].streams.Values && !gate && !cancelled
             && (s.id in rounds[n].mentioned || forall t <- plan :: t.id !in rounds[n].mentioned)
          then Abandoned else rounds[n].streams[s.id]
    {
      hide Painted, AffectedIds, ItemsOf, Covers, DistinctIds, GateOf, FailedAndRetried;
      done, n := false, 0;
      while n < |rounds|
        invariant 0 <= n <= |rounds|
        invariant Valid() && !gate && !cancelled
        invariant forall i :: 0 <= i < n ==> GateOf(rounds[i], required) == Retry
        invariant forall i :: 0 <= i < n ==> FailedAndRetried(rounds[i], required)
      {
        var r := rounds[n];
        itemStatus, streamStatus := r.items, r.streams;
        PlanHasStatuses(plan, r.streams);
        GateExactly(r, required);
        if r.stopped || Cancelled in streamStatus.Values {
          cancelled := true;
          return true, n;
        }
        if Approved !in streamStatus.Values {
          return true, n;
        }
        if !required {
          gate := true;
          return true, n;
        }
        if r.stoppedInTests {
          cancelled := true;
          return true, n;
        }
        gate := r.passed;
        if gate {
          return true, n;
        }
        if !r.retries {
          Mark(r.mentioned, Abandoned);
          GivesUp(plan, r.mentioned, r.streams);
          return true, n;
        }
        Mark(r.mentioned, Pending);
        assert FailedAndRetried(r, required) by { Retried(r, required); }
        n := n + 1;
      }
    }

    /** Turns every state short of approval into abandonment or skipping before reports are frozen. */
    method Terminalise(attempted: set<string>)
      requires Valid()
      modifies this`itemStatus, this`streamStatus
      ensures Valid()
      ensures itemStatus == Settle(old(itemStatus), AllItems(plan), attempted)
      ensures forall s <- plan ::
        streamStatus[s.id] == SettledStream(ItemStatuses(s.items, itemStatus), old(streamStatus)[s.id])
    {
      hide Settle, AllItems, ItemStatuses, SettledStream;
      SettleNothing(itemStatus, attempted);
      assert AllItems(plan[..0]) == {} by {
        OneMoreStream(plan);
      }
      for i := 0 to |plan|
        invariant Valid()
        invariant itemStatus == Settle(old(itemStatus), AllItems(plan[..i]), attempted)
        invariant forall k :: 0 <= k < i ==>
          streamStatus[plan[k].id] ==
          SettledStream(ItemStatuses(plan[k].items, itemStatus), old(streamStatus)[plan[k].id])
        invariant forall k :: i <= k < |plan| ==> streamStatus[plan[k].id] == old(streamStatus)[plan[k].id]
      {
        var s := plan[i];
        ghost var was := itemStatus;
        SettleItems(s.items, attempted);
        SettleTwice(old(itemStatus), AllItems(plan[..i]), SetOf(s.items), attempted);
        forall k | 0 <= k < i
          ensures ItemStatuses(plan[k].items, itemStatus) == ItemStatuses(plan[k].items, was)
        {
          StaysSettled(old(itemStatus), AllItems(plan[..i]), SetOf(s.items), attempted, plan[..i], k);
        }
        OneMoreStream(plan);
        EndStream(s);
      }
      assert plan[..|plan|] == plan;
    }

    method EndStream(s: Stream)
      requires s.id in streamStatus
      modifies this`streamStatus
      ensures streamStatus
        == old(streamStatus)[s.id := SettledStream(ItemStatuses(s.items, itemStatus), old(streamStatus)[s.id])]
    {
      var ends := ItemStatuses(s.items, itemStatus);
      if ends != [] && forall e <- ends :: e == Approved {
        streamStatus := streamStatus[s.id := Approved];
      } else if Abandoned in ends || streamStatus[s.id] in {Running, Failed, Blocked, Abandoned} {
        streamStatus := streamStatus[s.id := Abandoned];
      } else {
        streamStatus := streamStatus[s.id := Skipped];
      }
    }

    method SettleItems(items: seq<string>, attempted: set<string>)
      modifies this`itemStatus
      ensures itemStatus == Settle(old(itemStatus), SetOf(items), attempted)
    {
      hide Settle, SetOf;
      NoItems(items);
      SettleNothing(itemStatus, attempted);
      for j := 0 to |items|
        invariant itemStatus == Settle(old(itemStatus), SetOf(items[..j]), attempted)
      {
        ghost var was := itemStatus;
        var now := StatusOf(itemStatus, items[j], Pending);
        OneMoreItem(items, j);
        SettleOne(was, items[j], attempted);
        SettleTwice(old(itemStatus), SetOf(items[..j]), {items[j]}, attempted);
        if !IsTerminal(now) {
          itemStatus := itemStatus[items[j] := if items[j] in attempted then Abandoned else Skipped];
        }
      }
      assert items[..|items|] == items;
    }

    /** The one report of a Manager: an existing one is returned as it is. */
    method SettleManager(t: Terminal) returns (r: Report)
      requires |t.items| == |t.stream.items|
      modifies this`reports
      ensures ManagerOf(t.stream) in old(reports) ==>
        reports == old(reports) && r == reports[ManagerOf(t.stream)]
      ensures ManagerOf(t.stream) !in old(reports) ==>
        Reports(t, r) && reports == old(reports)[ManagerOf(t.stream) := r]
    {
      var manager := ManagerOf(t.stream);
      if manager in reports {
        return reports[manager];
      }
      r := BuildReport(t);
      reports := reports[manager := r];
    }

    /** Every Manager of the plan reports, the first stream of a Manager speaking for it. */
    method SettleAll(ts: seq<Terminal>)
      requires reports == map[]
      requires forall t <- ts :: |t.items| == |t.stream.items|
      modifies this`reports
      ensures reports.Keys == Managers(ts)
      ensures forall k :: 0 <= k < |ts| && FirstOfManager(ts, k) ==> Reports(ts[k], reports[ManagerOf(ts[k].stream)])
    {
      hide Reports, ManagerOf, Managers, FirstOfManager;
      OneMoreManagerNone(ts);
      for i := 0 to |ts|
        invariant reports.Keys == Managers(ts[..i])
        invariant forall k :: 0 <= k < i && FirstOfManager(ts, k) ==>
          ManagerOf(ts[k].stream) in reports && Reports(ts[k], reports[ManagerOf(ts[k].stream)])
      {
        var r := SettleManager(ts[i]);
        OneMoreManager(ts, i);
      }
      assert ts[..|ts|] == ts;
    }

    /** The barrier the Director waits behind: exactly the expected Managers have reported. */
    method ReportBarrier() returns (satisfied: bool)
      ensures satisfied <==> AllReported(Expected(plan), reports.Keys)
    {
      SortedListsDecide(Expected(plan), reports.Keys);
      satisfied := multiset(reports.Keys) == multiset(Expected(plan));
    }

    /** Terminal statuses, then every Manager's report. */
    method Freeze(attempted: set<string>) returns (ts: seq<Terminal>)
      requires Valid() && reports == map[]
      modifies this`itemStatus, this`streamStatus, this`reports
      ensures reports.Keys == ManagersOf(plan)
      ensures ReportsSplit(plan, reports)
      ensures !cancelled ==> ReportsTell(plan, old(itemStatus), attempted, reports)
      ensures !cancelled ==> Sees(plan, ts, old(itemStatus))
    {
      hide Settle, AllItems, Covers, SettledStream, ItemStatuses, View;
      hide Managers, ManagersOf, FirstOfManager, Reports, AllSettled, ReportsTell, ReportsSplit, Done, Sees;
      ghost var items, streams := itemStatus, streamStatus;
      if !cancelled {
        Terminalise(attempted);
        ViewSettled(plan, items, streams, attempted, streamStatus);
      }
      ts := TerminalStreams();
      ViewManagers(plan, ts);
      SettleAll(ts);
      ReportsSplitAll(plan, ts, reports);
      if !cancelled {
        ReportsTold(plan, ts, items, streams, attempted, reports);
        VerdictTells(plan, ts, items, streams, attempted);
      }
    }

    /**
     * From the gate loop to the stored plan status. `stopNow` and `stopLater` are the two further
     * readings of the stop flag, `covered` the answer of completion reconciliation.
     */
    method Conclude(rounds: seq<Round>, attempted: set<string>, stopNow: bool, stopLater: bool,
        review: Review, covered: bool) returns (end: Ending, n: nat)
      requires Valid() && !gate && !cancelled && reports == map[] && reviews == 0
      requires forall r <- rounds :: Covers(plan, r.streams)
      modifies this
      ensures end.Unfinished? <==> forall r <- rounds :: GateOf(r, required) == Retry
      ensures !end.Unfinished? ==> EndsAt(rounds, required, n)
      ensures !end.Unfinished? ==> (end.Ended? <==> AllReported(Expected(plan), ManagersOf(plan)))
      ensures !end.Unfinished? ==> reports.Keys == ManagersOf(plan) && ReportsSplit(plan, reports)
      ensures !end.Unfinished? && GateOf(rounds[n], required) != Stopped ==>
        ReportsTell(plan, ItemsLeft(plan, rounds[n], required), attempted, reports)
      ensures end.Ended? ==>
        EndsAs(plan, rounds[n], GateOf(rounds[n], required), stopNow, stopLater, review, covered, end.status)
      ensures end.Ended? ==> reviews == if GateOf(rounds[n], required) != Stopped && !stopNow then 1 else 0
      // a plan is completed exactly when it was not stopped, its tests passed or were not required, every
      // stream has items and all of them are approved, and the Director's review approves the plan
      ensures end.Ended? ==> n < |rounds| && var r := rounds[n];
        && (end.status == PlanCompleted <==>
             && !r.stopped && !stopNow && Cancelled !in r.streams.Values && Approved in r.streams.Values
             && (!required || (!r.stoppedInTests && r.passed))
             && (forall s <- plan :: s.items != [] && forall id <- s.items :: id in r.items && r.items[id] == Approved)
             && covered && review == Review("complete_plan", "approved"))
        && (end.status == PlanCancelled <==>
             || r.stopped || Cancelled in r.streams.Values
             || (Approved in r.streams.Values && required && r.stoppedInTests)
             || (stopNow && stopLater))
        && (end.status == PlanPartial <==>
             && end.status != PlanCancelled && covered
             && ((exists s <- plan ::
                    s.items == [] || exists id <- s.items :: !(id in r.items && r.items[id] == Approved))
                 || (Approved in r.streams.Values && required && !r.passed)))
    {
      hide Covers, GateOf, ManagersOf, AllReported, ReportsTell, ReportsSplit, EndsAs, Verdict, Sees;
      hide ItemsLeft, StreamsLeft;
      var done;
      done, n := RunGate(rounds);
      if !done {
        end := Unfinished;
        return;
      }
      var ts := Freeze(attempted);
      var satisfied := ReportBarrier();
      if !satisfied {
        end := ReportsMissing;
        return;
      }
      var reviewed := None;
      if !cancelled && !stopNow {
        reviewed := Some(review);
        reviews := reviews + 1;
      } else if stopLater {
        cancelled := true;
      }
      end := Ended(Verdict(ts, gate, cancelled, reviewed, covered));
      VerdictEnds(plan, rounds[n], required, ts, stopNow, stopLater, review, covered);
      EndsExactly(plan, rounds[n], required, stopNow, stopLater, review, covered, end.status);
    }

    method TerminalStreams() returns (ts: seq<Terminal>)
      requires Valid()
      ensures ts == View(plan, itemStatus, streamStatus)
    {
      ts := View(plan, itemStatus, streamStatus);
    }
  }

  /** Both streams run in one batch; the review call of the second one's Manager fails. */
  function GivenUp(): Round {
    Round(map["x" := Approved, "y" := Approved], map["a" := Approved, "b" := Abandoned],
      false, false, false, {}, false)
  }

  function TwoStreams(): seq<Stream> {
    [Stream("a", ["x"], "", "m"), Stream("b", ["y"], "", "n")]
  }

  lemma GivenUpIsWorked()
    ensures Drains(TwoStreams(), Work(map["x" := Pending, "y" := Pending], map["a" := Pending, "b" := Pending]),
      Work(GivenUp().items, GivenUp().streams))
  {
    var w := Work(map["x" := Pending, "y" := Pending], map["a" := Pending, "b" := Pending]);
    var v := Work(GivenUp().items, GivenUp().streams);
    var plan := TwoStreams();
    assert plan[0] in plan && plan[1] in plan && "x" in plan[0].items && "y" in plan[1].items;
    assert "x" in ItemsOf(plan, {"a", "b"}) && "y" in ItemsOf(plan, {"a", "b"});
    assert Passes(TwoStreams(), w, Batch({"a", "b"}), v);
    assert IsDrain(TwoStreams(), [w, v], [Batch({"a", "b"})]);
    assert [w, v][0] == w && [w, v][|[Batch({"a", "b"})]|] == v;
  }

  /**
   * The Manager's word is not needed: a stream given up because its Manager's review call failed
   * ends APPROVED when its items were approved, and the whole run ends COMPLETED.
   */
  method GivenUpStreamCompletes() returns (given: Round, end: Ending)
    ensures given.streams == map["a" := Approved, "b" := Abandoned]
    ensures given.items == map["x" := Approved, "y" := Approved]
    ensures Drains(TwoStreams(), Work(map["x" := Pending, "y" := Pending], map["a" := Pending, "b" := Pending]),
      Work(given.items, given.streams))
    ensures end == Ended(PlanCompleted)
  {
    hide *;
    var plan, before := TwoStreams(), map["a" := Pending, "b" := Pending];
    given := GivenUp();
    GivenUpIsWorked();
    TwoStreamsFacts(before);
    GivenUpFacts();
    var run := new Settlement(plan, false, map["x" := Pending, "y" := Pending], before);
    var n;
    var rounds, review := [given], Review("complete_plan", "approved");
    end, n := run.Conclude(rounds, {}, false, false, review, true);
    GivenUpEnds(rounds, n, review, end);
  }

  lemma TwoStreamsFacts(before: Statuses)
    requires before.Keys == {"a", "b"}
    ensures DistinctIds(TwoStreams()) && Covers(TwoStreams(), before)
    ensures AllReported(Expected(TwoStreams()), ManagersOf(TwoStreams()))
  {
    var plan := TwoStreams();
    assert plan[0] in plan && plan[1] in plan && plan[0].id == "a" && plan[1].id == "b";
    assert ManagerOf(plan[0]) == "m" && ManagerOf(plan[1]) == "n";
    assert Expected(plan) == ["m", "n"];
  }

  lemma GivenUpFacts()
    ensures Covers(TwoStreams(), GivenUp().streams) && GateOf(GivenUp(), false) == NotRequired
    ensures Done(TwoStreams(), GivenUp().items)
    ensures GivenUp().streams == map["a" := Approved, "b" := Abandoned]
    ensures GivenUp().items == map["x" := Approved, "y" := Approved]
  {
    var r, plan := GivenUp(), TwoStreams();
    assert plan[0] in plan && plan[1] in plan && plan[0].id == "a" && plan[1].id == "b";
    assert r.streams["a"] == Approved && r.streams["b"] == Abandoned;
    assert Approved in r.streams.Values && Cancelled !in r.streams.Values;
  }

  lemma GivenUpEnds(rounds: seq<Round>, n: nat, review: Review, end: Ending)
    requires rounds == [GivenUp()] && review == Review("complete_plan", "approved")
    requires GateOf(GivenUp(), false) == NotRequired && Done(TwoStreams(), GivenUp().items)
    requires end.Unfinished? <==> forall r <- rounds :: GateOf(r, false) == Retry
    requires !end.Unfinished? ==> EndsAt(rounds, false, n) && end.Ended?
    requires end.Ended? ==>
      EndsAs(TwoStreams(), rounds[n], GateOf(rounds[n], false), false, false, review, true, end.status)
    ensures end == Ended(PlanCompleted)
  {
    hide Done, GateOf;
    assert rounds[0] in rounds;
    assert n == 0;
  }
}

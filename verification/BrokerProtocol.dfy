/** Publishers and closers of one broker, interleaved at its lock sections. */
module BrokerProtocol {
  import opened Common
  import opened EventBroker

  /** A publisher between admission and the end of `put_many`. */
  datatype Publisher = Admitted(batch: seq<Event>) | Done

  /** A caller of `close`; `own` tells whether it drained by itself. */
  datatype Closer = Entered | Stopped | Drained(ok: bool) | Returned(result: bool, own: bool)

  datatype State = State(
    accepting: bool, closed: bool, active: nat, sequence: nat, history: seq<Stored>,
    publishers: map<nat, Publisher>, closers: map<nat, Closer>)

  datatype Step =
    | Admit(id: nat, batch: seq<Event>)
    | Publish(id: nat)
    | Finish(id: nat)
    | StopAccepting
    | Close(id: nat)
    | CloserStops(id: nat)
    | CloserDrains(id: nat)
    | CloserMarks(id: nat)

  ghost predicate Start(s: State) {
    s.accepting && !s.closed && s.active == 0 && s.history == [] && s.publishers == map[] && s.closers == map[]
  }

  ghost predicate Next(s: State, step: Step, t: State) {
    match step
    case Admit(id, batch) =>
      && id !in s.publishers && batch != [] && s.accepting && !s.closed
      && t == s.(active := s.active + 1, publishers := s.publishers[id := Admitted(batch)])
    case Publish(id) =>
      && id in s.publishers && s.publishers[id].Admitted?
      && var accepted := AcceptAll(s.sequence, s.publishers[id].batch);
      && t == s.(history := s.history + accepted, sequence := LastSeq(s.sequence, accepted),
                 publishers := s.publishers[id := Done])
    case Finish(id) => // also straight from admission, when copying the batch raises
      && id in s.publishers && s.active > 0
      && t == s.(active := s.active - 1, publishers := s.publishers - {id})
    case StopAccepting => t == s.(accepting := false)
    case Close(id) =>
      && id !in s.closers
      && t == s.(closers := s.closers[id := if s.closed then Returned(true, false) else Entered])
    case CloserStops(id) =>
      && id in s.closers && s.closers[id] == Entered
      && t == s.(accepting := false, closers := s.closers[id := Stopped])
    case CloserDrains(id) => // the wait ends with the predicate's value, also on a timeout
      && id in s.closers && s.closers[id] == Stopped
      && t == s.(closers := s.closers[id := Drained(s.active == 0)])
    case CloserMarks(id) =>
      && id in s.closers && s.closers[id].Drained?
      && t == s.(closed := true, closers := s.closers[id := Returned(s.closers[id].ok, true)])
  }

  ghost predicate IsRun(states: seq<State>, steps: seq<Step>) {
    && |states| == |steps| + 1
    && forall k :: 0 <= k < |steps| ==> Next(states[k], steps[k], states[k + 1])
  }

  predicate DrainedByItself(c: Closer) {
    c == Drained(true) || c == Returned(true, true)
  }

  ghost predicate Inv(s: State) {
    && s.active == |s.publishers.Keys|
    && (s.closed ==> !s.accepting)
    && (forall c :: c in s.closers && s.closers[c] != Entered ==> !s.accepting)
    && (forall c :: c in s.closers && DrainedByItself(s.closers[c]) ==> s.publishers == map[])
  }

  lemma AdmitKeepsInv(s: State, step: Step, t: State)
    requires Inv(s) && step.Admit? && Next(s, step, t)
    ensures Inv(t)
  {
    hide AcceptAll, LastSeq;
    assert t.closers == s.closers && s.closed == t.closed && s.accepting == t.accepting;
    assert t.publishers.Keys == s.publishers.Keys + {step.id};
    forall c | c in s.closers
      ensures s.closers[c] == Entered && !DrainedByItself(s.closers[c])
    {
    }
  }

  lemma PublishKeepsInv(s: State, step: Step, t: State)
    requires Inv(s) && step.Publish? && Next(s, step, t)
    ensures Inv(t)
  {
    hide AcceptAll, LastSeq;
    assert t.closers == s.closers && s.closed == t.closed && s.accepting == t.accepting;
    assert t.publishers.Keys == s.publishers.Keys;
    assert s.publishers != map[];
    hide DrainedByItself;
  }

  lemma FinishKeepsInv(s: State, step: Step, t: State)
    requires Inv(s) && step.Finish? && Next(s, step, t)
    ensures Inv(t)
  {
    hide AcceptAll, LastSeq, DrainedByItself;
    assert t.closers == s.closers && s.closed == t.closed && s.accepting == t.accepting;
    assert s.publishers.Keys == t.publishers.Keys + {step.id};
    assert s.publishers != map[];
  }

  lemma PublisherKeepsInv(s: State, step: Step, t: State)
    requires Inv(s) && Next(s, step, t) && (step.Admit? || step.Publish? || step.Finish?)
    ensures Inv(t)
  {
    hide Inv, Next;
    match step
    case Admit(_, _) => AdmitKeepsInv(s, step, t);
    case Publish(_) => PublishKeepsInv(s, step, t);
    case Finish(_) => FinishKeepsInv(s, step, t);
  }

  lemma CloserKeepsInv(s: State, step: Step, t: State)
    requires Inv(s) && Next(s, step, t) && !(step.Admit? || step.Publish? || step.Finish?)
    ensures Inv(t)
  {
    hide AcceptAll, LastSeq;
    assert t.publishers == s.publishers && t.active == s.active;
    if s.active == 0 {
      assert s.publishers.Keys == {};
    }
  }

  lemma NextKeepsInv(s: State, step: Step, t: State)
    requires Inv(s) && Next(s, step, t)
    ensures Inv(t)
  {
    if step.Admit? || step.Publish? || step.Finish? {
      PublisherKeepsInv(s, step, t);
    } else {
      CloserKeepsInv(s, step, t);
    }
  }

  /** `_active_publishers` counts the admitted unfinished publishes, and none is
      admitted once intake has stopped. */
  lemma {:induction false} RunInv(states: seq<State>, steps: seq<Step>, k: nat)
    requires IsRun(states, steps) && Start(states[0]) && k < |states|
    ensures Inv(states[k])
    ensures k > 0 && !states[k - 1].accepting ==> !steps[k - 1].Admit? && !states[k].accepting
  {
    if k > 0 {
      RunInv(states, steps, k - 1);
      NextKeepsInv(states[k - 1], steps[k - 1], states[k]);
    }
  }

  /** A publisher that would still add something to the log. */
  predicate Pending(s: State, id: nat) {
    id in s.publishers && s.publishers[id].Admitted? && AcceptAll(s.sequence, s.publishers[id].batch) != []
  }

  ghost predicate Quiet(s: State) {
    !s.accepting && forall id :: !Pending(s, id)
  }

  lemma {:induction false} QuietStaysQuiet(states: seq<State>, steps: seq<Step>, k: nat)
    requires IsRun(states, steps) && Quiet(states[0]) && k < |states|
    ensures Quiet(states[k]) && states[k].history == states[0].history && states[k].sequence == states[0].sequence
  {
    if k > 0 {
      QuietStaysQuiet(states, steps, k - 1);
      var s, t := states[k - 1], states[k];
      assert Next(s, steps[k - 1], t);
      if steps[k - 1].Publish? {
        assert !Pending(s, steps[k - 1].id);
      }
      forall id
        ensures !Pending(t, id)
      {
        assert !Pending(s, id);
      }
    }
  }

  ghost predicate Final(s: State) {
    forall states: seq<State>, steps: seq<Step> | IsRun(states, steps) && states[0] == s ::
      states[|steps|].history == s.history && states[|steps|].sequence == s.sequence
  }

  /** In any state a run can reach, the log is final in every continuation exactly when intake has
      stopped and no admitted publisher still has something to add. */
  lemma FinalExactlyWhenQuiet(s: State)
    requires Inv(s)
    ensures Final(s) <==> Quiet(s)
  {
    if Quiet(s) {
      forall states: seq<State>, steps: seq<Step> | IsRun(states, steps) && states[0] == s
        ensures states[|steps|].history == s.history && states[|steps|].sequence == s.sequence
      {
        QuietStaysQuiet(states, steps, |steps|);
      }
    } else if s.accepting {
      OpenIntakeGrows(s);
    } else {
      var id :| Pending(s, id);
      PendingGrows(s, id);
    }
  }

  lemma PendingGrows(s: State, id: nat)
    requires Pending(s, id)
    ensures !Final(s)
  {
    var accepted := AcceptAll(s.sequence, s.publishers[id].batch);
    var t := s.(history := s.history + accepted, sequence := LastSeq(s.sequence, accepted),
                publishers := s.publishers[id := Done]);
    assert IsRun([s, t], [Publish(id)]);
    assert |t.history| > |s.history|;
    assert [s, t][0] == s && [s, t][|[Publish(id)]|] == t;
  }

  /** While intake is open, a new publisher can be admitted and can add an event. */
  lemma OpenIntakeGrows(s: State)
    requires Inv(s) && s.accepting
    ensures !Final(s)
  {
    var e := Event(0, "status", "late");
    var id := FreeId(s.publishers.Keys);
    var accepted := AcceptAll(s.sequence, [e]);
    OneAccepted(s.sequence, e);
    hide AcceptAll;
    var t := s.(active := s.active + 1, publishers := s.publishers[id := Admitted([e])]);
    var u := t.(history := t.history + accepted, sequence := LastSeq(t.sequence, accepted),
                publishers := t.publishers[id := Done]);
    var states, steps := [s, t, u], [Admit(id, [e]), Publish(id)];
    assert Next(s, steps[0], t) && Next(t, steps[1], u);
    assert IsRun(states, steps) && states[0] == s && states[|steps|] == u;
    assert |u.history| > |s.history|;
  }

  lemma OneAccepted(sequence: nat, e: Event)
    requires e.durable == 0
    ensures AcceptAll(sequence, [e]) == [Stored(e, sequence + 1, None)]
  {
    assert [e][1..] == [];
    assert AcceptAll(sequence + 1, []) == [];
  }

  lemma {:induction false} FreeId(ids: set<nat>) returns (id: nat)
    ensures forall i: nat :: i in ids ==> i < id
  {
    if ids == {} {
      id := 0;
    } else {
      var one :| one in ids;
      var above := FreeId(ids - {one});
      id := if one < above then above else one + 1;
      forall i: nat | i in ids
        ensures i < id
      {
        assert i == one || i in ids - {one};
      }
    }
  }

  /** After a `close` that drained by itself and answers True, nothing changes
      the log any more. */
  lemma DrainedCloseIsFinal(states: seq<State>, steps: seq<Step>, k: nat, m: nat, c: nat)
    requires IsRun(states, steps) && Start(states[0]) && k <= m < |states|
    requires c in states[k].closers && DrainedByItself(states[k].closers[c])
    ensures states[m].history == states[k].history && states[m].sequence == states[k].sequence
    ensures states[m].active == 0
  {
    RunInv(states, steps, k);
    RunInv(states, steps, m);
    assert Quiet(states[k]);
    var later, rest := states[k..], steps[k..];
    forall i | 0 <= i < |rest|
      ensures Next(later[i], rest[i], later[i + 1])
    {
      assert Next(states[k + i], steps[k + i], states[k + i + 1]);
    }
    QuietStaysQuiet(later, rest, m - k);
    CloserStays(states, steps, k, m, c);
  }

  lemma {:induction false} CloserStays(states: seq<State>, steps: seq<Step>, k: nat, m: nat, c: nat)
    requires IsRun(states, steps) && k <= m < |states|
    requires c in states[k].closers && DrainedByItself(states[k].closers[c])
    ensures c in states[m].closers && DrainedByItself(states[m].closers[c])
    decreases m - k
  {
    if k < m {
      CloserStays(states, steps, k, m - 1, c);
      assert Next(states[m - 1], steps[m - 1], states[m]);
    }
  }

  /** A second `close` answers True without draining: when the first one timed
      out, the log can still grow after that answer. */
  lemma SecondCloseProvesNothing() returns (states: seq<State>, steps: seq<Step>)
    ensures IsRun(states, steps) && Start(states[0])
    ensures exists k, c :: 0 <= k < |steps| && c in states[k].closers && states[k].closers[c] == Returned(true, false)
              && states[k + 1].history != states[k].history
  {
    var e := Event(0, "status", "late");
    var before := TimedOut(e);
    states, steps := FirstCloseTimesOut(e);
    OneAccepted(0, e);
    hide AcceptAll, Start;
    var after := before.(history := [Stored(e, 1, None)], sequence := 1, publishers := map[7 := Done]);
    states, steps := Extend(states, steps, Publish(7), after);
    assert states[6] == before && states[7] == after;
    assert 2 in before.closers && before.closers[2] == Returned(true, false) && after.history != before.history;
  }

  /** One publish is in flight, the first close has timed out and the second one has answered True. */
  function TimedOut(e: Event): State {
    State(false, true, 1, 0, [], map[7 := Admitted([e])], map[1 := Returned(false, true), 2 := Returned(true, false)])
  }

  lemma FirstCloseTimesOut(e: Event) returns (states: seq<State>, steps: seq<Step>)
    ensures IsRun(states, steps) && Start(states[0]) && |steps| == 6 && states[6] == TimedOut(e)
  {
    hide AcceptAll;
    var s0 := State(true, false, 0, 0, [], map[], map[]);
    var s1 := s0.(active := 1, publishers := map[7 := Admitted([e])]);
    var s2 := s1.(closers := map[1 := Entered]);
    var s3 := s2.(accepting := false, closers := map[1 := Stopped]);
    var s4 := s3.(closers := map[1 := Drained(false)]);
    var s5 := s4.(closed := true, closers := map[1 := Returned(false, true)]);
    states, steps := [s0], [];
    states, steps := Extend(states, steps, Admit(7, [e]), s1);
    states, steps := Extend(states, steps, Close(1), s2);
    states, steps := Extend(states, steps, CloserStops(1), s3);
    states, steps := Extend(states, steps, CloserDrains(1), s4);
    states, steps := Extend(states, steps, CloserMarks(1), s5);
    states, steps := Extend(states, steps, Close(2), TimedOut(e));
  }

  lemma Extend(states: seq<State>, steps: seq<Step>, step: Step, t: State)
    returns (states': seq<State>, steps': seq<Step>)
    requires IsRun(states, steps) && Next(states[|steps|], step, t)
    ensures states' == states + [t] && steps' == steps + [step] && IsRun(states', steps')
  {
    states', steps' := states + [t], steps + [step];
  }
}

/** Several appends to one task, interleaved at their three repository calls, and retention. */
module AppendProtocol {
  import opened Common
  import opened EventCore

  /** An append: its event is stored, its projection is rebuilt, and it has returned or raised. */
  datatype Append =
    | Stored(event: Event)
    | Rebuilt(event: Event, projection: Projection)
    | Returned(event: Event)
    | Raised(event: Event)

  datatype State = State(
    task: string, log: seq<Event>, latest: nat, checkpoint: Option<Projection>, appends: map<nat, Append>)

  datatype Step =
    | Store(id: nat, event: Event)
    | Rebuild(id: nat)
    | Save(id: nat)
    | Compact(kept: seq<Event>)

  ghost predicate Start(s: State) {
    !Blank(s.task) && s.log == [] && s.latest == 0 && s.checkpoint == None && s.appends == map[]
  }

  /** No append of this number is on its way. */
  predicate Idle(s: State, id: nat) {
    id in s.appends ==> s.appends[id].Returned? || s.appends[id].Raised?
  }

  predicate IsNew(s: State, event: Event) {
    forall e :: e in s.log ==> e.id != event.id
  }

  /** What a rebuild makes of a log. */
  function Shown(task: string, log: seq<Event>, session: string): Result {
    ProjectEvents(log, Some(task), Some(session))
  }

  function AfterInsert(s: State, id: nat, entry: Event): State {
    s.(log := s.log + [entry], latest := entry.sequence, appends := s.appends[id := Stored(entry)])
  }

  function AfterRebuild(s: State, id: nat): State
    requires id in s.appends
  {
    var e := s.appends[id].event;
    match Shown(s.task, s.log, e.sessionId)
    case Success(p) => s.(appends := s.appends[id := Rebuilt(e, p)])
    case Failure(_) => s.(appends := s.appends[id := Raised(e)])
  }

  function AfterSave(s: State, id: nat): State
    requires id in s.appends && s.appends[id].Rebuilt?
  {
    var e, p := s.appends[id].event, s.appends[id].projection;
    if s.checkpoint.Some? && s.checkpoint.value.sequence > p.sequence then s.(appends := s.appends[id := Raised(e)])
    else s.(checkpoint := Some(p), appends := s.appends[id := Returned(e)])
  }

  /** `append_event`; a call it refuses changes nothing and is no step. */
  ghost predicate Stores(s: State, id: nat, event: Event, t: State) {
    && Idle(s, id) && event.taskId == s.task && !Blank(event.sessionId)
    && if IsNew(s, event) then
         event.sequence in {0, s.latest + 1} && t == AfterInsert(s, id, event.(sequence := s.latest + 1))
       else
         exists e :: e in s.log && e.id == event.id && t == s.(appends := s.appends[id := Stored(e)])
  }

  ghost predicate Next(s: State, step: Step, t: State) {
    match step
    case Store(id, event) => Stores(s, id, event, t)
    case Rebuild(id) => id in s.appends && s.appends[id].Stored? && t == AfterRebuild(s, id)
    case Save(id) => id in s.appends && s.appends[id].Rebuilt? && t == AfterSave(s, id)
    case Compact(kept) => Thinned(kept, s.log) && t == s.(log := kept)
  }

  ghost predicate IsRun(states: seq<State>, steps: seq<Step>) {
    && |states| == |steps| + 1
    && forall k :: 0 <= k < |steps| ==> Next(states[k], steps[k], states[k + 1])
  }

  // ---- every run ----

  ghost predicate Inv(s: State) {
    && !Blank(s.task) && ValidLog(s.task, s.log, s.latest)
    && (s.checkpoint.Some? ==> s.checkpoint.value.sequence <= s.latest)
    && (forall id :: id in s.appends ==> !Blank(s.appends[id].event.sessionId))
    && (forall id :: id in s.appends && s.appends[id].Rebuilt? ==> s.appends[id].projection.sequence <= s.latest)
  }

  /** A projection that succeeds is one of the whole log. */
  lemma ShownExactly(task: string, log: seq<Event>, latest: nat, session: string)
    requires !Blank(task) && !Blank(session) && ValidLog(task, log, latest)
    ensures var r := Shown(task, log, session);
            && (r.Success? <==> Numbered(log, 0) && forall e :: e in log ==> e.sessionId == session)
            && (r.Success? ==> r.projection.sequence == |log| <= latest)
  {
    FullExactly(log, latest);
    if log == [] {
      EmptyReplay(task, session);
      hide ProjectEvents, Blank;
    } else {
      hide ProjectEvents, Blank;
      RebuildSucceeds(log, task, session);
    }
  }

  lemma NextKeepsInv(s: State, step: Step, t: State)
    requires Inv(s) && Next(s, step, t)
    ensures Inv(t)
  {
    hide Blank, Shown, ValidLog, Thinned;
    match step
    case Store(id, event) =>
      if IsNew(s, event) {
        LogGrows(s.task, s.log, s.latest, event.(sequence := s.latest + 1));
      } else {
        var e :| e in s.log && e.id == event.id && t == s.(appends := s.appends[id := Stored(e)]);
        EntryIds(s.task, s.log, s.latest, e);
      }
    case Rebuild(id) => ShownExactly(s.task, s.log, s.latest, s.appends[id].event.sessionId);
    case Save(_) =>
    case Compact(kept) => LogShrinks(s.task, kept, s.log, s.latest);
  }

  lemma EntryIds(task: string, log: seq<Event>, latest: nat, e: Event)
    requires ValidLog(task, log, latest) && e in log
    ensures !Blank(e.sessionId) && e.taskId == task && 1 <= e.sequence <= latest
  {
    hide Blank;
  }

  lemma {:induction false} RunInv(states: seq<State>, steps: seq<Step>, k: nat)
    requires IsRun(states, steps) && Start(states[0]) && k < |states|
    ensures Inv(states[k]) && states[k].task == states[0].task
  {
    if k > 0 {
      RunInv(states, steps, k - 1);
      NextKeepsInv(states[k - 1], steps[k - 1], states[k]);
      hide Blank, Shown, Inv;
      assert Next(states[k - 1], steps[k - 1], states[k]);
    }
  }

  /** Whatever appends and retention do, the stored checkpoint is never replaced by an older one. */
  lemma {:induction false} CheckpointNeverFalls(states: seq<State>, steps: seq<Step>, i: nat, k: nat)
    requires IsRun(states, steps) && i <= k < |states|
    ensures states[i].checkpoint.Some? ==>
              states[k].checkpoint.Some? && states[k].checkpoint.value.sequence >= states[i].checkpoint.value.sequence
    decreases k - i
  {
    if i < k {
      CheckpointNeverFalls(states, steps, i, k - 1);
      hide Shown, Thinned, Blank;
      assert Next(states[k - 1], steps[k - 1], states[k]);
    }
  }

  // ---- runs of one session, without retention ----

  ghost predicate Plain(steps: seq<Step>, session: string) {
    && !Blank(session)
    && forall k :: 0 <= k < |steps| ==>
      !steps[k].Compact? && (steps[k].Store? ==> steps[k].event.sessionId == session)
  }

  /** The projection of a front of the log. */
  ghost predicate Shows(s: State, session: string, p: Projection) {
    0 < p.sequence <= |s.log| && Shown(s.task, s.log[..p.sequence], session) == Success(p)
  }

  /** What one append has come to. */
  ghost predicate SoundAppend(s: State, session: string, a: Append) {
    && a.event in s.log
    && match a
      case Stored(_) => true
      case Rebuilt(e, p) => Shows(s, session, p) && e.sequence <= p.sequence
      case Returned(e) => s.checkpoint.Some? && e.sequence <= s.checkpoint.value.sequence
      case Raised(e) => s.checkpoint.Some? && e.sequence <= s.checkpoint.value.sequence
  }

  /** An append on its way that will save the projection of the whole log, or a longer one. */
  predicate Pending(s: State, id: nat) {
    && id in s.appends
    && (s.appends[id].Stored? || (s.appends[id].Rebuilt? && s.appends[id].projection.sequence == |s.log|))
  }

  ghost predicate Sound(s: State, session: string) {
    && !Blank(s.task) && !Blank(session) && IsLog(s.log, s.task, session) && s.latest == |s.log|
    && (s.checkpoint.Some? ==> Shows(s, session, s.checkpoint.value))
    && (forall id :: id in s.appends ==> SoundAppend(s, session, s.appends[id]))
  }

  ghost predicate Covered(s: State) {
    || s.log == []
    || (s.checkpoint.Some? && s.checkpoint.value.sequence == |s.log|)
    || exists id :: Pending(s, id)
  }

  lemma FrontStays(s: State, t: State, session: string, p: Projection)
    requires Shows(s, session, p) && s.log <= t.log && s.task == t.task
    ensures Shows(t, session, p)
  {
    assert t.log[..p.sequence] == s.log[..p.sequence];
  }

  lemma InsertIsSound(s: State, session: string, id: nat, entry: Event)
    requires Sound(s, session) && entry.taskId == s.task && entry.sessionId == session && entry.sequence == s.latest + 1
    ensures Sound(AfterInsert(s, id, entry), session) && Covered(AfterInsert(s, id, entry))
  {
    hide Shown, Blank;
    var t := AfterInsert(s, id, entry);
    assert s.log <= t.log;
    forall i | i in t.appends
      ensures SoundAppend(t, session, t.appends[i])
    {
      if i == id {
        assert t.log[|s.log|] == entry;
      } else {
        assert SoundAppend(s, session, s.appends[i]);
        if s.appends[i].Rebuilt? {
          FrontStays(s, t, session, s.appends[i].projection);
        }
      }
    }
    if s.checkpoint.Some? {
      FrontStays(s, t, session, s.checkpoint.value);
    }
    assert Pending(t, id);
  }

  lemma RetryIsSound(s: State, session: string, id: nat, e: Event)
    requires Sound(s, session) && e in s.log
    ensures var t := s.(appends := s.appends[id := Stored(e)]); Sound(t, session) && Covered(t)
  {
    hide Shown, Blank, IsLog;
    var t := s.(appends := s.appends[id := Stored(e)]);
    SameStore(s, t, session, id);
    assert Pending(t, id);
  }

  /** Log and checkpoint are as before, and so are the other appends. */
  lemma SameStore(s: State, t: State, session: string, id: nat)
    requires Sound(s, session) && id in t.appends && t == s.(appends := s.appends[id := t.appends[id]])
    requires SoundAppend(t, session, t.appends[id])
    ensures Sound(t, session)
  {
    hide Shown, Blank, IsLog;
    forall i | i in t.appends
      ensures SoundAppend(t, session, t.appends[i])
    {
      assert i != id ==> SoundAppend(s, session, s.appends[i]);
    }
  }

  lemma RebuildIsSound(s: State, session: string, id: nat)
    requires Sound(s, session) && Covered(s) && id in s.appends && s.appends[id].Stored?
    ensures var t := AfterRebuild(s, id);
            && Sound(t, session) && Covered(t)
            && t.appends[id].Rebuilt? && t.appends[id].projection.sequence == |s.log|
  {
    var t, e := AfterRebuild(s, id), s.appends[id].event;
    assert SoundAppend(s, session, s.appends[id]);
    LogIsPlain(s, session, e);
    hide Shown, Blank, IsLog;
    ShownExactly(s.task, s.log, s.latest, session);
    assert s.log[..|s.log|] == s.log;
    assert Shows(t, session, t.appends[id].projection);
    SameStore(s, t, session, id);
    assert Pending(t, id);
  }

  lemma LogIsPlain(s: State, session: string, e: Event)
    requires Sound(s, session) && e in s.log
    ensures ValidLog(s.task, s.log, s.latest) && Numbered(s.log, 0) && forall x :: x in s.log ==> x.sessionId == session
    ensures e.sessionId == session && e.sequence <= |s.log|
  {
    hide Shown, Blank, SoundAppend;
  }

  lemma SaveIsSound(s: State, session: string, id: nat)
    requires Sound(s, session) && Covered(s) && id in s.appends && s.appends[id].Rebuilt?
    ensures Sound(AfterSave(s, id), session) && Covered(AfterSave(s, id))
  {
    hide Shown, Blank, IsLog;
    var t, p := AfterSave(s, id), s.appends[id].projection;
    assert SoundAppend(s, session, s.appends[id]);
    forall i | i in t.appends
      ensures SoundAppend(t, session, t.appends[i])
    {
      assert SoundAppend(s, session, s.appends[i]);
      if t.appends[i].Rebuilt? {
        FrontStays(s, t, session, t.appends[i].projection);
      }
    }
    if s.checkpoint.Some? {
      FrontStays(s, t, session, s.checkpoint.value);
    }
    FrontStays(s, t, session, p);
    if i :| Pending(s, i) {
      assert i != id ==> Pending(t, i);
    }
  }

  lemma NextIsSound(s: State, session: string, step: Step, t: State)
    requires Sound(s, session) && Covered(s) && Next(s, step, t)
    requires !step.Compact? && (step.Store? ==> step.event.sessionId == session)
    ensures Sound(t, session) && Covered(t)
  {
    hide Shown, Blank, Sound, Covered, IsLog;
    match step
    case Store(id, event) =>
      if IsNew(s, event) {
        LatestIsLength(s, session);
        InsertIsSound(s, session, id, event.(sequence := s.latest + 1));
      } else {
        var e :| e in s.log && e.id == event.id && t == s.(appends := s.appends[id := Stored(e)]);
        RetryIsSound(s, session, id, e);
      }
    case Rebuild(id) => RebuildIsSound(s, session, id);
    case Save(id) => SaveIsSound(s, session, id);
  }

  lemma LatestIsLength(s: State, session: string)
    requires Sound(s, session)
    ensures s.latest == |s.log|
  {
  }

  lemma {:induction false} PlainRunIsSound(states: seq<State>, steps: seq<Step>, session: string, k: nat)
    requires IsRun(states, steps) && Start(states[0]) && Plain(steps, session) && k < |states|
    ensures Sound(states[k], session) && Covered(states[k])
  {
    hide Shown, Blank;
    if k > 0 {
      PlainRunIsSound(states, steps, session, k - 1);
      hide Sound, Covered;
      NextIsSound(states[k - 1], session, steps[k - 1], states[k]);
    }
  }

  /** When no append is on its way, the checkpoint is the projection of the whole log, however the
      appends were interleaved and whichever of them raised. */
  lemma AppendsSettle(states: seq<State>, steps: seq<Step>, session: string, k: nat)
    requires IsRun(states, steps) && Start(states[0]) && Plain(steps, session) && k < |states|
    requires states[k].log != [] && forall id :: Idle(states[k], id)
    ensures states[k].checkpoint.Some?
    ensures Shown(states[k].task, states[k].log, session) == Success(states[k].checkpoint.value)
  {
    PlainRunIsSound(states, steps, session, k);
    hide Shown, Blank;
    var s := states[k];
    forall id
      ensures !Pending(s, id)
    {
      assert Idle(s, id);
    }
    assert s.log[..|s.log|] == s.log;
  }

  /** An append that has ended, by an error too, has its event in the log and in the checkpoint. */
  lemma EndedIsShown(states: seq<State>, steps: seq<Step>, session: string, k: nat, id: nat)
    requires IsRun(states, steps) && Start(states[0]) && Plain(steps, session) && k < |states|
    requires id in states[k].appends && Idle(states[k], id)
    ensures states[k].appends[id].event in states[k].log && states[k].checkpoint.Some?
    ensures states[k].appends[id].event.sequence <= states[k].checkpoint.value.sequence
  {
    PlainRunIsSound(states, steps, session, k);
    hide Shown, Blank;
    assert SoundAppend(states[k], session, states[k].appends[id]);
  }

  /** The step is not one of this append. */
  predicate Elsewhere(step: Step, id: nat) {
    step.Compact? || step.id != id
  }

  /** Step `k` saved the projection of a longer log than `n` events. */
  predicate SavesLonger(states: seq<State>, steps: seq<Step>, k: nat, n: nat)
    requires |states| == |steps| + 1
  {
    && k < |steps| && steps[k].Save? && steps[k].id in states[k + 1].appends
    && states[k + 1].appends[steps[k].id].Returned?
    && Past(states[k + 1], n)
  }

  predicate Overtaken(states: seq<State>, steps: seq<Step>, i: nat, k: nat, n: nat)
    requires |states| == |steps| + 1
  {
    exists m | i < m < k :: SavesLonger(states, steps, m, n)
  }

  /** The checkpoint is that of a log of more than `n` events. */
  predicate Past(s: State, n: nat) {
    s.checkpoint.Some? && s.checkpoint.value.sequence > n
  }

  /** Between the rebuild and the save of an append, only a longer save moves the checkpoint past it. */
  lemma {:induction false} Meanwhile(states: seq<State>, steps: seq<Step>, session: string, i: nat, k: nat, id: nat)
    requires IsRun(states, steps) && Start(states[0]) && Plain(steps, session) && i < k < |states|
    requires steps[i] == Rebuild(id) && forall m :: i < m < k ==> Elsewhere(steps[m], id)
    ensures id in states[i + 1].appends && states[i + 1].appends[id].Rebuilt?
    ensures id in states[k].appends && states[k].appends[id] == states[i + 1].appends[id]
    ensures var n := states[i + 1].appends[id].projection.sequence;
            Past(states[k], n) <==> Overtaken(states, steps, i, k, n)
    decreases k - i
  {
    if k == i + 1 {
      Caught(states, steps, session, i, id);
    } else {
      Meanwhile(states, steps, session, i, k - 1, id);
      MeanwhileStep(states, steps, i, k, id);
    }
  }

  lemma Caught(states: seq<State>, steps: seq<Step>, session: string, i: nat, id: nat)
    requires IsRun(states, steps) && Start(states[0]) && Plain(steps, session) && i < |steps| && steps[i] == Rebuild(id)
    ensures id in states[i + 1].appends && states[i + 1].appends[id].Rebuilt?
    ensures states[i + 1].checkpoint.Some? ==>
              states[i + 1].checkpoint.value.sequence <= states[i + 1].appends[id].projection.sequence
  {
    PlainRunIsSound(states, steps, session, i);
    hide Shown, Blank, IsLog, Covered;
    assert Next(states[i], steps[i], states[i + 1]);
    RebuildIsSound(states[i], session, id);
  }

  lemma OneMoreStep(states: seq<State>, steps: seq<Step>, i: nat, k: nat, n: nat)
    requires |states| == |steps| + 1 && i + 1 < k < |states|
    ensures Overtaken(states, steps, i, k, n)
       <==> Overtaken(states, steps, i, k - 1, n) || SavesLonger(states, steps, k - 1, n)
  {
    hide SavesLonger;
  }

  lemma MeanwhileStep(states: seq<State>, steps: seq<Step>, i: nat, k: nat, id: nat)
    requires IsRun(states, steps) && i + 1 < k < |states| && Elsewhere(steps[k - 1], id) && !steps[k - 1].Compact?
    requires id in states[k - 1].appends && states[k - 1].appends[id].Rebuilt?
    ensures id in states[k].appends && states[k].appends[id] == states[k - 1].appends[id]
    ensures forall n: nat ::
      (Past(states[k - 1], n)
       <==> Overtaken(states, steps, i, k - 1, n)) ==>
        (Past(states[k], n)
         <==> Overtaken(states, steps, i, k, n))
  {
    hide Shown, Blank;
    var s, step, t := states[k - 1], steps[k - 1], states[k];
    assert Next(s, step, t);
    forall n: nat | Past(s, n) <==> Overtaken(states, steps, i, k - 1, n)
      ensures Past(t, n) <==> Overtaken(states, steps, i, k, n)
    {
      OneMoreStep(states, steps, i, k, n);
      assert Past(s, n) ==> Past(t, n);
    }
  }

  /** An append raises at its save if and only if another one, since its rebuild, has saved the
      projection of a longer log. */
  lemma RaisesExactlyWhenOvertaken(states: seq<State>, steps: seq<Step>, session: string, i: nat, k: nat, id: nat)
    requires IsRun(states, steps) && Start(states[0]) && Plain(steps, session) && i < k < |steps|
    requires steps[i] == Rebuild(id) && steps[k] == Save(id) && forall m :: i < m < k ==> Elsewhere(steps[m], id)
    ensures id in states[i + 1].appends && states[i + 1].appends[id].Rebuilt? && id in states[k + 1].appends
    ensures states[k + 1].appends[id].Raised?
       <==> Overtaken(states, steps, i, k, states[i + 1].appends[id].projection.sequence)
  {
    Meanwhile(states, steps, session, i, k, id);
    hide Shown, Blank, Overtaken;
    assert Next(states[k], steps[k], states[k + 1]);
  }

  /** Two appends: the slower one rebuilds before the other one stores its event and saves after
      it, and raises with its event stored. */
  lemma SlowerAppendRaises(task: string, a: Event, b: Event) returns (states: seq<State>, steps: seq<Step>)
    requires !Blank(task) && !Blank(a.sessionId) && a.id != b.id && a.sessionId == b.sessionId
    requires a.taskId == b.taskId == task && a.sequence == b.sequence == 0
    ensures IsRun(states, steps) && Start(states[0]) && Plain(steps, a.sessionId)
    ensures var s := states[|steps|];
            && s.log == [a.(sequence := 1), b.(sequence := 2)]
            && s.appends == map[0 := Raised(a.(sequence := 1)), 1 := Returned(b.(sequence := 2))]
  {
    var before, first, second := BothRebuilt(task, a, b), a.(sequence := 1), b.(sequence := 2);
    states, steps := BothRebuild(task, a, b);
    hide Shown, Blank, Next, Thinned, BothRebuilt;
    Saves(before, 1);
    states, steps := Extend(states, steps, Save(1), AfterSave(before, 1), a.sessionId);
    Saves(AfterSave(before, 1), 0);
    states, steps := Extend(states, steps, Save(0), AfterSave(AfterSave(before, 1), 0), a.sessionId);
    assert states[6].appends == map[0 := Raised(first), 1 := Returned(second)];
  }

  /** Both events are stored, and each append holds the projection of the log as it found it. */
  function BothRebuilt(task: string, a: Event, b: Event): State
    requires !Blank(task) && !Blank(a.sessionId) && a.id != b.id && a.sessionId == b.sessionId
    requires a.taskId == b.taskId == task && a.sequence == b.sequence == 0
    ensures var s := BothRebuilt(task, a, b);
            && s.log == [a.(sequence := 1), b.(sequence := 2)] && s.checkpoint == None && s.appends.Keys == {0, 1}
            && s.appends[0].Rebuilt? && s.appends[0].event == s.log[0] && s.appends[0].projection.sequence == 1
            && s.appends[1].Rebuilt? && s.appends[1].event == s.log[1] && s.appends[1].projection.sequence == 2
  {
    hide Shown, Blank;
    var first, second := a.(sequence := 1), b.(sequence := 2);
    ShownOf(task, [first], a.sessionId);
    ShownOf(task, [first, second], a.sessionId);
    var p, q := Shown(task, [first], a.sessionId).projection, Shown(task, [first, second], a.sessionId).projection;
    State(task, [first, second], 2, None, map[0 := Rebuilt(first, p), 1 := Rebuilt(second, q)])
  }

  lemma BothRebuild(task: string, a: Event, b: Event) returns (states: seq<State>, steps: seq<Step>)
    requires !Blank(task) && !Blank(a.sessionId) && a.id != b.id && a.sessionId == b.sessionId
    requires a.taskId == b.taskId == task && a.sequence == b.sequence == 0
    ensures IsRun(states, steps) && Start(states[0]) && Plain(steps, a.sessionId)
    ensures |steps| == 4 && states[4] == BothRebuilt(task, a, b)
  {
    hide Shown, Blank, Next, Thinned;
    var session, first, second := a.sessionId, a.(sequence := 1), b.(sequence := 2);
    var s0 := State(task, [], 0, None, map[]);
    var s1 := AfterInsert(s0, 0, first);
    assert s1.log == [first];
    NewEventStores(s0, 0, a);
    ShownOf(task, [first], session);
    var s2 := AfterRebuild(s1, 0);
    Rebuilds(s1, 0);
    var s3 := AfterInsert(s2, 1, second);
    assert s3.log == [first, second];
    NewEventStores(s2, 1, b);
    ShownOf(task, [first, second], session);
    Rebuilds(s3, 1);
    states, steps := Extend([s0], [], Store(0, a), s1, session);
    states, steps := Extend(states, steps, Rebuild(0), s2, session);
    states, steps := Extend(states, steps, Store(1, b), s3, session);
    states, steps := Extend(states, steps, Rebuild(1), AfterRebuild(s3, 1), session);
    assert states[4].appends == BothRebuilt(task, a, b).appends;
  }

  lemma Extend(states: seq<State>, steps: seq<Step>, step: Step, t: State, session: string)
    returns (states': seq<State>, steps': seq<Step>)
    requires IsRun(states, steps) && Plain(steps, session) && Next(states[|steps|], step, t)
    requires !step.Compact? && (step.Store? ==> step.event.sessionId == session)
    ensures |steps'| == |steps| + 1 == |states| && |states'| == |steps'| + 1
    ensures states'[0] == states[0] && states'[|steps'|] == t
    ensures IsRun(states', steps') && Plain(steps', session)
  {
    hide Next, Blank;
    states', steps' := states + [t], steps + [step];
  }

  lemma NewEventStores(s: State, id: nat, event: Event)
    requires Idle(s, id) && IsNew(s, event) && event.taskId == s.task && !Blank(event.sessionId) && event.sequence == 0
    ensures Next(s, Store(id, event), AfterInsert(s, id, event.(sequence := s.latest + 1)))
  {
  }

  lemma Rebuilds(s: State, id: nat)
    requires id in s.appends && s.appends[id].Stored?
    ensures Next(s, Rebuild(id), AfterRebuild(s, id))
  {
  }

  lemma Saves(s: State, id: nat)
    requires id in s.appends && s.appends[id].Rebuilt?
    ensures Next(s, Save(id), AfterSave(s, id))
  {
  }

  lemma ShownOf(task: string, log: seq<Event>, session: string)
    requires !Blank(task) && !Blank(session) && IsLog(log, task, session)
    ensures Shown(task, log, session).Success? && Shown(task, log, session).projection.sequence == |log|
  {
    hide Blank, Shown;
    ShownExactly(task, log, |log|, session);
  }

  // ---- logs that no longer rebuild ----

  predicate Retained(log: seq<Event>, sequence: nat) {
    exists e :: e in log && e.sequence == sequence
  }

  /** Some event below `n` is gone, or two events below `n` are of different sessions. */
  ghost predicate Tainted(log: seq<Event>, n: nat) {
    || (exists k: nat | 0 < k < n :: !Retained(log, k))
    || (exists e, f :: e in log && f in log && e.sequence < n && f.sequence < n && e.sessionId != f.sessionId)
  }

  ghost predicate Spoiled(s: State) {
    Tainted(s.log, s.latest + 1)
  }

  /** A log is spoiled exactly when retention has taken an event of it or it holds two sessions. */
  lemma SpoiledExactly(s: State)
    requires Inv(s)
    ensures Spoiled(s) <==> |s.log| < s.latest || exists e, f :: e in s.log && f in s.log && e.sessionId != f.sessionId
  {
    FullExactly(s.log, s.latest);
    hide Blank;
    if |s.log| == s.latest {
      forall k: nat | 0 < k <= s.latest
        ensures Retained(s.log, k)
      {
        assert s.log[k - 1] in s.log;
      }
    } else if forall k: nat | 0 < k <= s.latest :: Retained(s.log, k) {
      AllRetained(s.log, s.latest);
    }
  }

  lemma {:induction false} AllRetained(log: seq<Event>, latest: nat)
    requires Ascends(log) && forall i :: 0 <= i < |log| ==> 1 <= log[i].sequence <= latest
    requires forall k: nat | 0 < k <= latest :: Retained(log, k)
    ensures |log| >= latest
  {
    if latest > 0 {
      assert Retained(log, latest);
      var n := |log| - 1;
      forall i | 0 <= i < n
        ensures 1 <= log[..n][i].sequence <= latest - 1
      {
        assert log[i].sequence < log[n].sequence;
      }
      forall k: nat | 0 < k <= latest - 1
        ensures Retained(log[..n], k)
      {
        assert Retained(log, k);
        var i :| 0 <= i < |log| && log[i].sequence == k;
        assert i < n ==> log[..n][i] == log[i];
      }
      AllRetained(log[..n], latest - 1);
    }
  }

  lemma TaintedStays(s: State, step: Step, t: State, n: nat)
    requires Inv(s) && Next(s, step, t) && n <= s.latest + 1 && Tainted(s.log, n)
    ensures Tainted(t.log, n) && s.latest <= t.latest
  {
    hide Blank, Shown, Terminal;
    if step.Compact? {
      ThinnedStaysTainted(s.task, step.kept, s.log, s.latest, n);
    } else if k: nat :| 0 < k < n && !Retained(s.log, k) {
      assert !Retained(t.log, k);
    } else {
      var e, f :| e in s.log && f in s.log && e.sequence < n && f.sequence < n && e.sessionId != f.sessionId;
      assert e in t.log && f in t.log;
    }
  }

  lemma ThinnedStaysTainted(task: string, kept: seq<Event>, log: seq<Event>, latest: nat, n: nat)
    requires ValidLog(task, log, latest) && Thinned(kept, log) && Tainted(log, n)
    ensures Tainted(kept, n)
  {
    hide Blank, Terminal;
    if k: nat :| 0 < k < n && !Retained(log, k) {
      assert !Retained(kept, k);
    } else {
      var e, f :| e in log && f in log && e.sequence < n && f.sequence < n && e.sessionId != f.sessionId;
      assert e !in kept ==> !Retained(kept, e.sequence);
      assert f !in kept ==> !Retained(kept, f.sequence);
    }
  }

  /** Once spoiled, a log is spoiled for good. */
  lemma {:induction false} SpoiledForGood(states: seq<State>, steps: seq<Step>, i: nat, k: nat)
    requires IsRun(states, steps) && Start(states[0]) && i <= k < |states| && Spoiled(states[i])
    ensures Spoiled(states[k])
    decreases k - i
  {
    hide Blank, Shown, Thinned, Inv, Tainted, Start;
    if i < k {
      SpoiledForGood(states, steps, i, k - 1);
      RunInv(states, steps, k - 1);
      TaintedStays(states[k - 1], steps[k - 1], states[k], states[k - 1].latest + 1);
      MoreTainted(states[k].log, states[k - 1].latest + 1, states[k].latest + 1);
    }
  }

  lemma MoreTainted(log: seq<Event>, n: nat, m: nat)
    requires Tainted(log, n) && n <= m
    ensures Tainted(log, m)
  {
    hide Retained;
  }

  /** While an append waits between store and rebuild, what is wrong below its event stays wrong. */
  lemma {:induction false} WaitsTainted(states: seq<State>, steps: seq<Step>, j: nat, k: nat, id: nat, event: Event)
    requires IsRun(states, steps) && Start(states[0]) && j < k < |states| && Spoiled(states[j])
    requires steps[j] == Store(id, event) && IsNew(states[j], event)
    requires forall m :: j < m < k ==> Elsewhere(steps[m], id)
    ensures var entry := event.(sequence := states[j].latest + 1);
            && id in states[k].appends && states[k].appends[id] == Stored(entry)
            && Tainted(states[k].log, entry.sequence) && entry.sequence <= states[k].latest
    decreases k - j
  {
    hide Blank, Shown, Thinned, Inv, Tainted, Start;
    assert Next(states[k - 1], steps[k - 1], states[k]);
    RunInv(states, steps, k - 1);
    TaintedStays(states[k - 1], steps[k - 1], states[k], states[j].latest + 1) by {
      if k > j + 1 {
        WaitsTainted(states, steps, j, k - 1, id, event);
      }
    }
    if k > j + 1 {
      WaitsTainted(states, steps, j, k - 1, id, event);
    }
  }

  lemma TaintedFails(s: State, e: Event)
    requires Inv(s) && e in s.log && Tainted(s.log, e.sequence)
    ensures Shown(s.task, s.log, e.sessionId).Failure?
  {
    hide Blank, Shown;
    EntryIds(s.task, s.log, s.latest, e);
    ShownExactly(s.task, s.log, s.latest, e.sessionId);
    if Numbered(s.log, 0) {
      forall k: nat | 0 < k < e.sequence
        ensures Retained(s.log, k)
      {
        var i :| 0 <= i < |s.log| && s.log[i] == e;
        assert s.log[k - 1] in s.log;
      }
    }
  }

  /** Every append of a new event to a spoiled log raises, also later and whatever runs beside it,
      unless retention takes that very event before the rebuild reads the log. */
  lemma SpoiledRefuses(states: seq<State>, steps: seq<Step>, i: nat, j: nat, k: nat, id: nat, event: Event)
    requires IsRun(states, steps) && Start(states[0]) && i <= j < k < |steps| && Spoiled(states[i])
    requires steps[j] == Store(id, event) && IsNew(states[j], event) && steps[k] == Rebuild(id)
    requires forall m :: j < m < k ==> Elsewhere(steps[m], id)
    ensures event.(sequence := states[j].latest + 1) in states[k].log ==>
              states[k + 1].appends[id] == Raised(event.(sequence := states[j].latest + 1))
  {
    SpoiledForGood(states, steps, i, j);
    WaitsTainted(states, steps, j, k, id, event);
    RunInv(states, steps, k);
    hide Blank, Shown, Thinned, Inv, Tainted, Start, Stores;
    var entry := event.(sequence := states[j].latest + 1);
    assert Next(states[k], steps[k], states[k + 1]);
    if entry in states[k].log {
      TaintedFails(states[k], entry);
    }
  }
}

/** What a client of the event stream gets, told from its request, the log and the frames. */
module StreamLaws {
  import opened Common
  import opened EventBroker
  import opened EventStream

  function Max(a: int, b: int): int {
    if a < b then b else a
  }

  /** The events sent are a stretch of the log: everything before it is at or below what the client
      has, everything from its beginning on is above, and only its last event may be a `done`. */
  ghost predicate Stretch(log: seq<Item>, after: int, sent: seq<Item>, j: nat, m: nat) {
    && j <= m <= |log| && sent == log[j..m]
    && (forall i :: 0 <= i < j ==> log[i].number <= Max(0, after))
    && (forall i :: j <= i < |log| ==> log[i].number > Max(0, after))
    && (forall i :: j <= i < m - 1 ==> log[i].event.kind != "done")
  }

  /** The stretch reaches the end of the log, or a `done`. */
  predicate Whole(log: seq<Item>, j: nat, m: nat) {
    m == |log| || (j < m <= |log| && log[m - 1].event.kind == "done")
  }

  lemma {:induction false} CutIs(items: seq<Item>) returns (n: nat)
    ensures n <= |items| && Cut(items) == items[..n]
    ensures forall i :: 0 <= i < n - 1 ==> items[i].event.kind != "done"
    ensures n == |items| || (n > 0 && items[n - 1].event.kind == "done")
  {
    if items == [] {
      n := 0;
    } else if items[0].event.kind == "done" {
      n := 1;
    } else {
      n := CutIs(items[1..]);
      n := n + 1;
      assert items[..n] == [items[0]] + items[1..][..n - 1];
    }
  }

  /** Retention, or compaction, has left only events from `retainedFrom` on. */
  predicate Retained(s: Setup, log: seq<Item>) {
    forall e :: e in log ==> e.number >= s.retainedFrom
  }

  /** Where the stream starts does not matter for what the client can get. */
  lemma StartLosesNothing(s: Setup, log: seq<Item>)
    requires Retained(s, log)
    ensures After(log, StartOf(s)) == After(log, Max(0, s.after))
    ensures StartOf(s) >= s.after && StartOf(s) >= 0
  {
    AfterDecided(log, StartOf(s), Max(0, s.after));
  }

  lemma {:induction false} AfterDecided(log: seq<Item>, a: int, b: int)
    requires forall e :: e in log ==> (e.number > a <==> e.number > b)
    ensures After(log, a) == After(log, b)
  {
    if log != [] {
      AfterDecided(log[1..], a, b);
      AfterUnfolds(log, a);
      AfterUnfolds(log, b);
      assert log[0] in log;
    }
  }

  lemma StretchOf(s: Setup, log: seq<Item>, sent: seq<Item>) returns (j: nat, m: nat)
    requires Ascending(log) && Retained(s, log) && Exact(log, StartOf(s), sent)
    ensures Stretch(log, s.after, sent, j, m)
    ensures Complete(log, StartOf(s), sent) ==> Whole(log, j, m)
  {
    StartLosesNothing(s, log);
    j := AfterIsSuffix(log, Max(0, s.after));
    var n := CutIs(log[j..]);
    AscendingAround(log, j, Max(0, s.after));
    m := j + |sent|;
    hide After, Cut, Ascending, StartOf, Retained, Max, Whole, Stretch;
    FrontOf(log, s.after, j, n, sent);
  }

  lemma FrontOf(log: seq<Item>, after: int, j: nat, n: nat, sent: seq<Item>)
    requires j <= |log| && n <= |log| - j && sent <= log[j..][..n]
    requires forall i :: 0 <= i < j ==> log[i].number <= Max(0, after)
    requires forall i :: j <= i < |log| ==> log[i].number > Max(0, after)
    requires forall i :: 0 <= i < n - 1 ==> log[j..][i].event.kind != "done"
    requires n == |log[j..]| || (n > 0 && log[j..][n - 1].event.kind == "done")
    ensures Stretch(log, after, sent, j, j + |sent|)
    ensures |sent| == n ==> Whole(log, j, j + |sent|)
  {
    hide Max;
    assert sent == log[j..][..n][..|sent|] == log[j..j + |sent|];
    forall i | j <= i < j + |sent| - 1
      ensures log[i].event.kind != "done"
    {
      assert log[i] == log[j..][i - j];
    }
  }

  lemma AscendingAround(log: seq<Item>, j: nat, last: int)
    requires Ascending(log) && j <= |log|
    requires (j > 0 ==> log[j - 1].number <= last) && (j < |log| ==> log[j].number > last)
    ensures forall i :: 0 <= i < j ==> log[i].number <= last
    ensures forall i :: j <= i < |log| ==> log[i].number > last
  {
  }

  /** Without a broker and with a log at rest, a stream ends with everything the log retains above
      what the client has, up to a `done`. */
  lemma ReplayGivesAll(s: Setup, moments: nat -> Moment, log: seq<Item>, k: nat) returns (j: nat, m: nat)
    requires !s.hasBroker && Ascending(log) && Retained(s, log) && forall i: nat :: moments(i).read.log == log
    requires k > |log|
    ensures Run(s, moments, k).phase.Ended?
    ensures Stretch(log, s.after, Output(s, moments, k), j, m) && Whole(log, j, m)
  {
    CompleteWithoutBroker(s, moments, log, k);
    AfterIsShort(log, StartOf(s));
    hide After, Cut, Run, Output, StartOf;
    j, m := StretchOf(s, log, Output(s, moments, k));
  }

  /** With one, and once log and broker stand still for long enough, the same is true of a connection
      that skipped nothing before. */
  lemma LiveGivesAll(s: Setup, moments: nat -> Moment, w: World, from: nat, n: nat) returns (j: nat, m: nat)
    requires FaithfulRun(moments) && s.hasBroker && ReachesEnd(w) && Retained(s, w.log)
    requires from + |w.log| + 1 <= n && StandsStill(moments, from, w, n)
    requires !LosesBefore(s, moments, from) && !Run(s, moments, from).phase.Ended?
    ensures Stretch(w.log, s.after, Output(s, moments, n), j, m) && Whole(w.log, j, m)
  {
    Delivers(s, moments, w, from, n);
    assert Still(moments(from), w) && FaithfulMoment(moments(from), moments(from + 1));
    FaithfulAscends(w);
    hide After, Cut, Run, Output, StartOf, FaithfulRun, Faithful;
    j, m := StretchOf(s, w.log, Output(s, moments, n));
  }

  /** At any time of a run that skipped nothing, what was sent is such a stretch. */
  lemma SentIsStretch(s: Setup, moments: nat -> Moment, k: nat) returns (j: nat, m: nat)
    requires FaithfulRun(moments) && !LosesBefore(s, moments, k) && Retained(s, moments(k).check.log)
    ensures Stretch(moments(k).check.log, s.after, Output(s, moments, k), j, m)
  {
    ExactlyWhen(s, moments, k);
    assert FaithfulMoment(moments(k), moments(k + 1));
    FaithfulAscends(moments(k).check);
    hide After, Cut, Run, Output, StartOf, FaithfulRun, Faithful;
    j, m := StretchOf(s, moments(k).check.log, Output(s, moments, k));
  }

  // ---- the other frames ----

  /** One of the events sent says that the task is done. */
  predicate SentDone(sent: seq<Item>) {
    exists e :: e in sent && e.event.kind == "done"
  }

  /** The client misses events that are no longer retained. */
  predicate Missed(s: Setup) {
    Max(0, s.after) < s.retainedFrom - 1
  }

  /** What a turn adds to the frames. */
  lemma TurnAdds(s: Setup, c: Conn, m: Moment) returns (more: seq<Frame>)
    ensures Turn(s, c, m).frames == c.frames + more && forall f :: f in more ==> !f.TimelineGap?
    ensures FatalError in more <==>
      && c.phase.Replaying? && !s.hasBroker && NoDone(Cut(TurnRead(c, m)))
      && |TurnRead(c, m)| < PAGE && (!s.hasTask || (!c.phase.any && TurnRead(c, m) == []))
    ensures Turn(s, c, m).phase.Replaying? ==> c.phase.Replaying? && Turn(s, c, m).phase.any && TurnRead(c, m) != []
    ensures Turn(s, c, m).phase.Live? ==> s.hasBroker || c.phase.Live?
    ensures c.phase.Replaying? && !s.hasBroker ==>
      (Turn(s, c, m).phase.Ended? <==> !NoDone(Cut(TurnRead(c, m))) || |TurnRead(c, m)| < PAGE)
  {
    EmptyCut();
    FramesAreData(Cut(TurnRead(c, m)));
    hide Cut, Frames, Replay, HasGap, After, NoDone;
    match c.phase
    case Ended => more := [];
    case Live => more := LiveAdds(c, m);
    case Replaying(any) =>
      var read := TurnRead(c, m);
      more := Frames(Cut(read));
      if read == [] || (NoDone(Cut(read)) && |read| < PAGE) {
        var last := if s.hasBroker || (s.hasTask && (any || read != [])) then [] else [FatalError];
        AssocFrames(c.frames, more, last);
        assert more + [] == more && c.frames + [] == c.frames && [] + last == last;
        more := more + last;
      }
  }

  lemma LiveAdds(c: Conn, m: Moment) returns (more: seq<Frame>)
    requires c.phase.Live?
    ensures LiveTurn(c, m).frames == c.frames + more && forall f :: f in more ==> f.Data? || f.Ping?
    ensures LiveTurn(c, m).phase in {Live, Ended}
  {
    FramesAreData(Cut(TurnRead(c, m)));
    hide Cut, Frames, Replay, HasGap, After, NoDone;
    more := LiveTurn(c, m).frames[|c.frames|..];
  }

  lemma {:induction false} FramesAreData(items: seq<Item>)
    ensures forall f :: f in Frames(items) ==> f.Data?
    ensures items == [] ==> Frames(items) == []
  {
    if items != [] {
      FramesAreData(items[..|items| - 1]);
    }
  }

  ghost predicate Framed(s: Setup, c: Conn, sent: seq<Item>) {
    && (Missed(s) ==> c.frames != [] && c.frames[0] == TimelineGap(s.retainedFrom - 1, s.retainedFrom, s.latest))
    && (forall i :: (if Missed(s) then 1 else 0) <= i < |c.frames| ==> !c.frames[i].TimelineGap?)
    && (FatalError in c.frames <==>
         c.phase.Ended? && !s.hasBroker && !SentDone(sent) && (!s.hasTask || sent == []))
    && (c.phase.Replaying? ==> (c.phase.any <==> sent != []))
    && (c.phase.Live? ==> s.hasBroker)
    && (!c.phase.Ended? ==> !SentDone(sent))
  }

  lemma OpenedIsFramed(s: Setup, moments: nat -> Moment)
    ensures Framed(s, Run(s, moments, 0), Output(s, moments, 0))
  {
    NothingYet(s, moments);
  }

  lemma TurnIsFramed(s: Setup, c: Conn, m: Moment, sent: seq<Item>)
    requires Framed(s, c, sent)
    ensures Framed(s, Turn(s, c, m), sent + Cut(TurnRead(c, m)))
  {
    var more := TurnAdds(s, c, m);
    TurnSends(s, c, m);
    CutWhole(TurnRead(c, m));
    EmptyCut();
    DoneSent(sent, Cut(TurnRead(c, m)));
    hide Turn, TurnRead, Cut, DataOf, SentDone, NoDone;
    assert sent + [] == sent;
  }

  lemma DoneSent(sent: seq<Item>, more: seq<Item>)
    ensures SentDone(sent + more) <==> SentDone(sent) || !NoDone(more)
  {
    if e :| e in more && e.event.kind == "done" {
      assert e in sent + more;
    }
    if e :| e in sent && e.event.kind == "done" {
      assert e in sent + more;
    }
  }

  lemma {:induction false} RunIsFramed(s: Setup, moments: nat -> Moment, k: nat)
    ensures Framed(s, Run(s, moments, k), Output(s, moments, k))
  {
    hide *;
    if k == 0 {
      OpenedIsFramed(s, moments);
    } else {
      RunIsFramed(s, moments, k - 1);
      RunStep(s, moments, k);
      TurnIsFramed(s, Run(s, moments, k - 1), moments(k - 1), Output(s, moments, k - 1));
    }
  }

  /** A client that asked for less than is retained is told so in the first frame, and no other frame
      says it; the error frame is sent exactly when there is no broker, the replay has ended without a
      `done`, and the task is unknown or nothing was replayed. */
  lemma FramesExactly(s: Setup, moments: nat -> Moment, k: nat)
    ensures var frames := Run(s, moments, k).frames;
            && (forall i :: 0 <= i < |frames| ==>
                  (frames[i].TimelineGap? <==> i == 0 && Max(0, s.after) < s.retainedFrom - 1))
            && (Max(0, s.after) < s.retainedFrom - 1 ==>
                  frames != [] && frames[0] == TimelineGap(s.retainedFrom - 1, s.retainedFrom, s.latest))
            && (FatalError in frames <==>
                  && Run(s, moments, k).phase.Ended? && !s.hasBroker
                  && (forall e :: e in Output(s, moments, k) ==> e.event.kind != "done")
                  && (!s.hasTask || Output(s, moments, k) == []))
  {
    RunIsFramed(s, moments, k);
    hide Run, Output;
  }
}

/** The server-sent event stream of one task: durable replay in pages, then
    the live tail of the broker, with a durable fallback on a gap. */
module EventStream {
  import opened Common
  import opened EventBroker

  const PAGE := 5000

  /** An event on the wire, from the log or from the broker. */
  type Item = Stored

  datatype Frame =
    | Data(item: Item)
    | TimelineGap(sequence: int, retainedFrom: int, latest: int)
    | FatalError
    | Ping

  /** What a reader sees of the repository and of the broker at one moment. */
  datatype World = World(log: seq<Item>, buffer: seq<Item>)

  /** One turn of a loop of the stream: the gap check, then the reads, then the test whether the
      broker is closed. */
  datatype Moment = Moment(check: World, read: World, test: World, closed: bool)

  /** The request, the retained range of the log, and what the registries know. */
  datatype Setup = Setup(after: int, retainedFrom: int, latest: int, hasBroker: bool, hasTask: bool)

  datatype Phase = Replaying(any: bool) | Live | Ended

  /** A connection: the loop it is in, its cursor, and what it has sent. */
  datatype Conn = Conn(phase: Phase, last: int, frames: seq<Frame>)

  /** `replay_events`: the first `limit` events above the cursor, ascending. */
  function Replay(log: seq<Item>, last: int, limit: nat): seq<Item> {
    var later := After(log, last);
    if |later| <= limit then later else later[..limit]
  }

  predicate IsDone(item: Item) {
    item.event.kind == "done"
  }

  predicate NoDone(items: seq<Item>) {
    forall e :: e in items ==> !IsDone(e)
  }

  /** What a loop over `items` emits: up to and including the first `done`. */
  function Cut(items: seq<Item>): (r: seq<Item>)
    ensures r <= items
  {
    if items == [] then [] else if IsDone(items[0]) then [items[0]] else [items[0]] + Cut(items[1..])
  }

  function Last(start: int, emitted: seq<Item>): int {
    if emitted == [] then start else emitted[|emitted| - 1].number
  }

  function Frames(items: seq<Item>): seq<Frame> {
    if items == [] then [] else Frames(items[..|items| - 1]) + [Data(items[|items| - 1])]
  }

  function DataOf(frames: seq<Frame>): seq<Item> {
    if frames == [] then []
    else
      var last := frames[|frames| - 1];
      DataOf(frames[..|frames| - 1]) + if last.Data? then [last.item] else []
  }

  // ---- the stream, turn by turn ----

  /** The cursor the stream starts from. */
  function StartOf(s: Setup): int {
    var last := if s.after < 0 then 0 else s.after;
    if last < s.retainedFrom - 1 then s.retainedFrom - 1 else last
  }

  function Opened(s: Setup): Conn {
    var last := if s.after < 0 then 0 else s.after;
    Conn(Replaying(false), StartOf(s),
      if last < s.retainedFrom - 1 then [TimelineGap(StartOf(s), s.retainedFrom, s.latest)] else [])
  }

  /** Sends the items and, behind a `done`, ends. */
  function Sent(c: Conn, items: seq<Item>): Conn {
    Conn(if NoDone(Cut(items)) then c.phase else Ended, Last(c.last, Cut(items)), c.frames + Frames(Cut(items)))
  }

  /** Leaves the replay loop. */
  function Left(s: Setup, c: Conn, any: bool): Conn {
    if s.hasBroker then c.(phase := Live)
    else c.(phase := Ended, frames := c.frames + if !s.hasTask || !any then [FatalError] else [])
  }

  function ReplayTurn(s: Setup, c: Conn, any: bool, w: World): Conn {
    var page := Replay(w.log, c.last, PAGE);
    if page == [] then Left(s, c, any)
    else
      var sent := Sent(c.(phase := Replaying(true)), page);
      if sent.phase.Replaying? && |page| < PAGE then Left(s, sent, true) else sent
  }

  /** The turn reads the live buffer: no gap was seen, or the log had nothing to fill it. */
  predicate ReadsLive(c: Conn, m: Moment) {
    c.phase.Live? && !(HasGap(m.check.buffer, c.last) && Replay(m.read.log, c.last, PAGE) != [])
  }

  function LiveTurn(c: Conn, m: Moment): Conn {
    if HasGap(m.check.buffer, c.last) && Replay(m.read.log, c.last, PAGE) != [] then
      Sent(c, Replay(m.read.log, c.last, PAGE))
    else
      var messages := After(m.read.buffer, c.last);
      if messages != [] then Sent(c, messages)
      else if m.closed then c.(phase := Ended)
      else c.(frames := c.frames + [Ping])
  }

  function Turn(s: Setup, c: Conn, m: Moment): Conn {
    match c.phase
    case Replaying(any) => ReplayTurn(s, c, any, m.read)
    case Live => LiveTurn(c, m)
    case Ended => c
  }

  /** The connection after `k` turns. */
  function Run(s: Setup, moments: nat -> Moment, k: nat): Conn {
    if k == 0 then Opened(s) else Turn(s, Run(s, moments, k - 1), moments(k - 1))
  }

  /** The events sent in the first `k` turns. */
  function Output(s: Setup, moments: nat -> Moment, k: nat): seq<Item> {
    DataOf(Run(s, moments, k).frames)
  }

  // ---- the generator computes these turns ----

  lemma DataAppends(frames: seq<Frame>, f: Frame)
    ensures DataOf(frames + [f]) == if f.Data? then DataOf(frames) + [f.item] else DataOf(frames)
  {
    assert (frames + [f])[..|frames|] == frames;
  }

  lemma FramesAppend(items: seq<Item>, k: nat)
    requires k < |items|
    ensures Frames(items[..k + 1]) == Frames(items[..k]) + [Data(items[k])]
  {
    assert items[..k + 1][..k] == items[..k];
  }

  /** The loop that yields a page or a batch of messages. */
  method EmitAll(items: seq<Item>, c: Conn) returns (sent: Conn)
    ensures sent == Sent(c, items)
  {
    hide Cut, Frames;
    var frames, last := c.frames, c.last;
    NoFrames();
    assert items[..0] == [];
    for k := 0 to |items|
      invariant frames == c.frames + Frames(items[..k]) && NoDone(items[..k])
      invariant last == Last(c.last, items[..k])
    {
      assert items[..k + 1] == items[..k] + [items[k]];
      FramesAppend(items, k);
      last := items[k].number;
      frames := frames + [Data(items[k])];
      if IsDone(items[k]) {
        CutAt(items, k);
        assert items[k] in items[..k + 1];
        return Conn(Ended, last, frames);
      }
    }
    assert items[..|items|] == items;
    CutAll(items);
    sent := Conn(c.phase, last, frames);
  }

  lemma NoFrames()
    ensures Frames([]) == []
  {
  }

  lemma {:induction false} CutAt(items: seq<Item>, k: nat)
    requires k < |items| && NoDone(items[..k]) && IsDone(items[k])
    ensures Cut(items) == items[..k + 1]
  {
    if k > 0 {
      assert items[0] in items[..k];
      assert forall e :: e in items[1..][..k - 1] ==> e in items[..k];
      CutAt(items[1..], k - 1);
      assert items[..k + 1] == [items[0]] + items[1..][..k];
    }
  }

  lemma {:induction false} CutAll(items: seq<Item>)
    requires NoDone(items)
    ensures Cut(items) == items
  {
    if items != [] {
      assert !IsDone(items[0]);
      CutAll(items[1..]);
    }
  }

  lemma {:induction false} EndedStays(s: Setup, moments: nat -> Moment, k: nat, n: nat)
    requires k <= n && Run(s, moments, k).phase.Ended?
    ensures Run(s, moments, n) == Run(s, moments, k)
    decreases n - k
  {
    hide ReplayTurn, LiveTurn, Opened;
    if k < n {
      EndedStays(s, moments, k, n - 1);
    }
  }

  /** The first loop: durable pages until one comes short. */
  method ReplayLoop(s: Setup, moments: nat -> Moment, rounds: nat) returns (c: Conn, k: nat)
    ensures k <= rounds && c == Run(s, moments, k)
    ensures c.phase.Replaying? ==> k == rounds
  {
    hide ReplayTurn, Left, Replay, Sent;
    c, k := Opened(s), 0;
    while k < rounds
      invariant 0 <= k <= rounds && c == Run(s, moments, k) && c.phase.Replaying?
    {
      var any := c.phase.any;
      var page := Replay(moments(k).read.log, c.last, PAGE);
      ReplayTurnIs(s, c, any, moments(k).read);
      k := k + 1;
      if page == [] {
        c := Leave(s, c, any);
        return;
      }
      c := EmitAll(page, c.(phase := Replaying(true)));
      if c.phase.Ended? { return; }
      if |page| < PAGE {
        c := Leave(s, c, true);
        return;
      }
    }
  }

  lemma ReplayTurnIs(s: Setup, c: Conn, any: bool, w: World)
    ensures var page := Replay(w.log, c.last, PAGE);
            var sent := Sent(c.(phase := Replaying(true)), page);
            && (sent.phase == Replaying(true) || sent.phase == Ended)
            && ReplayTurn(s, c, any, w) ==
              if page == [] then Left(s, c, any)
              else if sent.phase.Replaying? && |page| < PAGE then Left(s, sent, true) else sent
  {
    hide Replay, Cut, Frames;
  }

  method Leave(s: Setup, c: Conn, replayedAny: bool) returns (left: Conn)
    ensures left == Left(s, c, replayedAny)
    ensures !left.phase.Replaying?
  {
    if s.hasBroker { return c.(phase := Live); }
    if !s.hasTask { return c.(phase := Ended, frames := c.frames + [FatalError]); }
    if replayedAny { return c.(phase := Ended); }
    return c.(phase := Ended, frames := c.frames + [FatalError]);
  }

  /** The second loop: the live tail, with the durable fallback on a gap. */
  method LiveLoop(s: Setup, moments: nat -> Moment, rounds: nat, from: nat, entered: Conn) returns (c: Conn, k: nat)
    requires from <= rounds && entered == Run(s, moments, from) && entered.phase.Live?
    ensures k <= rounds && c == Run(s, moments, k)
    ensures !c.phase.Ended? ==> k == rounds
  {
    hide Sent, HasGap, Replay, After;
    c, k := entered, from;
    while k < rounds
      invariant from <= k <= rounds && c == Run(s, moments, k) && c.phase.Live?
    {
      var m := moments(k);
      k := k + 1;
      if HasGap(m.check.buffer, c.last) {
        var persisted := Replay(m.read.log, c.last, PAGE);
        if persisted != [] {
          SentPhase(c, persisted);
          c := EmitAll(persisted, c);
          if c.phase.Ended? { return; }
          continue;
        }
      }
      var messages := After(m.read.buffer, c.last);
      if messages == [] {
        if m.closed {
          c := c.(phase := Ended);
          return;
        }
        c := c.(frames := c.frames + [Ping]);
        continue;
      }
      SentPhase(c, messages);
      c := EmitAll(messages, c);
      if c.phase.Ended? { return; }
    }
  }

  lemma SentPhase(c: Conn, items: seq<Item>)
    ensures Sent(c, items).phase in {c.phase, Ended}
  {
    hide Cut, Frames;
  }

  /** The generator inside `stream_output`, observed for a number of turns. */
  method StreamOutput(s: Setup, moments: nat -> Moment, rounds: nat) returns (frames: seq<Frame>, ended: bool)
    ensures frames == Run(s, moments, rounds).frames
    ensures ended <==> Run(s, moments, rounds).phase.Ended?
  {
    hide Run;
    var c, k := ReplayLoop(s, moments, rounds);
    if c.phase.Live? {
      c, k := LiveLoop(s, moments, rounds, k, c);
    }
    if c.phase.Ended? {
      EndedStays(s, moments, k, rounds);
    }
    return c.frames, c.phase.Ended?;
  }

  // ---- what the stream should send ----

  /** The emitted events are the log above `start`, none missing or repeated, up to a `done`. */
  predicate Exact(log: seq<Item>, start: int, emitted: seq<Item>) {
    emitted <= Cut(After(log, start))
  }

  /** All of the log above `start` has been sent, up to a `done`. */
  predicate Complete(log: seq<Item>, start: int, emitted: seq<Item>) {
    emitted == Cut(After(log, start))
  }

  /** An event of the log was passed over: a later one was sent without it. */
  ghost predicate Lacks(log: seq<Item>, start: int, emitted: seq<Item>) {
    exists e, f :: e in log && start < e.number && e !in emitted && f in emitted && e.number < f.number
  }

  ghost predicate Increasing(start: int, emitted: seq<Item>) {
    Ascending(emitted) && forall e :: e in emitted ==> e.number > start
  }

  /** What the buffer offers above the cursor begins behind an event of the log. */
  predicate Skips(w: World, last: int) {
    var later := After(w.buffer, last);
    later != [] && exists e :: e in w.log && last < e.number < later[0].number
  }

  /** An ascending log, and a buffer that holds a stretch of it. */
  ghost predicate Faithful(w: World) {
    Ascending(w.log) && exists a, m | 0 <= a <= m <= |w.log| :: w.buffer == w.log[a..m]
  }

  ghost predicate FaithfulMoment(m: Moment, next: Moment) {
    && Faithful(m.check) && Faithful(m.read) && Faithful(m.test)
    && m.check.log <= m.read.log <= next.check.log && m.read.log <= m.test.log <= next.check.log
    && forall e :: e in m.check.buffer ==> e in m.read.log
  }

  /** The log only grows, and the broker got its events from it in order. */
  ghost predicate FaithfulRun(moments: nat -> Moment) {
    forall k: nat :: FaithfulMoment(moments(k), moments(k + 1))
  }

  ghost predicate SortedRun(moments: nat -> Moment) {
    forall k: nat :: Ascending(moments(k).read.log) && Ascending(moments(k).read.buffer)
  }

  // ---- reading on ----

  /** Where a cursor stands in an ascending log decides what is above it. */
  lemma {:induction false} AfterFrom(log: seq<Item>, j: nat, last: int)
    requires Ascending(log) && j <= |log|
    requires j > 0 ==> log[j - 1].number <= last
    requires j < |log| ==> log[j].number > last
    ensures After(log, last) == log[j..]
  {
    if log != [] {
      if j > 0 {
        assert log[0].number <= log[j - 1].number;
        AfterFrom(log[1..], j - 1, last);
        assert log[1..][j - 1..] == log[j..];
      } else if |log| > 1 {
        AfterFrom(log[1..], 0, last);
      }
    }
  }

  lemma AfterIsSuffix(log: seq<Item>, last: int) returns (j: nat)
    requires Ascending(log)
    ensures j <= |log| && After(log, last) == log[j..]
    ensures (j > 0 ==> log[j - 1].number <= last) && (j < |log| ==> log[j].number > last)
  {
    hide After;
    j := 0;
    while j < |log| && log[j].number <= last
      invariant 0 <= j <= |log| && (j > 0 ==> log[j - 1].number <= last)
    {
      j := j + 1;
    }
    AfterFrom(log, j, last);
  }

  lemma {:induction false} CutAppends(a: seq<Item>, b: seq<Item>)
    requires NoDone(a)
    ensures Cut(a + b) == a + Cut(b)
  {
    if a == [] {
      assert a + b == b;
    } else {
      hide IsDone;
      assert !IsDone(a[0]);
      CutAppends(a[1..], b);
      CutUnfolds(a, b);
    }
  }

  lemma CutUnfolds(a: seq<Item>, b: seq<Item>)
    requires a != [] && !IsDone(a[0]) && Cut(a[1..] + b) == a[1..] + Cut(b)
    ensures Cut(a + b) == a + Cut(b)
  {
    hide IsDone;
    assert (a + b)[1..] == a[1..] + b && (a + b)[0] == a[0];
    assert Cut(a + b) == [a[0]] + (a[1..] + Cut(b));
    hide Cut;
    assert [a[0]] + (a[1..] + Cut(b)) == a + Cut(b);
  }

  lemma {:induction false} CutGrows(a: seq<Item>, b: seq<Item>)
    requires a <= b
    ensures Cut(a) <= Cut(b)
    ensures !NoDone(Cut(a)) ==> Cut(a) == Cut(b)
  {
    if a != [] && !IsDone(a[0]) {
      CutGrows(a[1..], b[1..]);
    }
  }

  lemma {:induction false} CutWhole(items: seq<Item>)
    ensures NoDone(Cut(items)) ==> Cut(items) == items
    ensures items != [] ==> Cut(items) != [] && Cut(items)[0] == items[0]
  {
    if items != [] && !IsDone(items[0]) {
      CutWhole(items[1..]);
      assert NoDone(Cut(items)) ==> NoDone(Cut(items[1..]));
    }
  }

  lemma LastAppends(start: int, a: seq<Item>, b: seq<Item>)
    ensures Last(Last(start, a), b) == Last(start, a + b)
  {
  }

  /** What is above the last event sent is the rest of what is above the start. */
  lemma ReadOn(log: seq<Item>, start: int, emitted: seq<Item>)
    requires Ascending(log) && emitted <= After(log, start)
    ensures After(log, start) == emitted + After(log, Last(start, emitted))
  {
    hide After;
    var j := AfterIsSuffix(log, start);
    var n := |emitted|;
    SliceFront(log, j, emitted);
    if n > 0 {
      AfterFrom(log, j + n, Last(start, emitted));
    }
  }

  lemma SliceFront(log: seq<Item>, j: nat, front: seq<Item>)
    requires j <= |log| && front <= log[j..]
    ensures j + |front| <= |log| && log[j..] == front + log[j + |front|..]
    ensures front != [] ==> log[j + |front| - 1] == front[|front| - 1]
    ensures j + |front| < |log| && front != [] && Ascending(log) ==> log[j + |front|].number > front[|front| - 1].number
  {
  }

  /** Sending a front of what is above the cursor keeps the stream exact. */
  lemma ExactStep(log: seq<Item>, start: int, emitted: seq<Item>, read: seq<Item>)
    requires Ascending(log) && Exact(log, start, emitted) && NoDone(emitted)
    requires read <= After(log, Last(start, emitted))
    ensures Exact(log, start, emitted + Cut(read))
    ensures read == After(log, Last(start, emitted)) || !NoDone(Cut(read)) ==> Complete(log, start, emitted + Cut(read))
  {
    var rest := After(log, Last(start, emitted));
    ReadOn(log, start, emitted);
    CutAppends(emitted, rest);
    CutGrows(read, rest);
  }

  lemma ExactGrows(log: seq<Item>, later: seq<Item>, start: int, emitted: seq<Item>)
    requires Exact(log, start, emitted) && log <= later
    ensures Exact(later, start, emitted)
    ensures Complete(log, start, emitted) && !NoDone(emitted) ==> Complete(later, start, emitted)
  {
    assert later == log + later[|log|..];
    AfterAppends(log, later[|log|..], start);
    CutGrows(After(log, start), After(later, start));
  }

  /** A stream that passed an event over is not exact, for any log that holds the event. */
  lemma LacksIsNotExact(log: seq<Item>, later: seq<Item>, start: int, emitted: seq<Item>)
    requires Lacks(log, start, emitted) && log <= later && Ascending(later)
    ensures !Exact(later, start, emitted)
  {
    var e, f :| e in log && start < e.number && e !in emitted && f in emitted && e.number < f.number;
    var all := After(later, start);
    AfterMembers(later, start);
    hide After;
    assert e in later;
    var i :| 0 <= i < |all| && all[i] == e;
    if Exact(later, start, emitted) {
      LaterInFront(all, emitted, i, f);
    }
  }

  lemma LaterInFront(all: seq<Item>, front: seq<Item>, i: nat, f: Item)
    requires Ascending(all) && front <= Cut(all) && i < |all| && f in front && all[i].number < f.number
    ensures all[i] in front
  {
    hide Cut;
    var k :| 0 <= k < |front| && front[k] == f;
    assert all[k] == f;
    if k <= i {
      assert k < i ==> all[k].number < all[i].number;
    }
    assert front[i] == all[i];
  }

  lemma LacksStays(log: seq<Item>, later: seq<Item>, start: int, emitted: seq<Item>, more: seq<Item>)
    requires Lacks(log, start, emitted) && log <= later && Increasing(start, emitted + more)
    ensures Lacks(later, start, emitted + more)
  {
    var e, f :| e in log && start < e.number && e !in emitted && f in emitted && e.number < f.number;
    var all := emitted + more;
    var k :| 0 <= k < |emitted| && emitted[k] == f;
    assert all[k] == f;
    forall i | 0 <= i < |more|
      ensures more[i] != e
    {
      assert all[|emitted| + i] == more[i];
    }
    assert e in later && e !in all && f in all;
  }

  lemma ReadIncreases(start: int, emitted: seq<Item>, items: seq<Item>, read: seq<Item>)
    requires Increasing(start, emitted) && Ascending(items) && read <= After(items, Last(start, emitted))
    ensures Increasing(start, emitted + Cut(read))
  {
    var later, chunk := After(items, Last(start, emitted)), Cut(read);
    AfterMembers(items, Last(start, emitted));
    hide After, Cut;
    assert chunk <= later;
    forall i | 0 <= i < |chunk|
      ensures chunk[i].number > Last(start, emitted)
    {
      assert chunk[i] == later[i];
    }
  }

  // ---- live reads ----

  lemma StretchAscends(log: seq<Item>, a: nat, m: nat)
    requires Ascending(log) && a <= m <= |log|
    ensures Ascending(log[a..m])
  {
  }

  lemma FaithfulAscends(w: World)
    requires Faithful(w)
    ensures Ascending(w.log) && Ascending(w.buffer)
  {
    var a, m :| 0 <= a <= m <= |w.log| && w.buffer == w.log[a..m];
    StretchAscends(w.log, a, m);
  }

  /** Unless it skips an event, the buffer offers the next stretch of the log. */
  lemma LiveReadIsNext(w: World, last: int)
    requires Faithful(w) && !Skips(w, last)
    ensures After(w.buffer, last) <= After(w.log, last)
  {
    var a, m :| 0 <= a <= m <= |w.log| && w.buffer == w.log[a..m];
    StretchAscends(w.log, a, m);
    var j := AfterIsSuffix(w.log, last);
    var i := AfterIsSuffix(w.buffer, last);
    hide After, Faithful;
    if i < |w.buffer| {
      assert After(w.buffer, last)[0] == w.buffer[i];
      StretchMeets(w.log, a, m, i, j, last);
    }
  }

  lemma StretchMeets(log: seq<Item>, a: nat, m: nat, i: nat, j: nat, last: int)
    requires Ascending(log) && a <= m <= |log| && i < m - a && j <= |log|
    requires (j > 0 ==> log[j - 1].number <= last) && (j < |log| ==> log[j].number > last)
    requires log[a..m][i].number > last
    requires forall e :: e in log ==> !(last < e.number < log[a..m][i].number)
    ensures log[a..m][i..] <= log[j..]
  {
    assert log[a..m][i] == log[a + i];
    assert j <= a + i;
    assert log[j] in log;
    assert j == a + i;
    assert log[a..m][i..] == log[j..m];
  }

  lemma SkipLacks(w: World, start: int, emitted: seq<Item>)
    requires Faithful(w) && Increasing(start, emitted) && Skips(w, Last(start, emitted))
    ensures Lacks(w.log, start, emitted + Cut(After(w.buffer, Last(start, emitted))))
  {
    var last := Last(start, emitted);
    var read := After(w.buffer, last);
    var e :| e in w.log && last < e.number < read[0].number;
    FaithfulAscends(w);
    AfterMembers(w.buffer, last);
    CutWhole(read);
    hide After, Cut, Faithful, Skips;
    PassedOver(emitted, Cut(read), e, last);
    assert (emitted + Cut(read))[|emitted|] == read[0];
    assert start < e.number;
  }

  lemma PassedOver(emitted: seq<Item>, more: seq<Item>, e: Item, last: int)
    requires Ascending(more) && more != [] && last < e.number < more[0].number
    requires Ascending(emitted) && (emitted != [] ==> emitted[|emitted| - 1].number <= last)
    ensures e !in emitted + more
  {
  }

  /** What the stream skips, a gap check on the same buffer reports. */
  lemma SkipIsGap(w: World, last: int)
    requires Skips(w, last)
    ensures HasGap(w.buffer, last)
  {
    hide After;
  }

  /** In a log without holes the two are the same. */
  lemma GapIsSkip(w: World, base: int, last: int)
    requires Faithful(w) && base <= last && forall i :: 0 <= i < |w.log| ==> w.log[i].number == base + 1 + i
    ensures Skips(w, last) <==> HasGap(w.buffer, last)
  {
    if HasGap(w.buffer, last) {
      var first := After(w.buffer, last)[0];
      AfterMembers(w.buffer, last);
      hide After;
      var a, m :| 0 <= a <= m <= |w.log| && w.buffer == w.log[a..m];
      assert first in w.buffer;
      var i :| 0 <= i < |w.log| && w.log[i] == first;
      assert w.log[last - base].number == last + 1;
      assert w.log[last - base] in w.log;
    }
  }

  // ---- what a turn reads and sends ----

  function TurnRead(c: Conn, m: Moment): seq<Item> {
    match c.phase
    case Replaying(_) => Replay(m.read.log, c.last, PAGE)
    case Live => if ReadsLive(c, m) then After(m.read.buffer, c.last) else Replay(m.read.log, c.last, PAGE)
    case Ended => []
  }

  lemma {:induction false} DataFrames(frames: seq<Frame>, items: seq<Item>)
    ensures DataOf(frames + Frames(items)) == DataOf(frames) + items
  {
    hide DataOf, Frames;
    if items == [] {
      NoFrames();
      assert frames + [] == frames;
    } else {
      var front, last := items[..|items| - 1], items[|items| - 1];
      DataFrames(frames, front);
      DataAppends(frames + Frames(front), Data(last));
      LastFrame(frames, items);
      SplitLast(DataOf(frames), items);
    }
  }

  lemma SplitLast(a: seq<Item>, items: seq<Item>)
    requires items != []
    ensures (a + items[..|items| - 1]) + [items[|items| - 1]] == a + items
  {
  }

  lemma LastFrame(frames: seq<Frame>, items: seq<Item>)
    requires items != []
    ensures frames + Frames(items) == (frames + Frames(items[..|items| - 1])) + [Data(items[|items| - 1])]
  {
    FramesUnfold(items);
    hide Frames;
    AssocFrames(frames, Frames(items[..|items| - 1]), [Data(items[|items| - 1])]);
  }

  lemma FramesUnfold(items: seq<Item>)
    requires items != []
    ensures Frames(items) == Frames(items[..|items| - 1]) + [Data(items[|items| - 1])]
  {
  }

  lemma AssocFrames(a: seq<Frame>, b: seq<Frame>, c: seq<Frame>)
    ensures a + (b + c) == (a + b) + c
  {
  }

  lemma SentData(c: Conn, items: seq<Item>)
    ensures DataOf(Sent(c, items).frames) == DataOf(c.frames) + Cut(items)
    ensures Sent(c, items).last == Last(c.last, Cut(items))
    ensures Sent(c, items).phase == if NoDone(Cut(items)) then c.phase else Ended
  {
    hide Cut, Frames, DataOf;
    DataFrames(c.frames, Cut(items));
  }

  lemma LeftData(s: Setup, c: Conn, any: bool)
    ensures DataOf(Left(s, c, any).frames) == DataOf(c.frames) && Left(s, c, any).last == c.last
    ensures Left(s, c, any).phase == if s.hasBroker then Live else Ended
  {
    DataAppends(c.frames, FatalError);
    assert c.frames + [] == c.frames;
  }

  /** A turn sends what it reads, up to a `done`, and ends when it sent one. */
  lemma TurnSends(s: Setup, c: Conn, m: Moment)
    ensures var read := TurnRead(c, m);
            && DataOf(Turn(s, c, m).frames) == DataOf(c.frames) + Cut(read)
            && Turn(s, c, m).last == Last(c.last, Cut(read))
            && (!NoDone(Cut(read)) ==> Turn(s, c, m).phase.Ended?)
            && (c.phase.Ended? ==> Turn(s, c, m) == c)
  {
    hide DataOf, Sent, Left, Replay, HasGap, After, NoDone;
    var read := TurnRead(c, m);
    EmptyCut();
    match c.phase
    case Replaying(any) =>
      var from := c.(phase := Replaying(true));
      SentData(from, read);
      LeftData(s, c, any);
      LeftData(s, Sent(from, read), true);
      assert DataOf(c.frames) + [] == DataOf(c.frames);
    case Live =>
      SentData(c, read);
      DataAppends(c.frames, Ping);
      assert DataOf(c.frames) + [] == DataOf(c.frames);
    case Ended =>
      assert DataOf(c.frames) + [] == DataOf(c.frames);
  }

  lemma EmptyCut()
    ensures Cut([]) == [] && NoDone([])
  {
  }

  /** The cursor is the last event sent, and a connection that sent a `done` has ended. */
  lemma {:induction false} RunShape(s: Setup, moments: nat -> Moment, k: nat)
    ensures Run(s, moments, k).last == Last(StartOf(s), Output(s, moments, k))
    ensures !Run(s, moments, k).phase.Ended? ==> NoDone(Output(s, moments, k))
  {
    if k == 0 {
      DataAppends([], TimelineGap(StartOf(s), s.retainedFrom, s.latest));
    } else {
      RunShape(s, moments, k - 1);
      var c, m := Run(s, moments, k - 1), moments(k - 1);
      TurnSends(s, c, m);
      var read := Cut(TurnRead(c, m));
      hide DataOf, Turn, Cut, TurnRead;
      LastAppends(StartOf(s), DataOf(c.frames), read);
      NoDoneAppends(DataOf(c.frames), read);
    }
  }

  lemma NothingYet(s: Setup, moments: nat -> Moment)
    ensures Output(s, moments, 0) == []
  {
    DataAppends([], TimelineGap(StartOf(s), s.retainedFrom, s.latest));
  }

  lemma RunStep(s: Setup, moments: nat -> Moment, k: nat)
    requires k > 0
    ensures var c, m, emitted := Run(s, moments, k - 1), moments(k - 1), Output(s, moments, k - 1);
            && Run(s, moments, k) == Turn(s, c, m)
            && Output(s, moments, k) == emitted + Cut(TurnRead(c, m))
            && c.last == Last(StartOf(s), emitted)
            && (!c.phase.Ended? ==> NoDone(emitted))
  {
    hide *;
    var c, m := Run(s, moments, k - 1), moments(k - 1);
    RunUnfolds(s, moments, k);
    RunShape(s, moments, k - 1);
    TurnSends(s, c, m);
  }

  lemma RunUnfolds(s: Setup, moments: nat -> Moment, k: nat)
    requires k > 0
    ensures Run(s, moments, k) == Turn(s, Run(s, moments, k - 1), moments(k - 1))
    ensures Output(s, moments, k) == DataOf(Turn(s, Run(s, moments, k - 1), moments(k - 1)).frames)
    ensures Output(s, moments, k - 1) == DataOf(Run(s, moments, k - 1).frames)
  {
    hide Turn, DataOf;
  }

  lemma NoDoneAppends(a: seq<Item>, b: seq<Item>)
    ensures NoDone(a + b) <==> NoDone(a) && NoDone(b)
  {
    assert forall e :: e in a + b <==> e in a || e in b;
  }

  /** A live read of turn `k` passed an event of the log over. */
  predicate Loses(s: Setup, moments: nat -> Moment, k: nat) {
    var c := Run(s, moments, k);
    ReadsLive(c, moments(k)) && Skips(moments(k).read, c.last)
  }

  predicate LosesBefore(s: Setup, moments: nat -> Moment, k: nat) {
    exists j | 0 <= j < k :: Loses(s, moments, j)
  }

  // ---- increasing, exact, complete ----

  lemma ReplayIsNext(log: seq<Item>, last: int)
    ensures Replay(log, last, PAGE) <= After(log, last)
    ensures After(log, last) != [] ==> Replay(log, last, PAGE) != []
    ensures |Replay(log, last, PAGE)| < PAGE ==> Replay(log, last, PAGE) == After(log, last)
  {
    hide After;
  }

  /** The events sent are strictly increasing, whatever the broker did. */
  lemma {:induction false} AlwaysIncreasing(s: Setup, moments: nat -> Moment, k: nat)
    requires SortedRun(moments)
    ensures Increasing(StartOf(s), Output(s, moments, k))
  {
    hide Run, Output, Turn, TurnRead, Cut, DataOf, Ascending;
    if k == 0 {
      NothingYet(s, moments);
      NothingIncreases(StartOf(s));
    } else {
      AlwaysIncreasing(s, moments, k - 1);
      RunStep(s, moments, k);
      assert Ascending(moments(k - 1).read.log) && Ascending(moments(k - 1).read.buffer);
      hide Increasing;
      TurnIncreases(StartOf(s), Output(s, moments, k - 1), Run(s, moments, k - 1), moments(k - 1));
    }
  }

  lemma NothingIncreases(start: int)
    ensures Increasing(start, [])
  {
  }

  lemma TurnIncreases(start: int, emitted: seq<Item>, c: Conn, m: Moment)
    requires Ascending(m.read.log) && Ascending(m.read.buffer)
    requires Increasing(start, emitted) && c.last == Last(start, emitted)
    ensures Increasing(start, emitted + Cut(TurnRead(c, m)))
  {
    hide After, Replay, Increasing, Cut, HasGap, Ascending;
    ReplayIsNext(m.read.log, c.last);
    if c.phase.Ended? {
      EmptyCut();
      assert emitted + [] == emitted;
    } else if ReadsLive(c, m) {
      ReadIncreases(start, emitted, m.read.buffer, TurnRead(c, m));
    } else {
      ReadIncreases(start, emitted, m.read.log, TurnRead(c, m));
    }
  }

  lemma FaithfulIsSorted(moments: nat -> Moment)
    requires FaithfulRun(moments)
    ensures SortedRun(moments)
  {
    forall k: nat
      ensures Ascending(moments(k).read.log) && Ascending(moments(k).read.buffer)
    {
      assert FaithfulMoment(moments(k), moments(k + 1));
      FaithfulAscends(moments(k).read);
    }
  }

  /** Without a loss the stream is exact so far, and with one it never is again. */
  ghost predicate Tracks(s: Setup, moments: nat -> Moment, k: nat) {
    var log := moments(k).check.log;
    if LosesBefore(s, moments, k) then Lacks(log, StartOf(s), Output(s, moments, k))
    else Exact(log, StartOf(s), Output(s, moments, k))
  }

  lemma {:induction false} RunTracks(s: Setup, moments: nat -> Moment, k: nat)
    requires FaithfulRun(moments)
    ensures Tracks(s, moments, k)
  {
    hide Run, Output, Moved, Lacks, FaithfulRun, Skips, ReadsLive;
    if k == 0 {
      NothingYet(s, moments);
    } else {
      RunTracks(s, moments, k - 1);
      LossGrows(s, moments, k);
      MovedAt(s, moments, k);
      hide LosesBefore, Exact;
      var c, emitted, after := Run(s, moments, k - 1), Output(s, moments, k - 1), Output(s, moments, k);
      if LosesBefore(s, moments, k - 1) {
        LostTurn(StartOf(s), c, moments(k - 1), moments(k), emitted, after);
      } else {
        SoundTurn(StartOf(s), c, moments(k - 1), moments(k), emitted, after);
      }
    }
  }

  lemma MovedAt(s: Setup, moments: nat -> Moment, k: nat)
    requires k > 0 && FaithfulRun(moments)
    ensures Moved(StartOf(s), Run(s, moments, k - 1), moments(k - 1), moments(k),
                  Output(s, moments, k - 1), Output(s, moments, k))
  {
    hide *;
    MomentBefore(moments, k);
    FaithfulIsSorted(moments);
    AlwaysIncreasing(s, moments, k - 1);
    AlwaysIncreasing(s, moments, k);
    RunStep(s, moments, k);
    MovedFrom(StartOf(s), Run(s, moments, k - 1), moments(k - 1), moments(k),
              Output(s, moments, k - 1), Output(s, moments, k));
  }

  lemma MovedFrom(start: int, c: Conn, m: Moment, next: Moment, emitted: seq<Item>, after: seq<Item>)
    requires FaithfulMoment(m, next)
    requires Increasing(start, emitted) && Increasing(start, after)
    requires c.last == Last(start, emitted) && (!c.phase.Ended? ==> NoDone(emitted))
    requires after == emitted + Cut(TurnRead(c, m))
    ensures Moved(start, c, m, next, emitted, after)
  {
    hide FaithfulMoment, Increasing, Cut, TurnRead;
  }

  lemma MomentBefore(moments: nat -> Moment, k: nat)
    requires FaithfulRun(moments) && k > 0
    ensures FaithfulMoment(moments(k - 1), moments(k))
  {
    hide FaithfulMoment;
    assert FaithfulMoment(moments(k - 1), moments(k - 1 + 1));
  }

  lemma LossGrows(s: Setup, moments: nat -> Moment, k: nat)
    requires k > 0
    ensures LosesBefore(s, moments, k) <==> LosesBefore(s, moments, k - 1) || Loses(s, moments, k - 1)
  {
  }

  /** The facts about a turn that its effect on the output rests on. */
  ghost predicate Moved(start: int, c: Conn, m: Moment, next: Moment, emitted: seq<Item>, after: seq<Item>) {
    && FaithfulMoment(m, next)
    && Increasing(start, emitted) && Increasing(start, after)
    && c.last == Last(start, emitted)
    && (!c.phase.Ended? ==> NoDone(emitted))
    && after == emitted + Cut(TurnRead(c, m))
  }

  lemma LostTurn(start: int, c: Conn, m: Moment, next: Moment, emitted: seq<Item>, after: seq<Item>)
    requires Moved(start, c, m, next, emitted, after) && Lacks(m.check.log, start, emitted)
    ensures Lacks(next.check.log, start, after)
  {
    hide Lacks, Increasing, Cut, TurnRead;
    LacksStays(m.check.log, next.check.log, start, emitted, Cut(TurnRead(c, m)));
  }

  lemma SoundTurn(start: int, c: Conn, m: Moment, next: Moment, emitted: seq<Item>, after: seq<Item>)
    requires Moved(start, c, m, next, emitted, after) && Exact(m.check.log, start, emitted)
    ensures if ReadsLive(c, m) && Skips(m.read, c.last) then Lacks(next.check.log, start, after)
            else Exact(next.check.log, start, after)
  {
    var read := TurnRead(c, m);
    hide Exact, Lacks, Increasing, Faithful, Skips, Replay, After, Cut, HasGap;
    if ReadsLive(c, m) && Skips(m.read, c.last) {
      SkipLacks(m.read, start, emitted);
      EmptyAppends(emitted, read);
      LacksStays(m.read.log, next.check.log, start, after, []);
    } else {
      ExactGrows(m.check.log, m.read.log, start, emitted);
      TurnFront(c, m);
      if c.phase.Ended? {
        EmptyCut();
        assert emitted + [] == emitted;
      } else {
        FaithfulAscends(m.read);
        ExactStep(m.read.log, start, emitted, read);
      }
      ExactGrows(m.read.log, next.check.log, start, after);
    }
  }

  lemma EmptyAppends(a: seq<Item>, read: seq<Item>)
    ensures a + Cut(read) + [] == a + Cut(read)
  {
  }

  /** Unless it loses an event, a turn reads a front of what the log has above the cursor. */
  lemma TurnFront(c: Conn, m: Moment)
    requires Faithful(m.read) && !(ReadsLive(c, m) && Skips(m.read, c.last))
    ensures TurnRead(c, m) <= After(m.read.log, c.last)
  {
    hide After, Replay, HasGap, Skips, Faithful;
    ReplayIsNext(m.read.log, c.last);
    if ReadsLive(c, m) {
      LiveReadIsNext(m.read, c.last);
    }
  }

  /** Over any number of turns the stream is the log above its start, none missing or repeated,
      if and only if no live read passed an event over. */
  lemma ExactlyWhen(s: Setup, moments: nat -> Moment, rounds: nat)
    requires FaithfulRun(moments)
    ensures Exact(moments(rounds).check.log, StartOf(s), Output(s, moments, rounds))
       <==> !LosesBefore(s, moments, rounds)
  {
    hide Run, Output, LosesBefore, Exact, Lacks, Faithful;
    RunTracks(s, moments, rounds);
    if LosesBefore(s, moments, rounds) {
      var log := moments(rounds).check.log;
      assert FaithfulMoment(moments(rounds), moments(rounds + 1));
      FaithfulAscends(moments(rounds).check);
      LacksIsNotExact(log, log, StartOf(s), Output(s, moments, rounds));
    }
  }

  ghost predicate SameView(moments: nat -> Moment) {
    forall k: nat :: moments(k).check.buffer == moments(k).read.buffer
  }

  /** When gap check and read see one buffer, nothing is ever lost. */
  lemma SameViewLosesNothing(s: Setup, moments: nat -> Moment, rounds: nat)
    requires FaithfulRun(moments) && SameView(moments)
    ensures !LosesBefore(s, moments, rounds)
  {
    hide Run, Skips, HasGap, Replay;
    forall k | 0 <= k < rounds
      ensures !Loses(s, moments, k)
    {
      var c, m := Run(s, moments, k), moments(k);
      assert FaithfulMoment(m, moments(k + 1)) && m.check.buffer == m.read.buffer;
      if Skips(m.read, c.last) {
        SkipIsGap(m.read, c.last);
        GapHasReplay(m, c.last);
      }
    }
  }

  /** A gap seen in the buffer means that the log read next has more to give. */
  lemma GapHasReplay(m: Moment, last: int)
    requires HasGap(m.check.buffer, last) && forall e :: e in m.check.buffer ==> e in m.read.log
    ensures Replay(m.read.log, last, PAGE) != []
  {
    var e := After(m.check.buffer, last)[0];
    AfterMembers(m.check.buffer, last);
    AfterMembers(m.read.log, last);
    assert e in After(m.read.log, last);
  }

  // ---- delivery ----

  lemma ReplayPhase(s: Setup, c: Conn, m: Moment)
    requires c.phase.Replaying?
    ensures var read := TurnRead(c, m);
            Turn(s, c, m).phase == if !NoDone(Cut(read)) then Ended
                                   else if |read| >= PAGE then Replaying(true)
                                   else if s.hasBroker then Live else Ended
  {
    hide Replay, After, Frames, NoDone;
    EmptyCut();
    SentData(c.(phase := Replaying(true)), TurnRead(c, m));
    LeftData(s, c, c.phase.any);
    LeftData(s, Sent(c.(phase := Replaying(true)), TurnRead(c, m)), true);
  }

  lemma LivePhase(s: Setup, c: Conn, m: Moment)
    requires c.phase.Live?
    ensures var read := TurnRead(c, m);
            Turn(s, c, m).phase == if !NoDone(Cut(read)) then Ended
                                   else if read == [] && m.closed then Ended else Live
  {
    hide Replay, After, Frames, HasGap;
    EmptyCut();
    SentData(c, TurnRead(c, m));
  }

  /** A turn with something to read above the cursor sends at least one event. */
  lemma TurnEmits(s: Setup, c: Conn, m: Moment)
    requires !c.phase.Ended?
    requires c.phase.Replaying? ==> After(m.read.log, c.last) != []
    requires c.phase.Live? ==> After(m.read.buffer, c.last) != []
    ensures |DataOf(Turn(s, c, m).frames)| > |DataOf(c.frames)|
  {
    TurnSends(s, c, m);
    ReplayIsNext(m.read.log, c.last);
    CutWhole(TurnRead(c, m));
    hide Turn, DataOf, Cut, After, Replay, HasGap;
  }

  lemma NothingLeft(log: seq<Item>, start: int, emitted: seq<Item>)
    requires Ascending(log) && Exact(log, start, emitted) && NoDone(emitted)
    requires After(log, Last(start, emitted)) == []
    ensures Complete(log, start, emitted)
  {
    ExactStep(log, start, emitted, []);
    EmptyCut();
    assert emitted + [] == emitted;
  }

  /** Without a broker, one turn over an unchanging log. */
  lemma PageTurn(s: Setup, c: Conn, m: Moment, start: int, emitted: seq<Item>)
    requires !s.hasBroker && c.phase.Replaying? && c.last == Last(start, emitted)
    requires Ascending(m.read.log) && Exact(m.read.log, start, emitted) && NoDone(emitted)
    ensures var after := emitted + Cut(TurnRead(c, m));
            && (Turn(s, c, m).phase.Ended? ==> Complete(m.read.log, start, after))
            && (!Turn(s, c, m).phase.Ended? ==>
                  Turn(s, c, m).phase.Replaying? && Exact(m.read.log, start, after) && |after| > |emitted|)
  {
    ReplayPhase(s, c, m);
    ReplayIsNext(m.read.log, c.last);
    hide Exact, Complete, Replay, After, Cut, Turn;
    ExactStep(m.read.log, start, emitted, TurnRead(c, m));
    CutWhole(TurnRead(c, m));
  }

  ghost predicate Pages(log: seq<Item>, start: int, c: Conn, sent: seq<Item>, k: nat) {
    && (c.phase.Ended? ==> Complete(log, start, sent))
    && (!c.phase.Ended? ==> c.phase.Replaying? && Exact(log, start, sent) && NoDone(sent) && k <= |sent|)
  }

  lemma {:induction false} RunPages(s: Setup, moments: nat -> Moment, log: seq<Item>, k: nat)
    requires !s.hasBroker && Ascending(log) && forall i: nat :: moments(i).read.log == log
    ensures Pages(log, StartOf(s), Run(s, moments, k), Output(s, moments, k), k)
  {
    hide *;
    if k == 0 {
      FirstPages(s, moments, log);
    } else {
      RunPages(s, moments, log, k - 1);
      RunStep(s, moments, k);
      assert moments(k - 1).read.log == log;
      if Run(s, moments, k - 1).phase.Ended? {
        EndedStays(s, moments, k - 1, k);
        SameOutput(s, moments, k - 1, k);
        PagesStay(log, StartOf(s), Run(s, moments, k), Output(s, moments, k), k);
      } else {
        PagesStep(s, Run(s, moments, k - 1), moments(k - 1), Output(s, moments, k - 1), k);
      }
    }
  }

  lemma FirstPages(s: Setup, moments: nat -> Moment, log: seq<Item>)
    ensures Pages(log, StartOf(s), Run(s, moments, 0), Output(s, moments, 0), 0)
  {
    NothingYet(s, moments);
  }

  lemma PagesStay(log: seq<Item>, start: int, c: Conn, sent: seq<Item>, k: nat)
    requires k > 0 && c.phase.Ended? && Pages(log, start, c, sent, k - 1)
    ensures Pages(log, start, c, sent, k)
  {
    hide Complete, Exact;
  }

  lemma PagesStep(s: Setup, c: Conn, m: Moment, emitted: seq<Item>, k: nat)
    requires !s.hasBroker && k > 0 && !c.phase.Ended? && c.last == Last(StartOf(s), emitted)
    requires Ascending(m.read.log) && Pages(m.read.log, StartOf(s), c, emitted, k - 1)
    ensures Pages(m.read.log, StartOf(s), Turn(s, c, m), emitted + Cut(TurnRead(c, m)), k)
  {
    PageTurn(s, c, m, StartOf(s), emitted);
    TurnSends(s, c, m);
    NoDoneAppends(emitted, Cut(TurnRead(c, m)));
    hide Exact, Complete, Turn, TurnRead, Cut;
  }

  /** Without a broker and with an unchanging log the stream ends, within as many turns as there
      are events to send and one more, having sent the whole log above its start up to a `done`. */
  lemma CompleteWithoutBroker(s: Setup, moments: nat -> Moment, log: seq<Item>, k: nat)
    requires !s.hasBroker && Ascending(log) && forall i: nat :: moments(i).read.log == log
    ensures Run(s, moments, k).phase.Ended? ==> Complete(log, StartOf(s), Output(s, moments, k))
    ensures k > |After(log, StartOf(s))| ==> Run(s, moments, k).phase.Ended?
  {
    RunPages(s, moments, log, k);
    ExactIsShort(log, StartOf(s), Output(s, moments, k));
    hide Run, Output, Exact, Complete, After;
  }

  lemma SameOutput(s: Setup, moments: nat -> Moment, i: nat, k: nat)
    requires Run(s, moments, i) == Run(s, moments, k)
    ensures Output(s, moments, i) == Output(s, moments, k)
  {
    hide Run, DataOf;
  }

  lemma ExactIsShort(log: seq<Item>, start: int, emitted: seq<Item>)
    ensures Exact(log, start, emitted) ==> |emitted| <= |After(log, start)|
  {
    hide After, Cut;
  }

  /** The buffer holds the newest event of the log, if there is any. */
  predicate ReachesEnd(w: World) {
    w.log == [] || (w.buffer != [] && w.buffer[|w.buffer| - 1] == w.log[|w.log| - 1])
  }

  lemma BufferHasMore(w: World, last: int)
    requires Ascending(w.log) && ReachesEnd(w) && After(w.log, last) != []
    ensures After(w.buffer, last) != []
  {
    var e := After(w.log, last)[0];
    AfterMembers(w.log, last);
    AfterMembers(w.buffer, last);
    hide After;
    assert e in w.log;
    var i :| 0 <= i < |w.log| && w.log[i] == e;
    var newest := w.log[|w.log| - 1];
    assert newest.number >= e.number;
    assert newest in w.buffer;
  }

  /** A longer log cuts to the same events exactly when a `done` ends them, or nothing came above
      the start. */
  lemma LaterCut(log: seq<Item>, later: seq<Item>, start: int)
    requires log <= later
    ensures Cut(After(log, start)) == Cut(After(later, start))
       <==> !NoDone(Cut(After(log, start))) || After(later, start) == After(log, start)
  {
    var a, b := After(log, start), After(later[|log|..], start);
    assert later == log + later[|log|..];
    AfterAppends(log, later[|log|..], start);
    hide After;
    CutGrows(a, a + b);
    CutWhole(a);
    CutWhole(b);
    if NoDone(Cut(a)) {
      CutAppends(a, b);
    }
    hide Cut, NoDone;
  }

  /** When the stream returns from a broker whose buffer reaches the end of the log, closed or with
      a `done`, it has sent all that was stored before the last read; and all that is stored at the
      return if and only if it ends with a `done` or no event came in between that read and the test
      of the closed flag. */
  lemma ReturnIsComplete(s: Setup, moments: nat -> Moment, k: nat)
    requires FaithfulRun(moments) && !LosesBefore(s, moments, k + 1) && ReachesEnd(moments(k).read)
    requires Run(s, moments, k).phase.Live? && Run(s, moments, k + 1).phase.Ended?
    ensures Complete(moments(k).read.log, StartOf(s), Output(s, moments, k + 1))
    ensures Complete(moments(k).test.log, StartOf(s), Output(s, moments, k + 1))
       <==> !NoDone(Output(s, moments, k + 1))
            || After(moments(k).test.log, StartOf(s)) == After(moments(k).read.log, StartOf(s))
  {
    ReturnReadAll(s, moments, k);
    MomentBefore(moments, k + 1);
    hide Run, Output, LosesBefore, Faithful, Skips, After, Cut, ReachesEnd, NoDone;
    LaterCut(moments(k).read.log, moments(k).test.log, StartOf(s));
  }

  lemma ReturnReadAll(s: Setup, moments: nat -> Moment, k: nat)
    requires FaithfulRun(moments) && !LosesBefore(s, moments, k + 1) && ReachesEnd(moments(k).read)
    requires Run(s, moments, k).phase.Live? && Run(s, moments, k + 1).phase.Ended?
    ensures Complete(moments(k).read.log, StartOf(s), Output(s, moments, k + 1))
  {
    var c, m, start, emitted := Run(s, moments, k), moments(k), StartOf(s), Output(s, moments, k);
    LossGrows(s, moments, k + 1);
    ExactlyWhen(s, moments, k);
    MomentBefore(moments, k + 1);
    RunStep(s, moments, k + 1);
    LivePhase(s, c, m);
    hide Run, Output, LosesBefore, Exact, Complete, Faithful, Skips, After, Cut, TurnRead, ReadsLive, ReachesEnd, Turn;
    FaithfulAscends(m.read);
    ExactGrows(m.check.log, m.read.log, start, emitted);
    TurnFront(c, m);
    ExactStep(m.read.log, start, emitted, TurnRead(c, m));
    if TurnRead(c, m) == [] {
      NothingRead(c, m);
    }
  }

  /** A live turn that reads nothing has nothing above the cursor, when the buffer reaches the end. */
  lemma NothingRead(c: Conn, m: Moment)
    requires c.phase.Live? && TurnRead(c, m) == [] && Ascending(m.read.log) && ReachesEnd(m.read)
    ensures After(m.read.log, c.last) == []
  {
    hide After, Replay, HasGap, ReachesEnd;
    if After(m.read.log, c.last) != [] {
      BufferHasMore(m.read, c.last);
    }
  }

  /** Turns still needed: one for each event above the cursor, and one to leave the replay loop. */
  function Rank(log: seq<Item>, c: Conn): nat {
    |After(log, c.last)| + if c.phase.Replaying? then 1 else 0
  }

  ghost predicate Nears(log: seq<Item>, start: int, c: Conn, sent: seq<Item>, left: nat) {
    && (c.phase.Ended? ==> Complete(log, start, sent))
    && (!c.phase.Ended? ==> Exact(log, start, sent) && NoDone(sent) && Rank(log, c) <= left)
  }

  /** Gap check and read saw the same. */
  predicate Still(m: Moment, w: World) {
    m.check == w && m.read == w
  }

  /** Once both stores stand still, a turn loses nothing. */
  lemma StillTurnIsSound(c: Conn, m: Moment, w: World)
    requires Faithful(w) && Still(m, w)
    ensures TurnRead(c, m) <= After(w.log, c.last)
  {
    hide After, Replay, HasGap, Skips, TurnRead;
    if Skips(w, c.last) {
      SkipIsGap(w, c.last);
      BufferInLog(w);
      GapHasReplay(m, c.last);
    }
    TurnFront(c, m);
  }

  lemma BufferInLog(w: World)
    requires Faithful(w)
    ensures forall e :: e in w.buffer ==> e in w.log
  {
  }

  /** While both stores stand still, a turn that goes on leaves less to do, and one that ends
      without a `done` has read all there was. */
  lemma RankFalls(s: Setup, c: Conn, m: Moment, w: World)
    requires s.hasBroker && Faithful(w) && ReachesEnd(w) && !c.phase.Ended? && Still(m, w)
    ensures var next, read := Turn(s, c, m), TurnRead(c, m);
            && (next.phase.Ended? && NoDone(Cut(read)) ==> read == After(w.log, c.last))
            && (!next.phase.Ended? ==>
                  NoDone(Cut(read)) && (Rank(w.log, next) < Rank(w.log, c) || Rank(w.log, next) == 0))
  {
    var read := TurnRead(c, m);
    FaithfulAscends(w);
    StillTurnIsSound(c, m, w);
    TurnSends(s, c, m);
    ReplayIsNext(w.log, c.last);
    ReadOn(w.log, c.last, read);
    CutWhole(read);
    if c.phase.Replaying? {
      ReplayPhase(s, c, m);
    } else {
      LivePhase(s, c, m);
      if read == [] {
        NothingRead(c, m);
      }
    }
    hide Turn, After, Replay, HasGap, Cut, Faithful, ReachesEnd, ReadsLive;
  }

  lemma NearsStep(s: Setup, c: Conn, m: Moment, w: World, sent: seq<Item>, left: nat)
    requires Still(m, w) && s.hasBroker && Faithful(w) && ReachesEnd(w)
    requires !c.phase.Ended? && c.last == Last(StartOf(s), sent)
    requires Nears(w.log, StartOf(s), c, sent, left)
    ensures Nears(w.log, StartOf(s), Turn(s, c, m), sent + Cut(TurnRead(c, m)), if left > 0 then left - 1 else 0)
  {
    var read := TurnRead(c, m);
    hide Exact, Complete, Turn, TurnRead, After, Cut, Faithful, ReachesEnd;
    FaithfulAscends(w);
    StillTurnIsSound(c, m, w);
    NoDoneAppends(sent, Cut(read));
    RankFalls(s, c, m, w);
    ExactStep(w.log, StartOf(s), sent, read);
  }

  /** From turn `from` on, nobody changes the log or the buffer. */
  predicate StandsStill(moments: nat -> Moment, from: nat, w: World, n: nat) {
    forall k | from <= k < n :: Still(moments(k), w)
  }

  lemma {:induction false} RunNears(s: Setup, moments: nat -> Moment, w: World, from: nat, n: nat)
    requires FaithfulRun(moments) && s.hasBroker && Faithful(w) && ReachesEnd(w)
    requires from <= n && StandsStill(moments, from, w, n) && moments(from).check.log <= w.log
    requires !LosesBefore(s, moments, from) && !Run(s, moments, from).phase.Ended?
    ensures Nears(w.log, StartOf(s), Run(s, moments, n), Output(s, moments, n),
                  if n - from < |w.log| + 1 then |w.log| + 1 - (n - from) else 0)
    decreases n - from
  {
    hide *;
    if n == from {
      FirstNears(s, moments, w, from);
    } else {
      StillBefore(moments, from, w, n);
      RunNears(s, moments, w, from, n - 1);
      RunStep(s, moments, n);
      var left := if n - 1 - from < |w.log| + 1 then |w.log| + 1 - (n - 1 - from) else 0;
      if Run(s, moments, n - 1).phase.Ended? {
        EndedStays(s, moments, n - 1, n);
        SameOutput(s, moments, n - 1, n);
        NearsStays(w.log, StartOf(s), Run(s, moments, n), Output(s, moments, n), left);
      } else {
        NearsStep(s, Run(s, moments, n - 1), moments(n - 1), w, Output(s, moments, n - 1), left);
      }
    }
  }

  lemma FirstNears(s: Setup, moments: nat -> Moment, w: World, n: nat)
    requires FaithfulRun(moments) && moments(n).check.log <= w.log
    requires !LosesBefore(s, moments, n) && !Run(s, moments, n).phase.Ended?
    ensures Nears(w.log, StartOf(s), Run(s, moments, n), Output(s, moments, n), |w.log| + 1)
  {
    ExactlyWhen(s, moments, n);
    RunShape(s, moments, n);
    hide Run, Output, Exact, LosesBefore, After;
    ExactGrows(moments(n).check.log, w.log, StartOf(s), Output(s, moments, n));
    AfterIsShort(w.log, Run(s, moments, n).last);
  }

  lemma StillBefore(moments: nat -> Moment, from: nat, w: World, n: nat)
    requires from < n && StandsStill(moments, from, w, n)
    ensures StandsStill(moments, from, w, n - 1) && Still(moments(n - 1), w)
  {
  }

  lemma NearsStays(log: seq<Item>, start: int, c: Conn, sent: seq<Item>, left: nat)
    requires c.phase.Ended? && Nears(log, start, c, sent, left)
    ensures forall fewer: nat :: Nears(log, start, c, sent, fewer)
  {
    hide Complete, Exact;
  }

  lemma AfterIsShort(log: seq<Item>, last: int)
    ensures |After(log, last)| <= |log|
  {
    var k := 0;
    while k < |log|
      invariant 0 <= k <= |log| && |After(log[..k], last)| <= k
    {
      assert log[..k + 1] == log[..k] + [log[k]];
      AfterAppends(log[..k], [log[k]], last);
      k := k + 1;
    }
    assert log[..|log|] == log;
  }

  /** Delivery: when log and broker stand still for as many turns as the log has events and one
      more, a connection that lost nothing before has sent the whole log above its start. */
  lemma Delivers(s: Setup, moments: nat -> Moment, w: World, from: nat, n: nat)
    requires FaithfulRun(moments) && s.hasBroker && ReachesEnd(w)
    requires from + |w.log| + 1 <= n && StandsStill(moments, from, w, n)
    requires !LosesBefore(s, moments, from) && !Run(s, moments, from).phase.Ended?
    ensures Complete(w.log, StartOf(s), Output(s, moments, n))
  {
    assert Still(moments(from), w);
    MomentBefore(moments, from + 1);
    RunNears(s, moments, w, from, n);
    RunShape(s, moments, n);
    if !Run(s, moments, n).phase.Ended? {
      hide Run, Output, Exact, Complete, LosesBefore, ReachesEnd;
      assert After(w.log, Run(s, moments, n).last) == [];
      FaithfulAscends(w);
      NothingLeft(w.log, StartOf(s), Output(s, moments, n));
    }
  }

  // ---- where faithful runs come from ----

  /** A log entry as the broker stores it when nothing is missing before it. */
  predicate InOrder(item: Item) {
    item.event.durable == item.number > 0 && item.gapAfter == None
  }

  ghost predicate Consecutive(log: seq<Item>, base: int) {
    forall i :: 0 <= i < |log| ==> log[i].number == base + 1 + i
  }

  function Events(items: seq<Item>): seq<Event> {
    if items == [] then [] else [items[0].event] + Events(items[1..])
  }

  lemma {:induction false} InOrderAccepted(items: seq<Item>, base: nat)
    requires Consecutive(items, base) && forall e :: e in items ==> InOrder(e)
    ensures AcceptAll(base, Events(items)) == items
    decreases |items|
  {
    if items != [] {
      assert InOrder(items[0]);
      assert Consecutive(items[1..], base + 1);
      InOrderAccepted(items[1..], base + 1);
      assert Events(items)[1..] == Events(items[1..]);
      assert items == [items[0]] + items[1..];
    }
  }

  /** How far a writer has got: `stored` events are in the log, and the first `published` of those
      went through the broker from position `origin` on. */
  datatype Progress = Progress(stored: nat, published: nat)

  /** The world of a broker that was opened behind `origin` events, and published in order. */
  function Seen(log: seq<Item>, origin: nat, initial: nat, max: nat, p: Progress): World
    requires origin <= p.published <= p.stored <= |log|
  {
    World(log[..p.stored], LastN(AcceptAll(initial, Events(log[origin..p.published])), max))
  }

  predicate Within(log: seq<Item>, origin: nat, p: Progress) {
    origin <= p.published <= p.stored <= |log|
  }

  /** What the writer has done when turn `k` checks for a gap, reads, and tests for the end. */
  datatype Pace = Pace(checked: Progress, fetched: Progress, tested: Progress)

  ghost predicate Writes(log: seq<Item>, origin: nat, pace: nat -> Pace) {
    forall k: nat ::
      && Within(log, origin, pace(k).checked)
      && Within(log, origin, pace(k).fetched)
      && Within(log, origin, pace(k).tested)
      && pace(k).checked.stored <= pace(k).fetched.stored <= pace(k).tested.stored <= pace(k + 1).checked.stored
  }

  function MomentOf(log: seq<Item>, origin: nat, initial: nat, max: nat, p: Pace, closed: bool): Moment
    requires Within(log, origin, p.checked) && Within(log, origin, p.fetched) && Within(log, origin, p.tested)
  {
    Moment(Seen(log, origin, initial, max, p.checked), Seen(log, origin, initial, max, p.fetched),
           Seen(log, origin, initial, max, p.tested), closed)
  }

  lemma SeenIsFaithful(log: seq<Item>, origin: nat, initial: nat, max: nat, p: Progress)
    requires origin <= p.published <= p.stored <= |log| && Ascending(log)
    requires Consecutive(log[origin..], initial) && forall e :: e in log[origin..] ==> InOrder(e)
    ensures Faithful(Seen(log, origin, initial, max, p))
    ensures forall e :: e in Seen(log, origin, initial, max, p).buffer ==> e in log[..p.stored]
  {
    var items := log[origin..p.published];
    forall e | e in items
      ensures InOrder(e)
    {
      var i :| 0 <= i < |items| && items[i] == e;
      assert e == log[origin..][i];
    }
    assert Consecutive(items, initial) by {
      assert forall i :: 0 <= i < |items| ==> items[i] == log[origin..][i];
    }
    InOrderAccepted(items, initial);
    hide AcceptAll, Events, InOrder, Consecutive;
    LastOfStretch(log, origin, p.published, p.stored, max);
    StretchAscends(log, 0, p.stored);
    BufferInLog(Seen(log, origin, initial, max, p));
  }

  lemma LastOfStretch(log: seq<Item>, a: nat, m: nat, n: nat, max: nat)
    requires a <= m <= n <= |log|
    ensures var kept := LastN(log[a..m], max);
            |kept| <= m && kept == log[..n][m - |kept|..m]
  {
    var skipped := (m - a) - |LastN(log[a..m], max)|;
    TailOf(log[a..m], max);
    hide LastN;
    Nested(log, a, m, skipped);
    Nested(log[..n], 0, m, a + skipped);
    assert log[..n][..m] == log[..m];
  }

  lemma TailOf(items: seq<Item>, max: nat)
    ensures |LastN(items, max)| <= |items| && LastN(items, max) == items[|items| - |LastN(items, max)|..]
  {
  }

  lemma Nested(log: seq<Item>, a: nat, m: nat, k: nat)
    requires a + k <= m <= |log|
    ensures log[a..m][k..] == log[a + k..m] == log[..m][a + k..]
  {
  }

  /** A broker opened at the log's end and fed each durable event in order, at any pace behind the
      log, gives every reader a faithful run, whatever its size and however long the log is. */
  lemma BrokerRunIsFaithful(log: seq<Item>, origin: nat, initial: nat, max: nat,
                            pace: nat -> Pace, moments: nat -> Moment)
    requires Ascending(log) && origin <= |log| && Writes(log, origin, pace)
    requires Consecutive(log[origin..], initial) && forall e :: e in log[origin..] ==> InOrder(e)
    requires forall k: nat :: moments(k) == MomentOf(log, origin, initial, max, pace(k), moments(k).closed)
    ensures FaithfulRun(moments)
  {
    forall k: nat
      ensures FaithfulMoment(moments(k), moments(k + 1))
    {
      hide Faithful, Ascending, Consecutive;
      SeenIsFaithful(log, origin, initial, max, pace(k).checked);
      SeenIsFaithful(log, origin, initial, max, pace(k).fetched);
      SeenIsFaithful(log, origin, initial, max, pace(k).tested);
      Prefixes(log, pace(k).checked.stored, pace(k).fetched.stored);
      Prefixes(log, pace(k).fetched.stored, pace(k).tested.stored);
      Prefixes(log, pace(k).tested.stored, pace(k + 1).checked.stored);
      Prefixes(log, pace(k).fetched.stored, pace(k + 1).checked.stored);
      forall e | e in moments(k).check.buffer
        ensures e in moments(k).read.log
      {
        assert e in log[..pace(k).checked.stored];
      }
    }
  }

  lemma Prefixes(log: seq<Item>, i: nat, k: nat)
    requires i <= k <= |log|
    ensures log[..i] <= log[..k]
    ensures forall e :: e in log[..i] ==> e in log[..k]
  {
    assert log[..k][..i] == log[..i];
  }

  // ---- two runs that send less ----

  /** What a reader sees before anything was stored, and after all of the log was stored and went
      through a broker that keeps one event. */
  lemma SeenAtEnds(log: seq<Item>)
    requires log != [] && Consecutive(log, 0) && forall e :: e in log ==> InOrder(e)
    ensures Seen(log, 0, 0, 1, Progress(0, 0)) == World([], [])
    ensures Seen(log, 0, 0, 1, Progress(|log|, |log|)) == World(log, [log[|log| - 1]])
  {
    InOrderAccepted(log, 0);
    hide InOrder, Consecutive;
    assert log[..|log|] == log[0..|log|] == log && log[0..0] == log[..0] == [];
    hide Events;
    assert AcceptAll(0, Events([])) == [] by { NoEvents(); }
    hide AcceptAll;
  }

  lemma NoEvents()
    ensures AcceptAll(0, Events([])) == []
  {
  }

  /** A log that is stored and published at once, during turn 1: behind its gap check, or behind
      its read. */
  function Sudden(log: seq<Item>, beforeRead: bool, closes: bool): nat -> Moment
    requires log != []
  {
    var none, all := World([], []), World(log, [log[|log| - 1]]);
    (k: nat) => if k == 0 then Moment(none, none, none, false)
                else if k == 1 then Moment(none, if beforeRead then all else none, all, closes)
                else Moment(all, all, all, closes)
  }

  lemma SuddenIsFaithful(log: seq<Item>, beforeRead: bool, closes: bool)
    requires log != [] && Ascending(log) && Consecutive(log, 0) && forall e :: e in log ==> InOrder(e)
    ensures FaithfulRun(Sudden(log, beforeRead, closes))
  {
    var none, all, moments := Progress(0, 0), Progress(|log|, |log|), Sudden(log, beforeRead, closes);
    var pace := (k: nat) => if k == 0 then Pace(none, none, none)
                            else if k == 1 then Pace(none, if beforeRead then all else none, all)
                            else Pace(all, all, all);
    SeenAtEnds(log);
    assert log[0..] == log;
    hide Ascending, Consecutive, InOrder, FaithfulRun, Seen;
    BrokerRunIsFaithful(log, 0, 0, 1, pace, moments);
  }

  /** A reader from the start, of a running task. */
  function FromStart(): Setup {
    Setup(0, 1, 0, true, true)
  }

  lemma FirstTurnGoesLive(log: seq<Item>, beforeRead: bool, closes: bool)
    requires log != []
    ensures Run(FromStart(), Sudden(log, beforeRead, closes), 1) == Conn(Live, 0, [])
  {
    assert Run(FromStart(), Sudden(log, beforeRead, closes), 0) == Conn(Replaying(false), 0, []);
  }

  /** Two events come between gap check and read, and the buffer keeps the second one only: the
      first one is never sent. */
  lemma ReadSkipsAnEvent(first: Item, second: Item)
    requires InOrder(first) && InOrder(second) && first.number == 1 && second.number == 2
    ensures var s, moments := FromStart(), Sudden([first, second], true, false);
            && FaithfulRun(moments) && LosesBefore(s, moments, 2) && Output(s, moments, 2) == [second]
            && !Exact(moments(2).check.log, StartOf(s), Output(s, moments, 2))
  {
    var log := [first, second];
    var s, moments := FromStart(), Sudden(log, true, false);
    SuddenIsFaithful(log, true, false);
    FirstTurnGoesLive(log, true, false);
    OnlyOne(second, 0);
    hide InOrder, Cut;
    assert first in log;
    assert Skips(moments(1).read, 0);
    assert Loses(s, moments, 1);
    ExactlyWhen(s, moments, 2);
    hide FaithfulRun, Exact, LosesBefore, Skips;
    RunStep(s, moments, 2);
    NothingYet(s, moments);
  }

  lemma OnlyOne(item: Item, last: int)
    requires item.number > last
    ensures After([item], last) == [item] && Cut([item]) == [item]
  {
  }

  /** The log's `done` comes between the last read and the test of the closed flag: the stream
      returns without it. */
  lemma ReturnLeavesDone(last: Item)
    requires InOrder(last) && IsDone(last) && last.number == 1
    ensures var s, moments := FromStart(), Sudden([last], false, true);
            && FaithfulRun(moments) && !LosesBefore(s, moments, 2) && ReachesEnd(moments(1).read)
            && Run(s, moments, 2).phase.Ended? && Output(s, moments, 2) == []
            && !Complete(moments(1).test.log, StartOf(s), Output(s, moments, 2))
  {
    var s, moments := FromStart(), Sudden([last], false, true);
    SuddenIsFaithful([last], false, true);
    FirstTurnGoesLive([last], false, true);
    OnlyOne(last, 0);
    hide InOrder, Cut, FaithfulRun;
    assert Run(s, moments, 2) == Conn(Ended, 0, []);
    assert Run(s, moments, 0) == Conn(Replaying(false), 0, []);
  }
}

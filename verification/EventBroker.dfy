/** The bounded replay broker: a ring of recent events that must agree with
    the unbounded history of everything it accepted. */
module EventBroker {
  import opened Common

  /** A published event. `durable` is its `sequence` field, 0 when it has none. */
  datatype Event = Event(durable: int, kind: string, body: string)

  /** An accepted event with its `_seq` and, after a jump, its `_gap_after`. */
  datatype Stored = Stored(event: Event, number: nat, gapAfter: Option<nat>)

  /** What the broker makes of one event; None when it is stale. */
  function Accept(sequence: nat, e: Event): Option<Stored> {
    if e.durable <= 0 then Some(Stored(e, sequence + 1, None))
    else if e.durable <= sequence then None
    else Some(Stored(e, e.durable, if e.durable > sequence + 1 then Some(sequence) else None))
  }

  function AcceptAll(sequence: nat, batch: seq<Event>): seq<Stored>
    decreases |batch|
  {
    if batch == [] then []
    else
      match Accept(sequence, batch[0])
      case None => AcceptAll(sequence, batch[1..])
      case Some(stored) => [stored] + AcceptAll(stored.number, batch[1..])
  }

  function LastSeq(initial: nat, history: seq<Stored>): nat {
    if history == [] then initial else history[|history| - 1].number
  }

  /** The last `n` elements. */
  function LastN<T>(s: seq<T>, n: nat): seq<T> {
    if |s| <= n then s else s[|s| - n..]
  }

  function After(events: seq<Stored>, sequence: int): seq<Stored> {
    if events == [] then []
    else (if events[0].number > sequence then [events[0]] else []) + After(events[1..], sequence)
  }

  predicate HasGap(events: seq<Stored>, sequence: int) {
    var available := After(events, sequence);
    available != [] && available[0].number > sequence + 1
  }

  /** Strictly increasing, and every jump is marked on the event behind it. */
  ghost predicate Chained(initial: nat, history: seq<Stored>) {
    forall i :: 0 <= i < |history| ==> Follows(Before(initial, history, i), history[i])
  }

  function Before(initial: nat, history: seq<Stored>, i: nat): nat
    requires i < |history|
  {
    if i == 0 then initial else history[i - 1].number
  }

  predicate Follows(before: nat, s: Stored) {
    before < s.number && s.gapAfter == if s.number == before + 1 then None else Some(before)
  }

  // ---- facts about histories ----

  lemma {:induction false} AcceptedIsChained(sequence: nat, batch: seq<Event>)
    ensures Chained(sequence, AcceptAll(sequence, batch))
    decreases |batch|
  {
    if batch != [] {
      match Accept(sequence, batch[0])
      case None => AcceptedIsChained(sequence, batch[1..]);
      case Some(stored) =>
        AcceptedIsChained(stored.number, batch[1..]);
        ChainJoins(sequence, [stored], AcceptAll(stored.number, batch[1..]));
    }
  }

  /** One more event of a batch: it is dropped exactly when it carries a sequence that is not above the last
      number given; otherwise its number is that sequence, or the next one when it carries none. */
  lemma {:induction false} AcceptsExactly(sequence: nat, batch: seq<Event>, e: Event)
    ensures var before := AcceptAll(sequence, batch);
            var last := if before == [] then sequence else before[|before| - 1].number;
            var after := AcceptAll(sequence, batch + [e]);
            if 0 < e.durable <= last then after == before
            else
              && |after| == |before| + 1 && after[..|before|] == before
              && after[|before|].event == e
              && after[|before|].number == (if e.durable > 0 then e.durable else last + 1)
              && (after[|before|].gapAfter.Some? <==> e.durable > last + 1)
              && (after[|before|].gapAfter.Some? ==> after[|before|].gapAfter.value == last)
    decreases |batch|
  {
    if batch == [] {
      assert batch + [e] == [e];
      assert AcceptAll(sequence, [e]) == match Accept(sequence, e) case None => [] case Some(stored) => [stored];
    } else {
      var rest := batch[1..];
      assert (batch + [e])[1..] == rest + [e];
      match Accept(sequence, batch[0])
      case None => AcceptsExactly(sequence, rest, e);
      case Some(stored) =>
        AcceptsExactly(stored.number, rest, e);
        FirstStays(stored, AcceptAll(stored.number, rest), AcceptAll(stored.number, rest + [e]));
    }
  }

  lemma FirstStays(stored: Stored, before: seq<Stored>, after: seq<Stored>)
    requires |after| >= |before| && after[..|before|] == before
    ensures ([stored] + after)[..|before| + 1] == [stored] + before
  {
  }

  /** A cursor has a gap exactly when there are later events and the next number is not among them. */
  lemma GapExactly(events: seq<Stored>, sequence: int)
    requires Ascending(events)
    ensures HasGap(events, sequence) <==>
              && (exists i :: 0 <= i < |events| && events[i].number > sequence)
              && (forall i :: 0 <= i < |events| ==> events[i].number != sequence + 1)
    decreases |events|
  {
    if events != [] {
      if events[0].number > sequence {
        AfterUnfolds(events, sequence);
      } else {
        AfterUnfolds(events, sequence);
        GapExactly(events[1..], sequence);
        hide After;
        assert [] + After(events[1..], sequence) == After(events[1..], sequence);
        assert forall i :: 0 < i < |events| ==> events[i] == events[1..][i - 1];
      }
    }
  }

  lemma ChainJoins(initial: nat, a: seq<Stored>, b: seq<Stored>)
    requires Chained(initial, a) && Chained(LastSeq(initial, a), b)
    ensures Chained(initial, a + b)
    ensures LastSeq(initial, a + b) == LastSeq(LastSeq(initial, a), b)
  {
    hide Follows;
    var h := a + b;
    forall i | 0 <= i < |h|
      ensures Follows(Before(initial, h, i), h[i])
    {
      if i < |a| {
        assert h[i] == a[i] && Before(initial, h, i) == Before(initial, a, i);
      } else {
        assert h[i] == b[i - |a|];
        assert Before(initial, h, i) == Before(LastSeq(initial, a), b, i - |a|);
      }
    }
  }

  lemma LinkIncreases(initial: nat, history: seq<Stored>, k: int)
    requires Chained(initial, history) && 0 < k < |history|
    ensures history[k - 1].number < history[k].number
  {
    assert Follows(Before(initial, history, k), history[k]);
  }

  lemma {:induction false} ChainIncreases(initial: nat, history: seq<Stored>, i: int, k: int)
    requires Chained(initial, history) && 0 <= i < k < |history|
    ensures history[i].number < history[k].number
    decreases k
  {
    hide Chained;
    LinkIncreases(initial, history, k);
    if i < k - 1 {
      ChainIncreases(initial, history, i, k - 1);
    }
  }

  lemma ChainAscends(initial: nat, history: seq<Stored>)
    requires Chained(initial, history)
    ensures Ascending(history)
  {
    forall i, k | 0 <= i < k < |history|
      ensures history[i].number < history[k].number
    {
      ChainIncreases(initial, history, i, k);
    }
  }

  lemma LastAscends(history: seq<Stored>, n: nat)
    requires Ascending(history)
    ensures Ascending(LastN(history, n))
  {
  }

  ghost predicate Ascending(events: seq<Stored>) {
    forall i, k :: 0 <= i < k < |events| ==> events[i].number < events[k].number
  }

  lemma AfterUnfolds(events: seq<Stored>, sequence: int)
    requires events != []
    ensures After(events, sequence)
      == (if events[0].number > sequence then [events[0]] else []) + After(events[1..], sequence)
  {
  }

  lemma {:induction false} AfterAppends(a: seq<Stored>, b: seq<Stored>, sequence: int)
    ensures After(a + b, sequence) == After(a, sequence) + After(b, sequence)
  {
    if a == [] {
      assert a + b == b;
    } else {
      AfterAppends(a[1..], b, sequence);
      AfterUnfolds(a, sequence);
      AfterUnfolds(a + b, sequence);
      hide After;
      assert (a + b)[1..] == a[1..] + b && (a + b)[0] == a[0];
      Assoc(if a[0].number > sequence then [a[0]] else [], After(a[1..], sequence), After(b, sequence));
    }
  }

  lemma Assoc(a: seq<Stored>, b: seq<Stored>, c: seq<Stored>)
    ensures a + (b + c) == (a + b) + c
  {
  }

  lemma AfterOne(e: Stored, sequence: int)
    ensures After([e], sequence) == if e.number > sequence then [e] else []
  {
  }

  lemma {:induction false} AfterNone(events: seq<Stored>, sequence: int)
    requires forall e :: e in events ==> e.number <= sequence
    ensures After(events, sequence) == []
  {
    if events != [] {
      AfterNone(events[1..], sequence);
    }
  }

  lemma {:induction false} AfterMembers(events: seq<Stored>, sequence: int)
    ensures forall e :: e in After(events, sequence) <==> e in events && e.number > sequence
    ensures Ascending(events) ==> Ascending(After(events, sequence))
  {
    if events != [] {
      AfterMembers(events[1..], sequence);
      AfterUnfolds(events, sequence);
      hide After;
      var rest := After(events[1..], sequence);
      assert events == [events[0]] + events[1..];
      if Ascending(events) {
        assert forall e :: e in events[1..] ==> events[0].number < e.number;
        HeadAscends(events[0], rest);
      }
    }
  }

  lemma HeadAscends(e: Stored, rest: seq<Stored>)
    requires forall r :: r in rest ==> e.number < r.number
    ensures Ascending(rest) ==> Ascending([e] + rest)
  {
  }

  /** Unless the buffer reports a gap, it answers exactly as the whole history
      would: nothing the reader still needs has been dropped. */
  lemma BufferAgreesWithHistory(history: seq<Stored>, max: nat, sequence: int)
    requires max >= 1 && Ascending(history) && !HasGap(LastN(history, max), sequence)
    ensures After(LastN(history, max), sequence) == After(history, sequence)
  {
    if history == [] {
      return;
    }
    hide After, HasGap;
    var kept := LastN(history, max);
    var dropped := history[..|history| - |kept|];
    assert history == dropped + kept;
    AfterAppends(dropped, kept, sequence);
    DroppedAreOld(dropped, kept, sequence);
    AfterNone(dropped, sequence);
  }

  /** Without a gap in what is kept, the reader has seen all that was dropped. */
  lemma DroppedAreOld(dropped: seq<Stored>, kept: seq<Stored>, sequence: int)
    requires Ascending(dropped + kept) && kept != [] && !HasGap(kept, sequence)
    ensures forall e :: e in dropped ==> e.number <= sequence
  {
    AfterMembers(kept, sequence);
    hide After;
    var h := dropped + kept;
    var available := After(kept, sequence);
    assert h[|dropped|] == kept[0];
    forall e | e in dropped
      ensures e.number <= sequence
    {
      var i :| 0 <= i < |dropped| && dropped[i] == e;
      assert h[i] == e;
      assert e.number < kept[0].number;
      if available != [] {
        assert available[0] in available;
        var k :| 0 <= k < |kept| && kept[k] == available[0];
        assert h[|dropped| + k] == kept[k];
        assert kept[0].number <= available[0].number;
      } else {
        assert kept[0] in kept && kept[0] !in available;
      }
    }
  }

  lemma AcceptUnfolds(sequence: nat, batch: seq<Event>, k: nat)
    requires k < |batch|
    ensures AcceptAll(sequence, batch[k..]) ==
            match Accept(sequence, batch[k])
            case None => AcceptAll(sequence, batch[k + 1..])
            case Some(stored) => [stored] + AcceptAll(stored.number, batch[k + 1..])
  {
    assert batch[k..][1..] == batch[k + 1..];
  }

  /** One more event: the chain goes on and the ring drops at most its oldest. */
  lemma AppendKeeps(initial: nat, history: seq<Stored>, entry: Stored, max: nat)
    requires max >= 1 && Chained(initial, history)
    requires Accept(LastSeq(initial, history), entry.event) == Some(entry)
    ensures Chained(initial, history + [entry]) && LastSeq(initial, history + [entry]) == entry.number
    ensures var grown := LastN(history, max) + [entry];
            LastN(history + [entry], max) == if |grown| > max then grown[1..] else grown
  {
    AcceptFollows(LastSeq(initial, history), entry);
    ChainJoins(initial, history, [entry]);
    hide Chained, Accept;
    LastGrows(history, entry, max);
  }

  lemma AcceptFollows(before: nat, entry: Stored)
    requires Accept(before, entry.event) == Some(entry)
    ensures Chained(before, [entry])
  {
  }

  lemma LastGrows(history: seq<Stored>, entry: Stored, max: nat)
    requires max >= 1
    ensures var grown := LastN(history, max) + [entry];
            LastN(history + [entry], max) == if |grown| > max then grown[1..] else grown
  {
  }

  lemma Regroup(a: seq<Stored>, e: Stored, b: seq<Stored>)
    ensures a + ([e] + b) == (a + [e]) + b
  {
  }

  lemma AcceptNone(sequence: nat)
    ensures AcceptAll(sequence, []) == []
  {
  }

  // ---- the broker object ----

  datatype Batch = Refused | Published(count: nat)

  class ReplayEventBroker {
    var events: seq<Stored>
    var sequence: nat
    var activePublishers: nat
    var accepting: bool
    var closed: bool
    const maxEvents: nat
    const initial: nat
    ghost var history: seq<Stored>

    ghost predicate Valid()
      reads this
    {
      && maxEvents >= 1 && Chained(initial, history)
      && sequence == LastSeq(initial, history)
      && events == LastN(history, maxEvents)
      && (closed ==> !accepting)
    }

    constructor (maxEvents: nat, initial: nat)
      requires maxEvents >= 1
      ensures Valid() && history == [] && sequence == initial && accepting && !closed && activePublishers == 0
      ensures this.maxEvents == maxEvents && this.initial == initial
    {
      events, sequence, activePublishers, accepting, closed := [], initial, 0, true, false;
      this.maxEvents, this.initial, history := maxEvents, initial, [];
    }

    /** The admission section of `put_many`. */
    method Admit() returns (admitted: bool)
      requires Valid()
      modifies this`activePublishers
      ensures Valid() && (admitted <==> accepting && !closed)
      ensures activePublishers == old(activePublishers) + if admitted then 1 else 0
    {
      if !accepting || closed { return false; }
      activePublishers := activePublishers + 1;
      return true;
    }

    /** Takes the next number for an accepted event and drops the oldest one of a full ring. */
    method Retain(entry: Stored)
      requires Valid() && Accept(sequence, entry.event) == Some(entry)
      modifies this`events, this`sequence, this`history
      ensures Valid() && history == old(history) + [entry] && sequence == entry.number
    {
      hide Chained, LastN, Accept, LastSeq;
      AppendKeeps(initial, history, entry, maxEvents);
      sequence := entry.number;
      events := events + [entry];
      if |events| > maxEvents { events := events[1..]; }
      history := history + [entry];
    }

    /** The publishing section of `put_many`. */
    method Publish(batch: seq<Event>) returns (published: nat)
      requires Valid()
      modifies this`events, this`sequence, this`history
      ensures Valid()
      ensures history == old(history) + AcceptAll(old(sequence), batch)
      ensures published == |AcceptAll(old(sequence), batch)|
    {
      hide Chained, LastN, LastSeq, AcceptAll;
      published := 0;
      ghost var history0, sequence0 := history, sequence;
      assert batch[0..] == batch;
      var k := 0;
      while k < |batch|
        invariant 0 <= k <= |batch| && Valid()
        invariant history + AcceptAll(sequence, batch[k..]) == history0 + AcceptAll(sequence0, batch)
        invariant published == |history| - |history0|
      {
        var stored := batch[k];
        AcceptUnfolds(sequence, batch, k);
        ghost var before := history;
        k := k + 1;
        var number, gap: Option<nat> := sequence + 1, None;
        if stored.durable > 0 {
          if stored.durable <= sequence { continue; }
          if stored.durable > sequence + 1 { gap := Some(sequence); }
          number := stored.durable;
        }
        var entry := Stored(stored, number, gap);
        Retain(entry);
        published := published + 1;
        Regroup(before, entry, AcceptAll(sequence, batch[k..]));
      }
      assert batch[k..] == [];
      AcceptNone(sequence);
    }

    /** The `finally` section of `put_many`. */
    method Finish()
      requires Valid() && activePublishers > 0
      modifies this`activePublishers
      ensures Valid() && activePublishers == old(activePublishers) - 1
    {
      activePublishers := activePublishers - 1;
    }

    /** `put_many` without interference. */
    method PutMany(batch: seq<Event>) returns (r: Batch)
      requires Valid()
      modifies this
      ensures Valid() && accepting == old(accepting) && closed == old(closed)
      ensures activePublishers == old(activePublishers)
      ensures r == Refused <==> batch != [] && !(accepting && !closed)
      ensures history == old(history) + if r == Refused then [] else AcceptAll(old(sequence), batch)
      ensures r.Published? ==> r.count == |AcceptAll(old(sequence), batch)|
    {
      if batch == [] { return Published(0); }
      var admitted := Admit();
      if !admitted { return Refused; }
      var count := Publish(batch);
      Finish();
      return Published(count);
    }

    /** `events_after`; None is the gap error. `wait_after` reads the same way
        once it wakes up. */
    method EventsAfter(after: int, requireContiguous: bool) returns (r: Option<seq<Stored>>)
      requires Valid()
      ensures r.None? <==> requireContiguous && HasGap(events, after)
      ensures r.Some? && !HasGap(events, after) ==> r.value == After(history, after)
      ensures r.Some? ==> Ascending(r.value) && forall e :: e in r.value <==> e in events && e.number > after
    {
      hide Chained, LastN, After, Ascending;
      var available: seq<Stored> := [];
      AfterNone([], after);
      for k := 0 to |events|
        invariant available == After(events[..k], after)
      {
        assert events[..k + 1] == events[..k] + [events[k]];
        AfterAppends(events[..k], [events[k]], after);
        AfterOne(events[k], after);
        if events[k].number > after {
          available := available + [events[k]];
        }
      }
      assert events[..|events|] == events;
      ChainAscends(initial, history);
      LastAscends(history, maxEvents);
      AfterMembers(events, after);
      if !HasGap(events, after) {
        BufferAgreesWithHistory(history, maxEvents, after);
      }
      if requireContiguous && available != [] && available[0].number > after + 1 { return None; }
      return Some(available);
    }

    method StopAccepting()
      requires Valid()
      modifies this`accepting
      ensures Valid() && !accepting
    {
      accepting := false;
    }

    /** `close` of an undisturbed broker; `drained` is what the drain in between answers. */
    method Close(drained: bool) returns (r: bool)
      requires Valid()
      modifies this`accepting, this`closed
      ensures Valid() && closed && !accepting
      ensures r <==> old(closed) || drained
    {
      if closed { return true; }
      StopAccepting();
      closed := true;
      return drained;
    }
  }
}

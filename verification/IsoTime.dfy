/** Timestamps as the job table stores them: ISO texts that SQL compares by
    their characters and Python compares as instants. */
module IsoTime {
  import opened Common

  const MICROS_PER_SECOND := 1_000_000
  const MICROS_PER_MINUTE := 60_000_000
  const MICROS_PER_DAY := 86_400_000_000
  const MAX_DAYS := 3_652_059 // 0001-01-01 .. 9999-12-31

  /** An aware datetime: wall-clock microseconds since 0001-01-01T00:00 and a
      UTC offset in whole minutes. */
  datatype Timestamp = Timestamp(wall: int, offset: int)

  predicate InRange(t: Timestamp) {
    0 <= t.wall < MAX_DAYS * MICROS_PER_DAY && -1440 < t.offset < 1440
  }

  type Stamp = t: Timestamp | InRange(t) witness Timestamp(0, 0)

  function Instant(t: Stamp): int {
    t.wall - t.offset * MICROS_PER_MINUTE
  }

  function RoundHalfEven(x: real): int {
    var low := x.Floor;
    var rest := x - low as real;
    if rest < 0.5 || (rest == 0.5 && low % 2 == 0) then low else low + 1
  }

  /** `t + timedelta(seconds=...)`; None is Python's OverflowError. */
  function Later(t: Stamp, seconds: real): (r: Option<Stamp>)
    ensures r.Some? ==> r.value.offset == t.offset
    ensures r.Some? && seconds >= 0.0 ==> Instant(t) <= Instant(r.value)
  {
    var moved := Timestamp(t.wall + RoundHalfEven(seconds * 1_000_000.0), t.offset);
    if InRange(moved) then Some(moved) else None
  }

  // ---- calendar ----

  predicate IsLeap(year: int) {
    year % 4 == 0 && (year % 100 != 0 || year % 400 == 0)
  }

  function DaysBeforeYear(year: int): int {
    (year - 1) * 365 + (year - 1) / 4 - (year - 1) / 100 + (year - 1) / 400
  }

  function DaysBeforeMonth(year: int, month: int): int
    requires 1 <= month <= 13
  {
    [0, 31, 59, 90, 120, 151, 181, 212, 243, 273, 304, 334, 365][month - 1]
    + if month > 2 && IsLeap(year) then 1 else 0
  }

  function YearOf(day: int, from: int): (y: int)
    requires 1 <= from && DaysBeforeYear(from) <= day
    ensures from <= y && DaysBeforeYear(y) <= day < DaysBeforeYear(y + 1)
    decreases day - from * 365
  {
    if day < DaysBeforeYear(from + 1) then from else YearOf(day, from + 1)
  }

  function MonthOf(dayOfYear: int, year: int, from: int): (m: int)
    requires 1 <= from <= 12
    requires DaysBeforeMonth(year, from) <= dayOfYear < DaysBeforeMonth(year, 13)
    ensures from <= m <= 12
    ensures DaysBeforeMonth(year, m) <= dayOfYear < DaysBeforeMonth(year, m + 1)
    decreases 12 - from
  {
    if dayOfYear < DaysBeforeMonth(year, from + 1) then from else MonthOf(dayOfYear, year, from + 1)
  }

  lemma QuotientStep(n: int, k: int)
    requires k == 4 || k == 100 || k == 400
    ensures n / k == (n - 1) / k + if n % k == 0 then 1 else 0
  {
  }

  lemma YearLength(year: int)
    ensures DaysBeforeYear(year + 1) == DaysBeforeYear(year) + DaysBeforeMonth(year, 13)
  {
    QuotientStep(year, 4);
    QuotientStep(year, 100);
    QuotientStep(year, 400);
  }

  datatype Date = Date(year: int, month: int, day: int)

  /** The calendar date of the given day, counted from 0001-01-01. */
  function DateOf(day: int): (d: Date)
    requires 0 <= day < MAX_DAYS
    ensures 1 <= d.year <= 9999 && 1 <= d.month <= 12 && 1 <= d.day <= 31
    ensures day + 1 == DaysBeforeYear(d.year) + DaysBeforeMonth(d.year, d.month) + d.day
    ensures d.day <= DaysBeforeMonth(d.year, d.month + 1) - DaysBeforeMonth(d.year, d.month)
  {
    var year := YearOf(day, 1);
    YearLength(year);
    var dayOfYear := day - DaysBeforeYear(year);
    var month := MonthOf(dayOfYear, year, 1);
    Date(year, month, dayOfYear - DaysBeforeMonth(year, month) + 1)
  }

  predicate DateLess(a: Date, b: Date) {
    a.year < b.year || (a.year == b.year && (a.month < b.month || (a.month == b.month && a.day < b.day)))
  }

  const WIDTHS := [4, 2, 2, 2, 2, 2]
  const SEPARATORS := ["-", "-", "T", ":", ":", ""]

  /** Year, month, day, hour, minute and second. */
  function Fields(d: Date, second: int): (f: seq<int>)
    requires 1 <= d.year <= 9999 && 1 <= d.month <= 12 && 1 <= d.day <= 31 && 0 <= second < 86_400
    ensures |f| == 6
    ensures forall i :: 0 <= i < 6 ==> 0 <= f[i] < Pow10(WIDTHS[i])
  {
    assert Pow10(2) == 100 && Pow10(4) == 10000;
    [d.year, d.month, d.day, second / 3600, second / 60 % 60, second % 60]
  }

  /** The fields of a wall-clock value. */
  function WallFields(wall: int): (f: seq<int>)
    requires 0 <= wall < MAX_DAYS * MICROS_PER_DAY
    ensures |f| == 6
    ensures forall i :: 0 <= i < 6 ==> 0 <= f[i] < Pow10(WIDTHS[i])
  {
    Fields(DateOf(wall / MICROS_PER_DAY), wall % MICROS_PER_DAY / MICROS_PER_SECOND)
  }

  // ---- rendering ----

  function Pow10(width: nat): (p: nat)
    ensures p > 0
  {
    if width == 0 then 1 else 10 * Pow10(width - 1)
  }

  function Digit(n: int): char
    requires 0 <= n < 10
  {
    "0123456789"[n]
  }

  function Digits(n: int, width: nat): (s: string)
    requires 0 <= n < Pow10(width)
    ensures |s| == width
  {
    if width == 0 then "" else Digits(n / 10, width - 1) + [Digit(n % 10)]
  }

  function Render(fields: seq<int>, widths: seq<nat>, separators: seq<string>, tail: string): string
    requires |fields| == |widths| == |separators|
    requires forall i :: 0 <= i < |fields| ==> 0 <= fields[i] < Pow10(widths[i])
  {
    if fields == [] then tail
    else Digits(fields[0], widths[0]) + (separators[0] + Render(fields[1..], widths[1..], separators[1..], tail))
  }

  /** The fraction is omitted when it is zero. */
  function Fraction(micros: int): string
    requires 0 <= micros < MICROS_PER_SECOND
  {
    assert Pow10(6) == 1_000_000;
    if micros == 0 then "" else "." + Digits(micros, 6)
  }

  function OffsetText(offset: int): string
    requires -1440 < offset < 1440
  {
    var minutes := if offset < 0 then -offset else offset;
    assert Pow10(2) == 100;
    (if offset < 0 then "-" else "+") + Digits(minutes / 60, 2) + ":" + Digits(minutes % 60, 2)
  }

  /** `datetime.isoformat()`. */
  function Iso(t: Stamp): string {
    Render(WallFields(t.wall), WIDTHS, SEPARATORS, Fraction(t.wall % MICROS_PER_SECOND) + OffsetText(t.offset))
  }

  /** The `<=` of SQL text columns. */
  predicate SqlLe(a: Stamp, b: Stamp) {
    !TextLess(Iso(b), Iso(a))
  }

  // ---- lexical order is time order ----

  lemma {:induction false} DigitsOrder(a: int, b: int, width: nat)
    requires 0 <= a < b < Pow10(width)
    ensures TextLess(Digits(a, width), Digits(b, width))
  {
    var p, q := Digits(a / 10, width - 1), Digits(b / 10, width - 1);
    if a / 10 < b / 10 {
      DigitsOrder(a / 10, b / 10, width - 1);
      TextDecided(p, q, [Digit(a % 10)], [Digit(b % 10)]);
    } else {
      assert p == q && a % 10 < b % 10;
      TextPrefix(p, [Digit(a % 10)], [Digit(b % 10)]);
    }
  }

  lemma ChunkOrder(a: int, b: int, width: nat, x: string, y: string)
    requires 0 <= a < Pow10(width) && 0 <= b < Pow10(width)
    ensures TextLess(Digits(a, width) + x, Digits(b, width) + y) <==> a < b || (a == b && TextLess(x, y))
  {
    if a < b {
      DigitsOrder(a, b, width);
      TextDecided(Digits(a, width), Digits(b, width), x, y);
    } else if b < a {
      DigitsOrder(b, a, width);
      TextDecided(Digits(b, width), Digits(a, width), y, x);
    } else {
      TextPrefix(Digits(a, width), x, y);
    }
  }

  predicate FieldsLess(a: seq<int>, b: seq<int>)
    requires |a| == |b|
  {
    a != [] && (a[0] < b[0] || (a[0] == b[0] && FieldsLess(a[1..], b[1..])))
  }

  lemma {:induction false} RenderOrder(a: seq<int>, b: seq<int>, widths: seq<nat>, separators: seq<string>,
                                       x: string, y: string)
    requires |a| == |b| == |widths| == |separators|
    requires forall i :: 0 <= i < |a| ==> 0 <= a[i] < Pow10(widths[i])
    requires forall i :: 0 <= i < |b| ==> 0 <= b[i] < Pow10(widths[i])
    ensures TextLess(Render(a, widths, separators, x), Render(b, widths, separators, y))
       <==> FieldsLess(a, b) || (a == b && TextLess(x, y))
  {
    if a != [] {
      var p, q := Render(a[1..], widths[1..], separators[1..], x), Render(b[1..], widths[1..], separators[1..], y);
      RenderOrder(a[1..], b[1..], widths[1..], separators[1..], x, y);
      TextPrefix(separators[0], p, q);
      ChunkOrder(a[0], b[0], widths[0], separators[0] + p, separators[0] + q);
      assert a == [a[0]] + a[1..] && b == [b[0]] + b[1..];
    }
  }

  lemma PointOrder(a: int, b: int, width: nat, x: string, y: string)
    requires 0 <= a < Pow10(width) && 0 <= b < Pow10(width)
    ensures TextLess("." + Digits(a, width) + x, "." + Digits(b, width) + y) <==> a < b || (a == b && TextLess(x, y))
  {
    ChunkOrder(a, b, width, x, y);
    TextPrefix(".", Digits(a, width) + x, Digits(b, width) + y);
    assert "." + Digits(a, width) + x == "." + (Digits(a, width) + x);
    assert "." + Digits(b, width) + y == "." + (Digits(b, width) + y);
  }

  /** A missing fraction sorts before every fraction, because the sign of the
      offset sorts before the point. */
  lemma FractionOrder(a: int, b: int, o: string)
    requires 0 <= a < MICROS_PER_SECOND && 0 <= b < MICROS_PER_SECOND
    requires o != "" && o[0] < '.'
    ensures TextLess(Fraction(a) + o, Fraction(b) + o) <==> a < b
  {
    TextTrichotomy(o, o);
    assert Pow10(6) == 1_000_000;
    assert "" + o == o;
    var p, q := Fraction(a) + o, Fraction(b) + o;
    assert a != 0 ==> p[0] == '.';
    assert b != 0 ==> q[0] == '.';
    if a != 0 && b != 0 {
      PointOrder(a, b, 6, o, o);
    }
  }

  lemma {:induction false} FieldsLessAt(a: seq<int>, b: seq<int>, k: nat)
    requires |a| == |b| && k < |a| && a[..k] == b[..k] && a[k] < b[k]
    ensures FieldsLess(a, b) && !FieldsLess(b, a) && a != b
  {
    if k > 0 {
      assert a[0] == a[..k][0] == b[0];
      assert a[1..][..k - 1] == a[..k][1..] == b[..k][1..] == b[1..][..k - 1];
      FieldsLessAt(a[1..], b[1..], k - 1);
    }
  }

  lemma {:induction false} YearsMonotone(a: int, b: int)
    requires a <= b
    ensures DaysBeforeYear(a) <= DaysBeforeYear(b)
    decreases b - a
  {
    if a < b {
      YearsMonotone(a, b - 1);
      YearLength(b - 1);
    }
  }

  lemma DateOrder(a: int, b: int)
    requires 0 <= a < b < MAX_DAYS
    ensures DateLess(DateOf(a), DateOf(b))
  {
    var f, g := DateOf(a), DateOf(b);
    if f.year > g.year {
      YearsMonotone(g.year + 1, f.year);
      YearLength(g.year);
      MonthsMonotone(g.year, g.month + 1, 13);
    } else if f.year == g.year && f.month > g.month {
      MonthsMonotone(f.year, g.month + 1, f.month);
    }
  }

  lemma MonthsMonotone(year: int, a: int, b: int)
    requires 1 <= a <= b <= 13
    ensures DaysBeforeMonth(year, a) <= DaysBeforeMonth(year, b)
  {
  }

  /** Fields compare as the date, then the second of the day. */
  lemma FieldsOrder(d: Date, s: int, e: Date, t: int)
    requires 1 <= d.year <= 9999 && 1 <= d.month <= 12 && 1 <= d.day <= 31 && 0 <= s < 86_400
    requires 1 <= e.year <= 9999 && 1 <= e.month <= 12 && 1 <= e.day <= 31 && 0 <= t < 86_400
    requires DateLess(d, e) || (d == e && s < t)
    ensures FieldsLess(Fields(d, s), Fields(e, t))
  {
    var f, g := Fields(d, s), Fields(e, t);
    var k := if f[0] < g[0] then 0 else if f[1] < g[1] then 1 else if f[2] < g[2] then 2
             else if f[3] < g[3] then 3 else if f[4] < g[4] then 4 else 5;
    ClockOrder(s, t);
    FieldsLessAt(f, g, k);
  }

  lemma ClockOrder(s: int, t: int)
    requires 0 <= s < 86_400 && 0 <= t < 86_400
    ensures s < t ==> s / 3600 <= t / 3600
    ensures s < t && s / 3600 == t / 3600 ==> s / 60 % 60 <= t / 60 % 60
    ensures s < t && s / 3600 == t / 3600 && s / 60 % 60 == t / 60 % 60 ==> s % 60 < t % 60
  {
    assert s == s / 3600 * 3600 + s / 60 % 60 * 60 + s % 60;
    assert t == t / 3600 * 3600 + t / 60 % 60 * 60 + t % 60;
  }

  /** Stamps of one offset: text order is time order. */
  lemma IsoOrder(a: Stamp, b: Stamp)
    requires a.offset == b.offset
    ensures TextLess(Iso(a), Iso(b)) <==> Instant(a) < Instant(b)
  {
    if a.wall < b.wall {
      IsoOrderAscending(a, b);
    } else if b.wall < a.wall {
      IsoOrderAscending(b, a);
    }
    TextTrichotomy(Iso(a), Iso(b));
  }

  lemma IsoOrderAscending(a: Stamp, b: Stamp)
    requires a.offset == b.offset && a.wall < b.wall
    ensures TextLess(Iso(a), Iso(b))
  {
    var o := OffsetText(a.offset);
    var x, y := a.wall % MICROS_PER_SECOND, b.wall % MICROS_PER_SECOND;
    RenderOrder(WallFields(a.wall), WallFields(b.wall), WIDTHS, SEPARATORS, Fraction(x) + o, Fraction(y) + o);
    SameSecondOrEarlier(a.wall, b.wall);
    if x < y {
      FractionOrder(x, y, o);
    }
  }

  lemma SameSecondOrEarlier(a: int, b: int)
    requires 0 <= a < b < MAX_DAYS * MICROS_PER_DAY
    ensures FieldsLess(WallFields(a), WallFields(b))
         || (WallFields(a) == WallFields(b) && a % MICROS_PER_SECOND < b % MICROS_PER_SECOND)
  {
    var d, s := a / MICROS_PER_DAY, a % MICROS_PER_DAY / MICROS_PER_SECOND;
    var e, t := b / MICROS_PER_DAY, b % MICROS_PER_DAY / MICROS_PER_SECOND;
    SecondSplit(a);
    SecondSplit(b);
    DateThenSecond(d, s, e, t);
  }

  lemma DateThenSecond(d: int, s: int, e: int, t: int)
    requires 0 <= d <= e < MAX_DAYS && 0 <= s < 86_400 && 0 <= t < 86_400
    requires d == e ==> s <= t
    ensures if d == e && s == t then Fields(DateOf(d), s) == Fields(DateOf(e), t)
            else FieldsLess(Fields(DateOf(d), s), Fields(DateOf(e), t))
  {
    if d < e {
      DateOrder(d, e);
    }
    if d < e || s < t {
      FieldsOrder(DateOf(d), s, DateOf(e), t);
    }
  }

  lemma SecondSplit(a: int)
    requires 0 <= a
    ensures a == a / MICROS_PER_DAY * MICROS_PER_DAY
              + a % MICROS_PER_DAY / MICROS_PER_SECOND * MICROS_PER_SECOND + a % MICROS_PER_SECOND
    ensures 0 <= a % MICROS_PER_DAY / MICROS_PER_SECOND < 86_400
  {
  }

  /** SQL compares two stored times as instants for all times of two offsets
      exactly when the offsets are the same. */
  lemma SqlOrderIsTimeOrder(o1: int, o2: int)
    requires -1440 < o1 < 1440 && -1440 < o2 < 1440
    ensures (forall a: Stamp, b: Stamp | a.offset == o1 && b.offset == o2 ::
               SqlLe(a, b) <==> Instant(a) <= Instant(b))
       <==> o1 == o2
  {
    if o1 == o2 {
      forall a: Stamp, b: Stamp | a.offset == o1 && b.offset == o2
        ensures SqlLe(a, b) <==> Instant(a) <= Instant(b)
      {
        IsoOrder(b, a);
      }
    } else {
      // The wall clocks say one thing, the instants another.
      var later := if o1 < o2 then 2 else 1;
      var a, b := Timestamp(3 - later, o1), Timestamp(later, o2);
      WallClockDecides(a, b);
      assert SqlLe(a, b) != (Instant(a) <= Instant(b));
    }
  }

  /** Whatever the offsets, a fraction that differs decides the text order
      of two stamps within one second. */
  lemma WallClockDecides(a: Stamp, b: Stamp)
    requires 0 < a.wall < MICROS_PER_SECOND && 0 < b.wall < MICROS_PER_SECOND && a.wall != b.wall
    ensures TextLess(Iso(b), Iso(a)) <==> b.wall < a.wall
  {
    var f, o, p := WallFields(a.wall), OffsetText(a.offset), OffsetText(b.offset);
    FirstSecond(a.wall);
    FirstSecond(b.wall);
    RenderOrder(f, f, WIDTHS, SEPARATORS, Fraction(b.wall) + p, Fraction(a.wall) + o);
    FieldsIrreflexive(f);
    PointsOrder(a.wall, b.wall, o, p);
  }

  lemma PointsOrder(a: int, b: int, o: string, p: string)
    requires 0 < a < MICROS_PER_SECOND && 0 < b < MICROS_PER_SECOND && a != b
    ensures TextLess(Fraction(b) + p, Fraction(a) + o) <==> b < a
  {
    assert Pow10(6) == 1_000_000;
    PointOrder(b, a, 6, p, o);
  }

  lemma FirstSecond(wall: int)
    requires 0 <= wall < MICROS_PER_SECOND
    ensures wall / MICROS_PER_DAY == 0 && wall % MICROS_PER_DAY / MICROS_PER_SECOND == 0
    ensures wall % MICROS_PER_SECOND == wall
  {
  }

  lemma {:induction false} FieldsIrreflexive(f: seq<int>)
    ensures !FieldsLess(f, f)
  {
    if f != [] {
      FieldsIrreflexive(f[1..]);
    }
  }
}

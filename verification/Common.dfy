/** Shared vocabulary: optional values and the text order used by SQL and Python. */
module Common {

  datatype Option<+T> = None | Some(value: T)

  /** Python's whitespace. */
  predicate IsSpace(c: char) {
    '\t' <= c <= '\r' || '\U{1c}' <= c <= ' ' || c in "\U{85}\U{a0}\U{1680}\U{2028}\U{2029}\U{202f}\U{205f}\U{3000}"
    || '\U{2000}' <= c <= '\U{200a}'
  }

  /** `not s.strip()`. */
  predicate Blank(s: string) {
    forall i :: 0 <= i < |s| ==> IsSpace(s[i])
  }

  /** Byte order of two ASCII texts; a proper prefix comes first. */
  predicate TextLess(a: string, b: string) {
    b != "" && (a == "" || a[0] < b[0] || (a[0] == b[0] && TextLess(a[1..], b[1..])))
  }

  lemma {:induction false} TextTrichotomy(a: string, b: string)
    ensures !(TextLess(a, b) && TextLess(b, a))
    ensures TextLess(a, b) || TextLess(b, a) || a == b
    ensures a == b ==> !TextLess(a, b)
  {
    if a != "" && b != "" && a[0] == b[0] {
      TextTrichotomy(a[1..], b[1..]);
      assert a == [a[0]] + a[1..] && b == [b[0]] + b[1..];
    }
  }

  lemma {:induction false} TextTransitive(a: string, b: string, c: string)
    requires TextLess(a, b) && TextLess(b, c)
    ensures TextLess(a, c)
  {
    if a != "" && a[0] == b[0] == c[0] {
      TextTransitive(a[1..], b[1..], c[1..]);
    }
  }

  /** A common beginning does not influence the order. */
  lemma {:induction false} TextPrefix(p: string, x: string, y: string)
    ensures TextLess(p + x, p + y) == TextLess(x, y)
  {
    if p == "" {
      assert p + x == x && p + y == y;
    } else {
      TextPrefix(p[1..], x, y);
      assert (p + x)[1..] == p[1..] + x && (p + y)[1..] == p[1..] + y;
    }
  }

  /** Beginnings of one length that differ decide the order. */
  lemma {:induction false} TextDecided(p: string, q: string, x: string, y: string)
    requires |p| == |q| && TextLess(p, q)
    ensures TextLess(p + x, q + y) && !TextLess(q + y, p + x)
  {
    if p[0] == q[0] {
      TextDecided(p[1..], q[1..], x, y);
      assert (p + x)[1..] == p[1..] + x && (q + y)[1..] == q[1..] + y;
    }
  }
}

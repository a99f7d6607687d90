/** POSIX path names of archive members and their parts. */
module PathNames {

  /** The text before the first slash. */
  function Segment(name: string): (seg: string)
    ensures |seg| <= |name| && '/' !in seg && seg == name[..|seg|]
    ensures |seg| < |name| ==> name[|seg|] == '/'
  {
    if name == "" || name[0] == '/' then ""
    else
      var rest := Segment(name[1..]);
      assert name == [name[0]] + name[1..];
      [name[0]] + rest
  }

  /** The parts of a relative path: slashes separate, empty and "." segments vanish. */
  function Parts(name: string): (parts: seq<string>)
    ensures AreParts(parts)
    decreases |name|
  {
    if name == "" then []
    else
      var seg := Segment(name);
      var rest := if |seg| < |name| then Parts(name[|seg| + 1..]) else [];
      if seg == "" || seg == "." then rest else [seg] + rest
  }

  function Path(parts: seq<string>): string {
    if parts == [] then "" else if |parts| == 1 then parts[0] else parts[0] + ("/" + Path(parts[1..]))
  }

  /** A part a path can keep. */
  predicate IsPart(p: string) {
    p != "" && p != "." && '/' !in p
  }

  predicate AreParts(parts: seq<string>) {
    forall p <- parts :: IsPart(p)
  }

  /** A name written the way the path itself is written. */
  predicate Canonical(name: string) {
    Path(Parts(name)) == name
  }

  lemma {:induction false} SegmentOf(p: string, rest: string)
    requires '/' !in p
    ensures Segment(p) == p && Segment(p + ("/" + rest)) == p
  {
    if p != "" {
      SegmentOf(p[1..], rest);
      assert p == [p[0]] + p[1..];
      assert (p + ("/" + rest))[1..] == p[1..] + ("/" + rest);
    }
  }

  lemma PartsStep(p: string, rest: string)
    requires '/' !in p
    ensures Parts(p + ("/" + rest)) == (if p == "" || p == "." then [] else [p]) + Parts(rest)
    ensures Parts(p) == if p == "" || p == "." then [] else [p]
  {
    SegmentOf(p, rest);
    assert (p + ("/" + rest))[|p| + 1..] == rest;
  }

  /** A path written from its parts reads back as those parts. */
  lemma {:induction false} PartsOfPath(parts: seq<string>)
    requires AreParts(parts)
    ensures Parts(Path(parts)) == parts
  {
    if parts != [] {
      var p := parts[0];
      assert p in parts;
      assert parts == [p] + parts[1..];
      if |parts| == 1 {
        SegmentOf(p, "");
      } else {
        var rest := Path(parts[1..]);
        SegmentOf(p, rest);
        PartsOfPath(parts[1..]);
        assert Path(parts)[|p| + 1..] == rest;
      }
    }
  }

  /** Written paths differ when their parts do. */
  lemma PathInjective(a: seq<string>, b: seq<string>)
    requires AreParts(a) && AreParts(b) && Path(a) == Path(b)
    ensures a == b
  {
    PartsOfPath(a);
    PartsOfPath(b);
  }

  lemma {:induction false} PathEnds(parts: seq<string>)
    requires AreParts(parts) && parts != []
    ensures Path(parts) != "" && Path(parts)[0] != '/' && Path(parts)[|Path(parts)| - 1] != '/'
  {
    assert IsPart(parts[0]);
    if |parts| > 1 {
      PathEnds(parts[1..]);
    }
  }
}

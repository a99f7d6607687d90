/** What an accepted archive is, in literal limits, names and bytes. */
module BackupLaws {
  import opened Common
  import opened PathNames
  import opened Bundle

  // ---- damage ----

  /** Another archive under the manifest of a backup, in which some file has other bytes. */
  predicate Damaged(a: Archive, written: Archive) {
    && a.manifest == written.manifest
    && exists m <- a.members, n <- written.members :: m.name == n.name != MANIFEST && m.content != n.content
  }

  /** A backup in which any byte of a file was changed, added or lost is not opened, whatever else is
      done to its entries. */
  method OpenDamaged(a: Archive, written: Archive, src: Sources) returns (out: Option<Sources>)
    requires RealSources(src) && IsBackup(written, src) && Damaged(a, written)
    ensures out == None
  {
    hide RealSources, IsBackup, Damaged, Yields, AsDeclared, Acceptable, Unpackable;
    out := Open(a);
    if out.Some? {
      DamageShows(a, written, src);
      assert false;
    }
  }

  lemma DamageShows(a: Archive, written: Archive, src: Sources)
    requires IsBackup(written, src) && Damaged(a, written)
    ensures !Acceptable(a)
  {
    BackupPaired(written, src);
    hide *;
    if Acceptable(a) {
      var m, n := OtherBytes(a, written);
      var r := RecordOf(written.members, written.manifest.files.value, n);
      SameBytes(a, r, m, n);
    }
  }

  lemma OtherBytes(a: Archive, written: Archive) returns (m: Member, n: Member)
    requires Damaged(a, written)
    ensures m in a.members && n in written.members && m.name == n.name != MANIFEST && m.content != n.content
    ensures a.manifest == written.manifest
  {
    m, n :| m in a.members && n in written.members && m.name == n.name != MANIFEST && m.content != n.content;
  }

  lemma RecordOf(ms: seq<Member>, rs: seq<Record>, n: Member) returns (r: Record)
    requires Paired(ms, rs) && n in ms && n.name != MANIFEST
    ensures r in rs && r.Record? && Holds(n, r)
  {
    var i :| 0 <= i < |ms| && ms[i] == n;
    r := rs[i];
  }

  lemma SameBytes(a: Archive, r: Record, m: Member, n: Member)
    requires Acceptable(a) && r in a.manifest.files.value && r.Record? && Holds(n, r)
    requires m in a.members && m.name == n.name
    ensures m.content == n.content
  {
    hide WithinLimits, RootsOk, DistinctPaths, Conflicts, Plain, RecordOk, NameIn, Declares;
    assert Matches(m, r);
  }

  /** The smallest case: one byte of the state database differs, and nothing else. */
  lemma OneByteShows(x: int, y: int, packed: nat, manifest: Member, a: Archive)
    requires x != y
    requires a == Archive([Member(STATE, false, false, 1, packed, [x]), manifest],
                          Manifest(1, Some([]), Some([Record(STATE, 1, Digest([y]))])))
    ensures !Acceptable(a)
  {
    var r, m := a.manifest.files.value[0], a.members[0];
    assert r in a.manifest.files.value && m in a.members && m.name == r.path && !Matches(m, r);
  }

  // ---- limits ----

  /** The limits of an archive, in figures. */
  lemma LimitsExactly(ms: seq<Member>)
    ensures WithinLimits(ms) <==>
      && |ms| <= 100000
      && (forall m <- ms :: m.size <= 4294967296 && (m.packed > 0 ==> m.size as real / m.packed as real <= 200.0)
                            && (m.packed == 0 ==> m.size == 0))
      && Packed(ms) <= 8589934592 && Expanded(ms) <= 34359738368
      && (Packed(ms) > 0 ==> Expanded(ms) as real / Packed(ms) as real <= 200.0)
      && (Packed(ms) == 0 ==> Expanded(ms) == 0)
      && (forall m <- ms :: m.name == "manifest.json" ==> m.size <= 8388608)
  {
    hide Packed, Expanded;
    RatioIs(Expanded(ms), Packed(ms));
    forall m | m in ms
      ensures RatioOk(m.size, m.packed) <==>
        (m.packed > 0 ==> m.size as real / m.packed as real <= 200.0) && (m.packed == 0 ==> m.size == 0)
    {
      RatioIs(m.size, m.packed);
    }
    hide RatioOk;
  }

  lemma RatioIs(size: nat, packed: nat)
    ensures RatioOk(size, packed) <==>
      (packed > 0 ==> size as real / packed as real <= 200.0) && (packed == 0 ==> size == 0)
  {
    if packed > 0 {
      var q, p := size as real / packed as real, packed as real;
      assert q * p == size as real;
      assert q <= 200.0 ==> q * p <= 200.0 * p;
      assert q > 200.0 ==> q * p > 200.0 * p;
    }
  }

  // ---- names ----

  /** Where the parts of a relative name lead, seen from a directory; None is outside of it. */
  function Walk(at: seq<string>, parts: seq<string>): Option<seq<string>>
    decreases |parts|
  {
    if parts == [] then Some(at)
    else if parts[0] == ".." then (if at == [] then None else Walk(at[..|at| - 1], parts[1..]))
    else Walk(at + [parts[0]], parts[1..])
  }

  /** Every file of an accepted archive is unpacked where its name says, and below the stage. */
  lemma AcceptedStaysInside(a: Archive, r: Record)
    requires Acceptable(a) && r in a.manifest.files.value
    ensures r.Record? && r.path != "" && r.path[0] != '/' && Walk([], Parts(r.path)) == Some(Parts(r.path))
    ensures Parts(r.path) != [] && Parts(r.path)[0] != "" && Parts(r.path)[0][|Parts(r.path)[0]| - 1] != ':'
    ensures r.path in {"state.sqlite3", "account-leases.sqlite3"}
         || (|Parts(r.path)| > 1 && Parts(r.path)[0] in {"artifacts", "logs"})
  {
    assert RecordOk(r, a.manifest.roots);
    hide Acceptable, Walk;
    WalkStraight([], Parts(r.path));
    assert [] + Parts(r.path) == Parts(r.path);
  }

  lemma {:induction false} WalkStraight(at: seq<string>, parts: seq<string>)
    requires ".." !in parts
    ensures Walk(at, parts) == Some(at + parts)
    decreases |parts|
  {
    if parts == [] {
      assert at + [] == at;
    } else {
      WalkStraight(at + [parts[0]], parts[1..]);
      assert at + [parts[0]] + parts[1..] == at + parts;
    }
  }

  /** A name that leads out of the stage, or in and out of a directory, makes an archive unacceptable. */
  lemma WanderingIsRefused(a: Archive, m: Member)
    requires m in a.members && (m.name == "" || m.name[0] == '/' || Walk([], Parts(m.name)) != Some(Parts(m.name)))
    ensures !Acceptable(a)
  {
    hide WithinLimits, DistinctNames, RootsOk, DistinctPaths, Conflicts, RecordOk, NameIn, Declares;
    if ".." !in Parts(m.name) {
      WalkStraight([], Parts(m.name));
      assert [] + Parts(m.name) == Parts(m.name);
    }
  }
}

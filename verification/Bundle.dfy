/** Backup archives: writing one, accepting one, and unpacking it for a restore. */
module Bundle {
  import opened Common
  import opened PathNames

  type Bytes = seq<int>

  /** The opaque, injective checksum of some bytes. */
  datatype Digest = Digest(of: Bytes)

  /** An archive entry: its header, and the bytes that unpacking it yields. */
  datatype Member = Member(
    name: string, symlink: bool, encrypted: bool, size: nat, packed: nat, content: Bytes)

  /** A file record of the manifest; `Malformed` stands for any record of the wrong shape. */
  datatype Record = Malformed | Record(path: string, size: int, checksum: Digest)

  /** What the manifest member parses to; its roots and its file list may be missing. */
  datatype Manifest =
    | Unreadable
    | Manifest(version: int, roots: Option<seq<string>>, files: Option<seq<Record>>)

  datatype Archive = Archive(members: seq<Member>, manifest: Manifest)

  const FORMAT_VERSION := 1
  const MAX_MEMBERS := 100_000
  const MAX_PACKED := 8 * 1024 * 1024 * 1024
  const MAX_EXPANDED := 32 * 1024 * 1024 * 1024
  const MAX_MEMBER := 4 * 1024 * 1024 * 1024
  const MAX_RATIO := 200
  const MAX_MANIFEST := 8 * 1024 * 1024
  const MANIFEST := "manifest.json"
  const STATE := "state.sqlite3"
  const ACCOUNTS := "account-leases.sqlite3"
  const ARTIFACTS := "artifacts"
  const LOGS := "logs"

  predicate Safe(name: string) {
    var parts := Parts(name);
    && parts != []
    && name[0] != '/'
    && ".." !in parts
    && IsPart(parts[0]) && parts[0][|parts[0]| - 1] != ':'
  }

  predicate IsDirectory(name: string) {
    name != "" && name[|name| - 1] == '/'
  }

  /** The compression ratio limit; an empty packed form may only hold nothing. */
  predicate RatioOk(size: nat, packed: nat) {
    size <= MAX_RATIO * packed
  }

  function Packed(ms: seq<Member>): nat {
    if ms == [] then 0 else Packed(ms[..|ms| - 1]) + ms[|ms| - 1].packed
  }

  function Expanded(ms: seq<Member>): nat {
    if ms == [] then 0 else Expanded(ms[..|ms| - 1]) + ms[|ms| - 1].size
  }

  predicate MemberFits(m: Member) {
    m.size <= MAX_MEMBER && RatioOk(m.size, m.packed)
  }

  predicate WithinLimits(ms: seq<Member>) {
    && |ms| <= MAX_MEMBERS
    && (forall m <- ms :: MemberFits(m))
    && Packed(ms) <= MAX_PACKED && Expanded(ms) <= MAX_EXPANDED
    && RatioOk(Expanded(ms), Packed(ms))
    && (forall m <- ms :: m.name == MANIFEST ==> m.size <= MAX_MANIFEST)
  }

  predicate DistinctNames(ms: seq<Member>) {
    forall i, j :: 0 <= i < j < |ms| ==> ms[i].name != ms[j].name
  }

  predicate Plain(m: Member) {
    Safe(m.name) && !IsDirectory(m.name) && !m.symlink && !m.encrypted
  }

  predicate Supported(path: string) {
    path in {STATE, ACCOUNTS} || (|Parts(path)| > 1 && Parts(path)[0] in {ARTIFACTS, LOGS})
  }

  predicate RootsOk(roots: Option<seq<string>>) {
    roots.Some? ==>
      && (forall r <- roots.value :: r in {ARTIFACTS, LOGS})
      && (forall i, j :: 0 <= i < j < |roots.value| ==> roots.value[i] != roots.value[j])
  }

  predicate RecordOk(r: Record, roots: Option<seq<string>>) {
    && r.Record?
    && r.path != MANIFEST && Safe(r.path)
    && 0 <= r.size <= MAX_MEMBER
    && Supported(r.path)
    && (roots.Some? && Parts(r.path)[0] in {ARTIFACTS, LOGS} ==> Parts(r.path)[0] in roots.value)
  }

  predicate DistinctPaths(rs: seq<Record>)
    requires forall r <- rs :: r.Record?
  {
    forall i, j :: 0 <= i < j < |rs| ==> rs[i].path != rs[j].path
  }

  predicate NameIn(ms: seq<Member>, name: string) {
    exists m <- ms :: m.name == name
  }

  predicate Declares(rs: seq<Record>, name: string) {
    exists r <- rs :: r.Record? && r.path == name
  }

  /** A proper ancestor of the name, spelled canonically, is declared as a file too. */
  predicate Conflicts(rs: seq<Record>, name: string) {
    exists k :: 1 <= k < |Parts(name)| && Declares(rs, Path(Parts(name)[..k]))
  }

  predicate Matches(m: Member, r: Record)
    requires r.Record?
  {
    m.size == r.size && |m.content| == r.size && Digest(m.content) == r.checksum
  }

  /** What an archive must satisfy to be accepted. */
  ghost predicate Acceptable(a: Archive) {
    && WithinLimits(a.members)
    && DistinctNames(a.members)
    && (forall m <- a.members :: Plain(m))
    && NameIn(a.members, MANIFEST)
    && a.manifest.Manifest?
    && a.manifest.version == FORMAT_VERSION
    && RootsOk(a.manifest.roots)
    && a.manifest.files.Some?
    && var rs := a.manifest.files.value;
    && |rs| + 1 <= MAX_MEMBERS
    && (forall r <- rs :: RecordOk(r, a.manifest.roots))
    && DistinctPaths(rs)
    && (forall name: string :: NameIn(a.members, name) <==> name == MANIFEST || Declares(rs, name))
    && (forall r <- rs :: !Conflicts(rs, r.path))
    && (forall r <- rs, m <- a.members :: m.name == r.path ==> Matches(m, r))
  }

  // ---------------------------------------------------------------- accepting an archive

  predicate Indexes(byName: map<string, Member>, ms: seq<Member>) {
    && (forall m <- ms :: m.name in byName && byName[m.name] == m)
    && (forall name <- byName :: byName[name] in ms && byName[name].name == name)
  }

  predicate Lists(declared: map<string, Record>, rs: seq<Record>) {
    && (forall r <- rs :: r.Record? && r.path in declared && declared[r.path] == r)
    && (forall path <- declared :: declared[path] in rs && declared[path].Record? && declared[path].path == path)
  }

  lemma TotalsOfNone()
    ensures Packed([]) == 0 && Expanded([]) == 0
  {
  }

  lemma OneMoreMember(ms: seq<Member>, i: nat)
    requires i < |ms|
    ensures ms[..i + 1] == ms[..i] + [ms[i]]
    ensures Packed(ms[..i + 1]) == Packed(ms[..i]) + ms[i].packed
    ensures Expanded(ms[..i + 1]) == Expanded(ms[..i]) + ms[i].size
  {
    assert ms[..i + 1][..i] == ms[..i];
  }

  method CheckMembers(ms: seq<Member>) returns (ok: bool)
    ensures ok <==>
      && |ms| <= MAX_MEMBERS && DistinctNames(ms)
      && (forall m <- ms :: Plain(m)) && (forall m <- ms :: MemberFits(m))
      && Packed(ms) <= MAX_PACKED && Expanded(ms) <= MAX_EXPANDED
      && RatioOk(Expanded(ms), Packed(ms))
  {
    hide Plain, MemberFits, DistinctNames, RatioOk, Packed, Expanded;
    TotalsOfNone();
    if |ms| > MAX_MEMBERS || !DistinctNames(ms) || exists m <- ms :: !Plain(m) {
      return false;
    }
    var packed, expanded := 0, 0;
    for i := 0 to |ms|
      invariant forall m <- ms[..i] :: MemberFits(m)
      invariant packed == Packed(ms[..i]) && expanded == Expanded(ms[..i])
    {
      OneMoreMember(ms, i);
      if !MemberFits(ms[i]) {
        return false;
      }
      packed := packed + ms[i].packed;
      expanded := expanded + ms[i].size;
    }
    assert ms[..|ms|] == ms;
    ok := packed <= MAX_PACKED && expanded <= MAX_EXPANDED && RatioOk(expanded, packed);
  }

  method Index(ms: seq<Member>) returns (byName: map<string, Member>)
    requires DistinctNames(ms)
    ensures Indexes(byName, ms)
  {
    byName := map[];
    for i := 0 to |ms|
      invariant Indexes(byName, ms[..i])
    {
      assert ms[..i + 1] == ms[..i] + [ms[i]];
      assert forall m <- ms[..i] :: m.name != ms[i].name;
      byName := byName[ms[i].name := ms[i]];
    }
    assert ms[..|ms|] == ms;
  }

  /** Collects the records by path; None stands for the refusals of the loop. */
  method Declared(rs: seq<Record>, roots: Option<seq<string>>) returns (declared: Option<map<string, Record>>)
    ensures declared.Some? <==> (forall r <- rs :: RecordOk(r, roots)) && DistinctPaths(rs)
    ensures declared.Some? ==> Lists(declared.value, rs)
  {
    hide Safe, Supported, Parts;
    var found: map<string, Record> := map[];
    for i := 0 to |rs|
      invariant forall r <- rs[..i] :: RecordOk(r, roots)
      invariant DistinctPaths(rs[..i]) && Lists(found, rs[..i])
    {
      var r := rs[i];
      assert rs[..i + 1] == rs[..i] + [r];
      if !RecordOk(r, roots) {
        return None;
      }
      if r.path in found {
        var k :| 0 <= k < i && rs[k] == found[r.path];
        assert rs[k].path == rs[i].path;
        return None;
      }
      found := found[r.path := r];
    }
    assert rs[..|rs|] == rs;
    declared := Some(found);
  }

  /** No declared file lies below another one, as far as the spelling of the names shows. */
  method CheckConflicts(declared: map<string, Record>, rs: seq<Record>) returns (ok: bool)
    requires Lists(declared, rs)
    ensures ok <==> forall r <- rs :: !Conflicts(rs, r.path)
  {
    Listed(declared, rs);
    hide Path, Parts, Lists, Declares;
    for i := 0 to |rs|
      invariant forall j :: 0 <= j < i ==> !Conflicts(rs, rs[j].path)
    {
      var parts := Parts(rs[i].path);
      var k := 1;
      while k < |parts|
        invariant 1 <= k
        invariant forall l :: 1 <= l < k && l < |parts| ==> !Declares(rs, Path(parts[..l]))
      {
        if Path(parts[..k]) in declared {
          assert rs[i] in rs && Declares(rs, Path(parts[..k]));
          return false;
        }
        k := k + 1;
      }
    }
    ok := true;
  }

  method CheckContents(declared: map<string, Record>, byName: map<string, Member>) returns (ok: bool)
    requires forall path <- declared :: declared[path].Record? && path in byName
    ensures ok <==> forall path <- declared :: Matches(byName[path], declared[path])
  {
    var left := declared.Keys;
    while left != {}
      invariant left <= declared.Keys
      invariant forall path <- declared.Keys - left :: Matches(byName[path], declared[path])
      decreases left
    {
      var path :| path in left;
      if !Matches(byName[path], declared[path]) {
        return false;
      }
      left := left - {path};
    }
    ok := true;
  }

  /** An archive is accepted exactly when it is acceptable. */
  method Validate(a: Archive) returns (ok: bool, byName: map<string, Member>)
    ensures ok <==> Acceptable(a)
    ensures ok ==> Indexes(byName, a.members)
  {
    hide MemberFits, Plain, RatioOk, RootsOk, RecordOk, Conflicts, Matches, Packed, Expanded;
    hide DistinctNames, DistinctPaths;
    byName := map[];
    ok := CheckMembers(a.members);
    if !ok {
      return;
    }
    byName := Index(a.members);
    if MANIFEST !in byName {
      return false, byName;
    }
    Named(byName, a.members);
    if byName[MANIFEST].size > MAX_MANIFEST {
      return false, byName;
    }
    if a.manifest.Unreadable? || a.manifest.version != FORMAT_VERSION {
      return false, byName;
    }
    if !RootsOk(a.manifest.roots) || a.manifest.files.None? || |a.manifest.files.value| + 1 > MAX_MEMBERS {
      return false, byName;
    }
    var rs := a.manifest.files.value;
    var declared := Declared(rs, a.manifest.roots);
    if declared.None? {
      return false, byName;
    }
    Listed(declared.value, rs);
    if byName.Keys != {MANIFEST} + declared.value.Keys {
      return false, byName;
    }
    ok := CheckConflicts(declared.value, rs);
    if !ok {
      return;
    }
    ok := CheckContents(declared.value, byName);
  }

  lemma Named(byName: map<string, Member>, ms: seq<Member>)
    requires Indexes(byName, ms)
    ensures forall name: string :: NameIn(ms, name) <==> name in byName
  {
  }

  lemma Listed(declared: map<string, Record>, rs: seq<Record>)
    requires Lists(declared, rs)
    ensures forall name: string :: Declares(rs, name) <==> name in declared
  {
  }

  // ---------------------------------------------------------------- unpacking

  type Stage = map<seq<string>, Bytes>

  /** Neither path is the other or lies below it. */
  predicate Apart(a: seq<string>, b: seq<string>) {
    !(a <= b) && !(b <= a)
  }

  predicate AllApart(rs: seq<Record>)
    requires forall r <- rs :: r.Record?
  {
    forall i, j :: 0 <= i < j < |rs| ==> Apart(Parts(rs[i].path), Parts(rs[j].path))
  }

  /** Every record's file in its place, holding the member's bytes, and no other file. */
  predicate Unpacked(stage: Stage, rs: seq<Record>, byName: map<string, Member>)
    requires forall r <- rs :: r.Record? && r.path in byName
  {
    && (forall r <- rs :: Parts(r.path) in stage && stage[Parts(r.path)] == byName[r.path].content)
    && (forall p <- stage :: exists r <- rs :: Parts(r.path) == p)
  }

  /**
   * Unpacks the records into an empty stage. Making a parent directory fails where a file stands,
   * and the exclusive creation fails where anything stands; None stands for these failures.
   */
  method Unpack(rs: seq<Record>, byName: map<string, Member>) returns (result: Option<Stage>)
    requires forall r <- rs :: r.Record? && r.path in byName
    ensures result.Some? <==> AllApart(rs)
    ensures result.Some? ==> Unpacked(result.value, rs, byName)
  {
    hide Apart, Parts;
    var stage: Stage := map[];
    for i := 0 to |rs|
      invariant AllApart(rs[..i]) && Unpacked(stage, rs[..i], byName)
    {
      var staged := Parts(rs[i].path);
      if exists p <- stage :: !Apart(p, staged) {
        Collides(rs, i, stage, byName);
        return None;
      }
      StaysApart(rs, i, stage, byName);
      MoreUnpacked(rs, i, stage, byName);
      stage := stage[staged := byName[rs[i].path].content];
    }
    assert rs[..|rs|] == rs;
    result := Some(stage);
  }

  lemma StaysApart(rs: seq<Record>, i: nat, stage: Stage, byName: map<string, Member>)
    requires forall r <- rs :: r.Record? && r.path in byName
    requires i < |rs| && AllApart(rs[..i]) && Unpacked(stage, rs[..i], byName)
    requires forall p <- stage :: Apart(p, Parts(rs[i].path))
    ensures AllApart(rs[..i + 1])
  {
    hide Apart, Parts;
    forall j, k | 0 <= j < k < i + 1
      ensures Apart(Parts(rs[j].path), Parts(rs[k].path))
    {
      if k < i {
        assert rs[..i][j] == rs[j] && rs[..i][k] == rs[k];
      } else {
        assert rs[j] in rs[..i];
      }
    }
  }

  lemma MoreUnpacked(rs: seq<Record>, i: nat, stage: Stage, byName: map<string, Member>)
    requires forall r <- rs :: r.Record? && r.path in byName
    requires i < |rs| && Unpacked(stage, rs[..i], byName)
    requires forall p <- stage :: Apart(p, Parts(rs[i].path))
    ensures Unpacked(stage[Parts(rs[i].path) := byName[rs[i].path].content], rs[..i + 1], byName)
  {
    hide Parts;
    var more := stage[Parts(rs[i].path) := byName[rs[i].path].content];
    assert rs[..i + 1] == rs[..i] + [rs[i]];
    assert Parts(rs[i].path) !in stage;
    forall p | p in more
      ensures exists r <- rs[..i + 1] :: Parts(r.path) == p
    {
      if p in stage {
        var r :| r in rs[..i] && Parts(r.path) == p;
        assert r in rs[..i + 1];
      } else {
        assert rs[i] in rs[..i + 1];
      }
    }
  }

  lemma Collides(rs: seq<Record>, i: nat, stage: Stage, byName: map<string, Member>)
    requires forall r <- rs :: r.Record? && r.path in byName
    requires i < |rs| && Unpacked(stage, rs[..i], byName)
    requires exists p <- stage :: !Apart(p, Parts(rs[i].path))
    ensures !AllApart(rs)
  {
    var p :| p in stage && !Apart(p, Parts(rs[i].path));
    var r :| r in rs[..i] && Parts(r.path) == p;
    var j :| 0 <= j < i && rs[j] == r;
    assert !Apart(Parts(rs[j].path), Parts(rs[i].path));
  }

  lemma AllRecords(rs: seq<Record>, roots: Option<seq<string>>)
    requires forall r <- rs :: RecordOk(r, roots)
    ensures forall r <- rs :: r.Record?
  {
  }

  /**
   * Accepted archives whose names are written canonically never collide while unpacking.
   */
  lemma AcceptedUnpacks(a: Archive)
    requires Acceptable(a)
    requires forall r <- a.manifest.files.value :: r.Record? && Canonical(r.path)
    ensures forall r <- a.manifest.files.value :: r.Record?
    ensures AllApart(a.manifest.files.value)
  {
    hide RecordOk, Conflicts, Canonical, Parts, WithinLimits, Plain, Matches, NameIn, Declares;
    var rs := a.manifest.files.value;
    AllRecords(rs, a.manifest.roots);
    forall i, j | 0 <= i < |rs| && 0 <= j < |rs| && i != j
      ensures !(Parts(rs[i].path) <= Parts(rs[j].path))
    {
      if Parts(rs[i].path) <= Parts(rs[j].path) {
        SomePart(rs[i], a.manifest.roots);
        BelowConflicts(rs, i, j);
      }
    }
  }

  /** A canonical name with all its parts at the head of another one is that name or conflicts with it. */
  lemma BelowConflicts(rs: seq<Record>, i: nat, j: nat)
    requires i < |rs| && j < |rs| && forall r <- rs :: r.Record? && Canonical(r.path)
    requires Parts(rs[i].path) != [] && Parts(rs[i].path) <= Parts(rs[j].path)
    ensures rs[i].path == rs[j].path || Conflicts(rs, rs[j].path)
  {
    var p, q := Parts(rs[i].path), Parts(rs[j].path);
    assert rs[i] in rs && rs[j] in rs;
    assert Path(p) == rs[i].path && Path(q) == rs[j].path;
    assert q[..|p|] == p;
    if p != q {
      assert |p| < |q|;
      assert Declares(rs, Path(q[..|p|]));
    }
  }

  lemma SomePart(r: Record, roots: Option<seq<string>>)
    requires RecordOk(r, roots)
    ensures Parts(r.path) != []
  {
  }

  // ---------------------------------------------------------------- writing and restoring

  /** The regular files below a directory. */
  type Tree = map<seq<string>, Bytes>

  /** What a backup is made of; None for a root that is not configured or no directory. */
  datatype Sources = Sources(state: Bytes, accounts: Option<Bytes>, artifacts: Option<Tree>, logs: Option<Tree>)

  /** What a file system guarantees: files have proper names and nothing lies below a file. */
  predicate RealTree(t: Tree) {
    && (forall p <- t :: p != [] && AreParts(p) && ".." !in p)
    && (forall p <- t, q <- t :: p != q ==> Apart(p, q))
  }

  predicate RealSources(src: Sources) {
    && (src.artifacts.Some? ==> RealTree(src.artifacts.value))
    && (src.logs.Some? ==> RealTree(src.logs.value))
  }

  function Under(root: string, t: Option<Tree>): Stage {
    if t.None? then map[]
    else map q | q in (set p | p in t.value :: [root] + p) :: t.value[q[1..]]
  }

  function Single(name: string, content: Option<Bytes>): Stage {
    if content.None? then map[] else map[[name] := content.value]
  }

  function StageOf(src: Sources): Stage {
    Single(STATE, Some(src.state)) + Single(ACCOUNTS, src.accounts)
    + Under(ARTIFACTS, src.artifacts) + Under(LOGS, src.logs)
  }

  function RootsOf(src: Sources): seq<string> {
    (if src.artifacts.Some? then [ARTIFACTS] else []) + (if src.logs.Some? then [LOGS] else [])
  }

  predicate RecordsFile(r: Record, stage: Stage) {
    && r.Record? && Canonical(r.path)
    && Parts(r.path) in stage
    && r.size == |stage[Parts(r.path)]| && r.checksum == Digest(stage[Parts(r.path)])
  }

  predicate Holds(m: Member, r: Record)
    requires r.Record?
  {
    && m.name == r.path && !m.symlink && !m.encrypted
    && m.size == |m.content| == r.size && r.checksum == Digest(m.content)
  }

  predicate RecordsStage(rs: seq<Record>, stage: Stage) {
    && (forall r <- rs :: RecordsFile(r, stage))
    && DistinctPaths(rs)
    && (forall p <- stage :: exists r <- rs :: r.Record? && Parts(r.path) == p)
  }

  predicate HoldsAll(ms: seq<Member>, rs: seq<Record>)
    requires forall r <- rs :: r.Record?
  {
    |ms| == |rs| && forall i :: 0 <= i < |rs| ==> Holds(ms[i], rs[i])
  }

  /** An archive written from these sources. */
  predicate IsBackup(a: Archive, src: Sources) {
    && a.manifest.Manifest? && a.manifest.version == FORMAT_VERSION
    && a.manifest.roots == Some(RootsOf(src)) && a.manifest.files.Some?
    && RecordsStage(a.manifest.files.value, StageOf(src))
    && |a.members| > 0
    && HoldsAll(a.members[..|a.members| - 1], a.manifest.files.value)
    && var last := a.members[|a.members| - 1];
    && last.name == MANIFEST && !last.symlink && !last.encrypted
  }

  predicate RealStage(stage: Stage) {
    forall p <- stage :: AreParts(p)
  }

  /** Writes the staged files and their manifest; `packed` and `written` are what the encoders produce. */
  method Create(src: Sources, packed: Bytes -> nat, written: Bytes) returns (a: Archive)
    requires RealSources(src)
    ensures IsBackup(a, src)
  {
    hide StageOf, Canonical, Parts, DistinctPaths, RecordsFile, RootsOf;
    var stage := StageOf(src);
    StageIsReal(src);
    NothingRecorded(stage);
    var left := stage.Keys;
    var ms: seq<Member>, rs: seq<Record> := [], [];
    while left != {}
      invariant left <= stage.Keys
      invariant RecordsStage(rs, Besides(stage, left))
      invariant forall r <- rs :: r.Record?
      invariant HoldsAll(ms, rs)
      decreases left
    {
      var p :| p in left;
      PartsOfPath(p);
      var r := Record(Path(p), |stage[p]|, Digest(stage[p]));
      MoreRecorded(rs, stage, left, p);
      ms := ms + [Member(Path(p), false, false, |stage[p]|, packed(stage[p]), stage[p])];
      rs := rs + [r];
      left := left - {p};
    }
    assert Besides(stage, {}) == stage;
    a := Archive(ms + [Member(MANIFEST, false, false, |written|, packed(written), written)],
      Manifest(FORMAT_VERSION, Some(RootsOf(src)), Some(rs)));
    assert a.members[..|a.members| - 1] == ms;
  }

  /** The stage without some of its files. */
  function Besides(stage: Stage, left: set<seq<string>>): Stage {
    map p | p in stage.Keys - left :: stage[p]
  }

  lemma NothingRecorded(stage: Stage)
    ensures RecordsStage([], Besides(stage, stage.Keys))
  {
  }

  lemma StageIsReal(src: Sources)
    requires RealSources(src)
    ensures RealStage(StageOf(src))
  {
    hide StageOf;
    forall p | p in StageOf(src)
      ensures AreParts(p)
    {
      StageNames(src, p);
    }
  }

  lemma MoreRecorded(rs: seq<Record>, stage: Stage, left: set<seq<string>>, p: seq<string>)
    requires left <= stage.Keys && p in left && AreParts(p)
    requires RecordsStage(rs, Besides(stage, left))
    ensures RecordsStage(rs + [Record(Path(p), |stage[p]|, Digest(stage[p]))], Besides(stage, left - {p}))
  {
    PartsOfPath(p);
    var was, now := Besides(stage, left), Besides(stage, left - {p});
    var more := rs + [Record(Path(p), |stage[p]|, Digest(stage[p]))];
    forall r | r in more
      ensures RecordsFile(r, now)
    {
      if r in rs {
        assert RecordsFile(r, was);
      }
    }
    forall r | r in rs
      ensures r.path != Path(p)
    {
      assert RecordsFile(r, was);
    }
    forall q | q in now
      ensures exists r :: r in more && r.Record? && Parts(r.path) == q
    {
      if q == p {
        assert more[|rs|] in more;
      } else {
        assert q in was;
        var r :| r in rs && r.Record? && Parts(r.path) == q;
        assert r in more;
      }
    }
  }

  /** Names of staged files: one of the databases, or a proper name below an included root. */
  predicate Staged(p: seq<string>, roots: seq<string>) {
    && p != [] && AreParts(p) && ".." !in p
    && (p in {[STATE], [ACCOUNTS]} || (|p| > 1 && p[0] in {ARTIFACTS, LOGS} && p[0] in roots))
  }

  predicate FileOf(root: string, t: Option<Tree>, p: seq<string>) {
    t.Some? && |p| > 0 && p[0] == root && p[1..] in t.value
  }

  lemma InUnder(root: string, t: Option<Tree>, p: seq<string>)
    ensures p in Under(root, t) <==> FileOf(root, t, p)
    ensures FileOf(root, t, p) ==> Under(root, t)[p] == t.value[p[1..]]
  {
    if FileOf(root, t, p) {
      assert p == [root] + p[1..];
    }
  }

  lemma InStage(src: Sources, p: seq<string>)
    ensures p in StageOf(src) <==>
      || p == [STATE] || (p == [ACCOUNTS] && src.accounts.Some?)
      || FileOf(ARTIFACTS, src.artifacts, p) || FileOf(LOGS, src.logs, p)
    ensures src.logs.Some? && FileOf(LOGS, src.logs, p) ==> StageOf(src)[p] == src.logs.value[p[1..]]
    ensures src.artifacts.Some? && FileOf(ARTIFACTS, src.artifacts, p) ==>
      StageOf(src)[p] == src.artifacts.value[p[1..]]
  {
    InUnder(ARTIFACTS, src.artifacts, p);
    InUnder(LOGS, src.logs, p);
    LiteralsDiffer();
    assert FileOf(ARTIFACTS, src.artifacts, p) ==> !FileOf(LOGS, src.logs, p);
    hide Under, FileOf;
  }

  lemma LiteralsDiffer()
    ensures STATE != ACCOUNTS && STATE != ARTIFACTS && STATE != LOGS
    ensures ACCOUNTS != ARTIFACTS && ACCOUNTS != LOGS && ARTIFACTS != LOGS
    ensures STATE != ".." && ACCOUNTS != ".." && ARTIFACTS != ".." && LOGS != ".."
    ensures IsPart(STATE) && IsPart(ACCOUNTS) && IsPart(ARTIFACTS) && IsPart(LOGS)
  {
    assert STATE[0] == 's' && ACCOUNTS[1] == 'c' && ARTIFACTS[1] == 'r' && LOGS[0] == 'l';
  }

  /** Staged files have supported, canonical-part names and none lies below another. */
  lemma StageNames(src: Sources, p: seq<string>)
    requires RealSources(src) && p in StageOf(src)
    ensures Staged(p, RootsOf(src))
    ensures forall q <- StageOf(src) :: p != q ==> Apart(p, q)
  {
    hide StageOf, Under;
    InStage(src, p);
    LiteralsDiffer();
    forall q | q in StageOf(src) && p != q
      ensures Apart(p, q)
    {
      InStage(src, q);
      if p[0] == q[0] {
        SiblingsApart(p, q);
      }
    }
  }

  lemma SiblingsApart(p: seq<string>, q: seq<string>)
    requires |p| > 0 && |q| > 0 && p[0] == q[0] && Apart(p[1..], q[1..])
    ensures Apart(p, q)
  {
  }

  /** A staged file's name passes the name checks of an archive. */
  lemma StagedNameOk(p: seq<string>, roots: seq<string>)
    requires Staged(p, roots)
    ensures Parts(Path(p)) == p && Canonical(Path(p))
    ensures Safe(Path(p)) && !IsDirectory(Path(p)) && Supported(Path(p)) && Path(p) != MANIFEST
    ensures p[0] in {ARTIFACTS, LOGS} ==> p[0] in roots
  {
    hide Parts, Path, STATE, ACCOUNTS, ARTIFACTS, LOGS, MANIFEST;
    PartsOfPath(p);
    PathEnds(p);
    LiteralsDiffer();
    LiteralEnds();
    ManifestPart();
  }

  lemma LiteralEnds()
    ensures STATE[|STATE| - 1] != ':' && ACCOUNTS[|ACCOUNTS| - 1] != ':'
    ensures ARTIFACTS[|ARTIFACTS| - 1] != ':' && LOGS[|LOGS| - 1] != ':'
    ensures Path([STATE]) == STATE && Path([ACCOUNTS]) == ACCOUNTS
  {
  }

  lemma ManifestPart()
    ensures Parts(MANIFEST) == [MANIFEST] && Safe(MANIFEST) && !IsDirectory(MANIFEST)
    ensures MANIFEST != STATE && MANIFEST != ACCOUNTS && MANIFEST != ARTIFACTS && MANIFEST != LOGS
  {
    assert MANIFEST[0] == 'm' && STATE[0] == 's' && ACCOUNTS[0] == 'a' && ARTIFACTS[0] == 'a' && LOGS[0] == 'l';
    assert IsPart(MANIFEST) && MANIFEST[|MANIFEST| - 1] == 'n';
    assert MANIFEST != "..";
    PartsOfPath([MANIFEST]);
    assert Path([MANIFEST]) == MANIFEST;
  }

  lemma BackupRecordsOk(rs: seq<Record>, src: Sources, r: Record)
    requires RealSources(src) && RecordsStage(rs, StageOf(src)) && r in rs
    requires r.Record? && r.size <= MAX_MEMBER
    ensures RecordOk(r, Some(RootsOf(src))) && !Conflicts(rs, r.path)
  {
    hide StageOf, Declares, Safe, Supported;
    assert RecordsFile(r, StageOf(src));
    var p := Parts(r.path);
    StageNames(src, p);
    StagedNameOk(p, RootsOf(src));
    forall k | 1 <= k < |p|
      ensures !Declares(rs, Path(p[..k]))
    {
      Undeclared(rs, src, p, k);
    }
  }

  lemma Undeclared(rs: seq<Record>, src: Sources, p: seq<string>, k: nat)
    requires RealSources(src) && RecordsStage(rs, StageOf(src)) && p in StageOf(src) && 1 <= k < |p| && AreParts(p)
    ensures !Declares(rs, Path(p[..k]))
  {
    hide StageOf;
    StageNames(src, p);
    PartsOfPath(p[..k]);
    forall o | o in rs
      ensures o.Record? && o.path != Path(p[..k])
    {
      assert RecordsFile(o, StageOf(src));
      var q := Parts(o.path);
      assert q == p || Apart(p, q);
      assert p[..k] <= p;
    }
  }

  lemma RootsAreOk(src: Sources)
    ensures RootsOk(Some(RootsOf(src)))
  {
    LiteralsDiffer();
  }

  /** The names of the members are the manifest's and the declared ones. */
  lemma BackupNames(ms: seq<Member>, rs: seq<Record>)
    requires |ms| == |rs| + 1 && forall r <- rs :: r.Record?
    requires Paired(ms, rs)
    ensures forall name: string :: NameIn(ms, name) <==> name == MANIFEST || Declares(rs, name)
  {
    forall name: string | NameIn(ms, name)
      ensures name == MANIFEST || Declares(rs, name)
    {
      var m :| m in ms && m.name == name;
      var i :| 0 <= i < |ms| && ms[i] == m;
      if i < |rs| {
        assert rs[i] in rs;
      }
    }
    forall name: string | Declares(rs, name)
      ensures NameIn(ms, name)
    {
      var r :| r in rs && r.Record? && r.path == name;
      var i :| 0 <= i < |rs| && rs[i] == r;
      assert ms[i] in ms;
    }
    assert ms[|rs|] in ms;
  }

  lemma Fits(m: Member)
    requires MemberFits(m)
    ensures m.size <= MAX_MEMBER
  {
  }

  lemma RecordsNotManifest(rs: seq<Record>, roots: Option<seq<string>>)
    requires forall r <- rs :: RecordOk(r, roots)
    ensures forall r <- rs :: r.Record? && r.path != MANIFEST
  {
  }

  lemma RecordPlain(r: Record, m: Member, src: Sources)
    requires RealSources(src) && RecordsFile(r, StageOf(src)) && Holds(m, r)
    ensures Plain(m)
  {
    hide StageOf;
    StageNames(src, Parts(r.path));
    StagedNameOk(Parts(r.path), RootsOf(src));
  }

  lemma ManifestPlain(m: Member)
    requires m.name == MANIFEST && !m.symlink && !m.encrypted
    ensures Plain(m)
  {
    ManifestPart();
  }

  /** Distinct records and their members: the names and the contents belong together. */
  lemma MembersMatch(ms: seq<Member>, rs: seq<Record>)
    requires |ms| == |rs| + 1 && (forall r <- rs :: r.Record? && r.path != MANIFEST)
    requires DistinctPaths(rs) && Paired(ms, rs)
    ensures DistinctNames(ms)
    ensures forall r <- rs, m <- ms :: m.name == r.path ==> Matches(m, r)
  {
    forall i | 0 <= i < |rs|
      ensures ms[i].name == rs[i].path && rs[i].path != MANIFEST && Matches(ms[i], rs[i])
    {
      assert rs[i] in rs;
    }
    forall r, m | r in rs && m in ms && m.name == r.path
      ensures Matches(m, r)
    {
      var i :| 0 <= i < |rs| && rs[i] == r;
      var j :| 0 <= j < |ms| && ms[j] == m;
      assert j < |rs|;
      assert i == j;
    }
  }

  /** Member by member, a written archive holds its records and then the manifest. */
  ghost predicate Paired(ms: seq<Member>, rs: seq<Record>) {
    && |ms| == |rs| + 1
    && (forall i :: 0 <= i < |rs| ==> rs[i].Record? && Holds(ms[i], rs[i]))
    && ms[|rs|].name == MANIFEST && !ms[|rs|].symlink && !ms[|rs|].encrypted
  }

  lemma BackupPaired(a: Archive, src: Sources)
    requires IsBackup(a, src)
    ensures Paired(a.members, a.manifest.files.value)
    ensures RecordsStage(a.manifest.files.value, StageOf(src))
  {
    hide StageOf;
    var rs, ms := a.manifest.files.value, a.members;
    forall i | 0 <= i < |rs|
      ensures rs[i].Record? && Holds(ms[i], rs[i])
    {
      assert ms[..|ms| - 1][i] == ms[i] && rs[i] in rs;
    }
  }

  lemma BackupRecords(ms: seq<Member>, rs: seq<Record>, src: Sources)
    requires RealSources(src) && RecordsStage(rs, StageOf(src)) && Paired(ms, rs)
    requires forall m <- ms :: MemberFits(m)
    ensures forall r <- rs :: RecordOk(r, Some(RootsOf(src)))
    ensures forall r <- rs :: !Conflicts(rs, r.path)
    ensures forall r <- rs :: r.Record? && Canonical(r.path)
  {
    hide StageOf, RecordOk, Conflicts, MemberFits, Canonical;
    forall r | r in rs
      ensures RecordOk(r, Some(RootsOf(src))) && r.Record? && !Conflicts(rs, r.path) && Canonical(r.path)
    {
      var i :| 0 <= i < |rs| && rs[i] == r;
      assert ms[i] in ms;
      Fits(ms[i]);
      BackupRecordsOk(rs, src, r);
      assert RecordsFile(r, StageOf(src));
    }
  }

  lemma BackupMembers(ms: seq<Member>, rs: seq<Record>, src: Sources)
    requires RealSources(src) && RecordsStage(rs, StageOf(src)) && Paired(ms, rs)
    ensures forall m <- ms :: Plain(m)
  {
    hide StageOf, Plain, RecordsFile;
    forall m | m in ms
      ensures Plain(m)
    {
      var i :| 0 <= i < |ms| && ms[i] == m;
      if i < |rs| {
        assert rs[i] in rs;
        RecordPlain(rs[i], m, src);
      } else {
        ManifestPlain(m);
      }
    }
  }

  /** Records that are in order, each beside its member, make an acceptable archive. */
  lemma PairedAcceptable(ms: seq<Member>, rs: seq<Record>, roots: Option<seq<string>>)
    requires WithinLimits(ms) && Paired(ms, rs) && RootsOk(roots)
    requires forall r <- rs :: RecordOk(r, roots)
    requires forall r <- rs :: r.Record? && !Conflicts(rs, r.path)
    requires DistinctPaths(rs)
    requires forall m <- ms :: Plain(m)
    ensures Acceptable(Archive(ms, Manifest(FORMAT_VERSION, roots, Some(rs))))
  {
    RecordsNotManifest(rs, roots);
    hide RecordOk, Conflicts, Plain, MemberFits, Packed, Expanded, RatioOk;
    hide NameIn, Declares, RootsOk, DistinctPaths, DistinctNames, Matches, Holds;
    BackupNames(ms, rs);
    MembersMatch(ms, rs);
    assert NameIn(ms, MANIFEST);
  }

  lemma BackupAcceptable(a: Archive, src: Sources)
    requires RealSources(src) && IsBackup(a, src) && WithinLimits(a.members)
    ensures Acceptable(a)
  {
    BackupPaired(a, src);
    hide StageOf, RecordOk, Conflicts, Plain, MemberFits, Canonical, Packed, Expanded, RatioOk, RecordsFile;
    hide RealSources, RootsOk, RootsOf, DistinctPaths, Holds, HoldsAll;
    var rs, ms := a.manifest.files.value, a.members;
    BackupRecords(ms, rs, src);
    BackupMembers(ms, rs, src);
    RootsAreOk(src);
    hide WithinLimits, Paired, Acceptable;
    PairedAcceptable(ms, rs, Some(RootsOf(src)));
  }

  /** A written archive within the limits is accepted, and unpacks without a collision. */
  lemma BackupAccepted(a: Archive, src: Sources)
    requires RealSources(src) && IsBackup(a, src) && WithinLimits(a.members)
    ensures Acceptable(a)
    ensures forall r <- a.manifest.files.value :: r.Record? && Canonical(r.path)
    ensures AllApart(a.manifest.files.value)
  {
    hide StageOf, WithinLimits, RealSources;
    BackupAcceptable(a, src);
    hide Acceptable, HoldsAll, Canonical, Parts;
    forall r | r in a.manifest.files.value
      ensures r.Record? && Canonical(r.path)
    {
      assert RecordsFile(r, StageOf(src));
    }
    AcceptedUnpacks(a);
  }

  /** The roots a restore replaces: the listed ones, or those some record lies in. */
  function IncludedRoots(roots: Option<seq<string>>, rs: seq<Record>): set<string>
    requires forall r <- rs :: r.Record? && Parts(r.path) != []
  {
    if roots.Some? then set root | root in roots.value
    else set r | r in rs && Parts(r.path)[0] in {ARTIFACTS, LOGS} :: Parts(r.path)[0]
  }

  function Below(stage: Stage, root: string): Tree {
    map p | p in stage && |p| > 1 && [root] + p[1..] == p :: p[1..] := stage[p]
  }

  /** What the restore installs from a stage: the databases and the included roots. */
  function Contents(stage: Stage, roots: set<string>): Sources
    requires [STATE] in stage
  {
    Sources(stage[[STATE]],
      if [ACCOUNTS] in stage then Some(stage[[ACCOUNTS]]) else None,
      if ARTIFACTS in roots then Some(Below(stage, ARTIFACTS)) else None,
      if LOGS in roots then Some(Below(stage, LOGS)) else None)
  }

  predicate SupportedStage(stage: Stage, roots: set<string>) {
    forall p <- stage :: p in {[STATE], [ACCOUNTS]} || (|p| > 1 && p[0] in {ARTIFACTS, LOGS} && p[0] in roots)
  }

  lemma InBelow(stage: Stage, root: string, q: seq<string>)
    ensures q in Below(stage, root) <==> q != [] && [root] + q in stage
    ensures q in Below(stage, root) ==> Below(stage, root)[q] == stage[[root] + q]
  {
    if q != [] && [root] + q in stage {
      assert ([root] + q)[1..] == q;
    }
    if q in Below(stage, root) {
      var p :| p in stage && |p| > 1 && p[0] == root && p[1..] == q;
      assert p == [root] + q;
    }
  }

  /** The files a set of sources has at a staged path. */
  function FileAt(src: Sources, p: seq<string>): Option<Bytes> {
    if p == [STATE] then Some(src.state)
    else if p == [ACCOUNTS] then src.accounts
    else if FileOf(ARTIFACTS, src.artifacts, p) then Some(src.artifacts.value[p[1..]])
    else if FileOf(LOGS, src.logs, p) then Some(src.logs.value[p[1..]])
    else None
  }

  lemma StageAt(src: Sources, p: seq<string>)
    ensures FileAt(src, p) == if p in StageOf(src) then Some(StageOf(src)[p]) else None
  {
    InStage(src, p);
    LiteralsDiffer();
    InUnder(ARTIFACTS, src.artifacts, p);
    InUnder(LOGS, src.logs, p);
    hide Under;
  }

  /** A restore installs every staged file in its place and nothing else. */
  lemma ContentsKeepStage(stage: Stage, roots: set<string>, p: seq<string>)
    requires [STATE] in stage && SupportedStage(stage, roots)
    ensures FileAt(Contents(stage, roots), p) == if p in stage then Some(stage[p]) else None
  {
    hide Below;
    LiteralsDiffer();
    if p != [] {
      InBelow(stage, p[0], p[1..]);
      assert p == [p[0]] + p[1..];
    }
  }

  lemma SameTree(root: string, a: Option<Tree>, b: Option<Tree>)
    requires a.Some? <==> b.Some?
    requires forall p :: FileOf(root, a, p) <==> FileOf(root, b, p)
    requires forall p :: FileOf(root, a, p) && FileOf(root, b, p) ==> a.value[p[1..]] == b.value[p[1..]]
    ensures a == b
  {
    if a.Some? {
      forall q: seq<string>
        ensures q in a.value <==> q in b.value
        ensures q in a.value && q in b.value ==> a.value[q] == b.value[q]
      {
        var p := [root] + q;
        assert p[1..] == q;
        assert FileOf(root, a, p) <==> FileOf(root, b, p);
      }
      assert a.value == b.value;
    }
  }

  /** Sources with the same roots and the same files are the same. */
  lemma FilesDetermine(s: Sources, t: Sources)
    requires s.artifacts.Some? == t.artifacts.Some? && s.logs.Some? == t.logs.Some?
    requires forall p :: FileAt(s, p) == FileAt(t, p)
    ensures s == t
  {
    LiteralsDiffer();
    assert FileAt(s, [STATE]) == FileAt(t, [STATE]) && FileAt(s, [ACCOUNTS]) == FileAt(t, [ACCOUNTS]);
    forall p
      ensures FileOf(ARTIFACTS, s.artifacts, p) <==> FileOf(ARTIFACTS, t.artifacts, p)
      ensures FileOf(ARTIFACTS, s.artifacts, p) ==> s.artifacts.value[p[1..]] == t.artifacts.value[p[1..]]
      ensures FileOf(LOGS, s.logs, p) <==> FileOf(LOGS, t.logs, p)
      ensures FileOf(LOGS, s.logs, p) ==> s.logs.value[p[1..]] == t.logs.value[p[1..]]
    {
      assert FileAt(s, p) == FileAt(t, p);
    }
    SameTree(ARTIFACTS, s.artifacts, t.artifacts);
    SameTree(LOGS, s.logs, t.logs);
  }

  /** An unpacked archive, told without the index by name. */
  predicate Yields(a: Archive, out: Sources)
    requires a.manifest.Manifest? && a.manifest.files.Some?
  {
    && (forall r <- a.manifest.files.value, m <- a.members :: r.Record? && m.name == r.path ==>
      FileAt(out, Parts(r.path)) == Some(m.content))
    && (forall p <- StageOf(out) :: exists r <- a.manifest.files.value :: r.Record? && Parts(r.path) == p)
    && (out.artifacts.Some? <==> Includes(a.manifest, ARTIFACTS)) && (out.logs.Some? <==> Includes(a.manifest, LOGS))
  }

  /** The manifest lists the root, or, without a list, a file in it. */
  predicate Includes(m: Manifest, root: string)
    requires m.Manifest? && m.files.Some?
  {
    if m.roots.Some? then root in m.roots.value
    else exists r <- m.files.value :: r.Record? && Parts(r.path) != [] && Parts(r.path)[0] == root
  }

  lemma IncludesMeans(m: Manifest)
    requires m.Manifest? && m.files.Some? && forall r <- m.files.value :: r.Record? && Parts(r.path) != []
    ensures forall root | root in {ARTIFACTS, LOGS} ::
      Includes(m, root) <==> root in IncludedRoots(m.roots, m.files.value)
  {
    hide Parts;
  }

  /** The bytes at a record's path are the declared ones. */
  predicate AsDeclared(r: Record, content: Option<Bytes>) {
    r.Record? && content.Some? && |content.value| == r.size && Digest(content.value) == r.checksum
  }

  lemma YieldsDeclared(a: Archive, out: Sources)
    requires Acceptable(a) && Yields(a, out)
    ensures forall r <- a.manifest.files.value :: r.Record? && AsDeclared(r, FileAt(out, Parts(r.path)))
  {
    hide WithinLimits, DistinctNames, Plain, RootsOk, DistinctPaths, Conflicts, Parts, FileAt, StageOf, Includes;
    forall r | r in a.manifest.files.value
      ensures r.Record? && AsDeclared(r, FileAt(out, Parts(r.path)))
    {
      assert RecordOk(r, a.manifest.roots);
      assert Declares(a.manifest.files.value, r.path);
      assert NameIn(a.members, r.path);
      var m :| m in a.members && m.name == r.path;
      assert Matches(m, r);
    }
  }

  /** Whatever else an archive holds: with the manifest of a backup it yields that backup or nothing. */
  lemma ManifestDetermines(a: Archive, out: Sources, written: Archive, src: Sources)
    requires Acceptable(a) && Yields(a, out)
    requires RealSources(src) && IsBackup(written, src) && a.manifest == written.manifest
    ensures out == src
  {
    YieldsDeclared(a, out);
    BackupIncludes(written, src);
    hide Acceptable, Parts, FileAt, StageOf, RealSources, HoldsAll, Includes, DistinctPaths;
    forall p
      ensures FileAt(out, p) == FileAt(src, p)
    {
      StageAt(out, p);
      StageAt(src, p);
      if p in StageOf(src) {
        var r :| r in a.manifest.files.value && r.Record? && Parts(r.path) == p;
        assert RecordsFile(r, StageOf(src));
      }
    }
    FilesDetermine(out, src);
  }

  lemma BackupIncludes(a: Archive, src: Sources)
    requires IsBackup(a, src)
    ensures Includes(a.manifest, ARTIFACTS) <==> src.artifacts.Some?
    ensures Includes(a.manifest, LOGS) <==> src.logs.Some?
  {
    LiteralsDiffer();
  }

  lemma RecordsIndexed(a: Archive, byName: map<string, Member>)
    requires Acceptable(a) && Indexes(byName, a.members)
    ensures a.manifest.Manifest? && a.manifest.files.Some?
    ensures forall r <- a.manifest.files.value :: r.Record? && r.path in byName && Parts(r.path) != []
  {
    hide RecordOk, WithinLimits, Plain, Conflicts, Matches;
    var rs := a.manifest.files.value;
    forall r | r in rs
      ensures r.Record? && r.path in byName && Parts(r.path) != []
    {
      SomePart(r, a.manifest.roots);
      AllRecords(rs, a.manifest.roots);
      assert Declares(rs, r.path);
      assert NameIn(a.members, r.path);
    }
  }

  lemma UnpackedSupported(a: Archive, byName: map<string, Member>, stage: Stage)
    requires Acceptable(a) && Indexes(byName, a.members)
    requires forall r <- a.manifest.files.value :: r.Record? && r.path in byName && Parts(r.path) != []
    requires Unpacked(stage, a.manifest.files.value, byName)
    ensures SupportedStage(stage, IncludedRoots(a.manifest.roots, a.manifest.files.value))
  {
    hide WithinLimits, Plain, Conflicts, Matches, DistinctPaths, Safe, NameIn, Declares;
    var rs := a.manifest.files.value;
    forall p | p in stage
      ensures p in {[STATE], [ACCOUNTS]}
        || (|p| > 1 && p[0] in {ARTIFACTS, LOGS} && p[0] in IncludedRoots(a.manifest.roots, rs))
    {
      var r :| r in rs && Parts(r.path) == p;
      assert RecordOk(r, a.manifest.roots);
      DatabaseParts();
    }
  }

  lemma DatabaseParts()
    ensures Parts(STATE) == [STATE] && Parts(ACCOUNTS) == [ACCOUNTS]
  {
    LiteralsDiffer();
    PartsOfPath([STATE]);
    PartsOfPath([ACCOUNTS]);
    assert Path([STATE]) == STATE && Path([ACCOUNTS]) == ACCOUNTS;
  }

  lemma OpenYields(a: Archive, byName: map<string, Member>, stage: Stage)
    requires Acceptable(a) && Indexes(byName, a.members)
    requires forall r <- a.manifest.files.value :: r.Record? && r.path in byName && Parts(r.path) != []
    requires Unpacked(stage, a.manifest.files.value, byName) && [STATE] in stage
    ensures Yields(a, Contents(stage, IncludedRoots(a.manifest.roots, a.manifest.files.value)))
  {
    UnpackedSupported(a, byName, stage);
    hide Acceptable, SupportedStage, IncludedRoots, StageOf, FileAt, Contents, Parts, Includes;
    var rs, roots := a.manifest.files.value, IncludedRoots(a.manifest.roots, a.manifest.files.value);
    var out := Contents(stage, roots);
    forall p
      ensures FileAt(out, p) == if p in stage then Some(stage[p]) else None
      ensures p in StageOf(out) <==> p in stage
    {
      ContentsKeepStage(stage, roots, p);
      StageAt(out, p);
    }
    ContentsRoots(stage, roots);
    IncludesMeans(a.manifest);
  }

  /** Unpacking a written archive gives back the stage it was written from. */
  lemma BackupUnpacks(ms: seq<Member>, rs: seq<Record>, want: Stage, byName: map<string, Member>, stage: Stage)
    requires Paired(ms, rs) && RecordsStage(rs, want) && Indexes(byName, ms)
    requires forall r <- rs :: r.Record? && r.path in byName
    requires Unpacked(stage, rs, byName)
    ensures stage == want
  {
    hide Canonical, Parts, Indexes, Paired, RecordsFile, DistinctPaths;
    forall r | r in rs
      ensures Parts(r.path) in want && byName[r.path].content == want[Parts(r.path)]
    {
      RecordBytes(ms, rs, want, byName, r);
    }
    forall p | p in stage
      ensures p in want && stage[p] == want[p]
    {
      var r :| r in rs && Parts(r.path) == p;
    }
    forall p | p in want
      ensures p in stage
    {
      var r :| r in rs && r.Record? && Parts(r.path) == p;
    }
  }

  lemma RecordBytes(ms: seq<Member>, rs: seq<Record>, stage: Stage, byName: map<string, Member>, r: Record)
    requires r in rs && RecordsFile(r, stage) && Paired(ms, rs) && Indexes(byName, ms)
    ensures Parts(r.path) in stage
    ensures r.path in byName && byName[r.path].content == stage[Parts(r.path)]
  {
    var i :| 0 <= i < |rs| && rs[i] == r;
    assert Holds(ms[i], rs[i]) && ms[i] in ms;
  }

  /** Restoring a written archive gives back its sources. */
  lemma RoundTrip(a: Archive, src: Sources, byName: map<string, Member>, stage: Stage)
    requires RealSources(src) && IsBackup(a, src) && WithinLimits(a.members) && Indexes(byName, a.members)
    requires forall r <- a.manifest.files.value :: r.Record? && r.path in byName && Parts(r.path) != []
    requires Unpacked(stage, a.manifest.files.value, byName)
    ensures [STATE] in stage
    ensures Contents(stage, IncludedRoots(a.manifest.roots, a.manifest.files.value)) == src
  {
    BackupAccepted(a, src);
    BackupPaired(a, src);
    BackupUnpacks(a.members, a.manifest.files.value, StageOf(src), byName, stage);
    UnpackedSupported(a, byName, stage);
    InStage(src, [STATE]);
    BackupRoots(a, src);
    var roots := IncludedRoots(a.manifest.roots, a.manifest.files.value);
    hide *;
    var out := Contents(stage, roots);
    forall p
      ensures FileAt(out, p) == FileAt(src, p)
    {
      ContentsKeepStage(stage, roots, p);
      StageAt(src, p);
    }
    ContentsRoots(stage, roots);
    FilesDetermine(out, src);
  }

  lemma ContentsRoots(stage: Stage, roots: set<string>)
    requires [STATE] in stage
    ensures Contents(stage, roots).artifacts.Some? <==> ARTIFACTS in roots
    ensures Contents(stage, roots).logs.Some? <==> LOGS in roots
  {
  }

  lemma BackupRoots(a: Archive, src: Sources)
    requires IsBackup(a, src)
    requires forall r <- a.manifest.files.value :: r.Record? && Parts(r.path) != []
    ensures ARTIFACTS in IncludedRoots(a.manifest.roots, a.manifest.files.value) <==> src.artifacts.Some?
    ensures LOGS in IncludedRoots(a.manifest.roots, a.manifest.files.value) <==> src.logs.Some?
  {
    LiteralsDiffer();
  }

  /** A validated archive is unpacked into an empty stage; None stands for every refusal. */
  method Open(a: Archive) returns (out: Option<Sources>)
    ensures out.Some? <==> Acceptable(a) && Unpackable(a.manifest.files.value)
    ensures out.Some? ==> Yields(a, out.value)
    // every file is as its record declares it, in length and in digest
    ensures out.Some? ==>
      forall r <- a.manifest.files.value :: r.Record? && AsDeclared(r, FileAt(out.value, Parts(r.path)))
    ensures forall src :: RealSources(src) && IsBackup(a, src) && WithinLimits(a.members) ==> out == Some(src)
    // so an archive under the manifest of a backup opens to that backup or not at all
    ensures out.Some? ==> forall src, written ::
      RealSources(src) && IsBackup(written, src) && a.manifest == written.manifest ==> out.value == src
  {
    hide WithinLimits, RealSources, IsBackup, StageOf, RecordOk, Plain, Conflicts, Matches, NameIn, Declares;
    hide DistinctNames, DistinctPaths, Indexes, Unpacked, AllApart, Contents, IncludedRoots, Yields, Parts, RootsOk;
    hide AsDeclared, FileAt;
    var ok, byName := Validate(a);
    forall src | RealSources(src) && IsBackup(a, src) && WithinLimits(a.members)
      ensures Acceptable(a) && (forall r <- a.manifest.files.value :: r.Record?) && AllApart(a.manifest.files.value)
    {
      BackupAccepted(a, src);
    }
    if !ok {
      return None;
    }
    RecordsIndexed(a, byName);
    var rs, roots := a.manifest.files.value, a.manifest.roots;
    var stage := Unpack(rs, byName);
    if stage.None? {
      return None;
    }
    StageHasState(rs, byName, stage.value);
    forall src | RealSources(src) && IsBackup(a, src) && WithinLimits(a.members)
      ensures [STATE] in stage.value && Contents(stage.value, IncludedRoots(roots, rs)) == src
    {
      RoundTrip(a, src, byName, stage.value);
    }
    if [STATE] !in stage.value {
      return None;
    }
    OpenYields(a, byName, stage.value);
    YieldsDeclared(a, Contents(stage.value, IncludedRoots(roots, rs)));
    forall src, written | RealSources(src) && IsBackup(written, src) && a.manifest == written.manifest
      ensures Contents(stage.value, IncludedRoots(roots, rs)) == src
    {
      ManifestDetermines(a, Contents(stage.value, IncludedRoots(roots, rs)), written, src);
    }
    out := Some(Contents(stage.value, IncludedRoots(roots, rs)));
  }

  predicate Unpackable(rs: seq<Record>) {
    && (forall r <- rs :: r.Record?)
    && AllApart(rs)
    && (exists r <- rs :: Parts(r.path) == [STATE])
  }

  lemma StageHasState(rs: seq<Record>, byName: map<string, Member>, stage: Stage)
    requires forall r <- rs :: r.Record? && r.path in byName
    requires Unpacked(stage, rs, byName)
    ensures [STATE] in stage <==> exists r <- rs :: Parts(r.path) == [STATE]
  {
  }

  /**
   * Without canonical names acceptance is not enough: the conflict check compares spellings, so
   * "artifacts//a" and "artifacts/a" are both accepted and the second creation fails.
   */
  lemma OddNamesCollide() returns (a: Archive)
    ensures Acceptable(a) && (forall r <- a.manifest.files.value :: r.Record?)
    ensures !AllApart(a.manifest.files.value)
  {
    hide *;
    var leaf := "a";
    var odd, even := ARTIFACTS + ("/" + ("/" + leaf)), ARTIFACTS + ("/" + leaf);
    RootsShape();
    assert IsPart(leaf) by {
      LeafIsPart(leaf);
    }
    OddParts(ARTIFACTS, leaf, odd, even, MANIFEST);
    a := OddCollides(odd, even, leaf);
  }

  lemma LeafIsPart(leaf: string)
    requires leaf == "a"
    ensures IsPart(leaf)
  {
  }

  lemma RootsShape()
    ensures IsPart(ARTIFACTS) && ARTIFACTS != ".." && ARTIFACTS[|ARTIFACTS| - 1] != ':'
    ensures MANIFEST != "" && ARTIFACTS[0] != MANIFEST[0]
  {
  }

  lemma OddCollides(odd: string, even: string, leaf: string) returns (a: Archive)
    requires Parts(odd) == Parts(even) == [ARTIFACTS, leaf] && odd != even
    requires Plain(EmptyMember(odd)) && Plain(EmptyMember(even)) && odd != MANIFEST && even != MANIFEST
    requires odd != ARTIFACTS && even != ARTIFACTS
    ensures Acceptable(a) && (forall r <- a.manifest.files.value :: r.Record?)
    ensures !AllApart(a.manifest.files.value)
  {
    hide *;
    var rs := [Empty(odd), Empty(even)];
    var ms := [EmptyMember(odd), EmptyMember(even), EmptyMember(MANIFEST)];
    OddMembers(odd, even, rs, ms);
    OddRecords(odd, even, leaf, rs);
    a := OddAccepted(odd, even, rs, ms);
  }

  lemma OddAccepted(odd: string, even: string, rs: seq<Record>, ms: seq<Member>) returns (a: Archive)
    requires rs == [Empty(odd), Empty(even)] && Parts(odd) == Parts(even) && odd != even
    requires WithinLimits(ms) && Paired(ms, rs) && (forall m <- ms :: Plain(m))
    requires forall r <- rs :: RecordOk(r, None) && !Conflicts(rs, r.path)
    ensures Acceptable(a) && (forall r <- a.manifest.files.value :: r.Record?)
    ensures !AllApart(a.manifest.files.value)
  {
    hide *;
    AllRecords(rs, None);
    OddPathsDistinct(odd, even, rs);
    SameParts(rs);
    PairedAcceptable(ms, rs, None);
    a := Archive(ms, Manifest(FORMAT_VERSION, None, Some(rs)));
  }

  lemma OddPathsDistinct(odd: string, even: string, rs: seq<Record>)
    requires rs == [Empty(odd), Empty(even)] && odd != even
    ensures (forall r <- rs :: r.Record?) && DistinctPaths(rs) && RootsOk(None)
    ensures rs[0].path == odd && rs[1].path == even
  {
  }

  lemma SameParts(rs: seq<Record>)
    requires |rs| == 2 && (forall r <- rs :: r.Record?) && Parts(rs[0].path) == Parts(rs[1].path)
    ensures !AllApart(rs)
  {
    hide Parts;
    assert !Apart(Parts(rs[0].path), Parts(rs[1].path));
  }

  lemma OddMembers(odd: string, even: string, rs: seq<Record>, ms: seq<Member>)
    requires rs == [Empty(odd), Empty(even)] && ms == [EmptyMember(odd), EmptyMember(even), EmptyMember(MANIFEST)]
    requires Plain(EmptyMember(odd)) && Plain(EmptyMember(even))
    ensures WithinLimits(ms) && Paired(ms, rs) && forall m <- ms :: Plain(m)
  {
    hide Safe, IsDirectory;
    EmptyFits(ms);
    hide Packed, Expanded, Plain;
    ManifestPlain(ms[2]);
  }

  function Empty(name: string): Record {
    Record(name, 0, Digest([]))
  }

  function EmptyMember(name: string): Member {
    Member(name, false, false, 0, 0, [])
  }

  lemma {:induction false} EmptyFits(ms: seq<Member>)
    requires forall m <- ms :: m.size == 0 && m.packed == 0
    ensures Packed(ms) == 0 && Expanded(ms) == 0
  {
    if ms != [] {
      EmptyFits(ms[..|ms| - 1]);
    }
  }

  lemma OddRecords(odd: string, even: string, leaf: string, rs: seq<Record>)
    requires Parts(odd) == Parts(even) == [ARTIFACTS, leaf]
    requires Plain(EmptyMember(odd)) && Plain(EmptyMember(even))
    requires odd != MANIFEST && even != MANIFEST && odd != ARTIFACTS && even != ARTIFACTS
    requires rs == [Empty(odd), Empty(even)]
    ensures forall r <- rs :: RecordOk(r, None) && !Conflicts(rs, r.path)
  {
    hide *;
    OddConflicts(odd, even, leaf, rs);
    EmptyRecordOk(odd, leaf);
    EmptyRecordOk(even, leaf);
  }

  lemma EmptyRecordOk(name: string, leaf: string)
    requires Parts(name) == [ARTIFACTS, leaf] && Plain(EmptyMember(name)) && name != MANIFEST
    ensures RecordOk(Empty(name), None)
  {
    hide Safe, Parts;
  }

  lemma OddConflicts(odd: string, even: string, leaf: string, rs: seq<Record>)
    requires Parts(odd) == Parts(even) == [ARTIFACTS, leaf]
    requires odd != ARTIFACTS && even != ARTIFACTS && rs == [Empty(odd), Empty(even)]
    ensures forall r <- rs :: r.Record? && r in {Empty(odd), Empty(even)} && !Conflicts(rs, r.path)
  {
    hide Parts;
    assert Path([ARTIFACTS]) == ARTIFACTS;
    forall r, k | r in rs && 1 <= k < |Parts(r.path)|
      ensures !Declares(rs, Path(Parts(r.path)[..k]))
    {
      assert Parts(r.path)[..k] == [ARTIFACTS];
    }
  }

  lemma OddParts(root: string, leaf: string, odd: string, even: string, other: string)
    requires odd == root + ("/" + ("/" + leaf)) && even == root + ("/" + leaf)
    requires IsPart(root) && root != ".." && root[|root| - 1] != ':'
    requires IsPart(leaf) && |leaf| == 1
    requires other != "" && other[0] != root[0]
    ensures Parts(odd) == Parts(even) == [root, leaf] && odd != even
    ensures Plain(EmptyMember(odd)) && Plain(EmptyMember(even)) && odd != other && even != other
    ensures odd != root && even != root
  {
    hide Parts;
    assert "" + ("/" + leaf) == "/" + leaf;
    assert leaf[0] != '/';
    PartsStep(root, "/" + leaf);
    PartsStep(root, leaf);
    PartsStep("", leaf);
    PartsStep(leaf, "");
    OddShape(root, leaf, odd, even);
  }

  lemma OddShape(root: string, leaf: string, odd: string, even: string)
    requires odd == root + ("/" + ("/" + leaf)) && even == root + ("/" + leaf) && |leaf| == 1 && root != ""
    ensures odd[0] == root[0] == even[0] && odd[|odd| - 1] == leaf[0] == even[|even| - 1]
    ensures |odd| == |even| + 1 == |root| + 3
  {
  }
}

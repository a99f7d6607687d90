/** A backup and its restore as one: what was archived is what ends up at the targets. */
module BackupCycle {
  import opened Common
  import B = Bundle
  import N = PathNames
  import R = Restore

  // ---- directory trees ----

  function Heads(t: B.Tree): set<string> {
    set p | p in t && p != [] :: p[0]
  }

  /** The staged directory that holds these files. */
  function NodeOf(t: B.Tree, depth: nat): R.Node
    requires forall p <- t :: |p| <= depth
    decreases depth
  {
    R.Directory(map name | name in Heads(t) ::
      if [name] in t then R.File(t[[name]]) else NodeOf(B.Below(t, name), depth - 1))
  }

  /** The regular file at a relative path, if there is one. */
  function FileIn(node: R.Node, p: seq<string>): Option<B.Bytes>
    decreases |p|
  {
    if p == [] then (if node.File? then Some(node.bytes) else None)
    else if node.Directory? && p[0] in node.members then FileIn(node.members[p[0]], p[1..])
    else None
  }

  function FileOf(t: B.Tree, p: seq<string>): Option<B.Bytes> {
    if p in t then Some(t[p]) else None
  }

  /** The directory holds exactly the files of the tree. */
  ghost predicate HoldsTree(node: R.Node, t: B.Tree) {
    node.Directory? && forall p: seq<string> :: FileIn(node, p) == FileOf(t, p)
  }

  /** No file is unnamed or lies below another one. */
  predicate Sound(t: B.Tree) {
    (forall p <- t :: p != []) && (forall p <- t, q <- t :: p != q ==> B.Apart(p, q))
  }

  lemma BelowIsSound(t: B.Tree, name: string)
    requires Sound(t)
    ensures Sound(B.Below(t, name))
  {
    forall p, q | p in B.Below(t, name) && q in B.Below(t, name) && p != q
      ensures B.Apart(p, q)
    {
      B.InBelow(t, name, p);
      B.InBelow(t, name, q);
      var a, b := [name] + p, [name] + q;
      assert a[1..] == p && b[1..] == q;
      assert B.Apart(a, b);
      PrefixBelow(name, p, q);
      PrefixBelow(name, q, p);
    }
  }

  lemma PrefixBelow(name: string, p: seq<string>, q: seq<string>)
    ensures p <= q ==> [name] + p <= [name] + q
  {
  }

  /** A file stands alone: what goes on behind its name is not in the tree. */
  lemma NothingBelowFiles(t: B.Tree, name: string, rest: seq<string>)
    requires Sound(t) && [name] in t && rest != []
    ensures [name] + rest !in t
  {
    assert [name] <= [name] + rest;
    forall q | q in t
      ensures q != [name] + rest
    {
      if q != [name] {
        assert B.Apart([name], q);
      }
    }
  }

  lemma FileBehind(t: B.Tree, depth: nat, name: string, rest: seq<string>)
    requires forall q <- t :: |q| <= depth
    ensures FileIn(NodeOf(t, depth), [name] + rest) ==
      if name !in Heads(t) then None
      else if [name] in t then FileIn(R.File(t[[name]]), rest)
      else FileIn(NodeOf(B.Below(t, name), depth - 1), rest)
  {
    assert ([name] + rest)[1..] == rest;
  }

  lemma TreeBehind(t: B.Tree, name: string, rest: seq<string>)
    requires Sound(t)
    ensures FileOf(t, [name] + rest) ==
      if name !in Heads(t) then None
      else if [name] in t then FileIn(R.File(t[[name]]), rest)
      else FileOf(B.Below(t, name), rest)
  {
    B.InBelow(t, name, rest);
    hide B.Below, Sound;
    assert ([name] + rest)[0] == name;
    if name in Heads(t) && [name] in t && rest != [] {
      NothingBelowFiles(t, name, rest);
    } else if rest == [] {
      assert [name] + rest == [name];
    }
  }

  lemma BelowFits(t: B.Tree, name: string, depth: nat)
    requires name in Heads(t) && forall q <- t :: |q| <= depth
    ensures depth > 0 && forall q <- B.Below(t, name) :: |q| <= depth - 1
  {
  }

  lemma RootIsNoFile(t: B.Tree, depth: nat)
    requires Sound(t) && forall q <- t :: |q| <= depth
    ensures FileIn(NodeOf(t, depth), []) == FileOf(t, []) == None
  {
  }

  lemma {:induction false} NodeHolds(t: B.Tree, depth: nat, p: seq<string>)
    requires Sound(t) && forall q <- t :: |q| <= depth
    ensures FileIn(NodeOf(t, depth), p) == FileOf(t, p)
    decreases |p|
  {
    hide *;
    if p == [] {
      RootIsNoFile(t, depth);
    } else {
      var name, rest := p[0], p[1..];
      assert p == [name] + rest;
      FileBehind(t, depth, name, rest);
      TreeBehind(t, name, rest);
      if name in Heads(t) && [name] !in t {
        BelowIsSound(t, name);
        BelowFits(t, name, depth);
        NodeHolds(B.Below(t, name), depth - 1, rest);
      }
    }
  }

  lemma NodeHoldsTree(t: B.Tree, depth: nat)
    requires Sound(t) && forall q <- t :: |q| <= depth
    ensures HoldsTree(NodeOf(t, depth), t)
  {
    hide FileIn, FileOf;
    forall p: seq<string>
      ensures FileIn(NodeOf(t, depth), p) == FileOf(t, p)
    {
      NodeHolds(t, depth, p);
    }
  }

  method DepthOf(t: B.Tree) returns (depth: nat)
    ensures forall p <- t :: |p| <= depth
  {
    depth := 0;
    var left := t.Keys;
    while left != {}
      invariant left <= t.Keys
      invariant forall p <- t.Keys - left :: |p| <= depth
    {
      var p :| p in left;
      left := left - {p};
      if |p| > depth {
        depth := |p|;
      }
    }
  }

  // ---- the restore ----

  /** A configured target, with the workspace name the system hands out for it. */
  datatype Place = Place(target: R.Path, workspace: R.Path)

  datatype Places = Places(state: Place, accounts: Option<Place>, artifacts: Option<Place>, logs: Option<Place>)

  function Listed(p: Option<Place>): seq<Place> {
    if p.Some? then [p.value] else []
  }

  function AllPlaces(ps: Places): seq<Place> {
    [ps.state] + Listed(ps.accounts) + Listed(ps.artifacts) + Listed(ps.logs)
  }

  /** Workspace names are new, and apart from each other and from every target. */
  ghost predicate FreshPlaces(fs: map<R.Path, R.Entry>, places: seq<Place>) {
    && (forall w, p :: w in places && p in fs ==> !(w.workspace <= p))
    && (forall v, w :: v in places && w in places ==> !R.Overlap(v.target, w.workspace))
    && (forall i, j :: 0 <= i < |places| && 0 <= j < |places| && i != j ==>
          !R.Overlap(places[i].workspace, places[j].workspace))
  }

  predicate FileInPlace(fs: map<R.Path, R.Entry>, place: Place, content: B.Bytes) {
    R.Content(R.Get(fs, place.target)) == Some(R.File(content))
  }

  ghost predicate TreeInPlace(fs: map<R.Path, R.Entry>, place: Place, t: B.Tree) {
    var node := R.Content(R.Get(fs, place.target));
    node.Some? && HoldsTree(node.value, t)
  }

  /** Each target that is configured and backed up holds what was backed up for it. */
  ghost predicate InPlace(fs: map<R.Path, R.Entry>, ps: Places, src: B.Sources) {
    && FileInPlace(fs, ps.state, src.state)
    && (ps.accounts.Some? && src.accounts.Some? ==> FileInPlace(fs, ps.accounts.value, src.accounts.value))
    && (ps.artifacts.Some? && src.artifacts.Some? ==> TreeInPlace(fs, ps.artifacts.value, src.artifacts.value))
    && (ps.logs.Some? && src.logs.Some? ==> TreeInPlace(fs, ps.logs.value, src.logs.value))
  }

  /** A configured target and what the archive has for it, if anything. */
  datatype Slot = Slot(place: Place, node: Option<R.Node>)

  function SlotFor(place: Option<Place>, node: Option<R.Node>): seq<Slot> {
    if place.Some? then [Slot(place.value, node)] else []
  }

  function Slots(ps: Places, state: R.Node, accounts: Option<R.Node>, artifacts: Option<R.Node>,
                 logs: Option<R.Node>): seq<Slot>
  {
    [Slot(ps.state, Some(state))] + SlotFor(ps.accounts, accounts)
    + SlotFor(ps.artifacts, artifacts) + SlotFor(ps.logs, logs)
  }

  /** The targets something is swapped in at. */
  function Items(slots: seq<Slot>, mode: R.Mode): seq<R.Item> {
    if slots == [] then []
    else
      var n := |slots| - 1;
      Items(slots[..n], mode) + if slots[n].node.Some? then [ItemOf(slots[n], mode)] else []
  }

  function ItemOf(slot: Slot, mode: R.Mode): R.Item
    requires slot.node.Some?
  {
    R.Item(R.Entry(slot.node.value, mode), slot.place.target, slot.place.workspace)
  }

  /** The configured targets the archive has nothing for. */
  function Others(slots: seq<Slot>): seq<R.Path> {
    if slots == [] then []
    else
      var n := |slots| - 1;
      Others(slots[..n]) + if slots[n].node.None? then [slots[n].place.target] else []
  }

  lemma {:induction false} ItemsExactly(slots: seq<Slot>, mode: R.Mode)
    ensures forall item <- Items(slots, mode) ::
      exists j :: 0 <= j < |slots| && slots[j].node.Some? && item == ItemOf(slots[j], mode)
    ensures forall j :: 0 <= j < |slots| && slots[j].node.Some? ==> ItemOf(slots[j], mode) in Items(slots, mode)
  {
    if slots != [] {
      var n := |slots| - 1;
      ItemsExactly(slots[..n], mode);
      forall item | item in Items(slots[..n], mode)
        ensures exists j :: 0 <= j < |slots| && slots[j].node.Some? && item == ItemOf(slots[j], mode)
      {
        var j :| 0 <= j < n && slots[..n][j].node.Some? && item == ItemOf(slots[..n][j], mode);
        assert slots[j] == slots[..n][j];
      }
      forall j | 0 <= j < n && slots[j].node.Some?
        ensures ItemOf(slots[j], mode) in Items(slots, mode)
      {
        assert slots[..n][j] == slots[j];
      }
    }
  }

  /** The configured targets, in the order the overlap check takes them. */
  function PlacesOf(slots: seq<Slot>): (r: seq<Place>)
    ensures |r| == |slots| && forall i :: 0 <= i < |slots| ==> r[i] == slots[i].place
  {
    seq(|slots|, i requires 0 <= i < |slots| => slots[i].place)
  }

  lemma {:induction false} FreshItems(fs: map<R.Path, R.Entry>, slots: seq<Slot>, mode: R.Mode)
    requires FreshPlaces(fs, PlacesOf(slots))
    ensures R.FreshWorkspaces(fs, Items(slots, mode))
  {
    hide *;
    if slots == [] {
      NoItems(fs, mode);
    } else {
      var n := |slots| - 1;
      FewerPlaces(fs, slots);
      FreshItems(fs, slots[..n], mode);
      if slots[n].node.Some? {
        OneMoreFresh(fs, slots, mode);
      } else {
        OneMoreMissing(slots, mode);
      }
    }
  }

  lemma NoItems(fs: map<R.Path, R.Entry>, mode: R.Mode)
    ensures R.FreshWorkspaces(fs, Items([], mode))
  {
  }

  lemma OneMoreMissing(slots: seq<Slot>, mode: R.Mode)
    requires slots != [] && slots[|slots| - 1].node.None?
    ensures Items(slots, mode) == Items(slots[..|slots| - 1], mode)
  {
  }

  lemma FewerPlaces(fs: map<R.Path, R.Entry>, slots: seq<Slot>)
    requires slots != [] && FreshPlaces(fs, PlacesOf(slots))
    ensures FreshPlaces(fs, PlacesOf(slots[..|slots| - 1]))
  {
    hide R.Overlap;
    var all, fewer := PlacesOf(slots), PlacesOf(slots[..|slots| - 1]);
    assert fewer == all[..|slots| - 1];
    assert forall w <- fewer :: w in all;
  }

  lemma OneMoreFresh(fs: map<R.Path, R.Entry>, slots: seq<Slot>, mode: R.Mode)
    requires slots != [] && slots[|slots| - 1].node.Some? && FreshPlaces(fs, PlacesOf(slots))
    requires R.FreshWorkspaces(fs, Items(slots[..|slots| - 1], mode))
    ensures R.FreshWorkspaces(fs, Items(slots, mode))
  {
    hide R.Overlap;
    var n, places := |slots| - 1, PlacesOf(slots);
    var front, last := Items(slots[..n], mode), ItemOf(slots[n], mode);
    ItemsExactly(slots[..n], mode);
    assert places[n] in places;
    forall i | 0 <= i < |front|
      ensures !R.Overlap(front[i].target, last.workspace) && !R.Overlap(last.target, front[i].workspace)
      ensures !R.Overlap(front[i].workspace, last.workspace) && !R.Overlap(last.workspace, front[i].workspace)
    {
      assert front[i] in front;
      var j :| 0 <= j < n && slots[..n][j].node.Some? && front[i] == ItemOf(slots[..n][j], mode);
      assert places[j] == slots[..n][j].place && places[j] in places;
    }
  }

  /** Where something stands already, it is of the kind that is restored there. */
  predicate KindsFit(fs: map<R.Path, R.Entry>, ps: Places) {
    && FitsKind(fs, Some(ps.state), false) && FitsKind(fs, ps.accounts, false)
    && FitsKind(fs, ps.artifacts, true) && FitsKind(fs, ps.logs, true)
  }

  predicate FitsKind(fs: map<R.Path, R.Entry>, place: Option<Place>, directory: bool) {
    place.Some? && place.value.target in fs ==> fs[place.value.target].node.Directory? == directory
  }

  function Configured(ps: Places): (r: seq<R.Path>)
    ensures |r| == |AllPlaces(ps)| && forall i :: 0 <= i < |r| ==> r[i] == AllPlaces(ps)[i].target
  {
    seq(|AllPlaces(ps)|, i requires 0 <= i < |AllPlaces(ps)| => AllPlaces(ps)[i].target)
  }

  /** The configured targets overlap. */
  predicate PathsClash(ps: Places) {
    R.PathsOverlap(Configured(ps))
  }

  lemma ItemsFit(fs: map<R.Path, R.Entry>, ps: Places, state: R.Node, accounts: Option<R.Node>,
                 artifacts: Option<R.Node>, logs: Option<R.Node>, mode: R.Mode)
    requires state.File? && (accounts.Some? ==> accounts.value.File?)
    requires (artifacts.Some? ==> artifacts.value.Directory?) && (logs.Some? ==> logs.value.Directory?)
    ensures KindsFit(fs, ps) ==> forall i ::
      0 <= i < |Items(Slots(ps, state, accounts, artifacts, logs), mode)| ==>
        !R.Mismatch(fs, Items(Slots(ps, state, accounts, artifacts, logs), mode)[i])
  {
    hide Items;
    var slots := Slots(ps, state, accounts, artifacts, logs);
    ItemsExactly(slots, mode);
    if KindsFit(fs, ps) {
      forall i | 0 <= i < |Items(slots, mode)|
        ensures !R.Mismatch(fs, Items(slots, mode)[i])
      {
        assert Items(slots, mode)[i] in Items(slots, mode);
        var j :| 0 <= j < |slots| && slots[j].node.Some? && Items(slots, mode)[i] == ItemOf(slots[j], mode);
        assert slots[j] in slots;
      }
    }
  }

  /** The paths of the overlap check, each with its place among the configured ones. */
  lemma {:induction false} CheckedPaths(slots: seq<Slot>, mode: R.Mode)
    ensures multiset(R.Targets(Items(slots, mode)) + Others(slots)) == multiset(Ways(slots))
  {
    if slots != [] {
      var n := |slots| - 1;
      CheckedPaths(slots[..n], mode);
      OneMoreChecked(slots, mode);
    }
  }

  function Ways(slots: seq<Slot>): (r: seq<R.Path>)
    ensures |r| == |slots| && forall i :: 0 <= i < |slots| ==> r[i] == slots[i].place.target
  {
    seq(|slots|, i requires 0 <= i < |slots| => slots[i].place.target)
  }

  lemma OneMoreChecked(slots: seq<Slot>, mode: R.Mode)
    requires slots != []
    requires var front := slots[..|slots| - 1];
      multiset(R.Targets(Items(front, mode)) + Others(front)) == multiset(Ways(front))
    ensures multiset(R.Targets(Items(slots, mode)) + Others(slots)) == multiset(Ways(slots))
  {
    var n := |slots| - 1;
    var front, last := slots[..n], slots[n].place.target;
    var items, others := R.Targets(Items(front, mode)), Others(front);
    assert Ways(slots) == Ways(front) + [last];
    if slots[n].node.Some? {
      assert R.Targets(Items(slots, mode)) == items + [last];
      assert Others(slots) == others;
    } else {
      assert R.Targets(Items(slots, mode)) == items;
      assert Others(slots) == others + [last];
    }
    hide Items, Others, R.Targets, Ways;
    AddOne(items, others, last);
  }

  lemma AddOne(a: seq<R.Path>, b: seq<R.Path>, x: R.Path)
    ensures multiset((a + [x]) + b) == multiset(a + b) + multiset{x}
    ensures multiset(a + (b + [x])) == multiset(a + b) + multiset{x}
  {
    assert a + (b + [x]) == (a + b) + [x];
  }

  /** Two places of one order and of another: overlapping is a matter of the paths alone. */
  lemma OverlapUnordered(a: seq<R.Path>, b: seq<R.Path>)
    requires multiset(a) == multiset(b) && R.PathsOverlap(a)
    ensures R.PathsOverlap(b)
  {
    hide R.Overlap;
    var i, j :| 0 <= i < j < |a| && R.Overlap(a[i], a[j]);
    var x, y := a[i], a[j];
    OverlapSymmetric(x, y);
    assert a == a[..i] + [x] + a[i + 1..j] + [y] + a[j + 1..];
    assert x in multiset(b) && y in multiset(b);
    if x != y {
      var k :| 0 <= k < |b| && b[k] == x;
      var l :| 0 <= l < |b| && b[l] == y;
      assert R.Overlap(b[if k < l then k else l], b[if k < l then l else k]);
    } else {
      assert multiset(b)[x] >= 2;
      var k, l := Twice(b, x);
      assert R.Overlap(b[k], b[l]);
    }
  }

  lemma OverlapSymmetric(a: R.Path, b: R.Path)
    ensures R.Overlap(a, b) <==> R.Overlap(b, a)
  {
  }

  lemma Twice(b: seq<R.Path>, x: R.Path) returns (k: nat, l: nat)
    requires multiset(b)[x] >= 2
    ensures k < l < |b| && b[k] == x == b[l]
  {
    k :| 0 <= k < |b| && b[k] == x;
    assert b == b[..k] + [x] + b[k + 1..];
    assert multiset(b[..k])[x] + multiset(b[k + 1..])[x] >= 1;
    if x in b[k + 1..] {
      var j :| 0 <= j < |b[k + 1..]| && b[k + 1..][j] == x;
      l := k + 1 + j;
    } else {
      var j :| 0 <= j < |b[..k]| && b[..k][j] == x;
      k, l := j, k;
    }
  }

  lemma ClashOfAll(ps: Places, slots: seq<Slot>, mode: R.Mode)
    requires PlacesOf(slots) == AllPlaces(ps)
    ensures R.PathsOverlap(R.Targets(Items(slots, mode)) + Others(slots)) <==> PathsClash(ps)
  {
    hide Items, Others, R.PathsOverlap, R.Targets;
    CheckedPaths(slots, mode);
    assert Ways(slots) == Configured(ps);
    if R.PathsOverlap(R.Targets(Items(slots, mode)) + Others(slots)) {
      OverlapUnordered(R.Targets(Items(slots, mode)) + Others(slots), Ways(slots));
    }
    if R.PathsOverlap(Ways(slots)) {
      OverlapUnordered(Ways(slots), R.Targets(Items(slots, mode)) + Others(slots));
    }
  }

  lemma TakenItems(fs: map<R.Path, R.Entry>, items: seq<R.Item>)
    ensures AnyTaken(fs, items) <==> exists i :: 0 <= i < |items| && items[i].target in fs
  {
  }

  predicate Taken(fs: map<R.Path, R.Entry>, place: Option<Place>, backedUp: bool) {
    place.Some? && backedUp && place.value.target in fs
  }

  /** Something stands where a backed-up part would go. */
  predicate Occupied(fs: map<R.Path, R.Entry>, ps: Places, src: B.Sources) {
    || Taken(fs, Some(ps.state), true) || Taken(fs, ps.accounts, src.accounts.Some?)
    || Taken(fs, ps.artifacts, src.artifacts.Some?) || Taken(fs, ps.logs, src.logs.Some?)
  }

  predicate AnyTaken(fs: map<R.Path, R.Entry>, items: seq<R.Item>) {
    exists i :: 0 <= i < |items| && items[i].target in fs
  }

  lemma TakenSlots(fs: map<R.Path, R.Entry>, slots: seq<Slot>, mode: R.Mode)
    ensures AnyTaken(fs, Items(slots, mode)) <==> exists slot <- slots :: slot.node.Some? && slot.place.target in fs
  {
    hide Items;
    ItemsExactly(slots, mode);
    if i :| 0 <= i < |Items(slots, mode)| && Items(slots, mode)[i].target in fs {
      assert Items(slots, mode)[i] in Items(slots, mode);
      var j :| 0 <= j < |slots| && slots[j].node.Some? && Items(slots, mode)[i] == ItemOf(slots[j], mode);
      assert slots[j] in slots;
    }
    if slot :| slot in slots && slot.node.Some? && slot.place.target in fs {
      var j :| 0 <= j < |slots| && slots[j] == slot;
      assert ItemOf(slots[j], mode) in Items(slots, mode);
    }
  }

  lemma OccupiedSlots(fs: map<R.Path, R.Entry>, ps: Places, src: B.Sources, state: R.Node, accounts: Option<R.Node>,
                      artifacts: Option<R.Node>, logs: Option<R.Node>)
    requires accounts.Some? == src.accounts.Some?
    requires artifacts.Some? == src.artifacts.Some? && logs.Some? == src.logs.Some?
    ensures Occupied(fs, ps, src) <==>
      exists slot <- Slots(ps, state, accounts, artifacts, logs) :: slot.node.Some? && slot.place.target in fs
  {
    var slots := Slots(ps, state, accounts, artifacts, logs);
    assert Slot(ps.state, Some(state)) in slots;
    assert ps.accounts.Some? ==> Slot(ps.accounts.value, accounts) in slots;
    assert ps.artifacts.Some? ==> Slot(ps.artifacts.value, artifacts) in slots;
    assert ps.logs.Some? ==> Slot(ps.logs.value, logs) in slots;
  }

  /** A path that is no target and in no workspace. */
  predicate Elsewhere(ps: Places, p: R.Path) {
    forall place <- AllPlaces(ps) :: place.target != p && !(place.workspace <= p)
  }

  lemma ItemsElsewhere(ps: Places, slots: seq<Slot>, mode: R.Mode, p: R.Path)
    requires PlacesOf(slots) == AllPlaces(ps) && Elsewhere(ps, p)
    ensures forall i ::
      0 <= i < |Items(slots, mode)| ==>
        Items(slots, mode)[i].target != p && !(Items(slots, mode)[i].workspace <= p)
  {
    hide Items, AllPlaces;
    ItemsExactly(slots, mode);
    forall i | 0 <= i < |Items(slots, mode)|
      ensures Items(slots, mode)[i].target != p && !(Items(slots, mode)[i].workspace <= p)
    {
      assert Items(slots, mode)[i] in Items(slots, mode);
      var j :| 0 <= j < |slots| && slots[j].node.Some? && Items(slots, mode)[i] == ItemOf(slots[j], mode);
      assert PlacesOf(slots)[j] in AllPlaces(ps);
    }
  }

  method StagedTree(t: Option<B.Tree>) returns (node: Option<R.Node>)
    ensures node.Some? <==> t.Some?
    ensures t.Some? && Sound(t.value) ==> HoldsTree(node.value, t.value)
    ensures t.Some? ==> node.value.Directory?
  {
    if t.None? { return None; }
    var depth := DepthOf(t.value);
    if Sound(t.value) {
      NodeHoldsTree(t.value, depth);
    }
    node := Some(NodeOf(t.value, depth));
  }

  // ---- what an accepted archive yields ----

  predicate SoundSources(src: B.Sources) {
    && (src.artifacts.Some? ==> Sound(src.artifacts.value))
    && (src.logs.Some? ==> Sound(src.logs.value))
  }

  /** The files of an accepted archive make proper trees, whoever wrote it. */
  lemma YieldsSound(a: B.Archive, src: B.Sources)
    requires B.Acceptable(a) && B.Unpackable(a.manifest.files.value) && B.Yields(a, src)
    ensures SoundSources(src)
  {
    hide B.StageOf, N.Parts, B.Apart;
    NamedApart(a);
    if src.artifacts.Some? {
      TreeSound(a.manifest.files.value, src, B.ARTIFACTS, src.artifacts.value);
    }
    if src.logs.Some? {
      TreeSound(a.manifest.files.value, src, B.LOGS, src.logs.value);
    }
  }

  /** The parts of some record's path. */
  predicate Named(rs: seq<B.Record>, p: seq<string>) {
    exists r <- rs :: r.Record? && N.Parts(r.path) == p
  }

  ghost predicate NamesApart(rs: seq<B.Record>) {
    && (forall p, q :: Named(rs, p) && Named(rs, q) && p != q ==> B.Apart(p, q))
    && (forall root | root in {B.ARTIFACTS, B.LOGS} :: !Named(rs, [root]))
  }

  lemma NamedApart(a: B.Archive)
    requires B.Acceptable(a) && B.Unpackable(a.manifest.files.value)
    ensures NamesApart(a.manifest.files.value)
  {
    hide B.WithinLimits, B.DistinctNames, B.Plain, B.DistinctPaths, B.Conflicts, B.Safe, N.Parts, B.Declares, B.NameIn;
    var rs := a.manifest.files.value;
    forall p, q | Named(rs, p) && Named(rs, q) && p != q
      ensures B.Apart(p, q)
    {
      var i :| 0 <= i < |rs| && N.Parts(rs[i].path) == p;
      var j :| 0 <= j < |rs| && N.Parts(rs[j].path) == q;
      assert B.Apart(p, q) <== i < j;
    }
    forall root | root in {B.ARTIFACTS, B.LOGS}
      ensures !Named(rs, [root])
    {
      B.LiteralsDiffer();
      forall r | r in rs
        ensures N.Parts(r.path) != [root]
      {
        assert B.RecordOk(r, a.manifest.roots);
        RootIsNoName(r, root);
      }
    }
  }

  lemma RootIsNoName(r: B.Record, root: string)
    requires r.Record? && B.Supported(r.path) && root in {B.ARTIFACTS, B.LOGS}
    ensures N.Parts(r.path) != [root]
  {
    B.LiteralsDiffer();
    N.PartsOfPath([B.STATE]);
    N.PartsOfPath([B.ACCOUNTS]);
    B.LiteralEnds();
  }

  lemma TreeSound(rs: seq<B.Record>, src: B.Sources, root: string, t: B.Tree)
    requires forall p <- B.StageOf(src) :: Named(rs, p)
    requires NamesApart(rs) && root in {B.ARTIFACTS, B.LOGS}
    requires Some(t) == if root == B.ARTIFACTS then src.artifacts else src.logs
    ensures Sound(t)
  {
    hide Named, B.StageOf, B.Apart;
    forall p | p in t
      ensures Named(rs, [root] + p) && p != []
    {
      InStage(src, root, t, p);
      assert [root] + [] == [root];
    }
    forall p, q | p in t && q in t && p != q
      ensures B.Apart(p, q)
    {
      assert ([root] + p)[1..] == p && ([root] + q)[1..] == q;
      ApartBelow(root, p, q);
    }
  }

  lemma ApartBelow(root: string, p: seq<string>, q: seq<string>)
    requires B.Apart([root] + p, [root] + q)
    ensures B.Apart(p, q)
  {
    PrefixBelow(root, p, q);
    PrefixBelow(root, q, p);
  }

  lemma InStage(src: B.Sources, root: string, t: B.Tree, p: seq<string>)
    requires root in {B.ARTIFACTS, B.LOGS} && p in t
    requires Some(t) == if root == B.ARTIFACTS then src.artifacts else src.logs
    ensures [root] + p in B.StageOf(src)
  {
    B.LiteralsDiffer();
    B.InUnder(root, Some(t), [root] + p);
    assert ([root] + p)[1..] == p;
  }

  /** Everything the archive holds for a configured target is there, as long and with the digest as
      its manifest says. */
  ghost predicate Recovered(a: B.Archive, fs: map<R.Path, R.Entry>, ps: Places) {
    && a.manifest.Manifest? && a.manifest.files.Some?
    && exists src :: B.Yields(a, src) && AllDeclared(a, src) && InPlace(fs, ps, src)
  }

  predicate AllDeclared(a: B.Archive, src: B.Sources)
    requires a.manifest.Manifest? && a.manifest.files.Some?
  {
    forall r <- a.manifest.files.value :: r.Record? && B.AsDeclared(r, B.FileAt(src, N.Parts(r.path)))
  }

  lemma RecoveredBy(a: B.Archive, fs: map<R.Path, R.Entry>, ps: Places, src: B.Sources)
    requires B.Acceptable(a) && B.Yields(a, src) && InPlace(fs, ps, src)
    ensures Recovered(a, fs, ps)
  {
    B.YieldsDeclared(a, src);
    hide InPlace, B.Yields, B.AsDeclared, B.FileAt;
  }

  // ---- what a failed restore leaves ----

  /** Every configured target is as it was, but for one read-only one that may have become writable. */
  ghost predicate PlacesAsBefore(fs0: map<R.Path, R.Entry>, fs: map<R.Path, R.Entry>, ps: Places, neverLate: bool) {
    exists late: Option<R.Path> :: (neverLate ==> late == None) && AllBut(fs0, fs, ps, late)
  }

  predicate AllBut(fs0: map<R.Path, R.Entry>, fs: map<R.Path, R.Entry>, ps: Places, late: Option<R.Path>) {
    forall place <- AllPlaces(ps) ::
      var was, now := R.Get(fs0, place.target), R.Get(fs, place.target);
      || now == was
      || (late == Some(place.target) && was.Some? && !was.value.mode.writable && R.Content(now) == R.Content(was))
  }

  /** What stood at a configured target is there or in the target's workspace. */
  predicate OriginalsSurvive(fs0: map<R.Path, R.Entry>, fs: map<R.Path, R.Entry>, ps: Places) {
    forall place <- AllPlaces(ps) :: place.target in fs0 ==>
      Some(fs0[place.target].node)
      in {R.Content(R.Get(fs, place.target)), R.Content(R.Get(fs, place.workspace + ["rollback"]))}
  }

  /** The item swaps at this place. */
  predicate ItemAt(items: seq<R.Item>, i: int, place: Place) {
    0 <= i < |items| && items[i].target == place.target && items[i].workspace == place.workspace
  }

  /** No item touches this path. */
  predicate Untouched(items: seq<R.Item>, p: R.Path) {
    forall i :: 0 <= i < |items| ==> items[i].target != p && !(items[i].workspace <= p)
  }

  lemma PlaceOrItem(fs0: map<R.Path, R.Entry>, ps: Places, slots: seq<Slot>, mode: R.Mode, place: Place)
    requires PlacesOf(slots) == AllPlaces(ps) && FreshPlaces(fs0, AllPlaces(ps)) && !PathsClash(ps)
    requires place in AllPlaces(ps)
    ensures (exists i :: ItemAt(Items(slots, mode), i, place)) || Untouched(Items(slots, mode), place.target)
  {
    hide Items, AllPlaces;
    ItemsExactly(slots, mode);
    var items, places := Items(slots, mode), AllPlaces(ps);
    var j :| 0 <= j < |places| && places[j] == place;
    if slots[j].node.Some? {
      assert ItemOf(slots[j], mode) in items;
      var i :| 0 <= i < |items| && items[i] == ItemOf(slots[j], mode);
      assert ItemAt(items, i, place);
    } else {
      forall i | 0 <= i < |items|
        ensures items[i].target != place.target && !(items[i].workspace <= place.target)
      {
        assert items[i] in items;
        var k :| 0 <= k < |slots| && slots[k].node.Some? && items[i] == ItemOf(slots[k], mode);
        assert places[k] in places;
        NoClash(ps, if j < k then j else k, if j < k then k else j);
      }
    }
  }

  lemma NoClash(ps: Places, i: int, j: int)
    requires !PathsClash(ps) && 0 <= i < j < |AllPlaces(ps)|
    ensures AllPlaces(ps)[i].target != AllPlaces(ps)[j].target
  {
    assert !R.Overlap(Configured(ps)[i], Configured(ps)[j]);
  }

  lemma PlacesUnchanged(fs0: map<R.Path, R.Entry>, fs: map<R.Path, R.Entry>, ps: Places, slots: seq<Slot>,
                        mode: R.Mode, neverLate: bool)
    requires PlacesOf(slots) == AllPlaces(ps) && FreshPlaces(fs0, AllPlaces(ps)) && !PathsClash(ps)
    requires R.AllAsBefore(fs0, fs, Items(slots, mode), neverLate)
    requires forall p :: Untouched(Items(slots, mode), p) ==> R.Get(fs, p) == R.Get(fs0, p)
    ensures PlacesAsBefore(fs0, fs, ps, neverLate)
  {
    hide Items, AllPlaces, FreshPlaces, PathsClash, R.Get, R.Content, Untouched;
    var items := Items(slots, mode);
    var f: int :| R.AllButOne(fs0, fs, items, f) && (neverLate ==> f == -1);
    var late := if 0 <= f < |items| then Some(items[f].target) else None;
    forall place | place in AllPlaces(ps)
      ensures var was, now := R.Get(fs0, place.target), R.Get(fs, place.target);
              || now == was
              || (late == Some(place.target) && was.Some? && !was.value.mode.writable
                  && R.Content(now) == R.Content(was))
    {
      PlaceOrItem(fs0, ps, slots, mode, place);
    }
    assert AllBut(fs0, fs, ps, late);
  }

  lemma PlacesKept(fs0: map<R.Path, R.Entry>, fs: map<R.Path, R.Entry>, ps: Places, slots: seq<Slot>, mode: R.Mode)
    requires PlacesOf(slots) == AllPlaces(ps) && FreshPlaces(fs0, AllPlaces(ps)) && !PathsClash(ps)
    requires forall i :: 0 <= i < |Items(slots, mode)| ==> R.OriginalSurvives(fs0, fs, Items(slots, mode)[i])
    requires forall p :: Untouched(Items(slots, mode), p) ==> R.Get(fs, p) == R.Get(fs0, p)
    ensures OriginalsSurvive(fs0, fs, ps)
  {
    hide Items, AllPlaces, FreshPlaces, PathsClash, Untouched;
    forall place | place in AllPlaces(ps)
      ensures place.target in fs0 ==>
        Some(fs0[place.target].node)
        in {R.Content(R.Get(fs, place.target)), R.Content(R.Get(fs, place.workspace + ["rollback"]))}
    {
      PlaceOrItem(fs0, ps, slots, mode, place);
      if i :| ItemAt(Items(slots, mode), i, place) {
        assert R.OriginalSurvives(fs0, fs, Items(slots, mode)[i]);
      }
    }
  }

  /** `restore_backup`: accept and unpack the archive, stage its contents, and swap them in. */
  method RestoreBackup(a: B.Archive, disk: R.Disk, ps: Places, mode: R.Mode, overwrite: bool)
    returns (r: Option<R.RestoreResult>)
    requires FreshPlaces(disk.fs, AllPlaces(ps))
    modifies disk
    ensures PathsClash(ps) ==> r == Some(R.Rejected)
    ensures !PathsClash(ps) ==> (r.None? <==> !(B.Acceptable(a) && B.Unpackable(a.manifest.files.value)))
    ensures r in {None, Some(R.Rejected)} ==> disk.fs == old(disk.fs)
    // a backup is refused only for where it would go; a restore that returns leaves every
    // backed-up byte at its target, and no other file in the roots
    ensures forall src ::
      B.RealSources(src) && B.IsBackup(a, src) && B.WithinLimits(a.members) ==>
        && r.Some?
        && (r == Some(R.Rejected) <==> PathsClash(ps) || (!overwrite && Occupied(old(disk.fs), ps, src)))
        && (r == Some(R.Restored) ==> InPlace(disk.fs, ps, src))
    // and it does return when nothing fails and what stands at the targets is of the right kind
    ensures R.Faultless(disk.faults) && KindsFit(old(disk.fs), ps) && r.Some? ==> r.value in {R.Restored, R.Rejected}
    // whatever the archive: all of it is in place, or nothing changed, or every original is still there
    ensures r == Some(R.Restored) ==> Recovered(a, disk.fs, ps)
    // under the manifest of a backup nothing but that backup is ever restored
    ensures r == Some(R.Restored) ==> forall src, written ::
      B.RealSources(src) && B.IsBackup(written, src) && a.manifest == written.manifest ==> InPlace(disk.fs, ps, src)
    ensures r == Some(R.Unchanged) ==> PlacesAsBefore(old(disk.fs), disk.fs, ps, R.NeverLate(disk.faults))
    ensures r == Some(R.Kept) ==> OriginalsSurvive(old(disk.fs), disk.fs, ps)
    ensures forall p :: Elsewhere(ps, p) ==> R.Get(disk.fs, p) == R.Get(old(disk.fs), p)
  {
    hide B.Acceptable, B.Unpackable, B.RealSources, B.IsBackup, B.WithinLimits, B.Yields, InPlace, Items, Others;
    hide KindsFit, PathsClash, Occupied, R.PathsOverlap, R.Faultless, R.AllAsBefore, Elsewhere;
    hide B.AsDeclared, B.FileAt, Recovered, PlacesAsBefore, OriginalsSurvive, SoundSources, R.OriginalSurvives;
    hide R.Mismatch, R.NeverLate, AnyTaken, FreshPlaces, R.FreshWorkspaces, AllPlaces, R.Get, Sound, HoldsTree;
    if PathsClash(ps) { return Some(R.Rejected); }
    var out := B.Open(a);
    if out.None? { return None; }
    var src := out.value;
    var artifacts := StagedTree(src.artifacts);
    var logs := StagedTree(src.logs);
    var accounts := if src.accounts.Some? then Some(R.File(src.accounts.value)) else None;
    var slots := Slots(ps, R.File(src.state), accounts, artifacts, logs);
    ghost var fs0 := disk.fs;
    SlotPlaces(ps, R.File(src.state), accounts, artifacts, logs);
    FreshItems(fs0, slots, mode);
    ItemsFit(fs0, ps, R.File(src.state), accounts, artifacts, logs, mode);
    ClashOfAll(ps, slots, mode);
    TakenSlots(fs0, slots, mode);
    OccupiedSlots(fs0, ps, src, R.File(src.state), accounts, artifacts, logs);
    TakenItems(fs0, Items(slots, mode));
    var result := disk.RestoreAll(Items(slots, mode), Others(slots), overwrite);
    YieldsSound(a, src);
    if result == R.Restored {
      PutInPlace(disk.fs, ps, src, accounts, artifacts, logs, mode);
      RecoveredBy(a, disk.fs, ps, src);
    } else if result == R.Unchanged {
      PlacesUnchanged(fs0, disk.fs, ps, slots, mode, R.NeverLate(disk.faults));
    } else if result == R.Kept {
      PlacesKept(fs0, disk.fs, ps, slots, mode);
    }
    forall p | Elsewhere(ps, p)
      ensures R.Get(disk.fs, p) == R.Get(fs0, p)
    {
      ItemsElsewhere(ps, slots, mode, p);
    }
    return Some(result);
  }

  lemma SlotPlaces(ps: Places, state: R.Node, accounts: Option<R.Node>, artifacts: Option<R.Node>, logs: Option<R.Node>)
    ensures PlacesOf(Slots(ps, state, accounts, artifacts, logs)) == AllPlaces(ps)
  {
  }

  /** An item that was swapped in has its node at its target. */
  lemma SlotInPlace(fs: map<R.Path, R.Entry>, slots: seq<Slot>, mode: R.Mode, slot: Slot)
    requires slot in slots && slot.node.Some?
    requires forall i :: 0 <= i < |Items(slots, mode)| ==>
      R.Content(R.Get(fs, Items(slots, mode)[i].target)) == Some(Items(slots, mode)[i].staged.node)
    ensures R.Content(R.Get(fs, slot.place.target)) == slot.node
  {
    ItemsExactly(slots, mode);
    var j :| 0 <= j < |slots| && slots[j] == slot;
    assert ItemOf(slots[j], mode) in Items(slots, mode);
  }

  lemma PutInPlace(fs: map<R.Path, R.Entry>, ps: Places, src: B.Sources, accounts: Option<R.Node>,
                   artifacts: Option<R.Node>, logs: Option<R.Node>, mode: R.Mode)
    requires SoundSources(src)
    requires accounts == if src.accounts.Some? then Some(R.File(src.accounts.value)) else None
    requires artifacts.Some? == src.artifacts.Some? && logs.Some? == src.logs.Some?
    requires src.artifacts.Some? && Sound(src.artifacts.value) ==> HoldsTree(artifacts.value, src.artifacts.value)
    requires src.logs.Some? && Sound(src.logs.value) ==> HoldsTree(logs.value, src.logs.value)
    requires var items := Items(Slots(ps, R.File(src.state), accounts, artifacts, logs), mode);
      forall i :: 0 <= i < |items| ==> R.Content(R.Get(fs, items[i].target)) == Some(items[i].staged.node)
    ensures InPlace(fs, ps, src)
  {
    hide Items, HoldsTree, R.Get, R.Content, Sound;
    var slots := Slots(ps, R.File(src.state), accounts, artifacts, logs);
    SlotInPlace(fs, slots, mode, Slot(ps.state, Some(R.File(src.state))));
    if ps.accounts.Some? && src.accounts.Some? {
      SlotInPlace(fs, slots, mode, Slot(ps.accounts.value, accounts));
    }
    if ps.artifacts.Some? && src.artifacts.Some? {
      SlotInPlace(fs, slots, mode, Slot(ps.artifacts.value, artifacts));
    }
    if ps.logs.Some? && src.logs.Some? {
      SlotInPlace(fs, slots, mode, Slot(ps.logs.value, logs));
    }
  }
}

/** The transactional restore: several targets are swapped in by rename, and
    a failure anywhere is undone in reverse order. */
module Restore {
  import opened Common

  type Path = seq<string>

  datatype Node = File(bytes: seq<int>) | Directory(members: map<string, Node>)

  datatype Mode = Mode(writable: bool, rest: nat)

  /** What a directory entry refers to; a directory moves with all its members. */
  datatype Entry = Entry(node: Node, mode: Mode)

  function MadeWritable(e: Entry): Entry {
    e.(mode := e.mode.(writable := true))
  }

  /** How one file-system call ends: it works, it raises at once, or (for a
      rename) it raises after the preparatory chmod went through. */
  datatype Fault = Works | Refuses | RefusesAfterChmod

  predicate Overlap(a: Path, b: Path) {
    a <= b || b <= a
  }

  /** A prepared swap. The workspace is a fresh sibling directory. */
  datatype Swap = Swap(target: Path, workspace: Path, hadTarget: bool, originalMode: Option<Mode>) {
    function Replacement(): Path { workspace + ["replacement"] }
    function Rollback(): Path { workspace + ["rollback"] }
    function Displaced(): Path { workspace + ["displaced"] }

    ghost predicate WellFormed() {
      !Overlap(target, workspace) && (hadTarget <==> originalMode.Some?)
    }

    /** The paths a swap may touch. */
    predicate Owns(p: Path) {
      p == target || workspace <= p
    }

    lemma SlotsDiffer()
      requires WellFormed()
      ensures target != Replacement() && target != Rollback() && target != Displaced()
      ensures Replacement() != Rollback() && Replacement() != Displaced() && Rollback() != Displaced()
      ensures Owns(Replacement()) && Owns(Rollback()) && Owns(Displaced())
    {
      assert Replacement()[|workspace|] == "replacement";
      assert Rollback()[|workspace|] == "rollback";
      assert Displaced()[|workspace|] == "displaced";
    }
  }

  function Get(fs: map<Path, Entry>, p: Path): Option<Entry> {
    if p in fs then Some(fs[p]) else None
  }

  function Content(e: Option<Entry>): Option<Node> {
    if e.Some? then Some(e.value.node) else None
  }

  /** The four places of one swap. */
  datatype View = View(target: Option<Entry>, replacement: Option<Entry>,
                       rollback: Option<Entry>, displaced: Option<Entry>)

  function Look(fs: map<Path, Entry>, s: Swap): View {
    View(Get(fs, s.target), Get(fs, s.Replacement()), Get(fs, s.Rollback()), Get(fs, s.Displaced()))
  }

  predicate Ready(v: View) {
    v.replacement.Some? && v.rollback.None? && v.displaced.None?
  }

  predicate IsInstalled(v0: View, v: View, s: Swap) {
    && (v0.target.Some? <==> s.hadTarget)
    && v.target.Some? && Content(v.target) == Content(v0.replacement)
    && v.replacement.None? && v.displaced.None? && Content(v.rollback) == Content(v0.target)
  }

  /** Present or absent, and with the same content, as before. */
  predicate TargetAsBefore(v0: View, v: View) {
    Content(v.target) == Content(v0.target)
  }

  /** The original survives at its place or in the workspace, and so does the replacement. */
  predicate NothingLost(v0: View, v: View) {
    && (v0.target.Some? ==> Content(v.target) == Content(v0.target) || Content(v.rollback) == Content(v0.target))
    && Content(v0.replacement) in {Content(v.target), Content(v.replacement), Content(v.displaced)}
  }

  /** Preparation recorded the mode the target really has. */
  predicate ModeRecorded(v0: View, s: Swap) {
    v0.target.Some? ==> s.originalMode == Some(v0.target.value.mode)
  }

  ghost predicate SwapFor(s: Swap, item: Item, fs: map<Path, Entry>) {
    && s.target == item.target && s.workspace == item.workspace && s.WellFormed()
    && Ready(Look(fs, s)) && Get(fs, s.Replacement()) == Some(item.staged)
    && (s.hadTarget <==> s.target in fs) && ModeRecorded(Look(fs, s), s)
  }

  lemma PrefixesCompare(a: Path, b: Path, p: Path)
    requires a <= p && b <= p
    ensures Overlap(a, b)
  {
  }

  /** Preparing one item leaves an earlier prepared swap alone. */
  lemma SwapForStays(s: Swap, item: Item, other: Item, fs0: map<Path, Entry>, fs: map<Path, Entry>)
    requires SwapFor(s, item, fs0)
    requires !Overlap(item.workspace, other.workspace) && !Overlap(item.target, other.workspace)
    requires forall p :: Get(fs, p) == Get(fs0, p) || other.workspace <= p
    ensures SwapFor(s, item, fs)
  {
    s.SlotsDiffer();
    if other.workspace <= s.Replacement() { PrefixesCompare(s.workspace, other.workspace, s.Replacement()); }
    if other.workspace <= s.Rollback() { PrefixesCompare(s.workspace, other.workspace, s.Rollback()); }
    if other.workspace <= s.Displaced() { PrefixesCompare(s.workspace, other.workspace, s.Displaced()); }
  }

  ghost predicate SameOutsideWorkspaces(fs0: map<Path, Entry>, fs: map<Path, Entry>, items: seq<Item>) {
    forall p :: (forall i :: 0 <= i < |items| ==> !(items[i].workspace <= p)) ==> Get(fs, p) == Get(fs0, p)
  }

  predicate OriginalSurvives(fs0: map<Path, Entry>, fs: map<Path, Entry>, item: Item) {
    item.target in fs0 ==>
      Some(fs0[item.target].node)
      in {Content(Get(fs, item.target)), Content(Get(fs, item.workspace + ["rollback"]))}
  }

  lemma SameOutsideRefl(fs: map<Path, Entry>, items: seq<Item>)
    ensures SameOutsideWorkspaces(fs, fs, items)
  {
  }

  ghost predicate FreshFrom(items: seq<Item>, n: int, fs: map<Path, Entry>) {
    forall i, p :: n <= i < |items| && 0 <= i && p in fs ==> !(items[i].workspace <= p)
  }

  lemma LaterWorkspacesFresh(items: seq<Item>, n: int, fs0: map<Path, Entry>, fs: map<Path, Entry>)
    requires 0 <= n < |items| && FreshFrom(items, n, fs0)
    requires forall i, j | 0 <= i < |items| && 0 <= j < |items| && i != j ::
               !Overlap(items[i].workspace, items[j].workspace)
    requires forall p :: Get(fs, p) == Get(fs0, p) || items[n].workspace <= p
    ensures FreshFrom(items, n + 1, fs)
  {
    forall i, p | n < i < |items| && p in fs
      ensures !(items[i].workspace <= p)
    {
      assert Get(fs, p) == Get(fs0, p) || items[n].workspace <= p;
      if items[n].workspace <= p && items[i].workspace <= p {
        PrefixesCompare(items[n].workspace, items[i].workspace, p);
      }
    }
  }

  lemma SameOutsideStep(items: seq<Item>, n: int, fs0: map<Path, Entry>, fs1: map<Path, Entry>, fs2: map<Path, Entry>)
    requires 0 <= n < |items| && SameOutsideWorkspaces(fs0, fs1, items)
    requires forall p :: Get(fs2, p) == Get(fs1, p) || items[n].workspace <= p
    ensures SameOutsideWorkspaces(fs0, fs2, items)
  {
    forall p | forall i :: 0 <= i < |items| ==> !(items[i].workspace <= p)
      ensures Get(fs2, p) == Get(fs0, p)
    {
      assert !(items[n].workspace <= p);
    }
  }

  lemma SameOutsideRemoval(items: seq<Item>, swaps: seq<Swap>, fs0: map<Path, Entry>, fs1: map<Path, Entry>,
                           fs2: map<Path, Entry>)
    requires |swaps| <= |items| && forall i :: 0 <= i < |swaps| ==> swaps[i].workspace == items[i].workspace
    requires SameOutsideWorkspaces(fs0, fs1, items)
    requires forall p :: Get(fs2, p) == Get(fs1, p) || exists i :: 0 <= i < |swaps| && swaps[i].workspace <= p
    ensures SameOutsideWorkspaces(fs0, fs2, items)
  {
    forall p | forall i :: 0 <= i < |items| ==> !(items[i].workspace <= p)
      ensures Get(fs2, p) == Get(fs0, p)
    {
      assert Get(fs2, p) == Get(fs1, p);
    }
  }

  lemma OnlySwapsFor(swaps: seq<Swap>, items: seq<Item>, fs: map<Path, Entry>)
    requires |swaps| <= |items| && forall i :: 0 <= i < |swaps| ==> SwapFor(swaps[i], items[i], fs)
    ensures forall i :: 0 <= i < |swaps| ==> swaps[i].workspace == items[i].workspace
  {
  }

  lemma TargetsOutside(items: seq<Item>, fs0: map<Path, Entry>, fs: map<Path, Entry>)
    requires forall i, j | 0 <= i < |items| && 0 <= j < |items| :: !Overlap(items[i].target, items[j].workspace)
    requires SameOutsideWorkspaces(fs0, fs, items)
    ensures forall i :: 0 <= i < |items| ==> Get(fs, items[i].target) == Get(fs0, items[i].target)
  {
    forall i | 0 <= i < |items|
      ensures Get(fs, items[i].target) == Get(fs0, items[i].target)
    {
      forall j | 0 <= j < |items|
        ensures !(items[j].workspace <= items[i].target)
      {
        assert !Overlap(items[i].target, items[j].workspace);
      }
    }
  }

  lemma SwapsNonOverlapping(swaps: seq<Swap>, items: seq<Item>, fs: map<Path, Entry>)
    requires |swaps| == |items| && forall i :: 0 <= i < |items| ==> SwapFor(swaps[i], items[i], fs)
    requires !TargetsOverlap(items)
    requires forall i, j | 0 <= i < |items| && 0 <= j < |items| && i != j ::
               !Overlap(items[i].target, items[j].workspace) && !Overlap(items[i].workspace, items[j].workspace)
    ensures NonOverlapping(swaps) && AllReady(fs, swaps)
  {
  }

  ghost predicate SameOutside(fs0: map<Path, Entry>, fs: map<Path, Entry>, s: Swap) {
    forall p :: !s.Owns(p) ==> Get(fs, p) == Get(fs0, p)
  }

  datatype InstallResult = Installed | Refused | Stranded

  /** How a commit ends: a normal return; an error after which the workspaces
      are removed; an error that keeps them. */
  datatype CommitResult = Committed | Aborted | Preserved

  /** One thing to restore, with the workspace name the system hands out for it. */
  datatype Item = Item(staged: Entry, target: Path, workspace: Path)

  datatype RestoreResult = Restored | Rejected | Unchanged | Kept

  ghost predicate FreshWorkspaces(fs: map<Path, Entry>, items: seq<Item>) {
    && (forall i, p :: 0 <= i < |items| && p in fs ==> !(items[i].workspace <= p))
    && (forall i :: 0 <= i < |items| ==> !Overlap(items[i].target, items[i].workspace))
    && forall i, j | 0 <= i < |items| && 0 <= j < |items| && i != j ::
         !Overlap(items[i].target, items[j].workspace) && !Overlap(items[i].workspace, items[j].workspace)
  }

  lemma WorkspacesApart(fs: map<Path, Entry>, items: seq<Item>)
    requires FreshWorkspaces(fs, items)
    ensures forall i, j | 0 <= i < |items| && 0 <= j < |items| :: !Overlap(items[i].target, items[j].workspace)
    ensures forall i, j | 0 <= i < |items| && 0 <= j < |items| && i != j ::
              !Overlap(items[i].target, items[j].workspace) && !Overlap(items[i].workspace, items[j].workspace)
  {
    hide Overlap;
  }

  function Targets(items: seq<Item>): (r: seq<Path>)
    ensures |r| == |items| && forall i :: 0 <= i < |items| ==> r[i] == items[i].target
  {
    seq(|items|, i requires 0 <= i < |items| => items[i].target)
  }

  /** `_reject_overlapping_targets`, over every configured target. */
  predicate PathsOverlap(paths: seq<Path>) {
    exists i, j | 0 <= i < j < |paths| :: Overlap(paths[i], paths[j])
  }

  lemma NoOverlapAmongItems(items: seq<Item>, others: seq<Path>)
    ensures TargetsOverlap(items) ==> PathsOverlap(Targets(items) + others)
  {
    if TargetsOverlap(items) {
      var i, j :| 0 <= i < j < |items| && Overlap(items[i].target, items[j].target);
      var all := Targets(items) + others;
      assert all[i] == items[i].target && all[j] == items[j].target;
    }
  }

  ghost predicate SameTree(fs0: map<Path, Entry>, fs: map<Path, Entry>) {
    forall p :: Get(fs, p) == Get(fs0, p)
  }

  /** Preparing does not touch the targets, so what fits before fits when its turn comes. */
  lemma SameMismatch(items: seq<Item>, n: nat, fs0: map<Path, Entry>, fs: map<Path, Entry>)
    requires n < |items| && SameOutsideWorkspaces(fs0, fs, items)
    requires forall i, j | 0 <= i < |items| && 0 <= j < |items| :: !Overlap(items[i].target, items[j].workspace)
    ensures Mismatch(fs, items[n]) <==> Mismatch(fs0, items[n])
  {
    TargetsOutside(items, fs0, fs);
    assert Get(fs, items[n].target) == Get(fs0, items[n].target);
  }

  /** After a failed preparation whose removals worked, the tree is the one before it. */
  lemma AllRemoved(items: seq<Item>, swaps: seq<Swap>, fs0: map<Path, Entry>, before: map<Path, Entry>,
                   failed: map<Path, Entry>, fs: map<Path, Entry>)
    requires |swaps| < |items| && forall i :: 0 <= i < |swaps| ==> swaps[i].workspace == items[i].workspace
    requires FreshWorkspaces(fs0, items) && FreshFrom(items, |swaps|, before)
    requires SameOutsideWorkspaces(fs0, fs, items)
    requires forall p :: Get(failed, p) == Get(before, p)
    requires forall p :: Get(fs, p) == Get(failed, p) || Get(fs, p) == None
    requires Cleared(fs, swaps)
    ensures SameTree(fs0, fs)
  {
    forall p
      ensures Get(fs, p) == Get(fs0, p)
    {
      if i :| 0 <= i < |items| && items[i].workspace <= p {
        assert p !in fs0;
        if i >= |swaps| {
          assert p !in before && Get(failed, p) == Get(before, p);
          assert Get(fs, p) == Get(failed, p) || Get(fs, p) == None;
        } else {
          assert swaps[i].workspace <= p;
        }
      }
    }
  }

  /** Every target is as it was, mode included, unless a late refusal made one read-only target writable. */
  ghost predicate AllAsBefore(fs0: map<Path, Entry>, fs: map<Path, Entry>, items: seq<Item>, neverLate: bool) {
    exists f: int :: AllButOne(fs0, fs, items, f) && (neverLate ==> f == -1)
  }

  ghost predicate AllButOne(fs0: map<Path, Entry>, fs: map<Path, Entry>, items: seq<Item>, f: int) {
    forall i :: 0 <= i < |items| ==>
      var was, now := Get(fs0, items[i].target), Get(fs, items[i].target);
      now == was || (i == f && was.Some? && !was.value.mode.writable && Content(now) == Content(was))
  }

  lemma UntouchedTargets(items: seq<Item>, fs0: map<Path, Entry>, fs: map<Path, Entry>, neverLate: bool)
    requires forall i :: 0 <= i < |items| ==> Get(fs, items[i].target) == Get(fs0, items[i].target)
    ensures AllAsBefore(fs0, fs, items, neverLate)
  {
    assert AllButOne(fs0, fs, items, -1);
  }

  lemma AbortedAsBefore(swaps: seq<Swap>, items: seq<Item>, fs0: map<Path, Entry>, fs1: map<Path, Entry>,
                        fs2: map<Path, Entry>, failed: nat, fault: Fault, neverLate: bool)
    requires |swaps| == |items| && forall i :: 0 <= i < |items| ==> SwapFor(swaps[i], items[i], fs1)
    requires forall i :: 0 <= i < |items| ==> Get(fs1, items[i].target) == Get(fs0, items[i].target)
    requires forall i :: 0 <= i < |swaps| ==>
               AsBefore(Look(fs1, swaps[i]), Look(fs2, swaps[i]), swaps[i], i == failed, fault)
    requires neverLate ==> fault != RefusesAfterChmod
    ensures AllAsBefore(fs0, fs2, items, neverLate)
  {
    var f := if neverLate then -1 else failed as int;
    forall i | 0 <= i < |items|
      ensures var was, now := Get(fs0, items[i].target), Get(fs2, items[i].target);
              now == was || (i == f && was.Some? && !was.value.mode.writable && Content(now) == Content(was))
    {
      assert SwapFor(swaps[i], items[i], fs1);
      assert AsBefore(Look(fs1, swaps[i]), Look(fs2, swaps[i]), swaps[i], i == failed, fault);
    }
    assert AllButOne(fs0, fs2, items, f);
  }

  lemma SwapsRecorded(swaps: seq<Swap>, items: seq<Item>, fs: map<Path, Entry>)
    requires |swaps| == |items| && forall i :: 0 <= i < |items| ==> SwapFor(swaps[i], items[i], fs)
    ensures Recorded(fs, swaps)
  {
  }

  lemma ClearedItems(swaps: seq<Swap>, items: seq<Item>, mid: map<Path, Entry>, fs: map<Path, Entry>)
    requires |swaps| == |items| && forall i :: 0 <= i < |items| ==> SwapFor(swaps[i], items[i], mid)
    requires Cleared(fs, swaps)
    ensures forall i, p :: 0 <= i < |items| && items[i].workspace <= p ==> p !in fs
  {
    forall i, p | 0 <= i < |items| && items[i].workspace <= p
      ensures p !in fs
    {
      assert SwapFor(swaps[i], items[i], mid);
    }
  }

  predicate TargetsOverlap(items: seq<Item>) {
    exists i, j | 0 <= i < j < |items| :: Overlap(items[i].target, items[j].target)
  }

  ghost predicate NonOverlapping(swaps: seq<Swap>) {
    && (forall i :: 0 <= i < |swaps| ==> swaps[i].WellFormed())
    && forall i, j | 0 <= i < |swaps| && 0 <= j < |swaps| && i != j ::
         && !Overlap(swaps[i].target, swaps[j].target) && !Overlap(swaps[i].target, swaps[j].workspace)
         && !Overlap(swaps[i].workspace, swaps[j].workspace)
  }

  ghost predicate AllReady(fs: map<Path, Entry>, swaps: seq<Swap>) {
    forall i :: 0 <= i < |swaps| ==> Ready(Look(fs, swaps[i]))
  }

  lemma DisjointOwners(swaps: seq<Swap>, i: int, j: int, p: Path)
    requires NonOverlapping(swaps) && 0 <= i < |swaps| && 0 <= j < |swaps| && i != j
    requires swaps[i].Owns(p)
    ensures !swaps[j].Owns(p)
  {
  }

  /** Work on one swap does not show in the view of another. */
  lemma OtherViews(swaps: seq<Swap>, i: int, fs0: map<Path, Entry>, fs: map<Path, Entry>)
    requires NonOverlapping(swaps) && 0 <= i < |swaps| && SameOutside(fs0, fs, swaps[i])
    ensures forall j :: 0 <= j < |swaps| && j != i ==> Look(fs, swaps[j]) == Look(fs0, swaps[j])
  {
    forall j | 0 <= j < |swaps| && j != i
      ensures Look(fs, swaps[j]) == Look(fs0, swaps[j])
    {
      swaps[j].SlotsDiffer();
      DisjointOwners(swaps, j, i, swaps[j].target);
      DisjointOwners(swaps, j, i, swaps[j].Replacement());
      DisjointOwners(swaps, j, i, swaps[j].Rollback());
      DisjointOwners(swaps, j, i, swaps[j].Displaced());
    }
  }

  ghost predicate SameOutsideAll(fs0: map<Path, Entry>, fs: map<Path, Entry>, swaps: seq<Swap>) {
    forall p :: (forall i :: 0 <= i < |swaps| ==> !swaps[i].Owns(p)) ==> Get(fs, p) == Get(fs0, p)
  }

  lemma OutsideOne(swaps: seq<Swap>, i: int, fs0: map<Path, Entry>, fs1: map<Path, Entry>, fs2: map<Path, Entry>)
    requires 0 <= i < |swaps| && SameOutsideAll(fs0, fs1, swaps) && SameOutside(fs1, fs2, swaps[i])
    ensures SameOutsideAll(fs0, fs2, swaps)
  {
    forall p | forall k :: 0 <= k < |swaps| ==> !swaps[k].Owns(p)
      ensures Get(fs2, p) == Get(fs0, p)
    {
      assert !swaps[i].Owns(p);
    }
  }

  /** The case in which a refused install still changes something: the first
      rename was refused after its chmod, and the target was read-only. */
  predicate LosesReadOnly(v0: View, s: Swap, fault: Fault) {
    s.hadTarget && fault == RefusesAfterChmod && v0.target.Some? && !v0.target.value.mode.writable
  }

  /** What an aborted commit leaves: every target as before, mode included
      unless the failing install lost it. `fault` met its first rename. */
  ghost predicate AsBefore(v0: View, v: View, s: Swap, failing: bool, fault: Fault) {
    && TargetAsBefore(v0, v)
    && (ModeRecorded(v0, s) ==> (v.target == v0.target <==> !(failing && LosesReadOnly(v0, s, fault))))
  }

  ghost predicate Faultless(faults: nat -> Fault) {
    WorksFrom(faults, 0)
  }

  ghost predicate WorksFrom(faults: nat -> Fault, from: nat) {
    forall n: nat :: n >= from ==> faults(n).Works?
  }

  /** A refused rename is refused before its chmods. */
  ghost predicate NeverLate(faults: nat -> Fault) {
    forall n: nat :: faults(n) != RefusesAfterChmod
  }

  /** What stands at the target is of another kind than what shall replace it. */
  predicate Mismatch(fs: map<Path, Entry>, item: Item) {
    item.target in fs && fs[item.target].node.Directory? != item.staged.node.Directory?
  }

  /** The first call that removes a workspace, when preparing item `n` fails. */
  function FirstRemoval(fs: map<Path, Entry>, items: seq<Item>, n: nat, calls: nat): nat
    requires n < |items|
  {
    calls + n + if Mismatch(fs, items[n]) then 0 else 1
  }

  /** Nothing is left below any of the workspaces. */
  ghost predicate Cleared(fs: map<Path, Entry>, swaps: seq<Swap>) {
    forall i, p :: 0 <= i < |swaps| && swaps[i].workspace <= p ==> p !in fs
  }

  /** The swaps recorded whether their targets exist. */
  predicate Recorded(fs: map<Path, Entry>, swaps: seq<Swap>) {
    forall i :: 0 <= i < |swaps| ==> (swaps[i].hadTarget <==> swaps[i].target in fs)
  }

  /** The very first rename of a commit is refused. */
  predicate RefusedAtOnce(fs: map<Path, Entry>, swaps: seq<Swap>, fault: Fault) {
    swaps != [] && swaps[0].hadTarget && swaps[0].target in fs && fault != Works
  }

  /** A file tree and the faults it will show, call by call. */
  class Disk {
    var fs: map<Path, Entry>
    var calls: nat
    const faults: nat -> Fault

    constructor (fs: map<Path, Entry>, faults: nat -> Fault)
      ensures this.fs == fs && this.faults == faults && calls == 0
    {
      this.fs, this.faults, calls := fs, faults, 0;
    }

    /** `_replace_path`: chmod both ends writable, then rename. */
    method Replace(source: Path, target: Path) returns (ok: bool)
      requires source != target
      modifies this
      ensures ok <==> source in old(fs) && faults(old(calls)).Works?
      ensures forall p ::
                Get(fs, p) ==
                  if ok then if p == source then None
                             else if p == target then Some(MadeWritable(old(fs)[source])) else Get(old(fs), p)
                  else if p in {source, target} && p in old(fs) && faults(old(calls)) != Refuses
                  then Some(MadeWritable(old(fs)[p]))
                  else Get(old(fs), p)
      ensures calls == old(calls) + 1
    {
      var fault := faults(calls);
      calls := calls + 1;
      if fault == Refuses { return false; }
      if source in fs {
        fs := fs[source := MadeWritable(fs[source])];
      }
      if target in fs {
        fs := fs[target := MadeWritable(fs[target])];
      }
      if fault == RefusesAfterChmod || source !in fs { return false; }
      fs := (fs - {source})[target := fs[source]];
      return true;
    }

    /** `_restore_original_mode`. */
    method RestoreMode(path: Path, mode: Option<Mode>) returns (ok: bool)
      modifies this
      ensures calls == old(calls) + 1
      ensures forall p :: Get(fs, p) == if ok && p == path && mode.Some? && p in old(fs)
                                        then Some(old(fs)[p].(mode := mode.value)) else Get(old(fs), p)
      ensures ok <== faults(old(calls)).Works?
    {
      var fault := faults(calls);
      calls := calls + 1;
      if mode.Some? && path in fs {
        if fault != Works { return false; }
        fs := fs[path := fs[path].(mode := mode.value)];
      }
      return true;
    }

    /** Best-effort removal of a workspace. */
    method RemoveTree(workspace: Path)
      modifies this
      ensures calls == old(calls) + 1
      ensures forall p :: Get(fs, p) == Get(old(fs), p)
                       || (workspace <= p && Get(fs, p) == None)
      ensures faults(old(calls)).Works? ==> forall p :: workspace <= p ==> p !in fs
    {
      var fault := faults(calls);
      calls := calls + 1;
      if fault == Works {
        fs := map p | p in fs && !(workspace <= p) :: fs[p];
      }
    }

    /** `_prepare_restore_swap`: record the target and copy the staged tree beside it. A copy that
        fails may leave something in the workspace, which is then removed. */
    method Prepare(item: Item) returns (r: Option<Swap>)
      requires !Overlap(item.target, item.workspace) && forall p :: p in fs ==> !(item.workspace <= p)
      modifies this
      ensures calls >= old(calls) + if Mismatch(old(fs), item) then 0 else 1
      ensures forall p :: Get(fs, p) == Get(old(fs), p) || item.workspace <= p
      ensures r.Some? ==> SwapFor(r.value, item, fs) && calls == old(calls) + 1
      ensures r.None? && faults(old(calls)).Works? ==> Mismatch(old(fs), item)
      ensures r.None? && (Mismatch(old(fs), item) || WorksFrom(faults, old(calls) + 1)) ==>
                forall p :: Get(fs, p) == Get(old(fs), p)
      ensures Mismatch(old(fs), item) ==> r.None?
    {
      var hadTarget := item.target in fs;
      if hadTarget && fs[item.target].node.Directory? != item.staged.node.Directory? { return None; }
      var s := Swap(item.target, item.workspace, hadTarget, if hadTarget then Some(fs[item.target].mode) else None);
      s.SlotsDiffer();
      var fault := faults(calls);
      calls := calls + 1;
      fs := fs[s.Replacement() := item.staged];
      if fault != Works {
        RemoveTree(item.workspace);
        return None;
      }
      return Some(s);
    }

    /** Prepare every item, or stop at the first that fails and remove what was made before it. */
    method PrepareAll(items: seq<Item>) returns (swaps: seq<Swap>, ok: bool)
      requires FreshWorkspaces(fs, items)
      modifies this
      ensures ok ==> |swaps| == |items| && forall i :: 0 <= i < |items| ==> SwapFor(swaps[i], items[i], fs)
      ensures SameOutsideWorkspaces(old(fs), fs, items)
      ensures !ok ==> |swaps| < |items|
                      && (Mismatch(old(fs), items[|swaps|]) || !faults(old(calls) + |swaps|).Works?)
      // a failed preparation removes every workspace again, if the calls behind the failure work
      ensures !ok && WorksFrom(faults, FirstRemoval(old(fs), items, |swaps|, old(calls))) ==> SameTree(old(fs), fs)
      ensures Faultless(faults) && (forall i :: 0 <= i < |items| ==> !Mismatch(old(fs), items[i])) ==> ok
    {
      hide Overlap, SwapFor, SameOutsideWorkspaces, SameTree;
      ghost var fs0 := fs;
      WorkspacesApart(fs, items);
      swaps := [];
      assert SameOutsideWorkspaces(fs0, fs, items) by { SameOutsideRefl(fs, items); }
      while |swaps| < |items|
        invariant |swaps| <= |items| && calls == old(calls) + |swaps|
        invariant forall i :: 0 <= i < |swaps| ==> SwapFor(swaps[i], items[i], fs)
        invariant FreshFrom(items, |swaps|, fs)
        invariant SameOutsideWorkspaces(fs0, fs, items)
      {
        ghost var before, n := fs, |swaps|;
        SameMismatch(items, n, fs0, before);
        var prepared := Prepare(items[|swaps|]);
        LaterWorkspacesFresh(items, n, before, fs);
        SameOutsideStep(items, n, fs0, before, fs);
        if prepared.None? {
          ghost var removals := FirstRemoval(fs0, items, n, old(calls));
          ghost var failed := fs;
          OnlySwapsFor(swaps, items, before);
          RemoveWorkspaces(swaps);
          SameOutsideRemoval(items, swaps, fs0, failed, fs);
          if WorksFrom(faults, removals) {
            AllRemoved(items, swaps, fs0, before, failed, fs);
          }
          return swaps, false;
        }
        forall i | 0 <= i < n
          ensures SwapFor(swaps[i], items[i], fs)
        {
          SwapForStays(swaps[i], items[i], items[n], before, fs);
        }
        swaps := swaps + [prepared.value];
      }
      return swaps, true;
    }

    /** The tail of `restore_backup`: all targets or none. `others` are the configured targets the
        archive has nothing for; they take part in the overlap check. */
    method RestoreAll(items: seq<Item>, others: seq<Path>, overwrite: bool) returns (r: RestoreResult)
      requires FreshWorkspaces(fs, items)
      modifies this
      ensures r == Rejected <==> PathsOverlap(Targets(items) + others)
                                 || (!overwrite && exists i :: 0 <= i < |items| && items[i].target in old(fs))
      ensures r == Rejected ==> fs == old(fs)
      ensures r == Restored ==>
                forall i :: 0 <= i < |items| ==> Content(Get(fs, items[i].target)) == Some(items[i].staged.node)
      // contents and modes are as before, but for one read-only target that may have become writable
      ensures r == Unchanged ==> AllAsBefore(old(fs), fs, items, NeverLate(faults))
      ensures r == Kept ==> forall i :: 0 <= i < |items| ==> OriginalSurvives(old(fs), fs, items[i])
      ensures forall p :: (forall i :: 0 <= i < |items| ==> items[i].target != p && !(items[i].workspace <= p))
                ==> Get(fs, p) == Get(old(fs), p)
      // nothing but a fault or a target of the wrong kind keeps a restore from succeeding
      ensures Faultless(faults) && r != Rejected && (forall i :: 0 <= i < |items| ==> !Mismatch(old(fs), items[i])) ==>
                r == Restored && forall i, p :: 0 <= i < |items| && items[i].workspace <= p ==> p !in fs
    {
      hide Overlap, FreshWorkspaces, NonOverlapping, AllReady, AsBefore, NothingLost, SameOutsideAll, SwapFor;
      hide TargetsOverlap, PathsOverlap, AllAsBefore, SameTree, Cleared, Recorded, RefusedAtOnce, Faultless;
      hide NeverLate, WorksFrom, Mismatch;
      WorkspacesApart(fs, items);
      NoOverlapAmongItems(items, others);
      if PathsOverlap(Targets(items) + others) { return Rejected; }
      if !overwrite && exists i :: 0 <= i < |items| && items[i].target in fs { return Rejected; }
      ghost var fs0 := fs;
      var swaps, ok := PrepareAll(items);
      ghost var mid := fs;
      TargetsOutside(items, fs0, mid);
      if !ok {
        UntouchedTargets(items, fs0, fs, NeverLate(faults));
        return Unchanged;
      }
      SwapsNonOverlapping(swaps, items, fs);
      SwapsRecorded(swaps, items, fs);
      var outcome, failed, fault := Commit(swaps);
      RestoreOutcome(swaps, items, fs0, mid, fs, outcome, failed, fault);
      if outcome == Aborted {
        AbortedAsBefore(swaps, items, fs0, mid, fs, failed, fault, NeverLate(faults));
      }
      if Cleared(fs, swaps) {
        ClearedItems(swaps, items, mid, fs);
      }
      return match outcome case Committed => Restored case Aborted => Unchanged case Preserved => Kept;
    }

    /** `_install_restore_swap`. */
    method Install(s: Swap) returns (r: InstallResult)
      requires s.WellFormed() && Ready(Look(fs, s))
      modifies this
      ensures SameOutside(old(fs), fs, s)
      ensures r == Installed ==> IsInstalled(old(Look(fs, s)), Look(fs, s), s)
      ensures r == Refused ==> AsBefore(old(Look(fs, s)), Look(fs, s), s, true, faults(old(calls)))
      ensures Faultless(faults) && (s.hadTarget <==> s.target in old(fs)) ==> r == Installed
      ensures s.hadTarget && s.target in old(fs) && faults(old(calls)) != Works ==> r == Refused
      ensures r != Installed ==> NothingLost(old(Look(fs, s)), Look(fs, s))
    {
      s.SlotsDiffer();
      if s.hadTarget {
        if s.target !in fs { return Refused; }
        var moved := Replace(s.target, s.Rollback());
        if !moved { return Refused; }
      } else if s.target in fs {
        return Refused;
      }
      var placed := Replace(s.Replacement(), s.target);
      if placed { return Installed; }
      if s.hadTarget {
        var undone := Replace(s.Rollback(), s.target);
        if !undone { return Stranded; }
        var mode := RestoreMode(s.target, s.originalMode);
        if !mode { return Stranded; }
      }
      return Refused;
    }

    /** `_rollback_restore_swap`; `v0` is what the swap looked like before it was installed. */
    method Rollback(s: Swap, ghost v0: View) returns (ok: bool)
      requires s.WellFormed() && IsInstalled(v0, Look(fs, s), s)
      modifies this
      ensures SameOutside(old(fs), fs, s)
      ensures NothingLost(v0, Look(fs, s))
      ensures ok ==> AsBefore(v0, Look(fs, s), s, false, Works)
    {
      s.SlotsDiffer();
      if s.target in fs {
        var aside := Replace(s.target, s.Displaced());
        if !aside { return false; }
      }
      if s.hadTarget {
        ok := Replace(s.Rollback(), s.target);
        if ok {
          ok := RestoreMode(s.target, s.originalMode);
        }
        if !ok {
          if s.Displaced() in fs && s.target !in fs {
            var _ := Replace(s.Displaced(), s.target);
          }
          return false;
        }
      }
      return true;
    }

    /** `_commit_restore_swaps`. */
    method Commit(swaps: seq<Swap>) returns (r: CommitResult, ghost failed: nat, ghost fault: Fault)
      requires NonOverlapping(swaps) && AllReady(fs, swaps)
      modifies this
      ensures SameOutsideAll(old(fs), fs, swaps)
      ensures r == Committed ==> forall i :: 0 <= i < |swaps| ==>
                Content(Get(fs, swaps[i].target)) == Content(Get(old(fs), swaps[i].Replacement()))
      ensures r == Aborted ==> failed < |swaps| && forall i :: 0 <= i < |swaps| ==>
                AsBefore(Look(old(fs), swaps[i]), Look(fs, swaps[i]), swaps[i], i == failed, fault)
      ensures r == Preserved ==>
                forall i :: 0 <= i < |swaps| ==> NothingLost(Look(old(fs), swaps[i]), Look(fs, swaps[i]))
      ensures Faultless(faults) && Recorded(old(fs), swaps) ==> r == Committed && Cleared(fs, swaps)
      ensures RefusedAtOnce(old(fs), swaps, faults(old(calls))) ==>
                r == Aborted && failed == 0 && fault == faults(old(calls))
      ensures NeverLate(faults) ==> fault != RefusesAfterChmod
    {
      hide AsBefore, NothingLost, Look, SameOutsideAll, NonOverlapping, AllReady, Recorded, RefusedAtOnce;
      ghost var fs0 := fs;
      var installed, result;
      installed, result, fault := InstallAll(swaps);
      failed := installed;
      ghost var settled := fs;
      if result == Installed {
        RemoveWorkspaces(swaps);
        RemovalKeepsTargets(swaps, fs0, settled, fs);
        CommittedTargets(swaps, fs0, settled, fs);
        return Committed, failed, fault;
      }
      var clean := UndoAll(swaps, installed, result, fs0, fault);
      if !clean || result == Stranded { return Preserved, failed, fault; }
      settled := fs;
      RemoveWorkspaces(swaps);
      RemovalKeepsTargets(swaps, fs0, settled, fs);
      AbortedTargets(swaps, fs0, settled, fs, failed, result, fault);
      return Aborted, failed, fault;
    }

    /** The install loop, up to the first failure. */
    method InstallAll(swaps: seq<Swap>) returns (installed: nat, result: InstallResult, ghost fault: Fault)
      requires NonOverlapping(swaps) && AllReady(fs, swaps)
      modifies this
      ensures SameOutsideAll(old(fs), fs, swaps)
      ensures if result == Installed then AllInstalled(old(fs), fs, swaps)
              else installed < |swaps| && AfterFailure(old(fs), fs, swaps, installed, installed, result, fault)
      ensures Faultless(faults) && Recorded(old(fs), swaps) ==> result == Installed
      ensures RefusedAtOnce(old(fs), swaps, faults(old(calls))) ==>
                installed == 0 && result == Refused && fault == faults(old(calls))
      ensures NeverLate(faults) ==> fault != RefusesAfterChmod
    {
      hide AsBefore, NothingLost, IsInstalled, Look, SameOutsideAll, SameOutside, NonOverlapping, Ready;
      ghost var fs0 := fs;
      installed, result, fault := 0, Installed, Works;
      assert SameOutsideAll(fs0, fs, swaps) by { OutsideRefl(fs, swaps); }
      while installed < |swaps|
        invariant 0 <= installed <= |swaps| && result == Installed
        invariant forall i :: 0 <= i < |swaps| ==>
                    if i < installed then IsInstalled(Look(fs0, swaps[i]), Look(fs, swaps[i]), swaps[i])
                    else Look(fs, swaps[i]) == Look(fs0, swaps[i])
        invariant SameOutsideAll(fs0, fs, swaps)
        invariant installed == 0 ==> calls == old(calls) && fs == fs0
        invariant installed > 0 ==> !RefusedAtOnce(fs0, swaps, faults(old(calls)))
        invariant NeverLate(faults) ==> fault != RefusesAfterChmod
      {
        ghost var before := fs;
        fault := faults(calls);
        SwapWellFormed(swaps, installed);
        SameTarget(swaps[installed], fs0, fs);
        result := Install(swaps[installed]);
        OtherViews(swaps, installed, before, fs);
        OutsideOne(swaps, installed, fs0, before, fs);
        if result != Installed {
          ReadyUntouched(fs0, swaps, installed, fault);
          return;
        }
        installed := installed + 1;
      }
    }

    /** The reverse-order rollback; true when every swap rolled back. */
    method UndoAll(swaps: seq<Swap>, failed: nat, ghost result: InstallResult, ghost fs0: map<Path, Entry>,
                   ghost fault: Fault)
      returns (clean: bool)
      requires NonOverlapping(swaps) && failed < |swaps|
      requires SameOutsideAll(fs0, fs, swaps) && AfterFailure(fs0, fs, swaps, failed, failed, result, fault)
      modifies this
      ensures SameOutsideAll(fs0, fs, swaps)
      ensures forall i :: 0 <= i < |swaps| ==> NothingLost(Look(fs0, swaps[i]), Look(fs, swaps[i]))
      ensures clean ==> AfterFailure(fs0, fs, swaps, failed, 0, result, fault)
      ensures failed == 0 ==> clean
    {
      hide NothingLost, AsBefore, IsInstalled, Look, SameOutsideAll, SameOutside, NonOverlapping;
      clean := true;
      var installed := failed;
      while installed > 0
        invariant 0 <= installed <= failed && (failed == 0 ==> clean)
        invariant clean ==> AfterFailure(fs0, fs, swaps, failed, installed, result, fault)
        invariant forall i :: 0 <= i < |swaps| ==>
                    if i < installed then IsInstalled(Look(fs0, swaps[i]), Look(fs, swaps[i]), swaps[i])
                    else NothingLost(Look(fs0, swaps[i]), Look(fs, swaps[i]))
        invariant SameOutsideAll(fs0, fs, swaps)
      {
        installed := installed - 1;
        ghost var before := fs;
        assert swaps[installed].WellFormed() by { SwapWellFormed(swaps, installed); }
        var ok := Rollback(swaps[installed], Look(fs0, swaps[installed]));
        OtherViews(swaps, installed, before, fs);
        OutsideOne(swaps, installed, fs0, before, fs);
        FaultIrrelevant(Look(fs0, swaps[installed]), Look(fs, swaps[installed]), swaps[installed], Works, fault);
        assert ok ==> AsBefore(Look(fs0, swaps[installed]), Look(fs, swaps[installed]), swaps[installed], false, fault);
        if !ok { clean := false; }
      }
    }

    method RemoveWorkspaces(swaps: seq<Swap>)
      modifies this
      ensures forall p :: Get(fs, p) == Get(old(fs), p)
                       || (Get(fs, p) == None && exists i :: 0 <= i < |swaps| && swaps[i].workspace <= p)
      ensures WorksFrom(faults, old(calls)) ==> Cleared(fs, swaps)
    {
      ghost var fs0 := fs;
      for k := 0 to |swaps|
        invariant calls >= old(calls)
        invariant forall p :: Get(fs, p) == Get(fs0, p)
                           || (Get(fs, p) == None && exists i :: 0 <= i < k && swaps[i].workspace <= p)
        invariant WorksFrom(faults, old(calls)) ==> Cleared(fs, swaps[..k])
      {
        ghost var before := fs;
        RemoveTree(swaps[k].workspace);
        if WorksFrom(faults, old(calls)) {
          ClearedMore(swaps, k, before, fs);
        }
      }
      assert swaps[..|swaps|] == swaps;
    }
  }

  /** While the swaps below `failed` are being undone, those from `undone` on
      are already back. */
  ghost predicate AfterFailure(fs0: map<Path, Entry>, fs: map<Path, Entry>, swaps: seq<Swap>, failed: int, undone: int,
                               result: InstallResult, fault: Fault)
    requires 0 <= undone <= failed < |swaps|
  {
    forall i :: 0 <= i < |swaps| ==>
      var v0, v := Look(fs0, swaps[i]), Look(fs, swaps[i]);
      if i < undone then IsInstalled(v0, v, swaps[i])
      else NothingLost(v0, v) && (i != failed || result == Refused ==> AsBefore(v0, v, swaps[i], i == failed, fault))
  }

  lemma ClearedMore(swaps: seq<Swap>, k: nat, before: map<Path, Entry>, fs: map<Path, Entry>)
    requires k < |swaps| && Cleared(before, swaps[..k])
    requires forall p :: Get(fs, p) == Get(before, p) || Get(fs, p) == None
    requires forall p :: swaps[k].workspace <= p ==> p !in fs
    ensures Cleared(fs, swaps[..k + 1])
  {
    forall i, p | 0 <= i < k + 1 && swaps[i].workspace <= p
      ensures p !in fs
    {
      if i < k {
        assert swaps[..k][i] == swaps[i];
        assert Get(fs, p) == Get(before, p) || Get(fs, p) == None;
      }
    }
  }

  lemma SameTarget(s: Swap, fs0: map<Path, Entry>, fs: map<Path, Entry>)
    ensures Look(fs, s) == Look(fs0, s) ==> (s.target in fs <==> s.target in fs0)
  {
  }

  lemma FaultIrrelevant(v0: View, v: View, s: Swap, a: Fault, b: Fault)
    ensures AsBefore(v0, v, s, false, a) == AsBefore(v0, v, s, false, b)
  {
  }

  lemma SwapWellFormed(swaps: seq<Swap>, i: int)
    requires NonOverlapping(swaps) && 0 <= i < |swaps|
    ensures swaps[i].WellFormed()
  {
  }

  /** Removing the workspaces leaves every target and everything outside. */
  lemma RemovalKeepsTargets(swaps: seq<Swap>, fs0: map<Path, Entry>, fs1: map<Path, Entry>, fs2: map<Path, Entry>)
    requires NonOverlapping(swaps) && SameOutsideAll(fs0, fs1, swaps)
    requires forall p :: Get(fs2, p) == Get(fs1, p) || exists i :: 0 <= i < |swaps| && swaps[i].workspace <= p
    ensures SameOutsideAll(fs0, fs2, swaps)
    ensures forall i :: 0 <= i < |swaps| ==> Get(fs2, swaps[i].target) == Get(fs1, swaps[i].target)
  {
    forall i | 0 <= i < |swaps|
      ensures Get(fs2, swaps[i].target) == Get(fs1, swaps[i].target)
    {
      assert forall j :: 0 <= j < |swaps| ==> !Overlap(swaps[i].target, swaps[j].workspace);
    }
    forall p | forall i :: 0 <= i < |swaps| ==> !swaps[i].Owns(p)
      ensures Get(fs2, p) == Get(fs0, p)
    {
      assert Get(fs2, p) == Get(fs1, p);
    }
  }

  lemma OutsideRefl(fs: map<Path, Entry>, swaps: seq<Swap>)
    ensures SameOutsideAll(fs, fs, swaps)
  {
  }

  ghost predicate AllInstalled(fs0: map<Path, Entry>, fs: map<Path, Entry>, swaps: seq<Swap>) {
    forall i :: 0 <= i < |swaps| ==> IsInstalled(Look(fs0, swaps[i]), Look(fs, swaps[i]), swaps[i])
  }

  /** A swap nobody touched is as before. */
  lemma ReadyUntouched(fs0: map<Path, Entry>, swaps: seq<Swap>, failed: int, fault: Fault)
    requires AllReady(fs0, swaps)
    ensures forall i :: 0 <= i < |swaps| && i != failed ==>
              NothingLost(Look(fs0, swaps[i]), Look(fs0, swaps[i]))
              && AsBefore(Look(fs0, swaps[i]), Look(fs0, swaps[i]), swaps[i], i == failed, fault)
  {
    hide Look;
  }

  lemma CommittedTargets(swaps: seq<Swap>, fs0: map<Path, Entry>, fs1: map<Path, Entry>, fs2: map<Path, Entry>)
    requires AllInstalled(fs0, fs1, swaps)
    requires forall i :: 0 <= i < |swaps| ==> Get(fs2, swaps[i].target) == Get(fs1, swaps[i].target)
    ensures forall i :: 0 <= i < |swaps| ==>
              Content(Get(fs2, swaps[i].target)) == Content(Get(fs0, swaps[i].Replacement()))
  {
    forall i | 0 <= i < |swaps|
      ensures Content(Get(fs2, swaps[i].target)) == Content(Get(fs0, swaps[i].Replacement()))
    {
      assert IsInstalled(Look(fs0, swaps[i]), Look(fs1, swaps[i]), swaps[i]);
    }
  }

  lemma AbortedTargets(swaps: seq<Swap>, fs0: map<Path, Entry>, fs1: map<Path, Entry>, fs2: map<Path, Entry>,
                       failed: int, result: InstallResult, fault: Fault)
    requires 0 <= failed < |swaps| && result == Refused && AfterFailure(fs0, fs1, swaps, failed, 0, result, fault)
    requires forall i :: 0 <= i < |swaps| ==> Get(fs2, swaps[i].target) == Get(fs1, swaps[i].target)
    ensures forall i :: 0 <= i < |swaps| ==>
              AsBefore(Look(fs0, swaps[i]), Look(fs2, swaps[i]), swaps[i], i == failed, fault)
  {
    forall i | 0 <= i < |swaps|
      ensures AsBefore(Look(fs0, swaps[i]), Look(fs2, swaps[i]), swaps[i], i == failed, fault)
    {
      assert AsBefore(Look(fs0, swaps[i]), Look(fs1, swaps[i]), swaps[i], i == failed, fault);
    }
  }

  /** What the commit contract says about the items. */
  lemma RestoreOutcome(swaps: seq<Swap>, items: seq<Item>, fs0: map<Path, Entry>, fs1: map<Path, Entry>,
                       fs2: map<Path, Entry>, r: CommitResult, failed: nat, fault: Fault)
    requires |swaps| == |items| && forall i :: 0 <= i < |items| ==> SwapFor(swaps[i], items[i], fs1)
    requires forall i :: 0 <= i < |items| ==> Get(fs1, items[i].target) == Get(fs0, items[i].target)
    requires SameOutsideWorkspaces(fs0, fs1, items) && SameOutsideAll(fs1, fs2, swaps)
    requires r == Committed ==> forall i :: 0 <= i < |swaps| ==>
               Content(Get(fs2, swaps[i].target)) == Content(Get(fs1, swaps[i].Replacement()))
    requires r == Aborted ==> forall i :: 0 <= i < |swaps| ==>
               AsBefore(Look(fs1, swaps[i]), Look(fs2, swaps[i]), swaps[i], i == failed, fault)
    requires r == Preserved ==> forall i :: 0 <= i < |swaps| ==> NothingLost(Look(fs1, swaps[i]), Look(fs2, swaps[i]))
    ensures r == Committed ==>
              forall i :: 0 <= i < |items| ==> Content(Get(fs2, items[i].target)) == Some(items[i].staged.node)
    ensures r == Aborted ==> forall i :: 0 <= i < |items| ==>
              Content(Get(fs2, items[i].target)) == Content(Get(fs0, items[i].target))
    ensures r == Preserved ==> forall i :: 0 <= i < |items| ==> OriginalSurvives(fs0, fs2, items[i])
    ensures forall p :: (forall i :: 0 <= i < |items| ==> items[i].target != p && !(items[i].workspace <= p))
              ==> Get(fs2, p) == Get(fs0, p)
  {
    forall p | forall i :: 0 <= i < |items| ==> items[i].target != p && !(items[i].workspace <= p)
      ensures Get(fs2, p) == Get(fs0, p)
    {
      forall i | 0 <= i < |swaps|
        ensures !swaps[i].Owns(p)
      {
        assert SwapFor(swaps[i], items[i], fs1);
      }
    }
    forall i | 0 <= i < |items| && r == Committed
      ensures Content(Get(fs2, items[i].target)) == Some(items[i].staged.node)
    {
      assert SwapFor(swaps[i], items[i], fs1);
    }
    forall i | 0 <= i < |items| && r == Aborted
      ensures Content(Get(fs2, items[i].target)) == Content(Get(fs0, items[i].target))
    {
      assert SwapFor(swaps[i], items[i], fs1);
      assert AsBefore(Look(fs1, swaps[i]), Look(fs2, swaps[i]), swaps[i], i == failed, fault);
    }
    forall i | 0 <= i < |items| && r == Preserved
      ensures OriginalSurvives(fs0, fs2, items[i])
    {
      assert SwapFor(swaps[i], items[i], fs1);
      assert NothingLost(Look(fs1, swaps[i]), Look(fs2, swaps[i]));
    }
  }

  /** A read-only file whose very first rename is refused after the mode change: the commit aborts,
      the content is as before, and the file is left writable. */
  method ReadOnlyTargetTurnsWritable(was: Node, other: Entry, rest: nat) returns (disk: Disk, r: CommitResult)
    ensures r == Aborted
    ensures Get(disk.fs, ["t"]).Some? && Content(Get(disk.fs, ["t"])) == Some(was)
    ensures Get(disk.fs, ["t"]) != Some(Entry(was, Mode(false, rest)))
  {
    var s := Swap(["t"], ["w"], true, Some(Mode(false, rest)));
    assert ["t"][0] != ["w"][0];
    s.SlotsDiffer();
    disk := new Disk(map[["t"] := Entry(was, Mode(false, rest)), s.Replacement() := other],
      n => if n == 0 then RefusesAfterChmod else Works);
    ghost var v0 := Look(disk.fs, s);
    assert RefusedAtOnce(disk.fs, [s], RefusesAfterChmod);
    ghost var failed, fault;
    r, failed, fault := disk.Commit([s]);
    assert AsBefore(v0, Look(disk.fs, [s][0]), [s][0], true, RefusesAfterChmod);
  }
}

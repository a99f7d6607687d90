/** Artifact materialisation: compare-and-swap copying of staged files into a
    destination, recorded in a manifest, and what a second run makes of a first
    one that was killed. A file is known by the digest of its content. */
module Artifacts {
  import opened Common

  type Path = string
  type Digest = string
  type Files = map<Path, Digest>

  /** A manifest record. `before` distinguishes a missing key from a recorded
      absence; `after` is missing until the file reached the destination. */
  datatype FileRecord = FileRecord(sha256: Digest, before: Option<Option<Digest>>, after: Option<Digest>)

  datatype Status = Staging | PartiallyApplied | Ready | Applied

  datatype Manifest = Manifest(autoApply: bool, status: Status, files: map<Path, FileRecord>)

  /** `AtomicWriteResult`. */
  datatype Write = Write(before: Option<Digest>, after: Digest)

  datatype Outcome =
    | Finished | NotFound | NoOutput | StagingChanged | Conflict | MissingOwnedHash | ConcurrentChange | Crashed

  /** Where the process is killed: between two copies, inside a copy whose temporary file then stays
      in the destination, or after the last copy and before the manifest is written. */
  datatype Stop =
    | Never
    | BeforeCopy(n: nat)
    | InCopy(n: nat, temporary: Path, content: Digest)
    | BeforeManifest

  /** What a stop leaves behind besides the finished copies. */
  function Stray(stop: Stop): Files {
    if stop.InCopy? then map[stop.temporary := stop.content] else map[]
  }

  /** The destination a run leaves that got as far as `copied`. */
  function Left(copied: Files, stop: Stop, r: Outcome): Files {
    if r == Crashed then copied + Stray(stop) else copied
  }

  function At(files: Files, p: Path): Option<Digest> {
    if p in files then Some(files[p]) else None
  }

  // ---- the checks before the first copy ----

  /** A destination file that blocks the application. */
  predicate Conflicts(dest: Files, staging: Files, owned: map<Path, FileRecord>, p: Path)
    requires p in dest
  {
    if p !in staging then p !in owned
    else if p in owned then owned[p].after != Some(dest[p])
    else dest[p] != staging[p]
  }

  predicate AnyConflict(dest: Files, staging: Files, owned: map<Path, FileRecord>) {
    exists p :: p in dest && Conflicts(dest, staging, owned, p)
  }

  predicate LacksOwnedHash(dest: Files, staging: Files, owned: map<Path, FileRecord>) {
    exists p :: p in staging && p !in dest && p in owned && owned[p].after.None?
  }

  predicate Passes(dest: Files, staging: Files, owned: map<Path, FileRecord>) {
    !AnyConflict(dest, staging, owned) && !LacksOwnedHash(dest, staging, owned)
  }

  /** What a copy expects at its target; None is "must be absent". */
  function Expectation(dest: Files, staging: Files, owned: map<Path, FileRecord>, p: Path): Option<Digest>
    requires p in staging
  {
    if p in owned then owned[p].after else if p in dest then Some(staging[p]) else None
  }

  /** A file recorded as written that is no longer there. */
  predicate Vanished(dest: Files, owned: map<Path, FileRecord>, p: Path) {
    p in owned && p !in dest
  }

  ghost predicate IsOrder(files: seq<Path>, staging: Files) {
    && (forall p :: p in files <==> p in staging)
    && forall i, k :: 0 <= i < k < |files| ==> files[i] != files[k]
  }

  /** The destination after the first `n` copies. */
  function Copied(dest: Files, staging: Files, files: seq<Path>, n: nat): Files
    requires n <= |files| && forall p :: p in files ==> p in staging
  {
    if n == 0 then dest else Copied(dest, staging, files, n - 1)[files[n - 1] := staging[files[n - 1]]]
  }

  lemma {:induction false} CopiedAt(dest: Files, staging: Files, files: seq<Path>, n: nat)
    requires n <= |files| && forall p :: p in files ==> p in staging
    ensures forall p ::
      At(Copied(dest, staging, files, n), p) == if p in files[..n] then Some(staging[p]) else At(dest, p)
  {
    if n > 0 {
      CopiedAt(dest, staging, files, n - 1);
      assert files[..n] == files[..n - 1] + [files[n - 1]];
    }
  }

  /** Copying everything, in whatever order. */
  lemma AllCopied(dest: Files, staging: Files, files: seq<Path>)
    requires IsOrder(files, staging)
    ensures Copied(dest, staging, files, |files|) == dest + staging
  {
    CopiedAt(dest, staging, files, |files|);
    assert files[..|files|] == files;
    var all := Copied(dest, staging, files, |files|);
    forall p
      ensures p in all <==> p in dest + staging
      ensures p in all ==> all[p] == (dest + staging)[p]
    {
      assert At(all, p) == if p in files then Some(staging[p]) else At(dest, p);
    }
  }

  // ---- safe to run again ----

  /** The copy loop gets past the first `n` files. */
  ghost predicate Reaches(dest: Files, staging: Files, owned: map<Path, FileRecord>, files: seq<Path>, n: nat) {
    IsOrder(files, staging) && n <= |files| && forall i :: 0 <= i < n ==> !Vanished(dest, owned, files[i])
  }

  ghost predicate SafeToRerun(dest: Files, staging: Files, owned: map<Path, FileRecord>) {
    forall files, n | Reaches(dest, staging, owned, files, n) ::
      Passes(Copied(dest, staging, files, n), staging, owned)
  }

  lemma {:induction false} SomeOrder(paths: set<Path>, first: Path) returns (files: seq<Path>)
    requires first in paths
    ensures files != [] && files[0] == first
    ensures (forall p :: p in files <==> p in paths) && forall i, k :: 0 <= i < k < |files| ==> files[i] != files[k]
  {
    var rest := paths - {first};
    if rest == {} {
      files := [first];
    } else {
      var next :| next in rest;
      var tail := SomeOrder(rest, next);
      files := [first] + tail;
    }
  }

  /** After a check that passed, stopping between any two copies and starting
      over raises no conflict, whatever the order of the files, exactly when
      every staged file already in the destination that the manifest owns is
      recorded with its staged digest. */
  lemma RerunExactlyWhen(dest: Files, staging: Files, owned: map<Path, FileRecord>)
    requires Passes(dest, staging, owned)
    ensures SafeToRerun(dest, staging, owned)
       <==> forall p :: p in owned && p in staging && p in dest ==> owned[p].after == Some(staging[p])
  {
    if forall p :: p in owned && p in staging && p in dest ==> owned[p].after == Some(staging[p]) {
      forall files, n | Reaches(dest, staging, owned, files, n)
        ensures Passes(Copied(dest, staging, files, n), staging, owned)
      {
        StillPasses(dest, staging, owned, files, n);
      }
    } else {
      var p :| p in owned && p in staging && p in dest && owned[p].after != Some(staging[p]);
      var files := SomeOrder(staging.Keys, p);
      assert !Conflicts(dest, staging, owned, p);
      var now := Copied(dest, staging, files, 1);
      assert now == Copied(dest, staging, files, 0)[p := staging[p]];
      assert Conflicts(now, staging, owned, p);
      assert Reaches(dest, staging, owned, files, 1);
    }
  }

  lemma StillPasses(dest: Files, staging: Files, owned: map<Path, FileRecord>, files: seq<Path>, n: nat)
    requires Passes(dest, staging, owned) && Reaches(dest, staging, owned, files, n)
    requires forall p :: p in owned && p in staging && p in dest ==> owned[p].after == Some(staging[p])
    ensures Passes(Copied(dest, staging, files, n), staging, owned)
  {
    var now := Copied(dest, staging, files, n);
    CopiedAt(dest, staging, files, n);
    forall p | p in now
      ensures !Conflicts(now, staging, owned, p)
    {
      assert At(now, p) == if p in files[..n] then Some(staging[p]) else At(dest, p);
      assert p in dest ==> !Conflicts(dest, staging, owned, p);
    }
    forall p | p in staging && p !in now
      ensures p !in dest
    {
      assert At(now, p) == if p in files[..n] then Some(staging[p]) else At(dest, p);
    }
  }

  /** Files nobody staged, approved or knew about: what a temporary name of its own is. */
  predicate Foreign(extra: Files, dest: Files, staging: Files, owned: map<Path, FileRecord>) {
    extra.Keys !! (dest.Keys + staging.Keys + owned.Keys)
  }

  /** Any further files block an application that would pass exactly when one of them conflicts. */
  lemma ExtraFilesBlock(dest: Files, extra: Files, staging: Files, owned: map<Path, FileRecord>)
    requires Passes(dest, staging, owned) && extra.Keys !! dest.Keys
    ensures Passes(dest + extra, staging, owned)
       <==> forall p :: p in extra ==> !Conflicts(dest + extra, staging, owned, p)
  {
    forall p | p in dest
      ensures !Conflicts(dest + extra, staging, owned, p)
    {
      assert !Conflicts(dest, staging, owned, p);
    }
  }

  /** Starting over after a stop anywhere in the copy loop raises no conflict if and only if no
      foreign file, such as the temporary one of a killed copy, is left in the destination. */
  lemma RerunNeedsCleanDestination(dest: Files, staging: Files, owned: map<Path, FileRecord>, files: seq<Path>, n: nat,
                                   extra: Files)
    requires Consistent(owned) && !StagingDiffers(staging, owned)
    requires Passes(dest, staging, owned) && Reaches(dest, staging, owned, files, n)
    requires Foreign(extra, dest, staging, owned)
    ensures AnyConflict(Copied(dest, staging, files, n) + extra, staging, owned) <==> extra != map[]
    ensures Passes(Copied(dest, staging, files, n) + extra, staging, owned) <==> extra == map[]
  {
    var now := Copied(dest, staging, files, n);
    CopiedAt(dest, staging, files, n);
    StillPasses(dest, staging, owned, files, n);
    assert extra.Keys !! now.Keys by {
      forall p | p in now
        ensures p !in extra
      {
        assert At(now, p) == if p in files[..n] then Some(staging[p]) else At(dest, p);
      }
    }
    hide Copied, Reaches;
    ExtraFilesBlock(now, extra, staging, owned);
    if extra == map[] {
      assert now + extra == now;
    } else {
      var p :| p in extra;
      assert Conflicts(now + extra, staging, owned, p);
    }
  }

  /** Killed while it copies one new file into an empty destination, an application is refused
      ever after, until someone removes the temporary file. */
  lemma KilledCopyBlocks(file: Path, temporary: Path, digest: Digest, part: Digest)
    requires temporary != file
    ensures var staging := map[file := digest];
            && Passes(map[], staging, map[])
            && Reaches(map[], staging, map[], [file], 0) && Copied(map[], staging, [file], 0) == map[]
            && AnyConflict(Stray(InCopy(0, temporary, part)), staging, map[])
  {
    assert Conflicts(Stray(InCopy(0, temporary, part)), map[file := digest], map[], temporary);
  }

  /** A copy found its target absent, or owned at the recorded digest, or
      already equal to its source; and it left the source's content. */
  predicate SafeWrite(dest: Files, staging: Files, owned: map<Path, FileRecord>, p: Path, w: Write) {
    && p in staging && w.after == staging[p] && w.before == At(dest, p)
    && w.before in {None, if p in owned then owned[p].after else None, Some(staging[p])}
  }

  /** One turn of the copy loop. */
  lemma CopyStep(dest: Files, staging: Files, owned: map<Path, FileRecord>, files: seq<Path>, k: nat)
    requires Passes(dest, staging, owned) && Reaches(dest, staging, owned, files, k) && k < |files|
    ensures var p := files[k];
            && p in staging && p !in files[..k] && At(Copied(dest, staging, files, k), p) == At(dest, p)
            && var expected := Expectation(dest, staging, owned, p);
            && (expected == At(dest, p) <==> !Vanished(dest, owned, p))
            && (expected == At(dest, p) ==>
                  && Reaches(dest, staging, owned, files, k + 1)
                  && SafeWrite(dest, staging, owned, p, Write(expected, staging[p]))
                  && Copied(dest, staging, files, k + 1) == Copied(dest, staging, files, k)[p := staging[p]])
  {
    var p := files[k];
    CopiedAt(dest, staging, files, k);
    assert p in dest ==> !Conflicts(dest, staging, owned, p);
  }

  lemma PassesMeans(dest: Files, staging: Files, owned: map<Path, FileRecord>)
    ensures Passes(dest, staging, owned) <==>
      !AnyConflict(dest, staging, owned) && !LacksOwnedHash(dest, staging, owned)
  {
  }

  /** Where in the copy loop over `total` files a stop falls. */
  predicate StopsAt(stop: Stop, done: nat, total: nat) {
    match stop
    case Never => false
    case BeforeCopy(n) => done == n < total
    case InCopy(n, _, _) => done == n < total
    case BeforeManifest => false
  }

  lemma NothingStray(dest: Files, stop: Stop)
    requires !stop.InCopy?
    ensures dest + Stray(stop) == dest
  {
  }

  lemma CleanOrStray(dest: Files, staging: Files, files: seq<Path>, n: nat, stop: Stop)
    requires IsOrder(files, staging) && n <= |files|
    ensures !stop.InCopy? ==> Copied(dest, staging, files, n) + Stray(stop) == Copied(dest, staging, files, n)
    ensures Stray(stop) != map[] <==> stop.InCopy?
  {
    hide Copied;
    if stop.InCopy? {
      assert stop.temporary in Stray(stop);
    }
  }

  lemma NoStray(dest: Files, staging: Files, owned: map<Path, FileRecord>)
    ensures Foreign(Stray(Never), dest, staging, owned)
  {
  }

  /** What a killed run leaves for the next one. */
  lemma AfterStop(dest: Files, now: Files, staging: Files, owned: map<Path, FileRecord>, files: seq<Path>,
                  n: nat, stop: Stop)
    requires Consistent(owned) && !StagingDiffers(staging, owned)
    requires Passes(dest, staging, owned) && Reaches(dest, staging, owned, files, n)
    requires Foreign(Stray(stop), dest, staging, owned)
    requires now == Left(Copied(dest, staging, files, n), stop, Crashed)
    ensures AnyConflict(now, staging, owned) <==> stop.InCopy?
    ensures Passes(now, staging, owned) <==> !stop.InCopy?
    ensures !stop.InCopy? ==>
      && (forall p :: p in staging ==> (Vanished(now, owned, p) <==> Vanished(dest, owned, p)))
      && now + staging == dest + staging
      && Digests(FinalRecords(now, staging, owned)) == Digests(FinalRecords(dest, staging, owned))
  {
    hide FinalRecords, Digests, Vanished, Passes, AnyConflict, LacksOwnedHash, Copied, Foreign, Consistent;
    RerunNeedsCleanDestination(dest, staging, owned, files, n, Stray(stop));
    CleanOrStray(dest, staging, files, n, stop);
    RerunIsTheSame(dest, staging, owned, files, n);
  }

  /** A run that got through all the files met none that had vanished, before the stop either. */
  lemma NoneVanished(dest: Files, before: Files, staging: Files, owned: map<Path, FileRecord>, files: seq<Path>)
    requires Reaches(dest, staging, owned, files, |files|)
    requires forall p :: p in staging ==> (Vanished(dest, owned, p) <==> Vanished(before, owned, p))
    ensures forall p :: p in staging ==> !Vanished(before, owned, p)
  {
    forall p | p in staging
      ensures !Vanished(before, owned, p)
    {
      assert p in files;
    }
  }

  /** A run killed before the manifest write got through its copies. */
  function Copying(stop: Stop, r: Outcome): Outcome {
    if r == Crashed && stop == BeforeManifest then Finished else r
  }

  /** The outcome of the copying half of a run: how many files were copied, what else is left in
      the destination, and when it ends how. */
  ghost predicate Applies(dest0: Files, dest1: Files, staging: Files, owned: map<Path, FileRecord>, files: seq<Path>,
                          stop: Stop, done: nat, r: Outcome)
    requires IsOrder(files, staging)
  {
    && done <= |files|
    && dest1 == Left(Copied(dest0, staging, files, done), stop, r)
    && (r == Conflict <==> AnyConflict(dest0, staging, owned))
    && (r == MissingOwnedHash <==> !AnyConflict(dest0, staging, owned) && LacksOwnedHash(dest0, staging, owned))
    && (r == Conflict || r == MissingOwnedHash ==> done == 0)
    && (r == Crashed ==> Passes(dest0, staging, owned) && StopsAt(stop, done, |files|))
    && (r == ConcurrentChange ==> done < |files| && Vanished(dest0, owned, files[done]))
    && (Passes(dest0, staging, owned) ==> Reaches(dest0, staging, owned, files, done))
    && (r == Finished <==> Passes(dest0, staging, owned) && done == |files|)
    && r in {Finished, Conflict, MissingOwnedHash, ConcurrentChange, Crashed}
  }

  /** What the second of two runs comes to, told from before the first one. */
  lemma RerunEnds(before: Files, dest0: Files, dest1: Files, staging: Files, owned: map<Path, FileRecord>,
                  files: seq<Path>, done: nat, r: Outcome)
    requires IsOrder(files, staging) && Applies(dest0, dest1, staging, owned, files, Never, done, r)
    requires Passes(dest0, staging, owned) && dest0 + staging == before + staging
    requires forall p :: p in staging ==> (Vanished(dest0, owned, p) <==> Vanished(before, owned, p))
    ensures r == Finished || r == ConcurrentChange
    ensures r == Finished <==> forall p :: p in staging ==> !Vanished(before, owned, p)
    ensures r == Finished ==> dest1 == before + staging
  {
    hide Copied, Vanished, AnyConflict, LacksOwnedHash;
    AllCopied(dest0, staging, files);
    if r == Finished {
      NoneVanished(dest0, before, staging, owned, files);
    } else {
      assert files[done] in files;
    }
  }

  /** The results cover the files copied so far, each of them written safely. */
  ghost predicate Results(results: map<Path, Write>, dest: Files, staging: Files, owned: map<Path, FileRecord>,
                          copied: seq<Path>)
  {
    && (forall p :: p in results <==> p in copied)
    && (forall p :: p in results ==> SafeWrite(dest, staging, owned, p, results[p]))
  }

  lemma OneMoreResult(results: map<Path, Write>, dest: Files, staging: Files, owned: map<Path, FileRecord>,
                      files: seq<Path>, k: nat, w: Write)
    requires k < |files| && Results(results, dest, staging, owned, files[..k])
    requires SafeWrite(dest, staging, owned, files[k], w)
    ensures Results(results[files[k] := w], dest, staging, owned, files[..k + 1])
  {
    hide SafeWrite;
    assert files[..k + 1] == files[..k] + [files[k]];
  }

  lemma NoResults(dest: Files, staging: Files, owned: map<Path, FileRecord>)
    ensures Results(map[], dest, staging, owned, [])
  {
  }

  lemma AllResults(results: map<Path, Write>, dest: Files, staging: Files, owned: map<Path, FileRecord>,
                   files: seq<Path>)
    requires IsOrder(files, staging) && Results(results, dest, staging, owned, files[..|files|])
    ensures results.Keys == staging.Keys
  {
    assert files[..|files|] == files;
  }

  lemma LoopBounds(dest: Files, staging: Files, owned: map<Path, FileRecord>, files: seq<Path>)
    requires IsOrder(files, staging)
    ensures Reaches(dest, staging, owned, files, 0) && Copied(dest, staging, files, 0) == dest
    ensures forall p :: p in files <==> p in staging
  {
  }

  // ---- manifests ----

  /** What a finished run records. The first recorded `before` is kept. */
  function FinalRecords(dest: Files, staging: Files, owned: map<Path, FileRecord>): map<Path, FileRecord> {
    map p | p in staging ::
      FileRecord(staging[p],
                 Some(if p in owned && owned[p].before.Some? then owned[p].before.value else At(dest, p)),
                 Some(staging[p]))
  }

  lemma FinalRecordAt(dest: Files, staging: Files, owned: map<Path, FileRecord>, p: Path, w: Write)
    requires SafeWrite(dest, staging, owned, p, w)
    ensures p in staging && p in FinalRecords(dest, staging, owned)
    ensures FinalRecords(dest, staging, owned)[p]
      == FileRecord(staging[p],
                    Some(if p in owned && owned[p].before.Some? then owned[p].before.value else w.before),
                    Some(w.after))
  {
  }

  /** The records of some of the paths. */
  function Only(all: map<Path, FileRecord>, paths: seq<Path>): map<Path, FileRecord> {
    map p | p in all && p in paths :: all[p]
  }

  lemma NoneOf(all: map<Path, FileRecord>)
    ensures Only(all, []) == map[]
  {
  }

  lemma OneMoreOf(all: map<Path, FileRecord>, files: seq<Path>, k: nat)
    requires k < |files| && files[k] in all
    ensures Only(all, files[..k + 1]) == Only(all, files[..k])[files[k] := all[files[k]]]
  {
    assert files[..k + 1] == files[..k] + [files[k]];
  }

  lemma AllOf(all: map<Path, FileRecord>, files: seq<Path>)
    requires forall p :: p in all ==> p in files
    ensures Only(all, files[..|files|]) == all
  {
    assert files[..|files|] == files;
  }

  lemma StagedOrder(files: seq<Path>, staging: Files)
    requires IsOrder(files, staging)
    ensures forall p :: p in files <==> p in staging
  {
  }

  lemma ResultAt(results: map<Path, Write>, dest: Files, staging: Files, owned: map<Path, FileRecord>,
                 files: seq<Path>, k: nat)
    requires Results(results, dest, staging, owned, files) && k < |files|
    ensures files[k] in results && SafeWrite(dest, staging, owned, files[k], results[files[k]])
  {
    hide SafeWrite;
  }

  lemma FinalRecordsKeys(dest: Files, staging: Files, owned: map<Path, FileRecord>)
    ensures FinalRecords(dest, staging, owned).Keys == staging.Keys
  {
  }

  /** Everything but the `before` entries. */
  function Digests(records: map<Path, FileRecord>): map<Path, (Digest, Option<Digest>)> {
    map p | p in records :: (records[p].sha256, records[p].after)
  }

  /** A recorded destination digest is the recorded source digest. */
  ghost predicate Consistent(records: map<Path, FileRecord>) {
    forall p :: p in records && records[p].after.Some? ==> records[p].after == Some(records[p].sha256)
  }

  predicate StagingDiffers(staging: Files, owned: map<Path, FileRecord>) {
    exists p :: p in owned && p in staging && owned[p].sha256 != staging[p]
  }

  /** Running again from any point between two copies: no conflict, the
      same files vanish or none, and the destination and the digests come out
      as in an uninterrupted run. */
  lemma RerunIsTheSame(dest: Files, staging: Files, owned: map<Path, FileRecord>, files: seq<Path>, n: nat)
    requires Consistent(owned) && !StagingDiffers(staging, owned)
    requires Passes(dest, staging, owned) && Reaches(dest, staging, owned, files, n)
    ensures var now := Copied(dest, staging, files, n);
            && Passes(now, staging, owned)
            && (forall p :: p in staging ==> (Vanished(now, owned, p) <==> Vanished(dest, owned, p)))
            && now + staging == dest + staging
            && Digests(FinalRecords(now, staging, owned)) == Digests(FinalRecords(dest, staging, owned))
  {
    var now := Copied(dest, staging, files, n);
    CopiedAt(dest, staging, files, n);
    hide Copied, Passes, Conflicts;
    StillPasses(dest, staging, owned, files, n);
    hide Reaches, Consistent, StagingDiffers;
    forall p | p in staging
      ensures Vanished(now, owned, p) <==> Vanished(dest, owned, p)
    {
      assert At(now, p) == if p in files[..n] then Some(staging[p]) else At(dest, p);
    }
    forall p | p !in staging
      ensures At(now, p) == At(dest, p)
    {
      assert p !in files[..n];
    }
    UnionIgnores(now, dest, staging);
    SameDigests(now, dest, staging, owned);
  }

  lemma SameDigests(a: Files, b: Files, staging: Files, owned: map<Path, FileRecord>)
    ensures Digests(FinalRecords(a, staging, owned)) == Digests(FinalRecords(b, staging, owned))
  {
  }

  lemma UnionIgnores(a: Files, b: Files, top: Files)
    requires forall p :: p !in top ==> At(a, p) == At(b, p)
    ensures a + top == b + top
  {
    assert forall p :: p in a && p !in top ==> At(a, p) == At(b, p);
    assert forall p :: p in b && p !in top ==> At(a, p) == At(b, p);
  }

  datatype Target = Destination | StagingArea

  /** The digest a record leads the reconciliation to expect. */
  function ExpectedDigest(r: FileRecord, target: Target): Digest {
    if target == Destination && r.after.Some? && r.after.value != "" then r.after.value else r.sha256
  }

  predicate Differs(r: FileRecord, actual: Digest, target: Target) {
    ExpectedDigest(r, target) == "" || actual != ExpectedDigest(r, target)
  }

  function Reconciled(records: map<Path, FileRecord>, actual: Files, target: Target): Reconciliation {
    Reconciliation(records.Keys - actual.Keys,
                   (set p | p in records && p in actual && Differs(records[p], actual[p], target)),
                   actual.Keys - records.Keys)
  }

  /** A finished application reconciles exactly when the destination held no file that an earlier
      approval owned and staging has since dropped; its staging area always does. */
  lemma AppliedReconciles(dest: Files, staging: Files, owned: map<Path, FileRecord>)
    requires Passes(dest, staging, owned) && forall p :: p in staging ==> staging[p] != ""
    ensures var r := Reconciled(FinalRecords(dest, staging, owned), dest + staging, Destination);
            && (r.Valid() <==> forall p :: p in dest && p in owned ==> p in staging)
            && r.missing == {} && r.tampered == {} && r.extras == dest.Keys - staging.Keys
    ensures Reconciled(FinalRecords(dest, staging, owned), staging, StagingArea).Valid()
  {
    var r := Reconciled(FinalRecords(dest, staging, owned), dest + staging, Destination);
    forall p | p in dest && p !in staging
      ensures p in owned
    {
      assert !Conflicts(dest, staging, owned, p);
    }
    assert r.extras == dest.Keys - staging.Keys;
    if r.extras == {} {
      forall p | p in dest
        ensures p in staging
      {
        assert p !in r.extras;
      }
    }
  }

  /** An earlier approval put a file into the destination, staging has dropped it, and the finished
      application reports it as an extra file. */
  lemma DroppedFileIsExtra(dropped: Path, file: Path, was: Digest, digest: Digest)
    requires dropped != file && digest != ""
    ensures var dest, owned := map[dropped := was], map[dropped := FileRecord(was, Some(None), Some(was))];
            var staging := map[file := digest];
            && Passes(dest, staging, owned) && Consistent(owned) && !StagingDiffers(staging, owned)
            && Reconciled(FinalRecords(dest, staging, owned), dest + staging, Destination).extras == {dropped}
  {
    var dest, owned := map[dropped := was], map[dropped := FileRecord(was, Some(None), Some(was))];
    AppliedReconciles(dest, map[file := digest], owned);
  }

  // ---- the workspace ----

  /** Reconciliation: recorded paths that are missing, recorded paths whose
      content differs, and paths nobody recorded. */
  datatype Reconciliation = Reconciliation(missing: set<Path>, tampered: set<Path>, extras: set<Path>) {
    predicate Valid() { missing == {} && tampered == {} && extras == {} }
  }

  class Workspace {
    var staging: Files
    var dest: Files
    var manifest: Option<Manifest>

    constructor (staging: Files, dest: Files, manifest: Option<Manifest>)
      ensures this.staging == staging && this.dest == dest && this.manifest == manifest
    {
      this.staging, this.dest, this.manifest := staging, dest, manifest;
    }

    /** `_copy_file_atomic`: replaces the target only if it is as expected. */
    method CopyFile(p: Path, expected: Option<Digest>) returns (w: Option<Write>)
      requires p in staging
      modifies this`dest
      ensures w.Some? <==> At(old(dest), p) == expected
      ensures w.Some? ==> w.value == Write(expected, staging[p]) && dest == old(dest)[p := staging[p]]
      ensures w.None? ==> dest == old(dest)
    {
      if At(dest, p) != expected { return None; }
      dest := dest[p := staging[p]];
      return Some(Write(expected, staging[p]));
    }

    /** The stop is somewhere a run over these files can come to; a temporary name is nobody else's. */
    ghost predicate Possible(stop: Stop, owned: map<Path, FileRecord>)
      reads this`dest, this`staging
    {
      Foreign(Stray(stop), dest, staging, owned)
    }

    /** `_materialize`, up to a stop. */
    method Materialize(files: seq<Path>, owned: map<Path, FileRecord>, stop: Stop)
      returns (r: Outcome, results: map<Path, Write>, ghost done: nat)
      requires IsOrder(files, staging) && Possible(stop, owned)
      modifies this`dest
      ensures Applies(old(dest), dest, staging, owned, files, stop, done, r)
      ensures r == Finished ==> results.Keys == staging.Keys
      ensures Results(results, old(dest), staging, owned, files[..done])
    {
      hide Reaches, IsOrder, Passes, Copied, Expectation, Vanished, AnyConflict, LacksOwnedHash, Results;
      hide Stray, Foreign;
      LoopBounds(dest, staging, owned, files);
      PassesMeans(dest, staging, owned);
      NoResults(dest, staging, owned);
      results, done := map[], 0;
      if AnyConflict(dest, staging, owned) { return Conflict, results, done; }
      if LacksOwnedHash(dest, staging, owned) { return MissingOwnedHash, results, done; }
      var expectations := map p | p in staging :: Expectation(dest, staging, owned, p);
      r, results, done := CopyAll(files, owned, expectations, stop);
    }

    /** The copy loop. */
    method CopyAll(files: seq<Path>, ghost owned: map<Path, FileRecord>, expectations: map<Path, Option<Digest>>,
                   stop: Stop)
      returns (r: Outcome, results: map<Path, Write>, ghost done: nat)
      requires IsOrder(files, staging) && Passes(dest, staging, owned)
      requires expectations == map p | p in staging :: Expectation(dest, staging, owned, p)
      modifies this`dest
      ensures done <= |files| && dest == Left(Copied(old(dest), staging, files, done), stop, r)
      ensures r in {Finished, ConcurrentChange, Crashed} && (r == Finished <==> done == |files|)
      ensures r == Crashed ==> StopsAt(stop, done, |files|)
      ensures r == ConcurrentChange ==> Vanished(old(dest), owned, files[done])
      ensures Reaches(old(dest), staging, owned, files, done)
      ensures r == Finished ==> results.Keys == staging.Keys
      ensures Results(results, old(dest), staging, owned, files[..done])
    {
      hide Reaches, IsOrder, Passes, Copied, Expectation, Vanished, Results, Stray, SafeWrite;
      LoopBounds(dest, staging, owned, files);
      NoResults(dest, staging, owned);
      results, done := map[], 0;
      ghost var dest0 := dest;
      assert files[..0] == [];
      var k := 0;
      while k < |files|
        invariant 0 <= k <= |files| && done == k && dest == Copied(dest0, staging, files, k)
        invariant Reaches(dest0, staging, owned, files, k)
        invariant Results(results, dest0, staging, owned, files[..k])
      {
        if stop == BeforeCopy(k) {
          NothingStray(dest, stop);
          return Crashed, results, done;
        }
        var p := files[k];
        CopyStep(dest0, staging, owned, files, k);
        if stop.InCopy? && stop.n == k && At(dest, p) == expectations[p] {
          dest := dest + Stray(stop);
          return Crashed, results, done;
        }
        var w := CopyFile(p, expectations[p]);
        if w.None? { return ConcurrentChange, results, done; }
        OneMoreResult(results, dest0, staging, owned, files, k, w.value);
        results := results[p := w.value];
        k := k + 1;
        done := k;
      }
      AllResults(results, dest0, staging, owned, files);
      return Finished, results, done;
    }

    /** `finalize_workspace`, without the ZIP, up to a stop. */
    method Finalize(files: seq<Path>, stop: Stop) returns (r: Outcome, ghost done: nat)
      requires IsOrder(files, staging)
      requires manifest.Some? ==> Possible(stop, manifest.value.files)
      modifies this`dest, this`manifest
      ensures r == NotFound <==> old(manifest).None?
      ensures old(manifest).Some? ==>
                var m := old(manifest.value);
                && (r == NoOutput <==> staging == map[])
                && (r == StagingChanged <==> staging != map[] && StagingDiffers(staging, m.files))
                && (staging == map[] || StagingDiffers(staging, m.files) ==> dest == old(dest))
                && (staging != map[] && !StagingDiffers(staging, m.files) ==>
                      var copying := Copying(stop, r);
                      if m.autoApply then Applies(old(dest), dest, staging, m.files, files, stop, done, copying)
                      else dest == old(dest) && copying == Finished)
      ensures stop == BeforeManifest ==> r != Finished
      ensures r == Finished ==>
                var m := old(manifest.value);
                manifest == Some(Manifest(m.autoApply, if m.autoApply then Applied else Ready,
                                          if m.autoApply then FinalRecords(old(dest), staging, m.files)
                                          else map p | p in staging :: FileRecord(staging[p], None, None)))
      ensures r != Finished ==> manifest == old(manifest)
      ensures r == NotFound ==> dest == old(dest)
      ensures old(manifest).Some? && Consistent(old(manifest.value.files)) ==> Consistent(manifest.value.files)
    {
      hide IsOrder, Copied, Passes, AnyConflict, LacksOwnedHash, Reaches, SafeWrite, FinalRecords, Vanished, Possible;
      done := 0;
      if manifest.None? { return NotFound, done; }
      var m := manifest.value;
      if staging == map[] { return NoOutput, done; }
      if StagingDiffers(staging, m.files) { return StagingChanged, done; }
      if !m.autoApply {
        if stop == BeforeManifest { return Crashed, done; }
        manifest := Some(Manifest(m.autoApply, Ready, map p | p in staging :: FileRecord(staging[p], None, None)));
        return Finished, done;
      }
      ghost var dest0 := dest;
      var results;
      r, results, done := Materialize(files, m.files, stop);
      if r != Finished { return r, done; }
      if stop == BeforeManifest { return Crashed, done; }
      var records := BuildRecords(files, m.files, results, dest0);
      FinalRecordsConsistent(dest0, staging, m.files);
      manifest := Some(Manifest(m.autoApply, Applied, records));
      return Finished, done;
    }

    /** The metadata loop of `finalize_workspace`. */
    method BuildRecords(files: seq<Path>, owned: map<Path, FileRecord>, results: map<Path, Write>, ghost dest0: Files)
      returns (records: map<Path, FileRecord>)
      requires IsOrder(files, staging) && Results(results, dest0, staging, owned, files)
      ensures records == FinalRecords(dest0, staging, owned)
    {
      ghost var all := FinalRecords(dest0, staging, owned);
      StagedOrder(files, staging);
      NoneOf(all);
      records := map[];
      hide FinalRecords, SafeWrite, Results, IsOrder, Only;
      assert files[..0] == [];
      for k := 0 to |files|
        invariant records == Only(all, files[..k])
      {
        var p := files[k];
        ResultAt(results, dest0, staging, owned, files, k);
        FinalRecordAt(dest0, staging, owned, p, results[p]);
        var before := if p in owned && owned[p].before.Some? then owned[p].before.value else results[p].before;
        OneMoreOf(all, files, k);
        records := records[p := FileRecord(staging[p], Some(before), Some(results[p].after))];
      }
      FinalRecordsKeys(dest0, staging, owned);
      AllOf(all, files);
    }

    /** A run that is killed anywhere, then a second run over the same staging, with the files met
        in another order: it meets a conflict exactly when the first one was killed inside a copy,
        and otherwise ends as an uninterrupted run. */
    method CrashAndRerun(files: seq<Path>, stop: Stop, again: seq<Path>) returns (first: Outcome, second: Outcome)
      requires IsOrder(files, staging) && IsOrder(again, staging)
      requires manifest.Some? && manifest.value.autoApply && Consistent(manifest.value.files)
      requires Possible(stop, manifest.value.files)
      modifies this`dest, this`manifest
      ensures first == Crashed ==> (second == Conflict <==> stop.InCopy?)
      ensures first == Crashed && !stop.InCopy? ==>
                (second == Finished <==>
                 forall p :: p in staging ==> !Vanished(old(dest), old(manifest.value.files), p))
      ensures first == Crashed && !stop.InCopy? ==> second == Finished || second == ConcurrentChange
      ensures first == Crashed && second == Finished ==>
                && dest == old(dest) + staging
                && manifest.Some? && manifest.value.status == Applied
                && Digests(manifest.value.files) == Digests(FinalRecords(old(dest), staging, old(manifest.value.files)))
      ensures first == Crashed && second == Conflict ==> manifest == old(manifest)
      ensures manifest.Some? && Consistent(manifest.value.files)
    {
      hide FinalRecords, Digests, Vanished, Passes, AnyConflict, LacksOwnedHash, Copied, Reaches, Foreign;
      hide Consistent, IsOrder;
      ghost var owned, dest0 := manifest.value.files, dest;
      ghost var done;
      first, done := Finalize(files, stop);
      second := first;
      if first == Crashed {
        ghost var dest1, reached := dest, 0;
        AfterStop(dest0, dest1, staging, owned, files, done, stop);
        NoStray(dest1, staging, owned);
        second, reached := Finalize(again, Never);
        if !stop.InCopy? {
          RerunEnds(dest0, dest1, dest, staging, owned, again, reached, second);
        }
      }
    }

    /** `reconcile_workspace` of the destination or of staging. */
    method Reconcile(target: Target) returns (r: Option<Reconciliation>)
      ensures r == if manifest.None? then None
                   else Some(Reconciled(manifest.value.files, if target == Destination then dest else staging, target))
    {
      if manifest.None? { return None; }
      var expected := manifest.value.files;
      var actual := if target == Destination then dest else staging;
      var missing, tampered, rest := {}, {}, expected.Keys;
      while rest != {}
        invariant rest <= expected.Keys
        invariant missing == (expected.Keys - rest) - actual.Keys
        invariant tampered ==
                  set p | p in expected.Keys - rest && p in actual && Differs(expected[p], actual[p], target)
      {
        var p :| p in rest;
        rest := rest - {p};
        if p !in actual {
          missing := missing + {p};
        } else if ExpectedDigest(expected[p], target) == "" || actual[p] != ExpectedDigest(expected[p], target) {
          tampered := tampered + {p};
        }
      }
      assert expected.Keys - rest == expected.Keys;
      r := Some(Reconciliation(missing, tampered, actual.Keys - expected.Keys));
      assert r.value.tampered == Reconciled(expected, actual, target).tampered;
    }

    /** `materialize_approved_file`, up to a stop inside the copy or behind it. */
    method Approve(p: Path, stop: Stop) returns (r: Outcome)
      requires p in staging
      requires manifest.Some? ==> Possible(stop, manifest.value.files)
      modifies this`dest, this`manifest
      ensures r == NotFound <==> old(manifest).None?
      ensures r in {Finished, Crashed} ==>
                var m := old(manifest.value);
                && dest == (if m.autoApply && r == Crashed && stop.InCopy? then old(dest) + Stray(stop)
                            else if m.autoApply then old(dest)[p := staging[p]] else old(dest))
                && (p in m.files ==> m.files[p].sha256 == staging[p])
                && (m.autoApply ==>
                      At(old(dest), p) in {None, Some(staging[p]), if p in m.files then m.files[p].after else None})
      ensures r !in {Finished, Crashed} ==> dest == old(dest)
      ensures r != Finished ==> manifest == old(manifest)
      ensures r == Finished ==>
                var m := old(manifest.value);
                manifest == Some(Manifest(m.autoApply, if m.autoApply then PartiallyApplied else Staging,
                  m.files[p := if m.autoApply then FileRecord(staging[p], Some(At(old(dest), p)), Some(staging[p]))
                               else FileRecord(staging[p], None, None)]))
      ensures old(manifest).Some? && Consistent(old(manifest.value.files)) ==> Consistent(manifest.value.files)
      // stopping before the manifest write does not stand in the way of a second call
      ensures r == Crashed && Consistent(old(manifest.value.files)) ==> ApprovesNow(p)
      ensures stop == Never && old(ApprovesNow(p)) ==> r == Finished
      ensures r == Crashed ==> stop.InCopy? || stop == BeforeManifest
    {
      if manifest.None? { return NotFound; }
      var m := manifest.value;
      if p in m.files && m.files[p].sha256 != staging[p] { return StagingChanged; }
      var record := FileRecord(staging[p], None, None);
      if m.autoApply {
        var expected: Option<Digest>;
        if p in m.files {
          if m.files[p].after.None? { return MissingOwnedHash; }
          expected := m.files[p].after;
        } else if p in dest {
          if dest[p] != staging[p] { return Conflict; }
          expected := Some(dest[p]);
        } else {
          expected := None;
        }
        if stop.InCopy? && At(dest, p) == expected {
          dest := dest + Stray(stop);
          return Crashed;
        }
        var w := CopyFile(p, expected);
        if w.None? { return ConcurrentChange; }
        record := FileRecord(staging[p], Some(w.value.before), Some(w.value.after));
      }
      if stop == BeforeManifest { return Crashed; }
      manifest := Some(Manifest(m.autoApply, if m.autoApply then PartiallyApplied else Staging, m.files[p := record]));
      return Finished;
    }

    /** An approval of this path would go through. */
    predicate ApprovesNow(p: Path)
      reads this
      requires p in staging
    {
      && manifest.Some?
      && var m := manifest.value;
      && (p in m.files ==> m.files[p].sha256 == staging[p])
      && (m.autoApply ==> if p in m.files then m.files[p].after.Some? && At(dest, p) == m.files[p].after
                          else At(dest, p) in {None, Some(staging[p])})
    }
  }

  /** Finishing a run keeps the manifest consistent. */
  lemma FinalRecordsConsistent(dest: Files, staging: Files, owned: map<Path, FileRecord>)
    ensures Consistent(FinalRecords(dest, staging, owned))
  {
  }
}

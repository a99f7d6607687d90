/** What applying and reconciling artifacts mean for the files of a destination. */
module ArtifactLaws {
  import opened Common
  import opened Artifacts

  /** Whatever becomes of the files after a finished application, reconciling the destination or the staging
      area reports each staged file that is gone, each whose content is another one, and each file nobody
      staged; so it is valid exactly when the staged files are there and nothing else. */
  lemma ReportsExactly(dest: Files, staging: Files, owned: map<Path, FileRecord>, later: Files, target: Target)
    requires forall p :: p in staging ==> staging[p] != ""
    ensures var r := Reconciled(FinalRecords(dest, staging, owned), later, target);
            && (forall p :: p in r.missing <==> p in staging && p !in later)
            && (forall p :: p in r.tampered <==> p in staging && p in later && later[p] != staging[p])
            && (forall p :: p in r.extras <==> p in later && p !in staging)
            && (r.Valid() <==> later == staging)
  {
  }

  /** A file nobody staged or approved, or staged anew over another content, or changed since it was approved. */
  predicate IsForeign(dest: Files, staging: Files, owned: map<Path, FileRecord>, p: Path)
    requires p in dest
  {
    || (p !in staging && p !in owned)
    || (p in staging && p !in owned && dest[p] != staging[p])
    || (p in staging && p in owned && owned[p].after != Some(dest[p]))
  }

  /** An application is refused for a conflict exactly when some file of the destination is neither
      staged nor approved before, or is staged anew with another content, or was approved and is no
      longer as it was approved. */
  lemma ConflictExactly(dest: Files, staging: Files, owned: map<Path, FileRecord>)
    ensures AnyConflict(dest, staging, owned) <==>
      exists p :: p in dest && IsForeign(dest, staging, owned, p)
  {
  }

  /** However an application ends, it takes no file away, and changes only files that stood as they
      had been approved, to what is staged now. */
  lemma NothingForeignIsChanged(dest0: Files, dest1: Files, staging: Files, owned: map<Path, FileRecord>,
                                files: seq<Path>, stop: Stop, done: nat, r: Outcome)
    requires IsOrder(files, staging) && Applies(dest0, dest1, staging, owned, files, stop, done, r)
    requires Foreign(Stray(stop), dest0, staging, owned)
    ensures forall p :: p in dest0 ==>
      && p in dest1
      && (dest1[p] != dest0[p] ==>
            p in staging && p in owned && owned[p].after == Some(dest0[p]) && dest1[p] == staging[p])
    ensures forall p :: p in dest1 && p !in dest0 ==>
      (p in staging && dest1[p] == staging[p]) || (r == Crashed && stop.InCopy? && p == stop.temporary)
  {
    CopiedAt(dest0, staging, files, done);
    var copied := Copied(dest0, staging, files, done);
    hide Copied, IsOrder;
    assert done > 0 ==> Passes(dest0, staging, owned);
    forall p | p in dest0
      ensures p in copied
      ensures copied[p] != dest0[p] ==>
        p in staging && p in owned && owned[p].after == Some(dest0[p]) && copied[p] == staging[p]
    {
      assert At(copied, p) == if p in files[..done] then Some(staging[p]) else At(dest0, p);
      if p in files[..done] {
        assert !Conflicts(dest0, staging, owned, p);
      }
    }
    forall p | p in copied && p !in dest0
      ensures p in staging && copied[p] == staging[p]
    {
      assert At(copied, p) == if p in files[..done] then Some(staging[p]) else At(dest0, p);
    }
  }
}

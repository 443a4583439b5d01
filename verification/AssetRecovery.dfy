/**
 The recovery pass of the step machine and the one of `recover_storage` are the same: left
 to itself, the machine opens exactly the safe disks, and leaves what recovery makes of them.
 */
module AssetRecovery {
  import opened Foundation
  import opened AssetStore
  import opened AssetProtocol
  import opened AssetReopen

  predicate RecoveryAction(a: Action) {
    a.VerifyNext? || a.DeleteStaged? || a.MoveStagingEntry? || a.MoveBlobEntry? || a.NextPhase?
  }

  /** Recovery of `d` up to the sweep of the blob directory. */
  ghost predicate EmptiedFrom(d: Disk, e: Disk) {
    && e.rows == DropStaged(d, StagedIds(d)).rows && e.blobs == d.blobs && e.staging == map[]
    && forall b :: e.quarantine[b] == d.quarantine[b] + Copies(d.staging, b)
  }

  ghost predicate Emptying(d: Disk, names: set<nat>, e: Disk) {
    && e.rows == DropStaged(d, StagedIds(d)).rows && e.blobs == d.blobs && e.staging.Keys == names
    && forall b :: e.quarantine[b] + Copies(e.staging, b) == d.quarantine[b] + Copies(d.staging, b)
  }

  ghost predicate Sweeping(d: Disk, keys: set<string>, e: Disk) {
    keys <= d.blobs.Keys && exists empty :: EmptiedFrom(d, empty) && Swept(empty, PublishedKeys(d), keys, e)
  }

  ghost predicate VerifiedBut(sha: Hasher, d: Disk, todo: set<AssetId>) {
    todo <= PublishedIds(d) && forall id :: IsPublished(d, id) && id !in todo ==> BlobGood(sha, d, d.rows[id].desc)
  }

  /** How far recovery of the disk `d` has got. */
  ghost predicate Progress(sha: Hasher, d: Disk, handle: Handle, now: Disk) {
    match handle
    case Recovering(Verifying(todo)) => now == d && VerifiedBut(sha, d, todo)
    case Recovering(Deleting) => now == d && Safe(sha, d)
    case Recovering(ScanStaging(names)) => Safe(sha, d) && Emptying(d, names, now)
    case Recovering(ScanBlobs(keys)) => Safe(sha, d) && Sweeping(d, keys, now)
    case Open => Safe(sha, d) && RecoveredFrom(d, now)
    case Closed => !Safe(sha, d) && now == d
    case Closing => false
  }

  lemma DroppedKeys(d: Disk, e: Disk)
    requires e.rows == DropStaged(d, StagedIds(d)).rows
    ensures PublishedKeys(e) == PublishedKeys(d)
  {
    assert forall id :: IsPublished(e, id) <==> IsPublished(d, id);
    assert PublishedIds(e) == PublishedIds(d);
  }

  lemma VerifyProgress(sha: Hasher, s: State, d: Disk, a: Action)
    requires s.handle.Recovering? && s.handle.phase.Verifying? && Progress(sha, d, s.handle, s.disk) && RecoveryAction(a)
    ensures var s' := ApplyRecovery(sha, s, a); Progress(sha, d, s'.handle, s'.disk)
  {
    if a.VerifyNext? && a.id in s.handle.phase.todo && a.id in d.rows {
      assert IsPublished(d, a.id);
    }
  }

  lemma DeleteProgress(sha: Hasher, s: State, d: Disk, a: Action)
    requires s.handle.Recovering? && s.handle.phase.Deleting? && Progress(sha, d, s.handle, s.disk) && RecoveryAction(a)
    ensures var s' := ApplyRecovery(sha, s, a); Progress(sha, d, s'.handle, s'.disk)
  {
  }

  lemma MovedStaging(d: Disk, names: set<nat>, e: Disk, n: nat)
    requires Emptying(d, names, e) && n in names
    ensures Emptying(d, names - {n}, MoveStaging(e, n))
  {
    forall b { CopiesRemove(e.staging, n, b); }
  }

  lemma Emptied(d: Disk, e: Disk)
    requires Emptying(d, {}, e)
    ensures Sweeping(d, e.blobs.Keys, e)
  {
    forall b { CopiesBounded(e.staging, b); }
    assert EmptiedFrom(d, e);
    SweepBegins(e, PublishedKeys(d));
  }

  lemma StagingProgress(sha: Hasher, s: State, d: Disk, a: Action)
    requires s.handle.Recovering? && s.handle.phase.ScanStaging? && Progress(sha, d, s.handle, s.disk) && RecoveryAction(a)
    ensures var s' := ApplyRecovery(sha, s, a); Progress(sha, d, s'.handle, s'.disk)
  {
    var names := s.handle.phase.names;
    if a.MoveStagingEntry? && a.name in names {
      MovedStaging(d, names, s.disk, a.name);
    } else if a.NextPhase? && names == {} {
      Emptied(d, s.disk);
    }
  }

  lemma SweptOne(d: Disk, keys: set<string>, e: Disk, key: string)
    requires Sweeping(d, keys, e) && key in keys
    ensures key in e.blobs && Sweeping(d, keys - {key}, if key in PublishedKeys(d) then e else MoveBlob(e, key))
  {
    var empty :| EmptiedFrom(d, empty) && Swept(empty, PublishedKeys(d), keys, e);
    SweepStep(empty, PublishedKeys(d), keys, e, key);
  }

  lemma SweptAll(d: Disk, e: Disk)
    requires Sweeping(d, {}, e)
    ensures RecoveredFrom(d, e)
  {
    var empty :| EmptiedFrom(d, empty) && Swept(empty, PublishedKeys(d), {}, e);
    assert Moved(empty, PublishedKeys(d), {}) == Orphans(d);
  }

  lemma BlobProgress(sha: Hasher, s: State, d: Disk, a: Action)
    requires s.handle.Recovering? && s.handle.phase.ScanBlobs? && Progress(sha, d, s.handle, s.disk) && RecoveryAction(a)
    ensures var s' := ApplyRecovery(sha, s, a); Progress(sha, d, s'.handle, s'.disk)
  {
    var keys := s.handle.phase.keys;
    SweepingRows(d, keys, s.disk);
    if a.MoveBlobEntry? && a.key in keys {
      SweptOne(d, keys, s.disk, a.key);
    } else if a.NextPhase? && keys == {} {
      SweptAll(d, s.disk);
    }
  }

  lemma SweepingRows(d: Disk, keys: set<string>, e: Disk)
    requires Sweeping(d, keys, e)
    ensures PublishedKeys(e) == PublishedKeys(d)
  {
    DroppedKeys(d, e);
  }

  lemma RecoveryProgress(sha: Hasher, s: State, d: Disk, a: Action)
    requires Progress(sha, d, s.handle, s.disk) && RecoveryAction(a)
    ensures var s' := Apply(sha, s, a); Progress(sha, d, s'.handle, s'.disk)
  {
    if s.handle.Recovering? {
      match s.handle.phase
      case Verifying(_) => VerifyProgress(sha, s, d, a);
      case Deleting => DeleteProgress(sha, s, d, a);
      case ScanStaging(_) => StagingProgress(sha, s, d, a);
      case ScanBlobs(_) => BlobProgress(sha, s, d, a);
    }
  }

  lemma {:induction false} RecoveryRun(sha: Hasher, s: State, d: Disk, actions: seq<Action>)
    requires Progress(sha, d, s.handle, s.disk) && forall i :: 0 <= i < |actions| ==> RecoveryAction(actions[i])
    ensures var s' := Run(sha, s, actions); Progress(sha, d, s'.handle, s'.disk)
  {
    if actions != [] {
      var k := |actions| - 1;
      RecoveryRun(sha, s, d, actions[..k]);
      RecoveryProgress(sha, Run(sha, s, actions[..k]), d, actions[k]);
    }
  }

  /**
   Reopening a closed store and letting only recovery act, in whatever order it looks at
   rows and files: if the store opens, every published blob verified and the disk is the
   recovered one; if it refuses, some published blob does not verify and nothing changed.
   */
  lemma RecoveryRefines(sha: Hasher, s: State, actions: seq<Action>)
    requires s.handle.Closed? && forall i :: 0 <= i < |actions| ==> RecoveryAction(actions[i])
    ensures var s' := Run(sha, Apply(sha, s, Reopen), actions);
            && (s'.handle.Open? ==> Safe(sha, s.disk) && RecoveredFrom(s.disk, s'.disk))
            && (s'.handle.Closed? ==> !Safe(sha, s.disk) && s'.disk == s.disk)
  {
    assert forall id :: IsPublished(s.disk, id) ==> id in PublishedIds(s.disk);
    RecoveryRun(sha, Apply(sha, s, Reopen), s.disk, actions);
  }
}

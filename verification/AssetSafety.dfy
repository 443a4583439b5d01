/**
 Crash safety of the ingest protocol, step by step: every step of every party keeps the
 invariant, and every published row with its blob.
 */
module AssetSafety {
  import opened Foundation
  import opened AssetStore
  import opened AssetProtocol

  /** `s'` differs from `s` in call `c` and in what no other call relies on. */
  ghost predicate OthersUndisturbed(s: State, s': State, c: nat) {
    && s'.handle == s.handle && s'.gen == s.gen && s'.next == s.next && s'.corrupt == s.corrupt
    && s'.calls.Keys <= s.calls.Keys && s'.calls - {c} == s.calls - {c}
    && s'.disk.staging - {c} == s.disk.staging - {c}
    && (c in s'.calls ==> s'.calls[c].gen == s.calls[c].gen && s'.calls[c].desc == s.calls[c].desc)
  }

  /** Row and blob of one id are the same in both disks. */
  ghost predicate SameAsset(d: Disk, d': Disk, id: AssetId) {
    && (id in d.rows <==> id in d'.rows) && (id in d.rows ==> d'.rows[id] == d.rows[id])
    && (BlobKey(id) in d.blobs <==> BlobKey(id) in d'.blobs)
    && (BlobKey(id) in d.blobs ==> d'.blobs[BlobKey(id)] == d.blobs[BlobKey(id)])
  }

  ghost predicate OnlyAsset(d: Disk, d': Disk, id: AssetId) {
    forall other :: other != id ==> SameAsset(d, d', other)
  }

  ghost predicate NoOtherOwner(s: State, c: nat)
    requires c in s.calls
  {
    forall o :: Owns(s, o) && o != c ==> s.calls[o].desc.id != s.calls[c].desc.id
  }

  /** Either the call's own asset is untouched, or nobody else can be relying on it. */
  ghost predicate AssetMayChange(s: State, s': State, c: nat)
    requires c in s.calls
  {
    var id := s.calls[c].desc.id;
    && OnlyAsset(s.disk, s'.disk, id)
    && (SameAsset(s.disk, s'.disk, id) || (!IsPublished(s.disk, id) && NoOtherOwner(s, c)))
  }

  lemma ReturnStaysTrue(d: Disk, d': Disk, r: Return)
    requires ReturnTrue(d, r) && AssetProtocol.Keeps(d, d')
    ensures ReturnTrue(d', r)
  {
  }

  lemma AssetKept(s: State, s': State, c: nat)
    requires c in s.calls && AssetMayChange(s, s', c)
    ensures AssetProtocol.Keeps(s.disk, s'.disk)
  {
    forall id | IsPublished(s.disk, id) ensures SameAsset(s.disk, s'.disk, id) { }
  }

  lemma NoCurrentKept(s: State, s': State, c: nat)
    requires OthersUndisturbed(s, s', c) && NoCurrentCalls(s)
    ensures NoCurrentCalls(s')
  {
    forall o | o in s'.calls ensures s'.calls[o].gen < s'.gen {
      assert o in s.calls;
      assert o != c ==> o in s'.calls - {c} && o in s.calls - {c};
    }
  }

  lemma OtherCallKept(sha: Hasher, s: State, s': State, c: nat, o: nat)
    requires Inv(sha, s) && c in s.calls && OthersUndisturbed(s, s', c) && AssetMayChange(s, s', c)
    requires o in s.calls && o != c
    requires s.calls[c].gen < s.gen ==> s'.disk.rows == s.disk.rows
    ensures o in s'.calls && s'.calls[o] == s.calls[o] && CallInv(sha, s', o)
  {
    assert o in (s.calls - {c}) && o in (s'.calls - {c});
    assert o in s.disk.staging <==> o in (s.disk.staging - {c});
    assert o in s'.disk.staging <==> o in (s'.disk.staging - {c});
    assert CallInv(sha, s, o);
    AssetKept(s, s', c);
    if Owns(s, o) {
      assert SameAsset(s.disk, s'.disk, s.calls[o].desc.id);
    }
    if NoCurrentCalls(s) {
      NoCurrentKept(s, s', c);
    }
    if s.calls[o].pc.Cleanup? {
      ReturnStaysTrue(s.disk, s'.disk, s.calls[o].pc.result);
    }
  }

  /** What is left to show of the stepping call itself, its row and what it told its caller. */
  ghost predicate OwnStep(sha: Hasher, s: State, s': State, c: nat)
    requires c in s.calls
  {
    var id := s.calls[c].desc.id;
    && (s.calls[c].gen < s.gen ==> s'.disk.rows == s.disk.rows)
    && (id in s'.disk.rows ==> s'.disk.rows[id].desc.id == id)
    && (IsPublished(s'.disk, id) ==> BlobGood(sha, s'.disk, s'.disk.rows[id].desc))
    && (c in s'.calls ==> CallInv(sha, s', c) && (Owns(s', c) ==> Owns(s, c) || NoOtherOwner(s, c)))
    && (s'.replies == s.replies || exists r :: s'.replies == s.replies + [r] && ReplyOk(s, s', c, r))
  }

  ghost predicate ReplyOk(s: State, s': State, c: nat, r: Return)
    requires c in s.calls
  {
    ReturnTrue(s'.disk, r) && (r.Inserted? ==> r.desc.id == s.calls[c].desc.id && !IsPublished(s.disk, r.desc.id))
  }

  lemma RepliesKept(sha: Hasher, s: State, s': State, c: nat)
    requires Inv(sha, s) && c in s.calls && AssetProtocol.Keeps(s.disk, s'.disk) && OwnStep(sha, s, s', c)
    ensures ReturnsInv(s')
  {
    forall i | 0 <= i < |s.replies| ensures ReturnTrue(s'.disk, s.replies[i]) {
      ReturnStaysTrue(s.disk, s'.disk, s.replies[i]);
    }
  }

  lemma OwnersKept(s: State, s': State, c: nat)
    requires OwnersDistinct(s) && c in s.calls && OthersUndisturbed(s, s', c)
    requires c in s'.calls && Owns(s', c) ==> Owns(s, c) || NoOtherOwner(s, c)
    ensures OwnersDistinct(s')
  {
    forall o | o != c && Owns(s', o) ensures Owns(s, o) && s'.calls[o] == s.calls[o] {
      assert o in s'.calls - {c} && o in s.calls - {c};
    }
  }

  lemma DiskKept(sha: Hasher, s: State, s': State, c: nat)
    requires Safe(sha, s.disk) && RowsNamed(s.disk) && c in s.calls && AssetMayChange(s, s', c) && OwnStep(sha, s, s', c)
    ensures Safe(sha, s'.disk) && RowsNamed(s'.disk)
  {
    var id := s.calls[c].desc.id;
    forall other | other in s'.disk.rows ensures s'.disk.rows[other].desc.id == other {
      assert other == id || SameAsset(s.disk, s'.disk, other);
    }
    forall other | IsPublished(s'.disk, other) ensures BlobGood(sha, s'.disk, s'.disk.rows[other].desc) {
      assert other == id || SameAsset(s.disk, s'.disk, other);
    }
  }

  lemma CallStepKeepsInv(sha: Hasher, s: State, s': State, c: nat)
    requires Inv(sha, s) && c in s.calls && OthersUndisturbed(s, s', c) && AssetMayChange(s, s', c) && OwnStep(sha, s, s', c)
    ensures Inv(sha, s') && AssetProtocol.Keeps(s.disk, s'.disk)
  {
    AssetKept(s, s', c);
    RepliesKept(sha, s, s', c);
    OwnersKept(s, s', c);
    DiskKept(sha, s, s', c);
    forall o | o in s'.calls ensures CallInv(sha, s', o) {
      if o != c {
        OtherCallKept(sha, s, s', c, o);
      }
    }
    if s.handle.Recovering? {
      NoCurrentKept(s, s', c);
    }
  }

  // ----- Calls: local steps, commands, lost responses -----

  lemma BlobKeysDistinct()
    ensures forall a: AssetId, b: AssetId {:trigger BlobKey(a), BlobKey(b)} :: BlobKey(a) == BlobKey(b) ==> a == b
  {
    forall a: AssetId, b: AssetId | BlobKey(a) == BlobKey(b) ensures a == b {
      BlobKeyInjective(a, b);
    }
  }

  /** Steps that touch at most the call's own staging file. */
  lemma QuietStepKeepsInv(sha: Hasher, s: State, s': State, c: nat)
    requires Inv(sha, s) && c in s.calls && OthersUndisturbed(s, s', c) && OwnStep(sha, s, s', c)
    requires s'.disk.rows == s.disk.rows && s'.disk.blobs == s.disk.blobs
    ensures Inv(sha, s') && AssetProtocol.Keeps(s.disk, s'.disk)
  {
    assert forall id :: SameAsset(s.disk, s'.disk, id);
    CallStepKeepsInv(sha, s, s', c);
  }

  /** A step that only moves the call on. */
  lemma GotoKeepsInv(sha: Hasher, s: State, c: nat, pc: Pc)
    requires Inv(sha, s) && c in s.calls && (Owning(pc) ==> Owning(s.calls[c].pc))
    requires s.calls[c].detached || CallInv(sha, s.(calls := s.calls[c := s.calls[c].(pc := pc)]), c)
    ensures Inv(sha, Goto(s, c, pc)) && AssetProtocol.Keeps(s.disk, Goto(s, c, pc).disk)
  {
    QuietStepKeepsInv(sha, s, Goto(s, c, pc), c);
  }

  /** A step that only returns from the call. */
  lemma FinishKeepsInv(sha: Hasher, s: State, c: nat, r: Return)
    requires Inv(sha, s) && c in s.calls && ReturnTrue(s.disk, r) && !r.Inserted?
    ensures Inv(sha, Finish(s, c, r)) && AssetProtocol.Keeps(s.disk, Finish(s, c, r).disk)
  {
    var s' := Finish(s, c, r);
    assert s.calls[c].detached || (s'.replies == s.replies + [r] && ReplyOk(s, s', c, r));
    QuietStepKeepsInv(sha, s, s', c);
  }

  lemma ResumeKeepsInv(sha: Hasher, s: State, c: nat, after: AfterRemove)
    requires Inv(sha, s) && c in s.calls
    ensures Inv(sha, Resume(s, c, after)) && AssetProtocol.Keeps(s.disk, Resume(s, c, after).disk)
  {
    assert CallInv(sha, s, c);
    if after.ThenCleanup? { GotoKeepsInv(sha, s, c, Cleanup(Failed)); } else { FinishKeepsInv(sha, s, c, Failed); }
  }

  lemma CreatingKeepsInv(sha: Hasher, s: State, c: nat, chunk: Bytes, ok: bool)
    requires Inv(sha, s) && c in s.calls && s.calls[c].pc.Creating?
    ensures var s' := StepCall(sha, s, c, chunk, ok); Inv(sha, s') && AssetProtocol.Keeps(s.disk, s'.disk)
  {
    assert CallInv(sha, s, c);
    if ok {
      QuietStepKeepsInv(sha, s, StepCall(sha, s, c, chunk, ok), c);
    } else {
      GotoKeepsInv(sha, s, c, Cleanup(Failed));
    }
  }

  lemma WritingKeepsInv(sha: Hasher, s: State, c: nat, chunk: Bytes, ok: bool)
    requires Inv(sha, s) && c in s.calls && s.calls[c].pc.Writing?
    ensures var s' := StepCall(sha, s, c, chunk, ok); Inv(sha, s') && AssetProtocol.Keeps(s.disk, s'.disk)
  {
    assert CallInv(sha, s, c);
    var Call(desc, gen, pc, detached) := s.calls[c];
    if !ok || |chunk| > READ_BUFFER_SIZE || (chunk != [] && |pc.written| + |chunk| > desc.length) {
      GotoKeepsInv(sha, s, c, Cleanup(Failed));
    } else if chunk == [] {
      GotoKeepsInv(sha, s, c, if Verifies(sha, pc.written, desc) then SendStage else Cleanup(Failed));
    } else {
      WriteChunkKeepsInv(sha, s, c, chunk);
    }
  }

  lemma WriteChunkKeepsInv(sha: Hasher, s: State, c: nat, chunk: Bytes)
    requires Inv(sha, s) && c in s.calls && s.calls[c].pc.Writing?
    ensures var s' := WriteChunk(s, c, chunk); Inv(sha, s') && AssetProtocol.Keeps(s.disk, s'.disk)
  {
    assert CallInv(sha, s, c);
    QuietStepKeepsInv(sha, s, WriteChunk(s, c, chunk), c);
  }

  lemma CleanupKeepsInv(sha: Hasher, s: State, c: nat, chunk: Bytes, ok: bool)
    requires Inv(sha, s) && c in s.calls && s.calls[c].pc.Cleanup?
    ensures var s' := StepCall(sha, s, c, chunk, ok); Inv(sha, s') && AssetProtocol.Keeps(s.disk, s'.disk)
  {
    assert CallInv(sha, s, c);
    var r := s.calls[c].pc.result;
    if ok {
      var s' := StepCall(sha, s, c, chunk, ok);
      assert s.calls[c].detached || (s'.replies == s.replies + [r] && ReplyOk(s, s', c, r));
      QuietStepKeepsInv(sha, s, s', c);
    } else {
      FinishKeepsInv(sha, s, c, Failed);
    }
  }

  lemma SendStageKeepsInv(sha: Hasher, s: State, c: nat, chunk: Bytes, ok: bool)
    requires Inv(sha, s) && c in s.calls && s.calls[c].pc.SendStage?
    ensures var s' := StepCall(sha, s, c, chunk, ok); Inv(sha, s') && AssetProtocol.Keeps(s.disk, s'.disk)
  {
    assert CallInv(sha, s, c);
    GotoKeepsInv(sha, s, c, if ok && WorkerAlive(s, c) then AwaitStage else Cleanup(Failed));
  }

  lemma SendPublishKeepsInv(sha: Hasher, s: State, c: nat, chunk: Bytes, ok: bool)
    requires Inv(sha, s) && c in s.calls && s.calls[c].pc.SendPublish?
    ensures var s' := StepCall(sha, s, c, chunk, ok); Inv(sha, s') && AssetProtocol.Keeps(s.disk, s'.disk)
  {
    assert CallInv(sha, s, c);
    GotoKeepsInv(sha, s, c, if ok && WorkerAlive(s, c) then AwaitPublish else Quarantining);
  }

  lemma SendRemoveKeepsInv(sha: Hasher, s: State, c: nat, chunk: Bytes, ok: bool)
    requires Inv(sha, s) && c in s.calls && s.calls[c].pc.SendRemove?
    ensures var s' := StepCall(sha, s, c, chunk, ok); Inv(sha, s') && AssetProtocol.Keeps(s.disk, s'.disk)
  {
    assert CallInv(sha, s, c);
    var after := s.calls[c].pc.after;
    if ok && WorkerAlive(s, c) {
      GotoKeepsInv(sha, s, c, AwaitRemove(after));
    } else {
      ResumeKeepsInv(sha, s, c, after);
    }
  }

  lemma RenamingKeepsInv(sha: Hasher, s: State, c: nat, chunk: Bytes, ok: bool)
    requires Inv(sha, s) && c in s.calls && s.calls[c].pc.Renaming?
    ensures var s' := StepCall(sha, s, c, chunk, ok); Inv(sha, s') && AssetProtocol.Keeps(s.disk, s'.disk)
  {
    var s' := StepCall(sha, s, c, chunk, ok);
    assert CallInv(sha, s, c);
    if ok && c in s.disk.staging {
      BlobKeysDistinct();
      assert s.calls[c].gen < s.gen ==> NoOtherOwner(s, c);
      assert Owns(s, c) ==> NoOtherOwner(s, c);
      CallStepKeepsInv(sha, s, s', c);
    } else {
      GotoKeepsInv(sha, s, c, SendRemove(ThenCleanup));
    }
  }

  lemma QuarantiningKeepsInv(sha: Hasher, s: State, c: nat, chunk: Bytes, ok: bool)
    requires Inv(sha, s) && c in s.calls && s.calls[c].pc.Quarantining?
    ensures var s' := StepCall(sha, s, c, chunk, ok); Inv(sha, s') && AssetProtocol.Keeps(s.disk, s'.disk)
  {
    var s' := StepCall(sha, s, c, chunk, ok);
    assert CallInv(sha, s, c) && Owns(s, c);
    BlobKeysDistinct();
    CallStepKeepsInv(sha, s, s', c);
  }

  lemma StepKeepsInv(sha: Hasher, s: State, c: nat, chunk: Bytes, ok: bool)
    requires Inv(sha, s) && c in s.calls
    ensures var s' := StepCall(sha, s, c, chunk, ok); Inv(sha, s') && AssetProtocol.Keeps(s.disk, s'.disk)
  {
    match s.calls[c].pc
    case Renaming => RenamingKeepsInv(sha, s, c, chunk, ok);
    case Quarantining => QuarantiningKeepsInv(sha, s, c, chunk, ok);
    case SendPublish => SendPublishKeepsInv(sha, s, c, chunk, ok);
    case SendRemove(_) => SendRemoveKeepsInv(sha, s, c, chunk, ok);
    case Creating => CreatingKeepsInv(sha, s, c, chunk, ok);
    case Writing(_) => WritingKeepsInv(sha, s, c, chunk, ok);
    case SendStage => SendStageKeepsInv(sha, s, c, chunk, ok);
    case Cleanup(_) => CleanupKeepsInv(sha, s, c, chunk, ok);
    case _ =>
  }

  lemma LoseKeepsInv(sha: Hasher, s: State, c: nat)
    requires Inv(sha, s) && c in s.calls
    ensures Inv(sha, LoseCall(s, c)) && AssetProtocol.Keeps(s.disk, LoseCall(s, c).disk)
  {
    assert CallInv(sha, s, c);
    match s.calls[c].pc
    case AwaitLookup => FinishKeepsInv(sha, s, c, Failed);
    case AwaitStage => GotoKeepsInv(sha, s, c, Cleanup(Failed));
    case AwaitPublish => GotoKeepsInv(sha, s, c, Quarantining);
    case AwaitRemove(after) => ResumeKeepsInv(sha, s, c, after);
    case _ =>
  }

  lemma LookupKeepsInv(sha: Hasher, s: State, c: nat, ok: bool)
    requires Inv(sha, s) && c in s.calls && WorkerAlive(s, c) && s.calls[c].pc.AwaitLookup?
    ensures var s' := WorkCall(s, c, ok); Inv(sha, s') && AssetProtocol.Keeps(s.disk, s'.disk)
  {
    assert CallInv(sha, s, c);
    var desc := s.calls[c].desc;
    if !ok || IsStaged(s.disk, desc.id) {
      FinishKeepsInv(sha, s, c, Failed);
    } else if desc.id !in s.disk.rows {
      GotoKeepsInv(sha, s, c, Creating);
    } else {
      FinishKeepsInv(sha, s, c, if s.disk.rows[desc.id].desc == desc then Existing(desc) else Conflicting(desc));
    }
  }

  lemma StageKeepsInv(sha: Hasher, s: State, c: nat, ok: bool)
    requires Inv(sha, s) && c in s.calls && WorkerAlive(s, c) && s.calls[c].pc.AwaitStage?
    ensures var s' := WorkCall(s, c, ok); Inv(sha, s') && AssetProtocol.Keeps(s.disk, s'.disk)
  {
    assert CallInv(sha, s, c);
    var desc := s.calls[c].desc;
    if !ok || IsStaged(s.disk, desc.id) {
      GotoKeepsInv(sha, s, c, Cleanup(Failed));
    } else if desc.id in s.disk.rows {
      GotoKeepsInv(sha, s, c, Cleanup(if s.disk.rows[desc.id].desc == desc then Existing(desc) else Conflicting(desc)));
    } else {
      StageRowKeepsInv(sha, s, c);
    }
  }

  lemma StageRowKeepsInv(sha: Hasher, s: State, c: nat)
    requires Inv(sha, s) && c in s.calls && WorkerAlive(s, c) && s.calls[c].pc.AwaitStage?
    requires s.calls[c].desc.id !in s.disk.rows
    ensures var s' := WorkCall(s, c, true); Inv(sha, s') && AssetProtocol.Keeps(s.disk, s'.disk)
  {
    var s' := WorkCall(s, c, true);
    assert CallInv(sha, s, c);
    forall o | Owns(s, o) ensures s.calls[o].desc.id in s.disk.rows { assert CallInv(sha, s, o); }
    assert NoOtherOwner(s, c);
    CallStepKeepsInv(sha, s, s', c);
  }

  lemma PublishKeepsInv(sha: Hasher, s: State, c: nat, ok: bool)
    requires Inv(sha, s) && c in s.calls && WorkerAlive(s, c) && s.calls[c].pc.AwaitPublish?
    ensures var s' := WorkCall(s, c, ok); Inv(sha, s') && AssetProtocol.Keeps(s.disk, s'.disk)
  {
    var s' := WorkCall(s, c, ok);
    assert CallInv(sha, s, c) && Owns(s, c);
    if ok {
      var r := Inserted(s.calls[c].desc);
      assert ReplyOk(s, s', c, r);
      if !s.calls[c].detached {
        assert s'.replies == s.replies + [r];
      }
      CallStepKeepsInv(sha, s, s', c);
    } else {
      GotoKeepsInv(sha, s, c, Quarantining);
    }
  }

  lemma RemoveKeepsInv(sha: Hasher, s: State, c: nat, ok: bool)
    requires Inv(sha, s) && c in s.calls && WorkerAlive(s, c) && s.calls[c].pc.AwaitRemove?
    ensures var s' := WorkCall(s, c, ok); Inv(sha, s') && AssetProtocol.Keeps(s.disk, s'.disk)
  {
    assert CallInv(sha, s, c) && Owns(s, c);
    var after := s.calls[c].pc.after;
    if ok {
      var gone := DropRowKeepsInv(sha, s, c);
      ResumeKeepsInv(sha, gone, c, after);
      ResumeAfterDrop(s, gone, c);
    } else {
      ResumeKeepsInv(sha, s, c, after);
    }
  }

  lemma ResumeAfterDrop(s: State, gone: State, c: nat)
    requires c in s.calls && WorkerAlive(s, c) && s.calls[c].pc.AwaitRemove? && IsStaged(s.disk, s.calls[c].desc.id)
    requires gone == s.(disk := s.disk.(rows := s.disk.rows - {s.calls[c].desc.id}), calls := s.calls[c := s.calls[c].(pc := Cleanup(Failed))])
    ensures Resume(gone, c, s.calls[c].pc.after) == WorkCall(s, c, true)
  {
    assert gone.calls - {c} == s.calls - {c};
  }

  /** Deleting the staged row its owner still holds. */
  lemma DropRowKeepsInv(sha: Hasher, s: State, c: nat) returns (gone: State)
    requires Inv(sha, s) && Owns(s, c)
    ensures gone == s.(disk := s.disk.(rows := s.disk.rows - {s.calls[c].desc.id}), calls := s.calls[c := s.calls[c].(pc := Cleanup(Failed))])
    ensures Inv(sha, gone) && AssetProtocol.Keeps(s.disk, gone.disk)
  {
    var id := s.calls[c].desc.id;
    gone := s.(disk := s.disk.(rows := s.disk.rows - {id}), calls := s.calls[c := s.calls[c].(pc := Cleanup(Failed))]);
    assert CallInv(sha, s, c);
    assert OnlyAsset(s.disk, gone.disk, id) && CallInv(sha, gone, c);
    CallStepKeepsInv(sha, s, gone, c);
  }

  lemma WorkKeepsInv(sha: Hasher, s: State, c: nat, ok: bool)
    requires Inv(sha, s) && c in s.calls && WorkerAlive(s, c)
    ensures var s' := WorkCall(s, c, ok); Inv(sha, s') && AssetProtocol.Keeps(s.disk, s'.disk)
  {
    match s.calls[c].pc
    case AwaitLookup => LookupKeepsInv(sha, s, c, ok);
    case AwaitStage => StageKeepsInv(sha, s, c, ok);
    case AwaitPublish => PublishKeepsInv(sha, s, c, ok);
    case AwaitRemove(_) => RemoveKeepsInv(sha, s, c, ok);
    case _ =>
  }

  // ----- Handles, crashes, recovery -----

  lemma BegunCallInv(sha: Hasher, s: State, s': State, desc: Descriptor, c: nat)
    requires Inv(sha, s) && s.handle.Open? && desc.length <= I64_MAX && s.next !in s.calls
    requires s' == s.(calls := s.calls[s.next := Call(desc, s.gen, AwaitLookup, false)], next := s.next + 1) && c in s'.calls
    ensures CallInv(sha, s', c)
  {
    if c != s.next {
      assert CallInv(sha, s, c);
    }
  }

  lemma BeginKeepsInv(sha: Hasher, s: State, desc: Descriptor)
    requires Inv(sha, s) && s.handle.Open? && desc.length <= I64_MAX
    ensures Inv(sha, s.(calls := s.calls[s.next := Call(desc, s.gen, AwaitLookup, false)], next := s.next + 1))
  {
    var s' := s.(calls := s.calls[s.next := Call(desc, s.gen, AwaitLookup, false)], next := s.next + 1);
    assert s.next in s.calls ==> CallInv(sha, s, s.next);
    forall c | c in s'.calls ensures CallInv(sha, s', c) {
      BegunCallInv(sha, s, s', desc, c);
    }
    assert forall c :: Owns(s', c) ==> Owns(s, c);
  }

  lemma CancelKeepsInv(sha: Hasher, s: State, c: nat, running: bool)
    requires Inv(sha, s)
    ensures Inv(sha, Apply(sha, s, Cancel(c, running))) && AssetProtocol.Keeps(s.disk, Apply(sha, s, Cancel(c, running)).disk)
  {
    if c in s.calls {
      assert CallInv(sha, s, c);
      QuietStepKeepsInv(sha, s, Apply(sha, s, Cancel(c, running)), c);
    }
  }

  /** Only the handle changes, and recovery still lies ahead of whatever it lay ahead of. */
  lemma HandleKeepsInv(sha: Hasher, s: State, handle: Handle)
    requires Inv(sha, s) && PhaseInv(s.(handle := handle))
    requires forall c :: c in s.calls && c in s.disk.staging && s.calls[c].pc.Renaming? && s.calls[c].gen < s.gen ==>
                           StagingPending(s.(handle := handle), c)
    ensures Inv(sha, s.(handle := handle))
  {
    var s' := s.(handle := handle);
    forall c | c in s'.calls ensures CallInv(sha, s', c) {
      assert CallInv(sha, s, c);
    }
    assert forall c :: Owns(s', c) ==> Owns(s, c);
  }

  /** A stale call still about to rename an existing staging file has recovery ahead of it. */
  lemma StaleRenamePending(sha: Hasher, s: State, c: nat)
    requires Inv(sha, s) && c in s.calls && c in s.disk.staging && s.calls[c].pc.Renaming? && s.calls[c].gen < s.gen
    ensures StagingPending(s, c)
  {
    assert CallInv(sha, s, c);
  }

  lemma ReopenKeepsInv(sha: Hasher, s: State)
    requires Inv(sha, s) && s.handle.Closed? && Quiet(s)
    ensures Inv(sha, Apply(sha, s, Reopen))
  {
    var s' := Apply(sha, s, Reopen);
    forall c | c in s'.calls ensures CallInv(sha, s', c) {
      assert CallInv(sha, s, c);
    }
    assert forall c :: !Owns(s', c);
  }

  /** A recovery step that changes the disk: published assets stay, nothing else is relied on. */
  lemma RecoveryStepKeepsInv(sha: Hasher, s: State, s': State)
    requires Inv(sha, s) && s.handle.Recovering? && s' == s.(disk := s'.disk, handle := s'.handle)
    requires forall id :: id in s'.disk.rows ==> id in s.disk.rows && s'.disk.rows[id] == s.disk.rows[id]
    requires forall id :: IsPublished(s.disk, id) ==> SameAsset(s.disk, s'.disk, id)
    requires PhaseInv(s')
    requires forall c :: c in s'.disk.staging ==> c in s.disk.staging && (StagingPending(s, c) ==> StagingPending(s', c))
    ensures Inv(sha, s') && AssetProtocol.Keeps(s.disk, s'.disk)
  {
    forall c | c in s'.calls ensures CallInv(sha, s', c) {
      assert CallInv(sha, s, c);
      if s.calls[c].pc.Cleanup? {
        ReturnStaysTrue(s.disk, s'.disk, s.calls[c].pc.result);
      }
    }
    assert forall c :: !Owns(s', c);
    forall i | 0 <= i < |s.replies| ensures ReturnTrue(s'.disk, s.replies[i]) {
      ReturnStaysTrue(s.disk, s'.disk, s.replies[i]);
    }
    forall id | IsPublished(s'.disk, id) ensures BlobGood(sha, s'.disk, s'.disk.rows[id].desc) {
      assert IsPublished(s.disk, id) && SameAsset(s.disk, s'.disk, id);
    }
  }

  lemma DeleteKeepsInv(sha: Hasher, s: State)
    requires Inv(sha, s) && s.handle == Recovering(Deleting)
    ensures var s' := ApplyRecovery(sha, s, DeleteStaged); Inv(sha, s') && AssetProtocol.Keeps(s.disk, s'.disk)
  {
    var s' := ApplyRecovery(sha, s, DeleteStaged);
    forall id | id in s.disk.rows ensures id in s'.disk.rows <==> IsPublished(s.disk, id) {
      assert IsStaged(s.disk, id) <==> id in StagedIds(s.disk);
    }
    RecoveryStepKeepsInv(sha, s, s');
  }

  lemma MoveBlobKeepsInv(sha: Hasher, s: State, key: string)
    requires Inv(sha, s) && s.handle.Recovering? && s.handle.phase.ScanBlobs?
    ensures var s' := ApplyRecovery(sha, s, MoveBlobEntry(key)); Inv(sha, s') && AssetProtocol.Keeps(s.disk, s'.disk)
  {
    var s' := ApplyRecovery(sha, s, MoveBlobEntry(key));
    if key in s.handle.phase.keys && key !in PublishedKeys(s.disk) {
      forall id | IsPublished(s.disk, id) ensures BlobKey(id) != key {
        assert id in PublishedIds(s.disk);
        assert BlobKey(id) in PublishedKeys(s.disk);
      }
    }
    assert StagedIds(s'.disk) == StagedIds(s.disk);
    RecoveryStepKeepsInv(sha, s, s');
  }

  lemma RecoveryKeepsInv(sha: Hasher, s: State, a: Action)
    requires Inv(sha, s) && s.handle.Recovering?
    ensures var s' := ApplyRecovery(sha, s, a); Inv(sha, s') && AssetProtocol.Keeps(s.disk, s'.disk)
  {
    var s' := ApplyRecovery(sha, s, a);
    if a.DeleteStaged? && s.handle.phase.Deleting? {
      DeleteKeepsInv(sha, s);
    } else if a.MoveBlobEntry? && s.handle.phase.ScanBlobs? {
      MoveBlobKeepsInv(sha, s, a.key);
    } else {
      if a.VerifyNext? && s.handle.phase.Verifying? && a.id in s.handle.phase.todo {
        assert IsPublished(s.disk, a.id);
      }
      assert StagedIds(s'.disk) == StagedIds(s.disk) && PublishedIds(s'.disk) == PublishedIds(s.disk);
      RecoveryStepKeepsInv(sha, s, s');
    }
  }

  /** Every step from a state of the invariant, reopening only when quiet, keeps it. */
  lemma CloseKeepsInv(sha: Hasher, s: State)
    requires Inv(sha, s) && s.handle.Open?
    ensures Inv(sha, s.(handle := Closing))
  {
    forall c | c in s.calls && c in s.disk.staging && s.calls[c].pc.Renaming? && s.calls[c].gen < s.gen {
      StaleRenamePending(sha, s, c);
    }
    HandleKeepsInv(sha, s, Closing);
  }

  lemma CrashKeepsInv(sha: Hasher, s: State)
    requires Inv(sha, s)
    ensures Inv(sha, s.(calls := map[], handle := Closed))
  {
    assert forall c :: !Owns(s.(calls := map[], handle := Closed), c);
  }

  lemma ApplyKeepsInv(sha: Hasher, s: State, a: Action)
    requires Inv(sha, s) && QuietAction(s, a)
    ensures var s' := Apply(sha, s, a); Inv(sha, s') && AssetProtocol.Keeps(s.disk, s'.disk)
  {
    match a
    case Begin(desc) =>
      if s.handle.Open? && desc.length <= I64_MAX { BeginKeepsInv(sha, s, desc); }
    case Step(c, chunk, ok) =>
      if c in s.calls { StepKeepsInv(sha, s, c, chunk, ok); }
    case Work(c, ok) =>
      if c in s.calls && WorkerAlive(s, c) { WorkKeepsInv(sha, s, c, ok); }
    case Lose(c) =>
      if c in s.calls { LoseKeepsInv(sha, s, c); }
    case Cancel(c, running) => CancelKeepsInv(sha, s, c, running);
    case Close => if s.handle.Open? { CloseKeepsInv(sha, s); }
    case Stop =>
      if s.handle.Closing? { HandleKeepsInv(sha, s, Closed); }
    case Crash => CrashKeepsInv(sha, s);
    case Reopen =>
      if s.handle.Closed? { ReopenKeepsInv(sha, s); }
    case _ =>
      if s.handle.Recovering? { RecoveryKeepsInv(sha, s, a); }
  }
}

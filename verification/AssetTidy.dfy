/**
 What an ingest leaves behind: nothing in staging once it is over, and, when it fails,
 nothing at all but what it had to quarantine.
 */
module AssetTidy {
  import opened Foundation
  import opened AssetStore
  import opened AssetProtocol
  import opened AssetSafety
  import opened AssetReopen
  import opened AssetLateMove

  // ----- Staging holds the files of calls that are still running -----

  /** The call has no staging file yet, or has moved it. */
  predicate Fileless(pc: Pc) {
    || pc.AwaitLookup? || pc.Creating? || pc.SendPublish? || pc.AwaitPublish? || pc.Quarantining?
    || pc == SendRemove(ThenReturn) || pc == AwaitRemove(ThenReturn)
  }

  ghost predicate TidyCall(s: State, c: nat)
    requires c in s.calls
  {
    c < s.next && !s.calls[c].detached && (Fileless(s.calls[c].pc) ==> c !in s.disk.staging)
  }

  ghost predicate Tidy(s: State) {
    s.disk.staging.Keys <= s.calls.Keys && forall c :: c in s.calls ==> TidyCall(s, c)
  }

  /** Nobody is cancelled, nothing crashes, and removing a staging file succeeds. */
  predicate Careful(s: State, a: Action) {
    && !a.Cancel? && !a.Crash?
    && (a.Step? && a.call in s.calls && s.calls[a.call].pc.Cleanup? ==> a.ok)
  }

  /** A step of call `c`: nobody else's file is touched ... */
  ghost predicate OwnFile(s: State, s': State, c: nat) {
    forall x :: x in s'.disk.staging ==> x == c || x in s.disk.staging
  }

  /** ... nor anybody else's call ... */
  ghost predicate OwnCall(s: State, s': State, c: nat) {
    && s'.next == s.next
    && (forall x :: x in s.calls ==> x == c || x in s'.calls)
    && (forall x :: x in s'.calls ==> x in s.calls && (x == c || s'.calls[x] == s.calls[x]))
  }

  /** ... and its own file is gone or its own call still there. */
  ghost predicate OwnTidy(s': State, c: nat) {
    (c in s'.disk.staging ==> c in s'.calls) && (c in s'.calls ==> TidyCall(s', c))
  }

  lemma OwnFileTidy(s: State, s': State, c: nat)
    requires Tidy(s) && c in s.calls && OwnFile(s, s', c) && OwnCall(s, s', c) && OwnTidy(s', c)
    ensures Tidy(s')
  {
    forall x | x in s'.calls ensures TidyCall(s', x) {
      assert x != c ==> TidyCall(s, x);
    }
  }

  lemma LocalStepFile(sha: Hasher, s: State, c: nat, chunk: Bytes, ok: bool)
    requires c in s.calls
    ensures OwnFile(s, StepCall(sha, s, c, chunk, ok), c)
  {
  }

  lemma LocalStepCall(sha: Hasher, s: State, c: nat, chunk: Bytes, ok: bool)
    requires c in s.calls
    ensures OwnCall(s, StepCall(sha, s, c, chunk, ok), c)
  {
  }

  lemma LocalStepOwnTidy(sha: Hasher, s: State, c: nat, chunk: Bytes, ok: bool)
    requires c in s.calls && TidyCall(s, c) && (s.calls[c].pc.Cleanup? ==> ok)
    ensures OwnTidy(StepCall(sha, s, c, chunk, ok), c)
  {
    var pc := s.calls[c].pc;
    if pc.Creating? || pc.Writing? || pc.SendStage? || pc.Renaming? {
      FileStepOwnTidy(sha, s, c, chunk, ok);
    }
  }

  /** The steps that create, fill and move the staging file. */
  lemma FileStepOwnTidy(sha: Hasher, s: State, c: nat, chunk: Bytes, ok: bool)
    requires c in s.calls && TidyCall(s, c)
    requires var pc := s.calls[c].pc; pc.Creating? || pc.Writing? || pc.SendStage? || pc.Renaming?
    ensures OwnTidy(StepCall(sha, s, c, chunk, ok), c)
  {
  }

  lemma LocalStepTidy(sha: Hasher, s: State, c: nat, chunk: Bytes, ok: bool)
    requires Tidy(s) && c in s.calls && (s.calls[c].pc.Cleanup? ==> ok)
    ensures Tidy(StepCall(sha, s, c, chunk, ok))
  {
    assert TidyCall(s, c);
    LocalStepFile(sha, s, c, chunk, ok);
    LocalStepCall(sha, s, c, chunk, ok);
    LocalStepOwnTidy(sha, s, c, chunk, ok);
    OwnFileTidy(s, StepCall(sha, s, c, chunk, ok), c);
  }

  lemma WorkOwn(s: State, c: nat, ok: bool)
    requires c in s.calls && WorkerAlive(s, c)
    ensures OwnFile(s, WorkCall(s, c, ok), c) && OwnCall(s, WorkCall(s, c, ok), c)
  {
    match s.calls[c].pc
    case AwaitLookup =>
    case AwaitStage =>
    case AwaitPublish =>
    case AwaitRemove(_) =>
    case _ =>
  }

  lemma WorkOwnTidy(s: State, c: nat, ok: bool)
    requires c in s.calls && WorkerAlive(s, c) && TidyCall(s, c)
    ensures OwnTidy(WorkCall(s, c, ok), c)
  {
    match s.calls[c].pc
    case AwaitLookup =>
    case AwaitStage =>
    case AwaitPublish =>
    case AwaitRemove(_) =>
    case _ =>
  }

  lemma WorkTidy(s: State, c: nat, ok: bool)
    requires Tidy(s) && c in s.calls && WorkerAlive(s, c)
    ensures Tidy(WorkCall(s, c, ok))
  {
    assert TidyCall(s, c);
    WorkOwn(s, c, ok);
    WorkOwnTidy(s, c, ok);
    OwnFileTidy(s, WorkCall(s, c, ok), c);
  }

  lemma LoseTidy(s: State, c: nat)
    requires Tidy(s) && c in s.calls
    ensures Tidy(LoseCall(s, c))
  {
    assert TidyCall(s, c);
    OwnFileTidy(s, LoseCall(s, c), c);
  }

  lemma BeginTidy(s: State, desc: Descriptor)
    requires Tidy(s)
    ensures Tidy(s.(calls := s.calls[s.next := Call(desc, s.gen, AwaitLookup, false)], next := s.next + 1))
  {
    var s' := s.(calls := s.calls[s.next := Call(desc, s.gen, AwaitLookup, false)], next := s.next + 1);
    assert s.next in s.calls ==> TidyCall(s, s.next);
    forall c | c in s'.calls ensures TidyCall(s', c) {
      assert c != s.next ==> TidyCall(s, c);
    }
  }

  /** Steps that change no call and only take files out of staging. */
  lemma ShrinkTidy(s: State, s': State)
    requires Tidy(s) && s'.calls == s.calls && s'.next == s.next && s'.disk.staging.Keys <= s.disk.staging.Keys
    ensures Tidy(s')
  {
    forall c | c in s'.calls ensures TidyCall(s', c) {
      assert TidyCall(s, c);
    }
  }

  lemma RecoveryShrinks(sha: Hasher, s: State, a: Action)
    requires s.handle.Recovering?
    ensures var s' := ApplyRecovery(sha, s, a);
            s'.calls == s.calls && s'.next == s.next && s'.disk.staging.Keys <= s.disk.staging.Keys
  {
  }

  lemma StepTidy(sha: Hasher, s: State, a: Action)
    requires Tidy(s) && Careful(s, a)
    ensures Tidy(Apply(sha, s, a))
  {
    match a
    case Begin(desc) => BeginTidy(s, desc);
    case Step(c, chunk, ok) => if c in s.calls { LocalStepTidy(sha, s, c, chunk, ok); }
    case Work(c, ok) => if c in s.calls && WorkerAlive(s, c) { WorkTidy(s, c, ok); }
    case Lose(c) => if c in s.calls && !WorkerAlive(s, c) { LoseTidy(s, c); }
    case Close => ShrinkTidy(s, Apply(sha, s, a));
    case Stop => ShrinkTidy(s, Apply(sha, s, a));
    case Reopen => ShrinkTidy(s, Apply(sha, s, a));
    case Cancel(_, _) =>
    case Crash =>
    case _ =>
      if s.handle.Recovering? {
        RecoveryShrinks(sha, s, a);
        ShrinkTidy(s, ApplyRecovery(sha, s, a));
      }
  }

  /**
   Staging is tidy: in every run without cancellation and crash in which removals succeed,
   every file in staging belongs to a call that is still running. An ingest that is over,
   however it ended, has left none.
   */
  lemma {:induction false} StagingIsTidy(sha: Hasher, actions: seq<Action>)
    requires forall i :: 0 <= i < |actions| ==> Careful(Run(sha, EMPTY, actions[..i]), actions[i])
    ensures Tidy(Run(sha, EMPTY, actions))
    ensures Run(sha, EMPTY, actions).disk.staging.Keys <= Run(sha, EMPTY, actions).calls.Keys
  {
    if actions != [] {
      var k := |actions| - 1;
      forall i | 0 <= i < k ensures Careful(Run(sha, EMPTY, actions[..k][..i]), actions[..k][i]) {
        assert actions[..k][..i] == actions[..i];
      }
      StagingIsTidy(sha, actions[..k]);
      StepTidy(sha, Run(sha, EMPTY, actions[..k]), actions[k]);
    }
  }

  // ----- Ingests are serial -----

  ghost predicate Active(s: State, c: nat) {
    c in s.calls && s.calls[c].gen == s.gen && !s.calls[c].detached
  }

  /** At most one ingest of the present handle has a caller that waits for it. */
  ghost predicate Serial(s: State) {
    && (forall c :: c in s.calls ==> s.calls[c].gen <= s.gen)
    && forall c, e :: Active(s, c) && Active(s, e) ==> c == e
  }

  /** No call is added, and none gets its handle or its caller back. */
  ghost predicate NoneAdded(s: State, s': State) {
    && s'.gen == s.gen
    && forall c :: c in s'.calls ==> c in s.calls && s'.calls[c].gen == s.calls[c].gen && (s.calls[c].detached ==> s'.calls[c].detached)
  }

  lemma NoneAddedSerial(s: State, s': State)
    requires Serial(s) && NoneAdded(s, s')
    ensures Serial(s')
  {
    assert forall c :: Active(s', c) ==> Active(s, c);
  }

  /** The call of the step keeps its handle and its caller, if it is still there. */
  ghost predicate SameSelf(s: State, s': State, c: nat)
    requires c in s.calls
  {
    s'.gen == s.gen && (c in s'.calls ==> s'.calls[c].gen == s.calls[c].gen && s'.calls[c].detached == s.calls[c].detached)
  }

  lemma LocalStepSelf(sha: Hasher, s: State, c: nat, chunk: Bytes, ok: bool)
    requires c in s.calls
    ensures SameSelf(s, StepCall(sha, s, c, chunk, ok), c)
  {
  }

  lemma WorkSelf(s: State, c: nat, ok: bool)
    requires c in s.calls && WorkerAlive(s, c)
    ensures SameSelf(s, WorkCall(s, c, ok), c)
  {
  }

  lemma LoseSelf(s: State, c: nat)
    requires c in s.calls
    ensures SameSelf(s, LoseCall(s, c), c) && OwnCall(s, LoseCall(s, c), c)
  {
  }

  lemma OwnAddsNone(s: State, s': State, c: nat)
    requires c in s.calls && OwnCall(s, s', c) && SameSelf(s, s', c)
    ensures NoneAdded(s, s')
  {
  }

  lemma StepAddsNone(sha: Hasher, s: State, a: Action)
    requires !a.Begin? && !a.Reopen?
    ensures NoneAdded(s, Apply(sha, s, a))
  {
    match a
    case Step(c, chunk, ok) =>
      if c in s.calls {
        LocalStepCall(sha, s, c, chunk, ok);
        LocalStepSelf(sha, s, c, chunk, ok);
        OwnAddsNone(s, StepCall(sha, s, c, chunk, ok), c);
      }
    case Work(c, ok) =>
      if c in s.calls && WorkerAlive(s, c) {
        WorkOwn(s, c, ok);
        WorkSelf(s, c, ok);
        OwnAddsNone(s, WorkCall(s, c, ok), c);
      }
    case Lose(c) =>
      if c in s.calls && !WorkerAlive(s, c) {
        LoseSelf(s, c);
        OwnAddsNone(s, LoseCall(s, c), c);
      }
    case _ =>
  }

  lemma StepSerial(sha: Hasher, s: State, a: Action)
    requires Serial(s)
    ensures Serial(Apply(sha, s, a))
  {
    if a.Begin? {
      assert forall c :: c in s.calls && s.calls[c].gen == s.gen && !s.calls[c].detached ==> Active(s, c);
    } else if a.Reopen? {
      assert s.handle.Closed? ==> forall c :: !Active(Apply(sha, s, a), c);
    } else {
      StepAddsNone(sha, s, a);
      NoneAddedSerial(s, Apply(sha, s, a));
    }
  }

  /** The ingest lock: in every run at most one ingest of the open handle is under way for a caller. */
  lemma {:induction false} IngestsAreSerial(sha: Hasher, actions: seq<Action>)
    ensures Serial(Run(sha, EMPTY, actions))
  {
    if actions != [] {
      IngestsAreSerial(sha, actions[..|actions| - 1]);
      StepSerial(sha, Run(sha, EMPTY, actions[..|actions| - 1]), actions[|actions| - 1]);
    }
  }

  // ----- Ingests that fail -----

  /** Ready for an ingest whose staging name is not in use. */
  ghost predicate Fresh(s: State) {
    Idle(s) && s.next !in s.disk.staging
  }

  /** The state an ingest of `s` ends in with reply `r` and disk `d`. */
  ghost function Ended(s: State, d: Disk, r: Return): State {
    s.(disk := d, next := s.next + 1, replies := s.replies + [r])
  }

  lemma CleanedUp(sha: Hasher, s: State, desc: Descriptor, d: Disk, r: Return)
    requires Fresh(s)
    ensures Apply(sha, WithDisk(s, desc, Cleanup(r), d), Step(s.next, [], true)) == Ended(s, d.(staging := d.staging - {s.next}), r)
  {
    assert WithDisk(s, desc, Cleanup(r), d).calls - {s.next} == s.calls;
  }

  /** From a written file: one more step fails the source, and the clean-up leaves the disk as it was. */
  lemma SourceFails(sha: Hasher, s: State, desc: Descriptor, done: Bytes, chunk: Bytes) returns (actions: seq<Action>)
    requires Fresh(s) && |chunk| <= READ_BUFFER_SIZE
    requires if chunk == [] then !Verifies(sha, done, desc) else |done| + |chunk| > desc.length
    ensures NoReopen(actions)
    ensures Run(sha, Written(s, desc, done), actions) == Ended(s, s.disk, Failed)
  {
    var n, d := s.next, s.disk.(staging := s.disk.staging[s.next := done]);
    actions := [Step(n, chunk, true), Step(n, [], true)];
    RunTwo(sha, Written(s, desc, done), Step(n, chunk, true), Step(n, [], true));
    assert Apply(sha, Written(s, desc, done), Step(n, chunk, true)) == WithDisk(s, desc, Cleanup(Failed), d);
    CleanedUp(sha, s, desc, d, Failed);
    assert d.staging - {n} == s.disk.staging;
  }

  /**
   An undisturbed ingest whose bytes do not verify, because the source is too long, too
   short or of another hash: the caller is told Failed and the disk is as it was.
   */
  lemma UnverifiedIngestFails(sha: Hasher, s: State, desc: Descriptor, bytes: Bytes) returns (actions: seq<Action>)
    requires Fresh(s) && desc.id !in s.disk.rows && !Verifies(sha, bytes, desc) && desc.length <= I64_MAX
    ensures NoReopen(actions)
    ensures Run(sha, s, actions) == Ended(s, s.disk, Failed)
  {
    var fit := if |bytes| <= desc.length then bytes else bytes[..desc.length];
    var chunk := if |bytes| <= desc.length then [] else bytes[desc.length..desc.length + 1];
    var first := IngestBegins(sha, s, desc);
    var writes := IngestWrites(sha, s, desc, [], fit);
    assert [] + fit == fit;
    var last := SourceFails(sha, s, desc, fit, chunk);
    RunInThree(sha, s, first, writes, last);
    actions := first + writes + last;
  }

  /** An undisturbed ingest gets as far as waiting for its stage command. */
  lemma IngestAwaitsStage(sha: Hasher, s: State, desc: Descriptor, bytes: Bytes) returns (actions: seq<Action>)
    requires Idle(s) && desc.id !in s.disk.rows && Verifies(sha, bytes, desc) && desc.length <= I64_MAX
    ensures NoReopen(actions)
    ensures Run(sha, s, actions) == WithDisk(s, desc, AwaitStage, s.disk.(staging := s.disk.staging[s.next := bytes]))
  {
    var go := Step(s.next, [], true);
    var first := IngestBegins(sha, s, desc);
    var writes := IngestWrites(sha, s, desc, [], bytes);
    assert [] + bytes == bytes;
    IngestSendsStage(sha, s, desc, bytes, s.disk.(staging := s.disk.staging[s.next := bytes]));
    RunTwo(sha, Written(s, desc, bytes), go, go);
    RunInThree(sha, s, first, writes, [go, go]);
    actions := first + writes + [go, go];
  }

  /** A stage command that fails: told Failed, the disk as it was. */
  lemma FailedStageLeavesNothing(sha: Hasher, s: State, desc: Descriptor, bytes: Bytes) returns (actions: seq<Action>)
    requires Fresh(s) && desc.id !in s.disk.rows && Verifies(sha, bytes, desc) && desc.length <= I64_MAX
    ensures NoReopen(actions)
    ensures Run(sha, s, actions) == Ended(s, s.disk, Failed)
  {
    var n, d := s.next, s.disk.(staging := s.disk.staging[s.next := bytes]);
    var front := IngestAwaitsStage(sha, s, desc, bytes);
    assert Apply(sha, WithDisk(s, desc, AwaitStage, d), Work(n, false)) == WithDisk(s, desc, Cleanup(Failed), d);
    CleanedUp(sha, s, desc, d, Failed);
    assert d.staging - {n} == s.disk.staging;
    RunTwo(sha, WithDisk(s, desc, AwaitStage, d), Work(n, false), Step(n, [], true));
    RunConcat(sha, s, front, [Work(n, false), Step(n, [], true)]);
    actions := front + [Work(n, false), Step(n, [], true)];
  }

  /** Removing the staged row: the command is sent and taken. */
  lemma RowRemoved(sha: Hasher, s: State, desc: Descriptor, d: Disk, after: AfterRemove)
    requires Idle(s) && desc.id in d.rows && d.rows[desc.id] == Record(desc, Staged)
    ensures var s' := Apply(sha, Apply(sha, WithDisk(s, desc, SendRemove(after), d), Step(s.next, [], true)), Work(s.next, true));
            s' == if after.ThenCleanup? then WithDisk(s, desc, Cleanup(Failed), d.(rows := d.rows - {desc.id}))
                  else Ended(s, d.(rows := d.rows - {desc.id}), Failed)
  {
    assert Apply(sha, WithDisk(s, desc, SendRemove(after), d), Step(s.next, [], true)) == WithDisk(s, desc, AwaitRemove(after), d);
    assert WithDisk(s, desc, AwaitRemove(after), d).calls - {s.next} == s.calls;
  }

  /** The staged row is written, the rename fails. */
  lemma RenameFails(sha: Hasher, s: State, desc: Descriptor, d: Disk)
    requires Idle(s) && desc.id !in d.rows
    ensures Apply(sha, Apply(sha, WithDisk(s, desc, AwaitStage, d), Work(s.next, true)), Step(s.next, [], false)) ==
            WithDisk(s, desc, SendRemove(ThenCleanup), d.(rows := d.rows[desc.id := Record(desc, Staged)]))
  {
    StagedRowWritten(sha, s, desc, d);
  }

  /** ... and the row and the file are removed again. */
  lemma RenameUndone(sha: Hasher, s: State, desc: Descriptor, bytes: Bytes)
    requires Fresh(s) && desc.id !in s.disk.rows
    ensures var d := s.disk.(staging := s.disk.staging[s.next := bytes], rows := s.disk.rows[desc.id := Record(desc, Staged)]);
            var go := Step(s.next, [], true);
            Run(sha, WithDisk(s, desc, SendRemove(ThenCleanup), d), [go, Work(s.next, true), go]) == Ended(s, s.disk, Failed)
  {
    var d := s.disk.(staging := s.disk.staging[s.next := bytes], rows := s.disk.rows[desc.id := Record(desc, Staged)]);
    var go := Step(s.next, [], true);
    RowRemoved(sha, s, desc, d, ThenCleanup);
    CleanedUp(sha, s, desc, d.(rows := d.rows - {desc.id}), Failed);
    assert d.rows - {desc.id} == s.disk.rows && d.staging - {s.next} == s.disk.staging;
    RunThree(sha, WithDisk(s, desc, SendRemove(ThenCleanup), d), go, Work(s.next, true), go);
  }

  /** A rename that fails: the staged row and the file are removed again, told Failed. */
  lemma FailedRenameLeavesNothing(sha: Hasher, s: State, desc: Descriptor, bytes: Bytes) returns (actions: seq<Action>)
    requires Fresh(s) && desc.id !in s.disk.rows && Verifies(sha, bytes, desc) && desc.length <= I64_MAX
    ensures NoReopen(actions)
    ensures Run(sha, s, actions) == Ended(s, s.disk, Failed)
  {
    var n, d := s.next, s.disk.(staging := s.disk.staging[s.next := bytes]);
    var front := IngestAwaitsStage(sha, s, desc, bytes);
    var work, fail, go := Work(n, true), Step(n, [], false), Step(n, [], true);
    RenameFails(sha, s, desc, d);
    RunTwo(sha, WithDisk(s, desc, AwaitStage, d), work, fail);
    RenameUndone(sha, s, desc, bytes);
    RunInThree(sha, s, front, [work, fail], [go, work, go]);
    actions := front + [work, fail] + [go, work, go];
  }

  /** The failed publish command is compensated: the blob moves to quarantine. */
  lemma PublishCompensated(sha: Hasher, s: State, desc: Descriptor, d: Disk)
    requires Idle(s) && BlobKey(desc.id) in d.blobs
    ensures Apply(sha, Apply(sha, WithDisk(s, desc, AwaitPublish, d), Work(s.next, false)), Step(s.next, [], true)) ==
            WithDisk(s, desc, SendRemove(ThenReturn), MoveBlob(d, BlobKey(desc.id)))
  {
    assert Apply(sha, WithDisk(s, desc, AwaitPublish, d), Work(s.next, false)) == WithDisk(s, desc, Quarantining, d);
  }

  lemma MovedDisk(s: State, desc: Descriptor, bytes: Bytes)
    requires Fresh(s) && desc.id !in s.disk.rows
    ensures var moved := MoveBlob(Renamed(s, desc, bytes), BlobKey(desc.id));
            moved.(rows := moved.rows - {desc.id}) ==
            s.disk.(blobs := s.disk.blobs - {BlobKey(desc.id)}, quarantine := s.disk.quarantine + multiset{bytes})
  {
    var moved := MoveBlob(Renamed(s, desc, bytes), BlobKey(desc.id));
    assert moved.rows - {desc.id} == s.disk.rows && moved.staging == s.disk.staging;
    assert moved.blobs == s.disk.blobs - {BlobKey(desc.id)};
  }

  /** A publish command that fails: told Failed, no row, no blob, and the bytes in quarantine. */
  lemma FailedPublishQuarantines(sha: Hasher, s: State, desc: Descriptor, bytes: Bytes) returns (actions: seq<Action>)
    requires Fresh(s) && desc.id !in s.disk.rows && Verifies(sha, bytes, desc) && desc.length <= I64_MAX
    ensures NoReopen(actions)
    ensures Run(sha, s, actions) ==
            Ended(s, s.disk.(blobs := s.disk.blobs - {BlobKey(desc.id)}, quarantine := s.disk.quarantine + multiset{bytes}), Failed)
  {
    var n, d := s.next, Renamed(s, desc, bytes);
    var moved := MoveBlob(d, BlobKey(desc.id));
    var go, fail, work := Step(n, [], true), Work(n, false), Work(n, true);
    var front := IngestRenames(sha, s, desc, bytes);
    PublishSent(sha, s, desc, d);
    PublishCompensated(sha, s, desc, d);
    RunThree(sha, WithDisk(s, desc, SendPublish, d), go, fail, go);
    RowRemoved(sha, s, desc, moved, ThenReturn);
    RunTwo(sha, WithDisk(s, desc, SendRemove(ThenReturn), moved), go, work);
    RunInThree(sha, s, front, [go, fail, go], [go, work]);
    MovedDisk(s, desc, bytes);
    actions := front + [go, fail, go] + [go, work];
  }
}

/**
 Reopening the store in the same process while an ingest of the previous handle is between
 its rename and its compensation: the late compensation moves the blob away by name, also
 when a retry of the same asset has been published there meanwhile.
 */
module AssetLateMove {
  import opened Foundation
  import opened AssetStore
  import opened AssetProtocol
  import opened AssetSafety
  import opened AssetReopen

  lemma RunTwo(sha: Hasher, s: State, a: Action, b: Action)
    ensures Run(sha, s, [a, b]) == Apply(sha, Apply(sha, s, a), b)
  {
    RunOne(sha, Apply(sha, s, a), b);
    RunCons(sha, s, a, [b]);
    assert [a] + [b] == [a, b];
  }

  lemma RunThree(sha: Hasher, s: State, a: Action, b: Action, c: Action)
    ensures Run(sha, s, [a, b, c]) == Apply(sha, Apply(sha, Apply(sha, s, a), b), c)
  {
    RunTwo(sha, Apply(sha, s, a), b, c);
    RunCons(sha, s, a, [b, c]);
    assert [a] + [b, c] == [a, b, c];
  }

  lemma RunInThree(sha: Hasher, s: State, a: seq<Action>, b: seq<Action>, c: seq<Action>)
    ensures Run(sha, s, a + b + c) == Run(sha, Run(sha, Run(sha, s, a), b), c)
  {
    RunConcat(sha, s, a, b);
    RunConcat(sha, s, a + b, c);
  }

  // ----- One ingest, undisturbed -----

  /** No call of the present handle, and none that the next one could be taken for. */
  ghost predicate Idle(s: State) {
    s.handle.Open? && NoCurrentCalls(s) && s.next !in s.calls
  }

  ghost function WithCall(s: State, desc: Descriptor, pc: Pc): State {
    s.(calls := s.calls[s.next := Call(desc, s.gen, pc, false)], next := s.next + 1)
  }

  ghost function WithDisk(s: State, desc: Descriptor, pc: Pc, d: Disk): State {
    WithCall(s, desc, pc).(disk := d)
  }

  lemma BegunAndLookedUp(sha: Hasher, s: State, desc: Descriptor)
    requires Idle(s) && desc.id !in s.disk.rows && desc.length <= I64_MAX
    ensures Apply(sha, Apply(sha, s, Begin(desc)), Work(s.next, true)) == WithCall(s, desc, Creating)
  {
    assert Apply(sha, s, Begin(desc)) == WithCall(s, desc, AwaitLookup);
  }

  lemma Created(sha: Hasher, s: State, desc: Descriptor)
    ensures Apply(sha, WithCall(s, desc, Creating), Step(s.next, [], true)) ==
            WithDisk(s, desc, Writing([]), s.disk.(staging := s.disk.staging[s.next := []]))
  {
  }

  lemma IngestBegins(sha: Hasher, s: State, desc: Descriptor) returns (actions: seq<Action>)
    requires Idle(s) && desc.id !in s.disk.rows && desc.length <= I64_MAX
    ensures NoReopen(actions)
    ensures Run(sha, s, actions) == WithDisk(s, desc, Writing([]), s.disk.(staging := s.disk.staging[s.next := []]))
  {
    actions := [Begin(desc), Work(s.next, true), Step(s.next, [], true)];
    RunThree(sha, s, Begin(desc), Work(s.next, true), Step(s.next, [], true));
    BegunAndLookedUp(sha, s, desc);
    Created(sha, s, desc);
  }

  ghost function Written(s: State, desc: Descriptor, done: Bytes): State {
    WithDisk(s, desc, Writing(done), s.disk.(staging := s.disk.staging[s.next := done]))
  }

  lemma ChunkWritten(sha: Hasher, s: State, desc: Descriptor, done: Bytes, chunk: Bytes)
    requires 0 < |chunk| <= READ_BUFFER_SIZE && |done| + |chunk| <= desc.length
    ensures Apply(sha, Written(s, desc, done), Step(s.next, chunk, true)) == Written(s, desc, done + chunk)
  {
  }

  /** `done` is on disk; the rest of the source arrives in chunks of at most a buffer. */
  lemma {:induction false} IngestWrites(sha: Hasher, s: State, desc: Descriptor, done: Bytes, rest: Bytes)
    returns (actions: seq<Action>)
    requires |done| + |rest| <= desc.length
    ensures NoReopen(actions)
    ensures Run(sha, Written(s, desc, done), actions) == Written(s, desc, done + rest)
    decreases |rest|
  {
    if rest == [] {
      actions := [];
      assert done + rest == done;
    } else {
      var chunk := rest[..1];
      ChunkWritten(sha, s, desc, done, chunk);
      var more := IngestWrites(sha, s, desc, done + chunk, rest[1..]);
      assert done + chunk + rest[1..] == done + rest;
      actions := [Step(s.next, chunk, true)] + more;
      RunCons(sha, Written(s, desc, done), Step(s.next, chunk, true), more);
    }
  }

  ghost function Renamed(s: State, desc: Descriptor, bytes: Bytes): Disk {
    s.disk.(rows := s.disk.rows[desc.id := Record(desc, Staged)],
            blobs := s.disk.blobs[BlobKey(desc.id) := bytes],
            staging := s.disk.staging - {s.next})
  }

  /** The source ends and its hash is right: the stage command is sent. */
  lemma IngestSendsStage(sha: Hasher, s: State, desc: Descriptor, bytes: Bytes, d: Disk)
    requires Idle(s) && Verifies(sha, bytes, desc)
    ensures var go := Step(s.next, [], true);
            Apply(sha, Apply(sha, WithDisk(s, desc, Writing(bytes), d), go), go) == WithDisk(s, desc, AwaitStage, d)
  {
    var s1 := Apply(sha, WithDisk(s, desc, Writing(bytes), d), Step(s.next, [], true));
    assert s1 == WithDisk(s, desc, SendStage, d);
  }

  lemma StagedRowWritten(sha: Hasher, s: State, desc: Descriptor, d: Disk)
    requires Idle(s) && desc.id !in d.rows
    ensures Apply(sha, WithDisk(s, desc, AwaitStage, d), Work(s.next, true)) ==
            WithDisk(s, desc, Renaming, d.(rows := d.rows[desc.id := Record(desc, Staged)]))
  {
  }

  lemma FileRenamed(sha: Hasher, s: State, desc: Descriptor, d: Disk)
    requires s.next in d.staging
    ensures Apply(sha, WithDisk(s, desc, Renaming, d), Step(s.next, [], true)) ==
            WithDisk(s, desc, SendPublish,
                     d.(blobs := d.blobs[BlobKey(desc.id) := d.staging[s.next]], staging := d.staging - {s.next}))
  {
  }

  /** The staged row is written and the file renamed. */
  lemma IngestMoves(sha: Hasher, s: State, desc: Descriptor, bytes: Bytes)
    requires Idle(s) && desc.id !in s.disk.rows
    ensures var d := s.disk.(staging := s.disk.staging[s.next := bytes]);
            Apply(sha, Apply(sha, WithDisk(s, desc, AwaitStage, d), Work(s.next, true)), Step(s.next, [], true)) ==
            WithDisk(s, desc, SendPublish, Renamed(s, desc, bytes))
  {
    var d := s.disk.(staging := s.disk.staging[s.next := bytes]);
    StagedRowWritten(sha, s, desc, d);
    FileRenamed(sha, s, desc, d.(rows := d.rows[desc.id := Record(desc, Staged)]));
    assert d.staging - {s.next} == s.disk.staging - {s.next};
  }

  lemma IngestStages(sha: Hasher, s: State, desc: Descriptor, bytes: Bytes) returns (actions: seq<Action>)
    requires Idle(s) && desc.id !in s.disk.rows && Verifies(sha, bytes, desc)
    ensures NoReopen(actions)
    ensures Run(sha, WithDisk(s, desc, Writing(bytes), s.disk.(staging := s.disk.staging[s.next := bytes])), actions) ==
            WithDisk(s, desc, SendPublish, Renamed(s, desc, bytes))
  {
    var d := s.disk.(staging := s.disk.staging[s.next := bytes]);
    var s0, s1 := WithDisk(s, desc, Writing(bytes), d), WithDisk(s, desc, AwaitStage, d);
    var go, work := Step(s.next, [], true), Work(s.next, true);
    IngestSendsStage(sha, s, desc, bytes, d);
    RunTwo(sha, s0, go, go);
    IngestMoves(sha, s, desc, bytes);
    RunTwo(sha, s1, work, go);
    RunConcat(sha, s0, [go, go], [work, go]);
    actions := [go, go] + [work, go];
  }

  /** An undisturbed ingest gets as far as the renamed blob with its staged row. */
  lemma IngestRenames(sha: Hasher, s: State, desc: Descriptor, bytes: Bytes) returns (actions: seq<Action>)
    requires Idle(s) && desc.id !in s.disk.rows && Verifies(sha, bytes, desc) && desc.length <= I64_MAX
    ensures NoReopen(actions)
    ensures Run(sha, s, actions) == WithDisk(s, desc, SendPublish, Renamed(s, desc, bytes))
  {
    var first := IngestBegins(sha, s, desc);
    var writes := IngestWrites(sha, s, desc, [], bytes);
    assert [] + bytes == bytes;
    var last := IngestStages(sha, s, desc, bytes);
    RunInThree(sha, s, first, writes, last);
    actions := first + writes + last;
  }

  lemma PublishSent(sha: Hasher, s: State, desc: Descriptor, d: Disk)
    requires Idle(s)
    ensures Apply(sha, WithDisk(s, desc, SendPublish, d), Step(s.next, [], true)) == WithDisk(s, desc, AwaitPublish, d)
  {
  }

  lemma PublishTaken(sha: Hasher, s: State, desc: Descriptor, d: Disk)
    requires Idle(s) && desc.id in d.rows && d.rows[desc.id] == Record(desc, Staged)
    ensures var s' := Apply(sha, WithDisk(s, desc, AwaitPublish, d), Work(s.next, true));
            && s'.calls == s.calls && s'.replies == s.replies + [Inserted(desc)]
            && s'.disk == d.(rows := d.rows[desc.id := Record(desc, Published)])
  {
    assert WithDisk(s, desc, AwaitPublish, d).calls - {s.next} == s.calls;
  }

  /** From there it is published, and the caller is told so. */
  lemma IngestPublishes(sha: Hasher, s: State, desc: Descriptor, bytes: Bytes) returns (actions: seq<Action>)
    requires Idle(s) && desc.id !in s.disk.rows && Verifies(sha, bytes, desc) && desc.length <= I64_MAX
    ensures NoReopen(actions)
    ensures var s' := Run(sha, s, actions);
            && s'.calls == s.calls && s'.replies == s.replies + [Inserted(desc)]
            && s'.disk.rows == s.disk.rows[desc.id := Record(desc, Published)]
            && BlobGood(sha, s'.disk, desc)
  {
    var n, d := s.next, Renamed(s, desc, bytes);
    var front := IngestRenames(sha, s, desc, bytes);
    var send, work := Step(n, [], true), Work(n, true);
    PublishSent(sha, s, desc, d);
    PublishTaken(sha, s, desc, d);
    RunTwo(sha, Run(sha, s, front), send, work);
    RunConcat(sha, s, front, [send, work]);
    actions := front + [send, work];
  }

  // ----- The late compensation -----

  ghost predicate Late(s: State, o: nat) {
    o in s.calls && s.calls[o].gen != s.gen && s.calls[o].pc.Quarantining?
  }

  /** A call that had not compensated when its handle went away can get there during recovery. */
  lemma ReachesCompensation(sha: Hasher, s: State, o: nat) returns (actions: seq<Action>)
    requires Ready(sha, s) && s.handle.phase.Verifying? && NoCurrentCalls(s)
    requires o in s.calls && Dangerous(s.calls[o]) && (s.calls[o].pc.Renaming? ==> o in s.disk.staging)
    requires !IsPublished(s.disk, s.calls[o].desc.id)
    ensures NoReopen(actions)
    ensures var s' := Run(sha, s, actions);
            && s' == s.(disk := s'.disk, calls := s.calls[o := s.calls[o].(pc := Quarantining)])
            && s'.disk.rows == s.disk.rows && Ready(sha, s')
  {
    var back := Step(o, [], false);
    match s.calls[o].pc {
      case Quarantining =>
        actions := [];
        assert s.calls == s.calls[o := s.calls[o].(pc := Quarantining)];
      case SendPublish =>
        actions := [back];
        RunOne(sha, s, back);
      case AwaitPublish =>
        actions := [Lose(o)];
        RunOne(sha, s, Lose(o));
      case Renaming =>
        var go := Step(o, [], true);
        actions := [go, back];
        RunTwo(sha, s, go, back);
        LateRenameIsSafe(sha, s.disk, o, s.calls[o].desc.id);
    }
  }

  lemma LateRenameIsSafe(sha: Hasher, d: Disk, o: nat, id: AssetId)
    requires Safe(sha, d) && RowsNamed(d) && !IsPublished(d, id) && o in d.staging
    ensures var d' := d.(blobs := d.blobs[BlobKey(id) := d.staging[o]], staging := d.staging - {o});
            Safe(sha, d') && PublishedIds(d') == PublishedIds(d)
  {
    var d' := d.(blobs := d.blobs[BlobKey(id) := d.staging[o]], staging := d.staging - {o});
    forall x | IsPublished(d', x) ensures BlobGood(sha, d', d'.rows[x].desc) {
      assert IsPublished(d, x);
      if BlobKey(x) == BlobKey(id) {
        BlobKeyInjective(x, id);
      }
    }
    assert forall x :: IsPublished(d', x) <==> IsPublished(d, x);
  }

  lemma CompensationLosesBlob(sha: Hasher, s: State, o: nat)
    requires o in s.calls && s.calls[o].pc.Quarantining?
    requires IsPublished(s.disk, s.calls[o].desc.id) && s.disk.rows[s.calls[o].desc.id].desc.id == s.calls[o].desc.id
    ensures !Safe(sha, Apply(sha, s, Step(o, [], true)).disk)
  {
    var id := s.calls[o].desc.id;
    var d := Apply(sha, s, Step(o, [], true)).disk;
    assert d.rows == s.disk.rows;
    assert IsPublished(d, id) && BlobKey(id) !in d.blobs;
  }

  /** The bytes a dangerous call holds verify against its own descriptor. */
  ghost function BytesOf(s: State, o: nat): Bytes
    requires o in s.calls
  {
    var key := BlobKey(s.calls[o].desc.id);
    if s.calls[o].pc.Renaming? && o in s.disk.staging then s.disk.staging[o]
    else if key in s.disk.blobs then s.disk.blobs[key] else []
  }

  /** What a dangerous call of a closed store holds, and that the row it staged is its own. */
  lemma DangerousCall(sha: Hasher, s: State, o: nat)
    requires Inv(sha, s) && s.handle.Closed? && o in s.calls && Dangerous(s.calls[o])
    ensures var desc := s.calls[o].desc;
            && Verifies(sha, BytesOf(s, o), desc) && desc.length <= I64_MAX && IsStaged(s.disk, desc.id)
            && (s.calls[o].pc.Renaming? ==> o in s.disk.staging)
    ensures forall c :: c in s.calls ==> c < s.next && s.calls[c].gen <= s.gen
    ensures var s1 := Apply(sha, s, Reopen); Ready(sha, s1) && NoCurrentCalls(s1)
  {
    assert CallInv(sha, s, o);
    assert forall c :: c in s.calls ==> CallInv(sha, s, c);
  }

  /** Reopen, let the old call get before its compensation, and complete the recovery. */
  lemma ReopenedBeforeMove(sha: Hasher, s: State, o: nat) returns (actions: seq<Action>)
    requires Inv(sha, s) && s.handle.Closed? && o in s.calls && Dangerous(s.calls[o])
    ensures NoReopen(actions)
    ensures var s' := Run(sha, Apply(sha, s, Reopen), actions);
            && Idle(s') && s.calls[o].desc.id !in s'.disk.rows
            && o in s'.calls && s'.calls[o].pc == Quarantining && s'.calls[o].desc == s.calls[o].desc
  {
    DangerousCall(sha, s, o);
    var s1 := Apply(sha, s, Reopen);
    var a := ReachesCompensation(sha, s1, o);
    var b := Drive(sha, Run(sha, s1, a));
    RunConcat(sha, s1, a, b);
    FreshAfterReopen(s, Run(sha, s1, a + b), o, s.calls[o].desc);
    actions := a + b;
  }

  /** Recover, retry the same asset, and let the old call compensate. */
  lemma LoseBlob(sha: Hasher, s: State, o: nat) returns (actions: seq<Action>)
    requires Inv(sha, s) && s.handle.Closed? && o in s.calls && Dangerous(s.calls[o])
    ensures NoReopen(actions)
    ensures !Safe(sha, Run(sha, Apply(sha, s, Reopen), actions).disk)
  {
    DangerousCall(sha, s, o);
    var s1 := Apply(sha, s, Reopen);
    var a := ReopenedBeforeMove(sha, s, o);
    var s2 := Run(sha, s1, a);
    var b := IngestPublishes(sha, s2, s.calls[o].desc, BytesOf(s, o));
    var s3 := Run(sha, s2, b);
    CompensationLosesBlob(sha, s3, o);
    RunOne(sha, s3, Step(o, [], true));
    RunInThree(sha, s1, a, b, [Step(o, [], true)]);
    actions := a + b + [Step(o, [], true)];
  }

  lemma FreshAfterReopen(s: State, s3: State, o: nat, desc: Descriptor)
    requires o in s.calls && s.calls[o].desc == desc && IsStaged(s.disk, desc.id)
    requires s3.handle.Open? && s3.gen == s.gen + 1 && s3.next == s.next
    requires s3.calls == s.calls[o := s.calls[o].(pc := Quarantining)]
    requires forall c :: c in s.calls ==> c < s.next && s.calls[c].gen <= s.gen
    requires StagedIds(s3.disk) == {} && RowsKept(s.disk, s3.disk)
    ensures Idle(s3) && desc.id !in s3.disk.rows
  {
    assert desc.id in s3.disk.rows ==> desc.id in StagedIds(s3.disk);
  }

  ghost predicate StaysSafe(sha: Hasher, s: State) {
    forall actions :: QuietRun(sha, s, actions) ==> Safe(sha, Run(sha, s, actions).disk)
  }

  /**
   When a store may be reopened in the same process: exactly when no call of the old handle
   is still between its rename and its compensation. Otherwise a retry of that call's own
   asset can be published and then lose its blob.
   */
  lemma ReopenSafeIffQuiet(sha: Hasher, s: State)
    requires Inv(sha, s) && s.handle.Closed?
    ensures Quiet(s) <==> StaysSafe(sha, Apply(sha, s, Reopen))
  {
    var s1 := Apply(sha, s, Reopen);
    if Quiet(s) {
      ApplyKeepsInv(sha, s, Reopen);
      forall actions | QuietRun(sha, s1, actions) ensures Safe(sha, Run(sha, s1, actions).disk) {
        QuietRunKeepsInv(sha, s1, actions);
      }
    } else {
      var o :| o in s.calls && Dangerous(s.calls[o]);
      var actions := LoseBlob(sha, s, o);
      NoReopenIsQuiet(sha, s1, actions);
    }
  }

  /** The store is closed while an ingest is about to send its publish command. */
  lemma ClosedMidway(sha: Hasher, s: State, desc: Descriptor, bytes: Bytes) returns (actions: seq<Action>, o: nat)
    requires Idle(s) && desc.id !in s.disk.rows && Verifies(sha, bytes, desc) && desc.length <= I64_MAX
    ensures NoReopen(actions)
    ensures var s' := Run(sha, s, actions); s'.handle.Closed? && o in s'.calls && Dangerous(s'.calls[o])
  {
    o := s.next;
    var front := IngestRenames(sha, s, desc, bytes);
    RunTwo(sha, Run(sha, s, front), Close, Stop);
    RunConcat(sha, s, front, [Close, Stop]);
    actions := front + [Close, Stop];
  }

  lemma FirstOpen(sha: Hasher) returns (actions: seq<Action>)
    ensures NoReopen(actions)
    ensures var s := Run(sha, Apply(sha, EMPTY, Reopen), actions); Idle(s) && s.disk.rows == map[] && s.replies == []
  {
    var s := Apply(sha, EMPTY, Reopen);
    assert Ready(sha, s);
    actions := Drive(sha, s);
    var s' := Run(sha, s, actions);
    assert s'.disk.rows.Keys == {};
  }

  lemma FirstOpenKeepsInv(sha: Hasher, actions: seq<Action>)
    requires NoReopen(actions)
    ensures Inv(sha, Run(sha, Apply(sha, EMPTY, Reopen), actions))
  {
    assert Inv(sha, EMPTY) && QuietAction(EMPTY, Reopen);
    ApplyKeepsInv(sha, EMPTY, Reopen);
    var s := Apply(sha, EMPTY, Reopen);
    NoReopenIsQuiet(sha, s, actions);
    QuietRunKeepsInv(sha, s, actions);
  }

  /** Such a state is reachable: for every asset there is a run from an empty directory that loses its blob. */
  lemma LostBlobIsReachable(sha: Hasher, id: AssetId, bytes: Bytes, meta: string) returns (actions: seq<Action>)
    requires |bytes| <= I64_MAX
    ensures !Safe(sha, Run(sha, EMPTY, actions).disk)
  {
    var s1 := Apply(sha, EMPTY, Reopen);
    var a := FirstOpen(sha);
    var b, o := ClosedMidway(sha, Run(sha, s1, a), Descriptor(id, |bytes|, sha(bytes), meta), bytes);
    RunConcat(sha, s1, a, b);
    FirstOpenKeepsInv(sha, a + b);
    var s2 := Run(sha, s1, a + b);
    var rest := LoseBlob(sha, s2, o);
    RunCons(sha, s2, Reopen, rest);
    RunConcat(sha, s1, a + b, [Reopen] + rest);
    actions := [Reopen] + (a + b + ([Reopen] + rest));
    RunCons(sha, EMPTY, Reopen, a + b + ([Reopen] + rest));
  }
}

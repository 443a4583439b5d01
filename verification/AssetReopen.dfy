/**
 The results about whole runs of the ingest protocol whose reopens are quiet, and that
 recovery can always be driven to its end.
 */
module AssetReopen {
  import opened Foundation
  import opened AssetStore
  import opened AssetProtocol
  import opened AssetSafety

  lemma {:induction false} RunConcat(sha: Hasher, s: State, a: seq<Action>, b: seq<Action>)
    ensures Run(sha, s, a + b) == Run(sha, Run(sha, s, a), b)
  {
    if b == [] {
      assert a + b == a;
    } else {
      RunConcat(sha, s, a, b[..|b| - 1]);
      assert (a + b)[..|a + b| - 1] == a + b[..|b| - 1];
    }
  }

  lemma RunOne(sha: Hasher, s: State, a: Action)
    ensures Run(sha, s, [a]) == Apply(sha, s, a)
  {
    assert [a][..0] == [];
  }

  lemma RunCons(sha: Hasher, s: State, a: Action, rest: seq<Action>)
    ensures Run(sha, s, [a] + rest) == Run(sha, Apply(sha, s, a), rest)
  {
    RunOne(sha, s, a);
    RunConcat(sha, s, [a], rest);
  }

  lemma QuietPrefix(sha: Hasher, s: State, actions: seq<Action>, n: nat)
    requires QuietRun(sha, s, actions) && n <= |actions|
    ensures QuietRun(sha, s, actions[..n])
  {
    forall i | 0 <= i < n ensures QuietAction(Run(sha, s, actions[..n][..i]), actions[..n][i]) {
      assert actions[..n][..i] == actions[..i];
    }
  }

  lemma SliceJoin<T>(s: seq<T>, n: nat, i: nat)
    requires n + i < |s|
    ensures s[..n] + s[n..][..i] == s[..n + i] && s[n..][i] == s[n + i]
  {
  }

  lemma QuietSuffix(sha: Hasher, s: State, actions: seq<Action>, n: nat)
    requires QuietRun(sha, s, actions) && n <= |actions|
    ensures QuietRun(sha, Run(sha, s, actions[..n]), actions[n..])
  {
    forall i | 0 <= i < |actions| - n ensures QuietAction(Run(sha, Run(sha, s, actions[..n]), actions[n..][..i]), actions[n..][i]) {
      RunConcat(sha, s, actions[..n], actions[n..][..i]);
      SliceJoin(actions, n, i);
    }
  }

  lemma {:induction false} QuietRunKeepsInv(sha: Hasher, s: State, actions: seq<Action>)
    requires Inv(sha, s) && QuietRun(sha, s, actions)
    ensures Inv(sha, Run(sha, s, actions)) && Keeps(s.disk, Run(sha, s, actions).disk)
  {
    if actions != [] {
      var n := |actions| - 1;
      QuietPrefix(sha, s, actions, n);
      QuietRunKeepsInv(sha, s, actions[..n]);
      ApplyKeepsInv(sha, Run(sha, s, actions[..n]), actions[n]);
      KeepsTransitive(s.disk, Run(sha, s, actions[..n]).disk, Run(sha, s, actions).disk);
    }
  }

  lemma KeepsTransitive(a: Disk, b: Disk, c: Disk)
    requires Keeps(a, b) && Keeps(b, c)
    ensures Keeps(a, c)
  {
  }

  /**
   Asset crash safety. In every quiet run from an empty directory, whatever the
   interleaving of ingests, closes, cancellations and crashes, also midway through
   recovery, every published row names a blob of its length and hash, and no recovery has
   reported corruption.
   */
  lemma CrashSafety(sha: Hasher, actions: seq<Action>)
    requires QuietRun(sha, EMPTY, actions)
    ensures Safe(sha, Run(sha, EMPTY, actions).disk) && !Run(sha, EMPTY, actions).corrupt
  {
    QuietRunKeepsInv(sha, EMPTY, actions);
  }

  lemma RunSplit(sha: Hasher, s: State, actions: seq<Action>, n: nat)
    requires n <= |actions|
    ensures Run(sha, s, actions) == Run(sha, Run(sha, s, actions[..n]), actions[n..])
  {
    RunConcat(sha, s, actions[..n], actions[n..]);
    assert actions[..n] + actions[n..] == actions;
  }

  /** The state after `n` steps of a quiet run and the state at its end. */
  lemma EarlyAndLate(sha: Hasher, actions: seq<Action>, n: nat)
    requires QuietRun(sha, EMPTY, actions) && n <= |actions|
    ensures var early, late := Run(sha, EMPTY, actions[..n]), Run(sha, EMPTY, actions);
            Inv(sha, early) && Inv(sha, late) && Keeps(early.disk, late.disk)
  {
    QuietPrefix(sha, EMPTY, actions, n);
    QuietRunKeepsInv(sha, EMPTY, actions[..n]);
    QuietSuffix(sha, EMPTY, actions, n);
    QuietRunKeepsInv(sha, Run(sha, EMPTY, actions[..n]), actions[n..]);
    RunSplit(sha, EMPTY, actions, n);
  }

  /**
   First writer wins, for good. Once an id is published its row and its bytes are the same
   at the end of the run; at most one ingest of an id is told Inserted; whoever is told
   Inserted or Existing is told the published descriptor, and whoever is told of a
   conflict asked for another one.
   */
  lemma FirstWriterWins(sha: Hasher, actions: seq<Action>, n: nat, id: AssetId)
    requires QuietRun(sha, EMPTY, actions) && n <= |actions|
    ensures var early, late := Run(sha, EMPTY, actions[..n]), Run(sha, EMPTY, actions);
            && (IsPublished(early.disk, id) ==>
                  && id in late.disk.rows && late.disk.rows[id] == early.disk.rows[id]
                  && BlobKey(id) in early.disk.blobs && BlobKey(id) in late.disk.blobs
                  && late.disk.blobs[BlobKey(id)] == early.disk.blobs[BlobKey(id)])
            && ReturnsInv(late)
  {
    EarlyAndLate(sha, actions, n);
    var early := Run(sha, EMPTY, actions[..n]);
    assert IsPublished(early.disk, id) ==> BlobGood(sha, early.disk, early.disk.rows[id].desc);
  }

  lemma LookupAnswered(sha: Hasher, s: State, c: nat, row: Record)
    requires c in s.calls && s.calls[c].pc == AwaitLookup && !s.calls[c].detached && WorkerAlive(s, c)
    requires row.state == Published && s.calls[c].desc.id in s.disk.rows && s.disk.rows[s.calls[c].desc.id] == row
    ensures var desc, next := s.calls[c].desc, Apply(sha, s, Work(c, true));
            && next.disk == s.disk
            && next.replies == s.replies + [if desc == row.desc then Existing(desc) else Conflicting(desc)]
  {
  }

  /** A stage command that finds the id taken: told like a lookup if it is published, Failed if it is only staged; nothing changes. */
  lemma StageAnswered(sha: Hasher, s: State, c: nat)
    requires c in s.calls && s.calls[c].pc == AwaitStage && !s.calls[c].detached && WorkerAlive(s, c)
    requires s.calls[c].desc.id in s.disk.rows
    ensures var desc, next := s.calls[c].desc, Apply(sha, s, Work(c, true));
            var row := s.disk.rows[desc.id];
            && next.disk == s.disk && next.replies == s.replies && c in next.calls
            && next.calls[c].pc == Cleanup(if row.state == Staged then Failed
                                           else if row.desc == desc then Existing(desc) else Conflicting(desc))
  {
  }

  /**
   Whoever asks for an id that has been published, however much later, is told Existing
   for the published descriptor and of a conflict for any other, and changes nothing.
   */
  lemma LaterIngestAnswered(sha: Hasher, actions: seq<Action>, n: nat, late: State, c: nat, id: AssetId)
    requires QuietRun(sha, EMPTY, actions) && n <= |actions| && late == Run(sha, EMPTY, actions)
    requires c in late.calls && late.calls[c].pc == AwaitLookup && !late.calls[c].detached && WorkerAlive(late, c)
    requires late.calls[c].desc.id == id && IsPublished(Run(sha, EMPTY, actions[..n]).disk, id)
    ensures var first, desc := Run(sha, EMPTY, actions[..n]).disk.rows[id].desc, late.calls[c].desc;
            var next := Apply(sha, late, Work(c, true));
            && next.disk == late.disk
            && next.replies == late.replies + [if desc == first then Existing(desc) else Conflicting(desc)]
  {
    EarlyAndLate(sha, actions, n);
    LookupAnswered(sha, late, c, Run(sha, EMPTY, actions[..n]).disk.rows[id]);
  }

  /**
   Recovery of any state of a quiet run, were it to crash there: no staged row, an empty
   staging directory, and a blob directory that is exactly the published keys.
   */
  lemma CrashedStateRecovers(sha: Hasher, actions: seq<Action>, r: Disk)
    requires QuietRun(sha, EMPTY, actions) && RecoveredFrom(Run(sha, EMPTY, actions).disk, r)
    ensures StagedIds(r) == {} && r.staging == map[] && r.blobs.Keys == PublishedKeys(r)
    ensures PublishedIds(r) == PublishedIds(Run(sha, EMPTY, actions).disk) && Safe(sha, r)
  {
    QuietRunKeepsInv(sha, EMPTY, actions);
    RecoveredState(Run(sha, EMPTY, actions).disk, r);
    RecoveredDirectory(sha, Run(sha, EMPTY, actions).disk, r);
  }

  // ----- A reopen that is not quiet -----

  predicate NoReopen(actions: seq<Action>) {
    forall i :: 0 <= i < |actions| ==> !actions[i].Reopen?
  }

  lemma NoReopenIsQuiet(sha: Hasher, s: State, actions: seq<Action>)
    requires NoReopen(actions)
    ensures QuietRun(sha, s, actions)
  {
  }

  /** Recovery can proceed: what it is about to look at is there. */
  ghost predicate Ready(sha: Hasher, s: State) {
    && s.handle.Recovering? && Safe(sha, s.disk) && RowsNamed(s.disk)
    && match s.handle.phase
       case Verifying(todo) => todo <= PublishedIds(s.disk)
       case Deleting => true
       case ScanStaging(names) => names <= s.disk.staging.Keys && StagedIds(s.disk) == {}
       case ScanBlobs(keys) => keys <= s.disk.blobs.Keys && StagedIds(s.disk) == {}
  }

  function Stage(p: Phase): nat {
    match p
    case Verifying(_) => 3
    case Deleting => 2
    case ScanStaging(_) => 1
    case ScanBlobs(_) => 0
  }

  function Pending(p: Phase): nat {
    match p
    case Verifying(todo) => |todo|
    case Deleting => 0
    case ScanStaging(names) => |names|
    case ScanBlobs(keys) => |keys|
  }

  ghost predicate RowsKept(d: Disk, d': Disk) {
    forall id :: id in d'.rows ==> id in d.rows && d'.rows[id] == d.rows[id]
  }

  /** One step nearer to the end of recovery: only the disk and the handle change. */
  ghost predicate Nearer(sha: Hasher, s: State, s': State) {
    && s' == s.(disk := s'.disk, handle := s'.handle)
    && RowsKept(s.disk, s'.disk)
    && if s'.handle.Open? then StagedIds(s'.disk) == {} && RowsNamed(s'.disk)
       else && s.handle.Recovering? && Ready(sha, s')
            && (Stage(s'.handle.phase) < Stage(s.handle.phase) ||
                (Stage(s'.handle.phase) == Stage(s.handle.phase) && Pending(s'.handle.phase) < Pending(s.handle.phase)))
  }

  ghost predicate Advances(sha: Hasher, s: State, a: Action) {
    !a.Reopen? && Nearer(sha, s, Apply(sha, s, a))
  }

  lemma VerifyAdvances(sha: Hasher, s: State) returns (a: Action)
    requires Ready(sha, s) && s.handle.phase.Verifying?
    ensures Advances(sha, s, a)
  {
    var todo := s.handle.phase.todo;
    if todo == {} {
      a := NextPhase;
    } else {
      var id := Inhabitant(todo);
      assert IsPublished(s.disk, id);
      a := VerifyNext(id);
    }
  }

  lemma DeleteAdvances(sha: Hasher, s: State) returns (a: Action)
    requires Ready(sha, s) && s.handle.phase.Deleting?
    ensures Advances(sha, s, a)
  {
    a := DeleteStaged;
    var d := DropStaged(s.disk, StagedIds(s.disk));
    forall id | id in d.rows ensures IsPublished(s.disk, id) {
      assert IsStaged(s.disk, id) <==> id in StagedIds(s.disk);
    }
  }

  lemma StagingEntryMoves(sha: Hasher, s: State, n: nat)
    requires Ready(sha, s) && s.handle.phase.ScanStaging? && n in s.handle.phase.names
    ensures Nearer(sha, s, s.(disk := MoveStaging(s.disk, n), handle := Recovering(ScanStaging(s.handle.phase.names - {n}))))
  {
    assert StagedIds(MoveStaging(s.disk, n)) == StagedIds(s.disk);
  }

  lemma StagingDone(sha: Hasher, s: State)
    requires Ready(sha, s) && s.handle.phase.ScanStaging? && s.handle.phase.names == {}
    ensures Advances(sha, s, NextPhase)
  {
    assert Apply(sha, s, NextPhase) == s.(handle := Recovering(ScanBlobs(s.disk.blobs.Keys)));
  }

  lemma StagingAdvances(sha: Hasher, s: State) returns (a: Action)
    requires Ready(sha, s) && s.handle.phase.ScanStaging?
    ensures Advances(sha, s, a)
  {
    var names := s.handle.phase.names;
    if names == {} {
      a := NextPhase;
      StagingDone(sha, s);
    } else {
      var n := Inhabitant(names);
      a := MoveStagingEntry(n);
      StagingEntryMoves(sha, s, n);
      assert Apply(sha, s, a) == s.(disk := MoveStaging(s.disk, n), handle := Recovering(ScanStaging(names - {n})));
    }
  }

  /** A blob entry is moved away unless a published row names it. */
  lemma BlobEntryMoves(sha: Hasher, s: State, key: string)
    requires Ready(sha, s) && s.handle.phase.ScanBlobs? && key in s.handle.phase.keys
    ensures var d := if key in PublishedKeys(s.disk) then s.disk else MoveBlob(s.disk, key);
            Nearer(sha, s, s.(disk := d, handle := Recovering(ScanBlobs(s.handle.phase.keys - {key}))))
  {
    if key !in PublishedKeys(s.disk) {
      OrphanMoveIsSafe(sha, s.disk, key);
      assert StagedIds(MoveBlob(s.disk, key)) == StagedIds(s.disk);
    }
  }

  lemma BlobsAdvance(sha: Hasher, s: State) returns (a: Action)
    requires Ready(sha, s) && s.handle.phase.ScanBlobs?
    ensures Advances(sha, s, a)
  {
    var keys := s.handle.phase.keys;
    if keys == {} {
      a := NextPhase;
    } else {
      var key := Inhabitant(keys);
      a := MoveBlobEntry(key);
      BlobEntryMoves(sha, s, key);
    }
  }

  lemma OrphanMoveIsSafe(sha: Hasher, d: Disk, key: string)
    requires Safe(sha, d) && RowsNamed(d) && key in d.blobs && key !in PublishedKeys(d)
    ensures Safe(sha, MoveBlob(d, key))
  {
    forall id | IsPublished(d, id) ensures BlobGood(sha, MoveBlob(d, key), d.rows[id].desc) {
      assert id in PublishedIds(d);
    }
  }

  /** From wherever recovery stands it can be driven to the open handle. */
  lemma {:induction false} Drive(sha: Hasher, s: State) returns (actions: seq<Action>)
    requires Ready(sha, s)
    ensures NoReopen(actions)
    ensures var s' := Run(sha, s, actions);
            && s' == s.(disk := s'.disk, handle := Open)
            && StagedIds(s'.disk) == {} && RowsNamed(s'.disk) && RowsKept(s.disk, s'.disk)
    decreases Stage(s.handle.phase), Pending(s.handle.phase)
  {
    var a;
    match s.handle.phase {
      case Verifying(_) => a := VerifyAdvances(sha, s);
      case Deleting => a := DeleteAdvances(sha, s);
      case ScanStaging(_) => a := StagingAdvances(sha, s);
      case ScanBlobs(_) => a := BlobsAdvance(sha, s);
    }
    var s1 := Apply(sha, s, a);
    if s1.handle.Open? {
      actions := [a];
      RunOne(sha, s, a);
    } else {
      var rest := Drive(sha, s1);
      actions := [a] + rest;
      RunCons(sha, s, a, rest);
    }
  }
}

/**
 The ingest protocol as a step machine: any number of ingest calls, each one filesystem
 operation or metadata command at a time, interleaved with cancellation by the caller,
 close, process crash, and the recovery pass of the next open.

 A cancelled call may leave one thing running: the filesystem operation or the metadata
 command it had already started. Such a call is `detached`. The metadata worker may take
 pending commands in any order, which includes the queue order of the real one.
 */
module AssetProtocol {
  import opened Foundation
  import opened AssetStore

  datatype Return = Inserted(desc: Descriptor) | Existing(desc: Descriptor) | Conflicting(desc: Descriptor) | Failed

  datatype AfterRemove = ThenCleanup | ThenReturn

  datatype Pc =
    | AwaitLookup
    | Creating
    | Writing(written: Bytes)
    | SendStage
    | AwaitStage
    | Renaming
    | SendPublish
    | AwaitPublish
    | Quarantining
    | SendRemove(after: AfterRemove)
    | AwaitRemove(after: AfterRemove)
    | Cleanup(result: Return)

  /** One ingest call. Its number also names its staging file; `gen` is the handle it runs on. */
  datatype Call = Call(desc: Descriptor, gen: nat, pc: Pc, detached: bool)

  datatype Phase =
    | Verifying(todo: set<AssetId>)
    | Deleting
    | ScanStaging(names: set<nat>)
    | ScanBlobs(keys: set<string>)

  datatype Handle = Closed | Recovering(phase: Phase) | Open | Closing

  datatype State = State(
    disk: Disk, handle: Handle, gen: nat, next: nat, calls: map<nat, Call>, replies: seq<Return>, corrupt: bool)

  const EMPTY: State := State(Disk(map[], map[], map[], multiset{}), Closed, 0, 0, map[], [], false)

  datatype Action =
    | Begin(desc: Descriptor)
    | Step(call: nat, chunk: Bytes, ok: bool)   // the call's next local step
    | Work(call: nat, ok: bool)                 // the worker executes the call's command
    | Lose(call: nat)                           // the worker is gone, its response is lost
    | Cancel(call: nat, running: bool)
    | Close
    | Stop
    | Crash
    | Reopen
    | VerifyNext(id: AssetId)
    | DeleteStaged
    | MoveStagingEntry(name: nat)
    | MoveBlobEntry(key: string)
    | NextPhase
    | Abort                                     // an I/O error ends the open

  // ----- One call -----

  function Goto(s: State, c: nat, pc: Pc): State
    requires c in s.calls
  {
    if s.calls[c].detached then s.(calls := s.calls - {c})
    else s.(calls := s.calls[c := s.calls[c].(pc := pc)])
  }

  function Finish(s: State, c: nat, r: Return): State
    requires c in s.calls
  {
    s.(calls := s.calls - {c}, replies := if s.calls[c].detached then s.replies else s.replies + [r])
  }

  predicate WorkerAlive(s: State, c: nat)
    requires c in s.calls
  {
    s.calls[c].gen == s.gen && (s.handle.Open? || s.handle.Closing?)
  }

  function Resume(s: State, c: nat, after: AfterRemove): State
    requires c in s.calls
  {
    if after.ThenCleanup? then Goto(s, c, Cleanup(Failed)) else Finish(s, c, Failed)
  }

  function WriteChunk(s: State, c: nat, chunk: Bytes): State
    requires c in s.calls && s.calls[c].pc.Writing?
  {
    var written := s.calls[c].pc.written + chunk;
    var staging := if c in s.disk.staging then s.disk.staging[c := s.disk.staging[c] + chunk] else s.disk.staging;
    Goto(s.(disk := s.disk.(staging := staging)), c, Writing(written))
  }

  function StepCall(sha: Hasher, s: State, c: nat, chunk: Bytes, ok: bool): State
    requires c in s.calls
  {
    var Call(desc, gen, pc, detached) := s.calls[c];
    var d := s.disk;
    var key := BlobKey(desc.id);
    match pc
    case Creating =>
      if ok then Goto(s.(disk := d.(staging := d.staging[c := []])), c, Writing([])) else Goto(s, c, Cleanup(Failed))
    case Writing(written) =>
      if !ok || |chunk| > READ_BUFFER_SIZE then Goto(s, c, Cleanup(Failed))
      else if chunk == [] then Goto(s, c, if Verifies(sha, written, desc) then SendStage else Cleanup(Failed))
      else if |written| + |chunk| > desc.length then Goto(s, c, Cleanup(Failed))
      else WriteChunk(s, c, chunk)
    case SendStage => Goto(s, c, if ok && WorkerAlive(s, c) then AwaitStage else Cleanup(Failed))
    case Renaming =>
      if ok && c in d.staging then
        Goto(s.(disk := d.(blobs := d.blobs[key := d.staging[c]], staging := d.staging - {c})), c, SendPublish)
      else Goto(s, c, SendRemove(ThenCleanup))
    case SendPublish => Goto(s, c, if ok && WorkerAlive(s, c) then AwaitPublish else Quarantining)
    case Quarantining =>
      Goto(if ok && key in d.blobs then s.(disk := MoveBlob(d, key)) else s, c, SendRemove(ThenReturn))
    case SendRemove(after) =>
      if ok && WorkerAlive(s, c) then Goto(s, c, AwaitRemove(after)) else Resume(s, c, after)
    case Cleanup(result) =>
      if ok then Finish(s.(disk := d.(staging := d.staging - {c})), c, result) else Finish(s, c, Failed)
    case _ => s
  }

  /** The worker executes the command call `c` waits for; `ok` is false when SQLite fails it. */
  function WorkCall(s: State, c: nat, ok: bool): State
    requires c in s.calls && WorkerAlive(s, c)
  {
    var desc, d := s.calls[c].desc, s.disk;
    var row := if desc.id in d.rows then Some(d.rows[desc.id]) else None;
    match s.calls[c].pc
    case AwaitLookup =>
      if !ok then Finish(s, c, Failed)
      else if row.None? then Goto(s, c, Creating)
      else if row.value.state == Staged then Finish(s, c, Failed)
      else Finish(s, c, if row.value.desc == desc then Existing(desc) else Conflicting(desc))
    case AwaitStage =>
      if !ok then Goto(s, c, Cleanup(Failed))
      else if row.None? then Goto(s.(disk := d.(rows := d.rows[desc.id := Record(desc, Staged)])), c, Renaming)
      else if row.value.state == Staged then Goto(s, c, Cleanup(Failed))
      else Goto(s, c, Cleanup(if row.value.desc == desc then Existing(desc) else Conflicting(desc)))
    case AwaitPublish =>
      if ok && row == Some(Record(desc, Staged)) then
        Finish(s.(disk := d.(rows := d.rows[desc.id := Record(desc, Published)])), c, Inserted(desc))
      else Goto(s, c, Quarantining)
    case AwaitRemove(after) =>
      Resume(if ok && IsStaged(d, desc.id) then s.(disk := d.(rows := d.rows - {desc.id})) else s, c, after)
    case _ => s
  }

  function LoseCall(s: State, c: nat): State
    requires c in s.calls
  {
    match s.calls[c].pc
    case AwaitLookup => Finish(s, c, Failed)
    case AwaitStage => Goto(s, c, Cleanup(Failed))
    case AwaitPublish => Goto(s, c, Quarantining)
    case AwaitRemove(after) => Resume(s, c, after)
    case _ => s
  }

  /** What can still run once its caller has gone. */
  predicate Detachable(pc: Pc) {
    !(pc.SendStage? || pc.SendPublish? || pc.SendRemove?)
  }

  // ----- The whole store -----

  function ApplyRecovery(sha: Hasher, s: State, a: Action): State
    requires s.handle.Recovering?
  {
    var d := s.disk;
    match (s.handle.phase, a)
    case (Verifying(todo), VerifyNext(id)) =>
      if id !in todo || id !in d.rows then s
      else if BlobGood(sha, d, d.rows[id].desc) then s.(handle := Recovering(Verifying(todo - {id})))
      else s.(handle := Closed, corrupt := true)
    case (Verifying(todo), NextPhase) => if todo == {} then s.(handle := Recovering(Deleting)) else s
    case (Deleting, DeleteStaged) =>
      var d' := DropStaged(d, StagedIds(d));
      s.(disk := d', handle := Recovering(ScanStaging(d'.staging.Keys)))
    case (ScanStaging(names), MoveStagingEntry(n)) =>
      if n !in names then s
      else if n in d.staging then s.(disk := MoveStaging(d, n), handle := Recovering(ScanStaging(names - {n})))
      else s.(handle := Closed)
    case (ScanStaging(names), NextPhase) =>
      if names == {} then s.(handle := Recovering(ScanBlobs(d.blobs.Keys))) else s
    case (ScanBlobs(keys), MoveBlobEntry(key)) =>
      if key !in keys then s
      else if key in PublishedKeys(d) then s.(handle := Recovering(ScanBlobs(keys - {key})))
      else if key in d.blobs then s.(disk := MoveBlob(d, key), handle := Recovering(ScanBlobs(keys - {key})))
      else s.(handle := Closed)
    case (ScanBlobs(keys), NextPhase) => if keys == {} then s.(handle := Open) else s
    case (_, Abort) => s.(handle := Closed)
    case _ => s
  }

  /** One step of the system; an action that is not possible changes nothing. */
  function Apply(sha: Hasher, s: State, a: Action): State {
    match a
    case Begin(desc) =>
      // the ingest lock admits one call of this handle at a time
      if s.handle.Open? && desc.length <= I64_MAX && forall c :: c in s.calls && s.calls[c].gen == s.gen ==> s.calls[c].detached
      then s.(calls := s.calls[s.next := Call(desc, s.gen, AwaitLookup, false)], next := s.next + 1)
      else s
    case Step(c, chunk, ok) => if c in s.calls then StepCall(sha, s, c, chunk, ok) else s
    case Work(c, ok) => if c in s.calls && WorkerAlive(s, c) then WorkCall(s, c, ok) else s
    case Lose(c) => if c in s.calls && !WorkerAlive(s, c) then LoseCall(s, c) else s
    case Cancel(c, running) =>
      if c !in s.calls then s
      else if running && Detachable(s.calls[c].pc) then s.(calls := s.calls[c := s.calls[c].(detached := true)])
      else s.(calls := s.calls - {c})
    case Close => if s.handle.Open? then s.(handle := Closing) else s
    case Stop => if s.handle.Closing? then s.(handle := Closed) else s
    case Crash => s.(calls := map[], handle := Closed)
    case Reopen =>
      if s.handle.Closed? then s.(handle := Recovering(Verifying(PublishedIds(s.disk))), gen := s.gen + 1) else s
    case _ => if s.handle.Recovering? then ApplyRecovery(sha, s, a) else s
  }

  function Run(sha: Hasher, s: State, actions: seq<Action>): State {
    if actions == [] then s else Apply(sha, Run(sha, s, actions[..|actions| - 1]), actions[|actions| - 1])
  }

  /** A surviving call that will yet move the blob of its id away by name. */
  predicate Dangerous(call: Call) {
    call.pc.Quarantining? || (!call.detached && (call.pc.Renaming? || call.pc.SendPublish? || call.pc.AwaitPublish?))
  }

  /** No call of an earlier handle is between its rename and its compensation. */
  ghost predicate Quiet(s: State) {
    forall c :: c in s.calls ==> !Dangerous(s.calls[c])
  }

  ghost predicate QuietAction(s: State, a: Action) {
    a.Reopen? && s.handle.Closed? ==> Quiet(s)
  }

  /** Every reopen of the run happens in a quiet state. Crashes and closes are unrestricted. */
  ghost predicate QuietRun(sha: Hasher, s: State, actions: seq<Action>) {
    forall i :: 0 <= i < |actions| ==> QuietAction(Run(sha, s, actions[..i]), actions[i])
  }

  // ----- The invariant -----

  predicate Owning(pc: Pc) {
    pc.Renaming? || pc.SendPublish? || pc.AwaitPublish? || pc.Quarantining? || pc.SendRemove? || pc.AwaitRemove?
  }

  ghost predicate NoCurrentCalls(s: State) {
    forall c :: c in s.calls ==> s.calls[c].gen < s.gen
  }

  /** A call of the present handle. */
  ghost predicate CurrentInv(sha: Hasher, s: State, c: nat)
    requires c in s.calls
  {
    var Call(desc, gen, pc, detached) := s.calls[c];
    && (Owning(pc) ==> desc.id in s.disk.rows && s.disk.rows[desc.id] == Record(desc, Staged))
    && (pc.Writing? ==> c in s.disk.staging && s.disk.staging[c] == pc.written)
    && (pc.SendStage? || pc.AwaitStage? || pc.Renaming? ==> c in s.disk.staging && Verifies(sha, s.disk.staging[c], desc))
    && (pc.SendPublish? || pc.AwaitPublish? || pc.Quarantining? ==> BlobGood(sha, s.disk, desc))
    && (pc.Cleanup? ==> ReturnTrue(s.disk, pc.result) && !pc.result.Inserted?)
  }

  /** Recovery has not yet passed over the staging file `c`. */
  ghost predicate StagingPending(s: State, c: nat) {
    s.handle.Closed? || (s.handle.Recovering? && match s.handle.phase
                                                 case Verifying(_) => true
                                                 case Deleting => true
                                                 case ScanStaging(names) => c in names
                                                 case ScanBlobs(_) => false)
  }

  /** A call that outlived its handle. */
  ghost predicate StaleInv(s: State, c: nat)
    requires c in s.calls
  {
    var Call(desc, gen, pc, detached) := s.calls[c];
    && !Dangerous(s.calls[c])
    && (pc.Renaming? && c in s.disk.staging ==> StagingPending(s, c) && NoCurrentCalls(s) && !IsPublished(s.disk, desc.id))
    && (pc.Cleanup? ==> ReturnTrue(s.disk, pc.result) && !pc.result.Inserted?)
  }

  ghost predicate CallInv(sha: Hasher, s: State, c: nat)
    requires c in s.calls
  {
    && c < s.next && s.calls[c].gen <= s.gen && s.calls[c].desc.length <= I64_MAX
    && (if s.calls[c].gen == s.gen then CurrentInv(sha, s, c) else StaleInv(s, c))
  }

  ghost predicate Owns(s: State, c: nat) {
    c in s.calls && s.calls[c].gen == s.gen && Owning(s.calls[c].pc)
  }

  /** Two calls of the present handle never both own one id. */
  ghost predicate OwnersDistinct(s: State) {
    forall a, b :: Owns(s, a) && Owns(s, b) && a != b ==> s.calls[a].desc.id != s.calls[b].desc.id
  }

  ghost predicate PhaseInv(s: State) {
    s.handle.Recovering? ==>
      && NoCurrentCalls(s)
      && (s.handle.phase.Verifying? ==> s.handle.phase.todo <= PublishedIds(s.disk))
      && (s.handle.phase.ScanStaging? || s.handle.phase.ScanBlobs? ==> StagedIds(s.disk) == {})
  }

  /** What a caller was told is true of the rows, for good. */
  ghost predicate ReturnTrue(d: Disk, r: Return) {
    match r
    case Inserted(desc) => desc.id in d.rows && d.rows[desc.id] == Record(desc, Published)
    case Existing(desc) => desc.id in d.rows && d.rows[desc.id] == Record(desc, Published)
    case Conflicting(desc) => IsPublished(d, desc.id) && d.rows[desc.id].desc != desc
    case Failed => true
  }

  ghost predicate ReturnsInv(s: State) {
    && (forall i :: 0 <= i < |s.replies| ==> ReturnTrue(s.disk, s.replies[i]))
    && (forall i, j :: 0 <= i < j < |s.replies| && s.replies[i].Inserted? && s.replies[j].Inserted? ==>
                         s.replies[i].desc.id != s.replies[j].desc.id)
  }

  ghost predicate Inv(sha: Hasher, s: State) {
    && Safe(sha, s.disk) && RowsNamed(s.disk) && !s.corrupt
    && (forall c :: c in s.calls ==> CallInv(sha, s, c))
    && OwnersDistinct(s) && PhaseInv(s) && ReturnsInv(s)
  }

  /** Published rows and their blobs are the same in both disks. */
  ghost predicate Keeps(d: Disk, d': Disk) {
    forall id :: IsPublished(d, id) ==>
                   && id in d'.rows && d'.rows[id] == d.rows[id]
                   && (BlobKey(id) in d.blobs ==> BlobKey(id) in d'.blobs && d'.blobs[BlobKey(id)] == d.blobs[BlobKey(id)])
  }
}

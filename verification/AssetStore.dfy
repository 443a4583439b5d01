/**
 The on-disk state of orbitrelay-asset-local-store and the code that handles bytes:
 streaming into staging, verifying a blob, and the recovery pass at open. The hash is an
 arbitrary function of the bytes.
 */
module AssetStore {
  import opened Foundation

  type AssetId = string
  type Bytes = seq<bv8>
  type Digest = nat
  type Hasher = Bytes -> Digest

  const READ_BUFFER_SIZE: nat := 65536

  /** `meta` stands for the media type and the original file name. */
  datatype Descriptor = Descriptor(id: AssetId, length: nat, hash: Digest, meta: string)

  datatype PublicationState = Staged | Published

  datatype Record = Record(desc: Descriptor, state: PublicationState)

  /**
   The metadata rows and the three directories. Staging files are named by a token that is
   never reused; quarantined files get fresh names, so only their contents matter.
   */
  datatype Disk = Disk(
    rows: map<AssetId, Record>,
    staging: map<nat, Bytes>,
    blobs: map<string, Bytes>,
    quarantine: multiset<Bytes>)

  function BlobKey(id: AssetId): string {
    id + ".blob"
  }

  lemma BlobKeyInjective(a: AssetId, b: AssetId)
    requires BlobKey(a) == BlobKey(b)
    ensures a == b
  {
    assert a == BlobKey(a)[..|BlobKey(a)| - 5];
    assert b == BlobKey(b)[..|BlobKey(b)| - 5];
  }

  predicate Verifies(sha: Hasher, bytes: Bytes, desc: Descriptor) {
    |bytes| == desc.length && sha(bytes) == desc.hash
  }

  /** The blob a published row names is there and has the descriptor's length and hash. */
  predicate BlobGood(sha: Hasher, d: Disk, desc: Descriptor) {
    BlobKey(desc.id) in d.blobs && Verifies(sha, d.blobs[BlobKey(desc.id)], desc)
  }

  predicate IsPublished(d: Disk, id: AssetId) {
    id in d.rows && d.rows[id].state == Published
  }

  predicate IsStaged(d: Disk, id: AssetId) {
    id in d.rows && d.rows[id].state == Staged
  }

  function PublishedIds(d: Disk): set<AssetId> {
    set id | id in d.rows && IsPublished(d, id)
  }

  function StagedIds(d: Disk): set<AssetId> {
    set id | id in d.rows && IsStaged(d, id)
  }

  function PublishedKeys(d: Disk): set<string> {
    set id | id in PublishedIds(d) :: BlobKey(id)
  }

  ghost predicate Safe(sha: Hasher, d: Disk) {
    forall id :: IsPublished(d, id) ==> BlobGood(sha, d, d.rows[id].desc)
  }

  ghost predicate RowsNamed(d: Disk) {
    forall id :: id in d.rows ==> d.rows[id].desc.id == id
  }

  // ----- Streaming into a staging file -----

  datatype IngestError = LengthMismatch | HashMismatch | Filesystem | Corruption | Conflict | InProgress | Backend

  datatype VerifiedWrite = VerifiedWrite(length: nat, hash: Digest)

  function Flatten(chunks: seq<Bytes>): Bytes {
    if chunks == [] then [] else Flatten(chunks[..|chunks| - 1]) + chunks[|chunks| - 1]
  }

  lemma {:induction false} FlattenGrows(chunks: seq<Bytes>, i: nat)
    requires i <= |chunks|
    ensures |Flatten(chunks[..i])| <= |Flatten(chunks)|
    decreases |chunks|
  {
    if i == |chunks| {
      assert chunks[..i] == chunks;
    } else {
      FlattenGrows(chunks[..|chunks| - 1], i);
      assert chunks[..|chunks| - 1][..i] == chunks[..i];
    }
  }

  /**
   `write_staging`. The source yields `chunks`; `faultAt` is the read, write or sync that
   fails, if any. Success means the file holds exactly the source, of a length within the
   descriptor's, together with its length and hash; without a fault the only other outcome
   is a source longer than the descriptor allows.
   */
  method WriteStaging(sha: Hasher, desc: Descriptor, chunks: seq<Bytes>, faultAt: Option<nat>)
    returns (r: Result<VerifiedWrite, IngestError>, file: Bytes)
    ensures r.Ok? ==>
              && file == Flatten(chunks) && |file| <= desc.length
              && r.value == VerifiedWrite(|file|, sha(file))
    ensures r.Err? ==> if r.error == LengthMismatch then |Flatten(chunks)| > desc.length else r.error == Filesystem && faultAt.Some?
  {
    file := [];
    var hashed: Bytes := [];
    var length := 0;
    for i := 0 to |chunks|
      invariant file == hashed == Flatten(chunks[..i]) && length == |file| <= desc.length
    {
      if faultAt == Some(i) {
        return Err(Filesystem), file;
      }
      assert chunks[..i + 1][..i] == chunks[..i];
      if length + |chunks[i]| > desc.length {
        FlattenGrows(chunks, i + 1);
        return Err(LengthMismatch), file;
      }
      file := file + chunks[i];
      hashed := hashed + chunks[i];
      length := length + |chunks[i]|;
    }
    assert chunks[..|chunks|] == chunks;
    if faultAt == Some(|chunks|) {
      return Err(Filesystem), file;
    }
    r := Ok(VerifiedWrite(length, sha(hashed)));
  }

  /** `verify_blob`: the length first, then the hash of the file read a buffer at a time; a read that fails counts as corruption. */
  method VerifyBlob(sha: Hasher, d: Disk, desc: Descriptor, unreadable: bool) returns (ok: bool)
    ensures ok <==> BlobGood(sha, d, desc) && !unreadable
  {
    var key := BlobKey(desc.id);
    if key !in d.blobs {
      return false;
    }
    var file := d.blobs[key];
    if |file| != desc.length || unreadable {
      return false;
    }
    var hashed: Bytes, at := [], 0;
    while at < |file|
      invariant at <= |file| && hashed == file[..at]
    {
      var read := if |file| - at < READ_BUFFER_SIZE then |file| - at else READ_BUFFER_SIZE;
      hashed := hashed + file[at..at + read];
      at := at + read;
    }
    assert hashed == file;
    ok := sha(hashed) == desc.hash;
  }

  // ----- Recovery at open -----

  /** How many files of a directory hold exactly these bytes. */
  ghost function Copies<K>(dir: map<K, Bytes>, b: Bytes): nat {
    |set k | k in dir && dir[k] == b|
  }

  /** Taking one file out of a directory takes exactly one copy of its content out. */
  lemma CopiesRemove<K>(dir: map<K, Bytes>, k: K, b: Bytes)
    requires k in dir
    ensures Copies(dir, b) == Copies(dir - {k}, b) + if dir[k] == b then 1 else 0
  {
    var all := set x | x in dir && dir[x] == b;
    var rest := set x | x in dir - {k} && (dir - {k})[x] == b;
    assert rest == all - {k};
  }

  lemma CopiesBounded<K>(dir: map<K, Bytes>, b: Bytes)
    ensures Copies(dir, b) <= |dir|
  {
    var all := set x | x in dir && dir[x] == b;
    assert dir.Keys == all + (dir.Keys - all);
    assert |dir| == |dir.Keys|;
  }

  lemma CopiesSplit<K>(dir: map<K, Bytes>, keys: set<K>, b: Bytes)
    ensures Copies(dir, b) == Copies(dir - keys, b) + Copies(dir - (dir.Keys - keys), b)
  {
    var all := set x | x in dir && dir[x] == b;
    var kept := set x | x in dir - keys && (dir - keys)[x] == b;
    var taken := set x | x in dir - (dir.Keys - keys) && (dir - (dir.Keys - keys))[x] == b;
    assert all == kept + taken && kept !! taken;
  }

  function MoveStaging(d: Disk, n: nat): Disk
    requires n in d.staging
  {
    d.(staging := d.staging - {n}, quarantine := d.quarantine + multiset{d.staging[n]})
  }

  function MoveBlob(d: Disk, key: string): Disk
    requires key in d.blobs
  {
    d.(blobs := d.blobs - {key}, quarantine := d.quarantine + multiset{d.blobs[key]})
  }

  function DropStaged(d: Disk, staged: set<AssetId>): Disk {
    d.(rows := map id | id in d.rows && !(id in staged && d.rows[id].state == Staged) :: d.rows[id])
  }

  ghost function Orphans(d: Disk): map<string, Bytes> {
    d.blobs - PublishedKeys(d)
  }

  /** What recovery makes of `d`: the disk `r`. */
  ghost predicate RecoveredFrom(d: Disk, r: Disk) {
    && r.rows == DropStaged(d, StagedIds(d)).rows
    && r.staging == map[]
    && r.blobs == d.blobs - Orphans(d).Keys
    && forall b :: r.quarantine[b] == d.quarantine[b] + Copies(d.staging, b) + Copies(Orphans(d), b)
  }

  /** How many files on the disk, wherever they are, hold exactly these bytes. */
  ghost function CopiesOnDisk(d: Disk, b: Bytes): nat {
    Copies(d.staging, b) + Copies(d.blobs, b) + d.quarantine[b]
  }

  /** Recovery keeps every file: it moves bytes to quarantine, it neither loses nor copies them. */
  lemma RecoveryLosesNothing(d: Disk, r: Disk, b: Bytes)
    requires RecoveredFrom(d, r)
    ensures CopiesOnDisk(r, b) == CopiesOnDisk(d, b)
  {
    CopiesSplit(d.blobs, Orphans(d).Keys, b);
    OrphansTaken(d);
    CopiesBounded(r.staging, b);
  }

  lemma OrphansTaken(d: Disk)
    ensures d.blobs - (d.blobs.Keys - Orphans(d).Keys) == Orphans(d)
  {
  }

  /**
   What recovery leaves: no staged row, the published rows as they were, an empty staging
   directory, and exactly the published blobs of those there were.
   */
  lemma RecoveredState(d: Disk, r: Disk)
    requires RecoveredFrom(d, r)
    ensures StagedIds(r) == {} && PublishedIds(r) == PublishedIds(d)
    ensures forall id :: IsPublished(d, id) ==> r.rows[id] == d.rows[id]
    ensures r.staging == map[]
    ensures r.blobs.Keys == d.blobs.Keys * PublishedKeys(d)
    ensures forall key :: key in r.blobs ==> r.blobs[key] == d.blobs[key]
  {
    assert forall id :: IsPublished(r, id) <==> IsPublished(d, id);
    assert PublishedIds(r) == PublishedIds(d);
  }

  /** On a safe disk the blob directory then holds exactly the published blobs, and the disk is still safe. */
  lemma RecoveredDirectory(sha: Hasher, d: Disk, r: Disk)
    requires RecoveredFrom(d, r) && Safe(sha, d) && RowsNamed(d)
    ensures r.blobs.Keys == PublishedKeys(r) && Safe(sha, r) && RowsNamed(r)
  {
    RecoveredState(d, r);
    forall key | key in PublishedKeys(d) ensures key in d.blobs {
      var id :| id in PublishedIds(d) && BlobKey(id) == key;
      assert BlobGood(sha, d, d.rows[id].desc);
    }
    forall id | IsPublished(r, id) ensures BlobGood(sha, r, r.rows[id].desc) {
      assert id in PublishedIds(r);
      assert BlobGood(sha, d, d.rows[id].desc);
      assert BlobKey(id) in PublishedKeys(d);
    }
  }

  /** Nothing is left for recovery to do. */
  ghost predicate Settled(d: Disk) {
    StagedIds(d) == {} && d.staging == map[] && d.blobs.Keys <= PublishedKeys(d)
  }

  lemma NothingOrphaned(d: Disk)
    requires Settled(d)
    ensures Orphans(d) == map[] && DropStaged(d, StagedIds(d)).rows == d.rows
  {
    NothingStaged(d);
    assert Orphans(d).Keys == {};
  }

  lemma SettledIsFixed(d: Disk, r: Disk)
    requires Settled(d) && RecoveredFrom(d, r)
    ensures r == d
  {
    NothingOrphaned(d);
    assert r.blobs == d.blobs;
    forall b ensures r.quarantine[b] == d.quarantine[b] {
      CopiesBounded(d.staging, b);
      CopiesBounded(Orphans(d), b);
    }
    assert r.quarantine == d.quarantine;
  }

  /** Recovering twice is recovering once. */
  lemma RecoveryIsIdempotent(d: Disk, r: Disk, again: Disk)
    requires RecoveredFrom(d, r) && RecoveredFrom(r, again)
    ensures again == r
  {
    RecoveredState(d, r);
    SettledIsFixed(r, again);
  }

  /** Recovery that an I/O error ended: nothing is lost, and nothing published has changed. */
  ghost predicate PartlyRecovered(d: Disk, r: Disk) {
    && (r.rows == d.rows || r.rows == DropStaged(d, StagedIds(d)).rows)
    && r.staging.Keys <= d.staging.Keys && r.blobs.Keys <= d.blobs.Keys
    && (forall key :: key in d.blobs && key in PublishedKeys(d) ==> key in r.blobs && r.blobs[key] == d.blobs[key])
    && forall b :: CopiesOnDisk(r, b) == CopiesOnDisk(d, b)
  }

  datatype Recovery = Recovered | CorruptBlob | Interrupted

  /** The first loop of `recover_storage`: verify what is published, collect its keys and the staged ids. */
  method ScanRecords(sha: Hasher, d: Disk, unreadable: set<AssetId>)
    returns (good: bool, publishedKeys: set<string>, staged: set<AssetId>)
    requires RowsNamed(d)
    ensures good <==> Safe(sha, d) && PublishedIds(d) !! unreadable
    ensures good ==> publishedKeys == PublishedKeys(d) && staged == StagedIds(d)
  {
    var records := d.rows.Keys;
    publishedKeys, staged := {}, {};
    while records != {}
      invariant records <= d.rows.Keys
      invariant forall id :: id in d.rows && id !in records && IsPublished(d, id) ==> BlobGood(sha, d, d.rows[id].desc) && id !in unreadable
      invariant publishedKeys == set id | id in PublishedIds(d) && id !in records :: BlobKey(id)
      invariant staged == set id | id in StagedIds(d) && id !in records
      decreases records
    {
      ghost var some := Inhabitant(records);
      var id :| id in records;
      var record := d.rows[id];
      if record.state == Published {
        var verified := VerifyBlob(sha, d, record.desc, id in unreadable);
        if !verified {
          assert IsPublished(d, id) && id in PublishedIds(d);
          return false, {}, {};
        }
        publishedKeys := publishedKeys + {BlobKey(id)};
      } else {
        staged := staged + {id};
      }
      records := records - {id};
    }
    assert forall id :: id in PublishedIds(d) ==> IsPublished(d, id) && id !in unreadable;
    good := true;
  }

  class LocalAssetStore {
    var disk: Disk

    constructor (disk: Disk)
      ensures this.disk == disk
    {
      this.disk := disk;
    }

    /**
     `recover_storage`. It reports corruption exactly when some published blob does not
     verify or cannot be read, and has then changed nothing. Otherwise it leaves the recovered disk, unless
     the transaction or a move fails: then a part of that is done.
     */
    method Recover(sha: Hasher, unreadable: set<AssetId>, commitFault: bool, stagingFault: Option<nat>, sweepFault: Option<nat>)
      returns (r: Recovery)
      requires RowsNamed(disk)
      modifies this
      ensures r.CorruptBlob? <==> !(Safe(sha, old(disk)) && PublishedIds(old(disk)) !! unreadable)
      ensures r.CorruptBlob? ==> disk == old(disk)
      ensures r.Recovered? ==> RecoveredFrom(old(disk), disk)
      ensures r.Interrupted? ==> (commitFault || stagingFault.Some? || sweepFault.Some?) && PartlyRecovered(old(disk), disk)
    {
      var good, publishedKeys, staged := ScanRecords(sha, disk, unreadable);
      if !good {
        return CorruptBlob;
      }
      ghost var start := disk;
      if staged != {} {
        if commitFault {
          return Interrupted;
        }
        disk := DropStaged(disk, staged);
      }
      NothingStaged(start);
      ghost var dropped := disk;
      var emptied := EmptyStaging(stagingFault);
      StagingPart(start, dropped, disk);
      if !emptied {
        return Interrupted;
      }
      ghost var empty := disk;
      var swept := SweepBlobs(publishedKeys, sweepFault);
      if !swept {
        SweepPart(start, empty, disk);
        return Interrupted;
      }
      r := Recovered;
    }

    /** `quarantine_directory_entries` over staging; `fault` is the move that fails, if any. */
    method EmptyStaging(fault: Option<nat>) returns (ok: bool)
      modifies this
      ensures disk.rows == old(disk).rows && disk.blobs == old(disk).blobs && disk.staging.Keys <= old(disk).staging.Keys
      ensures forall b :: disk.quarantine[b] + Copies(disk.staging, b) == old(disk).quarantine[b] + Copies(old(disk).staging, b)
      ensures !ok ==> fault.Some?
      ensures ok ==> disk.staging == map[] && forall b :: disk.quarantine[b] == old(disk).quarantine[b] + Copies(old(disk).staging, b)
    {
      ghost var start := disk;
      var moves := 0;
      while disk.staging.Keys != {}
        invariant disk.rows == start.rows && disk.blobs == start.blobs && disk.staging.Keys <= start.staging.Keys
        invariant forall b :: disk.quarantine[b] + Copies(disk.staging, b) == start.quarantine[b] + Copies(start.staging, b)
        decreases disk.staging.Keys
      {
        if fault == Some(moves) {
          return false;
        }
        ghost var some := Inhabitant(disk.staging.Keys);
        var n :| n in disk.staging;
        forall b { CopiesRemove(disk.staging, n, b); }
        disk, moves := MoveStaging(disk, n), moves + 1;
      }
      forall b { CopiesBounded(disk.staging, b); }
      ok := true;
    }

    /** The scan of the blob directory for files no published row names. */
    method SweepBlobs(publishedKeys: set<string>, fault: Option<nat>) returns (ok: bool)
      modifies this
      ensures exists entries :: Swept(old(disk), publishedKeys, entries, disk)
      ensures !ok ==> fault.Some?
      ensures ok ==>
                var orphans := old(disk).blobs - publishedKeys;
                && disk.rows == old(disk).rows && disk.staging == old(disk).staging
                && disk.blobs == old(disk).blobs - orphans.Keys
                && forall b :: disk.quarantine[b] == old(disk).quarantine[b] + Copies(orphans, b)
    {
      ghost var start := disk;
      var entries := disk.blobs.Keys;
      var moves := 0;
      SweepBegins(start, publishedKeys);
      while entries != {}
        invariant entries <= start.blobs.Keys && Swept(start, publishedKeys, entries, disk)
        decreases entries
      {
        ghost var some := Inhabitant(entries);
        var key :| key in entries;
        SweepStep(start, publishedKeys, entries, disk, key);
        if key !in publishedKeys {
          if fault == Some(moves) {
            return false;
          }
          disk, moves := MoveBlob(disk, key), moves + 1;
        }
        entries := entries - {key};
      }
      assert Moved(start, publishedKeys, {}) == start.blobs - publishedKeys;
      ok := true;
    }
  }

  lemma NothingStaged(d: Disk)
    ensures StagedIds(d) == {} ==> DropStaged(d, StagedIds(d)).rows == d.rows
  {
    if StagedIds(d) == {} {
      assert forall id :: id in d.rows ==> id !in StagedIds(d);
    }
  }

  /** However far emptying staging got, it is a part of recovery. */
  lemma StagingPart(start: Disk, dropped: Disk, d: Disk)
    requires dropped == DropStaged(start, StagedIds(start))
    requires d.rows == dropped.rows && d.blobs == dropped.blobs && d.staging.Keys <= dropped.staging.Keys
    requires forall b :: d.quarantine[b] + Copies(d.staging, b) == dropped.quarantine[b] + Copies(dropped.staging, b)
    ensures PartlyRecovered(start, d)
  {
  }

  lemma SweepConserves(empty: Disk, keys: set<string>, entries: set<string>, d: Disk, b: Bytes)
    requires Swept(empty, keys, entries, d)
    ensures CopiesOnDisk(d, b) == CopiesOnDisk(empty, b)
  {
    var moved := Moved(empty, keys, entries);
    assert empty.blobs - (empty.blobs.Keys - moved.Keys) == moved;
    CopiesSplit(empty.blobs, moved.Keys, b);
  }

  /** ... and so is however far the sweep got after that. */
  lemma SweepPart(start: Disk, empty: Disk, d: Disk)
    requires PartlyRecovered(start, empty) && empty.blobs == start.blobs
    requires exists entries :: Swept(empty, PublishedKeys(start), entries, d)
    ensures PartlyRecovered(start, d)
  {
    var entries :| Swept(empty, PublishedKeys(start), entries, d);
    forall b ensures CopiesOnDisk(d, b) == CopiesOnDisk(start, b) {
      SweepConserves(empty, PublishedKeys(start), entries, d, b);
    }
  }

  /** The orphans a sweep has displaced once only `entries` are left to look at. */
  ghost function Moved(start: Disk, keys: set<string>, entries: set<string>): map<string, Bytes> {
    map k | k in start.blobs && k !in keys && k !in entries :: start.blobs[k]
  }

  ghost predicate Swept(start: Disk, keys: set<string>, entries: set<string>, d: Disk) {
    && d.rows == start.rows && d.staging == start.staging
    && d.blobs == start.blobs - Moved(start, keys, entries).Keys
    && forall b :: d.quarantine[b] == start.quarantine[b] + Copies(Moved(start, keys, entries), b)
  }

  lemma SweepBegins(start: Disk, keys: set<string>)
    ensures Swept(start, keys, start.blobs.Keys, start)
  {
    var moved := Moved(start, keys, start.blobs.Keys);
    assert moved.Keys == {} && |moved| == 0;
    forall b { CopiesBounded(moved, b); }
  }

  lemma SweepStep(start: Disk, keys: set<string>, entries: set<string>, d: Disk, key: string)
    requires Swept(start, keys, entries, d) && key in entries && entries <= start.blobs.Keys
    ensures key in d.blobs && Swept(start, keys, entries - {key}, if key in keys then d else MoveBlob(d, key))
  {
    var before, after := Moved(start, keys, entries), Moved(start, keys, entries - {key});
    if key in keys {
      assert after == before;
    } else {
      assert after - {key} == before;
      forall b { CopiesRemove(after, key, b); }
    }
  }
}

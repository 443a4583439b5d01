/**
 Asset delivery over HTTP: resolving a Range header, reading a published blob, and
 streaming it in chunks. The socket, the cancellation token and I/O faults are inputs.
 */
module Delivery {
  import opened Foundation
  import opened AssetStore
  import AssetProtocol
  import AssetReopen

  // ----- Numbers -----

  predicate IsDigit(c: char) {
    '0' <= c <= '9'
  }

  predicate AllDigits(s: string) {
    forall i :: 0 <= i < |s| ==> IsDigit(s[i])
  }

  function DecimalValue(s: string): nat
    requires AllDigits(s)
  {
    if s == [] then 0 else 10 * DecimalValue(s[..|s| - 1]) + (s[|s| - 1] as int - '0' as int)
  }

  /** `str::parse::<u64>`: an optional plus sign, then at least one digit, no overflow. */
  function ParseU64(s: string): Option<nat> {
    var digits := if s != [] && s[0] == '+' then s[1..] else s;
    if digits == [] || !AllDigits(digits) || DecimalValue(digits) > U64_MAX then None else Some(DecimalValue(digits))
  }

  function Decimal(n: nat): string {
    if n < 10 then ['0' + n as char] else Decimal(n / 10) + ['0' + (n % 10) as char]
  }

  /** Printing a `u64` and parsing it gives it back. */
  lemma {:induction false} DecimalRoundTrip(n: nat)
    ensures Decimal(n) != [] && AllDigits(Decimal(n)) && DecimalValue(Decimal(n)) == n
    ensures n <= U64_MAX ==> ParseU64(Decimal(n)) == Some(n)
  {
    if n >= 10 {
      DecimalRoundTrip(n / 10);
      assert Decimal(n)[..|Decimal(n)| - 1] == Decimal(n / 10);
    } else {
      assert Decimal(n)[..0] == [];
    }
  }

  lemma NumberCharacters(s: string)
    requires ParseU64(s).Some?
    ensures s != [] && '-' !in s && ',' !in s
  {
    var digits := if s[0] == '+' then s[1..] else s;
    assert forall c :: c in s ==> c == '+' || c in digits;
  }

  // ----- Range headers -----

  /** The inclusive range [start, end]. */
  datatype ResolvedRange = ResolvedRange(start: nat, end: nat)

  datatype RangeParseError = Malformed | Unsatisfiable | Multiple

  const PREFIX: string := "bytes="

  /** `str::split_once('-')`: the index of the first dash. */
  function FirstDash(s: string): Option<nat> {
    if s == [] then None
    else if s[0] == '-' then Some(0)
    else
      var rest := FirstDash(s[1..]);
      if rest.None? then None else Some(rest.value + 1)
  }

  lemma {:induction false} FirstDashFound(s: string, k: nat)
    ensures FirstDash(s) == Some(k) <==> k < |s| && s[k] == '-' && '-' !in s[..k]
  {
    if s != [] && s[0] != '-' {
      if k > 0 {
        FirstDashFound(s[1..], k - 1);
        if k < |s| {
          assert s[..k] == [s[0]] + s[1..][..k - 1];
        }
      }
    } else if s != [] && k > 0 && k < |s| {
      assert s[..k][0] == '-';
    }
  }

  function NewRange(start: nat, end: nat): Result<ResolvedRange, RangeParseError> {
    if start > end then Err(Unsatisfiable) else Ok(ResolvedRange(start, end))
  }

  function ParseRange(value: string, total: nat): Result<ResolvedRange, RangeParseError> {
    if !(PREFIX <= value) then Err(Malformed)
    else
      var spec := value[|PREFIX|..];
      var dash := FirstDash(spec);
      if ',' in spec then Err(Multiple)
      else if dash.None? then Err(Malformed)
      else
        FirstDashFound(spec, dash.value);
        ResolveParts(spec[..dash.value], spec[dash.value + 1..], total)
  }

  function ResolveParts(first: string, second: string, total: nat): Result<ResolvedRange, RangeParseError> {
    if first == [] then
      var suffix := ParseU64(second);
      if suffix.None? then Err(Malformed)
      else if suffix.value == 0 || total == 0 then Err(Unsatisfiable)
      else NewRange(if suffix.value > total then 0 else total - suffix.value, total - 1)
    else
      var start := ParseU64(first);
      if start.None? then Err(Malformed)
      else if total == 0 || start.value >= total then Err(Unsatisfiable)
      else if second == [] then NewRange(start.value, total - 1)
      else
        var end := ParseU64(second);
        if end.None? then Err(Malformed)
        else NewRange(start.value, if end.value < total - 1 then end.value else total - 1)
  }

  function Parts(first: string, second: string): string {
    PREFIX + first + ['-'] + second
  }

  /** The last `k` bytes of `total`, all of them if there are fewer. */
  predicate IsSuffix(r: ResolvedRange, k: nat, total: nat) {
    0 < k && 0 < total && r.end == total - 1 && (if k < total then r.end - r.start + 1 == k else r.start == 0)
  }

  /**
   What a header asks for, section 14.1.2 of RFC 9110: a suffix, everything from a first
   position on, or from a first to a last position as far as the asset goes. Numbers may
   carry a plus sign.
   */
  ghost predicate Denotes(first: string, second: string, total: nat, r: ResolvedRange) {
    var x, y := ParseU64(first), ParseU64(second);
    || (first == [] && y.Some? && IsSuffix(r, y.value, total))
    || (x == Some(r.start) && second == [] && r.start <= r.end == total - 1)
    || (x == Some(r.start) && y.Some? && r.start <= r.end < total && r.end <= y.value &&
        (r.end == y.value || r.end == total - 1))
  }

  lemma PartsParsed(first: string, second: string, total: nat)
    requires '-' !in first && ',' !in first && ',' !in second
    ensures ParseRange(Parts(first, second), total) == ResolveParts(first, second, total)
  {
    var value := Parts(first, second);
    var spec := value[|PREFIX|..];
    assert value[..|PREFIX|] == PREFIX;
    assert spec == first + ['-'] + second;
    assert spec[..|first|] == first && spec[|first| + 1..] == second;
    FirstDashFound(spec, |first|);
  }

  lemma PartsResolved(first: string, second: string, total: nat, r: ResolvedRange)
    ensures ResolveParts(first, second, total) == Ok(r) <==> Denotes(first, second, total, r)
  {
    if ParseU64(first).Some? { NumberCharacters(first); }
    if ParseU64(second).Some? { NumberCharacters(second); }
  }

  lemma PartsOf(value: string, k: nat)
    requires PREFIX <= value && k < |value| - |PREFIX| && value[|PREFIX| + k] == '-'
    ensures value == Parts(value[|PREFIX|..][..k], value[|PREFIX|..][k + 1..])
  {
    var spec := value[|PREFIX|..];
    assert value == value[..|PREFIX|] + spec;
    assert spec == spec[..k] + ['-'] + spec[k + 1..];
  }

  lemma AcceptedIsDenoted(value: string, total: nat, r: ResolvedRange) returns (first: string, second: string)
    requires ParseRange(value, total) == Ok(r)
    ensures value == Parts(first, second) && Denotes(first, second, total, r)
  {
    var spec := value[|PREFIX|..];
    var k := FirstDash(spec).value;
    FirstDashFound(spec, k);
    first, second := spec[..k], spec[k + 1..];
    PartsOf(value, k);
    PartsResolved(first, second, total, r);
  }

  lemma DenotedIsAccepted(first: string, second: string, total: nat, r: ResolvedRange)
    requires Denotes(first, second, total, r)
    ensures ParseRange(Parts(first, second), total) == Ok(r)
  {
    if ParseU64(first).Some? { NumberCharacters(first); }
    if ParseU64(second).Some? { NumberCharacters(second); }
    PartsParsed(first, second, total);
    PartsResolved(first, second, total, r);
  }

  /**
   A header is accepted with a range exactly when it is written as one of the three forms
   and denotes that range. An accepted range lies within the asset.
   */
  lemma ParseRangeIsDenotation(value: string, total: nat, r: ResolvedRange)
    ensures ParseRange(value, total) == Ok(r) <==>
            exists first, second :: value == Parts(first, second) && Denotes(first, second, total, r)
    ensures ParseRange(value, total) == Ok(r) ==> r.start <= r.end < total
  {
    if ParseRange(value, total) == Ok(r) {
      var first, second := AcceptedIsDenoted(value, total, r);
    }
    if first, second :| value == Parts(first, second) && Denotes(first, second, total, r) {
      DenotedIsAccepted(first, second, total, r);
    }
  }

  predicate Reaches(x: Option<nat>, total: nat) {
    x.Some? && x.value < total
  }

  /** No number where one is needed: the suffix, the start, or the end of a range whose start is within the asset. */
  predicate BadNumber(first: string, second: string, total: nat) {
    var x, y := ParseU64(first), ParseU64(second);
    if first == [] then y.None? else x.None? || (Reaches(x, total) && second != [] && y.None?)
  }

  /** A request for nothing that is there: a suffix of no bytes, a start past the end, or an end before the start. */
  predicate Nothing(first: string, second: string, total: nat) {
    var x, y := ParseU64(first), ParseU64(second);
    if first == [] then y.Some? && (y.value == 0 || total == 0)
    else x.Some? && (x.value >= total || (second != [] && y.Some? && y.value < x.value))
  }

  lemma PartsRefused(first: string, second: string, total: nat)
    ensures ResolveParts(first, second, total) == Err(Malformed) <==> BadNumber(first, second, total)
    ensures ResolveParts(first, second, total) == Err(Unsatisfiable) <==> Nothing(first, second, total)
    ensures ResolveParts(first, second, total) != Err(Multiple)
  {
  }

  /** The text names one range: the unit, then two parts around the first dash, and no comma. */
  ghost predicate OneRange(value: string, first: string, second: string) {
    value == Parts(first, second) && '-' !in first && ',' !in first && ',' !in second
  }

  /** A text with the unit, a dash and no comma splits into its two parts in exactly one way. */
  lemma SplitAtDash(value: string, total: nat) returns (first: string, second: string)
    requires PREFIX <= value && ',' !in value[|PREFIX|..] && '-' in value[|PREFIX|..]
    ensures OneRange(value, first, second) && ParseRange(value, total) == ResolveParts(first, second, total)
  {
    var spec := value[|PREFIX|..];
    DashIsFound(spec);
    var k := FirstDash(spec).value;
    FirstDashFound(spec, k);
    first, second := spec[..k], spec[k + 1..];
    PartsOf(value, k);
    assert forall c :: c in first || c in second ==> c in spec;
  }

  lemma {:induction false} DashIsFound(s: string)
    ensures FirstDash(s).Some? <==> '-' in s
  {
    if s != [] {
      DashIsFound(s[1..]);
      assert s == [s[0]] + s[1..];
    }
  }

  lemma OneRangeText(value: string, first: string, second: string, total: nat)
    requires OneRange(value, first, second)
    ensures PREFIX <= value && ',' !in value[|PREFIX|..] && '-' in value[|PREFIX|..]
    ensures ParseRange(value, total) == ResolveParts(first, second, total)
  {
    PartsParsed(first, second, total);
    PartsText(first, second);
  }

  lemma PartsText(first: string, second: string)
    requires ',' !in first && ',' !in second
    ensures PREFIX <= Parts(first, second)
    ensures ',' !in Parts(first, second)[|PREFIX|..] && '-' in Parts(first, second)[|PREFIX|..]
  {
    var value := Parts(first, second);
    assert value[..|PREFIX|] == PREFIX;
    assert value[|PREFIX|..] == first + ['-'] + second;
  }

  /** Multiple (416): more than one range is named. Malformed (400): the unit or the dash is missing, or a number. Unsatisfiable (416): what is asked for is not there. */
  lemma RefusedHeaders(value: string, total: nat)
    ensures ParseRange(value, total) == Err(Multiple) <==> PREFIX <= value && ',' in value[|PREFIX|..]
    ensures ParseRange(value, total) == Err(Unsatisfiable) <==>
            exists first, second :: OneRange(value, first, second) && Nothing(first, second, total)
    ensures ParseRange(value, total) == Err(Malformed) <==>
            || !(PREFIX <= value)
            || (',' !in value[|PREFIX|..] && '-' !in value[|PREFIX|..])
            || exists first, second :: OneRange(value, first, second) && BadNumber(first, second, total)
  {
    forall first, second | OneRange(value, first, second)
      ensures PREFIX <= value && ',' !in value[|PREFIX|..] && '-' in value[|PREFIX|..]
      ensures (ParseRange(value, total) == Err(Unsatisfiable) <==> Nothing(first, second, total))
      ensures (ParseRange(value, total) == Err(Malformed) <==> BadNumber(first, second, total))
    {
      OneRangeText(value, first, second, total);
      PartsRefused(first, second, total);
    }
    if PREFIX <= value && ',' !in value[|PREFIX|..] {
      DashIsFound(value[|PREFIX|..]);
      if '-' in value[|PREFIX|..] {
        var first, second := SplitAtDash(value, total);
        PartsRefused(first, second, total);
      }
    }
  }

  // ----- Reading and streaming -----

  datatype Chunk = Chunk(offset: nat, bytes: Bytes, total: nat)

  datatype ReadError = NotFound | RangeOutOfBounds | Unavailable

  /** `read_range`, when no file operation fails: the requested bytes as far as the asset goes. */
  function ReadRange(d: Disk, id: AssetId, offset: nat, length: nat): Result<Chunk, ReadError> {
    if !IsPublished(d, id) then Err(NotFound)
    else
      var total, key := d.rows[id].desc.length, BlobKey(id);
      if offset > total then Err(RangeOutOfBounds)
      else if key !in d.blobs then Err(Unavailable)
      else if offset == total then Ok(Chunk(offset, [], total))
      else if offset + length > U64_MAX then Err(Unavailable)
      else
        var end := if offset + length < total then offset + length else total;
        if end > |d.blobs[key]| then Err(Unavailable) else Ok(Chunk(offset, d.blobs[key][offset..end], total))
  }

  /** The asset is published with this content. */
  ghost predicate Serves(d: Disk, id: AssetId, content: Bytes) {
    && IsPublished(d, id) && d.rows[id].desc.length == |content|
    && BlobKey(id) in d.blobs && d.blobs[BlobKey(id)] == content
  }

  lemma PublishedIsServed(sha: Hasher, d: Disk, d': Disk, id: AssetId)
    requires Safe(sha, d) && RowsNamed(d) && AssetProtocol.Keeps(d, d') && IsPublished(d, id)
    ensures BlobKey(id) in d.blobs && Verifies(sha, d.blobs[BlobKey(id)], d.rows[id].desc)
    ensures Serves(d', id, d.blobs[BlobKey(id)])
  {
    assert BlobGood(sha, d, d.rows[id].desc);
  }

  /**
   Serving is what the ingest protocol keeps: in every quiet run, from the step that
   publishes an asset on, every disk serves one content, of the descriptor's length and hash.
   */
  lemma PublishedAssetStaysServed(sha: Hasher, actions: seq<AssetProtocol.Action>, n: nat, i: nat, id: AssetId)
    requires AssetProtocol.QuietRun(sha, AssetProtocol.EMPTY, actions) && n <= i <= |actions|
    requires IsPublished(AssetProtocol.Run(sha, AssetProtocol.EMPTY, actions[..n]).disk, id)
    ensures var d := AssetProtocol.Run(sha, AssetProtocol.EMPTY, actions[..n]).disk;
            && BlobKey(id) in d.blobs && Verifies(sha, d.blobs[BlobKey(id)], d.rows[id].desc)
            && Serves(AssetProtocol.Run(sha, AssetProtocol.EMPTY, actions[..i]).disk, id, d.blobs[BlobKey(id)])
  {
    AssetReopen.QuietPrefix(sha, AssetProtocol.EMPTY, actions, i);
    assert actions[..i][..n] == actions[..n];
    AssetReopen.EarlyAndLate(sha, actions[..i], n);
    PublishedIsServed(sha, AssetProtocol.Run(sha, AssetProtocol.EMPTY, actions[..n]).disk,
                      AssetProtocol.Run(sha, AssetProtocol.EMPTY, actions[..i]).disk, id);
  }

  /** Within the asset, exactly the requested bytes are read. */
  lemma ServedRead(d: Disk, id: AssetId, content: Bytes, offset: nat, length: nat)
    requires Serves(d, id, content) && 0 < length && offset + length <= |content| <= U64_MAX
    ensures ReadRange(d, id, offset, length) == Ok(Chunk(offset, content[offset..offset + length], |content|))
  {
  }

  /** Every read: as far as the asset goes, nothing at its end, an error past it or for an asset that is not published. */
  lemma ReadOutcome(d: Disk, id: AssetId, content: Bytes, offset: nat, length: nat)
    ensures !IsPublished(d, id) ==> ReadRange(d, id, offset, length) == Err(NotFound)
    ensures Serves(d, id, content) && offset > |content| ==> ReadRange(d, id, offset, length) == Err(RangeOutOfBounds)
    ensures Serves(d, id, content) && offset <= |content| && offset + length <= U64_MAX ==>
              var end := if offset + length < |content| then offset + length else |content|;
              ReadRange(d, id, offset, length) == Ok(Chunk(offset, content[offset..end], |content|))
  {
    if Serves(d, id, content) && offset == |content| {
      assert content[offset..offset] == [];
    }
  }

  ghost predicate ServedThroughout(disks: nat -> Disk, id: AssetId, content: Bytes) {
    |content| <= U64_MAX && forall i :: Serves(disks(i), id, content)
  }

  /** What happens around one turn of the streaming loop. */
  datatype Turn = Fine | Cancelled | ReadFault | WriteFault(sent: nat)

  datatype StreamEnd = Finished | Stopped | BackendError | RequestError

  /** One read of a streamed slice gives its next `length` bytes. */
  lemma ServedTurn(disks: nat -> Disk, i: nat, id: AssetId, content: Bytes, start: nat, offset: nat, length: nat, end: nat)
    requires ServedThroughout(disks, id, content) && start <= offset && offset + length <= end <= |content| && length > 0
    ensures ReadRange(disks(i), id, offset, length) == Ok(Chunk(offset, content[offset..offset + length], |content|))
    ensures content[start..offset] + content[offset..offset + length] == content[start..offset + length]
  {
    ServedRead(disks(i), id, content, offset, length);
  }

  lemma PartIsPrefix(content: Bytes, start: nat, offset: nat, length: nat, end: nat, k: nat)
    requires start <= offset && k <= length && offset + length <= end <= |content|
    ensures content[start..offset] + content[offset..offset + length][..k] <= content[start..end]
  {
  }

  /**
   `stream_asset`. The disk may change between turns. As long as it serves `content`, what
   is written is a prefix of the requested slice, all of it exactly if the loop finished;
   and it finishes if every turn is fine.
   */
  method StreamAsset(
    disks: nat -> Disk, id: AssetId, start: nat, length: nat, chunkSize: nat, turns: nat -> Turn, ghost content: Bytes)
    returns (body: Bytes, end: StreamEnd)
    ensures ServedThroughout(disks, id, content) && start + length <= |content| ==>
              && body <= content[start..start + length]
              && (end.Finished? <==> body == content[start..start + length] && !end.RequestError?)
              && (chunkSize > 0 && (forall i :: turns(i) == Fine) ==> end.Finished?)
    ensures |body| <= length
    ensures end.Stopped? ==> exists i :: turns(i) == Cancelled
    ensures end.RequestError? ==> exists i :: turns(i).WriteFault?
    ensures ServedThroughout(disks, id, content) && start + length <= |content| && end.BackendError? ==>
              chunkSize == 0 || exists i :: turns(i) == ReadFault
  {
    ghost var served := ServedThroughout(disks, id, content) && start + length <= |content|;
    var offset, remaining, i := start, length, 0;
    body := [];
    while remaining > 0
      invariant remaining >= 0 && offset + remaining == start + length && |body| + remaining == length
      invariant served ==> body == content[start..offset]
    {
      if turns(i) == Cancelled {
        return body, Stopped;
      }
      var requested := if remaining < chunkSize then remaining else chunkSize;
      if requested == 0 || offset + requested > U64_MAX || turns(i) == ReadFault {
        return body, BackendError;
      }
      if served {
        ServedTurn(disks, i, id, content, start, offset, requested, start + length);
      }
      var read := ReadRange(disks(i), id, offset, requested);
      if read.Err? || read.value.offset != offset || read.value.bytes == [] || |read.value.bytes| > requested {
        return body, BackendError;
      }
      var chunk := read.value.bytes;
      if turns(i).WriteFault? {
        var sent := if turns(i).sent < |chunk| then turns(i).sent else |chunk|;
        if served {
          PartIsPrefix(content, start, offset, requested, start + length, sent);
        }
        return body + chunk[..sent], RequestError;
      }
      body := body + chunk;
      if offset + |chunk| > U64_MAX {
        return body, BackendError;
      }
      offset, remaining, i := offset + |chunk|, remaining - |chunk|, i + 1;
    }
    end := Finished;
  }

  // ----- A whole GET -----

  datatype Response = Response(status: nat, contentRange: Option<string>, contentLength: nat)

  function ContentRange(r: ResolvedRange, total: nat): string {
    Positions(Decimal(r.start), Decimal(r.end), Decimal(total))
  }

  lemma SplitAtMark(a: string, x: string, b: string, y: string, mark: char)
    requires a + [mark] + x == b + [mark] + y && mark !in a && mark !in b
    ensures a == b && x == y
  {
    var s := a + [mark] + x;
    assert s[|a|] == mark && s[|b|] == mark;
    assert forall i :: 0 <= i < |a| ==> s[i] == a[i];
    assert forall i :: 0 <= i < |b| ==> s[i] == b[i];
    assert a == s[..|a|] && b == s[..|b|];
    assert x == s[|a| + 1..] && y == s[|b| + 1..];
  }

  lemma DecimalCharacters(n: nat)
    ensures '-' !in Decimal(n) && '/' !in Decimal(n)
  {
    DecimalRoundTrip(n);
  }

  lemma DecimalUnique(n: nat, m: nat)
    requires Decimal(n) == Decimal(m)
    ensures n == m
  {
    DecimalRoundTrip(n);
    DecimalRoundTrip(m);
  }

  function Positions(a: string, b: string, c: string): string {
    "bytes " + (a + ['-'] + (b + ['/'] + c))
  }

  lemma PositionsUnique(a: string, b: string, c: string, a': string, b': string, c': string)
    requires Positions(a, b, c) == Positions(a', b', c')
    requires '-' !in a && '-' !in a' && '/' !in b && '/' !in b'
    ensures a == a' && b == b' && c == c'
  {
    assert Positions(a, b, c)[6..] == a + ['-'] + (b + ['/'] + c);
    assert Positions(a', b', c')[6..] == a' + ['-'] + (b' + ['/'] + c');
    SplitAtMark(a, b + ['/'] + c, a', b' + ['/'] + c', '-');
    SplitAtMark(b, c, b', c', '/');
  }

  /** A Content-Range value names one range of one length. */
  lemma ContentRangeNamesOneSlice(r: ResolvedRange, total: nat, r': ResolvedRange, total': nat)
    requires ContentRange(r, total) == ContentRange(r', total')
    ensures r == r' && total == total'
  {
    DecimalCharacters(r.start);
    DecimalCharacters(r.end);
    DecimalCharacters(r'.start);
    DecimalCharacters(r'.end);
    PositionsUnique(Decimal(r.start), Decimal(r.end), Decimal(total), Decimal(r'.start), Decimal(r'.end), Decimal(total'));
    DecimalUnique(r.start, r'.start);
    DecimalUnique(r.end, r'.end);
    DecimalUnique(total, total');
  }

  /** `handle_connection` from the resolved descriptor on; `permit` is the download semaphore. */
  method Get(
    disks: nat -> Disk, id: AssetId, total: nat, header: Option<string>, permit: bool,
    chunkSize: nat, turns: nat -> Turn, ghost content: Bytes)
    returns (response: Response, body: Bytes, end: StreamEnd)
    ensures response.status == 400 <==> header.Some? && ParseRange(header.value, total) == Err(Malformed)
    ensures response.status == 416 <==>
              header.Some? && ParseRange(header.value, total) in {Err(Unsatisfiable), Err(Multiple)}
    ensures response.status == 503 <==>
              !permit && total > 0 && (header.Some? ==> ParseRange(header.value, total).Ok?)
    ensures response.status in {200, 206, 400, 416, 503}
    ensures response.status !in {200, 206} ==> body == []
    ensures response.status == 416 ==> response.contentRange == Some("bytes */" + Decimal(total))
    ensures ServedThroughout(disks, id, content) && total == |content| && response.status in {200, 206} ==>
              exists r :: Asked(header, content, response, r) && body <= Slice(content, r) &&
                          |Slice(content, r)| == response.contentLength &&
                          (end.Finished? ==> body == Slice(content, r)) &&
                          (chunkSize > 0 && (forall i :: turns(i) == Fine) ==> end.Finished?)
  {
    body, end := [], Finished;
    var start, length, status, contentRange := 0, total, 200, None;
    if header.Some? {
      var parsed := ParseRange(header.value, total);
      if parsed == Err(Malformed) {
        return Response(400, None, 0), [], Finished;
      }
      if parsed.Err? {
        return Response(416, Some("bytes */" + Decimal(total)), 0), [], Finished;
      }
      ParseRangeIsDenotation(header.value, total, parsed.value);
      start, length := parsed.value.start, parsed.value.end - parsed.value.start + 1;
      status, contentRange := 206, Some(ContentRange(parsed.value, total));
    }
    if length > 0 {
      if !permit {
        return Response(503, None, 0), [], Finished;
      }
      body, end := StreamAsset(disks, id, start, length, chunkSize, turns, content);
    }
    response := Response(status, contentRange, length);
    ghost var r := if header.None? then None else Some(ResolvedRange(start, start + length - 1));
    if total == |content| {
      assert Asked(header, content, response, r);
      assert Slice(content, r) == content[start..start + length];
    }
  }

  /** The response's status line and headers are those for the range asked for. */
  ghost predicate Asked(header: Option<string>, content: Bytes, response: Response, r: Option<ResolvedRange>) {
    if header.None? then r.None? && response.status == 200 && response.contentRange.None?
    else
      && r.Some? && r.value.start <= r.value.end < |content| && response.status == 206
      && ParseRange(header.value, |content|) == Ok(r.value)
      && response.contentRange == Some(ContentRange(r.value, |content|))
  }

  ghost function Slice(content: Bytes, r: Option<ResolvedRange>): Bytes
    requires r.Some? ==> r.value.start <= r.value.end < |content|
  {
    if r.None? then content else content[r.value.start..r.value.end + 1]
  }
}

/**
 Following continuation cursors while other clients append. `logs[i]` is the log as it
 stands when page `i` is queried; successive logs extend one another.
 */
module Paging {
  import opened Foundation
  import opened EventStore

  ghost predicate Growing(logs: seq<Log>) {
    forall i, j :: 0 <= i <= j < |logs| ==> logs[i] <= logs[j]
  }

  lemma GrowingTail(logs: seq<Log>)
    requires Growing(logs) && logs != []
    ensures Growing(logs[1..])
    ensures forall i :: 0 <= i < |logs[1..]| ==> logs[1..][i] == logs[i + 1] && logs[0] <= logs[i + 1]
  {
  }

  datatype Outcome = Complete | Exhausted | Failed(error: StorageError)

  datatype Replay = Replay(events: seq<StoredEvent>, pages: nat, outcome: Outcome)

  /** A reader that asks for the next page until a page carries no cursor. */
  ghost function Follow(id: Identity, logs: seq<Log>, q: EventQuery): Replay {
    if logs == [] then Replay([], 0, Exhausted) else
      match QueryLog(id, logs[0], q)
      case Err(e) => Replay([], 1, Failed(e))
      case Ok(page) =>
        if page.next.None? then Replay(page.events, 1, Complete)
        else
          var rest := Follow(id, logs[1..], q.(after := page.next));
          Replay(page.events + rest.events, rest.pages + 1, rest.outcome)
  }

  /** Asking for one page when the rest of the window fits into it. */
  lemma FollowLast(id: Identity, logs: seq<Log>, q: EventQuery, lo: nat, hi: nat)
    requires logs != [] && Window(id, |logs[0]|, q) == Ok((lo, hi))
    requires |Hits(logs[0], q, lo, hi)| <= q.limit
    ensures Follow(id, logs, q) == Replay(Stored(id, logs[0], Hits(logs[0], q, lo, hi)), 1, Complete)
  {
    assert QueryLog(id, logs[0], q) == Ok(PageOf(id, logs[0], q, lo, hi));
  }

  /** Asking for one page when more remains, and going on from its cursor. */
  lemma FollowMore(id: Identity, logs: seq<Log>, q: EventQuery, lo: nat, hi: nat)
    requires logs != [] && Window(id, |logs[0]|, q) == Ok((lo, hi))
    requires |Hits(logs[0], q, lo, hi)| > q.limit
    ensures var hits := Hits(logs[0], q, lo, hi);
            var rest := Follow(id, logs[1..], q.(after := Some(Token(id, hits[q.limit - 1] + 1))));
            Follow(id, logs, q) ==
            Replay(Stored(id, logs[0], hits[..q.limit]) + rest.events, rest.pages + 1, rest.outcome)
  {
    assert QueryLog(id, logs[0], q) == Ok(PageOf(id, logs[0], q, lo, hi));
  }

  /** Queries that differ only in cursors, bounds and limit select the same positions. */
  ghost predicate SameFilter(p: EventQuery, q: EventQuery) {
    p.session == q.session && p.actor == q.actor && p.kinds == q.kinds && p.residual == q.residual
  }

  /** Appends do not change what lies in a fixed window. */
  lemma HitsStable(log: Log, log': Log, p: EventQuery, q: EventQuery, lo: int, hi: int)
    requires log <= log' && hi <= |log| && SameFilter(p, q)
    ensures Hits(log, p, lo, hi) == Hits(log', q, lo, hi)
  {
    assert forall i :: lo <= i < hi ==> (Keeps(p, log, i) <==> Keeps(q, log', i));
    assert MatchSet(log, p, lo, hi) == MatchSet(log', q, lo, hi);
  }

  lemma HitsSplit(log: Log, q: EventQuery, lo: int, mid: int, hi: int)
    requires lo <= mid <= hi
    ensures Hits(log, q, lo, hi) == Hits(log, q, lo, mid) + Hits(log, q, mid, hi)
  {
    var keys := MatchSet(log, q, lo, hi);
    AscendingSplit(keys, mid);
    assert Below(keys, mid) == MatchSet(log, q, lo, mid);
    assert From(keys, mid) == MatchSet(log, q, mid, hi);
  }

  /** Cutting after the k-th hit: the front is what precedes the cut, the rest what follows. */
  lemma HitsCut(log: Log, q: EventQuery, lo: nat, hi: nat, k: nat)
    requires 0 < k <= |Hits(log, q, lo, hi)|
    ensures var hits := Hits(log, q, lo, hi);
            var cut := hits[k - 1] + 1;
            && lo < cut <= hi
            && Hits(log, q, lo, cut) == hits[..k]
            && Hits(log, q, cut, hi) == hits[k..]
  {
    var hits := Hits(log, q, lo, hi);
    var cut := hits[k - 1] + 1;
    HitsSplit(log, q, lo, cut, hi);
    var front, back := Hits(log, q, lo, cut), Hits(log, q, cut, hi);
    assert hits == front + back;
    assert forall j :: 0 <= j < |front| ==> hits[j] == front[j] && front[j] < cut;
    assert forall j :: |front| <= j < |hits| ==> hits[j] == back[j - |front|] && back[j - |front|] >= cut;
    assert k < |hits| ==> hits[k - 1] < hits[k];
    assert |front| == k;
  }

  /** A full page ends at a cut inside its window, and the next query starts there. */
  lemma FollowToCut(id: Identity, logs: seq<Log>, q: EventQuery, lo: nat, hi: nat) returns (cut: nat, q': EventQuery)
    requires logs != [] && Window(id, |logs[0]|, q) == Ok((lo, hi))
    requires |Hits(logs[0], q, lo, hi)| > q.limit
    ensures lo < cut <= hi && q' == q.(after := Some(Token(id, cut)))
    ensures Hits(logs[0], q, lo, cut) == Hits(logs[0], q, lo, hi)[..q.limit]
    ensures Hits(logs[0], q, cut, hi) == Hits(logs[0], q, lo, hi)[q.limit..]
    ensures var rest := Follow(id, logs[1..], q');
            Follow(id, logs, q) ==
            Replay(Stored(id, logs[0], Hits(logs[0], q, lo, cut)) + rest.events, rest.pages + 1, rest.outcome)
  {
    HitsCut(logs[0], q, lo, hi, q.limit);
    FollowMore(id, logs, q, lo, hi);
    cut := Hits(logs[0], q, lo, hi)[q.limit - 1] + 1;
    q' := q.(after := Some(Token(id, cut)));
  }

  lemma StoredConcat(id: Identity, log: Log, a: seq<int>, b: seq<int>)
    requires Within(a, log) && Within(b, log)
    ensures Within(a + b, log) && Stored(id, log, a + b) == Stored(id, log, a) + Stored(id, log, b)
  {
  }

  /** Positions inside the shorter log denote the same stored events in the longer one. */
  lemma StoredStable(id: Identity, log: Log, log': Log, idx: seq<int>)
    requires log <= log' && Within(idx, log)
    ensures Within(idx, log') && Stored(id, log, idx) == Stored(id, log', idx)
  {
  }

  /**
   Every next cursor is past the position its page started at, inside the page's bound,
   and accepted by the same store however the log has grown since.
   */
  lemma NextCursorAccepted(id: Identity, log: Log, log': Log, q: EventQuery)
    requires log <= log' && |log'| <= I64_MAX
    requires QueryLog(id, log, q).Ok? && QueryLog(id, log, q).value.next.Some?
    ensures var (lo, hi) := Window(id, |log|, q).value;
            var next := QueryLog(id, log, q).value.next.value;
            var q' := q.(after := Some(next));
            && next.owner == id && lo < next.position <= hi
            && Window(id, |log'|, q') == Ok((next.position, if q.before.Some? then hi else |log'|))
            && QueryLog(id, log', q').Ok?
  {
    var (lo, hi) := Window(id, |log|, q).value;
    assert QueryLog(id, log, q) == Ok(PageOf(id, log, q, lo, hi));
    var hits := Hits(log, q, lo, hi);
    assert lo <= hits[q.limit - 1] < hi;
  }

  function PagesFor(n: nat, limit: nat): (p: nat)
    requires limit > 0
    ensures p >= 1
  {
    if n <= limit then 1 else 1 + PagesFor(n - limit, limit)
  }

  /** `PagesFor` is the larger of 1 and n / limit rounded up. */
  lemma {:induction false} PagesForIsCeiling(n: nat, limit: nat)
    requires limit > 0
    ensures var p := PagesFor(n, limit); n <= p * limit && (n > 0 ==> (p - 1) * limit < n) && (n == 0 ==> p == 1)
  {
    if n > limit {
      PagesForIsCeiling(n - limit, limit);
      var p := PagesFor(n - limit, limit);
      assert (p + 1) * limit == p * limit + limit;
      assert p * limit == (p - 1) * limit + limit;
    }
  }

  function Min(a: nat, b: nat): nat { if a < b then a else b }

  /** A query under a checkpoint, about to be asked from position `lo`. */
  ghost predicate Bounded(id: Identity, q: EventQuery, lo: nat, hi: nat) {
    && q.limit > 0 && lo <= hi <= I64_MAX
    && q.before == Some(Token(id, hi))
    && q.after == if lo == 0 then None else Some(Token(id, lo))
  }

  /** The front of `hits` that `asked` pages of `limit` hold, and whether it is all. */
  ghost function Front(id: Identity, log: Log, hits: seq<int>, limit: nat, asked: nat): Replay
    requires limit > 0 && Within(hits, log)
  {
    if asked >= PagesFor(|hits|, limit) then Replay(Stored(id, log, hits), PagesFor(|hits|, limit), Complete)
    else Replay(Stored(id, log, hits[..Min(|hits|, asked * limit)]), asked, Exhausted)
  }

  /** What a reader has after at most `asked` pages of the hits from `lo` on. */
  ghost function Expected(id: Identity, log: Log, q: EventQuery, lo: nat, hi: nat, asked: nat): Replay
    requires q.limit > 0 && hi <= |log|
  {
    Front(id, log, Hits(log, q, lo, hi), q.limit, asked)
  }

  /**
   Paging refines filtering. Under one checkpoint the pages concatenate to exactly the
   matching events of the prefix it fixed, in order, once each; the reader is done after
   max(1, ceil(n / limit)) pages, and before that it holds the first `asked * limit` hits.
   */
  lemma {:induction false} PagingRefinesFiltering(id: Identity, base: Log, logs: seq<Log>, q: EventQuery, lo: nat, hi: nat)
    requires Growing(logs) && (forall i :: 0 <= i < |logs| ==> base <= logs[i])
    requires hi <= |base| && Bounded(id, q, lo, hi)
    ensures Follow(id, logs, q) == Expected(id, base, q, lo, hi, |logs|)
    decreases |logs|
  {
    var hits := Hits(base, q, lo, hi);
    if logs == [] {
      assert hits[..0] == [];
    } else {
      var log := logs[0];
      HitsStable(base, log, q, q, lo, hi);
      if |hits| <= q.limit {
        StoredStable(id, base, log, hits);
        FollowLast(id, logs, q, lo, hi);
      } else {
        var cut, q' := FollowToCut(id, logs, q, lo, hi);
        HitsStable(base, log, q', q, cut, hi);
        StoredStable(id, base, log, hits[..q.limit]);
        ExpectedStep(id, base, q, q', lo, cut, hi, |logs|);
        GrowingTail(logs);
        PagingRefinesFiltering(id, base, logs[1..], q', cut, hi);
      }
    }
  }

  lemma MinStep(n: nat, asked: nat, limit: nat)
    requires n > limit > 0 && asked > 0
    ensures Min(n, asked * limit) == limit + Min(n - limit, (asked - 1) * limit)
  {
    assert asked * limit == (asked - 1) * limit + limit;
    assert (asked - 1) * limit >= 0;
  }

  lemma FrontStep(id: Identity, log: Log, hits: seq<int>, limit: nat, asked: nat)
    requires limit > 0 && Within(hits, log) && |hits| > limit && asked > 0
    ensures var rest := Front(id, log, hits[limit..], limit, asked - 1);
            Front(id, log, hits, limit, asked) ==
            Replay(Stored(id, log, hits[..limit]) + rest.events, rest.pages + 1, rest.outcome)
  {
    var tail := hits[limit..];
    assert PagesFor(|hits|, limit) == 1 + PagesFor(|tail|, limit);
    if asked >= PagesFor(|hits|, limit) {
      StoredConcat(id, log, hits[..limit], tail);
      assert hits == hits[..limit] + tail;
    } else {
      MinStep(|hits|, asked, limit);
      var n := Min(|tail|, (asked - 1) * limit);
      StoredConcat(id, log, hits[..limit], tail[..n]);
      assert hits[..limit] + tail[..n] == hits[..limit + n];
    }
  }

  /** One page and what is expected of the rest make up what is expected of the whole. */
  lemma ExpectedStep(id: Identity, log: Log, q: EventQuery, q': EventQuery, lo: nat, cut: nat, hi: nat, asked: nat)
    requires q.limit > 0 && q'.limit == q.limit && hi <= |log| && asked > 0
    requires |Hits(log, q, lo, hi)| > q.limit && Hits(log, q', cut, hi) == Hits(log, q, lo, hi)[q.limit..]
    ensures var hits := Hits(log, q, lo, hi);
            var rest := Expected(id, log, q', cut, hi, asked - 1);
            Expected(id, log, q, lo, hi, asked) ==
            Replay(Stored(id, log, hits[..q.limit]) + rest.events, rest.pages + 1, rest.outcome)
  {
    FrontStep(id, log, Hits(log, q, lo, hi), q.limit, asked);
  }

  /** A query without a checkpoint, about to be asked from position `lo`. */
  ghost predicate Unbounded(id: Identity, q: EventQuery, lo: nat) {
    q.limit > 0 && q.before == None && q.after == if lo == 0 then None else Some(Token(id, lo))
  }

  /** What a reader without a checkpoint may claim about the pages it has seen. */
  ghost predicate AsOfLastQuery(id: Identity, logs: seq<Log>, q: EventQuery, lo: nat, r: Replay) {
    && r.pages <= |logs|
    && (r.outcome == Complete ==>
          && r.pages > 0
          && r.events == Stored(id, logs[r.pages - 1], Hits(logs[r.pages - 1], q, lo, |logs[r.pages - 1]|)))
    && (r.outcome != Complete ==> r.outcome == Exhausted && r.pages == |logs|)
  }

  lemma AsOfLastQueryStep(id: Identity, logs: seq<Log>, q: EventQuery, q': EventQuery, lo: nat, cut: nat, rest: Replay)
    requires logs != [] && lo <= cut <= |logs[0]| && SameFilter(q', q)
    requires forall i :: 0 <= i < |logs[1..]| ==> logs[1..][i] == logs[i + 1] && logs[0] <= logs[i + 1]
    requires AsOfLastQuery(id, logs[1..], q', cut, rest)
    ensures AsOfLastQuery(id, logs, q, lo,
                          Replay(Stored(id, logs[0], Hits(logs[0], q, lo, cut)) + rest.events, rest.pages + 1, rest.outcome))
  {
    if rest.outcome == Complete {
      assert logs[1..][rest.pages - 1] == logs[rest.pages];
      Splice(id, logs[0], logs[rest.pages], q, q', lo, cut);
    }
  }

  /**
   Without a checkpoint each page sees the log of its own moment. A reader that completes
   still holds exactly the matching events of the log as it stood at its last query.
   */
  lemma {:induction false} UnboundedReplay(id: Identity, logs: seq<Log>, q: EventQuery, lo: nat)
    requires Growing(logs) && Unbounded(id, q, lo)
    requires forall i :: 0 <= i < |logs| ==> lo <= |logs[i]| <= I64_MAX
    ensures AsOfLastQuery(id, logs, q, lo, Follow(id, logs, q))
    decreases |logs|
  {
    if logs != [] {
      var log := logs[0];
      assert Window(id, |log|, q) == Ok((lo, |log|));
      if |Hits(log, q, lo, |log|)| <= q.limit {
        FollowLast(id, logs, q, lo, |log|);
      } else {
        var cut, q' := FollowToCut(id, logs, q, lo, |log|);
        GrowingTail(logs);
        UnboundedReplay(id, logs[1..], q', cut);
        AsOfLastQueryStep(id, logs, q, q', lo, cut, Follow(id, logs[1..], q'));
      }
    }
  }

  /** The hits before a cut, read from an old log, and those after it, read from a later one. */
  lemma Splice(id: Identity, log: Log, last: Log, q: EventQuery, q': EventQuery, lo: nat, cut: nat)
    requires log <= last && lo <= cut <= |log| && SameFilter(q', q)
    ensures Stored(id, last, Hits(last, q, lo, |last|)) ==
            Stored(id, log, Hits(log, q, lo, cut)) + Stored(id, last, Hits(last, q', cut, |last|))
  {
    HitsStable(log, last, q, q, lo, cut);
    HitsStable(last, last, q', q, cut, |last|);
    HitsSplit(last, q, lo, cut, |last|);
    StoredStable(id, log, last, Hits(log, q, lo, cut));
    StoredConcat(id, last, Hits(log, q, lo, cut), Hits(last, q, cut, |last|));
  }
}

/**
 `EventStoreCanvasStateReader::load_stroke`: a paged fold over a session's Canvas events
 without a checkpoint. Decoding a payload and applying a step belong to an external crate
 and are arbitrary functions here.
 */
module CanvasReplay {
  import opened Foundation
  import opened EventStore
  import opened Paging

  type CanvasId = nat
  type StrokeId = nat

  /** The Canvas and Stroke a decoded Canvas event is about. */
  datatype Target = Target(canvas: CanvasId, stroke: StrokeId)

  datatype Projector<!P> = Projector(decode: Event -> Option<Target>, apply: (Option<P>, Event) -> Option<P>)

  datatype Projection<+P> = Rebuilt(state: Option<P>) | Corrupted

  const CANVAS_KINDS: seq<EventType> :=
    [StrokeBegan, StrokePointsAppended, StrokeCompleted, StrokeCancelled, StrokeRemoved]

  // ----- load_stroke -----

  /** One event of the session, folded into the projection of one stroke. */
  function Advance<P>(p: Projector<P>, target: Target, acc: Projection<P>, e: Event): Projection<P> {
    if acc.Corrupted? || e.kind !in CANVAS_KINDS then acc
    else
      match p.decode(e)
      case None => Corrupted
      case Some(t) =>
        if t != target then acc
        else
          match p.apply(acc.state, e)
          case None => Corrupted
          case Some(state) => Rebuilt(Some(state))
  }

  function FoldFrom<P>(p: Projector<P>, target: Target, acc: Projection<P>, es: seq<Event>): Projection<P> {
    if es == [] then acc else Advance(p, target, FoldFrom(p, target, acc, es[..|es| - 1]), es[|es| - 1])
  }

  lemma {:induction false} FoldConcat<P>(p: Projector<P>, target: Target, acc: Projection<P>, a: seq<Event>, b: seq<Event>)
    ensures FoldFrom(p, target, acc, a + b) == FoldFrom(p, target, FoldFrom(p, target, acc, a), b)
  {
    if b == [] {
      assert a + b == a;
    } else {
      FoldConcat(p, target, acc, a, b[..|b| - 1]);
      assert (a + b)[..|a + b| - 1] == a + b[..|b| - 1];
    }
  }

  lemma {:induction false} CorruptionSticks<P>(p: Projector<P>, target: Target, es: seq<Event>)
    ensures FoldFrom(p, target, Corrupted, es) == Corrupted
  {
    if es != [] {
      CorruptionSticks(p, target, es[..|es| - 1]);
    }
  }

  /** Event `i` stops the fold: it does not decode, or the projector rejects it. */
  ghost predicate Breaks<P>(p: Projector<P>, target: Target, es: seq<Event>, i: nat)
    requires i < |es|
  {
    var e, before := es[i], FoldFrom(p, target, Rebuilt(None), es[..i]);
    && e.kind in CANVAS_KINDS
    && (p.decode(e) == None || (p.decode(e) == Some(target) && before.Rebuilt? && p.apply(before.state, e) == None))
  }

  lemma {:induction false} CorruptedIffSomeEventBreaks<P>(p: Projector<P>, target: Target, es: seq<Event>)
    ensures FoldFrom(p, target, Rebuilt(None), es) == Corrupted <==> exists i :: 0 <= i < |es| && Breaks(p, target, es, i)
  {
    if es != [] {
      var n := |es| - 1;
      var head := es[..n];
      CorruptedIffSomeEventBreaks(p, target, head);
      forall i | 0 <= i < n ensures Breaks(p, target, head, i) <==> Breaks(p, target, es, i) {
        assert head[..i] == es[..i];
      }
      if FoldFrom(p, target, Rebuilt(None), head) == Corrupted {
        var i :| 0 <= i < |head| && Breaks(p, target, head, i);
        assert Breaks(p, target, es, i);
      } else {
        assert Breaks(p, target, es, n) <==> FoldFrom(p, target, Rebuilt(None), es) == Corrupted;
      }
    }
  }

  // ----- The fold, over the projector's steps alone -----

  predicate OnStroke<P>(p: Projector<P>, target: Target, e: Event) {
    e.kind in CANVAS_KINDS && p.decode(e) == Some(target)
  }

  /** The events of a sequence that are about the stroke. */
  function OfStroke<P>(p: Projector<P>, target: Target, es: seq<Event>): seq<Event> {
    if es == [] then []
    else
      var front, e := OfStroke(p, target, es[..|es| - 1]), es[|es| - 1];
      if OnStroke(p, target, e) then front + [e] else front
  }

  ghost predicate Decodable<P>(p: Projector<P>, es: seq<Event>) {
    forall i :: 0 <= i < |es| && es[i].kind in CANVAS_KINDS ==> p.decode(es[i]).Some?
  }

  /** The states of the stroke, from nothing on: each is what the projector makes of the one before and the next event. */
  ghost predicate Chain<P>(p: Projector<P>, steps: seq<Event>, xs: seq<Option<P>>) {
    && |xs| == |steps| + 1 && xs[0] == None
    && forall k :: 0 <= k < |steps| ==> Steps(p, steps[k], xs, k)
  }

  ghost predicate Steps<P>(p: Projector<P>, e: Event, xs: seq<Option<P>>, k: nat) {
    k + 1 < |xs| && xs[k + 1].Some? && p.apply(xs[k], e) == xs[k + 1]
  }

  lemma {:induction false} ChainUnique<P>(p: Projector<P>, steps: seq<Event>, xs: seq<Option<P>>, ys: seq<Option<P>>)
    requires Chain(p, steps, xs) && Chain(p, steps, ys)
    ensures xs == ys
  {
    if steps != [] {
      var n := |steps| - 1;
      var front := steps[..n];
      assert steps == front + [steps[n]];
      ChainFront(p, front, steps[n], xs);
      ChainFront(p, front, steps[n], ys);
      ChainUnique(p, front, xs[..n + 1], ys[..n + 1]);
      assert xs == xs[..n + 1] + [xs[n + 1]] && ys == ys[..n + 1] + [ys[n + 1]];
    }
  }

  /** One more step extends a chain exactly when the projector takes it. */
  lemma ChainSnoc<P(!new)>(p: Projector<P>, steps: seq<Event>, e: Event, xs: seq<Option<P>>)
    requires Chain(p, steps, xs)
    ensures var next := p.apply(xs[|steps|], e);
            && (next.Some? ==> Chain(p, steps + [e], xs + [next]))
            && (next.None? ==> forall ys :: !Chain(p, steps + [e], ys))
  {
    var next := p.apply(xs[|steps|], e);
    if next.Some? {
      var all, zs := steps + [e], xs + [next];
      forall k | 0 <= k < |all| ensures Steps(p, all[k], zs, k) {
        assert k < |steps| ==> Steps(p, steps[k], xs, k);
      }
    } else {
      forall ys ensures !Chain(p, steps + [e], ys) {
        if Chain(p, steps + [e], ys) {
          ChainFront(p, steps, e, ys);
          ChainUnique(p, steps, xs, ys[..|steps| + 1]);
        }
      }
    }
  }

  lemma ChainFront<P>(p: Projector<P>, steps: seq<Event>, e: Event, ys: seq<Option<P>>)
    requires Chain(p, steps + [e], ys)
    ensures Chain(p, steps, ys[..|steps| + 1]) && ys[..|steps| + 1][|steps|] == ys[|steps|]
    ensures ys[|steps| + 1].Some? && p.apply(ys[|steps|], e) == ys[|steps| + 1]
  {
    var all := steps + [e];
    forall k | 0 <= k < |steps| ensures Steps(p, steps[k], ys[..|steps| + 1], k) {
      assert Steps(p, all[k], ys, k);
    }
    assert Steps(p, all[|steps|], ys, |steps|);
  }

  /** A fold that is not corrupted is such a chain, and ends in its last state. */
  ghost predicate FoldsTo<P(!new)>(p: Projector<P>, target: Target, es: seq<Event>, r: Projection<P>) {
    var steps := OfStroke(p, target, es);
    && (r.Rebuilt? <==> Decodable(p, es) && exists xs :: Chain(p, steps, xs))
    && (r.Rebuilt? ==> forall xs :: Chain(p, steps, xs) ==> xs[|steps|] == r.state)
    && (r.Rebuilt? ==> (r.state == None <==> steps == []))
  }

  lemma DecodableSnoc<P>(p: Projector<P>, es: seq<Event>)
    requires es != []
    ensures var n := |es| - 1;
            Decodable(p, es) <==> Decodable(p, es[..n]) && (es[n].kind in CANVAS_KINDS ==> p.decode(es[n]).Some?)
  {
    var n := |es| - 1;
    assert forall i :: 0 <= i < n ==> es[..n][i] == es[i];
  }

  /** An event about the stroke moves the fold by one step of the chain. */
  lemma FoldsOneStep<P(!new)>(p: Projector<P>, target: Target, es: seq<Event>, before: Projection<P>)
    requires es != [] && OnStroke(p, target, es[|es| - 1]) && FoldsTo(p, target, es[..|es| - 1], before)
    ensures FoldsTo(p, target, es, Advance(p, target, before, es[|es| - 1]))
  {
    var n := |es| - 1;
    var e, front := es[n], OfStroke(p, target, es[..n]);
    DecodableSnoc(p, es);
    assert OfStroke(p, target, es) == front + [e];
    if before.Rebuilt? {
      var xs :| Chain(p, front, xs);
      ChainSnoc(p, front, e, xs);
      assert xs[|front|] == before.state;
      var next := p.apply(xs[|front|], e);
      assert Advance(p, target, before, e) == if next.None? then Corrupted else Rebuilt(next);
      if next.Some? {
        assert Chain(p, OfStroke(p, target, es), xs + [next]);
        forall ys | Chain(p, front + [e], ys) ensures ys[|front| + 1] == next {
          ChainUnique(p, front + [e], xs + [next], ys);
        }
      }
    } else if Decodable(p, es) {
      forall ys ensures !Chain(p, front + [e], ys) {
        if Chain(p, front + [e], ys) {
          ChainFront(p, front, e, ys);
        }
      }
    }
  }

  /** Any other event leaves the chain alone, or does not decode. */
  lemma FoldsPast<P(!new)>(p: Projector<P>, target: Target, es: seq<Event>, before: Projection<P>)
    requires es != [] && !OnStroke(p, target, es[|es| - 1]) && FoldsTo(p, target, es[..|es| - 1], before)
    ensures FoldsTo(p, target, es, Advance(p, target, before, es[|es| - 1]))
  {
    DecodableSnoc(p, es);
    assert OfStroke(p, target, es) == OfStroke(p, target, es[..|es| - 1]);
  }

  lemma {:induction false} FoldIsChain<P(!new)>(p: Projector<P>, target: Target, es: seq<Event>)
    ensures FoldsTo(p, target, es, FoldFrom(p, target, Rebuilt(None), es))
  {
    if es == [] {
      var xs: seq<Option<P>> := [None];
      assert Chain(p, OfStroke(p, target, es), xs);
    } else {
      var n := |es| - 1;
      FoldIsChain(p, target, es[..n]);
      DecodableSnoc(p, es);
      var before := FoldFrom(p, target, Rebuilt(None), es[..n]);
      if OnStroke(p, target, es[n]) {
        FoldsOneStep(p, target, es, before);
      } else {
        FoldsPast(p, target, es, before);
      }
    }
  }

  function SessionQuery(session: SessionId, limit: nat): EventQuery {
    EventQuery(Some(session), None, [], (e: Event) => true, limit, None, None)
  }

  /** The events of `log` before `hi` that a query selects, in append order. */
  ghost function Selection(log: Log, q: EventQuery, hi: nat): seq<Event>
    requires hi <= |log|
  {
    Pick(log, Hits(log, q, 0, hi))
  }

  ghost predicate Snapshots(tables: seq<Table>) {
    && (forall i :: 0 <= i < |tables| ==> Contiguous(tables[i]))
    && (forall i, j {:trigger Later(tables[i], tables[j])} :: 0 <= i <= j < |tables| ==> Later(tables[i], tables[j]))
  }

  ghost predicate Later(t: Table, t': Table) {
    Contiguous(t) && Contiguous(t') ==> LogOf(t) <= LogOf(t')
  }

  /** The projection after reading up to position `lo`, whichever later log it is read from. */
  ghost predicate Upto<P>(p: Projector<P>, target: Target, q: EventQuery, log: Log, lo: nat, acc: Projection<P>) {
    lo <= |log| && acc == FoldFrom(p, target, Rebuilt(None), Selection(log, q, lo))
  }

  lemma UptoLater<P>(p: Projector<P>, target: Target, q: EventQuery, log: Log, log': Log, lo: nat, acc: Projection<P>)
    requires log <= log' && Upto(p, target, q, log, lo, acc)
    ensures Upto(p, target, q, log', lo, acc)
  {
    HitsStable(log, log', q, q, 0, lo);
    assert Selection(log, q, lo) == Selection(log', q, lo);
  }

  /** Folding a window of hits moves the projection from `lo` to `hi`. */
  lemma UptoWindow<P>(p: Projector<P>, target: Target, q: EventQuery, q': EventQuery, log: Log, lo: nat, hi: nat, acc: Projection<P>)
    requires Upto(p, target, q, log, lo, acc) && lo <= hi <= |log| && SameFilter(q', q)
    ensures Upto(p, target, q, log, hi, FoldFrom(p, target, acc, Pick(log, Hits(log, q', lo, hi))))
  {
    HitsSplit(log, q, 0, lo, hi);
    HitsStable(log, log, q', q, lo, hi);
    var a, b := Selection(log, q, lo), Pick(log, Hits(log, q', lo, hi));
    assert Selection(log, q, hi) == a + b;
    FoldConcat(p, target, Rebuilt(None), a, b);
  }

  /** A corrupted projection of a front of the selection is that of the whole. */
  lemma UptoCorrupted<P>(p: Projector<P>, target: Target, q: EventQuery, log: Log, lo: nat)
    requires Upto(p, target, q, log, lo, Corrupted)
    ensures Upto(p, target, q, log, |log|, Corrupted)
  {
    UptoWindow(p, target, q, q, log, lo, |log|, Corrupted);
    CorruptionSticks(p, target, Pick(log, Hits(log, q, lo, |log|)));
  }

  ghost function EventsOf(stored: seq<StoredEvent>): seq<Event> {
    seq(|stored|, i requires 0 <= i < |stored| => stored[i].event)
  }

  /** The inner loop over one page. */
  method FoldPage<P>(p: Projector<P>, target: Target, start: Projection<P>, stored: seq<StoredEvent>) returns (acc: Projection<P>)
    ensures acc == FoldFrom(p, target, start, EventsOf(stored))
  {
    acc := start;
    ghost var es := EventsOf(stored);
    for i := 0 to |stored|
      invariant acc == FoldFrom(p, target, start, es[..i])
    {
      acc := Advance(p, target, acc, stored[i].event);
      assert es[..i + 1][..i] == es[..i];
    }
    assert es[..|stored|] == es;
  }

  /** How many pages the selection still takes from position `lo` on. */
  ghost function PagesLeft(log: Log, q: EventQuery, lo: nat): nat
    requires q.limit > 0
  {
    PagesFor(|Hits(log, q, lo, |log|)|, q.limit)
  }

  lemma {:induction false} PagesForMonotone(n: nat, m: nat, limit: nat)
    requires n <= m && limit > 0
    ensures PagesFor(n, limit) <= PagesFor(m, limit)
    decreases m
  {
    if n > limit {
      PagesForMonotone(n - limit, m - limit, limit);
    }
  }

  lemma PagesLeftShrink(log: Log, q: EventQuery, lo: nat)
    requires q.limit > 0 && lo <= |log|
    ensures PagesLeft(log, q, lo) <= PagesLeft(log, q, 0)
  {
    HitsSplit(log, q, 0, lo, |log|);
    PagesForMonotone(|Hits(log, q, lo, |log|)|, |Hits(log, q, 0, |log|)|, q.limit);
  }

  /** From query `m` on the log no longer grows, and enough queries are left for all its pages. */
  ghost predicate Settles(tables: seq<Table>, q: EventQuery, m: nat)
    requires Snapshots(tables) && q.limit > 0
  {
    && m < |tables| && (forall i :: m <= i < |tables| ==> LogOf(tables[i]) == LogOf(tables[m]))
    && m + PagesLeft(LogOf(tables[m]), q, 0) <= |tables|
  }

  /** Once settled, the pages left fit into the queries left. */
  ghost predicate InTime(tables: seq<Table>, q: EventQuery, m: nat, queries: nat, lo: nat)
    requires Snapshots(tables) && q.limit > 0
  {
    Settles(tables, q, m) && m <= queries ==>
      lo <= |LogOf(tables[m])| && PagesLeft(LogOf(tables[m]), q, lo) + (queries - m) <= PagesLeft(LogOf(tables[m]), q, 0)
  }

  /** A page with a next cursor brings the end one page nearer. */
  lemma InTimeStep(tables: seq<Table>, q: EventQuery, m: nat, queries: nat, lo: nat, hi: nat)
    requires Snapshots(tables) && q.limit > 0 && queries < |tables| && InTime(tables, q, m, queries, lo)
    requires var log := LogOf(tables[queries]);
             lo <= hi <= |log| && |Hits(log, q, lo, |log|)| > q.limit && Hits(log, q, hi, |log|) == Hits(log, q, lo, |log|)[q.limit..]
    ensures InTime(tables, q, m, queries + 1, hi)
  {
    var log := LogOf(tables[queries]);
    if Settles(tables, q, m) && m == queries + 1 {
      assert Later(tables[queries], tables[m]);
      PagesLeftShrink(LogOf(tables[m]), q, hi);
    } else if Settles(tables, q, m) && m <= queries {
      assert log == LogOf(tables[m]);
    }
  }

  datatype Load<+P> = Loaded(projection: Projection<P>) | StoreUnavailable | Unfinished

  ghost function Whole<P>(p: Projector<P>, target: Target, q: EventQuery, log: Log): Projection<P> {
    FoldFrom(p, target, Rebuilt(None), Selection(log, q, |log|))
  }

  /** What the loop of `load_stroke` knows before query `queries`, having read up to position `lo`. */
  ghost predicate Reading<P>(
    p: Projector<P>, id: Identity, target: Target, tables: seq<Table>, base: EventQuery, m: nat,
    queries: nat, lo: nat, cursor: Option<Token>, acc: Projection<P>)
    requires Snapshots(tables) && base.limit > 0
  {
    && Unbounded(id, base.(after := cursor), lo)
    && (queries < |tables| ==> Upto(p, target, base, LogOf(tables[queries]), lo, acc))
    && InTime(tables, base, m, queries, lo)
  }

  /** A page that ends the load, because it is the last or breaks the projection, ends it with the whole fold. */
  lemma LoadEnds<P>(
    p: Projector<P>, id: Identity, target: Target, base: EventQuery, q: EventQuery, log: Log, lo: nat, acc: Projection<P>)
    requires Unbounded(id, q, lo) && SameFilter(q, base) && Upto(p, target, base, log, lo, acc)
    ensures var page := PageOf(id, log, q, lo, |log|);
            var acc' := FoldFrom(p, target, acc, EventsOf(page.events));
            page.next.None? || acc'.Corrupted? ==> acc' == Whole(p, target, base, log)
  {
    var hi := PageEnd(id, log, q, lo, |log|);
    UptoWindow(p, target, base, q, log, lo, hi, acc);
    var acc' := FoldFrom(p, target, acc, EventsOf(PageOf(id, log, q, lo, |log|).events));
    if acc'.Corrupted? {
      UptoCorrupted(p, target, base, log, hi);
    }
  }

  /** Any other page leads to the next query. */
  lemma LoadContinues<P>(
    p: Projector<P>, id: Identity, target: Target, tables: seq<Table>, base: EventQuery, m: nat,
    queries: nat, lo: nat, cursor: Option<Token>, acc: Projection<P>) returns (hi: nat)
    requires Snapshots(tables) && base.limit > 0 && queries < |tables|
    requires Reading(p, id, target, tables, base, m, queries, lo, cursor, acc)
    ensures var page := PageOf(id, LogOf(tables[queries]), base.(after := cursor), lo, |LogOf(tables[queries])|);
            page.next.Some? ==>
              Reading(p, id, target, tables, base, m, queries + 1, hi, page.next, FoldFrom(p, target, acc, EventsOf(page.events)))
  {
    var log, q := LogOf(tables[queries]), base.(after := cursor);
    hi := PageEnd(id, log, q, lo, |log|);
    var page := PageOf(id, log, q, lo, |log|);
    if page.next.Some? {
      var acc' := FoldFrom(p, target, acc, EventsOf(page.events));
      UptoWindow(p, target, base, q, log, lo, hi, acc);
      SameHits(log, base, q, lo, hi);
      InTimeStep(tables, base, m, queries, lo, hi);
      if queries + 1 < |tables| {
        assert Later(tables[queries], tables[queries + 1]);
        UptoLater(p, target, base, log, LogOf(tables[queries + 1]), hi, acc');
      }
    }
  }

  lemma StartReading<P>(p: Projector<P>, id: Identity, target: Target, tables: seq<Table>, base: EventQuery, m: nat)
    requires Snapshots(tables) && Unbounded(id, base, 0)
    ensures Reading(p, id, target, tables, base, m, 0, 0, None, Rebuilt(None))
  {
    if tables != [] {
      var log := LogOf(tables[0]);
      AscendingUnique([], MatchSet(log, base, 0, 0));
      assert Selection(log, base, 0) == [];
    }
  }

  lemma AllAsked(tables: seq<Table>, q: EventQuery, m: nat, lo: nat)
    requires Snapshots(tables) && q.limit > 0 && InTime(tables, q, m, |tables|, lo)
    ensures !Settles(tables, q, m)
  {
  }

  /** The projection and the cursor after the page that starts at `lo`. */
  ghost predicate Turned<P>(
    p: Projector<P>, id: Identity, target: Target, log: Log, q: EventQuery, lo: nat, acc: Projection<P>, acc': Projection<P>, next: Option<Token>)
    requires q.limit > 0 && lo <= |log|
  {
    var page := PageOf(id, log, q, lo, |log|);
    acc' == FoldFrom(p, target, acc, EventsOf(page.events)) && next == page.next
  }

  /** One turn of `load_stroke`. */
  method ReadPage<P>(p: Projector<P>, id: Identity, target: Target, t: Table, q: EventQuery, acc: Projection<P>, ghost lo: nat)
    returns (ok: bool, acc': Projection<P>, next: Option<Token>)
    requires Contiguous(t) && Unbounded(id, q, lo) && lo <= |t|
    ensures ok <==> |t| <= I64_MAX
    ensures ok ==> Turned(p, id, target, LogOf(t), q, lo, acc, acc', next)
  {
    var answer := QueryTable(id, t, q);
    WindowFrom(id, LogOf(t), q, lo);
    if answer.Err? {
      return false, acc, None;
    }
    acc' := FoldPage(p, target, acc, answer.value.events);
    ok, next := true, answer.value.next;
  }

  /** After one turn the load is over with the whole fold, or goes on at `hi`. */
  lemma AfterTurn<P>(
    p: Projector<P>, id: Identity, target: Target, tables: seq<Table>, base: EventQuery, m: nat,
    queries: nat, lo: nat, cursor: Option<Token>, acc: Projection<P>, acc': Projection<P>, next: Option<Token>) returns (hi: nat)
    requires Snapshots(tables) && Unbounded(id, base, 0) && queries < |tables|
    requires Reading(p, id, target, tables, base, m, queries, lo, cursor, acc)
    requires Turned(p, id, target, LogOf(tables[queries]), base.(after := cursor), lo, acc, acc', next)
    ensures acc'.Corrupted? || next.None? ==> acc' == Whole(p, target, base, LogOf(tables[queries]))
    ensures next.Some? ==> Reading(p, id, target, tables, base, m, queries + 1, hi, next, acc')
  {
    LoadEnds(p, id, target, base, base.(after := cursor), LogOf(tables[queries]), lo, acc);
    hi := LoadContinues(p, id, target, tables, base, m, queries, lo, cursor, acc);
  }

  // ----- What a load returns, over the log alone -----

  /** The positions of the session's Canvas events that are about the stroke. */
  function StrokePositions<P>(p: Projector<P>, log: Log, session: SessionId, target: Target): set<int> {
    set i | 0 <= i < |log| && log[i].session == session && OnStroke(p, target, log[i])
  }

  /**
   Which projection of a stroke a log stands for. Not corrupted: every Canvas event of the
   session decodes and the projector takes, from nothing on, each of the stroke's events in
   append order; the state is then the last of that chain, and there is none exactly when
   the stroke has no event.
   */
  ghost predicate Replays<P(!new)>(p: Projector<P>, log: Log, session: SessionId, target: Target, r: Projection<P>) {
    var at := Ascending(StrokePositions(p, log, session, target));
    && Within(at, log)
    && var steps := Pick(log, at);
       && (r.Rebuilt? <==>
             && (forall i :: 0 <= i < |log| && log[i].session == session && log[i].kind in CANVAS_KINDS ==> p.decode(log[i]).Some?)
             && exists xs :: Chain(p, steps, xs))
       && (r.Rebuilt? ==> forall xs :: Chain(p, steps, xs) ==> xs[|steps|] == r.state)
       && (r.Rebuilt? ==> (r.state == None <==> steps == []))
  }

  /** The direct fold over the session's events, and what that stands for. */
  ghost predicate Answers<P(!new)>(p: Projector<P>, log: Log, session: SessionId, target: Target, limit: nat, r: Projection<P>) {
    r == Whole(p, target, SessionQuery(session, limit), log) && Replays(p, log, session, target, r)
  }

  lemma WholeAnswers<P(!new)>(p: Projector<P>, log: Log, session: SessionId, target: Target, limit: nat)
    ensures Answers(p, log, session, target, limit, Whole(p, target, SessionQuery(session, limit), log))
  {
    WholeReplays(p, log, session, target, limit);
  }

  /** The positions of a listing whose events are about the stroke. */
  ghost function OnStrokeIn<P>(p: Projector<P>, target: Target, log: Log, idx: seq<int>): (kept: seq<int>)
    requires Within(idx, log)
    ensures Within(kept, log)
  {
    if idx == [] then []
    else
      var front, k := OnStrokeIn(p, target, log, idx[..|idx| - 1]), idx[|idx| - 1];
      if OnStroke(p, target, log[k]) then front + [k] else front
  }

  lemma {:induction false} OnStrokeInMembers<P>(p: Projector<P>, target: Target, log: Log, idx: seq<int>)
    requires Within(idx, log) && Increasing(idx)
    ensures var kept := OnStrokeIn(p, target, log, idx);
            Increasing(kept) && (forall x :: x in kept <==> x in idx && OnStroke(p, target, log[x]))
  {
    if idx != [] {
      var n := |idx| - 1;
      var front := idx[..n];
      OnStrokeInMembers(p, target, log, front);
      assert idx == front + [idx[n]];
      var kept := OnStrokeIn(p, target, log, front);
      forall j | 0 <= j < |kept| ensures kept[j] < idx[n] {
        assert kept[j] in kept && kept[j] in front;
      }
    }
  }

  lemma {:induction false} OnStrokeInPicked<P>(p: Projector<P>, target: Target, log: Log, idx: seq<int>)
    requires Within(idx, log)
    ensures OfStroke(p, target, Pick(log, idx)) == Pick(log, OnStrokeIn(p, target, log, idx))
  {
    if idx != [] {
      var n := |idx| - 1;
      OnStrokeInPicked(p, target, log, idx[..n]);
      assert Pick(log, idx)[..n] == Pick(log, idx[..n]);
    }
  }

  lemma SessionHits(log: Log, session: SessionId, limit: nat, i: int)
    ensures i in Hits(log, SessionQuery(session, limit), 0, |log|) <==> 0 <= i < |log| && log[i].session == session
  {
    HitsAre(log, SessionQuery(session, limit), 0, |log|, i);
  }

  lemma SelectedStroke<P>(p: Projector<P>, log: Log, session: SessionId, target: Target, limit: nat)
    ensures var at := Ascending(StrokePositions(p, log, session, target));
            Within(at, log) && OfStroke(p, target, Selection(log, SessionQuery(session, limit), |log|)) == Pick(log, at)
  {
    var hits := Hits(log, SessionQuery(session, limit), 0, |log|);
    var kept := OnStrokeIn(p, target, log, hits);
    OnStrokeInMembers(p, target, log, hits);
    OnStrokeInPicked(p, target, log, hits);
    forall i ensures i in kept <==> i in StrokePositions(p, log, session, target) {
      SessionHits(log, session, limit, i);
    }
    AscendingUnique(kept, StrokePositions(p, log, session, target));
  }

  lemma SelectionDecodes<P>(p: Projector<P>, log: Log, session: SessionId, limit: nat)
    ensures Decodable(p, Selection(log, SessionQuery(session, limit), |log|)) <==>
            forall i :: 0 <= i < |log| && log[i].session == session && log[i].kind in CANVAS_KINDS ==> p.decode(log[i]).Some?
  {
    var hits := Hits(log, SessionQuery(session, limit), 0, |log|);
    var es := Selection(log, SessionQuery(session, limit), |log|);
    if Decodable(p, es) {
      forall i | 0 <= i < |log| && log[i].session == session && log[i].kind in CANVAS_KINDS ensures p.decode(log[i]).Some? {
        SessionHits(log, session, limit, i);
        var j :| 0 <= j < |hits| && hits[j] == i;
        assert es[j] == log[i];
      }
    }
    forall j | 0 <= j < |es| ensures 0 <= hits[j] < |log| && log[hits[j]].session == session && es[j] == log[hits[j]] {
      assert hits[j] in hits;
      SessionHits(log, session, limit, hits[j]);
    }
  }

  lemma WholeReplays<P(!new)>(p: Projector<P>, log: Log, session: SessionId, target: Target, limit: nat)
    ensures Replays(p, log, session, target, Whole(p, target, SessionQuery(session, limit), log))
  {
    FoldIsChain(p, target, Selection(log, SessionQuery(session, limit), |log|));
    SelectedStroke(p, log, session, target, limit);
    SelectionDecodes(p, log, session, limit);
  }

  /**
   `load_stroke`. `tables[i]` is the store when query `i` runs, `faults(i)` a failure of
   the backend. A load that finishes has the projection of the session's events in the log
   exactly as it stood at its last query: the rebuilt state, or Corrupted when that log
   holds an event that breaks it. It is unavailable exactly when its last query failed. It
   does finish if no query fails and from some query `m` on the log stops growing for as
   many queries as the selection has pages.
   */
  method LoadStroke<P(!new)>(
    p: Projector<P>, id: Identity, tables: seq<Table>, faults: nat -> bool, session: SessionId, target: Target, limit: nat, ghost m: nat)
    returns (r: Load<P>, queries: nat)
    requires Snapshots(tables) && limit > 0
    ensures queries <= |tables|
    ensures r.Loaded? ==> queries > 0 && Answers(p, LogOf(tables[queries - 1]), session, target, limit, r.projection)
    ensures r.StoreUnavailable? ==> queries > 0 && Fails(tables, faults, queries - 1)
    ensures !r.StoreUnavailable? ==> AllAnswered(tables, faults, queries)
    ensures r.Unfinished? ==> queries == |tables| && !Settles(tables, SessionQuery(session, limit), m)
  {
    var base := SessionQuery(session, limit);
    var cursor: Option<Token> := None;
    var acc: Projection<P> := Rebuilt(None);
    ghost var lo := 0;
    queries := 0;
    StartReading(p, id, target, tables, base, m);
    while queries < |tables|
      invariant queries <= |tables|
      invariant AllAnswered(tables, faults, queries)
      invariant Reading(p, id, target, tables, base, m, queries, lo, cursor, acc)
    {
      var q := base.(after := cursor);
      var ok, acc', next := ReadPage(p, id, target, tables[queries], q, acc, lo);
      if faults(queries) || !ok {
        return StoreUnavailable, queries + 1;
      }
      ghost var hi := AfterTurn(p, id, target, tables, base, m, queries, lo, cursor, acc, acc', next);
      OneMoreAnswered(tables, faults, queries);
      queries := queries + 1;
      if acc'.Corrupted? || next.None? {
        WholeAnswers(p, LogOf(tables[queries - 1]), session, target, limit);
        return Loaded(acc'), queries;
      }
      acc, cursor, lo := acc', next, hi;
    }
    AllAsked(tables, base, m, lo);
    r := Unfinished;
  }

  /** Query `i` fails: the backend does, or the log has outgrown the bound a query can name. */
  ghost predicate Fails(tables: seq<Table>, faults: nat -> bool, i: nat)
    requires i < |tables|
  {
    faults(i) || |tables[i]| > I64_MAX
  }

  ghost predicate AllAnswered(tables: seq<Table>, faults: nat -> bool, n: nat)
    requires n <= |tables|
  {
    forall i :: 0 <= i < n ==> !Fails(tables, faults, i)
  }

  lemma OneMoreAnswered(tables: seq<Table>, faults: nat -> bool, n: nat)
    requires n < |tables| && AllAnswered(tables, faults, n) && !Fails(tables, faults, n)
    ensures AllAnswered(tables, faults, n + 1)
  {
  }

  lemma WindowFrom(id: Identity, log: Log, q: EventQuery, lo: nat)
    requires Unbounded(id, q, lo) && lo <= |log|
    ensures Window(id, |log|, q) == if |log| > I64_MAX then Err(BackendFailure) else Ok((lo, |log|))
  {
  }

  lemma SameHits(log: Log, p: EventQuery, q: EventQuery, lo: nat, hi: nat)
    requires SameFilter(p, q)
    ensures Hits(log, p, lo, |log|) == Hits(log, q, lo, |log|) && Hits(log, p, hi, |log|) == Hits(log, q, hi, |log|)
  {
    HitsStable(log, log, p, q, lo, |log|);
    HitsStable(log, log, p, q, hi, |log|);
  }

  /** Where a page ends: at its bound when it is the last one, else at its cursor. */
  lemma PageEnd(id: Identity, log: Log, q: EventQuery, lo: nat, bound: nat) returns (hi: nat)
    requires lo <= bound <= |log| && q.limit > 0
    ensures var page := PageOf(id, log, q, lo, bound);
            && lo <= hi <= bound
            && EventsOf(page.events) == Pick(log, Hits(log, q, lo, hi))
            && (page.next.None? ==> hi == bound)
            && (page.next.Some? ==>
                  && page.next == Some(Token(id, hi)) && hi > 0
                  && |Hits(log, q, lo, bound)| > q.limit && Hits(log, q, hi, bound) == Hits(log, q, lo, bound)[q.limit..])
  {
    var hits := Hits(log, q, lo, bound);
    if |hits| <= q.limit {
      hi := bound;
    } else {
      hi := hits[q.limit - 1] + 1;
      HitsCut(log, q, lo, bound, q.limit);
    }
  }
}

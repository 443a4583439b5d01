/**
 `canvas.history.page`: one bounded page of a Canvas's history, and the replay a client
 assembles by following continuations under the checkpoint of the first page.
 */
module CanvasHistory {
  import opened Foundation
  import opened EventStore
  import opened Paging
  import opened CanvasReplay

  datatype HandlerError = NotFound | Unauthorized | Unavailable | InvalidRequest | Internal

  datatype Request =
    | FirstPage(canvas: CanvasId)
    | ContinuePage(canvas: CanvasId, checkpoint: Token, cursor: Token)

  datatype HistoryPage = HistoryPage(canvas: CanvasId, checkpoint: Token, events: seq<Event>, next: Option<Token>, complete: bool)

  type Decoder = Event -> Option<Target>

  /** `canvas_event_query`, with the handler's scan limit. */
  function CanvasEventQuery(session: SessionId, checkpoint: Token, after: Option<Token>, limit: nat): EventQuery {
    EventQuery(Some(session), None, CANVAS_KINDS, (e: Event) => true, limit, after, Some(checkpoint))
  }

  /** The events about `canvas`, or None when some event does not decode. */
  function TargetEvents(decode: Decoder, canvas: CanvasId, stored: seq<StoredEvent>): Option<seq<Event>> {
    if stored == [] then Some([]) else
      var e := stored[|stored| - 1].event;
      var front := TargetEvents(decode, canvas, stored[..|stored| - 1]);
      if front.None? || decode(e).None? then None
      else if decode(e).value.canvas == canvas then Some(front.value + [e])
      else front
  }

  function MapQueryError(e: StorageError): HandlerError {
    match e
    case InvalidQuery => InvalidRequest
    case InvalidCursor => InvalidRequest
    case InvalidCheckpoint => InvalidRequest
    case BackendUnavailable => Unavailable
    case EventConflict(_) => Internal
    case BackendFailure => Internal
  }

  /** What a store page becomes on the wire. */
  ghost function Deliver(decode: Decoder, canvas: CanvasId, checkpoint: Token, answer: Result<EventPage, StorageError>)
    : Result<HistoryPage, HandlerError>
  {
    match answer
    case Err(e) => Err(MapQueryError(e))
    case Ok(page) =>
      match TargetEvents(decode, canvas, page.events)
      case None => Err(Internal)
      case Some(events) => Ok(HistoryPage(canvas, checkpoint, events, page.next, page.next.None?))
  }

  /** ... and past `guard_response_size`: a page that does not fit is answered Internal. */
  ghost function Respond(
    decode: Decoder, canvas: CanvasId, checkpoint: Token, answer: Result<EventPage, StorageError>, fits: HistoryPage -> bool)
    : Result<HistoryPage, HandlerError>
  {
    var page := Deliver(decode, canvas, checkpoint, answer);
    if page.Ok? && !fits(page.value) then Err(Internal) else page
  }

  /** The loop of `execute` over one store page. */
  method CollectTarget(decode: Decoder, canvas: CanvasId, stored: seq<StoredEvent>) returns (r: Option<seq<Event>>)
    ensures r == TargetEvents(decode, canvas, stored)
  {
    var events: seq<Event> := [];
    for i := 0 to |stored|
      invariant TargetEvents(decode, canvas, stored[..i]) == Some(events)
    {
      var e := stored[i].event;
      assert stored[..i + 1][..i] == stored[..i];
      match decode(e) {
        case None =>
          UndecodableStops(decode, canvas, stored, i + 1);
          return None;
        case Some(target) =>
          if target.canvas == canvas {
            events := events + [e];
          }
      }
    }
    assert stored[..|stored|] == stored;
    r := Some(events);
  }

  function MapCaptureError(e: StorageError): HandlerError {
    if e.BackendUnavailable? then Unavailable else Internal
  }

  /** What the handler's collaborators do: each may fail in its own way. */
  datatype Environment = Environment(
    catalogFault: bool, session: Option<SessionId>, refusal: Option<HandlerError>,
    captureFault: Option<StorageError>, queryFault: Option<StorageError>, fits: HistoryPage -> bool)

  /** The stages of `execute` before the query, in order, and the error of the first that stops it. */
  function Admission(env: Environment, request: Request): Result<SessionId, HandlerError> {
    if env.catalogFault then Err(Unavailable)
    else if env.session.None? then Err(NotFound)
    else if env.refusal.Some? then Err(env.refusal.value)
    else if request.FirstPage? && env.captureFault.Some? then Err(MapCaptureError(env.captureFault.value))
    else Ok(env.session.value)
  }

  /** The catalog knows the Canvas and the authorizer admits the actor. */
  predicate Admits(env: Environment) {
    !env.catalogFault && env.session.Some? && env.refusal.None?
  }

  /** ... and, for a first page, a checkpoint could be captured. */
  predicate Asks(env: Environment, request: Request) {
    Admits(env) && (request.FirstPage? ==> env.captureFault.None?)
  }

  /** What each storage error of a query is answered with. */
  lemma QueryErrorsAnswered(e: StorageError)
    ensures MapQueryError(e) == InvalidRequest <==> e in {InvalidQuery, InvalidCursor, InvalidCheckpoint}
    ensures MapQueryError(e) == Unavailable <==> e == BackendUnavailable
    ensures MapQueryError(e) == Internal <==> e == BackendFailure || e.EventConflict?
  {
  }

  predicate Carries(stored: seq<StoredEvent>, e: Event) {
    exists k :: 0 <= k < |stored| && stored[k].event == e
  }

  lemma CarriesSnoc(stored: seq<StoredEvent>, e: Event)
    requires stored != []
    ensures var n := |stored| - 1; Carries(stored, e) <==> Carries(stored[..n], e) || stored[n].event == e
  {
    var n := |stored| - 1;
    if Carries(stored[..n], e) {
      var k :| 0 <= k < n && stored[..n][k].event == e;
      assert stored[k].event == e;
    }
    if Carries(stored, e) {
      var k :| 0 <= k < |stored| && stored[k].event == e;
      assert k < n ==> stored[..n][k].event == e;
    }
  }

  lemma {:induction false} TargetsAreAbout(decode: Decoder, canvas: CanvasId, stored: seq<StoredEvent>, e: Event)
    requires TargetEvents(decode, canvas, stored).Some?
    ensures e in TargetEvents(decode, canvas, stored).value <==> About(decode, canvas, e) && Carries(stored, e)
  {
    if stored != [] {
      TargetsAreAbout(decode, canvas, stored[..|stored| - 1], e);
      CarriesSnoc(stored, e);
    }
  }

  /** Everything a page carries is a stored Canvas event of the session, about the Canvas. */
  lemma PageIsAbout(decode: Decoder, canvas: CanvasId, id: Identity, log: Log, q: EventQuery, checkpoint: Token)
    requires Deliver(decode, canvas, checkpoint, QueryLog(id, log, q)).Ok? && q.session.Some? && q.kinds == CANVAS_KINDS
    ensures forall e :: e in Deliver(decode, canvas, checkpoint, QueryLog(id, log, q)).value.events ==>
                          e in log && e.session == q.session.value && e.kind in CANVAS_KINDS && About(decode, canvas, e)
  {
    var stored := QueryLog(id, log, q).value.events;
    DeliveredEvents(id, log, q);
    forall e | e in Deliver(decode, canvas, checkpoint, QueryLog(id, log, q)).value.events
      ensures e in log && e.session == q.session.value && e.kind in CANVAS_KINDS && About(decode, canvas, e)
    {
      TargetsAreAbout(decode, canvas, stored, e);
      var k :| 0 <= k < |stored| && stored[k].event == e;
      assert Delivered(id, log, q, stored[k]);
    }
  }

  /**
   `execute`. The checkpoint is captured from `atCapture` and the page read from `atQuery`,
   two commands other appends may separate.
   */
  method Execute(decode: Decoder, id: Identity, atCapture: Table, atQuery: Table, request: Request, env: Environment, limit: nat)
    returns (r: Result<HistoryPage, HandlerError>)
    requires Contiguous(atCapture) && Contiguous(atQuery)
    ensures env.catalogFault ==> r == Err(Unavailable)
    ensures !env.catalogFault && env.session.None? ==> r == Err(NotFound)
    ensures !env.catalogFault && env.session.Some? && env.refusal.Some? ==> r == Err(env.refusal.value)
    ensures Admits(env) && request.FirstPage? && env.captureFault.Some? ==>
              r == Err(if env.captureFault.value == BackendUnavailable then Unavailable else Internal)
    ensures Asks(env, request) && env.queryFault == Some(BackendUnavailable) ==> r == Err(Unavailable)
    ensures Asks(env, request) && env.queryFault.Some? && env.queryFault.value in {InvalidQuery, InvalidCursor, InvalidCheckpoint} ==>
              r == Err(InvalidRequest)
    ensures Asks(env, request) && env.queryFault == Some(BackendFailure) ==> r == Err(Internal)
    ensures Asks(env, request) && env.queryFault.None? && limit > 0 && request.ContinuePage? ==>
              (request.checkpoint.owner != id || request.cursor.owner != id ==> r == Err(InvalidRequest))
    ensures r.Ok? ==>
              && Asks(env, request) && env.queryFault.None? && r.value.canvas == request.canvas && env.fits(r.value)
              && (r.value.complete <==> r.value.next.None?)
              && forall e :: e in r.value.events ==>
                               && e in LogOf(atQuery) && e.session == env.session.value
                               && e.kind in CANVAS_KINDS && About(decode, request.canvas, e)
    ensures Admission(env, request).Err? ==> r == Err(Admission(env, request).error)
    ensures Admission(env, request).Ok? ==>
              var checkpoint := if request.FirstPage? then Token(id, |LogOf(atCapture)|) else request.checkpoint;
              var after := if request.FirstPage? then None else Some(request.cursor);
              var q := CanvasEventQuery(Admission(env, request).value, checkpoint, after, limit);
              var answer := if env.queryFault.Some? then Err(env.queryFault.value) else QueryLog(id, LogOf(atQuery), q);
              r == Respond(decode, request.canvas, checkpoint, answer, env.fits)
  {
    if env.catalogFault {
      return Err(Unavailable);
    }
    if env.session.None? {
      return Err(NotFound);
    }
    if env.refusal.Some? {
      return Err(env.refusal.value);
    }
    var checkpoint, after := Token(id, CurrentCount(atCapture).value), None;
    if request.ContinuePage? {
      checkpoint, after := request.checkpoint, Some(request.cursor);
    } else if env.captureFault.Some? {
      return Err(MapCaptureError(env.captureFault.value));
    }
    if env.queryFault.Some? {
      return Err(MapQueryError(env.queryFault.value));
    }
    var q := CanvasEventQuery(env.session.value, checkpoint, after, limit);
    var answer := QueryTable(id, atQuery, q);
    WindowMeaning(id, |LogOf(atQuery)|, q);
    if answer.Err? {
      return Err(MapQueryError(answer.error));
    }
    var events := CollectTarget(decode, request.canvas, answer.value.events);
    if events.None? {
      return Err(Internal);
    }
    var page := HistoryPage(request.canvas, checkpoint, events.value, answer.value.next, answer.value.next.None?);
    PageIsAbout(decode, request.canvas, id, LogOf(atQuery), q, checkpoint);
    if !env.fits(page) {
      return Err(Internal);
    }
    r := Ok(page);
  }

  lemma {:induction false} UndecodableStops(decode: Decoder, canvas: CanvasId, stored: seq<StoredEvent>, n: nat)
    requires n <= |stored| && TargetEvents(decode, canvas, stored[..n]) == None
    ensures TargetEvents(decode, canvas, stored) == None
    decreases |stored|
  {
    if n == |stored| {
      assert stored[..n] == stored;
    } else {
      assert stored[..|stored| - 1][..n] == stored[..n];
      UndecodableStops(decode, canvas, stored[..|stored| - 1], n);
    }
  }

  lemma {:induction false} TargetEventsConcat(decode: Decoder, canvas: CanvasId, a: seq<StoredEvent>, b: seq<StoredEvent>)
    ensures var x, y := TargetEvents(decode, canvas, a), TargetEvents(decode, canvas, b);
            TargetEvents(decode, canvas, a + b) == if x.None? || y.None? then None else Some(x.value + y.value)
  {
    if b == [] {
      assert a + b == a;
      var x := TargetEvents(decode, canvas, a);
      assert x.Some? ==> x.value + [] == x.value;
    } else {
      TargetEventsConcat(decode, canvas, a, b[..|b| - 1]);
      assert (a + b)[..|a + b| - 1] == a + b[..|b| - 1];
      assert (a + b)[|a + b| - 1] == b[|b| - 1];
      var e := b[|b| - 1].event;
      var x, y := TargetEvents(decode, canvas, a), TargetEvents(decode, canvas, b[..|b| - 1]);
      if x.Some? && y.Some? {
        assert (x.value + y.value) + [e] == x.value + (y.value + [e]);
      }
    }
  }

  // ----- Following continuations -----

  datatype HistoryReplay = Assembled(events: seq<Event>, pages: nat, complete: bool) | Broken

  /**
   A client that repeats the request with each next cursor; `logs[i]` is the log at page
   `i`, `fits` the response-size guard every page has to pass.
   */
  ghost function FollowHistory(
    decode: Decoder, canvas: CanvasId, fits: HistoryPage -> bool, id: Identity, logs: seq<Log>, q: EventQuery): HistoryReplay
    requires q.before.Some?
  {
    if logs == [] then Assembled([], 0, false) else
      match Respond(decode, canvas, q.before.value, QueryLog(id, logs[0], q), fits)
      case Err(_) => Broken
      case Ok(page) =>
        if page.complete then Assembled(page.events, 1, true)
        else
          match FollowHistory(decode, canvas, fits, id, logs[1..], q.(after := page.next))
          case Broken => Broken
          case Assembled(events, pages, complete) => Assembled(page.events + events, pages + 1, complete)
  }

  /** Filtering page by page is filtering the concatenation of the pages, unless the guard stops the replay. */
  lemma {:induction false} FilterByPage(
    decode: Decoder, canvas: CanvasId, fits: HistoryPage -> bool, id: Identity, logs: seq<Log>, q: EventQuery)
    requires q.before.Some? && !Follow(id, logs, q).outcome.Failed?
    ensures var all := Follow(id, logs, q);
            var target := TargetEvents(decode, canvas, all.events);
            var replay := FollowHistory(decode, canvas, fits, id, logs, q);
            && (target.None? ==> replay.Broken?)
            && (!replay.Broken? ==> target.Some? && replay == Assembled(target.value, all.pages, all.outcome == Complete))
    decreases |logs|
  {
    if logs != [] {
      var answer := QueryLog(id, logs[0], q);
      if answer.Ok? && answer.value.next.Some? {
        var q' := q.(after := answer.value.next);
        FilterByPage(decode, canvas, fits, id, logs[1..], q');
        TargetEventsConcat(decode, canvas, answer.value.events, Follow(id, logs[1..], q').events);
      }
    }
  }

  /** A stored Canvas event of the session: a candidate the scan limit counts. */
  predicate Candidate(log: Log, session: SessionId, i: int) {
    0 <= i < |log| && log[i].session == session && log[i].kind in CANVAS_KINDS
  }

  predicate About(decode: Decoder, canvas: CanvasId, e: Event) {
    decode(e).Some? && decode(e).value.canvas == canvas
  }

  function CandidatesBefore(log: Log, session: SessionId, b: int): set<int> {
    set i | 0 <= i < b && Candidate(log, session, i)
  }

  function TargetsBefore(log: Log, session: SessionId, decode: Decoder, canvas: CanvasId, b: int): set<int> {
    set i | 0 <= i < b && Candidate(log, session, i) && About(decode, canvas, log[i])
  }

  /** The positions of a listing that are about the canvas. */
  ghost function AboutIn(decode: Decoder, canvas: CanvasId, log: Log, idx: seq<int>): (kept: seq<int>)
    requires Within(idx, log)
    ensures Within(kept, log)
  {
    if idx == [] then [] else
      var front, k := AboutIn(decode, canvas, log, idx[..|idx| - 1]), idx[|idx| - 1];
      if About(decode, canvas, log[k]) then front + [k] else front
  }

  lemma {:induction false} AboutInMembers(decode: Decoder, canvas: CanvasId, log: Log, idx: seq<int>)
    requires Within(idx, log) && Increasing(idx)
    ensures var kept := AboutIn(decode, canvas, log, idx);
            Increasing(kept) && forall x :: x in kept <==> x in idx && About(decode, canvas, log[x])
  {
    if idx != [] {
      var n := |idx| - 1;
      var front := idx[..n];
      AboutInMembers(decode, canvas, log, front);
      assert idx == front + [idx[n]];
      var kept := AboutIn(decode, canvas, log, front);
      forall j | 0 <= j < |kept| ensures kept[j] < idx[n] {
        assert kept[j] in front;
      }
    }
  }

  /** Which events a listing yields, and when it yields none because one does not decode. */
  lemma {:induction false} TargetsOfListing(decode: Decoder, canvas: CanvasId, id: Identity, log: Log, idx: seq<int>)
    requires Within(idx, log)
    ensures var target := TargetEvents(decode, canvas, Stored(id, log, idx));
            && (target.None? <==> exists j :: 0 <= j < |idx| && decode(log[idx[j]]).None?)
            && (target.Some? ==> target.value == Pick(log, AboutIn(decode, canvas, log, idx)))
  {
    if idx != [] {
      var n := |idx| - 1;
      var front, k := idx[..n], idx[n];
      TargetsOfListing(decode, canvas, id, log, front);
      assert forall j :: 0 <= j < n ==> front[j] == idx[j];
      var all := Stored(id, log, idx);
      assert all[..n] == Stored(id, log, front) && all[n].event == log[k];
      var kept := AboutIn(decode, canvas, log, front);
      assert Pick(log, kept + [k]) == Pick(log, kept) + [log[k]];
    }
  }

  // ----- The pages of a listing, and whether they can all be served -----

  /** The positions page `k` scans. */
  function PageSlice(c: seq<int>, limit: nat, k: nat): seq<int> {
    var lo := Min(k * limit, |c|);
    c[lo..Min(lo + limit, |c|)]
  }

  /** Page `k` as it goes on the wire. */
  ghost function WirePage(
    decode: Decoder, canvas: CanvasId, id: Identity, log: Log, checkpoint: Token, c: seq<int>, limit: nat, k: nat): HistoryPage
    requires Within(c, log) && limit > 0
  {
    var lo := k * limit;
    var complete := lo + limit >= |c|;
    HistoryPage(canvas, checkpoint, Pick(log, AboutIn(decode, canvas, log, PageSlice(c, limit, k))),
                if complete then None else Some(Token(id, c[lo + limit - 1] + 1)), complete)
  }

  ghost predicate AllDecode(decode: Decoder, log: Log, c: seq<int>)
    requires Within(c, log)
  {
    forall j :: 0 <= j < |c| ==> decode(log[c[j]]).Some?
  }

  ghost predicate AllFit(
    decode: Decoder, canvas: CanvasId, fits: HistoryPage -> bool, id: Identity, log: Log, checkpoint: Token, c: seq<int>, limit: nat)
    requires Within(c, log) && limit > 0
  {
    forall k :: 0 <= k < PagesFor(|c|, limit) ==> fits(WirePage(decode, canvas, id, log, checkpoint, c, limit, k))
  }

  lemma {:induction false} AboutInConcat(decode: Decoder, canvas: CanvasId, log: Log, a: seq<int>, b: seq<int>)
    requires Within(a, log) && Within(b, log)
    ensures Within(a + b, log)
    ensures AboutIn(decode, canvas, log, a + b) == AboutIn(decode, canvas, log, a) + AboutIn(decode, canvas, log, b)
  {
    if b == [] {
      assert a + b == a;
    } else {
      var n := |b| - 1;
      AboutInConcat(decode, canvas, log, a, b[..n]);
      assert (a + b)[..|a + b| - 1] == a + b[..n];
    }
  }

  lemma SliceShift(c: seq<int>, limit: nat, k: nat)
    requires |c| > limit > 0
    ensures PageSlice(c, limit, k + 1) == PageSlice(c[limit..], limit, k)
    ensures (k + 1) * limit == k * limit + limit
  {
  }

  lemma FirstSlice(c: seq<int>, limit: nat)
    requires limit > 0
    ensures PageSlice(c, limit, 0) == c[..Min(limit, |c|)]
  {
  }

  /** The pages after the first are the pages of what the first leaves. */
  lemma WirePageShift(decode: Decoder, canvas: CanvasId, id: Identity, log: Log, checkpoint: Token, c: seq<int>, limit: nat, k: nat)
    requires Within(c, log) && |c| > limit > 0
    ensures WirePage(decode, canvas, id, log, checkpoint, c, limit, k + 1) ==
            WirePage(decode, canvas, id, log, checkpoint, c[limit..], limit, k)
  {
    SliceShift(c, limit, k);
  }

  lemma AllFitStep(
    decode: Decoder, canvas: CanvasId, fits: HistoryPage -> bool, id: Identity, log: Log, checkpoint: Token, c: seq<int>, limit: nat)
    requires Within(c, log) && |c| > limit > 0
    ensures AllFit(decode, canvas, fits, id, log, checkpoint, c, limit) <==>
            && fits(WirePage(decode, canvas, id, log, checkpoint, c, limit, 0))
            && AllFit(decode, canvas, fits, id, log, checkpoint, c[limit..], limit)
  {
    var rest := c[limit..];
    assert PagesFor(|c|, limit) == 1 + PagesFor(|rest|, limit);
    forall k: nat ensures WirePage(decode, canvas, id, log, checkpoint, c, limit, k + 1) ==
                          WirePage(decode, canvas, id, log, checkpoint, rest, limit, k)
    {
      WirePageShift(decode, canvas, id, log, checkpoint, c, limit, k);
    }
    if AllFit(decode, canvas, fits, id, log, checkpoint, c, limit) {
      forall k | 0 <= k < PagesFor(|rest|, limit) ensures fits(WirePage(decode, canvas, id, log, checkpoint, rest, limit, k)) {
        assert fits(WirePage(decode, canvas, id, log, checkpoint, c, limit, k + 1));
      }
    }
    if fits(WirePage(decode, canvas, id, log, checkpoint, c, limit, 0)) && AllFit(decode, canvas, fits, id, log, checkpoint, rest, limit) {
      forall k | 0 <= k < PagesFor(|c|, limit) ensures fits(WirePage(decode, canvas, id, log, checkpoint, c, limit, k)) {
        if k > 0 {
          assert fits(WirePage(decode, canvas, id, log, checkpoint, rest, limit, k - 1));
        }
      }
    }
  }

  /** What a client gets of a listing: all of it, or a break where something does not decode or does not fit. */
  ghost function Served(
    decode: Decoder, canvas: CanvasId, fits: HistoryPage -> bool, id: Identity, log: Log, checkpoint: Token, c: seq<int>, limit: nat)
    : HistoryReplay
    requires Within(c, log) && limit > 0
  {
    if AllDecode(decode, log, c) && AllFit(decode, canvas, fits, id, log, checkpoint, c, limit)
    then Assembled(Pick(log, AboutIn(decode, canvas, log, c)), PagesFor(|c|, limit), true)
    else Broken
  }

  lemma ServedLast(
    decode: Decoder, canvas: CanvasId, fits: HistoryPage -> bool, id: Identity, log: Log, checkpoint: Token, c: seq<int>, limit: nat)
    requires Within(c, log) && |c| <= limit && limit > 0
    ensures var first := WirePage(decode, canvas, id, log, checkpoint, c, limit, 0);
            Served(decode, canvas, fits, id, log, checkpoint, c, limit) ==
            if AllDecode(decode, log, c) && fits(first) then Assembled(first.events, 1, true) else Broken
  {
    FirstSlice(c, limit);
    assert c[..|c|] == c;
    assert PagesFor(|c|, limit) == 1;
  }

  lemma ServedMore(
    decode: Decoder, canvas: CanvasId, fits: HistoryPage -> bool, id: Identity, log: Log, checkpoint: Token, c: seq<int>, limit: nat)
    requires Within(c, log) && |c| > limit > 0
    ensures var first := WirePage(decode, canvas, id, log, checkpoint, c, limit, 0);
            var rest := Served(decode, canvas, fits, id, log, checkpoint, c[limit..], limit);
            Served(decode, canvas, fits, id, log, checkpoint, c, limit) ==
            if AllDecode(decode, log, c[..limit]) && fits(first) && rest.Assembled?
            then Assembled(first.events + rest.events, rest.pages + 1, true) else Broken
  {
    var front, rest := c[..limit], c[limit..];
    assert c == front + rest;
    FirstSlice(c, limit);
    AllFitStep(decode, canvas, fits, id, log, checkpoint, c, limit);
    AboutInConcat(decode, canvas, log, front, rest);
    AllDecodeConcat(decode, log, front, rest);
    PickConcat(log, AboutIn(decode, canvas, log, front), AboutIn(decode, canvas, log, rest));
  }

  lemma AllDecodeConcat(decode: Decoder, log: Log, a: seq<int>, b: seq<int>)
    requires Within(a, log) && Within(b, log)
    ensures Within(a + b, log) && (AllDecode(decode, log, a + b) <==> AllDecode(decode, log, a) && AllDecode(decode, log, b))
  {
    var c := a + b;
    assert forall j :: 0 <= j < |a| ==> c[j] == a[j];
    assert forall j :: 0 <= j < |b| ==> c[|a| + j] == b[j];
    assert forall j :: |a| <= j < |c| ==> c[j] == b[j - |a|];
  }

  lemma PickConcat(log: Log, a: seq<int>, b: seq<int>)
    requires Within(a, log) && Within(b, log)
    ensures Within(a + b, log) && Pick(log, a + b) == Pick(log, a) + Pick(log, b)
  {
  }

  /** The store's answer to a bounded query, in terms of the log the checkpoint was taken from. */
  lemma StoreAnswer(id: Identity, base: Log, log: Log, q: EventQuery, lo: nat, hi: nat)
    requires base <= log && hi <= |base| && Bounded(id, q, lo, hi)
    ensures var c := Hits(base, q, lo, hi);
            QueryLog(id, log, q) ==
            Ok(EventPage(Stored(id, base, c[..Min(q.limit, |c|)]), if |c| <= q.limit then None else Some(Token(id, c[q.limit - 1] + 1))))
  {
    var c := Hits(base, q, lo, hi);
    var slice := c[..Min(q.limit, |c|)];
    HitsStable(base, log, q, q, lo, hi);
    assert Window(id, |log|, q) == Ok((lo, hi));
    assert |c| <= q.limit ==> slice == c;
    StoredStable(id, base, log, slice);
  }

  /** A store page of a listing's first slice becomes the listing's first wire page, if all of it decodes. */
  lemma SliceDelivered(decode: Decoder, canvas: CanvasId, id: Identity, log: Log, checkpoint: Token, c: seq<int>, limit: nat)
    requires Within(c, log) && limit > 0
    ensures var slice := c[..Min(limit, |c|)];
            var next := if |c| <= limit then None else Some(Token(id, c[limit - 1] + 1));
            Deliver(decode, canvas, checkpoint, Ok(EventPage(Stored(id, log, slice), next))) ==
            if AllDecode(decode, log, slice) then Ok(WirePage(decode, canvas, id, log, checkpoint, c, limit, 0)) else Err(Internal)
  {
    TargetsOfListing(decode, canvas, id, log, c[..Min(limit, |c|)]);
    FirstSlice(c, limit);
  }

  /** One answer of the handler: the first page of what is left of the listing, if that decodes and fits. */
  lemma FirstAnswer(
    decode: Decoder, canvas: CanvasId, fits: HistoryPage -> bool, id: Identity, base: Log, log: Log, q: EventQuery, lo: nat, hi: nat)
    requires base <= log && hi <= |base| && Bounded(id, q, lo, hi)
    ensures var c := Hits(base, q, lo, hi);
            var first := WirePage(decode, canvas, id, base, Token(id, hi), c, q.limit, 0);
            Respond(decode, canvas, Token(id, hi), QueryLog(id, log, q), fits) ==
            if AllDecode(decode, base, c[..Min(q.limit, |c|)]) && fits(first) then Ok(first) else Err(Internal)
  {
    StoreAnswer(id, base, log, q, lo, hi);
    SliceDelivered(decode, canvas, id, base, Token(id, hi), Hits(base, q, lo, hi), q.limit);
  }

  lemma FollowStep(
    decode: Decoder, canvas: CanvasId, fits: HistoryPage -> bool, id: Identity, logs: seq<Log>, q: EventQuery, page: HistoryPage)
    requires q.before.Some? && logs != []
    requires Respond(decode, canvas, q.before.value, QueryLog(id, logs[0], q), fits) == Ok(page)
    ensures FollowHistory(decode, canvas, fits, id, logs, q) ==
            if page.complete then Assembled(page.events, 1, true)
            else match FollowHistory(decode, canvas, fits, id, logs[1..], q.(after := page.next))
                 case Broken => Broken
                 case Assembled(events, pages, complete) => Assembled(page.events + events, pages + 1, complete)
  {
  }

  /** The rest of the listing lies behind the cut at the end of its first page. */
  lemma NextWindow(id: Identity, log: Log, q: EventQuery, lo: nat, hi: nat) returns (cut: nat, q': EventQuery)
    requires hi <= |log| && Bounded(id, q, lo, hi) && |Hits(log, q, lo, hi)| > q.limit
    ensures cut == Hits(log, q, lo, hi)[q.limit - 1] + 1 && q' == q.(after := Some(Token(id, cut)))
    ensures Bounded(id, q', cut, hi) && Hits(log, q', cut, hi) == Hits(log, q, lo, hi)[q.limit..]
  {
    HitsCut(log, q, lo, hi, q.limit);
    cut := Hits(log, q, lo, hi)[q.limit - 1] + 1;
    q' := q.(after := Some(Token(id, cut)));
    HitsStable(log, log, q', q, cut, hi);
  }

  /** A client's first request: an answer that is refused ends the replay, a good one is the listing's first page. */
  lemma FollowFirst(
    decode: Decoder, canvas: CanvasId, fits: HistoryPage -> bool, id: Identity, base: Log, logs: seq<Log>, q: EventQuery, lo: nat, hi: nat)
    requires logs != [] && base <= logs[0] && hi <= |base| && Bounded(id, q, lo, hi)
    ensures var c := Hits(base, q, lo, hi);
            var first := WirePage(decode, canvas, id, base, Token(id, hi), c, q.limit, 0);
            FollowHistory(decode, canvas, fits, id, logs, q) ==
            if !(AllDecode(decode, base, c[..Min(q.limit, |c|)]) && fits(first)) then Broken
            else if |c| <= q.limit then Assembled(first.events, 1, true)
            else match FollowHistory(decode, canvas, fits, id, logs[1..], q.(after := Some(Token(id, c[q.limit - 1] + 1))))
                 case Broken => Broken
                 case Assembled(events, pages, complete) => Assembled(first.events + events, pages + 1, complete)
  {
    var c := Hits(base, q, lo, hi);
    var first := WirePage(decode, canvas, id, base, Token(id, hi), c, q.limit, 0);
    FirstAnswer(decode, canvas, fits, id, base, logs[0], q, lo, hi);
    if AllDecode(decode, base, c[..Min(q.limit, |c|)]) && fits(first) {
      FollowStep(decode, canvas, fits, id, logs, q, first);
    }
  }

  lemma FollowServesLast(
    decode: Decoder, canvas: CanvasId, fits: HistoryPage -> bool, id: Identity, base: Log, logs: seq<Log>, q: EventQuery, lo: nat, hi: nat)
    requires logs != [] && base <= logs[0] && hi <= |base| && Bounded(id, q, lo, hi) && |Hits(base, q, lo, hi)| <= q.limit
    ensures FollowsAs(decode, canvas, fits, id, base, logs, q, lo, hi)
  {
    var c := Hits(base, q, lo, hi);
    FollowFirst(decode, canvas, fits, id, base, logs, q, lo, hi);
    ServedLast(decode, canvas, fits, id, base, Token(id, hi), c, q.limit);
    assert c[..|c|] == c;
  }

  lemma FollowServesMore(
    decode: Decoder, canvas: CanvasId, fits: HistoryPage -> bool, id: Identity, base: Log, logs: seq<Log>,
    q: EventQuery, q': EventQuery, lo: nat, cut: nat, hi: nat)
    requires logs != [] && base <= logs[0] && hi <= |base| && Bounded(id, q, lo, hi) && |Hits(base, q, lo, hi)| > q.limit
    requires cut == Hits(base, q, lo, hi)[q.limit - 1] + 1 && q' == q.(after := Some(Token(id, cut)))
    requires Hits(base, q', cut, hi) == Hits(base, q, lo, hi)[q.limit..]
    requires FollowsAs(decode, canvas, fits, id, base, logs[1..], q', cut, hi)
    ensures FollowsAs(decode, canvas, fits, id, base, logs, q, lo, hi)
  {
    FollowFirst(decode, canvas, fits, id, base, logs, q, lo, hi);
    ServedMore(decode, canvas, fits, id, base, Token(id, hi), Hits(base, q, lo, hi), q.limit);
  }

  /** Enough logs for a bounded query, each extending the one its checkpoint was taken from. */
  ghost predicate Supplied(id: Identity, base: Log, logs: seq<Log>, q: EventQuery, lo: nat, hi: nat) {
    && Growing(logs) && (forall i :: 0 <= i < |logs| ==> base <= logs[i])
    && hi <= |base| && Bounded(id, q, lo, hi) && |logs| >= PagesFor(|Hits(base, q, lo, hi)|, q.limit)
  }

  lemma SuppliedNext(id: Identity, base: Log, logs: seq<Log>, q: EventQuery, lo: nat, hi: nat) returns (cut: nat, q': EventQuery)
    requires Supplied(id, base, logs, q, lo, hi) && |Hits(base, q, lo, hi)| > q.limit
    ensures cut == Hits(base, q, lo, hi)[q.limit - 1] + 1 && q' == q.(after := Some(Token(id, cut)))
    ensures Supplied(id, base, logs[1..], q', cut, hi) && Hits(base, q', cut, hi) == Hits(base, q, lo, hi)[q.limit..]
  {
    cut, q' := NextWindow(id, base, q, lo, hi);
    GrowingTail(logs);
  }

  ghost predicate FollowsAs(
    decode: Decoder, canvas: CanvasId, fits: HistoryPage -> bool, id: Identity, base: Log, logs: seq<Log>, q: EventQuery, lo: nat, hi: nat)
    requires hi <= |base| && q.limit > 0 && q.before.Some?
  {
    FollowHistory(decode, canvas, fits, id, logs, q) ==
    Served(decode, canvas, fits, id, base, Token(id, hi), Hits(base, q, lo, hi), q.limit)
  }

  /** Following continuations serves the listing, whatever is appended between the pages. */
  lemma {:induction false} FollowServes(
    decode: Decoder, canvas: CanvasId, fits: HistoryPage -> bool, id: Identity, base: Log, logs: seq<Log>, q: EventQuery, lo: nat, hi: nat)
    requires Supplied(id, base, logs, q, lo, hi)
    ensures FollowsAs(decode, canvas, fits, id, base, logs, q, lo, hi)
    decreases |logs|
  {
    if |Hits(base, q, lo, hi)| <= q.limit {
      FollowServesLast(decode, canvas, fits, id, base, logs, q, lo, hi);
    } else {
      var cut, q' := SuppliedNext(id, base, logs, q, lo, hi);
      FollowServes(decode, canvas, fits, id, base, logs[1..], q', cut, hi);
      FollowServesMore(decode, canvas, fits, id, base, logs, q, q', lo, cut, hi);
    }
  }

  /**
   Canvas history completeness. With enough continuations the client ends in exactly one
   of two ways, whatever was appended meanwhile and even when pages carry no target event.
   If every candidate before the checkpoint decodes and each of the max(1, ceil(n / limit))
   pages they make up fits into a response, it holds the target Canvas's events of that
   prefix, in append order, after that many pages. Otherwise the replay breaks.
   */
  lemma HistoryIsComplete(decode: Decoder, canvas: CanvasId, fits: HistoryPage -> bool, id: Identity, base: Log, logs: seq<Log>,
                          session: SessionId, b: nat, limit: nat)
    requires Growing(logs) && (forall i :: 0 <= i < |logs| ==> base <= logs[i])
    requires b <= |base| && b <= I64_MAX && limit > 0
    requires |logs| >= PagesFor(|CandidatesBefore(base, session, b)|, limit)
    ensures Within(Ascending(TargetsBefore(base, session, decode, canvas, b)), base)
    ensures Within(Ascending(CandidatesBefore(base, session, b)), base)
    ensures var q := CanvasEventQuery(session, Token(id, b), None, limit);
            FollowHistory(decode, canvas, fits, id, logs, q) ==
            if && (forall i :: i in CandidatesBefore(base, session, b) ==> decode(base[i]).Some?)
               && AllFit(decode, canvas, fits, id, base, Token(id, b), Ascending(CandidatesBefore(base, session, b)), limit)
            then Assembled(Pick(base, Ascending(TargetsBefore(base, session, decode, canvas, b))),
                           PagesFor(|CandidatesBefore(base, session, b)|, limit), true)
            else Broken
  {
    var q := CanvasEventQuery(session, Token(id, b), None, limit);
    var hits := Hits(base, q, 0, b);
    CandidatesAreHits(base, session, b, q);
    FollowServes(decode, canvas, fits, id, base, logs, q, 0, b);
    AboutInMembers(decode, canvas, base, hits);
    ListingOfTargets(decode, canvas, base, session, b, hits);
  }

  /** Every candidate decodes and the replay still breaks: the one page it takes is too large. */
  lemma OversizedPageBreaks(decode: Decoder, id: Identity, e: Event, limit: nat)
    requires e.kind in CANVAS_KINDS && decode(e).Some? && limit > 0
    ensures var q := CanvasEventQuery(e.session, Token(id, 1), None, limit);
            var fits := (page: HistoryPage) => page.events == [];
            && (forall i :: i in CandidatesBefore([e], e.session, 1) ==> decode([e][i]).Some?)
            && FollowHistory(decode, decode(e).value.canvas, fits, id, [[e]], q) == Broken
  {
    var q := CanvasEventQuery(e.session, Token(id, 1), None, limit);
    var fits := (page: HistoryPage) => page.events == [];
    var canvas := decode(e).value.canvas;
    assert Candidate([e], e.session, 0);
    assert CandidatesBefore([e], e.session, 1) == {0};
    CandidatesAreHits([e], e.session, 1, q);
    var c := Hits([e], q, 0, 1);
    assert c == [0];
    FirstAnswer(decode, canvas, fits, id, [e], [e], q, 0, 1);
    FirstSlice(c, limit);
    assert PageSlice(c, limit, 0) == [0];
    assert AboutIn(decode, canvas, [e], [0]) == [0] by {
      assert [0][..0] == [];
    }
    assert [[e]][0] == [e];
  }

  lemma ListingOfTargets(decode: Decoder, canvas: CanvasId, log: Log, session: SessionId, b: nat, hits: seq<int>)
    requires b <= |log| && Within(hits, log) && Increasing(hits)
    requires forall x :: x in hits <==> x in CandidatesBefore(log, session, b)
    requires var kept := AboutIn(decode, canvas, log, hits);
             Increasing(kept) && forall x :: x in kept <==> x in hits && About(decode, canvas, log[x])
    ensures AboutIn(decode, canvas, log, hits) == Ascending(TargetsBefore(log, session, decode, canvas, b))
    ensures (exists j :: 0 <= j < |hits| && decode(log[hits[j]]).None?) <==>
            (exists i :: i in CandidatesBefore(log, session, b) && decode(log[i]).None?)
  {
    var kept, targets := AboutIn(decode, canvas, log, hits), TargetsBefore(log, session, decode, canvas, b);
    forall x ensures x in kept <==> x in targets { }
    AscendingUnique(kept, targets);
    if i :| i in CandidatesBefore(log, session, b) && decode(log[i]).None? {
      assert i in hits;
      var j :| 0 <= j < |hits| && hits[j] == i;
    }
    if j :| 0 <= j < |hits| && decode(log[hits[j]]).None? {
      assert hits[j] in hits;
    }
  }

  lemma CandidatesAreHits(log: Log, session: SessionId, b: nat, q: EventQuery)
    requires b <= |log| && q.session == Some(session) && q.actor == None && q.kinds == CANVAS_KINDS
    requires forall e :: q.residual(e)
    ensures Hits(log, q, 0, b) == Ascending(CandidatesBefore(log, session, b))
    ensures |Hits(log, q, 0, b)| == |CandidatesBefore(log, session, b)|
    ensures forall x :: x in Hits(log, q, 0, b) <==> x in CandidatesBefore(log, session, b)
  {
    assert CANVAS_KINDS != [];
    assert forall i :: Keeps(q, log, i) <==> Candidate(log, session, i);
    assert MatchSet(log, q, 0, b) == CandidatesBefore(log, session, b);
    ListingSize(Hits(log, q, 0, b), CandidatesBefore(log, session, b));
  }
}

/**
 The append-only EventStore (orbitrelay-storage-sqlite): an `events` table keyed by
 `append_sequence`, driven through `MAX + 1`, opaque cursors and checkpoints. The
 specification is a plain sequence of events, the log.
 */
module EventStore {
  import opened Foundation

  type EntityId = nat
  type EventId = nat
  type SessionId = nat
  type ActorId = nat

  datatype EventType =
    | StrokeBegan | StrokePointsAppended | StrokeCompleted | StrokeCancelled | StrokeRemoved
    | OtherType(name: string)

  /** `body` stands for the action, the timestamp, the payload and the metadata. */
  datatype Event = Event(id: EventId, session: SessionId, actor: ActorId, kind: EventType, body: string)

  type Log = seq<Event>

  /** The pair every cursor and checkpoint is bound to: persistent store, process epoch. */
  datatype Identity = Identity(store: EntityId, epoch: EntityId)

  /** An `EventCursor` or an `EventStoreCheckpoint`. */
  datatype Token = Token(owner: Identity, position: nat)

  datatype StoredEvent = StoredEvent(cursor: Token, event: Event)

  datatype EventPage = EventPage(events: seq<StoredEvent>, next: Option<Token>)

  datatype StorageError =
    | InvalidQuery | InvalidCursor | InvalidCheckpoint
    | EventConflict(id: EventId)
    | BackendUnavailable | BackendFailure

  /** `residual` is whatever `EventQuery::matches` tests beyond the three SQL conditions. */
  datatype EventQuery = EventQuery(
    session: Option<SessionId>, actor: Option<ActorId>, kinds: seq<EventType>, residual: Event -> bool,
    limit: nat, after: Option<Token>, before: Option<Token>)

  // ----- The log as specification -----

  ghost predicate DistinctIds(log: Log) {
    forall i, j :: 0 <= i < j < |log| ==> log[i].id != log[j].id
  }

  function PositionOf(log: Log, id: EventId): (r: Option<nat>)
    ensures r.Some? ==> r.value < |log| && log[r.value].id == id
    ensures r.None? ==> forall i :: 0 <= i < |log| ==> log[i].id != id
  {
    if log == [] then None
    else if log[|log| - 1].id == id then Some(|log| - 1)
    else
      var r := PositionOf(log[..|log| - 1], id);
      assert r.None? ==> forall i :: 0 <= i < |log| - 1 ==> log[..|log| - 1][i] == log[i];
      r
  }

  /** One append: the new log and the sequence the event is stored under. */
  function AppendLog(log: Log, e: Event): (Log, Result<nat, StorageError>) {
    match PositionOf(log, e.id)
    case Some(i) => if log[i] == e then (log, Ok(i)) else (log, Err(EventConflict(e.id)))
    case None => if |log| > I64_MAX then (log, Err(BackendFailure)) else (log + [e], Ok(|log|))
  }

  function AppendMany(log: Log, es: seq<Event>): Log {
    if es == [] then log else AppendLog(AppendMany(log, es[..|es| - 1]), es[|es| - 1]).0
  }

  predicate SqlMatches(q: EventQuery, e: Event) {
    && (q.session.Some? ==> e.session == q.session.value)
    && (q.actor.Some? ==> e.actor == q.actor.value)
    && (q.kinds != [] ==> e.kind in q.kinds)
  }

  predicate Matches(q: EventQuery, e: Event) {
    SqlMatches(q, e) && q.residual(e)
  }

  predicate Keeps(q: EventQuery, log: Log, i: int) {
    0 <= i < |log| && Matches(q, log[i])
  }

  function MatchSet(log: Log, q: EventQuery, lo: int, hi: int): set<int> {
    set i | lo <= i < hi && Keeps(q, log, i)
  }

  /** The positions a query may deliver, in append order. */
  ghost function Hits(log: Log, q: EventQuery, lo: int, hi: int): (s: seq<int>)
    ensures Increasing(s)
    ensures forall j :: 0 <= j < |s| ==> lo <= s[j] < hi && Keeps(q, log, s[j])
  {
    Ascending(MatchSet(log, q, lo, hi))
  }

  predicate Within(idx: seq<int>, log: Log) {
    forall j :: 0 <= j < |idx| ==> 0 <= idx[j] < |log|
  }

  function StoredAt(id: Identity, log: Log, i: nat): StoredEvent
    requires i < |log|
  {
    StoredEvent(Token(id, i + 1), log[i])
  }

  function Stored(id: Identity, log: Log, idx: seq<int>): seq<StoredEvent>
    requires Within(idx, log)
  {
    seq(|idx|, j requires 0 <= j < |idx| => StoredAt(id, log, idx[j]))
  }

  /** The window `[lo, hi)` a query is admitted to, or the reason it is refused. */
  function Window(id: Identity, count: nat, q: EventQuery): (r: Result<(nat, nat), StorageError>)
    ensures r.Ok? ==> q.limit > 0 && r.value.0 <= r.value.1 <= count
  {
    if q.limit == 0 then Err(InvalidQuery)
    else if q.before.Some? && q.before.value.owner != id then Err(InvalidCheckpoint)
    else
      var upper := if q.before.Some? then q.before.value.position else count;
      if upper > count then Err(InvalidCheckpoint)
      else if q.after.Some? && (q.after.value.owner != id || q.after.value.position == 0) then Err(InvalidCursor)
      else
        var start := if q.after.Some? then q.after.value.position else 0;
        if start > upper then Err(InvalidCursor)
        else if upper > I64_MAX then Err(BackendFailure)
        else Ok((start, upper))
  }

  // ----- What a query is admitted to, and what it delivers, field by field -----

  predicate BoundAccepted(id: Identity, count: nat, q: EventQuery) {
    q.before.Some? ==> q.before.value.owner == id && q.before.value.position <= count
  }

  function UpperBound(count: nat, q: EventQuery): nat {
    if q.before.Some? then q.before.value.position else count
  }

  predicate CursorAccepted(id: Identity, count: nat, q: EventQuery) {
    q.after.Some? ==> q.after.value.owner == id && 0 < q.after.value.position <= UpperBound(count, q)
  }

  /** A positive limit, tokens of this store and epoch, in range and in order, and a bound that is an `i64`. */
  predicate Admitted(id: Identity, count: nat, q: EventQuery) {
    q.limit > 0 && BoundAccepted(id, count, q) && CursorAccepted(id, count, q) && UpperBound(count, q) <= I64_MAX
  }

  /** Which queries are admitted, to which window, and why the others are refused. */
  lemma WindowMeaning(id: Identity, count: nat, q: EventQuery)
    ensures Window(id, count, q).Ok? <==> Admitted(id, count, q)
    ensures Admitted(id, count, q) ==>
              Window(id, count, q).value == (if q.after.Some? then q.after.value.position else 0, UpperBound(count, q))
    ensures q.limit == 0 ==> Window(id, count, q) == Err(InvalidQuery)
    ensures q.limit > 0 && !BoundAccepted(id, count, q) ==> Window(id, count, q) == Err(InvalidCheckpoint)
    ensures q.limit > 0 && BoundAccepted(id, count, q) && !CursorAccepted(id, count, q) ==> Window(id, count, q) == Err(InvalidCursor)
    ensures q.limit > 0 && BoundAccepted(id, count, q) && CursorAccepted(id, count, q) && UpperBound(count, q) > I64_MAX ==>
              Window(id, count, q) == Err(BackendFailure)
  {
  }

  /** The positions of a window a query selects: those whose event agrees with every field it names. */
  lemma HitsAre(log: Log, q: EventQuery, lo: nat, hi: nat, i: int)
    requires hi <= |log|
    ensures i in Hits(log, q, lo, hi) <==>
            && lo <= i < hi
            && (q.session == None || q.session == Some(log[i].session))
            && (q.actor == None || q.actor == Some(log[i].actor))
            && (q.kinds == [] || log[i].kind in q.kinds)
            && q.residual(log[i])
  {
    assert i in Hits(log, q, lo, hi) <==> i in MatchSet(log, q, lo, hi);
  }

  /** A delivered record: a stored event behind the cursor and before the bound, with the fields asked for and its own cursor. */
  ghost predicate Delivered(id: Identity, log: Log, q: EventQuery, r: StoredEvent) {
    var i := r.cursor.position - 1;
    && r.cursor.owner == id && 0 <= i < |log| && r.event == log[i]
    && (q.after.Some? ==> i >= q.after.value.position) && i < UpperBound(|log|, q)
    && (q.session == None || q.session == Some(r.event.session))
    && (q.actor == None || q.actor == Some(r.event.actor))
    && (q.kinds == [] || r.event.kind in q.kinds)
    && q.residual(r.event)
  }

  lemma DeliveredEvents(id: Identity, log: Log, q: EventQuery)
    requires QueryLog(id, log, q).Ok?
    ensures forall k :: 0 <= k < |QueryLog(id, log, q).value.events| ==> Delivered(id, log, q, QueryLog(id, log, q).value.events[k])
  {
    WindowMeaning(id, |log|, q);
    var (lo, hi) := Window(id, |log|, q).value;
    var hits := Hits(log, q, lo, hi);
    forall k | 0 <= k < |QueryLog(id, log, q).value.events| ensures Delivered(id, log, q, QueryLog(id, log, q).value.events[k]) {
      assert hits[k] in hits;
      HitsAre(log, q, lo, hi, hits[k]);
    }
  }

  /** Every token a query hands out names this store and epoch. */
  lemma TokensAreOwned(id: Identity, log: Log, q: EventQuery)
    requires QueryLog(id, log, q).Ok?
    ensures var page := QueryLog(id, log, q).value;
            && (forall k :: 0 <= k < |page.events| ==> page.events[k].cursor.owner == id)
            && (page.next.Some? ==> page.next.value.owner == id)
  {
    DeliveredEvents(id, log, q);
  }

  /** A token of another store or of an earlier epoch is never accepted, as a bound or as a cursor. */
  lemma ForeignTokenRefused(id: Identity, log: Log, q: EventQuery, token: Token)
    requires token.owner != id && (q.before == Some(token) || q.after == Some(token))
    ensures QueryLog(id, log, q).Err?
    ensures q.limit > 0 && q.before == Some(token) ==> QueryLog(id, log, q) == Err(InvalidCheckpoint)
    ensures q.limit > 0 && BoundAccepted(id, |log|, q) && q.after == Some(token) ==> QueryLog(id, log, q) == Err(InvalidCursor)
  {
    WindowMeaning(id, |log|, q);
  }

  /** Asking behind a stored event's own cursor, at once or later, yields the page of the matches behind that event. */
  lemma AfterOwnCursor(id: Identity, log: Log, log': Log, i: nat, q: EventQuery)
    requires i < |log| && log <= log' && q.after == Some(StoredAt(id, log, i).cursor)
    requires q.limit > 0 && BoundAccepted(id, |log'|, q) && i < UpperBound(|log'|, q) <= I64_MAX
    ensures QueryLog(id, log', q) == Ok(PageOf(id, log', q, i + 1, UpperBound(|log'|, q)))
  {
    WindowMeaning(id, |log'|, q);
  }

  ghost function PageOf(id: Identity, log: Log, q: EventQuery, lo: nat, hi: nat): EventPage
    requires lo <= hi <= |log| && q.limit > 0
  {
    var hits := Hits(log, q, lo, hi);
    if |hits| <= q.limit then EventPage(Stored(id, log, hits), None)
    else EventPage(Stored(id, log, hits[..q.limit]), Some(Token(id, hits[q.limit - 1] + 1)))
  }

  ghost function QueryLog(id: Identity, log: Log, q: EventQuery): Result<EventPage, StorageError> {
    match Window(id, |log|, q)
    case Err(e) => Err(e)
    case Ok((lo, hi)) => Ok(PageOf(id, log, q, lo, hi))
  }

  // ----- The SQLite table -----

  type Table = map<int, Event>

  ghost predicate Contiguous(t: Table) {
    && Dense(t.Keys, |t|)
    && |t| <= I64_MAX + 1
  }

  ghost function LogOf(t: Table): (log: Log)
    requires Contiguous(t)
    ensures |log| == |t| && forall i :: 0 <= i < |t| ==> log[i] == t[i]
  {
    seq(|t|, i requires 0 <= i < |t| => t[i])
  }

  /** `current_count`: `MAX(append_sequence) + 1`, or 0 for the empty table. */
  function CurrentCount(t: Table): (r: Result<nat, StorageError>)
    ensures Contiguous(t) ==> r == Ok(|t|)
  {
    match Greatest(t.Keys)
    case None => Ok(0)
    case Some(v) =>
      assert Contiguous(t) ==> v == |t| - 1 by {
        if Contiguous(t) { assert |t| - 1 in t.Keys; }
      }
      if v < 0 || v + 1 > U64_MAX then Err(BackendFailure) else Ok(v + 1)
  }

  lemma SizeAfterInsert(t: Table, k: int, e: Event)
    requires k !in t
    ensures |t[k := e]| == |t| + 1
  {
    assert t[k := e].Keys == t.Keys + {k};
    assert |t[k := e]| == |t[k := e].Keys|;
  }

  lemma FoundInTable(t: Table, k: int, id: EventId)
    requires Contiguous(t) && DistinctIds(LogOf(t)) && k in t && t[k].id == id
    ensures 0 <= k < |t| && PositionOf(LogOf(t), id) == Some(k)
  {
    var log := LogOf(t);
    assert log[k].id == id;
    var r := PositionOf(log, id);
    assert r.Some? && log[r.value].id == log[k].id;
  }

  lemma DistinctSnoc(log: Log, e: Event)
    requires DistinctIds(log) && PositionOf(log, e.id) == None
    ensures DistinctIds(log + [e])
  {
  }

  lemma AbsentFromTable(t: Table, id: EventId)
    requires Contiguous(t) && forall k :: k in t ==> t[k].id != id
    ensures PositionOf(LogOf(t), id) == None
  {
    var log := LogOf(t);
    assert forall i :: 0 <= i < |log| ==> i in t && log[i] == t[i];
  }

  lemma InsertNext(t: Table, e: Event)
    requires Contiguous(t) && |t| <= I64_MAX
    ensures Contiguous(t[|t| := e]) && LogOf(t[|t| := e]) == LogOf(t) + [e]
  {
    var n := |t|;
    assert n !in t.Keys;
    SizeAfterInsert(t, n, e);
    var t' := t[n := e];
    assert forall k :: k in t'.Keys <==> k in t.Keys || k == n;
  }

  class SQLiteEventStore {
    var table: Table
    const identity: Identity

    ghost predicate Valid() reads this {
      Contiguous(table) && DistinctIds(LogOf(table))
    }

    ghost function Contents(): Log
      reads this
      requires Valid()
    {
      LogOf(table)
    }

    constructor (identity: Identity)
      ensures Valid() && Contents() == [] && this.identity == identity
    {
      this.identity := identity;
      table := map[];
    }

    /** `append_event`; `fault` is a SQLite failure, which rolls the transaction back. */
    method Append(e: Event, fault: bool) returns (r: Result<StoredEvent, StorageError>)
      requires Valid()
      modifies this`table
      ensures Valid()
      ensures fault ==> r == Err(BackendUnavailable) && Contents() == old(Contents())
      ensures !fault ==>
                var (log', at) := AppendLog(old(Contents()), e);
                && Contents() == log'
                && (at.Ok? ==> at.value < |log'| && r == Ok(StoredAt(identity, log', at.value)))
                && (at.Err? ==> r == Err(at.error))
    {
      if fault {
        return Err(BackendUnavailable);
      }
      if k :| k in table && table[k].id == e.id {
        FoundInTable(table, k, e.id);
        if table[k] == e {
          return Ok(StoredEvent(Token(identity, k + 1), table[k]));
        }
        return Err(EventConflict(e.id));
      }
      AbsentFromTable(table, e.id);
      var sequence := CurrentCount(table).value;
      if sequence > I64_MAX {
        return Err(BackendFailure);
      }
      InsertNext(table, e);
      DistinctSnoc(LogOf(table), e);
      table := table[sequence := e];
      r := Ok(StoredEvent(Token(identity, sequence + 1), e));
    }

    /** `get_event`. */
    method Get(eventId: EventId) returns (r: Option<StoredEvent>)
      requires Valid()
      ensures var at := PositionOf(Contents(), eventId);
              r == if at.Some? then Some(StoredAt(identity, Contents(), at.value)) else None
    {
      if k :| k in table && table[k].id == eventId {
        FoundInTable(table, k, eventId);
        return Some(StoredEvent(Token(identity, k + 1), table[k]));
      }
      AbsentFromTable(table, eventId);
      r := None;
    }

    /** `capture_checkpoint`. */
    method CaptureCheckpoint() returns (r: Result<Token, StorageError>)
      requires Valid()
      ensures r == Ok(Token(identity, |Contents()|))
    {
      var count := CurrentCount(table);
      r := Ok(Token(identity, count.value));
    }

    /** The gate at the next open. Every method keeps the store valid, so this is about every reachable table. */
    method PassesGate() returns (ok: bool)
      requires Valid()
      ensures ok <==> |Contents()| <= I64_MAX
    {
      ok := VerifyAllEvents(table);
    }

    /**
     `query_events`: the SQL window, the row loop with `has_more`, the next cursor. A token
     of another store or epoch is refused; whatever is delivered is stored and matches.
     */
    method Query(q: EventQuery) returns (r: Result<EventPage, StorageError>)
      requires Valid()
      ensures r == QueryLog(identity, Contents(), q)
      ensures q.limit > 0 && q.before.Some? && q.before.value.owner != identity ==> r == Err(InvalidCheckpoint)
      ensures q.limit > 0 && BoundAccepted(identity, |Contents()|, q) && q.after.Some? ==>
                (q.after.value.owner != identity || q.after.value.position == 0 ==> r == Err(InvalidCursor))
      ensures r.Ok? <==> Admitted(identity, |Contents()|, q)
      ensures r.Ok? ==> forall k :: 0 <= k < |r.value.events| ==> Delivered(identity, Contents(), q, r.value.events[k])
    {
      r := QueryTable(identity, table, q);
      WindowMeaning(identity, |Contents()|, q);
      if r.Ok? {
        DeliveredEvents(identity, Contents(), q);
      }
    }
  }

  /** `query_events` against one state of the table. */
  method QueryTable(id: Identity, t: Table, q: EventQuery) returns (r: Result<EventPage, StorageError>)
    requires Contiguous(t)
    ensures r == QueryLog(id, LogOf(t), q)
  {
    if q.limit == 0 {
      return Err(InvalidQuery);
    }
    var count := CurrentCount(t).value;
    var upper := count;
    if q.before.Some? {
      if q.before.value.owner != id {
        return Err(InvalidCheckpoint);
      }
      upper := q.before.value.position;
    }
    if upper > count {
      return Err(InvalidCheckpoint);
    }
    var start := 0;
    if q.after.Some? {
      if q.after.value.owner != id || q.after.value.position == 0 {
        return Err(InvalidCursor);
      }
      start := q.after.value.position;
    }
    if start > upper || (start > 0 && start > count) {
      return Err(InvalidCursor);
    }
    if upper > I64_MAX {
      return Err(BackendFailure);
    }
    var page := SelectPage(id, t, q, start, upper);
    r := Ok(page);
  }

  predicate KeepsRow(t: Table, q: EventQuery, k: int) {
    k in t && q.residual(t[k])
  }

  /** What the row loop of `query_events` keeps of `rows`. */
  ghost function Kept(t: Table, q: EventQuery, rows: seq<int>): seq<int> {
    if rows == [] then [] else
      var front, k := Kept(t, q, rows[..|rows| - 1]), rows[|rows| - 1];
      if KeepsRow(t, q, k) then front + [k] else front
  }

  lemma {:induction false} KeptMembers(t: Table, q: EventQuery, rows: seq<int>)
    requires Increasing(rows)
    ensures Increasing(Kept(t, q, rows))
    ensures forall x :: x in Kept(t, q, rows) <==> x in rows && KeepsRow(t, q, x)
  {
    if rows != [] {
      var n := |rows| - 1;
      KeptMembers(t, q, rows[..n]);
      assert rows == rows[..n] + [rows[n]];
      var front := Kept(t, q, rows[..n]);
      forall j | 0 <= j < |front| ensures front[j] < rows[n] {
        assert front[j] in front;
        assert front[j] in rows[..n];
      }
    }
  }

  function Selected(t: Table, q: EventQuery, lo: int, hi: int): set<int> {
    set k | k in t && lo <= k < hi && SqlMatches(q, t[k])
  }

  lemma SelectedMatches(t: Table, q: EventQuery, lo: nat, hi: nat, x: int)
    requires Contiguous(t)
    ensures x in MatchSet(LogOf(t), q, lo, hi) <==> x in Ascending(Selected(t, q, lo, hi)) && KeepsRow(t, q, x)
  {
    assert x in Ascending(Selected(t, q, lo, hi)) <==> x in Selected(t, q, lo, hi);
  }

  /** The loop ran to its end: everything that matches was taken, on the last page. */
  lemma LastPage(id: Identity, t: Table, q: EventQuery, lo: nat, hi: nat, taken: seq<int>)
    requires Contiguous(t) && lo <= hi <= |t| && 0 < q.limit && |taken| <= q.limit
    requires taken == Kept(t, q, Ascending(Selected(t, q, lo, hi)))
    ensures Within(taken, LogOf(t))
    ensures PageOf(id, LogOf(t), q, lo, hi) == EventPage(Stored(id, LogOf(t), taken), None)
  {
    KeptMembers(t, q, Ascending(Selected(t, q, lo, hi)));
    forall x ensures x in taken <==> x in MatchSet(LogOf(t), q, lo, hi) {
      SelectedMatches(t, q, lo, hi, x);
    }
    AscendingUnique(taken, MatchSet(LogOf(t), q, lo, hi));
  }

  /** What was taken before row `k` is the listing of the matches below `k`. */
  lemma TakenBelow(t: Table, q: EventQuery, lo: nat, hi: nat, rows: seq<int>, i: nat)
    requires Contiguous(t) && rows == Ascending(Selected(t, q, lo, hi)) && i < |rows|
    ensures Kept(t, q, rows[..i]) == Ascending(Below(MatchSet(LogOf(t), q, lo, hi), rows[i]))
  {
    var matching, taken := MatchSet(LogOf(t), q, lo, hi), Kept(t, q, rows[..i]);
    KeptMembers(t, q, rows[..i]);
    SelectedPrefix(rows, i);
    forall x ensures x in taken <==> x in Below(matching, rows[i]) {
      SelectedMatches(t, q, lo, hi, x);
    }
    AscendingUnique(taken, Below(matching, rows[i]));
  }

  /** ... and more matches follow from row `k` on. */
  lemma HitsContinue(t: Table, q: EventQuery, lo: nat, hi: nat, rows: seq<int>, i: nat)
    requires Contiguous(t) && rows == Ascending(Selected(t, q, lo, hi)) && i < |rows| && KeepsRow(t, q, rows[i])
    ensures var taken, hits := Kept(t, q, rows[..i]), Hits(LogOf(t), q, lo, hi);
            |taken| < |hits| && taken == hits[..|taken|]
  {
    var matching, k := MatchSet(LogOf(t), q, lo, hi), rows[i];
    TakenBelow(t, q, lo, hi, rows, i);
    AscendingSplit(matching, k);
    SelectedMatches(t, q, lo, hi, k);
    assert k in From(matching, k);
    assert k in Ascending(From(matching, k));
  }

  /** The loop stopped at a further match: what was taken is the front of the matches. */
  lemma FullPage(id: Identity, t: Table, q: EventQuery, lo: nat, hi: nat, rows: seq<int>, i: nat, taken: seq<int>)
    requires Contiguous(t) && lo <= hi <= |t| && 0 < q.limit == |taken| && rows == Ascending(Selected(t, q, lo, hi))
    requires i < |rows| && KeepsRow(t, q, rows[i]) && taken == Kept(t, q, rows[..i])
    ensures Within(taken, LogOf(t))
    ensures PageOf(id, LogOf(t), q, lo, hi) == EventPage(Stored(id, LogOf(t), taken), Some(Token(id, taken[|taken| - 1] + 1)))
  {
    HitsContinue(t, q, lo, hi, rows, i);
  }

  lemma StoredSnoc(id: Identity, log: Log, idx: seq<int>, k: nat)
    requires Within(idx, log) && k < |log|
    ensures Within(idx + [k], log)
    ensures Stored(id, log, idx + [k]) == Stored(id, log, idx) + [StoredAt(id, log, k)]
  {
  }

  /** The row loop of `query_events` over `[lo, hi)`. */
  method SelectPage(id: Identity, t: Table, q: EventQuery, lo: nat, hi: nat) returns (page: EventPage)
    requires Contiguous(t) && lo <= hi <= |t| && q.limit > 0
    ensures page == PageOf(id, LogOf(t), q, lo, hi)
  {
    var rows := OrderBy(Selected(t, q, lo, hi));
    var events: seq<StoredEvent> := [];
    ghost var log := LogOf(t);
    ghost var taken: seq<int> := [];
    var i := 0;
    while i < |rows|
      invariant 0 <= i <= |rows|
      invariant taken == Kept(t, q, rows[..i]) && Within(taken, log) && |taken| <= q.limit
      invariant events == Stored(id, log, taken)
    {
      var k := rows[i];
      assert k in Selected(t, q, lo, hi);
      assert rows[..i + 1][..i] == rows[..i];
      if q.residual(t[k]) {
        if |events| == q.limit {
          FullPage(id, t, q, lo, hi, rows, i, taken);
          return EventPage(events, Some(events[|events| - 1].cursor));
        }
        StoredSnoc(id, log, taken, k);
        events := events + [StoredEvent(Token(id, k + 1), t[k])];
        taken := taken + [k];
      }
      i := i + 1;
    }
    assert rows[..i] == rows;
    LastPage(id, t, q, lo, hi, taken);
    page := EventPage(events, None);
  }

  lemma SelectedPrefix(rows: seq<int>, i: nat)
    requires Increasing(rows) && i < |rows|
    ensures forall x :: x in rows[..i] <==> x in rows && x < rows[i]
  {
    forall x | x in rows && x < rows[i] ensures x in rows[..i] {
      var j :| 0 <= j < |rows| && rows[j] == x;
      assert rows[..i][j] == x;
    }
  }

  /**
   `verify_all_events`, the gate at open. Over every table of 64-bit keys it accepts
   exactly the contiguous ones of at most 2^63 - 1 rows.
   */
  method VerifyAllEvents(t: Table) returns (ok: bool)
    requires forall k :: k in t ==> -I64_MAX - 1 <= k <= I64_MAX
    ensures ok <==> Dense(t.Keys, |t|) && |t| <= I64_MAX
  {
    var rows := OrderBy(t.Keys);
    var expected, i := 0, 0;
    DenseIffCounting(t.Keys);
    while i < |rows|
      invariant 0 <= i <= |rows| && expected == i <= I64_MAX
      invariant forall j :: 0 <= j < i ==> rows[j] == j
    {
      if rows[i] != expected {
        return false;
      }
      if expected == I64_MAX {
        return false;
      }
      expected, i := expected + 1, i + 1;
    }
    ok := true;
  }

  // ----- Append refines a set-once log -----

  predicate First(es: seq<Event>, i: int) {
    0 <= i < |es| && forall j :: 0 <= j < i ==> es[j].id != es[i].id
  }

  function Firsts(es: seq<Event>, n: int): set<int> {
    set i | 0 <= i < n && First(es, i)
  }

  function Pick(es: seq<Event>, idx: seq<int>): seq<Event>
    requires Within(idx, es)
  {
    seq(|idx|, j requires 0 <= j < |idx| => es[idx[j]])
  }

  /** How the listing of first occurrences grows by one submitted event. */
  lemma FirstsSnoc(es: seq<Event>, e: Event)
    ensures Ascending(Firsts(es + [e], |es| + 1)) ==
            Ascending(Firsts(es, |es|)) + (if First(es + [e], |es|) then [|es|] else [])
  {
    var n, all := |es|, es + [e];
    forall i | 0 <= i < n ensures First(es, i) <==> First(all, i) {
      assert forall j :: 0 <= j <= i ==> all[j] == es[j];
    }
    var keys := Firsts(all, n + 1);
    AscendingSplit(keys, n);
    assert Below(keys, n) == Firsts(es, n);
    AscendingUnique(if First(all, n) then [n] else [], From(keys, n));
  }

  /** An id was submitted before exactly when it is in the log of first occurrences. */
  lemma SeenIffLogged(es: seq<Event>, id: EventId)
    ensures Within(Ascending(Firsts(es, |es|)), es)
    ensures PositionOf(Pick(es, Ascending(Firsts(es, |es|))), id) == None
            <==> forall j :: 0 <= j < |es| ==> es[j].id != id
  {
    var idx := Ascending(Firsts(es, |es|));
    var log := Pick(es, idx);
    if j :| 0 <= j < |es| && es[j].id == id {
      FirstWitness(es, id);
      var f :| First(es, f) && es[f].id == id;
      assert f in Firsts(es, |es|) && f in idx;
      var m :| 0 <= m < |idx| && idx[m] == f;
      assert log[m].id == id;
    }
  }

  /** The log of first occurrences. */
  ghost function FirstOccurrences(es: seq<Event>): (log: Log) {
    SeenIffLogged(es, 0);
    Pick(es, Ascending(Firsts(es, |es|)))
  }

  lemma FirstOccurrencesSnoc(es: seq<Event>, e: Event)
    ensures var seen := exists j :: 0 <= j < |es| && es[j].id == e.id;
            FirstOccurrences(es + [e]) == FirstOccurrences(es) + (if seen then [] else [e])
  {
    FirstsSnoc(es, e);
    var idx, all := Ascending(Firsts(es, |es|)), es + [e];
    SeenIffLogged(es, 0);
    assert Within(idx, all) && Pick(all, idx) == Pick(es, idx);
    assert all[|es|] == e && forall j :: 0 <= j < |es| ==> all[j] == es[j];
  }

  /** Whatever is submitted, the log is the first occurrence of each EventId, in order. */
  lemma {:induction false} AppendsKeepFirstOccurrences(es: seq<Event>)
    requires |FirstOccurrences(es)| <= I64_MAX + 1
    ensures AppendMany([], es) == FirstOccurrences(es)
  {
    if es == [] {
      assert Firsts(es, 0) == {};
      AscendingUnique([], {});
    } else {
      var head, e := es[..|es| - 1], es[|es| - 1];
      assert es == head + [e];
      FirstOccurrencesSnoc(head, e);
      AppendsKeepFirstOccurrences(head);
      SeenIffLogged(head, e.id);
    }
  }

  lemma {:induction false} FirstWitness(es: seq<Event>, id: EventId)
    requires exists j :: 0 <= j < |es| && es[j].id == id
    ensures exists j :: First(es, j) && es[j].id == id
  {
    var n := |es|;
    if j :| 0 <= j < n - 1 && es[j].id == id {
      assert es[..n - 1][j].id == id;
      FirstWitness(es[..n - 1], id);
      var f :| First(es[..n - 1], f) && es[..n - 1][f].id == id;
      assert First(es, f);
    } else {
      assert First(es, n - 1);
    }
  }

  /** Appends keep ids distinct and extend the log, so positions never move. */
  lemma {:induction false} AppendManyExtends(log: Log, es: seq<Event>)
    requires DistinctIds(log)
    ensures DistinctIds(AppendMany(log, es)) && log <= AppendMany(log, es)
  {
    if es != [] {
      AppendManyExtends(log, es[..|es| - 1]);
    }
  }

  /**
   A retry of a stored event returns its original position and changes nothing; reuse of
   a stored EventId for other content is a conflict and changes nothing. Both hold
   however many appends came in between.
   */
  lemma RetryAndConflict(log: Log, later: seq<Event>, i: nat, e: Event)
    requires DistinctIds(log) && i < |log| && e.id == log[i].id
    ensures var now := AppendMany(log, later);
            AppendLog(now, e) == (now, if e == log[i] then Ok(i) else Err(EventConflict(e.id)))
  {
    AppendManyExtends(log, later);
    AppendKnown(AppendMany(log, later), i, e);
  }

  lemma AppendKnown(log: Log, i: nat, e: Event)
    requires DistinctIds(log) && i < |log| && e.id == log[i].id
    ensures AppendLog(log, e) == (log, if e == log[i] then Ok(i) else Err(EventConflict(e.id)))
  {
    var r := PositionOf(log, e.id);
    assert r.Some? && log[r.value].id == log[i].id;
  }

  /**
   The edge of the key space: sequence 2^63 - 1 is still appended, and from then on the
   gate refuses the store (VerifyAllEvents accepts at most 2^63 - 1 rows).
   */
  lemma LastSequenceIsAcceptedThenBlocksReopen(log: Log, e: Event)
    requires |log| == I64_MAX && PositionOf(log, e.id) == None
    ensures AppendLog(log, e).1 == Ok(I64_MAX) && |AppendLog(log, e).0| > I64_MAX
    ensures forall f: Event :: PositionOf(log + [e], f.id) == None ==> AppendLog(log + [e], f) == (log + [e], Err(BackendFailure))
  {
  }
}

/**
 `PipelineAdapter::dispatch` persists a whole batch before publishing any of it. With the
 checkpointed history this promises a gapless handoff: a client that subscribes, then
 takes a checkpoint, misses no event of any dispatch that succeeds.
 */
module Pipeline {
  import opened Foundation
  import opened EventStore
  import opened Paging
  import opened CanvasReplay

  // ----- dispatch, one call -----

  /** The realtime bus as the trace of what it delivered. */
  class EventBus {
    var published: seq<Event>

    constructor ()
      ensures published == []
    {
      published := [];
    }

    method Publish(e: Event, fault: bool) returns (ok: bool)
      modifies this
      ensures ok == !fault
      ensures published == if ok then old(published) + [e] else old(published)
    {
      ok := !fault;
      if ok {
        published := published + [e];
      }
    }
  }

  /**
   `dispatch`. Faults are the backend's. Success stores the whole batch and publishes it
   in order; a failed append publishes nothing; a failed publication leaves the whole
   batch stored and a front of it published.
   */
  method Dispatch(store: SQLiteEventStore, bus: EventBus, events: seq<Event>, appendFaults: nat -> bool, publishFaults: nat -> bool)
    returns (ok: bool, stored: nat, sent: nat)
    requires store.Valid()
    modifies store, bus
    ensures store.Valid() && sent <= stored <= |events|
    ensures store.Contents() == AppendMany(old(store.Contents()), events[..stored])
    ensures AllStored(store.Contents(), events[..stored])
    ensures bus.published == old(bus.published) + events[..sent]
    ensures ok <==> sent == |events|
    ensures sent > 0 ==> stored == |events|
    ensures stored < |events| ==> appendFaults(stored) || AppendLog(store.Contents(), events[stored]).1.Err?
    ensures stored == |events| && sent < |events| ==> publishFaults(sent)
  {
    stored := PersistAll(store, events, appendFaults);
    if stored < |events| {
      assert events[..0] == [];
      return false, stored, 0;
    }
    sent := PublishAll(bus, events, publishFaults);
    ok := sent == |events|;
  }

  ghost predicate AllStored(log: Log, events: seq<Event>) {
    forall k :: 0 <= k < |events| ==> events[k] in log
  }

  lemma StillStored(log: Log, log': Log, events: seq<Event>)
    requires log <= log' && AllStored(log, events)
    ensures AllStored(log', events)
  {
    forall k | 0 <= k < |events| ensures events[k] in log' {
      var i :| 0 <= i < |log| && log[i] == events[k];
      assert log'[i] == events[k];
    }
  }

  /** The first loop of `dispatch`, up to its first failure. */
  method PersistAll(store: SQLiteEventStore, events: seq<Event>, faults: nat -> bool) returns (stored: nat)
    requires store.Valid()
    modifies store
    ensures store.Valid() && stored <= |events|
    ensures store.Contents() == AppendMany(old(store.Contents()), events[..stored])
    ensures AllStored(store.Contents(), events[..stored])
    ensures stored < |events| ==> faults(stored) || AppendLog(store.Contents(), events[stored]).1.Err?
  {
    stored := 0;
    ghost var start := store.Contents();
    ghost var log := start;
    while stored < |events|
      invariant store.Valid() && stored <= |events|
      invariant log == store.Contents() && Persisted(start, events, stored, log)
    {
      var r := store.Append(events[stored], faults(stored));
      if r.Err? {
        FailedAppend(log, events[stored]);
        return;
      }
      PersistedStep(start, events, stored, log);
      log := store.Contents();
      stored := stored + 1;
    }
  }

  lemma FailedAppend(log: Log, e: Event)
    ensures AppendLog(log, e).1.Err? ==> AppendLog(log, e).0 == log
  {
  }

  /** The log after the first `n` events of a batch went in. */
  ghost predicate Persisted(start: Log, events: seq<Event>, n: nat, log: Log)
    requires n <= |events|
  {
    log == AppendMany(start, events[..n]) && AllStored(log, events[..n])
  }

  lemma PersistedStep(start: Log, events: seq<Event>, n: nat, log: Log)
    requires n < |events| && Persisted(start, events, n, log) && AppendLog(log, events[n]).1.Ok?
    ensures Persisted(start, events, n + 1, AppendLog(log, events[n]).0)
  {
    var log' := AppendLog(log, events[n]).0;
    StoredAfterAppend(log, events[n]);
    StillStored(log, log', events[..n]);
    assert events[..n + 1][..n] == events[..n];
  }

  /** The second loop of `dispatch`, up to its first failure. */
  method PublishAll(bus: EventBus, events: seq<Event>, faults: nat -> bool) returns (sent: nat)
    modifies bus
    ensures sent <= |events| && bus.published == old(bus.published) + events[..sent]
    ensures sent < |events| ==> faults(sent)
  {
    sent := 0;
    while sent < |events|
      invariant sent <= |events| && bus.published == old(bus.published) + events[..sent]
    {
      var delivered := bus.Publish(events[sent], faults(sent));
      if !delivered {
        return;
      }
      assert events[..sent + 1] == events[..sent] + [events[sent]];
      sent := sent + 1;
    }
  }

  lemma StoredAfterAppend(log: Log, e: Event)
    ensures var (log', at) := AppendLog(log, e); log <= log' && (at.Ok? ==> e in log')
  {
    var (log', at) := AppendLog(log, e);
    if at.Ok? {
      assert log'[at.value] == e;
    }
  }

  // ----- Every interleaving of dispatches with one client -----

  datatype Phase = Appending(n: nat) | Publishing(n: nat) | Succeeded | FailedPhase

  datatype DispatchCall = DispatchCall(events: seq<Event>, phase: Phase)

  /** `since` is how much had been published at subscription, `boundary` the checkpoint. */
  datatype Client = Absent | Subscribed(since: nat) | Synced(since: nat, boundary: nat)

  datatype World = World(log: Log, published: seq<Event>, calls: seq<DispatchCall>, client: Client)

  datatype Action =
    | Begin(events: seq<Event>)
    | Advance(call: nat)     // append or publish the next event, or move on
    | Fail(call: nat)        // the backend fails the next append or publication
    | Subscribe
    | TakeCheckpoint

  const START: World := World([], [], [], Absent)

  function SetPhase(w: World, i: nat, phase: Phase): World
    requires i < |w.calls|
  {
    w.(calls := w.calls[i := w.calls[i].(phase := phase)])
  }

  function AdvanceCall(w: World, i: nat): World
    requires i < |w.calls|
  {
    var DispatchCall(events, phase) := w.calls[i];
    match phase
    case Appending(n) =>
      if n >= |events| then SetPhase(w, i, Publishing(0))
      else
        var (log', at) := AppendLog(w.log, events[n]);
        SetPhase(w, i, if at.Ok? then Appending(n + 1) else FailedPhase).(log := log')
    case Publishing(n) =>
      if n >= |events| then SetPhase(w, i, Succeeded)
      else SetPhase(w, i, Publishing(n + 1)).(published := w.published + [events[n]])
    case _ => w
  }

  /** One step of the system; an action that is not possible changes nothing. */
  function Apply(w: World, a: Action): World {
    match a
    case Begin(events) => w.(calls := w.calls + [DispatchCall(events, Appending(0))])
    case Advance(i) => if i < |w.calls| then AdvanceCall(w, i) else w
    case Fail(i) =>
      if i < |w.calls| && (w.calls[i].phase.Appending? || w.calls[i].phase.Publishing?) then SetPhase(w, i, FailedPhase) else w
    case Subscribe => if w.client.Absent? then w.(client := Subscribed(|w.published|)) else w
    case TakeCheckpoint => if w.client.Subscribed? then w.(client := Synced(w.client.since, |w.log|)) else w
  }

  function Run(actions: seq<Action>): World {
    if actions == [] then START else Apply(Run(actions[..|actions| - 1]), actions[|actions| - 1])
  }

  /** The client can see `e`: in the history prefix or in its realtime buffer. */
  ghost predicate Covered(w: World, e: Event)
    requires w.client.Synced? && w.client.boundary <= |w.log| && w.client.since <= |w.published|
  {
    e in w.log[..w.client.boundary] || e in w.published[w.client.since..]
  }

  ghost predicate CallInv(w: World, c: DispatchCall) {
    match c.phase
    case Appending(n) => n <= |c.events| && forall k :: 0 <= k < n ==> c.events[k] in w.log
    case Publishing(n) => n <= |c.events| && forall k :: 0 <= k < |c.events| ==> c.events[k] in w.log
    case Succeeded => forall k :: 0 <= k < |c.events| ==> c.events[k] in w.log
    case FailedPhase => true
  }

  ghost predicate ClientInv(w: World) {
    match w.client
    case Absent => true
    case Subscribed(since) => since <= |w.published|
    case Synced(since, boundary) =>
      && since <= |w.published| && boundary <= |w.log|
      && forall i :: 0 <= i < |w.calls| ==> CoveredCall(w, w.calls[i])
  }

  ghost predicate CoveredCall(w: World, c: DispatchCall)
    requires w.client.Synced? && w.client.boundary <= |w.log| && w.client.since <= |w.published|
  {
    var n := if c.phase.Publishing? then c.phase.n else if c.phase.Succeeded? then |c.events| else 0;
    forall k :: 0 <= k < n && k < |c.events| ==> Covered(w, c.events[k])
  }

  ghost predicate Inv(w: World) {
    && DistinctIds(w.log)
    && (forall k :: 0 <= k < |w.published| ==> w.published[k] in w.log)
    && (forall i :: 0 <= i < |w.calls| ==> CallInv(w, w.calls[i]))
    && ClientInv(w)
  }

  /** One append, of call `i`: every prefix the client or a call relies on is still there. */
  lemma AppendKeepsInv(w: World, i: nat)
    requires Inv(w) && i < |w.calls| && w.calls[i].phase.Appending? && w.calls[i].phase.n < |w.calls[i].events|
    ensures Inv(AdvanceCall(w, i))
  {
    var c, w' := w.calls[i], AdvanceCall(w, i);
    StoredAfterAppend(w.log, c.events[c.phase.n]);
    assert w.log <= w'.log;
    assert forall e :: e in w.log ==> e in w'.log;
    assert w.client.Synced? ==> w'.log[..w.client.boundary] == w.log[..w.client.boundary];
  }

  lemma AdvanceKeepsInv(w: World, i: nat)
    requires Inv(w) && i < |w.calls|
    ensures Inv(AdvanceCall(w, i))
  {
    var c, w' := w.calls[i], AdvanceCall(w, i);
    if c.phase.Appending? && c.phase.n < |c.events| {
      AppendKeepsInv(w, i);
    } else if c.phase.Publishing? && c.phase.n < |c.events| && w.client.Synced? {
      assert w'.published[w.client.since..] == w.published[w.client.since..] + [c.events[c.phase.n]];
    }
  }

  lemma ApplyKeepsInv(w: World, a: Action)
    requires Inv(w)
    ensures Inv(Apply(w, a))
  {
    match a
    case Advance(i) =>
      if i < |w.calls| { AdvanceKeepsInv(w, i); }
    case TakeCheckpoint =>
      if w.client.Subscribed? {
        assert w.log[..|w.log|] == w.log;
      }
    case _ =>
  }

  lemma {:induction false} RunKeepsInv(actions: seq<Action>)
    ensures Inv(Run(actions))
  {
    if actions != [] {
      RunKeepsInv(actions[..|actions| - 1]);
      ApplyKeepsInv(Run(actions[..|actions| - 1]), actions[|actions| - 1]);
    }
  }

  // ----- What the client assembles -----

  ghost predicate Consistent(es: seq<Event>) {
    forall i, j :: 0 <= i < j < |es| && es[i].id == es[j].id ==> es[i] == es[j]
  }

  /** Keeping the first of each EventId loses nothing when equal ids mean equal events. */
  lemma DedupKeepsMembers(es: seq<Event>)
    requires Consistent(es)
    ensures DistinctIds(FirstOccurrences(es))
    ensures forall e :: e in es <==> e in FirstOccurrences(es)
  {
    var idx, out := Ascending(Firsts(es, |es|)), FirstOccurrences(es);
    SeenIffLogged(es, 0);
    forall i, j | 0 <= i < j < |out| ensures out[i].id != out[j].id {
      assert idx[i] < idx[j] && First(es, idx[j]);
    }
    forall e | e in es ensures e in out {
      var k :| 0 <= k < |es| && es[k] == e;
      FirstWitness(es, e.id);
      var f :| First(es, f) && es[f].id == e.id;
      assert f in Firsts(es, |es|) && f in idx;
      var m :| 0 <= m < |idx| && idx[m] == f;
      assert out[m] == es[f] == e;
    }
  }

  /** The realtime events delivered since subscription that the subscription's filter lets through. */
  ghost function Buffer(published: seq<Event>, q: EventQuery): seq<Event> {
    if published == [] then [] else
      var front, e := Buffer(published[..|published| - 1], q), published[|published| - 1];
      if Matches(q, e) then front + [e] else front
  }

  lemma {:induction false} BufferMembers(published: seq<Event>, q: EventQuery)
    ensures forall e :: e in Buffer(published, q) <==> e in published && Matches(q, e)
  {
    if published != [] {
      BufferMembers(published[..|published| - 1], q);
    }
  }

  lemma SelectionMembers(log: Log, q: EventQuery, hi: nat)
    requires hi <= |log|
    ensures forall e :: e in Selection(log, q, hi) <==> e in log[..hi] && Matches(q, e)
  {
    var hits := Hits(log, q, 0, hi);
    forall e | e in log[..hi] && Matches(q, e) ensures e in Selection(log, q, hi) {
      var i :| 0 <= i < hi && log[i] == e;
      assert Keeps(q, log, i) && i in MatchSet(log, q, 0, hi) && i in hits;
      var j :| 0 <= j < |hits| && hits[j] == i;
      assert Selection(log, q, hi)[j] == e;
    }
    forall e | e in Selection(log, q, hi) ensures e in log[..hi] && Matches(q, e) {
      var j :| 0 <= j < |hits| && log[hits[j]] == e;
      assert log[..hi][hits[j]] == e;
    }
  }

  /** History up to the checkpoint, then the buffer, each EventId once. */
  ghost function View(w: World, q: EventQuery): seq<Event>
    requires Inv(w) && w.client.Synced?
  {
    FirstOccurrences(Selection(w.log, q, w.client.boundary) + Buffer(w.published[w.client.since..], q))
  }

  lemma ViewMembers(w: World, q: EventQuery)
    requires Inv(w) && w.client.Synced?
    ensures DistinctIds(View(w, q))
    ensures forall e :: e in View(w, q) <==> Covered(w, e) && Matches(q, e)
    ensures forall e :: e in View(w, q) ==> e in w.log
  {
    var history, buffer := Selection(w.log, q, w.client.boundary), Buffer(w.published[w.client.since..], q);
    SelectionMembers(w.log, q, w.client.boundary);
    BufferMembers(w.published[w.client.since..], q);
    var all := history + buffer;
    forall e | e in all ensures e in w.log { }
    forall i, j | 0 <= i < j < |all| && all[i].id == all[j].id ensures all[i] == all[j] {
      assert all[i] in all && all[j] in all;
      var x :| 0 <= x < |w.log| && w.log[x] == all[i];
      var y :| 0 <= y < |w.log| && w.log[y] == all[j];
    }
    DedupKeepsMembers(all);
  }

  /**
   Gapless handoff, over every run. Whatever has been published is stored. Once the client
   has subscribed and then taken its checkpoint, its view holds each EventId once, only
   stored events, and every event it asks for of every dispatch that has succeeded.
   */
  lemma GaplessHandoff(actions: seq<Action>, q: EventQuery)
    ensures var w := Run(actions);
            && (forall k :: 0 <= k < |w.published| ==> w.published[k] in w.log)
            && (w.client.Synced? ==>
                  && Inv(w)
                  && DistinctIds(View(w, q))
                  && (forall e :: e in View(w, q) ==> e in w.log && Matches(q, e))
                  && (forall i, e ::
                        0 <= i < |w.calls| && w.calls[i].phase.Succeeded? && e in w.calls[i].events && Matches(q, e)
                        ==> e in View(w, q)))
  {
    RunKeepsInv(actions);
    var w := Run(actions);
    if w.client.Synced? {
      ViewMembers(w, q);
      forall i, e | 0 <= i < |w.calls| && w.calls[i].phase.Succeeded? && e in w.calls[i].events
        ensures Covered(w, e)
      {
        assert CoveredCall(w, w.calls[i]);
      }
    }
  }

  /**
   The exact extent of the promise: an event stored after the checkpoint is in the view if
   and only if it has been published since the subscription.
   */
  lemma LateEventSeenIffPublished(actions: seq<Action>, q: EventQuery, i: nat)
    requires var w := Run(actions); w.client.Synced? && w.client.boundary <= i < |w.log| && Matches(q, w.log[i])
    ensures var w := Run(actions);
            Inv(w) && (w.log[i] in View(w, q) <==> w.log[i] in w.published[w.client.since..])
  {
    RunKeepsInv(actions);
    var w := Run(actions);
    ViewMembers(w, q);
    assert forall j :: 0 <= j < w.client.boundary ==> w.log[j].id != w.log[i].id;
  }

  lemma RunSnoc(actions: seq<Action>, a: Action)
    ensures Run(actions + [a]) == Apply(Run(actions), a)
  {
    assert (actions + [a])[..|actions|] == actions;
  }

  /** A dispatch whose publication fails leaves a stored event the client never sees. */
  lemma FailedDispatchLeavesAGap(e: Event, q: EventQuery)
    requires Matches(q, e)
    ensures exists actions ::
              var w := Run(actions);
              && w.calls == [DispatchCall([e], FailedPhase)] && w.log == [e]
              && w.client.Synced? && Inv(w) && e !in View(w, q)
  {
    var actions: seq<Action> := [];
    RunSnoc(actions, Subscribe);
    actions := actions + [Subscribe];
    RunSnoc(actions, TakeCheckpoint);
    actions := actions + [TakeCheckpoint];
    RunSnoc(actions, Begin([e]));
    actions := actions + [Begin([e])];
    assert Run(actions) == World([], [], [DispatchCall([e], Appending(0))], Synced(0, 0));
    RunSnoc(actions, Advance(0));
    actions := actions + [Advance(0)];
    assert [] + [e] == [e];
    assert Run(actions) == World([e], [], [DispatchCall([e], Appending(1))], Synced(0, 0));
    RunSnoc(actions, Advance(0));
    actions := actions + [Advance(0)];
    RunSnoc(actions, Fail(0));
    actions := actions + [Fail(0)];
    var w := Run(actions);
    assert w == World([e], [], [DispatchCall([e], FailedPhase)], Synced(0, 0));
    RunKeepsInv(actions);
    ViewMembers(w, q);
  }
}

/**
 The handoff end to end: a client subscribes, asks for the first page of a Canvas's history,
 follows its continuations while dispatches go on, and merges what it read with what its
 subscription delivered.
 */
module Handoff {
  import opened Foundation
  import opened EventStore
  import opened Paging
  import opened CanvasReplay
  import opened CanvasHistory
  import opened Pipeline

  /** The events of one Canvas, as the client filters its subscription. */
  function TargetQuery(session: SessionId, decode: Decoder, canvas: CanvasId): EventQuery {
    EventQuery(Some(session), None, CANVAS_KINDS, (e: Event) => About(decode, canvas, e), 1, None, None)
  }

  lemma {:induction false} RunExtends(actions: seq<Action>, n: nat)
    requires n <= |actions|
    ensures Run(actions[..n]).log <= Run(actions).log
    ensures Run(actions[..n]).client.Synced? ==> Run(actions).client == Run(actions[..n]).client
    decreases |actions|
  {
    if n == |actions| {
      assert actions[..n] == actions;
    } else {
      var k := |actions| - 1;
      RunExtends(actions[..k], n);
      assert actions[..k][..n] == actions[..n];
      StepExtends(Run(actions[..k]), actions[k]);
    }
  }

  lemma StepExtends(w: World, a: Action)
    ensures w.log <= Apply(w, a).log && (w.client.Synced? ==> Apply(w, a).client == w.client)
  {
    if a.Advance? && a.call < |w.calls| && w.calls[a.call].phase.Appending? && w.calls[a.call].phase.n < |w.calls[a.call].events| {
      StoredAfterAppend(w.log, w.calls[a.call].events[w.calls[a.call].phase.n]);
    }
  }

  /** The moments of a run at which the pages are queried: in order, after the checkpoint. */
  ghost predicate PageTimes(actions: seq<Action>, times: seq<nat>) {
    && (forall i :: 0 <= i < |times| ==> times[i] <= |actions| && Run(actions[..times[i]]).client.Synced?)
    && (forall i, j :: 0 <= i <= j < |times| ==> times[i] <= times[j])
  }

  ghost function LogsAt(actions: seq<Action>, times: seq<nat>): seq<Log>
    requires PageTimes(actions, times)
  {
    seq(|times|, i requires 0 <= i < |times| => Run(actions[..times[i]]).log)
  }

  /** Every page sees an extension of the prefix the checkpoint fixed, and of what the pages before it saw. */
  lemma PagesSeeGrowth(actions: seq<Action>, times: seq<nat>)
    requires PageTimes(actions, times) && Run(actions).client.Synced?
    ensures Inv(Run(actions))
    ensures var w, logs := Run(actions), LogsAt(actions, times);
            Growing(logs) && forall i :: 0 <= i < |logs| ==> w.log[..w.client.boundary] <= logs[i]
  {
    var w, logs := Run(actions), LogsAt(actions, times);
    RunKeepsInv(actions);
    forall i, j | 0 <= i <= j < |logs| ensures logs[i] <= logs[j] {
      RunExtends(actions[..times[j]], times[i]);
      assert actions[..times[j]][..times[i]] == actions[..times[i]];
    }
    forall i | 0 <= i < |logs| ensures w.log[..w.client.boundary] <= logs[i] {
      RunExtends(actions, times[i]);
      RunKeepsInv(actions[..times[i]]);
    }
  }

  /** The Canvas's events before `b`, as the history lists them, are the selection of the client's filter. */
  lemma TargetsAreSelected(log: Log, session: SessionId, decode: Decoder, canvas: CanvasId, b: nat)
    requires b <= |log|
    ensures Within(Ascending(TargetsBefore(log[..b], session, decode, canvas, b)), log[..b])
    ensures Pick(log[..b], Ascending(TargetsBefore(log[..b], session, decode, canvas, b))) ==
            Selection(log, TargetQuery(session, decode, canvas), b)
  {
    var q := TargetQuery(session, decode, canvas);
    assert CANVAS_KINDS != [];
    assert forall i :: 0 <= i < b ==> log[..b][i] == log[i];
    assert MatchSet(log, q, 0, b) == TargetsBefore(log[..b], session, decode, canvas, b);
    var idx := Hits(log, q, 0, b);
    forall j | 0 <= j < |idx| ensures 0 <= idx[j] < b { }
  }

  /** What the client holds: the pages it read, then its buffer, each EventId once. */
  ghost function Held(w: World, events: seq<Event>, q: EventQuery): seq<Event>
    requires Inv(w) && w.client.Synced?
  {
    FirstOccurrences(events + Buffer(w.published[w.client.since..], q))
  }

  /** The stored Canvas events of the session before the client's checkpoint. */
  ghost function Candidates(actions: seq<Action>, session: SessionId): set<int>
    requires Run(actions).client.Synced?
  {
    RunKeepsInv(actions);
    var w := Run(actions);
    CandidatesBefore(w.log[..w.client.boundary], session, w.client.boundary)
  }

  /** A complete replay under the client's checkpoint holds the history side of its view. */
  lemma ReplayIsSelection(
    actions: seq<Action>, times: seq<nat>, decode: Decoder, canvas: CanvasId, fits: HistoryPage -> bool, id: Identity,
    session: SessionId, limit: nat)
    requires PageTimes(actions, times) && limit > 0 && Run(actions).client.Synced? && Run(actions).client.boundary <= I64_MAX
    requires |times| >= PagesFor(|Candidates(actions, session)|, limit)
    ensures Inv(Run(actions))
    ensures var w := Run(actions);
            var b := w.client.boundary;
            var replay := FollowHistory(decode, canvas, fits, id, LogsAt(actions, times), CanvasEventQuery(session, Token(id, b), None, limit));
            replay.Broken? || (replay.complete && replay.events == Selection(w.log, TargetQuery(session, decode, canvas), b))
  {
    var w := Run(actions);
    var b := w.client.boundary;
    PagesSeeGrowth(actions, times);
    HistoryIsComplete(decode, canvas, fits, id, w.log[..b], LogsAt(actions, times), session, b, limit);
    TargetsAreSelected(w.log, session, decode, canvas, b);
  }

  /**
   The handoff, end to end, over every interleaving of dispatches with one client. Unless
   its replay breaks (HistoryIsComplete says exactly when), what the client holds has each
   EventId once, only stored events of the Canvas, and every event of the Canvas of every
   dispatch that has succeeded.
   */
  lemma EndToEnd(
    actions: seq<Action>, times: seq<nat>, decode: Decoder, canvas: CanvasId, fits: HistoryPage -> bool, id: Identity,
    session: SessionId, limit: nat)
    requires PageTimes(actions, times) && limit > 0 && Run(actions).client.Synced? && Run(actions).client.boundary <= I64_MAX
    requires |times| >= PagesFor(|Candidates(actions, session)|, limit)
    ensures Inv(Run(actions))
    ensures var w := Run(actions);
            var q, at := TargetQuery(session, decode, canvas), Token(id, w.client.boundary);
            var replay := FollowHistory(decode, canvas, fits, id, LogsAt(actions, times), CanvasEventQuery(session, at, None, limit));
            replay.Assembled? ==>
              && replay.complete
              && DistinctIds(Held(w, replay.events, q))
              && (forall e :: e in Held(w, replay.events, q) ==> e in w.log && Matches(q, e))
              && (forall i, e ::
                    0 <= i < |w.calls| && w.calls[i].phase.Succeeded? && e in w.calls[i].events && Matches(q, e)
                    ==> e in Held(w, replay.events, q))
  {
    ReplayIsSelection(actions, times, decode, canvas, fits, id, session, limit);
    GaplessHandoff(actions, TargetQuery(session, decode, canvas));
  }
}

/**
 The bounded command queue in front of the EventStore, its single worker, and shutdown.
 Clients, closers and the worker interleave freely; a client or a closer may be cancelled
 at any point. The worker does not panic.
 */
module EventWorker {
  import opened Foundation
  import opened EventStore

  type CallId = nat

  datatype Command =
    | Capture
    | Append(event: Event)
    | Get(id: EventId)
    | Query(query: EventQuery)

  datatype Reply =
    | Checkpoint(token: Token)
    | Appended(stored: StoredEvent)
    | Found(row: Option<StoredEvent>)
    | Page(page: EventPage)
    | Error(error: StorageError)

  datatype Item = Request(call: CallId, command: Command) | Shutdown

  /** One executed command; `fault` is a SQLite failure, which rolls back. */
  datatype Executed = Executed(call: CallId, command: Command, fault: bool)

  /** What the worker does with one command, on the log. */
  ghost function Execute(id: Identity, log: Log, c: Command, fault: bool): (Log, Reply) {
    if fault then (log, Error(BackendUnavailable))
    else
      match c
      case Capture => (log, Checkpoint(Token(id, |log|)))
      case Append(e) => AppendReply(id, log, e)
      case Get(eventId) =>
        var at := PositionOf(log, eventId);
        (log, Found(if at.Some? then Some(StoredAt(id, log, at.value)) else None))
      case Query(q) => (log, PageReply(QueryLog(id, log, q)))
  }

  ghost function AppendReply(id: Identity, log: Log, e: Event): (Log, Reply) {
    var (log', at) := AppendLog(log, e);
    (log', if at.Err? then Error(at.error)
           else if at.value < |log'| then Appended(StoredAt(id, log', at.value)) else Error(BackendFailure))
  }

  ghost function PageReply(r: Result<EventPage, StorageError>): Reply {
    if r.Ok? then Page(r.value) else Error(r.error)
  }

  ghost function LogAfter(id: Identity, log: Log, done: seq<Executed>): Log {
    if done == [] then log
    else
      var last := done[|done| - 1];
      Execute(id, LogAfter(id, log, done[..|done| - 1]), last.command, last.fault).0
  }

  /** The sequential specification: the reply of the `i`-th command on what the earlier ones left. */
  ghost function ReplyOf(id: Identity, log: Log, done: seq<Executed>, i: nat): Reply
    requires i < |done|
  {
    Execute(id, LogAfter(id, log, done[..i]), done[i].command, done[i].fault).1
  }

  // ----- The machine -----

  datatype Client =
    | Starting(command: Command)            // before the `closed` flag is read
    | Checked(command: Command)             // before the sender is cloned
    | HasSender(command: Command)           // before `try_send`
    | Waiting
    | Answered(at: nat, reply: Reply)       // `at` is the command's place in the execution order
    | Rejected                              // closed, worker gone, or queue full
    | Lost                                  // the response was lost

  datatype Closer = NoClose | TakeSender | SendShutdown | AwaitReply | CloseDone | CloseGone

  /** `accepted` is everything that ever entered the queue, `executed` what the worker ran and `replies` what it answered. */
  datatype State = State(
    identity: Identity, initial: Log, capacity: nat,
    closed: bool, taken: bool, closer: Closer,
    queue: seq<Item>, alive: bool, log: Log,
    calls: map<CallId, Client>, next: CallId,
    accepted: seq<Item>, executed: seq<Executed>, replies: seq<Reply>)

  ghost predicate Initial(s: State) {
    && !s.closed && !s.taken && s.closer.NoClose? && s.queue == [] && s.alive && s.log == s.initial
    && s.calls == map[] && s.accepted == [] && s.executed == [] && s.replies == []
  }

  datatype Action =
    | Invoke(command: Command)
    | Advance(call: CallId, full: bool)     // the client's next step; `full` when capacity is reserved for a closer
    | Abandon(call: CallId)
    | Lose(call: CallId)
    | Work(fault: bool)
    | Drain                                 // the queue is empty and every sender is gone
    | CloseStart
    | CloseStep
    | CloseAbandon

  function SetCall(s: State, c: CallId, client: Client): State {
    s.(calls := s.calls[c := client])
  }

  function AdvanceClient(s: State, c: CallId, full: bool): State
    requires c in s.calls
  {
    match s.calls[c]
    case Starting(cmd) => SetCall(s, c, if s.closed then Rejected else Checked(cmd))
    case Checked(cmd) => SetCall(s, c, if s.taken then Rejected else HasSender(cmd))
    case HasSender(cmd) =>
      if !s.alive || full || |s.queue| >= s.capacity then SetCall(s, c, Rejected)
      else SetCall(s, c, Waiting).(queue := s.queue + [Request(c, cmd)], accepted := s.accepted + [Request(c, cmd)])
    case _ => s
  }

  ghost function WorkOne(s: State, fault: bool): State
    requires s.alive && s.queue != []
  {
    match s.queue[0]
    case Shutdown => s.(alive := false, queue := [])
    case Request(c, cmd) =>
      var (log, reply) := Execute(s.identity, s.log, cmd, fault);
      s.(log := log, queue := s.queue[1..], executed := s.executed + [Executed(c, cmd, fault)], replies := s.replies + [reply],
         calls := if c in s.calls && s.calls[c].Waiting? then s.calls[c := Answered(|s.executed|, reply)] else s.calls)
  }

  predicate SendersGone(s: State) {
    && s.taken && !s.closer.SendShutdown?
    && forall c :: c in s.calls ==> !s.calls[c].HasSender?
  }

  function CloserStep(s: State): State {
    match s.closer
    case TakeSender => s.(taken := true, closer := SendShutdown)
    case SendShutdown =>
      if !s.alive then s.(closer := CloseGone)
      else if |s.queue| < s.capacity then s.(queue := s.queue + [Shutdown], accepted := s.accepted + [Shutdown], closer := AwaitReply)
      else s
    case AwaitReply => if s.alive then s else s.(closer := CloseDone)
    case _ => s
  }

  /** One step; an action that is not possible changes nothing. */
  ghost function Apply(s: State, a: Action): State {
    match a
    case Invoke(cmd) => s.(calls := s.calls[s.next := Starting(cmd)], next := s.next + 1)
    case Advance(c, full) => if c in s.calls then AdvanceClient(s, c, full) else s
    case Abandon(c) => s.(calls := s.calls - {c})
    case Lose(c) => if c in s.calls && s.calls[c].Waiting? && !s.alive then SetCall(s, c, Lost) else s
    case Work(fault) => if s.alive && s.queue != [] then WorkOne(s, fault) else s
    case Drain => if s.alive && s.queue == [] && SendersGone(s) then s.(alive := false) else s
    case CloseStart => if s.closed then s else s.(closed := true, closer := TakeSender)
    case CloseStep => CloserStep(s)
    case CloseAbandon => if s.closer.NoClose? then s else s.(closer := CloseGone)
  }

  ghost function Run(s: State, actions: seq<Action>): State {
    if actions == [] then s else Apply(Run(s, actions[..|actions| - 1]), actions[|actions| - 1])
  }

  // ----- The invariant -----

  /** What was executed is the front of what was accepted; a live worker has the rest before it, a dead one stopped for a reason. */
  ghost predicate InOrder(executed: seq<Executed>, accepted: seq<Item>, queue: seq<Item>, alive: bool) {
    && |executed| <= |accepted|
    && (forall i :: 0 <= i < |executed| ==> accepted[i] == Request(executed[i].call, executed[i].command))
    && (alive ==> accepted[|executed|..] == queue)
    && (!alive ==> |executed| == |accepted| || accepted[|executed|] == Shutdown)
  }

  ghost predicate Distinct(accepted: seq<Item>, next: CallId) {
    && (forall i :: 0 <= i < |accepted| && accepted[i].Request? ==> accepted[i].call < next)
    && (forall i, j :: 0 <= i < j < |accepted| && accepted[i].Request? && accepted[j].Request? ==>
                         accepted[i].call != accepted[j].call)
  }

  ghost predicate QueueInv(s: State) {
    InOrder(s.executed, s.accepted, s.queue, s.alive) && Distinct(s.accepted, s.next)
  }

  ghost predicate NotAccepted(s: State, c: CallId) {
    forall i :: 0 <= i < |s.accepted| && s.accepted[i].Request? ==> s.accepted[i].call != c
  }

  ghost predicate NotExecuted(s: State, c: CallId) {
    forall i :: 0 <= i < |s.executed| ==> s.executed[i].call != c
  }

  ghost predicate ClientInv(s: State, c: CallId)
    requires c in s.calls && |s.replies| == |s.executed|
  {
    c < s.next && match s.calls[c]
                  case Waiting => NotExecuted(s, c)
                  case Lost => NotExecuted(s, c) && !s.alive
                  case Answered(at, reply) => at < |s.executed| && s.executed[at].call == c && s.replies[at] == reply
                  case _ => NotAccepted(s, c)
  }

  /** Log and replies are those of the sequential specification. */
  ghost predicate Linear(id: Identity, initial: Log, executed: seq<Executed>, replies: seq<Reply>, log: Log) {
    && |replies| == |executed| && log == LogAfter(id, initial, executed)
    && forall i :: 0 <= i < |executed| ==> replies[i] == ReplyOf(id, initial, executed, i)
  }

  ghost predicate ClientsInv(s: State) {
    |s.replies| == |s.executed| && forall c :: c in s.calls ==> ClientInv(s, c)
  }

  ghost predicate Inv(s: State) {
    QueueInv(s) && ClientsInv(s) && Linear(s.identity, s.initial, s.executed, s.replies, s.log)
  }

  lemma LinearSnoc(id: Identity, initial: Log, executed: seq<Executed>, replies: seq<Reply>, log: Log, e: Executed)
    requires Linear(id, initial, executed, replies, log)
    ensures var (log', reply) := Execute(id, log, e.command, e.fault);
            Linear(id, initial, executed + [e], replies + [reply], log')
  {
    var done := executed + [e];
    assert done[..|executed|] == executed;
    forall i | 0 <= i < |executed| ensures ReplyOf(id, initial, done, i) == ReplyOf(id, initial, executed, i) {
      assert done[..i] == executed[..i];
    }
  }

  lemma SetCallKeeps(s: State, c: CallId, client: Client)
    requires ClientsInv(s) && ClientInv(SetCall(s, c, client), c)
    ensures ClientsInv(SetCall(s, c, client))
  {
    var s' := SetCall(s, c, client);
    forall b | b in s'.calls ensures ClientInv(s', b) {
      if b != c { assert ClientInv(s, b); }
    }
  }

  /** Something enters the queue. */
  lemma EnqueueKeepsQueue(s: State, item: Item)
    requires QueueInv(s) && s.alive
    requires item.Request? ==> item.call < s.next && NotAccepted(s, item.call)
    ensures var s' := s.(queue := s.queue + [item], accepted := s.accepted + [item]);
            QueueInv(s')
  {
    var s' := s.(queue := s.queue + [item], accepted := s.accepted + [item]);
    assert s'.accepted[|s.executed|..] == s.accepted[|s.executed|..] + [item];
  }

  lemma SendKeepsClients(s: State, c: CallId, cmd: Command)
    requires ClientsInv(s) && QueueInv(s) && c in s.calls && s.calls[c].HasSender?
    ensures ClientsInv(SetCall(s, c, Waiting).(accepted := s.accepted + [Request(c, cmd)]))
  {
    var s' := SetCall(s, c, Waiting).(accepted := s.accepted + [Request(c, cmd)]);
    forall b | b in s'.calls ensures ClientInv(s', b) {
      assert ClientInv(s, b);
      if b == c {
        forall i | 0 <= i < |s.executed| ensures s.executed[i].call != c {
          assert s.accepted[i].call == s.executed[i].call;
        }
      }
    }
  }

  lemma SendKeepsInv(s: State, c: CallId, cmd: Command)
    requires Inv(s) && s.alive && c in s.calls && s.calls[c] == HasSender(cmd)
    ensures Inv(SetCall(s, c, Waiting).(queue := s.queue + [Request(c, cmd)], accepted := s.accepted + [Request(c, cmd)]))
  {
    assert ClientInv(s, c);
    EnqueueKeepsQueue(s, Request(c, cmd));
    SendKeepsClients(s, c, cmd);
    var moved := SetCall(s, c, Waiting).(accepted := s.accepted + [Request(c, cmd)]);
    SameClients(moved, moved.(queue := s.queue + [Request(c, cmd)]));
  }

  lemma AdvanceKeepsInv(s: State, c: CallId, full: bool)
    requires Inv(s) && c in s.calls
    ensures Inv(AdvanceClient(s, c, full))
  {
    assert ClientInv(s, c);
    var s' := AdvanceClient(s, c, full);
    if s.calls[c].HasSender? && s.alive && !full && |s.queue| < s.capacity {
      SendKeepsInv(s, c, s.calls[c].command);
    } else if s.calls[c].Starting? || s.calls[c].Checked? || s.calls[c].HasSender? {
      SetCallKeeps(s, c, s'.calls[c]);
    }
  }

  /** Only `calls`, `executed`, `replies`, `accepted`, `next` and `alive` matter to the clients. */
  lemma SameClients(s: State, s': State)
    requires ClientsInv(s)
    requires s'.calls == s.calls && s'.executed == s.executed && s'.replies == s.replies && s'.next == s.next
    requires s'.accepted == s.accepted || s'.accepted == s.accepted + [Shutdown]
    requires s'.alive ==> s.alive
    ensures ClientsInv(s')
  {
    forall b | b in s'.calls ensures ClientInv(s', b) {
      assert ClientInv(s, b);
    }
  }

  lemma WorkKeepsQueue(s: State, fault: bool)
    requires QueueInv(s) && s.alive && s.queue != []
    ensures QueueInv(WorkOne(s, fault))
  {
    assert s.accepted[|s.executed|] == s.queue[0];
    assert s.accepted[|s.executed|..][1..] == s.accepted[|s.executed| + 1..];
  }

  lemma WorkKeepsClients(s: State, fault: bool)
    requires QueueInv(s) && ClientsInv(s) && s.alive && s.queue != [] && s.queue[0].Request?
    ensures ClientsInv(WorkOne(s, fault))
  {
    var s' := WorkOne(s, fault);
    assert s.accepted[|s.executed|] == s.queue[0];
    forall b | b in s'.calls ensures ClientInv(s', b) {
      assert ClientInv(s, b);
    }
  }

  lemma WorkKeepsInv(s: State, fault: bool)
    requires Inv(s) && s.alive && s.queue != []
    ensures Inv(WorkOne(s, fault))
  {
    WorkKeepsQueue(s, fault);
    if s.queue[0].Request? {
      WorkKeepsClients(s, fault);
      LinearSnoc(s.identity, s.initial, s.executed, s.replies, s.log, Executed(s.queue[0].call, s.queue[0].command, fault));
    } else {
      SameClients(s, WorkOne(s, fault));
    }
  }

  lemma ShutdownKeepsInv(s: State)
    requires Inv(s) && s.alive
    ensures Inv(s.(queue := s.queue + [Shutdown], accepted := s.accepted + [Shutdown], closer := AwaitReply))
  {
    EnqueueKeepsQueue(s, Shutdown);
    SameClients(s, s.(queue := s.queue + [Shutdown], accepted := s.accepted + [Shutdown], closer := AwaitReply));
  }

  lemma CloserKeepsInv(s: State)
    requires Inv(s)
    ensures Inv(CloserStep(s))
  {
    var s' := CloserStep(s);
    if s.closer.SendShutdown? && s.alive && |s.queue| < s.capacity {
      ShutdownKeepsInv(s);
    } else {
      FlagsKeepInv(s, s.closed, s'.taken, s'.closer);
    }
  }

  lemma DrainKeepsInv(s: State)
    requires Inv(s) && s.alive && s.queue == []
    ensures Inv(s.(alive := false))
  {
    SameClients(s, s.(alive := false));
  }

  lemma FlagsKeepInv(s: State, closed: bool, taken: bool, closer: Closer)
    requires Inv(s)
    ensures Inv(s.(closed := closed, taken := taken, closer := closer))
  {
    SameClients(s, s.(closed := closed, taken := taken, closer := closer));
  }

  lemma ClientKeepsInv(s: State, a: Action)
    requires Inv(s) && (a.Invoke? || a.Abandon? || a.Lose?)
    ensures Inv(Apply(s, a))
  {
    var s' := Apply(s, a);
    forall b | b in s'.calls ensures ClientInv(s', b) {
      assert b in s.calls ==> ClientInv(s, b);
    }
  }

  lemma ApplyKeepsInv(s: State, a: Action)
    requires Inv(s)
    ensures Inv(Apply(s, a))
  {
    match a
    case Advance(c, full) => if c in s.calls { AdvanceKeepsInv(s, c, full); }
    case Work(fault) => if s.alive && s.queue != [] { WorkKeepsInv(s, fault); }
    case Invoke(_) => ClientKeepsInv(s, a);
    case Abandon(_) => ClientKeepsInv(s, a);
    case Lose(_) => ClientKeepsInv(s, a);
    case Drain => if s.alive && s.queue == [] { DrainKeepsInv(s); }
    case CloseStart => FlagsKeepInv(s, true, s.taken, TakeSender);
    case CloseStep => CloserKeepsInv(s);
    case CloseAbandon => FlagsKeepInv(s, s.closed, s.taken, CloseGone);
  }

  /** Nothing executed or accepted is taken back. */
  ghost predicate Extends(s: State, s': State) {
    && s.executed <= s'.executed && s.accepted <= s'.accepted
    && s'.identity == s.identity && s'.initial == s.initial
  }

  lemma CloserExtends(s: State)
    ensures Extends(s, CloserStep(s))
  {
  }

  lemma AdvanceExtends(s: State, c: CallId, full: bool)
    requires c in s.calls
    ensures Extends(s, AdvanceClient(s, c, full))
  {
  }

  lemma WorkExtends(s: State, fault: bool)
    requires s.alive && s.queue != []
    ensures Extends(s, WorkOne(s, fault))
  {
  }

  lemma ApplyExtends(s: State, a: Action)
    ensures Extends(s, Apply(s, a))
  {
    match a
    case Work(fault) => if s.alive && s.queue != [] { WorkExtends(s, fault); }
    case Advance(c, full) => if c in s.calls { AdvanceExtends(s, c, full); }
    case CloseStep => CloserExtends(s);
    case _ =>
  }

  lemma {:induction false} RunKeepsInv(s: State, actions: seq<Action>)
    requires Inv(s)
    ensures Inv(Run(s, actions))
    ensures s.executed <= Run(s, actions).executed && s.accepted <= Run(s, actions).accepted
    ensures Run(s, actions).identity == s.identity && Run(s, actions).initial == s.initial
  {
    if actions != [] {
      var front := actions[..|actions| - 1];
      RunKeepsInv(s, front);
      ApplyKeepsInv(Run(s, front), actions[|actions| - 1]);
      ApplyExtends(Run(s, front), actions[|actions| - 1]);
    }
  }

  // ----- What every run guarantees -----

  /** No Shutdown at or before place `k` of the queue. */
  predicate AheadOfShutdown(accepted: seq<Item>, k: nat) {
    k < |accepted| && forall i :: 0 <= i <= k ==> accepted[i].Request?
  }

  /**
   Shutdown. Whatever the interleaving: the worker executes what entered the queue, in
   queue order and once each, and nothing behind a Shutdown; once it has stopped, it has
   executed everything ahead of one.
   */
  lemma ExecutesWhatIsAheadOfShutdown(s: State, actions: seq<Action>, k: nat)
    requires Initial(s)
    ensures var f := Run(s, actions);
            && |f.executed| <= |f.accepted|
            && (k < |f.executed| ==>
                  && f.accepted[k] == Request(f.executed[k].call, f.executed[k].command)
                  && AheadOfShutdown(f.accepted, k)
                  && forall i :: 0 <= i < k ==> f.executed[i].call != f.executed[k].call)
            && (!f.alive && AheadOfShutdown(f.accepted, k) ==> k < |f.executed|)
  {
    RunKeepsInv(s, actions);
    var f := Run(s, actions);
    if k < |f.executed| {
      forall i | 0 <= i < k ensures f.executed[i].call != f.executed[k].call {
        assert f.accepted[i].call != f.accepted[k].call;
      }
    }
  }

  /** Linearisation: the log, and every reply a client got, are those of running the executed commands one after the other. */
  lemma RepliesAreSequential(s: State, actions: seq<Action>, c: CallId)
    requires Initial(s)
    ensures var f := Run(s, actions);
            && f.log == LogAfter(s.identity, s.initial, f.executed)
            && (c in f.calls && f.calls[c].Answered? ==>
                  var at := f.calls[c].at;
                  at < |f.executed| && f.executed[at].call == c &&
                  f.calls[c].reply == ReplyOf(s.identity, s.initial, f.executed, at))
  {
    RunKeepsInv(s, actions);
    var f := Run(s, actions);
    assert c in f.calls ==> ClientInv(f, c);
  }

  /** Calls not yet made are not yet executed. */
  lemma ExecutedWereMade(s: State, i: nat)
    requires Inv(s) && i < |s.executed|
    ensures s.executed[i].call < s.next
  {
    assert s.accepted[i].call < s.next;
  }

  /** ... in an order that respects time: a call made after another was answered is executed after it. */
  lemma OrderRespectsTime(s: State, early: seq<Action>, late: seq<Action>, a: CallId, b: CallId)
    requires Initial(s)
    requires a in Run(s, early).calls && Run(s, early).calls[a].Answered? && b >= Run(s, early).next
    ensures var m, f := Run(s, early), Run(Run(s, early), late);
            b in f.calls && f.calls[b].Answered? ==> m.calls[a].at < f.calls[b].at
  {
    RunKeepsInv(s, early);
    var m := Run(s, early);
    RunKeepsInv(m, late);
    LaterAnswer(m, Run(m, late), a, b);
  }

  lemma LaterAnswer(m: State, f: State, a: CallId, b: CallId)
    requires Inv(m) && Inv(f) && m.executed <= f.executed && a in m.calls && m.calls[a].Answered? && b >= m.next
    ensures b in f.calls && f.calls[b].Answered? ==> m.calls[a].at < f.calls[b].at
  {
    assert ClientInv(m, a);
    if b in f.calls && f.calls[b].Answered? {
      assert ClientInv(f, b);
      if f.calls[b].at < |m.executed| {
        ExecutedWereMade(m, f.calls[b].at);
      }
    }
  }

  /** The call was refused, or its caller is gone before the queue took it. */
  ghost predicate TurnedAway(s: State, c: CallId) {
    c < s.next && NotAccepted(s, c) && (c in s.calls ==> s.calls[c].Rejected?)
  }

  lemma TurnedAwayAdvance(s: State, c: CallId, d: CallId, full: bool)
    requires TurnedAway(s, c) && d in s.calls
    ensures TurnedAway(AdvanceClient(s, d, full), c)
  {
  }

  lemma TurnedAwayStep(s: State, c: CallId, a: Action)
    requires TurnedAway(s, c)
    ensures TurnedAway(Apply(s, a), c)
  {
    match a
    case Advance(d, full) => if d in s.calls { TurnedAwayAdvance(s, c, d, full); }
    case Work(fault) =>
    case CloseStep =>
    case _ =>
  }

  lemma DeadStep(s: State, a: Action)
    requires !s.alive
    ensures !Apply(s, a).alive && Apply(s, a).executed == s.executed && Apply(s, a).log == s.log
  {
  }

  lemma {:induction false} TurnedAwayForGood(s: State, c: CallId, actions: seq<Action>)
    requires TurnedAway(s, c)
    ensures TurnedAway(Run(s, actions), c)
  {
    if actions != [] {
      TurnedAwayForGood(s, c, actions[..|actions| - 1]);
      TurnedAwayStep(Run(s, actions[..|actions| - 1]), c, actions[|actions| - 1]);
    }
  }

  lemma {:induction false} DeadForGood(s: State, actions: seq<Action>)
    requires !s.alive
    ensures Run(s, actions).executed == s.executed && Run(s, actions).log == s.log && !Run(s, actions).alive
  {
    if actions != [] {
      DeadForGood(s, actions[..|actions| - 1]);
      DeadStep(Run(s, actions[..|actions| - 1]), actions[|actions| - 1]);
    }
  }

  /** A caller told that the queue is full or closed, or that its response was lost, had no effect, then or later. */
  lemma RefusedHadNoEffect(s: State, early: seq<Action>, late: seq<Action>, c: CallId)
    requires Initial(s) && c in Run(s, early).calls
    requires Run(s, early).calls[c].Rejected? || Run(s, early).calls[c].Lost?
    ensures NotExecuted(Run(Run(s, early), late), c)
  {
    RunKeepsInv(s, early);
    var m := Run(s, early);
    assert ClientInv(m, c);
    RunKeepsInv(m, late);
    var f := Run(m, late);
    if m.calls[c].Rejected? {
      TurnedAwayForGood(m, c, late);
      assert forall i :: 0 <= i < |f.executed| ==> f.accepted[i].call == f.executed[i].call;
    } else {
      DeadForGood(m, late);
    }
  }

  // ----- Tokens across a restart -----

  /** The reply hands this cursor or checkpoint to its caller. */
  ghost predicate HandsOut(r: Reply, token: Token) {
    match r
    case Checkpoint(t) => token == t
    case Appended(stored) => token == stored.cursor
    case Found(row) => row.Some? && token == row.value.cursor
    case Page(page) => page.next == Some(token) || exists k :: 0 <= k < |page.events| && token == page.events[k].cursor
    case Error(_) => false
  }

  lemma HandedOutIsOwned(id: Identity, log: Log, c: Command, fault: bool, token: Token)
    requires HandsOut(Execute(id, log, c, fault).1, token)
    ensures token.owner == id
  {
    if c.Query? && !fault {
      TokensAreOwned(id, log, c.query);
    }
  }

  /** No token any reply of one process handed out is accepted by a store of another identity, whatever its log. */
  lemma RestartRefusesTokens(s: State, actions: seq<Action>, c: CallId, token: Token, id: Identity, log: Log, q: EventQuery)
    requires Initial(s) && c in Run(s, actions).calls && Run(s, actions).calls[c].Answered?
    requires HandsOut(Run(s, actions).calls[c].reply, token) && id != s.identity
    requires q.before == Some(token) || q.after == Some(token)
    ensures QueryLog(id, log, q).Err?
    ensures q.limit > 0 && q.before == Some(token) ==> QueryLog(id, log, q) == Err(InvalidCheckpoint)
  {
    RepliesAreSequential(s, actions, c);
    var f := Run(s, actions);
    var at := f.calls[c].at;
    HandedOutIsOwned(s.identity, LogAfter(s.identity, s.initial, f.executed[..at]), f.executed[at].command, f.executed[at].fault, token);
    ForeignTokenRefused(id, log, q, token);
  }

  // ----- That calls are served -----

  lemma RunSnoc(s: State, actions: seq<Action>, a: Action)
    ensures Run(s, actions + [a]) == Apply(Run(s, actions), a)
  {
    assert (actions + [a])[..|actions|] == actions;
  }

  ghost predicate OpenAndIdle(s: State) {
    s.alive && !s.closed && !s.taken && s.queue == [] && s.capacity > 0 && s.next !in s.calls
  }

  lemma RunFour(s: State, a: Action, b: Action, c: Action, d: Action)
    ensures Run(s, [a] + [b] + [c] + [d]) == Apply(Apply(Apply(Apply(s, a), b), c), d)
  {
    assert Run(s, []) == s && [] + [a] == [a];
    RunSnoc(s, [], a);
    RunSnoc(s, [a], b);
    RunSnoc(s, [a] + [b], c);
    RunSnoc(s, [a] + [b] + [c], d);
  }

  lemma SenderCloned(s: State, cmd: Command)
    requires OpenAndIdle(s)
    ensures var go := Advance(s.next, false);
            Apply(Apply(Apply(s, Invoke(cmd)), go), go) == s.(calls := s.calls[s.next := HasSender(cmd)], next := s.next + 1)
  {
    var s2 := Apply(Apply(s, Invoke(cmd)), Advance(s.next, false));
    assert s2 == s.(calls := s.calls[s.next := Checked(cmd)], next := s.next + 1);
  }

  /** The three steps by which a client gets its command into the queue of an open store. */
  lemma CommandQueued(s: State, cmd: Command)
    requires OpenAndIdle(s)
    ensures var c := s.next;
            Run(s, [Invoke(cmd)] + [Advance(c, false)] + [Advance(c, false)] + [Advance(c, false)]) ==
            s.(calls := s.calls[c := Waiting], next := c + 1, queue := [Request(c, cmd)], accepted := s.accepted + [Request(c, cmd)])
  {
    var go := Advance(s.next, false);
    RunFour(s, Invoke(cmd), go, go, go);
    SenderCloned(s, cmd);
    CommandSent(s, s.(calls := s.calls[s.next := HasSender(cmd)], next := s.next + 1), cmd);
  }

  lemma CommandSent(s: State, m: State, cmd: Command)
    requires OpenAndIdle(s) && m == s.(calls := s.calls[s.next := HasSender(cmd)], next := s.next + 1)
    ensures Apply(m, Advance(s.next, false)) ==
            s.(calls := s.calls[s.next := Waiting], next := s.next + 1,
               queue := [Request(s.next, cmd)], accepted := s.accepted + [Request(s.next, cmd)])
  {
    assert m.calls[s.next := Waiting] == s.calls[s.next := Waiting];
    assert s.queue + [Request(s.next, cmd)] == [Request(s.next, cmd)];
  }

  /** A call on an open, idle store is executed and answered. */
  lemma OpenStoreAnswers(s: State, cmd: Command) returns (actions: seq<Action>)
    requires OpenAndIdle(s)
    ensures var f := Run(s, actions);
            && s.next in f.calls && f.calls[s.next] == Answered(|s.executed|, Execute(s.identity, s.log, cmd, false).1)
            && f.log == Execute(s.identity, s.log, cmd, false).0 && f.queue == [] && f.alive
  {
    var go := Advance(s.next, false);
    actions := [Invoke(cmd)] + [go] + [go] + [go];
    CommandQueued(s, cmd);
    RunSnoc(s, actions, Work(false));
    actions := actions + [Work(false)];
  }

  /** A call that finds the flag clear but the sender already taken is refused as well; a second close does nothing. */
  lemma LateCallRefused(s: State, c: CallId, cmd: Command)
    requires s.closed && s.taken && c in s.calls && s.calls[c] == Checked(cmd)
    ensures Apply(s, Advance(c, false)) == s.(calls := s.calls[c := Rejected]) && Apply(s, CloseStart) == s
  {
  }

  /** Without a Shutdown the worker ends exactly when its queue is empty and no sender is left. */
  lemma WorkerOutlivesSenders(s: State)
    requires s.alive
    ensures !Apply(s, Drain).alive <==> s.queue == [] && s.taken && !s.closer.SendShutdown? && forall c :: c in s.calls ==> !s.calls[c].HasSender?
  {
  }

  /** A call that finds the store closed is refused. */
  lemma ClosedStoreRefuses(s: State, cmd: Command)
    requires s.closed && s.next !in s.calls
    ensures Apply(Apply(s, Invoke(cmd)), Advance(s.next, false)) == s.(calls := s.calls[s.next := Rejected], next := s.next + 1)
  {
  }

  lemma ShutdownQueued(s: State)
    requires OpenAndIdle(s)
    ensures Apply(Apply(Apply(s, CloseStart), CloseStep), CloseStep) ==
            s.(closed := true, taken := true, closer := AwaitReply, queue := [Shutdown], accepted := s.accepted + [Shutdown])
  {
    assert Apply(Apply(s, CloseStart), CloseStep) == s.(closed := true, taken := true, closer := SendShutdown);
  }

  lemma StoppedAtShutdown(s: State, c: CallId)
    requires s.alive && s.closer == AwaitReply && s.queue != [] && s.queue[0] == Shutdown && c in s.calls && s.calls[c] == Waiting
    ensures var f := Apply(Apply(Apply(s, Work(false)), CloseStep), Lose(c));
            f == s.(alive := false, queue := [], closer := CloseDone, calls := s.calls[c := Lost])
  {
    assert Apply(Apply(s, Work(false)), CloseStep) == s.(alive := false, queue := [], closer := CloseDone);
  }

  /** Closing an open store ends its worker; a command that entered the queue behind the Shutdown is answered lost. */
  lemma CloseStopsWorker(s: State, c: CallId, cmd: Command) returns (actions: seq<Action>)
    requires OpenAndIdle(s) && s.capacity > 1 && c in s.calls && s.calls[c] == HasSender(cmd)
    ensures var f := Run(s, actions);
            && !f.alive && f.closed && f.closer == CloseDone && f.log == s.log && f.executed == s.executed
            && c in f.calls && f.calls[c] == Lost
  {
    var first := [CloseStart] + [CloseStep] + [CloseStep] + [Advance(c, false)];
    RunFour(s, CloseStart, CloseStep, CloseStep, Advance(c, false));
    ShutdownQueued(s);
    var m := Run(s, first);
    assert m.calls == s.calls[c := Waiting] && m.queue == [Shutdown, Request(c, cmd)];
    StoppedAtShutdown(m, c);
    RunSnoc(s, first, Work(false));
    RunSnoc(s, first + [Work(false)], CloseStep);
    RunSnoc(s, first + [Work(false)] + [CloseStep], Lose(c));
    actions := first + [Work(false)] + [CloseStep] + [Lose(c)];
  }

  lemma KnownPosition(log: Log, i: nat)
    requires DistinctIds(log) && i < |log|
    ensures PositionOf(log, log[i].id) == Some(i)
  {
    var r := PositionOf(log, log[i].id);
    assert r.Some? && log[r.value].id == log[i].id;
  }

  lemma AppendedAt(log: Log, e: Event)
    requires DistinctIds(log) && AppendLog(log, e).1.Ok?
    ensures var (log', at) := AppendLog(log, e); at.value < |log'| && log'[at.value] == e && DistinctIds(log')
  {
  }

  lemma GetAt(id: Identity, log: Log, i: nat, e: Event)
    requires DistinctIds(log) && i < |log| && log[i] == e
    ensures Execute(id, log, Get(e.id), false) == (log, Found(Some(StoredAt(id, log, i))))
  {
    KnownPosition(log, i);
  }

  /** Positions stay: `now` is the log after any appends to `log'`. */
  lemma StillAt(log': Log, later: seq<Event>, i: nat)
    requires DistinctIds(log') && i < |log'|
    ensures var now := AppendMany(log', later); DistinctIds(now) && i < |now| && now[i] == log'[i]
  {
    AppendManyExtends(log', later);
  }

  lemma AppendAnswer(id: Identity, log: Log, e: Event)
    requires DistinctIds(log) && AppendLog(log, e).1.Ok?
    ensures var (log', at) := AppendLog(log, e);
            at.value < |log'| && Execute(id, log, Append(e), false) == (log', Appended(StoredAt(id, log', at.value)))
  {
    AppendedAt(log, e);
  }

  /** What was appended is found, under its cursor, by every later Get. */
  lemma GetFindsAppended(id: Identity, log: Log, e: Event, later: seq<Event>)
    requires DistinctIds(log) && Execute(id, log, Append(e), false).1.Appended?
    ensures var (log', reply) := Execute(id, log, Append(e), false);
            Execute(id, AppendMany(log', later), Get(e.id), false) == (AppendMany(log', later), Found(Some(reply.stored)))
  {
    var (log', at) := AppendLog(log, e);
    AppendAnswer(id, log, e);
    AppendedAt(log, e);
    StillAt(log', later, at.value);
    GetAt(id, AppendMany(log', later), at.value, e);
  }

  // ----- The worker's loop -----

  /** One turn of the worker, against the SQLite table. */
  method ExecuteCommand(store: SQLiteEventStore, c: Command, fault: bool) returns (reply: Reply)
    requires store.Valid()
    modifies store`table
    ensures store.Valid()
    ensures (store.Contents(), reply) == Execute(store.identity, old(store.Contents()), c, fault)
  {
    if fault && !c.Append? {
      return Error(BackendUnavailable);
    }
    match c
    case Capture =>
      var r := store.CaptureCheckpoint();
      reply := Checkpoint(r.value);
    case Append(e) =>
      var r := store.Append(e, fault);
      reply := if r.Ok? then Appended(r.value) else Error(r.error);
    case Get(id) =>
      var r := store.Get(id);
      reply := Found(r);
    case Query(q) =>
      var r := store.Query(q);
      reply := if r.Ok? then Page(r.value) else Error(r.error);
  }

  ghost function Front(queue: seq<Item>, n: nat, faults: nat -> bool): seq<Executed>
    requires n <= |queue| && forall i :: 0 <= i < n ==> queue[i].Request?
  {
    seq(n, i requires 0 <= i < n => Executed(queue[i].call, queue[i].command, faults(i)))
  }

  /**
   `run_worker` on the commands it will receive: it executes them in order, each once, up
   to the first Shutdown or the end; the table and the replies are those of the sequential
   specification.
   */
  method RunWorker(store: SQLiteEventStore, queue: seq<Item>, faults: nat -> bool) returns (replies: seq<Reply>)
    requires store.Valid()
    modifies store`table
    ensures store.Valid()
    ensures |replies| <= |queue| && (forall k :: 0 <= k < |replies| ==> queue[k].Request?)
    ensures |replies| < |queue| ==> queue[|replies|] == Shutdown
    ensures Linear(store.identity, old(store.Contents()), Front(queue, |replies|, faults), replies, store.Contents())
  {
    replies := [];
    var i := 0;
    while i < |queue|
      invariant 0 <= i == |replies| <= |queue| && store.Valid()
      invariant forall k :: 0 <= k < i ==> queue[k].Request?
      invariant Linear(store.identity, old(store.Contents()), Front(queue, i, faults), replies, store.Contents())
    {
      if queue[i].Shutdown? {
        break;
      }
      LinearSnoc(store.identity, old(store.Contents()), Front(queue, i, faults), replies, store.Contents(),
                 Executed(queue[i].call, queue[i].command, faults(i)));
      assert Front(queue, i + 1, faults) == Front(queue, i, faults) + [Executed(queue[i].call, queue[i].command, faults(i))];
      var reply := ExecuteCommand(store, queue[i].command, faults(i));
      replies, i := replies + [reply], i + 1;
    }
  }
}

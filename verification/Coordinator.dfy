/**
 The keyed execution coordinator: a table of weak references to per-scope mutexes, with
 pruning, replacement and cleanup in the destructor of an entry.

 A ticket is one `acquire` or one `key_count` call together with the lease it yields. Each
 step is one operation on the table under its lock, one change of a strong count, or one
 change of an entry's mutex. A destructor is a step of its own, taken by the ticket that
 dropped the last strong reference, and it needs the table lock.
 */
module Coordinator {
  import opened Foundation

  type Scope(==, !new)
  type Ticket = nat
  type Address = nat

  /** `owners` are the strong references; `dropper` runs the destructor once there are none. */
  datatype Entry = Entry(scope: Scope, owners: set<Ticket>, holder: Option<Ticket>, dropper: Option<Ticket>)

  datatype Pc =
    | WantPrune(goal: Option<Scope>)
    | Pruning(goal: Option<Scope>, todo: set<Scope>, temp: Option<Address>)
    | WantEntry(scope: Scope)
    | Waiting(at: Address)
    | Holding(at: Address)
    | Releasing(at: Address)   // the guard is gone, the strong reference is not
    | Dropping(at: Address)    // in the destructor, before its critical section
    | Stuck(at: Address)       // in the destructor while holding the table lock

  /** `entries` are the allocations, `table` the weak references, `lock` who holds the table. */
  datatype State = State(
    entries: map<Address, Entry>, table: map<Scope, Address>, lock: Option<Ticket>, pcs: map<Ticket, Pc>)

  const EMPTY: State := State(map[], map[], None, map[])

  datatype Action =
    | Start(ticket: Ticket, goal: Option<Scope>)
    | BeginPrune(ticket: Ticket)
    | Upgrade(ticket: Ticket, scope: Scope)
    | ReleaseTemp(ticket: Ticket)
    | EndPrune(ticket: Ticket)
    | Enter(ticket: Ticket, address: Address)
    | Grant(ticket: Ticket)
    | Cancel(ticket: Ticket)
    | DropGuard(ticket: Ticket)
    | DropEntry(ticket: Ticket)
    | FinishDrop(ticket: Ticket)

  predicate Live(s: State, a: Address) {
    a in s.entries && s.entries[a].owners != {}
  }

  /** `t` gives up its strong reference to `a` and goes on to `last` or, if others are left, to `rest`. */
  function Unref(s: State, t: Ticket, a: Address, last: Pc, rest: Option<Pc>): State
    requires a in s.entries
  {
    var e := s.entries[a];
    if e.owners - {t} == {} then
      s.(entries := s.entries[a := e.(owners := {}, dropper := Some(t))], pcs := s.pcs[t := last])
    else
      s.(entries := s.entries[a := e.(owners := e.owners - {t})],
         pcs := if rest.Some? then s.pcs[t := rest.value] else s.pcs - {t})
  }

  /** `weak.upgrade().is_some()` for one key: a stale entry is removed on the spot. */
  function UpgradeOne(s: State, t: Ticket, scope: Scope): State
    requires t in s.pcs && s.pcs[t].Pruning?
  {
    var Pruning(goal, todo, temp) := s.pcs[t];
    if temp.Some? || scope !in todo || scope !in s.table then s
    else if Live(s, s.table[scope]) then
      var a := s.table[scope];
      s.(entries := s.entries[a := s.entries[a].(owners := s.entries[a].owners + {t})],
         pcs := s.pcs[t := Pruning(goal, todo - {scope}, Some(a))])
    else
      s.(table := s.table - {scope}, pcs := s.pcs[t := Pruning(goal, todo - {scope}, None)])
  }

  /** The critical section of `acquire`: the live entry of the scope, or a new one. */
  function EnterTable(s: State, t: Ticket, scope: Scope, address: Address): State {
    if scope in s.table && Live(s, s.table[scope]) then
      var a := s.table[scope];
      s.(entries := s.entries[a := s.entries[a].(owners := s.entries[a].owners + {t})], pcs := s.pcs[t := Waiting(a)])
    else if address in s.entries then s   // not a possible address for a new allocation
    else
      s.(entries := s.entries[address := Entry(scope, {t}, None, None)],
         table := s.table[scope := address],
         pcs := s.pcs[t := Waiting(address)])
  }

  /** The destructor's critical section: remove the table's entry if it is this very one. */
  function RunDestructor(s: State, t: Ticket, a: Address): State
    requires a in s.entries
  {
    var scope := s.entries[a].scope;
    s.(entries := s.entries - {a},
       table := if scope in s.table && s.table[scope] == a then s.table - {scope} else s.table,
       pcs := s.pcs - {t})
  }

  function SetHolder(s: State, a: Address, holder: Option<Ticket>, t: Ticket, pc: Pc): State
    requires a in s.entries
  {
    s.(entries := s.entries[a := s.entries[a].(holder := holder)], pcs := s.pcs[t := pc])
  }

  /** One step; an action that is not possible changes nothing. */
  function Apply(s: State, action: Action): State {
    var t := action.ticket;
    if action.Start? then if t in s.pcs then s else s.(pcs := s.pcs[t := WantPrune(action.goal)])
    else if t !in s.pcs then s
    else
      match (action, s.pcs[t])
      case (BeginPrune(_), WantPrune(goal)) =>
        if s.lock.None? then s.(lock := Some(t), pcs := s.pcs[t := Pruning(goal, s.table.Keys, None)]) else s
      case (Upgrade(_, scope), Pruning(_, _, _)) => UpgradeOne(s, t, scope)
      case (ReleaseTemp(_), Pruning(goal, todo, Some(a))) =>
        if a in s.entries then Unref(s, t, a, Stuck(a), Some(Pruning(goal, todo, None))) else s
      case (EndPrune(_), Pruning(goal, todo, None)) =>
        if todo != {} then s
        else s.(lock := None, pcs := if goal.Some? then s.pcs[t := WantEntry(goal.value)] else s.pcs - {t})
      case (Enter(_, address), WantEntry(scope)) => if s.lock.None? then EnterTable(s, t, scope, address) else s
      case (Grant(_), Waiting(a)) =>
        if a in s.entries && s.entries[a].holder.None? then SetHolder(s, a, Some(t), t, Holding(a)) else s
      case (Cancel(_), Waiting(a)) => s.(pcs := s.pcs[t := Releasing(a)])
      case (DropGuard(_), Holding(a)) => if a in s.entries then SetHolder(s, a, None, t, Releasing(a)) else s
      case (DropEntry(_), Releasing(a)) => if a in s.entries then Unref(s, t, a, Dropping(a), None) else s
      case (FinishDrop(_), Dropping(a)) => if s.lock.None? && a in s.entries then RunDestructor(s, t, a) else s
      case _ => s
  }

  function Run(s: State, actions: seq<Action>): State {
    if actions == [] then s else Apply(Run(s, actions[..|actions| - 1]), actions[|actions| - 1])
  }

  // ----- The invariant -----

  /** The entry whose strong reference the pc holds. */
  function Use(pc: Pc): Option<Address> {
    match pc
    case Pruning(_, _, temp) => temp
    case Waiting(a) => Some(a)
    case Holding(a) => Some(a)
    case Releasing(a) => Some(a)
    case _ => None
  }

  /** The entry whose destructor the pc is in. */
  function Destroys(pc: Pc): Option<Address> {
    match pc
    case Dropping(a) => Some(a)
    case Stuck(a) => Some(a)
    case _ => None
  }

  predicate HasTable(pc: Pc) {
    pc.Pruning? || pc.Stuck?
  }

  /** Strong counts, the mutex and the destructor agree with what the ticket is doing. */
  ghost predicate Linked(s: State, a: Address, t: Ticket)
    requires a in s.entries
  {
    var e := s.entries[a];
    && (t in e.owners <==> t in s.pcs && Use(s.pcs[t]) == Some(a))
    && (e.holder == Some(t) <==> t in s.pcs && s.pcs[t] == Holding(a))
    && (e.dropper == Some(t) <==> t in s.pcs && Destroys(s.pcs[t]) == Some(a))
  }

  /** A live entry is the one in the table; one with no owner has somebody to destroy it. */
  ghost predicate EntryInv(s: State, a: Address)
    requires a in s.entries
  {
    var e := s.entries[a];
    && (e.owners == {} <==> e.dropper.Some?)
    && (e.owners != {} ==> e.scope in s.table && s.table[e.scope] == a)
  }

  ghost predicate TicketInv(s: State, t: Ticket)
    requires t in s.pcs
  {
    && (Use(s.pcs[t]).Some? ==> Use(s.pcs[t]).value in s.entries)
    && (Destroys(s.pcs[t]).Some? ==> Destroys(s.pcs[t]).value in s.entries)
    && (HasTable(s.pcs[t]) <==> s.lock == Some(t))
    && (s.pcs[t].Pruning? ==> s.pcs[t].todo <= s.table.Keys)
  }

  ghost predicate TableInv(s: State) {
    && (s.lock.Some? ==> s.lock.value in s.pcs)
    && forall scope :: scope in s.table ==> s.table[scope] in s.entries && s.entries[s.table[scope]].scope == scope
  }

  ghost predicate Inv(s: State) {
    && (forall a, t :: a in s.entries ==> Linked(s, a, t))
    && (forall a :: a in s.entries ==> EntryInv(s, a))
    && (forall t :: t in s.pcs ==> TicketInv(s, t))
    && TableInv(s)
  }

  // Every step but giving up a reference, piece by piece of the invariant.

  predicate Plain(action: Action) {
    !action.ReleaseTemp? && !action.DropEntry?
  }

  /** What the invariant says about the ticket that moves and the entry it is at. */
  ghost predicate Mover(s: State, t: Ticket) {
    t in s.pcs ==>
      && TicketInv(s, t)
      && (Use(s.pcs[t]).Some? ==> Linked(s, Use(s.pcs[t]).value, t) && EntryInv(s, Use(s.pcs[t]).value))
      && (Destroys(s.pcs[t]).Some? ==> Linked(s, Destroys(s.pcs[t]).value, t) && EntryInv(s, Destroys(s.pcs[t]).value))
  }

  lemma MoverOf(s: State, t: Ticket)
    requires Inv(s)
    ensures Mover(s, t)
  {
    if t in s.pcs {
      assert TicketInv(s, t);
    }
  }

  lemma LinkedKept(s: State, action: Action, b: Address, u: Ticket)
    requires Inv(s) && Plain(action) && Mover(s, action.ticket) && b in Apply(s, action).entries
    ensures Linked(Apply(s, action), b, u)
  {
    assert b in s.entries ==> Linked(s, b, u);
    assert u in s.pcs ==> TicketInv(s, u);
  }

  lemma EntryKept(s: State, action: Action, b: Address)
    requires Inv(s) && Plain(action) && Mover(s, action.ticket) && b in Apply(s, action).entries
    ensures EntryInv(Apply(s, action), b)
  {
    assert b in s.entries ==> EntryInv(s, b);
  }

  lemma TicketKept(s: State, action: Action, u: Ticket)
    requires Inv(s) && Plain(action) && Mover(s, action.ticket) && u in Apply(s, action).pcs
    ensures TicketInv(Apply(s, action), u)
  {
    MoverOf(s, u);
    var t := action.ticket;
    assert t in s.pcs && s.pcs[t].Dropping? && u in s.pcs ==> Linked(s, s.pcs[t].at, u);
  }

  lemma TableKept(s: State, action: Action)
    requires Inv(s) && Plain(action) && Mover(s, action.ticket)
    ensures TableInv(Apply(s, action))
  {
    assert s.lock.Some? ==> TicketInv(s, s.lock.value);
  }

  lemma PlainStepKeepsInv(s: State, action: Action)
    requires Inv(s) && Plain(action)
    ensures Inv(Apply(s, action))
  {
    var s' := Apply(s, action);
    MoverOf(s, action.ticket);
    forall b, u | b in s'.entries ensures Linked(s', b, u) {
      LinkedKept(s, action, b, u);
    }
    forall b | b in s'.entries ensures EntryInv(s', b) {
      EntryKept(s, action, b);
    }
    forall u | u in s'.pcs ensures TicketInv(s', u) {
      TicketKept(s, action, u);
    }
    TableKept(s, action);
  }

  /** Giving up a strong reference that is not the last. */
  lemma SharedUnrefKeepsInv(s: State, t: Ticket, a: Address, last: Pc, rest: Option<Pc>)
    requires Inv(s) && t in s.pcs && Use(s.pcs[t]) == Some(a) && s.pcs[t] != Holding(a)
    requires a in s.entries && s.entries[a].owners - {t} != {}
    requires rest.None? ==> !HasTable(s.pcs[t])
    requires rest.Some? ==> s.pcs[t].Pruning? && rest.value == s.pcs[t].(temp := None)
    ensures Inv(Unref(s, t, a, last, rest))
  {
    var s' := Unref(s, t, a, last, rest);
    assert TicketInv(s, t) && EntryInv(s, a) && Linked(s, a, t);
    forall b, u | b in s'.entries ensures Linked(s', b, u) {
      assert Linked(s, b, u);
    }
    forall b | b in s'.entries ensures EntryInv(s', b) {
      assert EntryInv(s, b);
    }
    forall u | u in s'.pcs ensures TicketInv(s', u) {
      assert TicketInv(s, u);
    }
  }

  /** Giving up the last one: the destructor is now this ticket's to run. */
  lemma LastUnrefKeepsInv(s: State, t: Ticket, a: Address, last: Pc, rest: Option<Pc>)
    requires Inv(s) && t in s.pcs && Use(s.pcs[t]) == Some(a) && s.pcs[t] != Holding(a)
    requires a in s.entries && s.entries[a].owners - {t} == {}
    requires last == if HasTable(s.pcs[t]) then Stuck(a) else Dropping(a)
    ensures Inv(Unref(s, t, a, last, rest))
  {
    var s' := Unref(s, t, a, last, rest);
    assert TicketInv(s, t) && EntryInv(s, a) && Linked(s, a, t);
    forall b, u | b in s'.entries ensures Linked(s', b, u) {
      assert Linked(s, b, u);
    }
    forall b | b in s'.entries ensures EntryInv(s', b) {
      assert EntryInv(s, b);
    }
    forall u | u in s'.pcs ensures TicketInv(s', u) {
      assert TicketInv(s, u);
    }
  }

  lemma UnrefKeepsInv(s: State, action: Action)
    requires Inv(s) && (action.ReleaseTemp? || action.DropEntry?)
    ensures Inv(Apply(s, action))
  {
    var t, s' := action.ticket, Apply(s, action);
    if s' != s {
      var pc := s.pcs[t];
      var a := Use(pc).value;
      var last := if pc.Pruning? then Stuck(a) else Dropping(a);
      var rest := if pc.Pruning? then Some(pc.(temp := None)) else None;
      assert s' == Unref(s, t, a, last, rest);
      if s.entries[a].owners - {t} == {} {
        LastUnrefKeepsInv(s, t, a, last, rest);
      } else {
        SharedUnrefKeepsInv(s, t, a, last, rest);
      }
    }
  }

  lemma ApplyKeepsInv(s: State, action: Action)
    requires Inv(s)
    ensures Inv(Apply(s, action))
  {
    if Plain(action) {
      PlainStepKeepsInv(s, action);
    } else {
      UnrefKeepsInv(s, action);
    }
  }

  lemma {:induction false} RunKeepsInv(s: State, actions: seq<Action>)
    requires Inv(s)
    ensures Inv(Run(s, actions))
  {
    if actions != [] {
      RunKeepsInv(s, actions[..|actions| - 1]);
      ApplyKeepsInv(Run(s, actions[..|actions| - 1]), actions[|actions| - 1]);
    }
  }

  // ----- Safety of every run -----

  /** In every run, two tickets that hold a lease on the same scope are the same ticket. */
  lemma MutualExclusion(actions: seq<Action>, t: Ticket, u: Ticket)
    ensures var s := Run(EMPTY, actions);
            t in s.pcs && u in s.pcs && s.pcs[t].Holding? && s.pcs[u].Holding? ==>
              && s.pcs[t].at in s.entries && s.pcs[u].at in s.entries
              && (s.entries[s.pcs[t].at].scope == s.entries[s.pcs[u].at].scope ==> t == u)
  {
    var s := Run(EMPTY, actions);
    RunKeepsInv(EMPTY, actions);
    if t in s.pcs && u in s.pcs && s.pcs[t].Holding? && s.pcs[u].Holding? {
      assert TicketInv(s, t) && TicketInv(s, u);
      var a, b := s.pcs[t].at, s.pcs[u].at;
      assert Linked(s, a, t) && Linked(s, b, u);
      assert EntryInv(s, a) && EntryInv(s, b);
    }
  }

  /** In every run, the live entry of a scope is unique and is the one in the table. */
  lemma LiveEntryIsInTable(actions: seq<Action>, a: Address)
    ensures var s := Run(EMPTY, actions);
            Live(s, a) ==>
              && s.entries[a].scope in s.table && s.table[s.entries[a].scope] == a
              && forall b :: Live(s, b) && s.entries[b].scope == s.entries[a].scope ==> b == a
  {
    var s := Run(EMPTY, actions);
    RunKeepsInv(EMPTY, actions);
    forall b | Live(s, b) ensures s.entries[b].scope in s.table && s.table[s.entries[b].scope] == b {
      assert EntryInv(s, b);
    }
  }

  /** In every run, a destructor, however late, leaves the table entry of every live entry alone. */
  lemma LateDropKeepsReplacement(actions: seq<Action>, t: Ticket, scope: Scope)
    ensures var s, s' := Run(EMPTY, actions), Apply(Run(EMPTY, actions), FinishDrop(t));
            scope in s.table && Live(s, s.table[scope]) ==>
              scope in s'.table && s'.table[scope] == s.table[scope] && Live(s', s.table[scope])
  {
    RunKeepsInv(EMPTY, actions);
    var s := Run(EMPTY, actions);
    if scope in s.table && Live(s, s.table[scope]) {
      LateDropStep(s, t, scope);
    }
  }

  lemma LateDropStep(s: State, t: Ticket, scope: Scope)
    requires Inv(s) && scope in s.table && Live(s, s.table[scope])
    ensures var s' := Apply(s, FinishDrop(t));
            scope in s'.table && s'.table[scope] == s.table[scope] && Live(s', s.table[scope])
  {
    MoverOf(s, t);
  }

  /** No ticket is between giving up an entry and the end of its destructor, nor pruning. */
  predicate Settled(s: State) {
    forall t :: t in s.pcs ==> !(s.pcs[t].Releasing? || s.pcs[t].Dropping? || HasTable(s.pcs[t]))
  }

  ghost predicate InUse(s: State, scope: Scope) {
    exists t :: t in s.pcs && (s.pcs[t].Waiting? || s.pcs[t].Holding?) &&
                s.pcs[t].at in s.entries && s.entries[s.pcs[t].at].scope == scope
  }

  /** In every run, once the drops have settled, the table lists exactly the scopes with a holder or a waiter. */
  lemma SettledTable(actions: seq<Action>, scope: Scope)
    requires Settled(Run(EMPTY, actions))
    ensures scope in Run(EMPTY, actions).table <==> InUse(Run(EMPTY, actions), scope)
  {
    var s := Run(EMPTY, actions);
    RunKeepsInv(EMPTY, actions);
    if scope in s.table {
      var a := s.table[scope];
      assert EntryInv(s, a);
      assert forall u :: s.entries[a].dropper == Some(u) ==> Linked(s, a, u);
      var t := Inhabitant(s.entries[a].owners);
      assert Linked(s, a, t);
    }
    if InUse(s, scope) {
      var t :| t in s.pcs && (s.pcs[t].Waiting? || s.pcs[t].Holding?) &&
               s.pcs[t].at in s.entries && s.entries[s.pcs[t].at].scope == scope;
      assert Linked(s, s.pcs[t].at, t) && EntryInv(s, s.pcs[t].at);
    }
  }

  // ----- Where pruning blocks itself -----

  lemma {:induction false} RunConcat(s: State, a: seq<Action>, b: seq<Action>)
    ensures Run(s, a + b) == Run(Run(s, a), b)
  {
    if b == [] {
      assert a + b == a;
    } else {
      RunConcat(s, a, b[..|b| - 1]);
      assert (a + b)[..|a + b| - 1] == a + b[..|b| - 1];
    }
  }

  lemma RunOne(s: State, a: Action)
    ensures Run(s, [a]) == Apply(s, a)
  {
    assert [a][..0] == [];
  }

  lemma StuckStep(s: State, t: Ticket, action: Action)
    requires Inv(s) && t in s.pcs && s.pcs[t].Stuck?
    ensures var s' := Apply(s, action);
            && t in s'.pcs && s'.pcs[t] == s.pcs[t]
            && s'.table == s.table && s'.entries.Keys == s.entries.Keys
  {
    var u := action.ticket;
    assert TicketInv(s, t);
    assert u in s.pcs ==> TicketInv(s, u);
  }

  /**
   A prune that drops the last reference never returns, and from then on the table never
   changes: no ticket gets a new entry and no destructor finishes.
   */
  lemma {:induction false} StuckForever(s: State, t: Ticket, actions: seq<Action>)
    requires Inv(s) && t in s.pcs && s.pcs[t].Stuck?
    ensures var s' := Run(s, actions);
            && t in s'.pcs && s'.pcs[t] == s.pcs[t]
            && s'.table == s.table && s'.entries.Keys == s.entries.Keys
  {
    if actions != [] {
      var front := actions[..|actions| - 1];
      StuckForever(s, t, front);
      RunKeepsInv(s, front);
      StuckStep(Run(s, front), t, actions[|actions| - 1]);
    }
  }

  predicate NoStart(t: Ticket, actions: seq<Action>) {
    forall i :: 0 <= i < |actions| ==> !(actions[i].Start? && actions[i].ticket == t)
  }

  /** The prune of `t` still has a live entry to touch. */
  ghost predicate AtRisk(s: State, t: Ticket)
    requires t in s.pcs && s.pcs[t].Pruning?
  {
    s.pcs[t].temp.Some? || exists scope :: scope in s.pcs[t].todo && scope in s.table && Live(s, s.table[scope])
  }

  /** `t` is in a prune that touches no live entry, or past it. */
  ghost predicate Spared(s: State, t: Ticket) {
    t in s.pcs ==> !s.pcs[t].Stuck? && !s.pcs[t].WantPrune? && (s.pcs[t].Pruning? ==> !AtRisk(s, t))
  }

  /** While `t` prunes nobody else can bring an entry to life. */
  lemma NobodyRevives(s: State, t: Ticket, action: Action, a: Address)
    requires Inv(s) && s.lock == Some(t) && t in s.pcs && s.pcs[t].Pruning? && action.ticket != t
    ensures var s' := Apply(s, action);
            s'.table == s.table && t in s'.pcs && s'.pcs[t] == s.pcs[t] && (a in s.entries && !Live(s, a) ==> !Live(s', a))
  {
    var u := action.ticket;
    assert u in s.pcs ==> TicketInv(s, u);
  }

  lemma SparedStep(s: State, t: Ticket, action: Action)
    requires Inv(s) && Spared(s, t) && !(action.Start? && action.ticket == t)
    ensures Spared(Apply(s, action), t)
  {
    assert t in s.pcs ==> TicketInv(s, t);
    if t in s.pcs && s.pcs[t].Pruning? && action.ticket != t {
      forall scope | scope in s.pcs[t].todo && scope in s.table ensures !Live(Apply(s, action), s.table[scope]) {
        NobodyRevives(s, t, action, s.table[scope]);
      }
      NobodyRevives(s, t, action, 0);
    }
  }

  lemma {:induction false} SparedForGood(s: State, t: Ticket, actions: seq<Action>)
    requires Inv(s) && Spared(s, t) && NoStart(t, actions)
    ensures Spared(Run(s, actions), t)
  {
    if actions != [] {
      var front := actions[..|actions| - 1];
      SparedForGood(s, t, front);
      RunKeepsInv(s, front);
      SparedStep(Run(s, front), t, actions[|actions| - 1]);
    }
  }

  /** One of the other owners of the entry `t` looks at comes to the point of giving its reference up. */
  lemma ComesToRelease(s: State, t: Ticket, a: Address, u: Ticket) returns (actions: seq<Action>)
    requires Inv(s) && t in s.pcs && s.pcs[t].Pruning? && s.pcs[t].temp == Some(a) && a in s.entries
    requires u in s.entries[a].owners && u != t
    ensures NoStart(t, actions)
    ensures var s' := Run(s, actions);
            && t in s'.pcs && s'.pcs[t] == s.pcs[t] && u in s'.pcs && s'.pcs[u] == Releasing(a)
            && a in s'.entries && s'.entries[a].owners == s.entries[a].owners
  {
    assert Linked(s, a, u) && TicketInv(s, u) && TicketInv(s, t);
    match s.pcs[u] {
      case Waiting(_) =>
        actions := [Cancel(u)];
        RunOne(s, Cancel(u));
      case Holding(_) =>
        actions := [DropGuard(u)];
        RunOne(s, DropGuard(u));
      case _ =>
        actions := [];
    }
  }

  lemma ReleaseStep(s: State, t: Ticket, a: Address, u: Ticket)
    requires u != t && t in s.pcs && a in s.entries && u in s.pcs && s.pcs[u] == Releasing(a) && t in s.entries[a].owners
    ensures var s' := Apply(s, DropEntry(u));
            && t in s'.pcs && s'.pcs[t] == s.pcs[t]
            && a in s'.entries && s'.entries[a].owners == s.entries[a].owners - {u}
  {
    assert t in s.entries[a].owners - {u};
  }

  /** ... and gives it up. */
  lemma OneOwnerLeaves(s: State, t: Ticket, a: Address, u: Ticket) returns (actions: seq<Action>)
    requires Inv(s) && t in s.pcs && s.pcs[t].Pruning? && s.pcs[t].temp == Some(a) && a in s.entries
    requires u in s.entries[a].owners && u != t
    ensures NoStart(t, actions)
    ensures var s' := Run(s, actions);
            && t in s'.pcs && s'.pcs[t] == s.pcs[t]
            && a in s'.entries && s'.entries[a].owners == s.entries[a].owners - {u}
  {
    assert Linked(s, a, t);
    var first := ComesToRelease(s, t, a, u);
    var s1 := Run(s, first);
    ReleaseStep(s1, t, a, u);
    RunOne(s1, DropEntry(u));
    RunConcat(s, first, [DropEntry(u)]);
    actions := first + [DropEntry(u)];
  }

  /** While `t` looks at an entry every other owner may leave; `t` is then the last and blocks itself. */
  lemma {:induction false} TempMayBeLast(s: State, t: Ticket, a: Address) returns (actions: seq<Action>)
    requires Inv(s) && t in s.pcs && s.pcs[t].Pruning? && s.pcs[t].temp == Some(a) && a in s.entries
    ensures NoStart(t, actions)
    ensures var s' := Run(s, actions); t in s'.pcs && s'.pcs[t].Stuck?
    decreases |s.entries[a].owners|
  {
    if s.entries[a].owners - {t} == {} {
      actions := [ReleaseTemp(t)];
      RunOne(s, ReleaseTemp(t));
    } else {
      var u := Inhabitant(s.entries[a].owners - {t});
      var first := OneOwnerLeaves(s, t, a, u);
      RunKeepsInv(s, first);
      var rest := TempMayBeLast(Run(s, first), t, a);
      RunConcat(s, first, rest);
      actions := first + rest;
    }
  }

  /**
   When pruning may deadlock: exactly when it still has a live entry to touch. Then some
   run ends with the prune stuck on the lock it holds; otherwise none does.
   */
  lemma PruneMayDeadlockIff(s: State, t: Ticket)
    requires Inv(s) && t in s.pcs && s.pcs[t].Pruning?
    ensures AtRisk(s, t) <==>
            exists actions :: NoStart(t, actions) && t in Run(s, actions).pcs && Run(s, actions).pcs[t].Stuck?
  {
    if AtRisk(s, t) {
      assert TicketInv(s, t);
      if s.pcs[t].temp.Some? {
        var actions := TempMayBeLast(s, t, s.pcs[t].temp.value);
      } else {
        var scope :| scope in s.pcs[t].todo && scope in s.table && Live(s, s.table[scope]);
        var up := Upgrade(t, scope);
        ApplyKeepsInv(s, up);
        var rest := TempMayBeLast(Apply(s, up), t, s.table[scope]);
        RunOne(s, up);
        RunConcat(s, [up], rest);
        var actions := [up] + rest;
        assert NoStart(t, actions);
      }
    } else {
      assert TicketInv(s, t);
      forall actions | NoStart(t, actions) ensures t in Run(s, actions).pcs ==> !Run(s, actions).pcs[t].Stuck? {
        SparedForGood(s, t, actions);
      }
    }
  }

  lemma RunTwo(s: State, a: Action, b: Action)
    ensures Run(s, [a] + [b]) == Apply(Apply(s, a), b)
  {
    RunOne(s, a);
    RunOne(Apply(s, a), b);
    RunConcat(s, [a], [b]);
  }

  /** One ticket prunes the empty table and then gets the first entry of a scope. */
  lemma FirstAcquire(scope: Scope) returns (actions: seq<Action>)
    ensures Run(EMPTY, actions) ==
            State(map[0 := Entry(scope, {0}, None, None)], map[scope := 0], None, map[0 := Waiting(0)])
  {
    var start, prune, done, enter := Start(0, Some(scope)), BeginPrune(0), EndPrune(0), Enter(0, 0);
    var s2 := FirstPrune(scope);
    FirstEntry(scope);
    RunTwo(EMPTY, start, prune);
    RunTwo(s2, done, enter);
    RunConcat(EMPTY, [start] + [prune], [done] + [enter]);
    actions := [start] + [prune] + ([done] + [enter]);
  }

  lemma FirstEntry(scope: Scope)
    ensures Apply(Apply(State(map[], map[], Some(0), map[0 := Pruning(Some(scope), {}, None)]), EndPrune(0)), Enter(0, 0)) ==
            State(map[0 := Entry(scope, {0}, None, None)], map[scope := 0], None, map[0 := Waiting(0)])
  {
    var s := Apply(State(map[], map[], Some(0), map[0 := Pruning(Some(scope), {}, None)]), EndPrune(0));
    assert s == State(map[], map[], None, map[0 := WantEntry(scope)]);
  }

  lemma FirstPrune(scope: Scope) returns (s: State)
    ensures s == Apply(Apply(EMPTY, Start(0, Some(scope))), BeginPrune(0))
    ensures s == State(map[], map[], Some(0), map[0 := Pruning(Some(scope), {}, None)])
  {
    var s1 := Apply(EMPTY, Start(0, Some(scope)));
    assert s1 == State(map[], map[], None, map[0 := WantPrune(Some(scope))]) && s1.table.Keys == {};
    s := Apply(s1, BeginPrune(0));
  }

  /** The deadlock is reachable: one lease on any scope, given up while one `key_count` looks at it. */
  lemma DeadlockIsReachable(scope: Scope) returns (actions: seq<Action>)
    ensures 1 in Run(EMPTY, actions).pcs && Run(EMPTY, actions).pcs[1].Stuck?
  {
    var first := FirstAcquire(scope);
    var s := Run(EMPTY, first);
    RunTwo(s, Start(1, None), BeginPrune(1));
    RunConcat(EMPTY, first, [Start(1, None)] + [BeginPrune(1)]);
    var front := first + ([Start(1, None)] + [BeginPrune(1)]);
    var s2 := Run(EMPTY, front);
    RunKeepsInv(EMPTY, front);
    assert scope in s2.pcs[1].todo && Live(s2, s2.table[scope]);
    PruneMayDeadlockIff(s2, 1);
    var rest :| NoStart(1, rest) && 1 in Run(s2, rest).pcs && Run(s2, rest).pcs[1].Stuck?;
    RunConcat(EMPTY, front, rest);
    actions := front + rest;
  }
}

/**
 That the coordinator does its work: a lease is granted, handed over and cleaned up, and an
 undisturbed prune removes exactly the stale keys.
 */
module CoordinatorProgress {
  import opened Foundation
  import opened Coordinator

  ghost predicate NoEntry(s: State, scope: Scope) {
    scope in s.table ==> !Live(s, s.table[scope])
  }

  /** A ticket that wants a scope nobody uses enters the table and is granted the lease. */
  lemma LeaseGranted(s: State, t: Ticket, scope: Scope, a: Address)
    requires s.lock.None? && t in s.pcs && s.pcs[t] == WantEntry(scope) && NoEntry(s, scope) && a !in s.entries
    ensures Run(s, [Enter(t, a)] + [Grant(t)]) ==
            s.(entries := s.entries[a := Entry(scope, {t}, Some(t), None)], table := s.table[scope := a], pcs := s.pcs[t := Holding(a)])
  {
    RunTwo(s, Enter(t, a), Grant(t));
    EnteredThenGranted(s, t, scope, a);
  }

  lemma EnteredThenGranted(s: State, t: Ticket, scope: Scope, a: Address)
    requires s.lock.None? && t in s.pcs && s.pcs[t] == WantEntry(scope) && NoEntry(s, scope) && a !in s.entries
    ensures Apply(Apply(s, Enter(t, a)), Grant(t)) ==
            s.(entries := s.entries[a := Entry(scope, {t}, Some(t), None)], table := s.table[scope := a], pcs := s.pcs[t := Holding(a)])
  {
    Entered(s, t, scope, a);
    var s1 := Apply(s, Enter(t, a));
    assert s1.entries[a := Entry(scope, {t}, Some(t), None)] == s.entries[a := Entry(scope, {t}, Some(t), None)];
    assert s1.pcs[t := Holding(a)] == s.pcs[t := Holding(a)];
  }

  lemma Entered(s: State, t: Ticket, scope: Scope, a: Address)
    requires s.lock.None? && t in s.pcs && s.pcs[t] == WantEntry(scope) && NoEntry(s, scope) && a !in s.entries
    ensures Apply(s, Enter(t, a)) ==
            s.(entries := s.entries[a := Entry(scope, {t}, None, None)], table := s.table[scope := a], pcs := s.pcs[t := Waiting(a)])
  {
  }

  /** The only holder of an entry gives its lease up: entry, table key and ticket are gone, the rest is as it was. */
  lemma LeaseCleanedUp(s: State, t: Ticket, a: Address)
    requires s.lock.None? && t in s.pcs && s.pcs[t] == Holding(a) && a in s.entries && s.entries[a].owners == {t}
    requires s.entries[a].scope in s.table && s.table[s.entries[a].scope] == a
    ensures Run(s, [DropGuard(t)] + [DropEntry(t)] + [FinishDrop(t)]) ==
            s.(entries := s.entries - {a}, table := s.table - {s.entries[a].scope}, pcs := s.pcs - {t})
  {
    RunTwo(s, DropGuard(t), DropEntry(t));
    var s2 := Run(s, [DropGuard(t)] + [DropEntry(t)]);
    RunOne(s2, FinishDrop(t));
    RunConcat(s, [DropGuard(t)] + [DropEntry(t)], [FinishDrop(t)]);
    DroppedLast(s, t, a);
    var s3 := Apply(s2, FinishDrop(t));
    assert s3.entries == s.entries - {a} && s3.pcs == s.pcs - {t};
  }

  lemma DroppedLast(s: State, t: Ticket, a: Address)
    requires t in s.pcs && s.pcs[t] == Holding(a) && a in s.entries && s.entries[a].owners == {t}
    ensures Apply(Apply(s, DropGuard(t)), DropEntry(t)) ==
            s.(entries := s.entries[a := Entry(s.entries[a].scope, {}, None, Some(t))], pcs := s.pcs[t := Dropping(a)])
  {
    var s1 := Apply(s, DropGuard(t));
    assert s1 == s.(entries := s.entries[a := s.entries[a].(holder := None)], pcs := s.pcs[t := Releasing(a)]);
  }

  /** A waiter gets the lease once the holder has let it go, on the same entry. */
  lemma LeaseHandedOver(s: State, t: Ticket, u: Ticket, a: Address)
    requires t != u && a in s.entries && t in s.pcs && u in s.pcs && s.pcs[t] == Holding(a) && s.pcs[u] == Waiting(a)
    ensures Run(s, [DropGuard(t)] + [Grant(u)]) ==
            s.(entries := s.entries[a := s.entries[a].(holder := Some(u))], pcs := s.pcs[t := Releasing(a)][u := Holding(a)])
  {
    RunTwo(s, DropGuard(t), Grant(u));
    DroppedThenGranted(s, t, u, a);
  }

  lemma DroppedThenGranted(s: State, t: Ticket, u: Ticket, a: Address)
    requires t != u && a in s.entries && t in s.pcs && u in s.pcs && s.pcs[t] == Holding(a) && s.pcs[u] == Waiting(a)
    ensures Apply(Apply(s, DropGuard(t)), Grant(u)) ==
            s.(entries := s.entries[a := s.entries[a].(holder := Some(u))], pcs := s.pcs[t := Releasing(a)][u := Holding(a)])
  {
    assert Apply(s, DropGuard(t)) == s.(entries := s.entries[a := s.entries[a].(holder := None)], pcs := s.pcs[t := Releasing(a)]);
  }

  /** A waiter that is cancelled gives its reference up and leaves the others alone. */
  lemma CancelledWaiterLeaves(s: State, t: Ticket, a: Address)
    requires a in s.entries && t in s.pcs && s.pcs[t] == Waiting(a) && s.entries[a].owners - {t} != {}
    ensures Run(s, [Cancel(t)] + [DropEntry(t)]) ==
            s.(entries := s.entries[a := s.entries[a].(owners := s.entries[a].owners - {t})], pcs := s.pcs - {t})
  {
    RunTwo(s, Cancel(t), DropEntry(t));
    CancelledThenDropped(s, t, a);
  }

  lemma CancelledThenDropped(s: State, t: Ticket, a: Address)
    requires a in s.entries && t in s.pcs && s.pcs[t] == Waiting(a) && s.entries[a].owners - {t} != {}
    ensures Apply(Apply(s, Cancel(t)), DropEntry(t)) ==
            s.(entries := s.entries[a := s.entries[a].(owners := s.entries[a].owners - {t})], pcs := s.pcs - {t})
  {
    assert s.pcs[t := Releasing(a)] - {t} == s.pcs - {t};
  }

  // ----- An undisturbed prune -----

  /** The table without the stale keys among `todo`. */
  ghost function Pruned(s: State, todo: set<Scope>): map<Scope, Address> {
    map scope | scope in s.table && (scope !in todo || Live(s, s.table[scope])) :: s.table[scope]
  }

  /** Looking at a live key: the reference is taken and given back. */
  lemma LiveKeyKept(s: State, t: Ticket, scope: Scope)
    requires t in s.pcs && s.pcs[t].Pruning? && s.pcs[t].temp == None && scope in s.pcs[t].todo && scope in s.table
    requires Live(s, s.table[scope]) && t !in s.entries[s.table[scope]].owners
    ensures Run(s, [Upgrade(t, scope)] + [ReleaseTemp(t)]) ==
            s.(pcs := s.pcs[t := Pruning(s.pcs[t].goal, s.pcs[t].todo - {scope}, None)])
  {
    var a, goal, rest := s.table[scope], s.pcs[t].goal, s.pcs[t].todo - {scope};
    RunTwo(s, Upgrade(t, scope), ReleaseTemp(t));
    var s1 := Apply(s, Upgrade(t, scope));
    assert s1 == s.(entries := s.entries[a := s.entries[a].(owners := s.entries[a].owners + {t})],
                    pcs := s.pcs[t := Pruning(goal, rest, Some(a))]);
    assert s.entries[a].owners + {t} - {t} == s.entries[a].owners;
    var s2 := Apply(s1, ReleaseTemp(t));
    assert s2.entries == s.entries && s2.pcs == s.pcs[t := Pruning(goal, rest, None)];
  }

  /** Looking at a stale key removes it. */
  lemma StaleKeyRemoved(s: State, t: Ticket, scope: Scope)
    requires t in s.pcs && s.pcs[t].Pruning? && s.pcs[t].temp == None && scope in s.pcs[t].todo && scope in s.table
    requires !Live(s, s.table[scope])
    ensures Run(s, [Upgrade(t, scope)]) ==
            s.(table := s.table - {scope}, pcs := s.pcs[t := Pruning(s.pcs[t].goal, s.pcs[t].todo - {scope}, None)])
  {
    RunOne(s, Upgrade(t, scope));
  }

  /** Before the prune looks at its next keys: they are in the table, and the ticket owns nothing. */
  ghost predicate Looking(s: State, t: Ticket) {
    && t in s.pcs && s.pcs[t].Pruning? && s.pcs[t].temp == None && s.pcs[t].todo <= s.table.Keys
    && forall a :: a in s.entries ==> t !in s.entries[a].owners
  }

  /** One key of an undisturbed prune. */
  lemma KeyPruned(s: State, t: Ticket, scope: Scope) returns (actions: seq<Action>)
    requires Looking(s, t) && scope in s.pcs[t].todo
    ensures Run(s, actions) ==
            s.(table := if Live(s, s.table[scope]) then s.table else s.table - {scope},
               pcs := s.pcs[t := Pruning(s.pcs[t].goal, s.pcs[t].todo - {scope}, None)])
  {
    if Live(s, s.table[scope]) {
      LiveKeyKept(s, t, scope);
      actions := [Upgrade(t, scope)] + [ReleaseTemp(t)];
    } else {
      StaleKeyRemoved(s, t, scope);
      actions := [Upgrade(t, scope)];
    }
  }

  /** An undisturbed prune ends, having removed exactly the stale keys. */
  lemma {:induction false} PruneRemovesStale(s: State, t: Ticket) returns (actions: seq<Action>)
    requires Looking(s, t)
    ensures Run(s, actions) == s.(table := Pruned(s, s.pcs[t].todo), pcs := s.pcs[t := Pruning(s.pcs[t].goal, {}, None)])
    decreases |s.pcs[t].todo|
  {
    var todo := s.pcs[t].todo;
    if todo == {} {
      actions := [];
      assert Pruned(s, todo) == s.table && s.pcs[t := Pruning(s.pcs[t].goal, {}, None)] == s.pcs;
    } else {
      var scope := Inhabitant(todo);
      var first := KeyPruned(s, t, scope);
      var s1 := Run(s, first);
      var rest := PruneRemovesStale(s1, t);
      RunConcat(s, first, rest);
      actions := first + rest;
      assert Pruned(s1, todo - {scope}) == Pruned(s, todo);
      assert s1.pcs[t := Pruning(s.pcs[t].goal, {}, None)] == s.pcs[t := Pruning(s.pcs[t].goal, {}, None)];
    }
  }

  /** Every prune of every run starts in such a state. */
  lemma PruneStarts(s: State, t: Ticket)
    requires Inv(s) && t in s.pcs && s.pcs[t].WantPrune? && s.lock.None?
    ensures Looking(Apply(s, BeginPrune(t)), t)
    ensures Apply(s, BeginPrune(t)).pcs[t].todo == s.table.Keys
  {
    forall a | a in s.entries ensures t !in s.entries[a].owners {
      assert Linked(s, a, t);
    }
  }
}

/**
 Who is told that an asset was inserted: in every quiet run exactly one caller, unless the
 one whose publish command the worker took had been cancelled by then.
 */
module AssetReplies {
  import opened Foundation
  import opened AssetStore
  import opened AssetProtocol
  import opened AssetSafety
  import opened AssetReopen
  import opened AssetLateMove

  /** How many callers were told that `id` was inserted. */
  function Told(replies: seq<Return>, id: AssetId): nat {
    if replies == [] then 0
    else
      var r := replies[|replies| - 1];
      Told(replies[..|replies| - 1], id) + if r.Inserted? && r.desc.id == id then 1 else 0
  }

  lemma ToldSnoc(replies: seq<Return>, r: Return, id: AssetId)
    ensures Told(replies + [r], id) == Told(replies, id) + if r.Inserted? && r.desc.id == id then 1 else 0
  {
    assert (replies + [r])[..|replies|] == replies;
  }

  /** The worker takes a publish command for `id` and marks its staged row published. */
  predicate Publishes(s: State, a: Action, id: AssetId) {
    && a.Work? && a.ok && a.call in s.calls && WorkerAlive(s, a.call) && s.calls[a.call].pc == AwaitPublish
    && s.calls[a.call].desc.id == id && id in s.disk.rows && s.disk.rows[id] == Record(s.calls[a.call].desc, Staged)
  }

  /** The one reply a step may add, and the ids it may publish. */
  ghost predicate Quietly(s: State, s': State) {
    && (s'.replies == s.replies || exists r :: s'.replies == s.replies + [r] && !r.Inserted?)
    && forall id :: IsPublished(s'.disk, id) ==> IsPublished(s.disk, id)
  }

  lemma LocalStepIsQuiet(sha: Hasher, s: State, c: nat, chunk: Bytes, ok: bool)
    requires Inv(sha, s) && c in s.calls
    ensures Quietly(s, StepCall(sha, s, c, chunk, ok))
  {
    assert CallInv(sha, s, c);
  }

  lemma LostCallIsQuiet(s: State, c: nat)
    requires c in s.calls
    ensures Quietly(s, LoseCall(s, c))
  {
  }

  lemma WorkIsQuiet(s: State, c: nat, ok: bool)
    requires c in s.calls && WorkerAlive(s, c) && !Publishes(s, Work(c, ok), s.calls[c].desc.id)
    ensures Quietly(s, WorkCall(s, c, ok))
  {
  }

  lemma RecoveryIsQuiet(sha: Hasher, s: State, a: Action)
    requires s.handle.Recovering?
    ensures Quietly(s, ApplyRecovery(sha, s, a))
  {
  }

  lemma QuietlyTells(s: State, s': State, id: AssetId)
    requires Quietly(s, s')
    ensures Told(s'.replies, id) == Told(s.replies, id)
  {
    if s'.replies != s.replies {
      var r :| s'.replies == s.replies + [r] && !r.Inserted?;
      ToldSnoc(s.replies, r, id);
    }
  }

  lemma OtherwiseQuiet(sha: Hasher, s: State, a: Action)
    requires Inv(sha, s) && !(a.Work? && a.call in s.calls && Publishes(s, a, s.calls[a.call].desc.id))
    ensures Quietly(s, Apply(sha, s, a))
  {
    match a
    case Step(c, chunk, ok) => if c in s.calls { LocalStepIsQuiet(sha, s, c, chunk, ok); }
    case Work(c, ok) => if c in s.calls && WorkerAlive(s, c) { WorkIsQuiet(s, c, ok); }
    case Lose(c) => if c in s.calls && !WorkerAlive(s, c) { LostCallIsQuiet(s, c); }
    case Begin(_) =>
    case Cancel(_, _) =>
    case Close =>
    case Stop =>
    case Crash =>
    case Reopen =>
    case _ => if s.handle.Recovering? { RecoveryIsQuiet(sha, s, a); }
  }

  lemma PublishingTells(s: State, c: nat, id: AssetId)
    requires c in s.calls && WorkerAlive(s, c) && Publishes(s, Work(c, true), s.calls[c].desc.id)
    ensures var s' := WorkCall(s, c, true);
            && (IsPublished(s'.disk, id) <==> IsPublished(s.disk, id) || id == s.calls[c].desc.id)
            && Told(s'.replies, id) == Told(s.replies, id) + if id == s.calls[c].desc.id && !s.calls[c].detached then 1 else 0
  {
    ToldSnoc(s.replies, Inserted(s.calls[c].desc), id);
  }

  /** One step: an id becomes published, and one more caller is told so, only where the worker publishes it. */
  lemma StepTells(sha: Hasher, s: State, a: Action, id: AssetId)
    requires Inv(sha, s) && QuietAction(s, a)
    ensures var s' := Apply(sha, s, a);
            && (IsPublished(s'.disk, id) <==> IsPublished(s.disk, id) || Publishes(s, a, id))
            && Told(s'.replies, id) == Told(s.replies, id) + if Publishes(s, a, id) && !s.calls[a.call].detached then 1 else 0
  {
    if a.Work? && a.call in s.calls && Publishes(s, a, s.calls[a.call].desc.id) {
      PublishingTells(s, a.call, id);
    } else {
      ApplyKeepsInv(sha, s, a);
      OtherwiseQuiet(sha, s, a);
      QuietlyTells(s, Apply(sha, s, a), id);
    }
  }

  // ----- Whole runs -----

  /** Step `n` of the run publishes `id`. */
  ghost predicate PublishedAt(sha: Hasher, actions: seq<Action>, n: nat, id: AssetId) {
    n < |actions| && Publishes(Run(sha, EMPTY, actions[..n]), actions[n], id)
  }

  /** The caller had not been cancelled when the worker took the command of step `n`. */
  ghost predicate CallerWaits(sha: Hasher, actions: seq<Action>, n: nat)
    requires n < |actions| && actions[n].Work? && actions[n].call in Run(sha, EMPTY, actions[..n]).calls
  {
    !Run(sha, EMPTY, actions[..n]).calls[actions[n].call].detached
  }

  ghost predicate SomeStepPublishes(sha: Hasher, actions: seq<Action>, id: AssetId) {
    exists n: nat :: PublishedAt(sha, actions, n, id)
  }

  lemma PublishedAtPrefix(sha: Hasher, actions: seq<Action>, k: nat, n: nat, id: AssetId)
    requires n < k <= |actions|
    ensures PublishedAt(sha, actions[..k], n, id) <==> PublishedAt(sha, actions, n, id)
  {
    assert actions[..k][..n] == actions[..n];
  }

  lemma SomeStepSnoc(sha: Hasher, actions: seq<Action>, id: AssetId)
    requires actions != []
    ensures var k := |actions| - 1;
            SomeStepPublishes(sha, actions, id) <==>
            SomeStepPublishes(sha, actions[..k], id) || Publishes(Run(sha, EMPTY, actions[..k]), actions[k], id)
  {
    var k := |actions| - 1;
    if SomeStepPublishes(sha, actions[..k], id) {
      var n: nat :| PublishedAt(sha, actions[..k], n, id);
      PublishedAtPrefix(sha, actions, k, n, id);
    }
    if Publishes(Run(sha, EMPTY, actions[..k]), actions[k], id) {
      assert PublishedAt(sha, actions, k, id);
    }
    if SomeStepPublishes(sha, actions, id) {
      var n: nat :| PublishedAt(sha, actions, n, id);
      if n < k {
        PublishedAtPrefix(sha, actions, k, n, id);
      }
    }
  }

  /** An id is published if and only if some step published it. */
  lemma {:induction false} PublishedBySomeStep(sha: Hasher, actions: seq<Action>, id: AssetId)
    requires QuietRun(sha, EMPTY, actions)
    ensures IsPublished(Run(sha, EMPTY, actions).disk, id) <==> SomeStepPublishes(sha, actions, id)
  {
    if actions != [] {
      var k := |actions| - 1;
      QuietPrefix(sha, EMPTY, actions, k);
      PublishedBySomeStep(sha, actions[..k], id);
      QuietRunKeepsInv(sha, EMPTY, actions[..k]);
      StepTells(sha, Run(sha, EMPTY, actions[..k]), actions[k], id);
      SomeStepSnoc(sha, actions, id);
    }
  }

  lemma PublishedOnceBefore(sha: Hasher, actions: seq<Action>, n: nat, m: nat, id: AssetId)
    requires QuietRun(sha, EMPTY, actions) && PublishedAt(sha, actions, n, id) && PublishedAt(sha, actions, m, id)
    ensures n <= m
  {
    if m < n {
      var upto := actions[..n];
      QuietPrefix(sha, EMPTY, actions, n);
      PublishedAtPrefix(sha, actions, n, m, id);
      PublishedBySomeStep(sha, upto, id);
    }
  }

  /** ... and by no other: a second one would need the row to be staged again. */
  lemma PublishedOnce(sha: Hasher, actions: seq<Action>, n: nat, m: nat, id: AssetId)
    requires QuietRun(sha, EMPTY, actions) && PublishedAt(sha, actions, n, id) && PublishedAt(sha, actions, m, id)
    ensures n == m
  {
    PublishedOnceBefore(sha, actions, n, m, id);
    PublishedOnceBefore(sha, actions, m, n, id);
  }

  /** Nobody is told of an id that no step has published. */
  lemma {:induction false} UnpublishedUntold(sha: Hasher, actions: seq<Action>, id: AssetId)
    requires QuietRun(sha, EMPTY, actions) && !IsPublished(Run(sha, EMPTY, actions).disk, id)
    ensures Told(Run(sha, EMPTY, actions).replies, id) == 0
  {
    if actions != [] {
      var k := |actions| - 1;
      QuietPrefix(sha, EMPTY, actions, k);
      QuietRunKeepsInv(sha, EMPTY, actions[..k]);
      StepTells(sha, Run(sha, EMPTY, actions[..k]), actions[k], id);
      UnpublishedUntold(sha, actions[..k], id);
    }
  }

  /** A step after publication tells nobody else. */
  lemma PublishedStepUntold(sha: Hasher, s: State, a: Action, id: AssetId)
    requires Inv(sha, s) && QuietAction(s, a) && IsPublished(s.disk, id)
    ensures Told(Apply(sha, s, a).replies, id) == Told(s.replies, id)
  {
    StepTells(sha, s, a, id);
  }

  /** Nobody else is told once an id is published. */
  lemma {:induction false} ToldStays(sha: Hasher, s: State, actions: seq<Action>, id: AssetId)
    requires Inv(sha, s) && QuietRun(sha, s, actions) && IsPublished(s.disk, id)
    ensures Told(Run(sha, s, actions).replies, id) == Told(s.replies, id)
    decreases |actions|
  {
    if actions != [] {
      var k := |actions| - 1;
      QuietPrefix(sha, s, actions, k);
      ToldStays(sha, s, actions[..k], id);
      QuietRunKeepsInv(sha, s, actions[..k]);
      PublishedStepUntold(sha, Run(sha, s, actions[..k]), actions[k], id);
    }
  }

  /**
   Exactly one caller is told Inserted. The id is published by one step of the run; the
   caller of that step's ingest is told, and nobody else, if it was still waiting when the
   worker took its publish command; if it had been cancelled, nobody ever is.
   */
  lemma ToldExactlyOnceIff(sha: Hasher, actions: seq<Action>, n: nat, id: AssetId)
    requires QuietRun(sha, EMPTY, actions) && PublishedAt(sha, actions, n, id)
    ensures IsPublished(Run(sha, EMPTY, actions).disk, id)
    ensures forall m :: PublishedAt(sha, actions, m, id) ==> m == n
    ensures Told(Run(sha, EMPTY, actions).replies, id) == if CallerWaits(sha, actions, n) then 1 else 0
  {
    PublishedBySomeStep(sha, actions, id);
    forall m | PublishedAt(sha, actions, m, id) ensures m == n {
      PublishedOnce(sha, actions, n, m, id);
    }
    ToldAtPublication(sha, actions, n, id);
    QuietSuffix(sha, EMPTY, actions, n + 1);
    ToldStays(sha, Run(sha, EMPTY, actions[..n + 1]), actions[n + 1..], id);
    RunSplit(sha, EMPTY, actions, n + 1);
  }

  lemma ToldAtPublication(sha: Hasher, actions: seq<Action>, n: nat, id: AssetId)
    requires QuietRun(sha, EMPTY, actions) && PublishedAt(sha, actions, n, id)
    ensures var s' := Run(sha, EMPTY, actions[..n + 1]);
            && Inv(sha, s') && IsPublished(s'.disk, id)
            && Told(s'.replies, id) == if CallerWaits(sha, actions, n) then 1 else 0
  {
    QuietPrefix(sha, EMPTY, actions, n);
    QuietRunKeepsInv(sha, EMPTY, actions[..n]);
    UnpublishedUntold(sha, actions[..n], id);
    StepTells(sha, Run(sha, EMPTY, actions[..n]), actions[n], id);
    ApplyKeepsInv(sha, Run(sha, EMPTY, actions[..n]), actions[n]);
    assert actions[..n + 1][..n] == actions[..n];
  }

  /** The worker takes the publish command of a caller that has gone: the row is published, nobody is told. */
  lemma DetachedPublish(sha: Hasher, s: State, desc: Descriptor, d: Disk)
    requires Idle(s) && desc.id in d.rows && d.rows[desc.id] == Record(desc, Staged)
    ensures var s1 := Apply(sha, WithDisk(s, desc, AwaitPublish, d), Cancel(s.next, true));
            var s2 := Apply(sha, s1, Work(s.next, true));
            s2.disk == d.(rows := d.rows[desc.id := Record(desc, Published)]) && s2.replies == s.replies
  {
    var s1 := Apply(sha, WithDisk(s, desc, AwaitPublish, d), Cancel(s.next, true));
    assert s1.calls[s.next] == Call(desc, s.gen, AwaitPublish, true);
  }

  /** From a renamed blob: the publish command is sent, the caller is cancelled, the worker takes the command. */
  lemma CancelledPublisher(sha: Hasher, s: State, desc: Descriptor, bytes: Bytes)
    requires Idle(s) && desc.id !in s.disk.rows
    ensures var n, s1 := s.next, WithDisk(s, desc, SendPublish, Renamed(s, desc, bytes));
            var s' := Run(sha, s1, [Step(n, [], true), Cancel(n, true), Work(n, true)]);
            IsPublished(s'.disk, desc.id) && s'.replies == s.replies
  {
    var n, d := s.next, Renamed(s, desc, bytes);
    RunThree(sha, WithDisk(s, desc, SendPublish, d), Step(n, [], true), Cancel(n, true), Work(n, true));
    PublishSent(sha, s, desc, d);
    DetachedPublish(sha, s, desc, d);
  }

  /** So for every asset there is a quiet run that publishes it and tells nobody. */
  lemma PublishedAndUntold(sha: Hasher, id: AssetId, bytes: Bytes, meta: string) returns (actions: seq<Action>)
    requires |bytes| <= I64_MAX
    ensures QuietRun(sha, EMPTY, actions)
    ensures IsPublished(Run(sha, EMPTY, actions).disk, id) && Told(Run(sha, EMPTY, actions).replies, id) == 0
  {
    var desc := Descriptor(id, |bytes|, sha(bytes), meta);
    var s1 := Apply(sha, EMPTY, Reopen);
    var a := FirstOpen(sha);
    var s2 := Run(sha, s1, a);
    var b := IngestRenames(sha, s2, desc, bytes);
    var c := [Step(s2.next, [], true), Cancel(s2.next, true), Work(s2.next, true)];
    CancelledPublisher(sha, s2, desc, bytes);
    RunConcat(sha, s2, b, c);
    RunConcat(sha, s1, a, b + c);
    RunCons(sha, EMPTY, Reopen, a + (b + c));
    actions := [Reopen] + (a + (b + c));
    FirstReopenIsQuiet(sha, a + (b + c));
    assert Run(sha, EMPTY, actions).replies == s2.replies;
  }

  lemma FirstReopenIsQuiet(sha: Hasher, rest: seq<Action>)
    requires NoReopen(rest)
    ensures QuietRun(sha, EMPTY, [Reopen] + rest)
  {
    var actions := [Reopen] + rest;
    forall i | 0 <= i < |actions| ensures QuietAction(Run(sha, EMPTY, actions[..i]), actions[i]) {
      if i == 0 {
        assert actions[..0] == [];
      }
    }
  }
}

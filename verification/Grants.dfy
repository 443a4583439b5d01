/**
 The bounded registry of asset access grants. Only digests of keys are stored; the digest,
 the random source, the clock and the range of representable timestamps are parameters.
 Operations take effect in the order in which they get the registry's lock, each with the
 time it read before that.
 */
module Grants {
  import opened Foundation
  import opened Base64Url

  type AssetId = string
  type Key = seq<byte>
  type Digest = nat
  type Hasher = Key -> Digest

  /** `holder` stands for the actor, the session and the document. */
  datatype Grant = Grant(asset: AssetId, holder: string, expires: int)

  datatype GrantError = Unavailable | Randomness | Unauthorized

  type Registry = map<Digest, Grant>

  const I64_MIN: int := -0x8000_0000_0000_0000

  /** `i64::saturating_add`. */
  function SaturatingAdd(a: int, b: int): int {
    if a + b > I64_MAX then I64_MAX else if a + b < I64_MIN then I64_MIN else a + b
  }

  datatype Config = Config(hash: Hasher, ttl: int, max: nat, representable: int -> bool)

  datatype Op =
    | Issue(now: int, random: Option<Key>, asset: AssetId, holder: string)
    | Validate(now: int, token: seq<byte>, asset: AssetId)

  datatype Outcome = Issued(token: seq<byte>, grant: Grant) | Valid(grant: Grant) | Refused(error: GrantError)

  function Expiry(c: Config, now: int): int {
    SaturatingAdd(now, c.ttl)
  }

  function Unexpired(r: Registry, now: int): Registry {
    map d | d in r && r[d].expires > now :: r[d]
  }

  function IssueResult(c: Config, r: Registry, op: Op): (Registry, Outcome)
    requires op.Issue?
  {
    var kept := Unexpired(r, op.now);
    if !c.representable(Expiry(c, op.now)) then (r, Refused(Unavailable))
    else if |kept| >= c.max then (kept, Refused(Unavailable))
    else if op.random.None? then (kept, Refused(Randomness))
    else
      var grant := Grant(op.asset, op.holder, Expiry(c, op.now));
      (kept[c.hash(op.random.value) := grant], Issued(Token(op.random.value), grant))
  }

  function ValidateResult(c: Config, r: Registry, op: Op): (Registry, Outcome)
    requires op.Validate?
  {
    var key := KeyOf(op.token);
    if key.None? || c.hash(key.value) !in r then (r, Refused(Unauthorized))
    else
      var grant := r[c.hash(key.value)];
      if grant.expires <= op.now then (r - {c.hash(key.value)}, Refused(Unauthorized))
      else if grant.asset != op.asset then (r, Refused(Unauthorized))
      else (r, Valid(grant))
  }

  function Perform(c: Config, r: Registry, op: Op): (Registry, Outcome) {
    if op.Issue? then IssueResult(c, r, op) else ValidateResult(c, r, op)
  }

  class AssetAccessGrantIssuer {
    var entries: Registry
    const config: Config

    constructor (config: Config)
      ensures entries == map[] && this.config == config
    {
      entries, this.config := map[], config;
    }

    method Issue(now: int, random: Option<Key>, asset: AssetId, holder: string) returns (r: Outcome)
      requires random.Some? ==> |random.value| == 32
      modifies this`entries
      ensures (entries, r) == Perform(config, old(entries), Op.Issue(now, random, asset, holder))
    {
      var expires := SaturatingAdd(now, config.ttl);
      if !config.representable(expires) {
        return Refused(Unavailable);
      }
      entries := map d | d in entries && entries[d].expires > now :: entries[d];
      if |entries| >= config.max {
        return Refused(Unavailable);
      }
      if random.None? {
        return Refused(Randomness);
      }
      var token := EncodeText(random.value);
      var grant := Grant(asset, holder, expires);
      entries := entries[config.hash(random.value) := grant];
      r := Issued(token, grant);
    }

    method Validate(now: int, token: seq<byte>, asset: AssetId) returns (r: Outcome)
      modifies this`entries
      ensures (entries, r) == Perform(config, old(entries), Op.Validate(now, token, asset))
    {
      var key := AcceptToken(token);
      if key.None? {
        return Refused(Unauthorized);
      }
      var digest := config.hash(key.value);
      if digest !in entries {
        return Refused(Unauthorized);
      }
      var grant := entries[digest];
      if grant.expires <= now {
        entries := entries - {digest};
        return Refused(Unauthorized);
      }
      if grant.asset != asset {
        return Refused(Unauthorized);
      }
      r := Valid(grant);
    }
  }

  // ----- Whole runs -----

  function Run(c: Config, r: Registry, ops: seq<Op>): Registry {
    if ops == [] then r else Perform(c, Run(c, r, ops[..|ops| - 1]), ops[|ops| - 1]).0
  }

  /** The outcome of the operation at position `i` of a run. */
  function OutcomeAt(c: Config, ops: seq<Op>, i: nat): Outcome
    requires i < |ops|
  {
    Perform(c, Run(c, map[], ops[..i]), ops[i]).1
  }

  lemma UnexpiredIsSmaller(r: Registry, now: int)
    ensures |Unexpired(r, now)| <= |r|
  {
    assert Unexpired(r, now).Keys <= r.Keys;
    SubsetSize(Unexpired(r, now).Keys, r.Keys);
  }

  lemma SubsetSize<T>(a: set<T>, b: set<T>)
    requires a <= b
    ensures |a| <= |b|
  {
    assert b == a + (b - a);
  }

  /** The registry never exceeds its bound. */
  lemma {:induction false} RegistryBounded(c: Config, ops: seq<Op>)
    ensures |Run(c, map[], ops)| <= c.max
  {
    if ops != [] {
      var r, op := Run(c, map[], ops[..|ops| - 1]), ops[|ops| - 1];
      RegistryBounded(c, ops[..|ops| - 1]);
      if op.Issue? {
        UnexpiredIsSmaller(r, op.now);
      } else {
        var key := KeyOf(op.token);
        if key.Some? {
          SubsetSize((r - {c.hash(key.value)}).Keys, r.Keys);
        }
      }
    }
  }

  /** The operation at `i` issued the grant now stored under the digest. */
  ghost predicate IssuedAt(c: Config, ops: seq<Op>, i: nat, digest: Digest, grant: Grant) {
    && i < |ops| && ops[i].Issue? && ops[i].random.Some? && c.hash(ops[i].random.value) == digest
    && OutcomeAt(c, ops, i) == Issued(Token(ops[i].random.value), grant)
  }

  lemma {:induction false} StoredWasIssued(c: Config, ops: seq<Op>, digest: Digest) returns (i: nat)
    requires digest in Run(c, map[], ops)
    ensures IssuedAt(c, ops, i, digest, Run(c, map[], ops)[digest])
  {
    var n := |ops| - 1;
    var front, op := ops[..n], ops[n];
    var r := Run(c, map[], front);
    if op.Issue? && OutcomeAt(c, ops, n).Issued? && op.random.Some? && c.hash(op.random.value) == digest {
      i := n;
    } else {
      i := StoredWasIssued(c, front, digest);
      assert front[..i] == ops[..i];
    }
  }

  /**
   No token validates without having been issued, nor at or after its expiry, nor for
   another asset: behind every successful validation there is an earlier successful issue
   of exactly that grant, to a key with the same digest.
   */
  lemma ValidatedWasIssued(c: Config, ops: seq<Op>, n: nat) returns (i: nat)
    requires n < |ops| && ops[n].Validate? && OutcomeAt(c, ops, n).Valid?
    ensures var grant := OutcomeAt(c, ops, n).grant;
            && ops[n].now < grant.expires && grant.asset == ops[n].asset
            && i < n && ops[i].Issue? && ops[i].random.Some?
            && OutcomeAt(c, ops, i) == Issued(Token(ops[i].random.value), grant)
            && KeyOf(ops[n].token).Some? && c.hash(KeyOf(ops[n].token).value) == c.hash(ops[i].random.value)
  {
    var digest := c.hash(KeyOf(ops[n].token).value);
    i := StoredWasIssued(c, ops[..n], digest);
    assert ops[..n][..i] == ops[..i];
  }

  /** The operation removes an entry of this digest and expiry if there is one. */
  predicate Purges(c: Config, op: Op, digest: Digest, expires: int) {
    && expires <= op.now
    && (op.Issue? ==> c.representable(Expiry(c, op.now)))
    && (op.Validate? ==> KeyOf(op.token).Some? && c.hash(KeyOf(op.token).value) == digest)
  }

  predicate Reuses(c: Config, op: Op, digest: Digest) {
    op.Issue? && op.random.Some? && c.hash(op.random.value) == digest
  }

  lemma EntryStep(c: Config, r: Registry, op: Op, digest: Digest)
    requires !Reuses(c, op, digest)
    ensures var r' := Perform(c, r, op).0;
            && (digest !in r ==> digest !in r')
            && (digest in r && Purges(c, op, digest, r[digest].expires) ==> digest !in r')
            && (digest in r && !Purges(c, op, digest, r[digest].expires) ==> digest in r' && r'[digest] == r[digest])
  {
  }

  predicate Occurs<T>(s: seq<T>, p: T -> bool) {
    exists i :: 0 <= i < |s| && p(s[i])
  }

  predicate Purged(c: Config, ops: seq<Op>, digest: Digest, expires: int) {
    Occurs(ops, (op: Op) => Purges(c, op, digest, expires))
  }

  /** While its digest is not drawn again, an entry stays until the first operation that purges it, and is gone after. */
  lemma {:induction false} EntryStaysUntilPurged(c: Config, r: Registry, ops: seq<Op>, digest: Digest)
    requires digest in r && forall i :: 0 <= i < |ops| ==> !Reuses(c, ops[i], digest)
    ensures var r' := Run(c, r, ops);
            if Purged(c, ops, digest, r[digest].expires) then digest !in r' else digest in r' && r'[digest] == r[digest]
  {
    if ops != [] {
      var n, expires := |ops| - 1, r[digest].expires;
      EntryStaysUntilPurged(c, r, ops[..n], digest);
      EntryStep(c, Run(c, r, ops[..n]), ops[n], digest);
      OccursSnoc(ops, (op: Op) => Purges(c, op, digest, expires));
    }
  }

  lemma OccursSnoc<T>(s: seq<T>, p: T -> bool)
    requires s != []
    ensures Occurs(s, p) <==> Occurs(s[..|s| - 1], p) || p(s[|s| - 1])
  {
    var front := s[..|s| - 1];
    if i :| 0 <= i < |front| && p(front[i]) {
      assert p(s[i]);
    }
    if i :| 0 <= i < |s| && p(s[i]) {
      assert i == |s| - 1 || p(front[i]);
    }
  }

  /** What is stored under the digest of an issued key when a later operation runs. */
  lemma IssuedEntry(c: Config, ops: seq<Op>, i: nat, n: nat)
    requires i < n <= |ops| && ops[i].Issue? && ops[i].random.Some? && OutcomeAt(c, ops, i).Issued?
    requires forall j :: i < j < n ==> !Reuses(c, ops[j], c.hash(ops[i].random.value))
    ensures var digest, grant, r := c.hash(ops[i].random.value), OutcomeAt(c, ops, i).grant, Run(c, map[], ops[..n]);
            if Purged(c, ops[i + 1..n], digest, grant.expires) then digest !in r else digest in r && r[digest] == grant
  {
    var digest, grant := c.hash(ops[i].random.value), OutcomeAt(c, ops, i).grant;
    var r := Run(c, map[], ops[..i + 1]);
    StoredOnIssue(c, ops, i);
    var between := ops[i + 1..n];
    RunSlice(c, ops, i + 1, n);
    assert forall j :: 0 <= j < |between| ==> between[j] == ops[i + 1 + j];
    EntryStaysUntilPurged(c, r, between, digest);
  }

  lemma RunSlice(c: Config, ops: seq<Op>, i: nat, n: nat)
    requires i <= n <= |ops|
    ensures Run(c, map[], ops[..n]) == Run(c, Run(c, map[], ops[..i]), ops[i..n])
  {
    RunConcat(c, ops[..i], ops[i..n]);
    assert ops[..i] + ops[i..n] == ops[..n];
  }

  lemma StoredOnIssue(c: Config, ops: seq<Op>, i: nat)
    requires i < |ops| && ops[i].Issue? && ops[i].random.Some? && OutcomeAt(c, ops, i).Issued?
    ensures var digest, r := c.hash(ops[i].random.value), Run(c, map[], ops[..i + 1]);
            digest in r && r[digest] == OutcomeAt(c, ops, i).grant
  {
    assert ops[..i + 1][..i] == ops[..i];
  }

  /** What a validation of an accepted token answers. */
  lemma ValidationAnswer(c: Config, r: Registry, op: Op, key: Key)
    requires op.Validate? && KeyOf(op.token) == Some(key)
    ensures var outcome, digest := Perform(c, r, op).1, c.hash(key);
            && (outcome.Valid? <==> digest in r && op.now < r[digest].expires && op.asset == r[digest].asset)
            && (outcome.Valid? ==> outcome.grant == r[digest])
  {
  }

  /**
   When an issued token validates: at a time before its expiry, for its asset, and exactly
   if no operation that got the lock in between carried a time at or past the expiry and
   looked at the entry.
   */
  lemma IssuedTokenValidates(c: Config, ops: seq<Op>, i: nat, n: nat)
    requires i < n < |ops| && ops[i].Issue? && ops[i].random.Some? && |ops[i].random.value| == 32
    requires OutcomeAt(c, ops, i).Issued?
    requires ops[n].Validate? && ops[n].token == Token(ops[i].random.value)
    requires forall j :: i < j < n ==> !Reuses(c, ops[j], c.hash(ops[i].random.value))
    ensures var grant := OutcomeAt(c, ops, i).grant;
            && (OutcomeAt(c, ops, n).Valid? <==>
                  && ops[n].now < grant.expires && ops[n].asset == grant.asset
                  && !Purged(c, ops[i + 1..n], c.hash(ops[i].random.value), grant.expires))
            && (OutcomeAt(c, ops, n).Valid? ==> OutcomeAt(c, ops, n).grant == grant)
  {
    IssuedEntry(c, ops, i, n);
    KeyOfInvertsToken(ops[n].token, ops[i].random.value);
    ValidationAnswer(c, Run(c, map[], ops[..n]), ops[n], ops[i].random.value);
  }

  lemma {:induction false} RunConcat(c: Config, a: seq<Op>, b: seq<Op>)
    ensures Run(c, map[], a + b) == Run(c, Run(c, map[], a), b)
  {
    if b == [] {
      assert a + b == a;
    } else {
      RunConcat(c, a, b[..|b| - 1]);
      assert (a + b)[..|a + b| - 1] == a + b[..|b| - 1];
    }
  }

  /** The expiry is the time of issue plus the lifetime, held within the range of an `i64`. */
  lemma ExpiryIsNowPlusTtl(c: Config, now: int)
    ensures I64_MIN <= Expiry(c, now) <= I64_MAX
    ensures I64_MIN <= now + c.ttl <= I64_MAX ==> Expiry(c, now) == now + c.ttl
    ensures now + c.ttl > I64_MAX ==> Expiry(c, now) == I64_MAX
    ensures now + c.ttl < I64_MIN ==> Expiry(c, now) == I64_MIN
  {
  }

  /** How many grants are still good at a time. */
  ghost function GoodAt(r: Registry, now: int): nat {
    |set d | d in r && r[d].expires > now|
  }

  /** An issue: a grant for its asset and holder under a fresh token, unless the expiry cannot be represented, the registry is full of good grants, or no key could be drawn. */
  lemma IssueOutcome(c: Config, r: Registry, op: Op)
    requires op.Issue?
    ensures var (r', o) := Perform(c, r, op);
            && (o.Issued? <==> c.representable(Expiry(c, op.now)) && GoodAt(r, op.now) < c.max && op.random.Some?)
            && (o == Refused(Unavailable) <==> !c.representable(Expiry(c, op.now)) || GoodAt(r, op.now) >= c.max)
            && (!o.Issued? && o != Refused(Unavailable) ==> o == Refused(Randomness))
            && (o.Issued? ==>
                  && o.token == Token(op.random.value) && o.grant == Grant(op.asset, op.holder, Expiry(c, op.now))
                  && c.hash(op.random.value) in r' && r'[c.hash(op.random.value)] == o.grant)
  {
    assert Unexpired(r, op.now).Keys == set d | d in r && r[d].expires > op.now;
  }

  /** A validation is answered with the grant or with Unauthorized, nothing else. */
  lemma ValidationRefusal(c: Config, r: Registry, op: Op)
    requires op.Validate?
    ensures !Perform(c, r, op).1.Valid? ==> Perform(c, r, op).1 == Refused(Unauthorized)
  {
  }

  /** Under a clock that does not run back, an issued token validates for its asset at every time before its expiry, and at no other. */
  lemma MonotoneClock(c: Config, ops: seq<Op>, i: nat, n: nat)
    requires i < n < |ops| && ops[i].Issue? && ops[i].random.Some? && |ops[i].random.value| == 32
    requires OutcomeAt(c, ops, i).Issued?
    requires ops[n].Validate? && ops[n].token == Token(ops[i].random.value) && ops[n].asset == ops[i].asset
    requires forall j :: i < j < n ==> !Reuses(c, ops[j], c.hash(ops[i].random.value))
    requires forall j, k :: 0 <= j < k < |ops| ==> ops[j].now <= ops[k].now
    ensures OutcomeAt(c, ops, n).Valid? <==> ops[n].now < Expiry(c, ops[i].now)
    ensures OutcomeAt(c, ops, n).Valid? ==> OutcomeAt(c, ops, n).grant == OutcomeAt(c, ops, i).grant
  {
    IssuedTokenValidates(c, ops, i, n);
    var grant := OutcomeAt(c, ops, i).grant;
    assert grant.expires == Expiry(c, ops[i].now) && grant.asset == ops[i].asset;
    var between := ops[i + 1..n];
    assert forall j :: 0 <= j < |between| ==> between[j].now <= ops[n].now;
  }
}

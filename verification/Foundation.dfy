/**
 Failure-carrying datatypes, machine-integer bounds, and the one notion of order
 every store relies on: a set of integer keys listed in ascending order, which is
 what SQL's `ORDER BY key ASC` delivers.
 */
module Foundation {

  datatype Option<+T> = None | Some(value: T)

  datatype Result<+T, +E> = Ok(value: T) | Err(error: E)

  const I64_MAX: int := 0x7fff_ffff_ffff_ffff
  const U64_MAX: int := 0xffff_ffff_ffff_ffff

  predicate Increasing(s: seq<int>) {
    forall i, j :: 0 <= i < j < |s| ==> s[i] < s[j]
  }

  /** `s` lists exactly the members of `keys`. */
  predicate Lists(s: seq<int>, keys: set<int>) {
    && (forall i :: 0 <= i < |s| ==> s[i] in keys)
    && (forall k :: k in keys ==> k in s)
  }

  lemma Inhabitant<T>(s: set<T>) returns (x: T)
    requires s != {}
    ensures x in s
  {
    x :| x in s;
  }

  lemma {:induction false} LeastExists(keys: set<int>)
    requires keys != {}
    ensures exists m :: m in keys && forall k :: k in keys ==> m <= k
  {
    var x := Inhabitant(keys);
    if keys == {x} {
    } else {
      LeastExists(keys - {x});
      var m :| m in keys - {x} && forall k :: k in keys - {x} ==> m <= k;
      assert forall k :: k in keys ==> k == x || k in keys - {x};
      assert (if x < m then x else m) in keys;
    }
  }

  /** `SELECT key ... ORDER BY key ASC`, by selecting the least remaining key each time. */
  method OrderBy(keys: set<int>) returns (s: seq<int>)
    ensures s == Ascending(keys)
  {
    var rest := keys;
    s := [];
    while rest != {}
      invariant rest <= keys && Increasing(s) && Lists(s, keys - rest)
      invariant forall i, k :: 0 <= i < |s| && k in rest ==> s[i] < k
      decreases rest
    {
      LeastExists(rest);
      var m :| m in rest && forall k :: k in rest ==> m <= k;
      s, rest := s + [m], rest - {m};
    }
    assert keys - rest == keys;
    AscendingUnique(s, keys);
  }

  lemma {:induction false} AscendingExists(keys: set<int>)
    ensures exists s :: Increasing(s) && Lists(s, keys)
  {
    if keys == {} {
      assert Increasing([]) && Lists([], keys);
    } else {
      LeastExists(keys);
      var m :| m in keys && forall k :: k in keys ==> m <= k;
      AscendingExists(keys - {m});
      var rest :| Increasing(rest) && Lists(rest, keys - {m});
      LeastFirst(keys, m, rest);
    }
  }

  lemma LeastFirst(keys: set<int>, m: int, rest: seq<int>)
    requires m in keys && (forall k :: k in keys ==> m <= k) && Increasing(rest) && Lists(rest, keys - {m})
    ensures Increasing([m] + rest) && Lists([m] + rest, keys)
  {
    var s := [m] + rest;
    forall i | 0 < i < |s| ensures m < s[i] {
      assert s[i] == rest[i - 1];
      assert s[i] in keys - {m};
    }
    forall k | k in keys ensures k in s {
      assert k == m || k in keys - {m};
    }
  }

  /** The one ascending listing of `keys`. */
  ghost function Ascending(keys: set<int>): (s: seq<int>)
    ensures Increasing(s) && Lists(s, keys)
  {
    AscendingExists(keys);
    var s :| Increasing(s) && Lists(s, keys);
    s
  }

  /** A listing without repetition is as long as the set is large. */
  lemma {:induction false} ListingSize(s: seq<int>, keys: set<int>)
    requires Increasing(s) && Lists(s, keys)
    ensures |s| == |keys|
  {
    if s == [] {
      if keys != {} { var x := Inhabitant(keys); assert false; }
    } else {
      var rest := keys - {s[0]};
      forall k | k in rest ensures k in s[1..] { IncreasingMembership(s, 0, k); }
      ListingSize(s[1..], rest);
      assert keys == rest + {s[0]};
    }
  }

  lemma {:induction false} GreatestExists(keys: set<int>)
    requires keys != {}
    ensures exists m :: m in keys && forall k :: k in keys ==> k <= m
  {
    var s := Ascending(keys);
    var x := Inhabitant(keys);
    assert x in s;
    var m := s[|s| - 1];
    forall k | k in keys ensures k <= m { assert k in s; }
    assert m in keys;
  }

  /** SQL `MAX(key)` with NULL for an empty table. */
  function Greatest(keys: set<int>): (m: Option<int>)
    ensures m.None? <==> keys == {}
    ensures m.Some? ==> m.value in keys && forall k :: k in keys ==> k <= m.value
  {
    if keys == {} then None else
      GreatestExists(keys);
      var m :| m in keys && forall k :: k in keys ==> k <= m;
      Some(m)
  }

  lemma IncreasingMembership(s: seq<int>, i: nat, x: int)
    requires Increasing(s) && i < |s| && x in s && s[i] < x
    ensures x in s[i + 1..]
  {
    var j :| 0 <= j < |s| && s[j] == x;
    assert i < j;
    assert s[i + 1..][j - i - 1] == x;
  }

  /** An ascending listing is determined by its members. */
  lemma {:induction false} IncreasingUnique(a: seq<int>, b: seq<int>)
    requires Increasing(a) && Increasing(b)
    requires forall x :: x in a <==> x in b
    ensures a == b
  {
    if a == [] {
      assert forall i :: 0 <= i < |b| ==> b[i] in b;
    } else {
      assert a[0] in a;
      assert b[0] in b;
      assert a[0] == b[0];
      forall x ensures x in a[1..] <==> x in b[1..] {
        if x in a[1..] { assert x in a && a[0] < x; IncreasingMembership(b, 0, x); }
        if x in b[1..] { assert x in b && b[0] < x; IncreasingMembership(a, 0, x); }
      }
      IncreasingUnique(a[1..], b[1..]);
      assert a == [a[0]] + a[1..] && b == [b[0]] + b[1..];
    }
  }

  lemma AscendingUnique(s: seq<int>, keys: set<int>)
    requires Increasing(s) && Lists(s, keys)
    ensures s == Ascending(keys)
  {
    IncreasingUnique(s, Ascending(keys));
  }

  function Below(keys: set<int>, pivot: int): set<int> {
    set k | k in keys && k < pivot
  }

  function From(keys: set<int>, pivot: int): set<int> {
    set k | k in keys && k >= pivot
  }

  lemma ConcatIncreasing(a: seq<int>, b: seq<int>, pivot: int)
    requires Increasing(a) && Increasing(b)
    requires forall i :: 0 <= i < |a| ==> a[i] < pivot
    requires forall i :: 0 <= i < |b| ==> b[i] >= pivot
    ensures Increasing(a + b)
  {
    var s := a + b;
    forall i, j | 0 <= i < j < |s| ensures s[i] < s[j] {
      if j < |a| {
        assert s[i] == a[i] && s[j] == a[j];
      } else if i < |a| {
        assert s[i] == a[i] && s[j] == b[j - |a|];
      } else {
        assert s[i] == b[i - |a|] && s[j] == b[j - |a|];
      }
    }
  }

  /** Listing a set below a pivot and then from the pivot on lists the whole set. */
  lemma AscendingSplit(keys: set<int>, pivot: int)
    ensures Ascending(keys) == Ascending(Below(keys, pivot)) + Ascending(From(keys, pivot))
  {
    var low, high := Ascending(Below(keys, pivot)), Ascending(From(keys, pivot));
    ConcatIncreasing(low, high, pivot);
    forall x ensures x in low + high <==> x in Ascending(keys) {
      assert x in low <==> x in Below(keys, pivot);
      assert x in high <==> x in From(keys, pivot);
      assert x in Ascending(keys) <==> x in keys;
    }
    IncreasingUnique(low + high, Ascending(keys));
  }

  /** `keys` is exactly `0..n-1`. */
  ghost predicate Dense(keys: set<int>, n: nat) {
    forall k :: k in keys <==> 0 <= k < n
  }

  /** The ascending listing of `0..n-1` is `0, 1, ..., n-1`, so the keys number `n`. */
  lemma DenseListing(keys: set<int>, n: nat)
    requires Dense(keys, n)
    ensures |keys| == n && Ascending(keys) == seq(n, i => i)
  {
    var s := seq(n, i => i);
    assert forall k :: 0 <= k < n ==> s[k] == k;
    forall k | k in keys ensures k in s { assert s[k] == k; }
    AscendingUnique(s, keys);
    ListingSize(s, keys);
  }

  /** A set of keys is dense exactly when its listing counts up from 0. */
  lemma DenseIffCounting(keys: set<int>)
    ensures |Ascending(keys)| == |keys|
    ensures Dense(keys, |keys|) <==> forall j :: 0 <= j < |keys| ==> Ascending(keys)[j] == j
  {
    var rows := Ascending(keys);
    ListingSize(rows, keys);
    if Dense(keys, |keys|) {
      DenseListing(keys, |keys|);
    }
    if forall j :: 0 <= j < |keys| ==> rows[j] == j {
      forall k ensures k in keys <==> 0 <= k < |keys| {
        assert 0 <= k < |keys| ==> rows[k] == k;
        assert k in keys <==> k in rows;
      }
    }
  }
}

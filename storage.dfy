/** The in-memory metric store of internal/storage/storage.go: a map from a
    metric's (name, kind) key to the metric, with get, set, delete and
    iterate. */
module Storage {
  import opened Wrappers
  import opened Models

  type Store = map<MetricKey, Metrics>

  /** Every entry sits under its own key. `Set` is the only way in, and it
      files each metric under `KeyOf` of that metric. */
  ghost predicate WellKeyed(s: Store) {
    forall k :: k in s ==> KeyOf(s[k]) == k
  }

  /** `res` lists every stored metric exactly once, in some order. */
  ghost predicate IsListing(res: seq<Metrics>, s: Store) {
    && |res| == |s|
    && (forall i :: 0 <= i < |res| ==> KeyOf(res[i]) in s && s[KeyOf(res[i])] == res[i])
    && (forall i, j :: 0 <= i < j < |res| ==> KeyOf(res[i]) != KeyOf(res[j]))
  }

  /** The keys of a listing's elements are all of the store's keys. */
  function KeysOf(res: seq<Metrics>): (ks: set<MetricKey>)
    ensures forall i :: 0 <= i < |res| ==> KeyOf(res[i]) in ks
  {
    if res == [] then {} else KeysOf(res[..|res| - 1]) + {KeyOf(res[|res| - 1])}
  }

  lemma {:induction false} DistinctKeysCount(res: seq<Metrics>)
    requires forall i, j :: 0 <= i < j < |res| ==> KeyOf(res[i]) != KeyOf(res[j])
    ensures |KeysOf(res)| == |res|
  {
    if res != [] {
      var init := res[..|res| - 1];
      DistinctKeysCount(init);
      if KeyOf(res[|res| - 1]) in KeysOf(init) {
        var i := KeysOfWitness(init, KeyOf(res[|res| - 1]));
        assert false;
      }
    }
  }

  lemma {:induction false} KeysOfWitness(res: seq<Metrics>, k: MetricKey) returns (i: nat)
    requires k in KeysOf(res)
    ensures i < |res| && KeyOf(res[i]) == k
  {
    if KeyOf(res[|res| - 1]) == k {
      i := |res| - 1;
    } else {
      i := KeysOfWitness(res[..|res| - 1], k);
    }
  }

  lemma {:induction false} KeysOfWithin(res: seq<Metrics>, s: Store)
    requires forall i :: 0 <= i < |res| ==> KeyOf(res[i]) in s
    ensures KeysOf(res) <= s.Keys
  {
    if res != [] {
      KeysOfWithin(res[..|res| - 1], s);
    }
  }

  lemma SubsetCardinality<T>(a: set<T>, b: set<T>)
    requires a <= b
    ensures |a| <= |b|
  {
    assert b == a + (b - a);
  }

  /** A listing misses nothing: every stored metric occurs in it. */
  lemma {:induction false} ListingIsComplete(res: seq<Metrics>, s: Store, k: MetricKey)
    requires IsListing(res, s) && k in s
    ensures exists i :: 0 <= i < |res| && res[i] == s[k]
  {
    DistinctKeysCount(res);
    KeysOfWithin(res, s);
    var ks := KeysOf(res);
    if k !in ks {
      assert ks <= s.Keys - {k};
      assert |s.Keys - {k}| == |s| - 1;
      SubsetCardinality(ks, s.Keys - {k});
      assert false;
    }
    var i := KeysOfWitness(res, k);
    assert res[i] == s[k];
  }

  /** The listing loop of both in-memory stores' `IterMetrics`: walks the
      map's entries, appending each value once. */
  method ListMetrics(s: Store) returns (res: seq<Metrics>)
    requires WellKeyed(s)
    ensures IsListing(res, s)
  {
    res := [];
    var rest := s.Keys;
    while rest != {}
      invariant rest <= s.Keys
      invariant |res| + |rest| == |s|
      invariant forall i :: 0 <= i < |res| ==> KeyOf(res[i]) in s && KeyOf(res[i]) !in rest && s[KeyOf(res[i])] == res[i]
      invariant forall i, j :: 0 <= i < j < |res| ==> KeyOf(res[i]) != KeyOf(res[j])
      decreases rest
    {
      var k :| k in rest;
      res := res + [s[k]];
      rest := rest - {k};
    }
  }

  /** Whether some element of `xs` is filed under `k`. */
  predicate Mentions(xs: seq<Metrics>, k: MetricKey) {
    exists i :: 0 <= i < |xs| && KeyOf(xs[i]) == k
  }

  lemma {:induction false} MentionsTail(xs: seq<Metrics>, k: MetricKey)
    requires xs != [] && KeyOf(xs[0]) != k && Mentions(xs, k)
    ensures Mentions(xs[1..], k)
  {
    var i :| 0 <= i < |xs| && KeyOf(xs[i]) == k;
    assert KeyOf(xs[1..][i - 1]) == k;
  }

  /** The last element of `xs` filed under `k`. */
  function LastFor(xs: seq<Metrics>, k: MetricKey): (r: Metrics)
    requires Mentions(xs, k)
    ensures KeyOf(r) == k
  {
    var n := |xs| - 1;
    if KeyOf(xs[n]) == k then xs[n]
    else
      assert Mentions(xs[..n], k) by {
        var i :| 0 <= i < |xs| && KeyOf(xs[i]) == k;
        assert xs[..n][i] == xs[i];
      }
      LastFor(xs[..n], k)
  }

  /** The store after `Set`ting each of `xs` in turn. */
  function SetAll(s: Store, xs: seq<Metrics>): (s': Store)
    ensures WellKeyed(s) ==> WellKeyed(s')
    decreases |xs|
  {
    if xs == [] then s else SetAll(s[KeyOf(xs[0]) := xs[0]], xs[1..])
  }

  lemma {:induction false} SetAllSplit(s: Store, xs: seq<Metrics>, x: Metrics)
    ensures SetAll(s, xs + [x]) == SetAll(s, xs)[KeyOf(x) := x]
    decreases |xs|
  {
    if xs == [] {
      assert [x][1..] == [];
    } else {
      assert (xs + [x])[1..] == xs[1..] + [x];
      SetAllSplit(s[KeyOf(xs[0]) := xs[0]], xs[1..], x);
    }
  }

  /** A run of `Set`s leaves under each mentioned key the last record for it,
      and every other key as it was. */
  lemma {:induction false} SetAllLastWins(s: Store, xs: seq<Metrics>, k: MetricKey)
    ensures Mentions(xs, k) ==> k in SetAll(s, xs) && SetAll(s, xs)[k] == LastFor(xs, k)
    ensures !Mentions(xs, k) ==> (k in SetAll(s, xs) <==> k in s)
    ensures !Mentions(xs, k) && k in s ==> SetAll(s, xs)[k] == s[k]
    decreases |xs|
  {
    if xs != [] {
      var n := |xs| - 1;
      assert xs == xs[..n] + [xs[n]];
      SetAllSplit(s, xs[..n], xs[n]);
      SetAllLastWins(s, xs[..n], k);
      if Mentions(xs[..n], k) {
        assert Mentions(xs, k) by {
          var i :| 0 <= i < n && KeyOf(xs[..n][i]) == k;
          assert KeyOf(xs[i]) == k;
        }
      }
    }
  }

  class InMemMetricStorage {
    var m: Store

    ghost predicate Valid()
      reads this
    {
      WellKeyed(m)
    }

    /** `NewInMemMetricStorage`: an empty store. */
    constructor ()
      ensures Valid() && m == map[]
    {
      m := map[];
    }

    /** `Get`: the entry under `q`'s key, or the zero record and `false` when
        there is none. */
    method Get(q: Metrics) returns (res: Metrics, ok: bool)
      requires Valid()
      ensures ok <==> KeyOf(q) in m
      ensures ok ==> res == m[KeyOf(q)] && KeyOf(res) == KeyOf(q)
      ensures !ok ==> res == ZeroMetrics
    {
      ok := KeyOf(q) in m;
      res := if ok then m[KeyOf(q)] else ZeroMetrics;
    }

    /** `Set`: files `x` under its key, replacing any previous entry for that
        key; always returns nil. */
    method Set(x: Metrics) returns (err: Outcome<string>)
      requires Valid()
      modifies this
      ensures Valid()
      ensures m == old(m)[KeyOf(x) := x]
      ensures err == Pass
    {
      m := m[KeyOf(x) := x];
      err := Pass;
    }

    /** `Delete`: drops the entry under `q`'s key, if any; always returns nil. */
    method Delete(q: Metrics) returns (err: Outcome<string>)
      requires Valid()
      modifies this
      ensures Valid()
      ensures m == old(m) - {KeyOf(q)}
      ensures err == Pass
    {
      m := m - {KeyOf(q)};
      err := Pass;
    }

    /** `IterMetrics`: every stored metric exactly once, in unspecified order. */
    method IterMetrics() returns (res: seq<Metrics>)
      requires Valid()
      ensures IsListing(res, m)
    {
      res := ListMetrics(m);
    }
  }

  /** The get cases of the store's test table in use: a stored metric is got
      back by a query carrying only its name and kind, a query under another
      name finds nothing, and after a `Delete` the metric is gone. */
  method SetThenGet(x: Metrics, other: string)
    requires other != x.id
  {
    var store := new InMemMetricStorage();
    var _ := store.Set(x);
    var res, ok := store.Get(Metrics(x.id, x.mType, None, None));
    assert ok && res == x;
    res, ok := store.Get(Metrics(other, x.mType, None, None));
    assert !ok && res == ZeroMetrics;
    var _ := store.Delete(x);
    res, ok := store.Get(x);
    assert !ok;
  }
}

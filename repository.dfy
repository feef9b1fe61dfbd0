/** The metric repository of internal/storage/repository.go: aggregation
    (`Collect`) over the in-memory store, plus thin delegations. */
module Repository {
  import opened Wrappers
  import opened GoInt
  import opened Models
  import opened Storage

  /** Every stored counter carries its delta, which `Collect` dereferences. */
  ghost predicate CountersHaveDelta(s: Store) {
    forall k :: k in s && k.mType == CounterMetric ==> s[k].delta.Some?
  }

  /** What `Collect` demands of its argument: a counter comes with a delta,
      since `*metric.Delta` is read unconditionally. Nothing else is checked. */
  predicate Collectable(x: Metrics) {
    x.mType == CounterMetric ==> x.delta.Some?
  }

  /** The metric `Collect` stores and echoes: a counter's delta is added to
      the stored one (int64 addition), anything else passes through as is. */
  function Aggregate(s: Store, x: Metrics): (r: Metrics)
    requires Collectable(x) && CountersHaveDelta(s)
    ensures KeyOf(r) == KeyOf(x) && r.value == x.value
    ensures x.mType != CounterMetric ==> r == x
    ensures x.mType == CounterMetric && KeyOf(x) !in s ==> r == x
    ensures x.mType == CounterMetric && KeyOf(x) in s ==>
      r.delta == Some(Add(s[KeyOf(x)].delta.value, x.delta.value))
  {
    if x.mType == CounterMetric then
      var delta := if KeyOf(x) in s then Add(s[KeyOf(x)].delta.value, x.delta.value) else x.delta.value;
      x.(delta := Some(delta))
    else
      x
  }

  /** The store after one `Collect`. */
  function CollectStore(s: Store, x: Metrics): (s': Store)
    requires Collectable(x) && CountersHaveDelta(s)
    ensures CountersHaveDelta(s')
  {
    s[KeyOf(x) := Aggregate(s, x)]
  }

  ghost predicate AllCollectable(xs: seq<Metrics>) {
    forall i :: 0 <= i < |xs| ==> Collectable(xs[i])
  }

  /** The store after `Collect`ing each of `xs` in turn. */
  function CollectAll(s: Store, xs: seq<Metrics>): (s': Store)
    requires AllCollectable(xs) && CountersHaveDelta(s)
    ensures CountersHaveDelta(s')
    decreases |xs|
  {
    if xs == [] then s else CollectAll(CollectStore(s, xs[0]), xs[1..])
  }

  /** The sum of the deltas that `xs` submits under `k`. */
  function SumFor(xs: seq<Metrics>, k: MetricKey): int
    requires AllCollectable(xs) && k.mType == CounterMetric
  {
    if xs == [] then 0
    else (if KeyOf(xs[0]) == k then xs[0].delta.value else 0) + SumFor(xs[1..], k)
  }

  /** The stored delta for counter key `k`, absent counting as zero. */
  function Previous(s: Store, k: MetricKey): Int64
    requires CountersHaveDelta(s) && k.mType == CounterMetric
  {
    if k in s then s[k].delta.value else 0
  }

  /** Keys that no element of `xs` mentions are left exactly as they were. */
  lemma {:induction false} CollectAllOtherKeys(s: Store, xs: seq<Metrics>, k: MetricKey)
    requires AllCollectable(xs) && CountersHaveDelta(s)
    requires !Mentions(xs, k)
    ensures k in CollectAll(s, xs) <==> k in s
    ensures k in s ==> CollectAll(s, xs)[k] == s[k]
    decreases |xs|
  {
    if xs != [] {
      assert KeyOf(xs[0]) != k;
      CollectAllOtherKeys(CollectStore(s, xs[0]), xs[1..], k);
    }
  }

  /** One `Collect` under counter key `k` adds its delta to the stored one. */
  lemma CollectSameCounter(s: Store, x: Metrics, k: MetricKey)
    requires Collectable(x) && CountersHaveDelta(s)
    requires k.mType == CounterMetric && KeyOf(x) == k
    ensures k in CollectStore(s, x)
    ensures Previous(CollectStore(s, x), k) == Add(Previous(s, k), x.delta.value)
  {
  }

  /** One `Collect` under another key leaves counter key `k` alone. */
  lemma CollectOtherCounter(s: Store, x: Metrics, k: MetricKey)
    requires Collectable(x) && CountersHaveDelta(s)
    requires k.mType == CounterMetric && KeyOf(x) != k
    ensures k in CollectStore(s, x) <==> k in s
    ensures Previous(CollectStore(s, x), k) == Previous(s, k)
  {
  }

  /** Invariant I1: a counter's stored delta is the int64 sum of what was
      stored before and every delta submitted for it since, in any
      interleaving with other keys. */
  lemma {:induction false} CounterTotal(s: Store, xs: seq<Metrics>, k: MetricKey)
    requires AllCollectable(xs) && CountersHaveDelta(s)
    requires k.mType == CounterMetric
    requires k in s || Mentions(xs, k)
    ensures k in CollectAll(s, xs)
    ensures CollectAll(s, xs)[k].delta == Some(Wrap(Previous(s, k) + SumFor(xs, k)))
    decreases |xs|
  {
    if xs != [] {
      var s1 := CollectStore(s, xs[0]);
      var rest := SumFor(xs[1..], k);
      if KeyOf(xs[0]) == k {
        CollectSameCounter(s, xs[0], k);
        WrapAddAbsorb(Previous(s, k) + xs[0].delta.value, rest);
        assert Previous(s, k) + SumFor(xs, k) == Previous(s, k) + xs[0].delta.value + rest;
      } else {
        CollectOtherCounter(s, xs[0], k);
        if k !in s {
          MentionsTail(xs, k);
        }
        assert SumFor(xs, k) == rest;
      }
      CounterTotal(s1, xs[1..], k);
    }
  }

  /** With non-negative deltas and no int64 overflow, the stored counter is the
      plain sum; on a fresh key it is the sum of the submitted deltas. */
  lemma {:induction false} CounterSumNoOverflow(s: Store, xs: seq<Metrics>, k: MetricKey)
    requires AllCollectable(xs) && CountersHaveDelta(s)
    requires k.mType == CounterMetric && Mentions(xs, k)
    requires Previous(s, k) + SumFor(xs, k) <= MaxInt64
    requires forall i :: 0 <= i < |xs| && KeyOf(xs[i]) == k ==> xs[i].delta.value >= 0
    ensures k in CollectAll(s, xs) && CollectAll(s, xs)[k].delta.Some?
    ensures CollectAll(s, xs)[k].delta.value == Previous(s, k) + SumFor(xs, k)
    ensures k !in s ==> CollectAll(s, xs)[k].delta.value == SumFor(xs, k)
  {
    CounterTotal(s, xs, k);
    SumForNonNegative(xs, k);
    NoWrap(CollectAll(s, xs)[k].delta, Previous(s, k), SumFor(xs, k));
  }

  /** A non-negative addend that stays below the top of the range does not wrap. */
  lemma NoWrap(d: Option<Int64>, p: Int64, q: int)
    requires d == Some(Wrap(p + q)) && q >= 0 && p + q <= MaxInt64
    ensures d.Some? && d.value == p + q
  {
  }

  lemma {:induction false} SumForNonNegative(xs: seq<Metrics>, k: MetricKey)
    requires AllCollectable(xs) && k.mType == CounterMetric
    requires forall i :: 0 <= i < |xs| && KeyOf(xs[i]) == k ==> xs[i].delta.value >= 0
    ensures SumFor(xs, k) >= 0
  {
    if xs != [] {
      SumForNonNegative(xs[1..], k);
    }
  }

  /** Invariant I2: any other kind is last-write-wins, by arrival order. */
  lemma {:induction false} LastWriteWins(s: Store, xs: seq<Metrics>, k: MetricKey)
    requires AllCollectable(xs) && CountersHaveDelta(s)
    requires k.mType != CounterMetric && Mentions(xs, k)
    ensures k in CollectAll(s, xs) && CollectAll(s, xs)[k] == LastFor(xs, k)
    decreases |xs|
  {
    var n := |xs| - 1;
    CollectAllSplit(s, xs[..n], xs[n]);
    assert xs == xs[..n] + [xs[n]];
    if KeyOf(xs[n]) != k {
      LastWriteWins(s, xs[..n], k);
    }
  }

  /** Collecting a sequence and then one more metric. */
  lemma {:induction false} CollectAllSplit(s: Store, xs: seq<Metrics>, x: Metrics)
    requires AllCollectable(xs) && Collectable(x) && CountersHaveDelta(s)
    ensures AllCollectable(xs + [x])
    ensures CollectAll(s, xs + [x]) == CollectStore(CollectAll(s, xs), x)
    decreases |xs|
  {
    if xs == [] {
      assert [x][1..] == [];
    } else {
      assert (xs + [x])[1..] == xs[1..] + [x];
      CollectAllSplit(CollectStore(s, xs[0]), xs[1..], x);
    }
  }

  class MetricRepository {
    const storage: InMemMetricStorage

    ghost predicate Valid()
      reads this, storage
    {
      storage.Valid() && CountersHaveDelta(storage.m)
    }

    /** `NewInMemMetricRepository`: a repository over a fresh, empty store. */
    constructor ()
      ensures Valid() && fresh(storage) && storage.m == map[]
    {
      storage := new InMemMetricStorage();
    }

    /** `Get`: exactly the store's `Get`. */
    method Get(q: Metrics) returns (res: Metrics, ok: bool)
      requires Valid()
      ensures ok <==> KeyOf(q) in storage.m
      ensures ok ==> res == storage.m[KeyOf(q)]
      ensures !ok ==> res == ZeroMetrics
    {
      res, ok := storage.Get(q);
    }

    /** `Collect`: stores the aggregated metric under the argument's key and
        echoes what it stored; the store's nil error is passed on. */
    method Collect(x: Metrics) returns (r: Metrics, err: Outcome<string>)
      requires Valid() && Collectable(x)
      modifies storage
      ensures Valid()
      ensures r == Aggregate(old(storage.m), x)
      ensures storage.m == CollectStore(old(storage.m), x) && storage.m[KeyOf(x)] == r
      ensures err == Pass
    {
      var metric := x;
      if x.mType == CounterMetric {
        var delta := x.delta.value;
        var oldMetric, ok := storage.Get(x);
        if ok {
          delta := Add(oldMetric.delta.value, delta);
        }
        metric := metric.(delta := Some(delta));
      }
      err := storage.Set(metric);
      r := metric;
    }

    /** `Delete`: exactly the store's `Delete`. */
    method Delete(q: Metrics) returns (err: Outcome<string>)
      requires Valid()
      modifies storage
      ensures Valid()
      ensures storage.m == old(storage.m) - {KeyOf(q)}
      ensures err == Pass
    {
      err := storage.Delete(q);
    }

    /** `GetAllMetrics`: exactly the store's `IterMetrics`. */
    method GetAllMetrics() returns (res: seq<Metrics>)
      requires Valid()
      ensures IsListing(res, storage.m)
    {
      res := storage.IterMetrics();
    }
  }
}

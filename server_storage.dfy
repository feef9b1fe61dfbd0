/** The server's first store, cmd/server/storage.go: a counter map whose
    `Add` accumulates (int64 `+=`, a missing name reading as 0) beside an
    independent gauge map whose `Set` overwrites. */
module ServerStorage {
  import opened GoInt
  import opened Models

  /** The counter map after adding `v` under `n`: the stored value plus `v`,
      or `v` itself for a new name; every other name is untouched. */
  function Added(m: map<string, Int64>, n: string, v: Int64): (r: map<string, Int64>)
    ensures r.Keys == m.Keys + {n}
    ensures n in m ==> r[n] == Add(m[n], v)
    ensures n !in m ==> r[n] == v
    ensures forall other :: other in m && other != n ==> r[other] == m[other]
  {
    m[n := Add(if n in m then m[n] else 0, v)]
  }

  /** The counter after adding each of `vs` under `n` in turn. */
  function AddedAll(m: map<string, Int64>, n: string, vs: seq<Int64>): map<string, Int64>
    decreases |vs|
  {
    if vs == [] then m else AddedAll(Added(m, n, vs[0]), n, vs[1..])
  }

  function Sum(vs: seq<Int64>): int
  {
    if vs == [] then 0 else vs[0] + Sum(vs[1..])
  }

  /** Repeated `Add`s accumulate: the stored value is the int64 sum of what
      was there (0 if nothing) and every added value, and no other name
      changes. */
  lemma {:induction false} AddsAccumulate(m: map<string, Int64>, n: string, vs: seq<Int64>)
    ensures n in AddedAll(m, n, vs) || vs == []
    ensures vs != [] ==> AddedAll(m, n, vs)[n] == Wrap((if n in m then m[n] else 0) + Sum(vs))
    ensures forall other :: other != n ==>
      (other in AddedAll(m, n, vs) <==> other in m) && (other in m ==> AddedAll(m, n, vs)[other] == m[other])
    decreases |vs|
  {
    if vs != [] {
      var m1 := Added(m, n, vs[0]);
      AddsAccumulate(m1, n, vs[1..]);
      var p := if n in m then m[n] else 0;
      if vs[1..] != [] {
        WrapAddAbsorb(p + vs[0], Sum(vs[1..]));
        assert p + Sum(vs) == p + vs[0] + Sum(vs[1..]);
      } else {
        assert Sum(vs) == vs[0];
      }
    }
  }

  class LocalCounter {
    var m: map<string, Int64>

    constructor ()
      ensures m == map[]
    {
      m := map[];
    }

    /** `Add`: `m[n] += v`, with no sign check. */
    method Add(n: string, v: Int64)
      modifies this
      ensures m == Added(old(m), n, v)
    {
      var current := if n in m then m[n] else 0;
      m := m[n := GoInt.Add(current, v)];
    }
  }

  class LocalGauge {
    var m: map<string, Float64>

    constructor ()
      ensures m == map[]
    {
      m := map[];
    }

    /** `Set`: overwrites the reading under `n`. */
    method Set(n: string, v: Float64)
      modifies this
      ensures m == old(m)[n := v]
    {
      m := m[n := v];
    }
  }

  /** The pair of stores; being separate objects, an update of one never
      touches the other. */
  class MemStorage {
    const counter: LocalCounter
    const gauge: LocalGauge

    /** `InitLocalMemStorage`: two new, empty maps. */
    constructor ()
      ensures fresh(counter) && fresh(gauge)
      ensures counter.m == map[] && gauge.m == map[]
    {
      counter := new LocalCounter();
      gauge := new LocalGauge();
    }
  }

  /** A counter `Add` leaves the gauges alone and vice versa. */
  method Independence(store: MemStorage, n: string, v: Int64, g: Float64)
    modifies store.counter, store.gauge
  {
    var gauges := store.gauge.m;
    store.counter.Add(n, v);
    assert store.gauge.m == gauges;
    var counters := store.counter.m;
    store.gauge.Set(n, g);
    assert store.counter.m == counters;
  }
}

/** The agent side of internal/agent/reporter.go that is not network I/O:
    normalising the server address, and one collection round of runtime
    metrics into the agent's repository, where PollCount counts rounds. The
    runtime readings and the random gauge are inputs: a round is a map from
    metric name to metric. */
module Reporter {
  import opened Wrappers
  import opened GoInt
  import opened Models
  import opened Storage
  import opened Repository
  import Helpers

  const PollCount: string := "PollCount"

  /** Where the repository keeps the PollCount counter. */
  const PollKey: MetricKey := MetricKey(PollCount, CounterMetric)

  predicate HasPrefix(s: string, p: string) {
    |p| <= |s| && s[..|p|] == p
  }

  /** A string whose `i`-th character differs from `p`'s does not start with `p`. */
  lemma NotPrefixAt(s: string, p: string, i: nat)
    requires i < |p| && i < |s| && s[i] != p[i]
    ensures !HasPrefix(s, p)
  {
  }

  /** `formatServerAddress`: a bare ":port" gets "localhost" in front, and
      anything not already starting with "http://" gets that scheme. */
  function FormatServerAddress(raw: string): (r: string)
    ensures HasPrefix(r, "http://")
    ensures HasPrefix(raw, "http://") ==> r == raw
    ensures HasPrefix(raw, ":") ==> r == "http://localhost" + raw
    ensures !HasPrefix(raw, ":") && !HasPrefix(raw, "http://") ==> r == "http://" + raw
  {
    if HasPrefix(raw, ":") then
      NotPrefixAt("localhost" + raw, "http://", 0);
      "http://" + ("localhost" + raw)
    else if HasPrefix(raw, "http://") then raw
    else "http://" + raw
  }

  /** Formatting an address twice is formatting it once. */
  lemma FormatIdempotent(raw: string)
    ensures FormatServerAddress(FormatServerAddress(raw)) == FormatServerAddress(raw)
  {
    var r := FormatServerAddress(raw);
    NotPrefixAt(r, ":", 0);
  }

  // The addresses of the sender's test table.

  /** A host name or address with neither a leading ':' nor a leading 'h'
      ("localhost:9999", "192.168.0.1:9999") gets only the scheme. */
  lemma FormatWithoutScheme(raw: string)
    requires raw != [] && raw[0] != ':' && raw[0] != 'h'
    ensures FormatServerAddress(raw) == "http://" + raw
  {
    NotPrefixAt(raw, ":", 0);
    NotPrefixAt(raw, "http://", 0);
  }

  lemma FormatWithScheme()
    ensures FormatServerAddress("http://192.168.0.1:9999") == "http://192.168.0.1:9999"
  {
    NotPrefixAt("http://192.168.0.1:9999", ":", 0);
    assert "http://192.168.0.1:9999"[..7] == "http://";
  }

  lemma FormatBarePort()
    ensures FormatServerAddress(":9999") == "http://localhost:9999"
  {
    assert ":9999"[..1] == ":";
  }

  /** What `getMemMetrics` returns: every metric filed under its own name,
      PollCount the counter 1, and everything else a gauge. */
  ghost predicate IsMemMetricsRound(round: map<string, Helpers.Metric>) {
    && PollCount in round
    && round[PollCount] == Helpers.Counter(PollCount, 1)
    && forall id :: id in round ==> round[id].name == id && (id != PollCount ==> round[id].Gauge?)
  }

  /** The repository key the round's entry `id` is collected under. */
  function RoundKey(round: map<string, Helpers.Metric>, id: string): (k: MetricKey)
    requires id in round
    ensures k == KeyOf(Helpers.ConvertToSend(round[id]))
  {
    KeyOf(Helpers.ConvertToSend(round[id]))
  }

  /** The keys of the given entries of a round. */
  ghost function RoundKeys(round: map<string, Helpers.Metric>, ids: set<string>): set<MetricKey>
    requires ids <= round.Keys
  {
    set id | id in ids :: RoundKey(round, id)
  }

  /** Entries under distinct names land under distinct keys. */
  lemma RoundKeysDistinct(round: map<string, Helpers.Metric>, a: string, b: string)
    requires IsMemMetricsRound(round) && a in round && b in round && a != b
    ensures RoundKey(round, a) != RoundKey(round, b)
  {
  }

  /** What a round has done once the entries outside `rest` are collected:
      PollCount (if done) is one more than before, each done gauge holds its
      new reading, and every key no done entry maps to is as it was. */
  ghost predicate RoundDone(s0: Store, round: map<string, Helpers.Metric>, rest: set<string>, s: Store)
    requires CountersHaveDelta(s0) && rest <= round.Keys
  {
    && (PollCount !in rest ==> PollKey in s && s[PollKey].delta == Some(Add(Previous(s0, PollKey), 1)))
    && (forall id :: id in round && id !in rest && id != PollCount ==>
          RoundKey(round, id) in s && s[RoundKey(round, id)] == Helpers.ConvertToSend(round[id]))
    && (forall k :: k !in RoundKeys(round, round.Keys - rest) ==>
          (k in s <==> k in s0) && (k in s ==> s[k] == s0[k]))
  }

  /** Collecting one more entry of the round keeps `RoundDone`. */
  lemma RoundStep(s0: Store, round: map<string, Helpers.Metric>, rest: set<string>, id: string, s: Store)
    requires IsMemMetricsRound(round) && CountersHaveDelta(s0) && CountersHaveDelta(s)
    requires rest <= round.Keys && id in rest
    requires RoundDone(s0, round, rest, s)
    ensures Collectable(Helpers.ConvertToSend(round[id]))
    ensures RoundDone(s0, round, rest - {id}, CollectStore(s, Helpers.ConvertToSend(round[id])))
  {
    var x := Helpers.ConvertToSend(round[id]);
    var key := RoundKey(round, id);
    var s1 := CollectStore(s, x);
    assert key !in RoundKeys(round, round.Keys - rest) by {
      forall other | other in round.Keys - rest
        ensures RoundKey(round, other) != key
      {
        RoundKeysDistinct(round, other, id);
      }
    }
    assert RoundKeys(round, round.Keys - (rest - {id})) == RoundKeys(round, round.Keys - rest) + {key};
    if id == PollCount {
      assert key == PollKey;
      assert s1[PollKey].delta == Some(Add(Previous(s0, PollKey), 1));
    } else {
      assert key != PollKey;
      forall other | other in round && other !in rest - {id} && other != PollCount
        ensures RoundKey(round, other) in s1 && s1[RoundKey(round, other)] == Helpers.ConvertToSend(round[other])
      {
        if other != id {
          RoundKeysDistinct(round, other, id);
        }
      }
    }
  }

  /** `CollectMemMetrics`: collects every metric of the round, in map order,
      into the repository (each in its wire form); `Collect`'s error would
      only be logged. PollCount grows by exactly 1 (int64 addition), every
      gauge is replaced by its new reading, and nothing else changes. */
  method CollectMemMetrics(repo: MetricRepository, round: map<string, Helpers.Metric>)
    requires repo.Valid() && IsMemMetricsRound(round)
    modifies repo.storage
    ensures repo.Valid()
    ensures PollKey in repo.storage.m
    ensures repo.storage.m[PollKey].delta == Some(Add(Previous(old(repo.storage.m), PollKey), 1))
    ensures forall id :: id in round && id != PollCount ==>
      RoundKey(round, id) in repo.storage.m && repo.storage.m[RoundKey(round, id)] == Helpers.ConvertToSend(round[id])
    ensures forall k :: k !in RoundKeys(round, round.Keys) ==>
      (k in repo.storage.m <==> k in old(repo.storage.m)) && (k in repo.storage.m ==> repo.storage.m[k] == old(repo.storage.m)[k])
  {
    ghost var s0 := repo.storage.m;
    var rest := round.Keys;
    assert round.Keys - rest == {};
    assert RoundKeys(round, {}) == {};
    while rest != {}
      invariant rest <= round.Keys
      invariant repo.Valid()
      invariant RoundDone(s0, round, rest, repo.storage.m)
      decreases |rest|
    {
      var id :| id in rest;
      RoundStep(s0, round, rest, id, repo.storage.m);
      var _, _ := repo.Collect(Helpers.ConvertToSend(round[id]));
      rest := rest - {id};
    }
    assert round.Keys - rest == round.Keys;
  }

  /** The agent's first rounds on a fresh repository count 1, then 2. */
  method TwoRounds(round: map<string, Helpers.Metric>)
    requires IsMemMetricsRound(round)
  {
    var repo := new MetricRepository();
    CollectMemMetrics(repo, round);
    assert repo.storage.m[PollKey].delta == Some(1);
    CollectMemMetrics(repo, round);
    assert repo.storage.m[PollKey].delta == Some(2);
  }
}

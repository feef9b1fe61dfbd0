/** The metric value model of internal/storage/models.go. */
module Models {
  import opened Wrappers
  import opened GoInt

  /** A Go `float64`, kept as its IEEE-754 bit pattern. Gauges are only stored,
      copied and overwritten, never used in arithmetic, so the bits suffice. */
  datatype Float64 = Float64(bits: bv64)

  /** The two kinds the storage layer knows. */
  const GaugeMetric: string := "gauge"
  const CounterMetric: string := "counter"

  /** `Metrics`: a name, a kind string, and two optional payloads. A counter's
      payload is `delta`, a gauge's is `value`; an absent payload (a nil `*int64` or `*float64`,
      omitted from JSON) is `None`, which is distinct from `Some(0)`. */
  datatype Metrics = Metrics(id: string, mType: string, delta: Option<Int64>, value: Option<Float64>)

  /** The zero `Metrics{}` a Go map lookup yields for a missing key. */
  const ZeroMetrics: Metrics := Metrics("", "", None, None)

  /** `NewMetrics`: builds the record from its four arguments with no
      validation at all; checking happens in `Helpers.ConvertFrom`. */
  function NewMetrics(id: string, mType: string, delta: Option<Int64>, value: Option<Float64>): (r: Metrics)
    ensures r.id == id && r.mType == mType && r.delta == delta && r.value == value
  {
    Metrics(id, mType, delta, value)
  }

  /** Identity of a stored metric: its name together with its kind. */
  datatype MetricKey = MetricKey(id: string, mType: string)

  function KeyOf(m: Metrics): (k: MetricKey)
    ensures k.id == m.id && k.mType == m.mType
  {
    MetricKey(m.id, m.mType)
  }

  /** Every record can be built by `NewMetrics`, whatever its kind string and
      whichever payloads it carries. */
  lemma NewMetricsIsTotal(m: Metrics)
    ensures NewMetrics(m.id, m.mType, m.delta, m.value) == m
  {
  }

  /** An absent delta is not a zero delta: the two records differ. */
  lemma AbsentIsNotZero(id: string, mType: string)
    ensures NewMetrics(id, mType, None, None) != NewMetrics(id, mType, Some(0), None)
    ensures NewMetrics(id, mType, None, None) != NewMetrics(id, mType, None, Some(Float64(0)))
  {
  }

  /** The same name can be a counter entry and a gauge entry at once: their
      keys differ. */
  lemma KindSeparatesKeys(id: string, d: Int64, g: Float64)
    ensures KeyOf(NewMetrics(id, CounterMetric, Some(d), None)) != KeyOf(NewMetrics(id, GaugeMetric, None, Some(g)))
  {
  }
}

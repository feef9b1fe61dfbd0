/** Boundary validation and conversion of internal/storage/helpers.go: the
    name pattern, `ParseMetric`, `ConvertFrom` and `ConvertToSend`, plus the
    base-10 int64 parsing that `ParseMetric` relies on. */
module Helpers {
  import opened Wrappers
  import opened GoInt
  import opened Models

  /** A validated metric: a gauge with its reading or a counter with its
      delta (the `Gauge` and `Counter` structs the source converts into). */
  datatype Metric = Gauge(name: string, reading: Float64) | Counter(name: string, count: Int64)
  {
    /** `ExportTypeName`: the kind string the metric is sent under. */
    function ExportTypeName(): (t: string)
      ensures t == if Gauge? then GaugeMetric else CounterMetric
    {
      if Gauge? then GaugeMetric else CounterMetric
    }
  }

  /** The errors `ConvertFrom` reports, one per distinct message. */
  datatype ConvertError =
    | InvalidName    // "not valid metric Name"
    | InvalidValue   // "not valid metric Value"
    | NegativeDelta  // "delta could be only positive"
    | InvalidType    // "not valid metric type"

  // ---------------------------------------------------------------------
  // validNamePattern = ^[a-zA-Z]\w{0,127}$ (Go RE2: `$` is end of text, `\w`
  // is ASCII [0-9A-Za-z_])

  predicate IsAsciiLetter(c: char) {
    'a' <= c <= 'z' || 'A' <= c <= 'Z'
  }

  predicate IsDigit(c: char) {
    '0' <= c <= '9'
  }

  predicate IsWordChar(c: char) {
    IsAsciiLetter(c) || IsDigit(c) || c == '_'
  }

  /** A name accepted by `validNamePattern`: an ASCII letter followed by 0 to
      127 word characters, and nothing else. */
  predicate ValidName(s: string) {
    && 1 <= |s| <= 128
    && IsAsciiLetter(s[0])
    && (forall i :: 1 <= i < |s| ==> IsWordChar(s[i]))
  }

  /** `\w{0,n}$`: at most `n` word characters, then the end of the text. */
  predicate WordsUpTo(s: string, n: nat)
    decreases |s|
  {
    if s == [] then true else n > 0 && IsWordChar(s[0]) && WordsUpTo(s[1..], n - 1)
  }

  /** `^[a-zA-Z]\w{0,127}$`, read off the pattern element by element. */
  predicate MatchesNamePattern(s: string) {
    s != [] && IsAsciiLetter(s[0]) && WordsUpTo(s[1..], 127)
  }

  lemma {:induction false} WordsUpToIff(s: string, n: nat)
    ensures WordsUpTo(s, n) <==> |s| <= n && forall i :: 0 <= i < |s| ==> IsWordChar(s[i])
    decreases |s|
  {
    if s != [] && n > 0 {
      WordsUpToIff(s[1..], n - 1);
      assert forall i :: 1 <= i < |s| ==> s[i] == s[1..][i - 1];
    }
  }

  /** The name rule matches the pattern: 1 to 128 characters, an ASCII letter
      first, ASCII word characters after it, and nothing after the last one
      (RE2's `$` without the multi-line flag matches only at the end of the
      text, so a trailing newline is refused). */
  lemma NamePatternIsValidName(s: string)
    ensures MatchesNamePattern(s) <==> ValidName(s)
    ensures ValidName(s) ==> 1 <= |s| <= 128 && '\n' !in s
  {
    if s != [] {
      WordsUpToIff(s[1..], 127);
      assert forall i :: 1 <= i < |s| ==> s[i] == s[1..][i - 1];
    }
  }

  // ---------------------------------------------------------------------
  // strconv.ParseInt(s, 10, 64)

  predicate AllDigits(s: string) {
    forall i :: 0 <= i < |s| ==> IsDigit(s[i])
  }

  /** The number a string of decimal digits denotes (leading zeros allowed). */
  function DigitsValue(s: string): nat
    requires AllDigits(s)
    decreases |s|
  {
    if s == [] then 0
    else DigitsValue(s[..|s| - 1]) * 10 + (s[|s| - 1] as int - '0' as int)
  }

  /** `strconv.ParseInt(s, 10, 64)` with its error folded into `None`: an
      optional `+` or `-`, then at least one decimal digit and nothing else,
      denoting a value in the int64 range. */
  function ParseInt64(s: string): (r: Option<Int64>)
    ensures r.Some? ==> s != [] && AllDigits(SignFree(s)) && SignFree(s) != []
  {
    if s == [] then None
    else
      var neg := s[0] == '-';
      var digits := SignFree(s);
      if digits == [] || !AllDigits(digits) then None
      else
        var un: int := DigitsValue(digits);
        if !neg && un > MaxInt64 then None
        else if neg && un > -MinInt64 then None
        else Some(if neg then -un else un)
  }

  /** `s` without its leading sign, if it has one. */
  function SignFree(s: string): (d: string)
    ensures |d| <= |s|
  {
    if s != [] && (s[0] == '+' || s[0] == '-') then s[1..] else s
  }

  /** Decimal digits of a natural number, without leading zeros. */
  function NatDigits(n: nat): (s: string)
    ensures s != [] && AllDigits(s)
    decreases n
  {
    if n < 10 then [('0' as int + n) as char]
    else NatDigits(n / 10) + [('0' as int + n % 10) as char]
  }

  /** `strconv.FormatInt(n, 10)`, the `%d` rendering of a counter. */
  function FormatInt64(n: Int64): (s: string)
    ensures s != []
  {
    if n < 0 then "-" + NatDigits(-(n as int)) else NatDigits(n)
  }

  lemma {:induction false} NatDigitsValue(n: nat)
    ensures DigitsValue(NatDigits(n)) == n
    decreases n
  {
    var s := NatDigits(n);
    if n >= 10 {
      NatDigitsValue(n / 10);
      assert s[..|s| - 1] == NatDigits(n / 10);
    }
  }

  /** Parsing inverts formatting: every int64 survives the `%d` round trip. */
  lemma FormatThenParse(n: Int64)
    ensures ParseInt64(FormatInt64(n)) == Some(n)
  {
    var s := FormatInt64(n);
    if n < 0 {
      NatDigitsValue(-(n as int));
      assert SignFree(s) == NatDigits(-(n as int));
    } else {
      NatDigitsValue(n);
      assert IsDigit(s[0]);
      assert SignFree(s) == s;
    }
  }

  /** A character other than a digit after the optional sign makes the parse
      fail: "868434.2342" and "868434sdf" are not int64 literals. */
  lemma ParseRejectsNonDigit(s: string, i: nat)
    requires i < |SignFree(s)| && !IsDigit(SignFree(s)[i])
    ensures ParseInt64(s) == None
  {
  }

  // ---------------------------------------------------------------------
  // ConvertFrom / ConvertToSend / ParseMetric

  /** `ConvertFrom`: validates the name first, then the payload the declared
      kind calls for; on success the name and that payload are carried over
      unchanged and the other payload is dropped. */
  function ConvertFrom(m: Metrics): (r: Result<Metric, ConvertError>)
    ensures !ValidName(m.id) ==> r == Err(InvalidName)
    ensures r.Ok? <==> (ValidName(m.id) &&
      ((m.mType == GaugeMetric && m.value.Some?) ||
       (m.mType == CounterMetric && m.delta.Some? && m.delta.value >= 0)))
    ensures r.Ok? && m.mType == GaugeMetric ==> r.value == Gauge(m.id, m.value.value)
    ensures r.Ok? && m.mType == CounterMetric ==> r.value == Counter(m.id, m.delta.value)
    ensures ValidName(m.id) && m.mType == GaugeMetric && m.value.None? ==> r == Err(InvalidValue)
    ensures ValidName(m.id) && m.mType == CounterMetric && m.delta.None? ==> r == Err(InvalidValue)
    ensures ValidName(m.id) && m.mType == CounterMetric && m.delta.Some? && m.delta.value < 0 ==> r == Err(NegativeDelta)
    ensures ValidName(m.id) && m.mType != GaugeMetric && m.mType != CounterMetric ==> r == Err(InvalidType)
  {
    if !ValidName(m.id) then Err(InvalidName)
    else if m.mType == GaugeMetric then
      if m.value.None? then Err(InvalidValue) else Ok(Gauge(m.id, m.value.value))
    else if m.mType == CounterMetric then
      if m.delta.None? then Err(InvalidValue)
      else if m.delta.value < 0 then Err(NegativeDelta)
      else Ok(Counter(m.id, m.delta.value))
    else Err(InvalidType)
  }

  /** `ConvertToSend`: the wire record for a metric, with only the payload of
      its own kind filled in. */
  function ConvertToSend(m: Metric): (r: Metrics)
    ensures r.id == m.name && r.mType == m.ExportTypeName()
    ensures m.Gauge? ==> r.delta == None && r.value == Some(m.reading)
    ensures m.Counter? ==> r.delta == Some(m.count) && r.value == None
  {
    match m
    case Gauge(name, reading) => NewMetrics(name, m.ExportTypeName(), None, Some(reading))
    case Counter(name, count) => NewMetrics(name, m.ExportTypeName(), Some(count), None)
  }

  /** The metrics `ConvertFrom` accepts back. */
  predicate ValidMetric(m: Metric) {
    ValidName(m.name) && (m.Counter? ==> m.count >= 0)
  }

  /** Encoding then validating gives the metric back exactly when the metric
      is one that validation admits. */
  lemma ConvertRoundTrip(m: Metric)
    ensures ConvertFrom(ConvertToSend(m)) == Ok(m) <==> ValidMetric(m)
  {
  }

  /** The record `ConvertToSend` produces for what `ConvertFrom` accepted:
      the same record with the other kind's payload dropped. */
  function Canonical(x: Metrics): Metrics {
    if x.mType == GaugeMetric then x.(delta := None)
    else if x.mType == CounterMetric then x.(value := None)
    else x
  }

  /** Validating then encoding keeps the name, the kind and the payload that
      kind carries. */
  lemma ConvertThenSend(x: Metrics)
    requires ConvertFrom(x).Ok?
    ensures ConvertToSend(ConvertFrom(x).value) == Canonical(x)
  {
  }

  /** `ParseMetric`: reads `val` as both a float and a base-10 int64, builds
      the record with whichever succeeded, and validates it with
      `ConvertFrom`. `parseFloat` stands for `strconv.ParseFloat(val, 64)`. */
  function ParseMetric(valType: string, name: string, val: string, parseFloat: string -> Option<Float64>): (r: Result<Metric, ConvertError>)
    ensures !ValidName(name) ==> r == Err(InvalidName)
    ensures valType == CounterMetric ==>
      (r.Ok? <==> ValidName(name) && ParseInt64(val).Some? && ParseInt64(val).value >= 0)
    ensures valType == CounterMetric && r.Ok? ==> r.value == Counter(name, ParseInt64(val).value)
    ensures valType == GaugeMetric ==> (r.Ok? <==> ValidName(name) && parseFloat(val).Some?)
    ensures valType == GaugeMetric && r.Ok? ==> r.value == Gauge(name, parseFloat(val).value)
    ensures valType != GaugeMetric && valType != CounterMetric ==> r.Err?
  {
    var value := parseFloat(val);
    var delta := ParseInt64(val);
    ConvertFrom(NewMetrics(name, valType, delta, value))
  }

  /** The path-update cases of the handler tests: a fractional or suffixed
      counter value and a name starting with a digit are all rejected, and a
      plain decimal counter is accepted as that number. */
  lemma UpdatePathExamples(parseFloat: string -> Option<Float64>)
    ensures ParseMetric(CounterMetric, "roman", "868434sdf", parseFloat).Err?
    ensures ParseMetric(CounterMetric, "roman", "868434.2342", parseFloat).Err?
    ensures ParseMetric(CounterMetric, "1roman", "868434", parseFloat) == Err(InvalidName)
    ensures ParseMetric("unknown", "roman", "868434sdf", parseFloat) == Err(InvalidType)
    ensures ParseMetric(CounterMetric, "roman", "868434", parseFloat) == Ok(Counter("roman", 868434))
  {
    ParseRejectsNonDigit("868434sdf", 6);
    ParseRejectsNonDigit("868434.2342", 6);
    assert ValidName("roman") by {
      assert IsAsciiLetter("roman"[0]);
    }
    assert !IsAsciiLetter("1roman"[0]);
    var d := "868434";
    assert AllDigits(d) && SignFree(d) == d;
    assert DigitsValue(d) == 868434 by {
      assert "8"[..0] == "";
      assert DigitsValue("8") == 8;
      assert "86"[..1] == "8";
      assert DigitsValue("86") == 86;
      assert "868"[..2] == "86";
      assert DigitsValue("868") == 868;
      assert "8684"[..3] == "868";
      assert DigitsValue("8684") == 8684;
      assert "86843"[..4] == "8684";
      assert DigitsValue("86843") == 86843;
      assert d[..5] == "86843";
    }
  }

  /** The JSON-update cases of the handler tests: a gauge carrying a delta
      instead of a value, and a negative counter delta, are rejected; a zero
      delta is accepted. */
  lemma UpdateJsonExamples(g: Float64)
    ensures ConvertFrom(NewMetrics("test", GaugeMetric, Some(1), None)) == Err(InvalidValue)
    ensures ConvertFrom(NewMetrics("test", CounterMetric, Some(-1), None)) == Err(NegativeDelta)
    ensures ConvertFrom(NewMetrics("test", CounterMetric, Some(0), None)) == Ok(Counter("test", 0))
    ensures ConvertFrom(NewMetrics("test", GaugeMetric, None, Some(g))) == Ok(Gauge("test", g))
  {
    assert ValidName("test") by {
      assert IsAsciiLetter("test"[0]);
    }
  }
}

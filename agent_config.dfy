/** The agent's functional-options configuration, cmd/agent/config.go: the
    server address and the report and poll intervals (as nanosecond
    durations), each overridable by one kind of option. A negative interval
    makes the option panic, which is modelled as an error that ends `New`. */
module AgentConfig {
  import opened GoInt
  import Wrappers
  import InternalConfig = Config

  const DefaultAddress: string := "http://localhost:8080"
  const DefaultReportInterval: Int64 := 10
  const DefaultPollInterval: Int64 := 2

  datatype Config = Config(address: string, reportInterval: Int64, pollInterval: Int64)

  /** A Go `Option` closure, by the constructor that made it. */
  datatype Option =
    | WithAddress(address: string)
    | WithPollInterval(second: Int64)
    | WithReportInterval(second: Int64)

  /** The panics an option can raise, with the offending value. */
  datatype Panic = NegativePollInterval(second: Int64) | NegativeReportInterval(second: Int64)

  /** The configuration before any option: the address and 10s / 2s. */
  function Defaults(): (c: Config)
    ensures c.address == DefaultAddress
    ensures c.reportInterval == InternalConfig.Seconds(DefaultReportInterval) == 10_000_000_000
    ensures c.pollInterval == InternalConfig.Seconds(DefaultPollInterval) == 2_000_000_000
  {
    Config(DefaultAddress, InternalConfig.Seconds(DefaultReportInterval), InternalConfig.Seconds(DefaultPollInterval))
  }

  predicate HasPrefix(s: string, p: string) {
    |p| <= |s| && s[..|p|] == p
  }

  /** The address `WithAddress` stores: "http://" is put in front unless the
      address starts with "http" (so "https://..." is kept, and so is a bare
      host whose name begins with "http"). */
  function SchemeAddress(address: string): (r: string)
    ensures HasPrefix(r, "http")
    ensures HasPrefix(address, "http") ==> r == address
    ensures !HasPrefix(address, "http") ==> r == "http://" + address
  {
    if HasPrefix(address, "http") then address
    else
      assert ("http://" + address)[..4] == "http";
      "http://" + address
  }

  /** Running one option on a configuration. Each option changes at most its
      own field: an empty address and a zero interval change nothing, a
      positive interval of n sets n seconds, a negative one panics. */
  function Apply(c: Config, opt: Option): (r: Wrappers.Result<Config, Panic>)
    ensures r.Err? <==> !opt.WithAddress? && opt.second < 0
    ensures opt.WithPollInterval? && opt.second < 0 ==> r == Wrappers.Err(NegativePollInterval(opt.second))
    ensures opt.WithReportInterval? && opt.second < 0 ==> r == Wrappers.Err(NegativeReportInterval(opt.second))
    ensures r.Ok? && !opt.WithAddress? ==> r.value.address == c.address
    ensures r.Ok? && !opt.WithPollInterval? ==> r.value.pollInterval == c.pollInterval
    ensures r.Ok? && !opt.WithReportInterval? ==> r.value.reportInterval == c.reportInterval
    ensures opt.WithAddress? ==> r.Ok? && r.value.address == (if opt.address == "" then c.address else SchemeAddress(opt.address))
    ensures !opt.WithAddress? && opt.second == 0 ==> r == Wrappers.Ok(c)
    ensures opt.WithPollInterval? && opt.second > 0 ==> r.Ok? && r.value.pollInterval == InternalConfig.Seconds(opt.second)
    ensures opt.WithReportInterval? && opt.second > 0 ==> r.Ok? && r.value.reportInterval == InternalConfig.Seconds(opt.second)
  {
    match opt
    case WithAddress(address) =>
      if address == "" then Wrappers.Ok(c) else Wrappers.Ok(c.(address := SchemeAddress(address)))
    case WithPollInterval(second) =>
      if second < 0 then Wrappers.Err(NegativePollInterval(second))
      else if second > 0 then Wrappers.Ok(c.(pollInterval := InternalConfig.Seconds(second)))
      else Wrappers.Ok(c)
    case WithReportInterval(second) =>
      if second < 0 then Wrappers.Err(NegativeReportInterval(second))
      else if second > 0 then Wrappers.Ok(c.(reportInterval := InternalConfig.Seconds(second)))
      else Wrappers.Ok(c)
  }

  /** Options applied in order; the first panic ends the run. */
  function ApplyAll(c: Config, opts: seq<Option>): Wrappers.Result<Config, Panic>
    decreases |opts|
  {
    if opts == [] then Wrappers.Ok(c)
    else match Apply(c, opts[0])
      case Err(p) => Wrappers.Err(p)
      case Ok(c1) => ApplyAll(c1, opts[1..])
  }

  predicate Negative(opt: Option) {
    !opt.WithAddress? && opt.second < 0
  }

  /** Applying a list and then one more option. */
  lemma {:induction false} ApplyAllSnoc(c: Config, opts: seq<Option>, opt: Option)
    ensures ApplyAll(c, opts + [opt]) ==
      (if ApplyAll(c, opts).Err? then ApplyAll(c, opts) else Apply(ApplyAll(c, opts).value, opt))
    decreases |opts|
  {
    if opts == [] {
      assert [opt][1..] == [];
    } else {
      assert (opts + [opt])[1..] == opts[1..] + [opt];
      if Apply(c, opts[0]).Ok? {
        ApplyAllSnoc(Apply(c, opts[0]).value, opts[1..], opt);
      }
    }
  }

  /** `New` panics exactly when some option is a negative interval, and
      then with the first such option's message. */
  lemma {:induction false} PanicsIffNegative(c: Config, opts: seq<Option>)
    ensures ApplyAll(c, opts).Err? <==> exists i :: 0 <= i < |opts| && Negative(opts[i])
    ensures ApplyAll(c, opts).Err? ==> exists i :: (0 <= i < |opts| && Negative(opts[i])
      && Apply(c, opts[i]).Err? && ApplyAll(c, opts).error == Apply(c, opts[i]).error
      && forall j :: 0 <= j < i ==> !Negative(opts[j]))
    decreases |opts|
  {
    if opts != [] {
      var r := Apply(c, opts[0]);
      if r.Ok? {
        PanicsIffNegative(r.value, opts[1..]);
        assert forall i :: 1 <= i < |opts| ==> opts[i] == opts[1..][i - 1];
        if ApplyAll(c, opts).Err? {
          var i :| 0 <= i < |opts[1..]| && Negative(opts[1..][i])
            && Apply(r.value, opts[1..][i]).Err? && ApplyAll(r.value, opts[1..]).error == Apply(r.value, opts[1..][i]).error
            && forall j :: 0 <= j < i ==> !Negative(opts[1..][j]);
          assert Negative(opts[i + 1]);
        }
      } else {
        assert Negative(opts[0]);
      }
    }
  }

  /** A later option overrides an earlier one: after a non-empty address
      option, the address is that option's, whatever came before. */
  lemma {:induction false} LaterAddressWins(c: Config, opts: seq<Option>, address: string)
    requires address != "" && ApplyAll(c, opts).Ok?
    ensures ApplyAll(c, opts + [WithAddress(address)]).Ok?
    ensures ApplyAll(c, opts + [WithAddress(address)]).value.address == SchemeAddress(address)
  {
    ApplyAllSnoc(c, opts, WithAddress(address));
  }

  /** Only address options touch the address, and only interval options of
      the right kind touch an interval. */
  lemma {:induction false} OnlyOwnField(c: Config, opts: seq<Option>)
    requires ApplyAll(c, opts).Ok?
    ensures (forall i :: 0 <= i < |opts| ==> !opts[i].WithAddress?) ==> ApplyAll(c, opts).value.address == c.address
    ensures (forall i :: 0 <= i < |opts| ==> !opts[i].WithPollInterval?) ==> ApplyAll(c, opts).value.pollInterval == c.pollInterval
    ensures (forall i :: 0 <= i < |opts| ==> !opts[i].WithReportInterval?) ==> ApplyAll(c, opts).value.reportInterval == c.reportInterval
    decreases |opts|
  {
    if opts != [] {
      assert forall i :: 1 <= i < |opts| ==> opts[i] == opts[1..][i - 1];
      OnlyOwnField(Apply(c, opts[0]).value, opts[1..]);
    }
  }

  /** `New`: the defaults, then each option in order (a panic stops it). */
  method New(options: seq<Option>) returns (r: Wrappers.Result<Config, Panic>)
    ensures r == ApplyAll(Defaults(), options)
    ensures options == [] ==> r == Wrappers.Ok(Defaults())
  {
    var s := Defaults();
    var i := 0;
    while i < |options|
      invariant 0 <= i <= |options|
      invariant ApplyAll(Defaults(), options[..i]) == Wrappers.Ok(s)
    {
      ApplyAllSnoc(Defaults(), options[..i], options[i]);
      assert options[..i + 1] == options[..i] + [options[i]];
      var next := Apply(s, options[i]);
      if next.Err? {
        SplitJoin(options, i + 1);
        PanicAbsorbs(options[..i + 1], options[i + 1..]);
        return next;
      }
      s := next.value;
      i := i + 1;
    }
    assert options[..i] == options;
    r := Wrappers.Ok(s);
  }

  lemma SplitJoin(s: seq<Option>, k: nat)
    requires k <= |s|
    ensures s[..k] + s[k..] == s
  {
  }

  /** Once a prefix of the options has panicked, the rest are never run. */
  lemma {:induction false} PanicAbsorbs(opts: seq<Option>, later: seq<Option>)
    requires ApplyAll(Defaults(), opts).Err?
    ensures ApplyAll(Defaults(), opts + later) == ApplyAll(Defaults(), opts)
  {
    PanicAbsorbsFrom(Defaults(), opts, later);
  }

  lemma {:induction false} PanicAbsorbsFrom(c: Config, opts: seq<Option>, later: seq<Option>)
    requires ApplyAll(c, opts).Err?
    ensures ApplyAll(c, opts + later) == ApplyAll(c, opts)
    decreases |opts|
  {
    assert opts != [];
    assert (opts + later)[0] == opts[0];
    if Apply(c, opts[0]).Ok? {
      assert (opts + later)[1..] == opts[1..] + later;
      PanicAbsorbsFrom(Apply(c, opts[0]).value, opts[1..], later);
    }
  }
}

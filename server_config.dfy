/** The server's functional-options configuration, cmd/server/config.go:
    one address, ":8080" unless an option supplies a non-empty one. */
module ServerConfig {

  const DefaultAddress: string := ":8080"

  datatype Config = Config(address: string)

  /** `WithAddress`: an empty address changes nothing; any other is stored
      verbatim, with no scheme added. */
  function WithAddress(c: Config, address: string): (r: Config)
    ensures address == "" ==> r == c
    ensures address != "" ==> r.address == address
  {
    if address == "" then c else c.(address := address)
  }

  /** The reference meaning of a list of address options: the last non-empty
      one, or the default when there is none. */
  function LastNonEmpty(xs: seq<string>, default: string): string
    decreases |xs|
  {
    if xs == [] then default
    else if xs[|xs| - 1] != "" then xs[|xs| - 1]
    else LastNonEmpty(xs[..|xs| - 1], default)
  }

  /** With only empty options the default stays. */
  lemma {:induction false} AllEmptyKeepsDefault(xs: seq<string>, default: string)
    requires forall j :: 0 <= j < |xs| ==> xs[j] == ""
    ensures LastNonEmpty(xs, default) == default
    decreases |xs|
  {
    if xs != [] {
      AllEmptyKeepsDefault(xs[..|xs| - 1], default);
    }
  }

  /** A non-empty option followed only by empty ones is the one that wins. */
  lemma {:induction false} LastNonEmptyWins(xs: seq<string>, default: string, i: int)
    requires 0 <= i < |xs| && xs[i] != ""
    requires forall j :: i < j < |xs| ==> xs[j] == ""
    ensures LastNonEmpty(xs, default) == xs[i]
    decreases |xs|
  {
    var n := |xs| - 1;
    if i < n {
      LastNonEmptyWins(xs[..n], default, i);
    }
  }

  /** `New`: the default, then every option in order. */
  method New(options: seq<string>) returns (c: Config)
    ensures c.address == LastNonEmpty(options, DefaultAddress)
    ensures options == [] ==> c.address == DefaultAddress
  {
    c := Config(DefaultAddress);
    var i := 0;
    while i < |options|
      invariant 0 <= i <= |options|
      invariant c.address == LastNonEmpty(options[..i], DefaultAddress)
    {
      assert options[..i + 1][..i] == options[..i];
      c := WithAddress(c, options[i]);
      i := i + 1;
    }
    assert options[..i] == options;
  }
}

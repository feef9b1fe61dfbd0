/** Configuration of internal/config/config.go: the server and agent
    defaults, and the rules by which parsed flags and then parsed environment
    variables override them. The flag and environment parsers themselves are
    library code; their parsed records (or their errors) are inputs here. */
module Config {
  import opened Wrappers
  import opened GoInt

  const DefaultAddr: string := ":8080"
  const DefaultReportInterval: Int64 := 10
  const DefaultPollInterval: Int64 := 2
  const DefaultStorageType: string := "filestorage"
  const DefaultStoreInterval: Int64 := 300
  const DefaultFileStoragePath: string := "/tmp/metrics-db.json"
  const DefaultRestore: bool := true
  const DevelopingEnv: string := "devStorage"

  /** `time.Second`, in the nanoseconds a `time.Duration` counts. */
  const Second: Int64 := 1_000_000_000

  /** `time.Duration(n) * time.Second`, with int64 wrap-around. */
  function Seconds(n: Int64): (d: Int64)
    ensures MinInt64 <= n * Second <= MaxInt64 ==> d == n * Second
  {
    Mul(n, Second)
  }

  /** All fields of a `Config`; durations are in nanoseconds. */
  datatype Settings = Settings(
    address: string,
    reportInterval: Int64,
    pollInterval: Int64,
    storageType: string,
    storeInterval: Int64,
    fileStoragePath: string,
    restore: bool,
    databaseDSN: string)

  /** What `New` starts from. The untyped constant 300 becomes the raw
      Duration 300, i.e. 300 nanoseconds. */
  const ServerDefaults: Settings :=
    Settings(DefaultAddr, 0, 0, DevelopingEnv, DefaultStoreInterval, DefaultFileStoragePath, DefaultRestore, "")

  /** What `NewAgent` starts from: also raw Durations (10ns and 2ns). */
  const AgentDefaults: Settings :=
    Settings(DefaultAddr, DefaultReportInterval, DefaultPollInterval, DevelopingEnv, DefaultStoreInterval, DefaultFileStoragePath, false, "")

  /** The environment record `env.Parse` fills; unset variables are zero. */
  datatype EnvVars = EnvVars(
    addr: string,
    reportInterval: Int64,
    pollInterval: Int64,
    storageType: string,
    storeInterval: Int64,
    fileStoragePath: string,
    restore: bool,
    databaseDSN: string)

  /** The server's parsed flags (-a, -s, -f, -r, -i, -d). */
  datatype ServerFlags = ServerFlags(
    addr: string, storageType: string, fileStoragePath: string,
    restore: bool, storeInterval: Int64, dbdsn: string)

  /** The agent's parsed flags (-a, -r, -p, -s). */
  datatype AgentFlags = AgentFlags(addr: string, reportInterval: Int64, pollInterval: Int64, storageType: string)

  /** `loadFromEnv`'s merge: a non-empty string replaces, a positive interval
      replaces as that many seconds, anything else keeps the current value;
      STORE_INTERVAL, FILE_STORAGE_PATH and RESTORE are parsed but never
      applied. */
  function WithEnv(c: Settings, env: EnvVars): (r: Settings)
    ensures r.address == (if env.addr != "" then env.addr else c.address)
    ensures r.storageType == (if env.storageType != "" then env.storageType else c.storageType)
    ensures r.reportInterval == (if env.reportInterval > 0 then Seconds(env.reportInterval) else c.reportInterval)
    ensures r.pollInterval == (if env.pollInterval > 0 then Seconds(env.pollInterval) else c.pollInterval)
    ensures r.databaseDSN == (if env.databaseDSN != "" then env.databaseDSN else c.databaseDSN)
    ensures r.storeInterval == c.storeInterval && r.fileStoragePath == c.fileStoragePath && r.restore == c.restore
  {
    var c1 := if env.addr != "" then c.(address := env.addr) else c;
    var c2 := if env.storageType != "" then c1.(storageType := env.storageType) else c1;
    var c3 := if env.reportInterval > 0 then c2.(reportInterval := Seconds(env.reportInterval)) else c2;
    var c4 := if env.pollInterval > 0 then c3.(pollInterval := Seconds(env.pollInterval)) else c3;
    if env.databaseDSN != "" then c4.(databaseDSN := env.databaseDSN) else c4
  }

  /** `loadFromFlagsServer`'s assignments: every server flag is applied,
      `-i` as seconds; the agent's intervals are untouched. */
  function WithServerFlags(c: Settings, f: ServerFlags): Settings
  {
    c.(address := f.addr, storageType := f.storageType, fileStoragePath := f.fileStoragePath,
       restore := f.restore, storeInterval := Seconds(f.storeInterval), databaseDSN := f.dbdsn)
  }

  /** `loadFromFlagsAgent`'s assignments: address, both intervals (as
      seconds) and storage type. */
  function WithAgentFlags(c: Settings, f: AgentFlags): Settings
  {
    c.(address := f.addr, reportInterval := Seconds(f.reportInterval),
       pollInterval := Seconds(f.pollInterval), storageType := f.storageType)
  }

  /** Environment beats flags: a set ADDRESS decides the address whatever the
      flag said, and an unset one leaves the flag's value. */
  lemma EnvOverridesFlags(c: Settings, f: ServerFlags, env: EnvVars)
    ensures WithEnv(WithServerFlags(c, f), env).address == (if env.addr != "" then env.addr else f.addr)
    ensures WithEnv(WithServerFlags(c, f), env).storageType == (if env.storageType != "" then env.storageType else f.storageType)
    ensures WithEnv(WithServerFlags(c, f), env).storeInterval == Seconds(f.storeInterval)
  {
  }

  /** Applying the same environment twice is applying it once. */
  lemma WithEnvIdempotent(c: Settings, env: EnvVars)
    ensures WithEnv(WithEnv(c, env), env) == WithEnv(c, env)
  {
  }

  /** A `*Config`. */
  class Config {
    var address: string
    var reportInterval: Int64
    var pollInterval: Int64
    var storageType: string
    var storeInterval: Int64
    var fileStoragePath: string
    var restore: bool
    var databaseDSN: string

    function Value(): Settings
      reads this
    {
      Settings(address, reportInterval, pollInterval, storageType, storeInterval, fileStoragePath, restore, databaseDSN)
    }

    constructor (s: Settings)
      ensures Value() == s
    {
      address, reportInterval, pollInterval, storageType := s.address, s.reportInterval, s.pollInterval, s.storageType;
      storeInterval, fileStoragePath, restore, databaseDSN := s.storeInterval, s.fileStoragePath, s.restore, s.databaseDSN;
    }

    /** `loadFromEnv(cfg)`: a parse error is returned with the config as it
        was; otherwise the fields are merged in place. */
    method LoadFromEnv(env: Result<EnvVars, string>) returns (err: Outcome<string>)
      modifies this
      ensures env.Err? ==> err == Fail(env.error) && Value() == old(Value())
      ensures env.Ok? ==> err == Pass && Value() == WithEnv(old(Value()), env.value)
    {
      if env.Err? {
        return Fail(env.error);
      }
      var e := env.value;
      if e.addr != "" {
        address := e.addr;
      }
      if e.storageType != "" {
        storageType := e.storageType;
      }
      if e.reportInterval > 0 {
        reportInterval := Seconds(e.reportInterval);
      }
      if e.pollInterval > 0 {
        pollInterval := Seconds(e.pollInterval);
      }
      if e.databaseDSN != "" {
        databaseDSN := e.databaseDSN;
      }
      err := Pass;
    }

    /** `loadFromFlagsServer(cfg)`. */
    method LoadFromFlagsServer(flags: Result<ServerFlags, string>) returns (err: Outcome<string>)
      modifies this
      ensures flags.Err? ==> err == Fail(flags.error) && Value() == old(Value())
      ensures flags.Ok? ==> err == Pass && Value() == WithServerFlags(old(Value()), flags.value)
    {
      if flags.Err? {
        return Fail(flags.error);
      }
      var f := flags.value;
      address := f.addr;
      storageType := f.storageType;
      fileStoragePath := f.fileStoragePath;
      restore := f.restore;
      storeInterval := Seconds(f.storeInterval);
      databaseDSN := f.dbdsn;
      err := Pass;
    }

    /** `loadFromFlagsAgent(cfg)`. */
    method LoadFromFlagsAgent(flags: Result<AgentFlags, string>) returns (err: Outcome<string>)
      modifies this
      ensures flags.Err? ==> err == Fail(flags.error) && Value() == old(Value())
      ensures flags.Ok? ==> err == Pass && Value() == WithAgentFlags(old(Value()), flags.value)
    {
      if flags.Err? {
        return Fail(flags.error);
      }
      var f := flags.value;
      address := f.addr;
      reportInterval := Seconds(f.reportInterval);
      pollInterval := Seconds(f.pollInterval);
      storageType := f.storageType;
      err := Pass;
    }
  }

  /** `New(production)`: the defaults; in production, flags then environment,
      either of which can fail the whole call. */
  method New(production: bool, flags: Result<ServerFlags, string>, env: Result<EnvVars, string>)
    returns (cfg: Config?, err: Outcome<string>)
    ensures err.Pass? <==> cfg != null
    ensures !production ==> err == Pass && cfg.Value() == ServerDefaults
    ensures production && flags.Err? ==> err == Fail(flags.error)
    ensures production && flags.Ok? && env.Err? ==> err == Fail(env.error)
    ensures production && flags.Ok? && env.Ok? ==>
      err == Pass && cfg.Value() == WithEnv(WithServerFlags(ServerDefaults, flags.value), env.value)
  {
    var c := new Config(ServerDefaults);
    if production {
      err := c.LoadFromFlagsServer(flags);
      if err.Fail? {
        return null, err;
      }
      err := c.LoadFromEnv(env);
      if err.Fail? {
        return null, err;
      }
    }
    return c, Pass;
  }

  /** `NewAgent(production)`: the agent defaults; in production, agent flags
      then environment. */
  method NewAgent(production: bool, flags: Result<AgentFlags, string>, env: Result<EnvVars, string>)
    returns (cfg: Config?, err: Outcome<string>)
    ensures err.Pass? <==> cfg != null
    ensures !production ==> err == Pass && cfg.Value() == AgentDefaults
    ensures production && flags.Err? ==> err == Fail(flags.error)
    ensures production && flags.Ok? && env.Err? ==> err == Fail(env.error)
    ensures production && flags.Ok? && env.Ok? ==>
      err == Pass && cfg.Value() == WithEnv(WithAgentFlags(AgentDefaults, flags.value), env.value)
  {
    var c := new Config(AgentDefaults);
    if production {
      err := c.LoadFromFlagsAgent(flags);
      if err.Fail? {
        return null, err;
      }
      err := c.LoadFromEnv(env);
      if err.Fail? {
        return null, err;
      }
    }
    return c, Pass;
  }
}

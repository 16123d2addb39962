/**
 The handler's configuration: `Validate`, and the two defaults `Provision`
 applies before starting the store. The configuration of the running
 store, kept across reloads, is the parameter `previous`.
 */
module CacheConfig {
  import opened Wrappers
  import opened GoInt

  datatype Olric = Olric(env: string)

  /** `Config`: the cache size in bytes (an int64), the default time to live in
      seconds (a Go int, 64 bits wide), and the store's network environment. */
  datatype Config = Config(maxSize: Int64, defaultTTL: Int64, olric: Olric)

  /** `Config{}` */
  const ZERO_CONFIG: Config := Config(0, 0, Olric(""))

  /** 512 << 20 bytes */
  const DEFAULT_MAX_SIZE: int := 512 * 1_048_576

  datatype ConfigError =
    | ConfigChanged  // the configuration cannot change without a restart
    | NegativeSize   // size must be greater than 0
    | UnknownEnv     // available environments are local, lan and wan

  predicate KnownEnv(env: string) {
    env == "" || env == "local" || env == "lan" || env == "wan"
  }

  /** `Validate`: the checks run in this order and the first that fails is reported. */
  function Validate(c: Config, previous: Config): (r: Option<ConfigError>)
    ensures r == Some(ConfigChanged) <==> c != previous && c != ZERO_CONFIG
    ensures r == Some(NegativeSize) <==> (c == previous || c == ZERO_CONFIG) && c.maxSize < 0
    ensures r == Some(UnknownEnv) <==> (c == previous || c == ZERO_CONFIG) && c.maxSize >= 0 && !KnownEnv(c.olric.env)
    ensures r == None <==> (c == previous || c == ZERO_CONFIG) && c.maxSize >= 0 && KnownEnv(c.olric.env)
  {
    if c != previous && c != ZERO_CONFIG then Some(ConfigChanged)
    else if c.maxSize < 0 then Some(NegativeSize)
    else if c.olric.env != "" && c.olric.env != "local" && c.olric.env != "lan" && c.olric.env != "wan" then Some(UnknownEnv)
    else None
  }

  /** The cache size `Provision` hands to the store. */
  function MaxSize(c: Config): (size: int)
    ensures InInt64(size)
    ensures c.maxSize >= 0 ==> size > 0
    ensures c.maxSize == 0 ==> size == DEFAULT_MAX_SIZE
    ensures c.maxSize != 0 ==> size == c.maxSize
  {
    if c.maxSize == 0 then DEFAULT_MAX_SIZE else c.maxSize
  }

  /** The environment `Provision` hands to the store. */
  function Env(c: Config): (env: string)
    ensures env != ""
    ensures KnownEnv(c.olric.env) ==> env == "local" || env == "lan" || env == "wan"
    ensures c.olric.env == "" ==> env == "local"
    ensures c.olric.env != "" ==> env == c.olric.env
  {
    if c.olric.env == "" then "local" else c.olric.env
  }

  /** A configuration that validates provisions a positive size and one of the three
      named environments. */
  lemma ValidConfigDefaults(c: Config, previous: Config)
    requires Validate(c, previous) == None
    ensures MaxSize(c) > 0
    ensures Env(c) == "local" || Env(c) == "lan" || Env(c) == "wan"
  {
  }

  /** A reload with an unchanged configuration, or with an empty one, always passes
      the first check; the empty configuration validates outright. */
  lemma ReloadSameConfig(c: Config)
    ensures Validate(c, c) != Some(ConfigChanged)
    ensures forall previous :: Validate(ZERO_CONFIG, previous) == None
  {
  }
}

/**
 * The server's YAML configuration loader: class-level defaults, a deep
 * update from the parsed file, and dot-path reads. What the file parses
 * to is an argument; None stands for a file that does not exist.
 */
module ServerConfig {
  import opened Common
  import opened Text
  import opened Values
  import opened ConfigTree

  /** ConfigLoader.DEFAULT_CONFIG */
  function DefaultConfig(): map<string, Value> {
    map[
      "server" := Dict(map["host" := Str("0.0.0.0"), "port" := Int(8443), "max_clients" := Int(100)]),
      "database" := Dict(map["path" := Str("vpn_server.db")]),
      "tls" := Dict(map["cert_file" := Str("certs/server.crt"), "key_file" := Str("certs/server.key")]),
      "tunnel" := Dict(map["interface_name" := Str("iran_vpn0"), "ip_range" := Str("10.8.0.0/24"), "mtu" := Int(1420)]),
      "security" := Dict(map["session_timeout_hours" := Int(24), "keepalive_interval" := Int(15),
                             "max_sessions_per_user" := Int(3)]),
      "logging" := Dict(map["level" := Str("INFO"), "file" := Str("logs/server.log"), "json_format" := Bool(false)])
    ]
  }

  /** The defaults the server relies on: port 8443, tunnel MTU 1420, keepalive every 15 s, 24-hour sessions. */
  lemma DefaultValues()
    ensures Lookup(Dict(DefaultConfig()), ["server", "port"]) == Some(Int(8443))
    ensures Lookup(Dict(DefaultConfig()), ["tunnel", "mtu"]) == Some(Int(1420))
    ensures Lookup(Dict(DefaultConfig()), ["security", "keepalive_interval"]) == Some(Int(15))
    ensures Lookup(Dict(DefaultConfig()), ["security", "session_timeout_hours"]) == Some(Int(24))
  {
    assert ["server", "port"][1..] == ["port"];
    assert ["tunnel", "mtu"][1..] == ["mtu"];
    assert ["security", "keepalive_interval"][1..] == ["keepalive_interval"];
    assert ["security", "session_timeout_hours"][1..] == ["session_timeout_hours"];
  }

  /**
   * load's effect: no file leaves the configuration as it is; a file
   * that parsed to a dict is deep-updated in; any other content raises
   * inside the guarded block and changes nothing.
   */
  function Loaded(config: map<string, Value>, parsed: Option<Value>): (r: map<string, Value>)
    ensures parsed.None? ==> r == config
    ensures parsed.Some? && parsed.value.Dict? ==> r.Keys == config.Keys + parsed.value.entries.Keys
    ensures parsed.Some? && !parsed.value.Dict? ==> r == config
  {
    if parsed.Some? && parsed.value.Dict? then MergeInto(config, parsed.value.entries) else config
  }

  /**
   * DEFAULT_CONFIG after a loader whose top-level keys `aliased` still hold
   * the class default's own nested dicts deep-updates its copy: under each
   * such key that both sides hold as a dict the merge lands in the shared
   * dict itself; every other key of the default is untouched.
   */
  function SharedAfter(defaults: map<string, Value>, aliased: set<string>, parsed: Option<Value>): (r: map<string, Value>)
    ensures r.Keys == defaults.Keys
    ensures forall k | k in defaults && k !in aliased :: r[k] == defaults[k]
    ensures aliased == {} || !(parsed.Some? && parsed.value.Dict?) ==> r == defaults
  {
    if parsed.Some? && parsed.value.Dict? then
      var u := parsed.value.entries;
      map k | k in defaults ::
        if k in aliased && k in u && defaults[k].Dict? && u[k].Dict? then Merge(defaults[k], u[k]) else defaults[k]
    else defaults
  }

  /**
   * DEFAULT_CONFIG after one fresh loader deep-updates its shallow copy with
   * a file's dict: every nested default dict the file merges into is changed.
   */
  function AliasedDefaults(defaults: map<string, Value>, update: map<string, Value>): (r: map<string, Value>)
    ensures r.Keys == defaults.Keys
    ensures forall k | k in defaults && k !in update :: r[k] == defaults[k]
    ensures forall k | k in defaults && k in update && defaults[k].Dict? && update[k].Dict? ::
      r[k] == Merge(defaults[k], update[k])
  {
    SharedAfter(defaults, defaults.Keys, Some(Dict(update)))
  }

  /**
   * As written, one loader that reads `tunnel: {mtu: 1300}` leaves MTU 1300
   * in the class default, so a later loader with no file reports 1300
   * instead of 1420.
   */
  lemma SharedDefaultsLeak()
    ensures var first := map["tunnel" := Dict(map["mtu" := Int(1300)])];
      Lookup(Dict(Loaded(AliasedDefaults(DefaultConfig(), first), None)), ["tunnel", "mtu"]) == Some(Int(1300))
  {
    var first := map["tunnel" := Dict(map["mtu" := Int(1300)])];
    var d := AliasedDefaults(DefaultConfig(), first);
    assert d["tunnel"] == Merge(DefaultConfig()["tunnel"], first["tunnel"]);
    assert d["tunnel"].entries["mtu"] == Int(1300);
    assert ["tunnel", "mtu"][1..] == ["mtu"];
  }

  /** The class attribute DEFAULT_CONFIG, one per process and shared by every loader. */
  class Defaults {
    var config: map<string, Value>

    constructor ()
      ensures config == DefaultConfig()
    {
      config := DefaultConfig();
    }
  }

  /** The path the server is started with when `--config` is not given. */
  const DEFAULT_CONFIG_PATH: string := "config.yaml"

  class Loader {
    var configFile: Option<string>
    /** The class-wide defaults this loader's shallow copy came from. */
    const shared: Defaults
    /** Top-level keys whose value is still the very dict held by `shared`. */
    var aliased: set<string>
    /** The loader's own top-level entries; those under `aliased` are read from `shared`. */
    var own: map<string, Value>

    ghost predicate Valid()
      reads this, shared
    {
      aliased <= shared.config.Keys
    }

    /** `self.config`, as this loader sees it now. */
    function Config(): (r: map<string, Value>)
      requires Valid()
      reads this, shared
      ensures r.Keys == own.Keys + aliased
      ensures forall k | k in aliased :: r[k] == shared.config[k]
    {
      map k | k in own.Keys + aliased :: if k in aliased then shared.config[k] else own[k]
    }

    /**
     * __init__ as written: a shallow copy of DEFAULT_CONFIG, then the file
     * when a non-empty name is given; the load writes into the shared
     * nested defaults.
     */
    constructor (shared: Defaults, configFile: Option<string>, parsed: Option<Value>)
      modifies shared
      ensures this.shared == shared && this.configFile == configFile && Valid()
      ensures var loads := configFile.Some? && configFile.value != "";
        Config() == (if loads then Loaded(old(shared.config), parsed) else old(shared.config)) &&
        shared.config == (if loads then SharedAfter(old(shared.config), old(shared.config).Keys, parsed) else old(shared.config))
    {
      this.configFile := configFile;
      this.shared := shared;
      aliased := shared.config.Keys;
      own := map[];
      new;
      assert Config() == shared.config;
      if configFile.Some? && configFile.value != "" {
        Load(parsed);
      }
    }

    /**
     * __init__ with a deep copy of the defaults: the configuration is the
     * same, and DEFAULT_CONFIG is left as it was.
     */
    constructor Isolated(shared: Defaults, configFile: Option<string>, parsed: Option<Value>)
      modifies shared
      ensures this.shared == shared && this.configFile == configFile && Valid() && aliased == {}
      ensures var loads := configFile.Some? && configFile.value != "";
        Config() == if loads then Loaded(old(shared.config), parsed) else old(shared.config)
      ensures shared.config == old(shared.config)
    {
      this.configFile := configFile;
      this.shared := shared;
      aliased := {};
      own := shared.config;
      new;
      assert Config() == shared.config;
      if configFile.Some? && configFile.value != "" {
        Load(parsed);
      }
    }

    /**
     * load: the file's dict is deep-merged into the configuration; a key
     * the file replaces outright is the loader's own from then on, and a
     * merge under a key still shared lands in DEFAULT_CONFIG.
     */
    method Load(parsed: Option<Value>)
      requires Valid()
      modifies this, shared
      ensures Valid() && configFile == old(configFile)
      ensures Config() == Loaded(old(Config()), parsed)
      ensures shared.config == SharedAfter(old(shared.config), old(aliased), parsed)
      ensures aliased <= old(aliased)
    {
      if parsed.None? || !parsed.value.Dict? {
        return;
      }
      var u := parsed.value.entries;
      var c := Config();
      var kept := set k | k in aliased && (k !in u || (c[k].Dict? && u[k].Dict?));
      shared.config := SharedAfter(shared.config, aliased, parsed);
      own := map k | k in c.Keys + u.Keys ::
        if k in u then (if k in c then Merge(c[k], u[k]) else u[k]) else c[k];
      aliased := kept;
      assert Config() == MergeInto(c, u);
    }

    /** get: the value at the dot path, or the default on a missing key or a non-dict step. */
    method Get(keyPath: string, default: Value := Null) returns (r: Value)
      requires Valid()
      ensures r == match Lookup(Dict(Config()), Split(keyPath, '.'))
        case Some(v) => v
        case None => default
    {
      var keys := Split(keyPath, '.');
      var value := Dict(Config());
      var i := 0;
      while i < |keys|
        invariant 0 <= i <= |keys|
        invariant Lookup(Dict(Config()), keys) == Lookup(value, keys[i..])
      {
        assert keys[i..][0] == keys[i] && keys[i..][1..] == keys[i + 1..];
        if value.Dict? && keys[i] in value.entries {
          value := value.entries[keys[i]];
        } else {
          return default;
        }
        i := i + 1;
      }
      r := value;
    }

    /** __getitem__: `cfg[k]` is `get(k)` with None for a missing path. */
    method GetItem(key: string) returns (r: Value)
      requires Valid()
      ensures Lookup(Dict(Config()), Split(key, '.')).None? ==> r == Null
      ensures Lookup(Dict(Config()), Split(key, '.')).Some? ==> r == Lookup(Dict(Config()), Split(key, '.')).value
    {
      r := Get(key);
    }

    /** to_dict: a copy with the same top-level entries. */
    function ToDict(): (r: map<string, Value>)
      requires Valid()
      reads this, shared
      ensures r.Keys == Config().Keys && forall k | k in r :: r[k] == Config()[k]
    {
      Config()
    }
  }

  /**
   * Two loaders in one process, as written: the second, given `secondFile`,
   * starts from the defaults as the first loader's file left them.
   */
  method TwoLoadersAsWritten(firstFile: map<string, Value>, secondFile: Option<Value>) returns (r: map<string, Value>)
    ensures r == Loaded(AliasedDefaults(DefaultConfig(), firstFile), secondFile)
  {
    var defaults := new Defaults();
    var first := new Loader(defaults, Some(DEFAULT_CONFIG_PATH), Some(Dict(firstFile)));
    var second := new Loader(defaults, Some(DEFAULT_CONFIG_PATH), secondFile);
    r := second.Config();
  }

  /**
   * Two loaders that each take a deep copy: whatever the first one read,
   * the second holds the pristine defaults with its own file merged in,
   * and without a file it has the default MTU.
   */
  method TwoLoaders(firstFile: map<string, Value>, secondFile: Option<Value>) returns (r: map<string, Value>)
    ensures r == Loaded(DefaultConfig(), secondFile)
    ensures secondFile.None? ==> Lookup(Dict(r), ["tunnel", "mtu"]) == Some(Int(1420))
  {
    var defaults := new Defaults();
    var first := new Loader.Isolated(defaults, Some(DEFAULT_CONFIG_PATH), Some(Dict(firstFile)));
    var second := new Loader.Isolated(defaults, Some(DEFAULT_CONFIG_PATH), secondFile);
    r := second.Config();
    DefaultValues();
  }
}

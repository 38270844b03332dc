/**
 * The client's YAML configuration: built-in defaults, merged with the
 * parsed file when there is one, read and written by dot paths. Reading
 * and parsing the file are outside the model; the constructor receives
 * what the file parsed to.
 */
module ClientConfig {
  import opened Common
  import opened Text
  import opened Exceptions
  import opened Values
  import opened ConfigTree

  const DEFAULT_FILE := "client_config.yaml"

  /** _load_defaults */
  function Defaults(): map<string, Value> {
    map[
      "server" := Dict(map["host" := Str(""), "port" := Int(8443), "verify_cert" := Bool(false), "cert_file" := Null]),
      "auth" := Dict(map["username" := Str(""), "password" := Str("")]),
      "network" := Dict(map["interface_name" := Str("VPN-TAP"), "mtu" := Int(1400),
                            "dns_servers" := List([Str("8.8.8.8"), Str("8.8.4.4")])]),
      "vpn" := Dict(map["auto_reconnect" := Bool(true), "kill_switch" := Bool(true), "allow_lan" := Bool(true),
                        "reconnect_max_backoff" := Int(30)]),
      "logging" := Dict(map["level" := Str("INFO"), "file" := Str("vpn_client.log"), "console" := Bool(true)])
    ]
  }

  /** The defaults the client relies on: port 8443, MTU 1400, reconnect back-off capped at 30 s, auto-reconnect on. */
  lemma DefaultValues()
    ensures Lookup(Dict(Defaults()), ["server", "port"]) == Some(Int(8443))
    ensures Lookup(Dict(Defaults()), ["network", "mtu"]) == Some(Int(1400))
    ensures Lookup(Dict(Defaults()), ["vpn", "reconnect_max_backoff"]) == Some(Int(30))
    ensures Lookup(Dict(Defaults()), ["vpn", "auto_reconnect"]) == Some(Bool(true))
  {
    assert ["server", "port"][1..] == ["port"];
    assert ["network", "mtu"][1..] == ["mtu"];
    assert ["vpn", "reconnect_max_backoff"][1..] == ["reconnect_max_backoff"];
    assert ["vpn", "auto_reconnect"][1..] == ["auto_reconnect"];
  }

  /**
   * _load_from_file's effect: a file that parsed to a dict is merged in;
   * anything else (no file, unreadable, empty or not a mapping) raises
   * inside the guarded block and leaves the configuration as it was.
   */
  function Loaded(config: map<string, Value>, parsed: Option<Value>): (r: map<string, Value>)
    ensures parsed.Some? && parsed.value.Dict? ==> r.Keys == config.Keys + parsed.value.entries.Keys
    ensures !(parsed.Some? && parsed.value.Dict?) ==> r == config
  {
    if parsed.Some? && parsed.value.Dict? then MergeInto(config, parsed.value.entries) else config
  }

  class Config {
    var configFile: string
    var config: map<string, Value>

    /**
     * __init__: an empty or missing file name means "client_config.yaml";
     * the defaults are loaded and then overlaid with the file's contents.
     */
    constructor (configFile: Option<string>, parsed: Option<Value>)
      ensures this.configFile == if configFile.Some? && configFile.value != "" then configFile.value else DEFAULT_FILE
      ensures config == Loaded(Defaults(), parsed)
    {
      this.configFile := if configFile.Some? && configFile.value != "" then configFile.value else DEFAULT_FILE;
      config := Defaults();
      new;
      LoadFromFile(parsed);
    }

    /** _load_defaults */
    method LoadDefaults()
      modifies this
      ensures config == Defaults() && configFile == old(configFile)
    {
      config := Defaults();
    }

    /** _load_from_file */
    method LoadFromFile(parsed: Option<Value>)
      modifies this
      ensures config == Loaded(old(config), parsed) && configFile == old(configFile)
    {
      config := Loaded(config, parsed);
    }

    /** get: the value at the dot path, or the default when the path is not there. */
    method Get(keyPath: string, default: Value := Null) returns (r: Value)
      ensures r == match Lookup(Dict(config), Split(keyPath, '.'))
        case Some(v) => v
        case None => default
    {
      var keys := Split(keyPath, '.');
      var value := Dict(config);
      var i := 0;
      while i < |keys|
        invariant 0 <= i <= |keys|
        invariant Lookup(Dict(config), keys) == Lookup(value, keys[i..])
      {
        assert keys[i..][0] == keys[i] && keys[i..][1..] == keys[i + 1..];
        if value.Dict? && keys[i] in value.entries {
          value := value.entries[keys[i]];
        } else {
          return default;
        }
        i := i + 1;
      }
      r := value;
    }

    /**
     * set: assigns at the dot path, creating missing intermediate dicts;
     * an intermediate that is not a dict raises TypeError and nothing
     * changes. Afterwards the path holds the value and every path that
     * parts ways with it is unchanged.
     */
    method Set(keyPath: string, value: Value) returns (r: Result<(), Error>)
      modifies this
      ensures configFile == old(configFile)
      ensures r.Success? <==> Settable(old(config), Split(keyPath, '.'))
      ensures r.Failure? ==> r.error.TypeError? && config == old(config)
      ensures r.Success? ==> Lookup(Dict(config), Split(keyPath, '.')) == Some(value)
      ensures r.Success? ==> forall other | Diverge(Split(keyPath, '.'), other) ::
        Lookup(Dict(config), other) == Lookup(Dict(old(config)), other)
    {
      var keys := Split(keyPath, '.');
      SetPathSucceeds(config, keys, value);
      match SetPath(config, keys, value)
      case Failure(e) =>
        r := Failure(e);
      case Success(c) =>
        SetThenLookup(config, keys, value);
        forall other | Diverge(keys, other)
          ensures Lookup(Dict(c), other) == Lookup(Dict(config), other)
        {
          SetLeavesOthers(config, keys, value, other);
        }
        config := c;
        r := Success(());
    }

    /** to_dict: a copy with the same top-level entries. */
    function ToDict(): (r: map<string, Value>)
      reads this
      ensures r.Keys == config.Keys && forall k | k in r :: r[k] == config[k]
    {
      config
    }
  }
}

/**
 * Configuration trees: nested string-keyed dicts as loaded from YAML, with
 * the dot-path lookup, the recursive merge both loaders use, and the
 * dot-path assignment of the client loader.
 */
module ConfigTree {
  import opened Common
  import opened Exceptions
  import opened Values

  /**
   * The value reached by following `keys` from `v`; None as soon as a key
   * is missing or the walk meets something that is not a dict.
   */
  function Lookup(v: Value, keys: seq<string>): (r: Option<Value>)
    ensures keys == [] ==> r == Some(v)
    ensures keys != [] && r.Some? ==> v.Dict? && keys[0] in v.entries
    decreases |keys|
  {
    if keys == [] then Some(v)
    else if v.Dict? && keys[0] in v.entries then Lookup(v.entries[keys[0]], keys[1..])
    else None
  }

  /**
   * The recursive merge (client `_deep_merge`, server `_deep_update`):
   * where both sides hold a dict under a key the dicts are merged, and
   * every other override value replaces what was there.
   */
  function Merge(base: Value, override: Value): (r: Value)
    ensures !(base.Dict? && override.Dict?) ==> r == override
    ensures base.Dict? && override.Dict? ==> r.Dict? && r.entries.Keys == base.entries.Keys + override.entries.Keys
    decreases override
  {
    if base.Dict? && override.Dict? then
      Dict(map k | k in base.entries.Keys + override.entries.Keys ::
        if k in override.entries then
          (if k in base.entries then Merge(base.entries[k], override.entries[k]) else override.entries[k])
        else base.entries[k])
    else override
  }

  /** The merge of two dicts' entries, as the loaders apply it to their top-level dict. */
  function MergeInto(base: map<string, Value>, override: map<string, Value>): (r: map<string, Value>)
    ensures r.Keys == base.Keys + override.Keys
  {
    Merge(Dict(base), Dict(override)).entries
  }

  /** A leaf the override holds at some path is what the merged tree holds there. */
  lemma {:induction false} MergeOverrideWins(base: Value, override: Value, path: seq<string>, leaf: Value)
    requires Lookup(override, path) == Some(leaf) && !leaf.Dict?
    ensures Lookup(Merge(base, override), path) == Some(leaf)
    decreases |path|
  {
    if path != [] && base.Dict? {
      var k := path[0];
      var m := Merge(base, override);
      if k in base.entries {
        MergeOverrideWins(base.entries[k], override.entries[k], path[1..], leaf);
      } else {
        assert m.entries[k] == override.entries[k];
      }
    }
  }

  /** The override dict lacks the path: some key along it is missing from a dict the override has there. */
  predicate Absent(override: Value, path: seq<string>)
    decreases |path|
  {
    path != [] && override.Dict? &&
    (path[0] !in override.entries || Absent(override.entries[path[0]], path[1..]))
  }

  /** A path the override lacks keeps the value the base has there. */
  lemma {:induction false} MergeKeepsAbsent(base: Value, override: Value, path: seq<string>)
    requires Lookup(base, path).Some? && Absent(override, path)
    ensures Lookup(Merge(base, override), path) == Lookup(base, path)
    decreases |path|
  {
    var k := path[0];
    var m := Merge(base, override);
    if k in override.entries {
      MergeKeepsAbsent(base.entries[k], override.entries[k], path[1..]);
    } else {
      assert m.entries[k] == base.entries[k];
    }
  }

  /** Merging a tree into itself changes nothing. */
  lemma {:induction false} MergeIdempotent(v: Value)
    ensures Merge(v, v) == v
    decreases v
  {
    if v.Dict? {
      forall k | k in v.entries
        ensures Merge(v, v).entries[k] == v.entries[k]
      {
        MergeIdempotent(v.entries[k]);
      }
    }
  }

  /** Every proper prefix of the path is missing or holds a dict, so assignment can walk it. */
  predicate Settable(config: map<string, Value>, keys: seq<string>) {
    forall i | 1 <= i < |keys| ::
      Lookup(Dict(config), keys[..i]).None? || Lookup(Dict(config), keys[..i]).value.Dict?
  }

  /**
   * The client's `set` on the keys of a dot path: missing intermediate
   * dicts are created; an intermediate that exists but is not a dict
   * makes Python raise TypeError before anything is changed.
   */
  function SetPath(config: map<string, Value>, keys: seq<string>, value: Value): (r: Result<map<string, Value>, Error>)
    requires |keys| >= 1
    ensures r.Failure? ==> r.error.TypeError?
    decreases |keys|
  {
    if |keys| == 1 then Success(config[keys[0] := value])
    else
      var child := if keys[0] in config then config[keys[0]] else Dict(map[]);
      if !child.Dict? then Failure(TypeError("'" + keys[0] + "' does not hold a dict"))
      else
        match SetPath(child.entries, keys[1..], value)
        case Failure(e) => Failure(e)
        case Success(c) => Success(config[keys[0] := Dict(c)])
  }

  /** Assignment fails exactly when some proper prefix holds a non-dict. */
  lemma {:induction false} SetPathSucceeds(config: map<string, Value>, keys: seq<string>, value: Value)
    requires |keys| >= 1
    ensures SetPath(config, keys, value).Success? <==> Settable(config, keys)
    decreases |keys|
  {
    if |keys| > 1 {
      var k := keys[0];
      var child := if k in config then config[k] else Dict(map[]);
      assert keys[..1] == [k];
      assert Lookup(Dict(config), [k]) == if k in config then Some(config[k]) else None by {
        assert [k][1..] == [];
      }
      if child.Dict? {
        SetPathSucceeds(child.entries, keys[1..], value);
        if k in config {
          forall i | 1 <= i < |keys| - 1
            ensures Lookup(Dict(config), keys[..i + 1]) == Lookup(Dict(child.entries), keys[1..][..i])
          {
            assert keys[..i + 1][0] == k && keys[..i + 1][1..] == keys[1..][..i];
          }
          if Settable(config, keys) {
            forall i | 1 <= i < |keys[1..]|
              ensures Lookup(Dict(child.entries), keys[1..][..i]).None? ||
                      Lookup(Dict(child.entries), keys[1..][..i]).value.Dict?
            {
              assert Lookup(Dict(config), keys[..i + 1]) == Lookup(Dict(child.entries), keys[1..][..i]);
            }
          }
          if Settable(child.entries, keys[1..]) {
            forall i | 1 <= i < |keys|
              ensures Lookup(Dict(config), keys[..i]).None? || Lookup(Dict(config), keys[..i]).value.Dict?
            {
              if i > 1 {
                assert Lookup(Dict(config), keys[..i]) == Lookup(Dict(child.entries), keys[1..][..i - 1]);
              }
            }
          }
        } else {
          assert SetPath(child.entries, keys[1..], value).Success? by {
            EmptySettable(keys[1..]);
            SetPathSucceeds(map[], keys[1..], value);
          }
          forall i | 1 <= i < |keys|
            ensures Lookup(Dict(config), keys[..i]).None?
          {
            assert keys[..i][0] == k;
          }
        }
      } else {
        assert !(Lookup(Dict(config), keys[..1]).None? || Lookup(Dict(config), keys[..1]).value.Dict?);
      }
    }
  }

  lemma EmptySettable(keys: seq<string>)
    ensures Settable(map[], keys)
  {
    var empty: map<string, Value> := map[];
    forall i | 1 <= i < |keys|
      ensures Lookup(Dict(empty), keys[..i]).None?
    {
      assert keys[..i][0] !in empty;
    }
  }

  /** After a successful assignment the path holds the assigned value. */
  lemma {:induction false} SetThenLookup(config: map<string, Value>, keys: seq<string>, value: Value)
    requires |keys| >= 1 && SetPath(config, keys, value).Success?
    ensures Lookup(Dict(SetPath(config, keys, value).value), keys) == Some(value)
    decreases |keys|
  {
    var r := SetPath(config, keys, value).value;
    if |keys| == 1 {
      assert keys[1..] == [];
    } else {
      var child := if keys[0] in config then config[keys[0]] else Dict(map[]);
      SetThenLookup(child.entries, keys[1..], value);
      assert r[keys[0]] == Dict(SetPath(child.entries, keys[1..], value).value);
    }
  }

  /** Two paths that part ways at some key: neither is a prefix of the other. */
  predicate Diverge(p: seq<string>, q: seq<string>)
    decreases |p|
  {
    p != [] && q != [] && (p[0] != q[0] || Diverge(p[1..], q[1..]))
  }

  /** Assignment leaves every path that parts ways with the assigned one as it was. */
  lemma {:induction false} SetLeavesOthers(config: map<string, Value>, keys: seq<string>, value: Value, other: seq<string>)
    requires |keys| >= 1 && SetPath(config, keys, value).Success?
    requires Diverge(keys, other)
    ensures Lookup(Dict(SetPath(config, keys, value).value), other) == Lookup(Dict(config), other)
    decreases |keys|
  {
    var r := SetPath(config, keys, value).value;
    if keys[0] != other[0] {
      if other[0] in config {
        assert r[other[0]] == config[other[0]];
      } else {
        assert other[0] !in r;
      }
    } else {
      assert |keys| > 1;
      var child := if keys[0] in config then config[keys[0]] else Dict(map[]);
      SetLeavesOthers(child.entries, keys[1..], value, other[1..]);
      assert r[keys[0]] == Dict(SetPath(child.entries, keys[1..], value).value);
      if keys[0] !in config {
        EmptyLookup(other[1..]);
      }
    }
  }

  lemma EmptyLookup(keys: seq<string>)
    ensures keys != [] ==> Lookup(Dict(map[]), keys).None?
  {
  }
}

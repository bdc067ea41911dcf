/** The plugin class registry filled by the plugin metaclass: defining a
    plugin class stores it under its `__env_key__`, and the runner later
    looks configuration section names up in it. */
module Plugins {
  import opened Wrappers

  /** A plugin class: its Python name and its effective `__env_key__` (the
      one it declares, else the one it inherits; the base declares None). */
  datatype PluginClass = PluginClass(name: string, envKey: Option<string>)

  /** `PluginMeta._type_registry`; the None key collects every class that
      never declared a key. */
  type Registry = map<Option<string>, PluginClass>

  const BaseName: string := "LDXPlugin"

  /** The base class itself. */
  const Base: PluginClass := PluginClass(BaseName, None)

  /** Defining a class: every class except the one named `LDXPlugin` is
      stored under its key, replacing whatever was there. */
  function Define(reg: Registry, cls: PluginClass): (r: Registry)
    ensures cls.name != BaseName ==> cls.envKey in r && r[cls.envKey] == cls
    ensures forall k :: k in reg && k != cls.envKey ==> k in r && r[k] == reg[k]
    ensures r.Keys <= reg.Keys + {cls.envKey}
    ensures cls.name == BaseName ==> r == reg
  {
    if cls.name != BaseName then reg[cls.envKey := cls] else reg
  }

  /** Defining classes in program order. */
  function DefineAll(reg: Registry, classes: seq<PluginClass>): Registry
    decreases |classes|
  {
    if |classes| == 0 then reg else DefineAll(Define(reg, classes[0]), classes[1..])
  }

  /** `_type_registry.get(env_key)` for a configuration section name. */
  function Lookup(reg: Registry, section: string): (r: Option<PluginClass>)
    ensures r.Some? <==> Some(section) in reg
    ensures r.Some? ==> r.value == reg[Some(section)]
  {
    if Some(section) in reg then Some(reg[Some(section)]) else None
  }

  /** Whether some class in `classes` would be stored under `k`. */
  predicate Registers(classes: seq<PluginClass>, k: Option<string>) {
    exists i :: 0 <= i < |classes| && classes[i].name != BaseName && classes[i].envKey == k
  }

  /** After defining `classes`, a key holds the last registering class that
      declares it, and a key no class registers keeps its old entry. */
  lemma {:induction false} LastDefinitionWins(reg: Registry, classes: seq<PluginClass>, i: nat)
    requires i < |classes| && classes[i].name != BaseName
    requires forall j :: i < j < |classes| && classes[j].name != BaseName
                         ==> classes[j].envKey != classes[i].envKey
    ensures classes[i].envKey in DefineAll(reg, classes)
    ensures DefineAll(reg, classes)[classes[i].envKey] == classes[i]
    decreases |classes|
  {
    if i == 0 {
      KeepsUnregistered(Define(reg, classes[0]), classes[1..], classes[0].envKey);
    } else {
      LastDefinitionWins(Define(reg, classes[0]), classes[1..], i - 1);
    }
  }

  lemma {:induction false} KeepsUnregistered(reg: Registry, classes: seq<PluginClass>, k: Option<string>)
    requires !Registers(classes, k)
    ensures k in reg <==> k in DefineAll(reg, classes)
    ensures k in reg ==> DefineAll(reg, classes)[k] == reg[k]
    decreases |classes|
  {
    if |classes| > 0 {
      KeepsUnregistered(Define(reg, classes[0]), classes[1..], k);
    }
  }

  /** No class named `LDXPlugin` ever enters a registry that started
      without one. */
  lemma {:induction false} BaseNeverRegistered(reg: Registry, classes: seq<PluginClass>)
    requires forall k :: k in reg ==> reg[k].name != BaseName
    ensures forall k :: k in DefineAll(reg, classes) ==> DefineAll(reg, classes)[k].name != BaseName
    decreases |classes|
  {
    if |classes| > 0 {
      BaseNeverRegistered(Define(reg, classes[0]), classes[1..]);
    }
  }

  /** A class without a key sits under None, where no section name can
      reach it. */
  lemma KeylessUnreachable(reg: Registry, cls: PluginClass, section: string)
    requires cls.name != BaseName && cls.envKey.None?
    ensures None in Define(reg, cls) && Define(reg, cls)[None] == cls
    ensures Lookup(Define(reg, cls), section) == Lookup(reg, section)
  {
  }

  // -----------------------------------------------------------------------
  // The built-in plugins

  const Lifetime: PluginClass := PluginClass("LDXLifetime", Some("lifetime"))
  const OS: PluginClass := PluginClass("LDXOS", Some("os"))
  const MXX: PluginClass := PluginClass("MXX", Some("mxx"))
  /** `LD` declares no `__env_key__` and inherits the base's None. */
  const LD: PluginClass := PluginClass("LD", None)

  /** The registry once the built-in modules are imported. */
  function Builtins(): Registry {
    DefineAll(map[], [Lifetime, OS, MXX, LD])
  }

  /** The built-in sections resolve to their classes, and an `[ld]` section
      resolves to nothing. */
  lemma BuiltinSections()
    ensures Lookup(Builtins(), "lifetime") == Some(Lifetime)
    ensures Lookup(Builtins(), "os") == Some(OS)
    ensures Lookup(Builtins(), "mxx") == Some(MXX)
    ensures Lookup(Builtins(), "ld") == None
  {
    var cs := [Lifetime, OS, MXX, LD];
    LastDefinitionWins(map[], cs, 0);
    LastDefinitionWins(map[], cs, 1);
    LastDefinitionWins(map[], cs, 2);
    assert !Registers(cs, Some("ld")) by {
      forall i | 0 <= i < |cs| ensures cs[i].envKey != Some("ld") {
      }
    }
    KeepsUnregistered(map[], cs, Some("ld"));
  }

  /** `LD` with the `__env_key__ = "ld"` its documentation names as its
      configuration key. */
  const KeyedLD: PluginClass := PluginClass("LD", Some("ld"))

  /** The built-ins with `LD` keyed. */
  function KeyedBuiltins(): Registry {
    DefineAll(map[], [Lifetime, OS, MXX, KeyedLD])
  }

  /** With `LD` keyed, an `[ld]` section resolves to `LD`, the other
      built-in sections resolve as before, and nothing sits under None. */
  lemma KeyedSections()
    ensures Lookup(KeyedBuiltins(), "ld") == Some(KeyedLD)
    ensures Lookup(KeyedBuiltins(), "lifetime") == Some(Lifetime)
    ensures Lookup(KeyedBuiltins(), "os") == Some(OS)
    ensures Lookup(KeyedBuiltins(), "mxx") == Some(MXX)
    ensures None !in KeyedBuiltins()
  {
    var cs := [Lifetime, OS, MXX, KeyedLD];
    LastDefinitionWins(map[], cs, 0);
    LastDefinitionWins(map[], cs, 1);
    LastDefinitionWins(map[], cs, 2);
    LastDefinitionWins(map[], cs, 3);
    assert !Registers(cs, None) by {
      forall i | 0 <= i < |cs| ensures cs[i].envKey != None {
      }
    }
    KeepsUnregistered(map[], cs, None);
  }
}

/** `LDAttr`: an LDPlayer installation directory and the paths derived from
    it, with construction from the user configuration and from process
    discovery. */
module LDAttr {
  import opened Wrappers
  import Paths

  /** An installation. `interval` is `interval_between_batches`, in whole
      seconds. */
  datatype Attr = Attr(path: string, validate: bool, interval: int)

  /** `interval_between_batches`' default. */
  const DefaultInterval: int := 5

  /** `LDAttr(path)`: with validation on, a directory the probe rejects
      raises ValueError. `probe` stands for `isValid` (running the console
      and checking that the derived paths exist). */
  function New(path: string, validate: bool, probe: string -> bool): (r: Result<Attr>)
    ensures r.Ok? <==> !validate || probe(path)
    ensures r.Ok? ==> r.value == Attr(path, validate, DefaultInterval)
    ensures r.Err? ==> r.error == ValueError("Invalid LDPlayer path: " + path)
  {
    if validate && !probe(path) then Err(ValueError("Invalid LDPlayer path: " + path))
    else Ok(Attr(path, validate, DefaultInterval))
  }

  // -----------------------------------------------------------------------
  // Derived paths

  function Dnconsole(a: Attr): string { Paths.Join(a.path, "dnconsole.exe") }
  function Ldconsole(a: Attr): string { Paths.Join(a.path, "ldconsole") }
  function VmFolder(a: Attr): string { Paths.Join(a.path, "vms") }
  function CustomizeConfigs(a: Attr): string { Paths.Join(VmFolder(a), "customizeConfigs") }
  function RecommendedConfigs(a: Attr): string { Paths.Join(VmFolder(a), "recommendConfigs") }
  function OperationRecords(a: Attr): string { Paths.Join(VmFolder(a), "operationRecords") }
  function Config(a: Attr): string { Paths.Join(VmFolder(a), "config") }

  /** A directory path that does not end in a separator. */
  predicate OpenDir(d: string) {
    d != [] && d[|d| - 1] != '/'
  }

  /** `p` is the entry `name` directly inside `dir`. */
  predicate ChildOf(p: string, dir: string, name: string) {
    p == dir + "/" + name && Paths.Dirname(p) == dir && Paths.Basename(p) == name
  }

  lemma Child(dir: string, name: string)
    requires OpenDir(dir) && Paths.IsName(name)
    ensures ChildOf(Paths.Join(dir, name), dir, name)
  {
    Paths.SplitJoined(dir, name);
  }

  /** The console executables sit directly in the installation directory,
      and `vms` is its child. */
  lemma TopLevelPaths(a: Attr)
    requires OpenDir(a.path)
    ensures ChildOf(Dnconsole(a), a.path, "dnconsole.exe")
    ensures ChildOf(Ldconsole(a), a.path, "ldconsole")
    ensures ChildOf(VmFolder(a), a.path, "vms")
  {
    Child(a.path, "dnconsole.exe");
    Child(a.path, "ldconsole");
    Child(a.path, "vms");
  }

  /** The configuration folders are direct children of `vms`. */
  lemma VmChildren(a: Attr)
    requires OpenDir(a.path)
    ensures ChildOf(CustomizeConfigs(a), VmFolder(a), "customizeConfigs")
    ensures ChildOf(RecommendedConfigs(a), VmFolder(a), "recommendConfigs")
    ensures ChildOf(OperationRecords(a), VmFolder(a), "operationRecords")
    ensures ChildOf(Config(a), VmFolder(a), "config")
  {
    var vm := VmFolder(a);
    assert vm == a.path + "/vms";
    assert OpenDir(vm);
    Child(vm, "customizeConfigs");
    Child(vm, "recommendConfigs");
    Child(vm, "operationRecords");
    Child(vm, "config");
  }

  // -----------------------------------------------------------------------
  // Equality

  /** `__eq__` */
  predicate Same(a: Attr, b: Attr) {
    a.path == b.path
  }

  /** `__hash__` hashes the path alone. */
  function Hash(a: Attr): string {
    a.path
  }

  /** Equality ignores the validation flag and the interval, agrees with the
      hash, and equal installations have the same derived paths. */
  lemma SameMeansSamePaths(a: Attr, b: Attr)
    ensures Same(a, b) <==> Hash(a) == Hash(b)
    ensures Same(a, b) <==> Same(a.(validate := !a.validate, interval := a.interval + 1), b)
    ensures Same(a, b) ==> Ldconsole(a) == Ldconsole(b) && Config(a) == Config(b)
    ensures Same(a, b) ==> CustomizeConfigs(a) == CustomizeConfigs(b)
    ensures Same(a, b) ==> OperationRecords(a) == OperationRecords(b)
  {
  }

  // -----------------------------------------------------------------------
  // from_user and discover

  /** `LD_CONFIG["path"][index]`, with Python's negative indexing. */
  function FromUser(paths: seq<string>, index: int, probe: string -> bool): (r: Result<Attr>)
  {
    if |paths| == 0 || index >= |paths| then Err(ValueError("LDPlayer installation directory not found."))
    else if index < -|paths| then Err(IndexError("list index out of range"))
    else New(if index >= 0 then paths[index] else paths[|paths| + index], true, probe)
  }

  /** `from_user` refuses an empty path list and an index past its end; an
      index inside it picks that entry, and a negative one counts from the
      end as Python does. */
  lemma FromUserBounds(paths: seq<string>, index: int, probe: string -> bool)
    ensures (|paths| == 0 || index >= |paths|) ==>
            FromUser(paths, index, probe) == Err(ValueError("LDPlayer installation directory not found."))
    ensures 0 <= index < |paths| ==> FromUser(paths, index, probe) == New(paths[index], true, probe)
    ensures -|paths| <= index < 0 ==> FromUser(paths, index, probe) == New(paths[|paths| + index], true, probe)
    ensures index < -|paths| && |paths| > 0 ==> FromUser(paths, index, probe).error.IndexError?
  {
  }

  /** `discover`: a discovered process directory wins; without one the
      user configuration's first entry is used when falling back, and
      otherwise there is no installation. `found` is what process discovery
      returned. */
  function Discover(found: Option<string>, fallback: bool, paths: seq<string>, probe: string -> bool)
    : (r: Result<Option<Attr>>)
  {
    if found.None? || found.value == [] then
      if fallback then
        var a :- FromUser(paths, 0, probe);
        Ok(Some(a))
      else Ok(None)
    else
      var a :- New(found.value, true, probe);
      Ok(Some(a))
  }

  lemma DiscoverFallback(found: Option<string>, fallback: bool, paths: seq<string>, probe: string -> bool)
    ensures (found.None? || found == Some([])) && !fallback ==> Discover(found, fallback, paths, probe) == Ok(None)
    ensures (found.None? || found == Some([])) && fallback && |paths| == 0 ==>
            Discover(found, fallback, paths, probe) == Err(ValueError("LDPlayer installation directory not found."))
    ensures (found.None? || found == Some([])) && fallback && |paths| > 0 && probe(paths[0]) ==>
            Discover(found, fallback, paths, probe) == Ok(Some(Attr(paths[0], true, DefaultInterval)))
    ensures found.Some? && found.value != [] && probe(found.value) ==>
            Discover(found, fallback, paths, probe) == Ok(Some(Attr(found.value, true, DefaultInterval)))
  {
  }
}

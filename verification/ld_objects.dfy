/** The file objects over an installation's `vms` folder: keyboard mappings
    (`.kmp`) and scripts (`.smp`) in the customize and recommend folders,
    operation records (`.record`), and the per-instance `leidian<N>.config`
    files. Every read goes through the shared LFU cache. */
module ObjectFiles {
  import opened Wrappers
  import Text
  import Paths
  import LDAttr
  import LfuCache

  const KmpExt: string := ".kmp"
  const SmpExt: string := ".smp"
  const RecordExt: string := ".record"

  /** `if not name.endswith(ext): name += ext` */
  function WithSuffix(name: string, ext: string): string {
    if Text.EndsWith(name, ext) then name else name + ext
  }

  /** The name always ends up with the extension, a name that has it is
      kept as it is, and adding it twice changes nothing. */
  lemma SuffixNormal(name: string, ext: string)
    ensures Text.EndsWith(WithSuffix(name, ext), ext)
    ensures Text.EndsWith(name, ext) <==> WithSuffix(name, ext) == name
    ensures !Text.EndsWith(name, ext) ==> WithSuffix(name, ext) == name + ext
    ensures WithSuffix(WithSuffix(name, ext), ext) == WithSuffix(name, ext)
  {
    var n := name + ext;
    assert n[|n| - |ext|..] == ext;
  }

  /** `customizeList` / `recordList`: the base names of the regular files of
      `dir` whose names end in `ext`, in directory order. `entries` is what
      `os.listdir` returned and `isFile` stands for `os.path.isfile`. */
  function ListFiles(dir: string, entries: seq<string>, isFile: string -> bool, ext: string)
    : (r: seq<string>)
    ensures |r| <= |entries|
  {
    if |entries| == 0 then []
    else
      var rest := ListFiles(dir, entries[1..], isFile, ext);
      var f := entries[0];
      if Selected(dir, f, isFile, ext) then [Paths.Basename(f)] + rest else rest
  }

  /** Entry `f` of `dir` is a regular file with the extension. */
  predicate Selected(dir: string, f: string, isFile: string -> bool, ext: string) {
    isFile(Paths.Join(dir, f)) && Text.EndsWith(f, ext)
  }

  /** Entry `f` is a regular file with the extension whose base name is
      `x`. */
  predicate Lists(dir: string, f: string, isFile: string -> bool, ext: string, x: string) {
    Selected(dir, f, isFile, ext) && Paths.Basename(f) == x
  }

  /** A name is listed exactly when some entry is a regular file with the
      extension and has that base name. */
  lemma {:induction false} ListFilesExactly(dir: string, entries: seq<string>, isFile: string -> bool,
                                            ext: string, x: string)
    ensures x in ListFiles(dir, entries, isFile, ext) <==>
      exists i :: 0 <= i < |entries| && Lists(dir, entries[i], isFile, ext, x)
  {
    if |entries| > 0 {
      ListFilesExactly(dir, entries[1..], isFile, ext, x);
      ListedHead(dir, entries, isFile, ext, x);
      SomeEntryCons(dir, entries, isFile, ext, x);
    }
  }

  lemma ListedHead(dir: string, entries: seq<string>, isFile: string -> bool, ext: string, x: string)
    requires |entries| > 0
    ensures x in ListFiles(dir, entries, isFile, ext) <==>
      Lists(dir, entries[0], isFile, ext, x) || x in ListFiles(dir, entries[1..], isFile, ext)
  {
    var rest := ListFiles(dir, entries[1..], isFile, ext);
    var head := if Selected(dir, entries[0], isFile, ext) then [Paths.Basename(entries[0])] else [];
    assert ListFiles(dir, entries, isFile, ext) == head + rest;
    assert x in head <==> Lists(dir, entries[0], isFile, ext, x);
    InConcat(x, head, rest);
  }

  lemma InConcat<T>(x: T, a: seq<T>, b: seq<T>)
    ensures x in a + b <==> x in a || x in b
  {
  }

  lemma SomeEntryCons(dir: string, entries: seq<string>, isFile: string -> bool, ext: string, x: string)
    requires |entries| > 0
    ensures (exists i :: 0 <= i < |entries| && Lists(dir, entries[i], isFile, ext, x)) <==>
      Lists(dir, entries[0], isFile, ext, x)
      || exists i :: 0 <= i < |entries[1..]| && Lists(dir, entries[1..][i], isFile, ext, x)
  {
    var b := seq(|entries|, i requires 0 <= i < |entries| => Lists(dir, entries[i], isFile, ext, x));
    SomeCons(b);
    assert b[1..] == seq(|entries[1..]|, i requires 0 <= i < |entries[1..]| => Lists(dir, entries[1..][i], isFile, ext, x));
  }

  /** Some flag is set exactly when the first one is or one of the rest. */
  lemma SomeCons(b: seq<bool>)
    requires |b| > 0
    ensures (exists i :: 0 <= i < |b| && b[i]) <==> b[0] || exists i :: 0 <= i < |b[1..]| && b[1..][i]
  {
    if exists i :: 0 <= i < |b| && b[i] {
      var i :| 0 <= i < |b| && b[i];
      if i > 0 {
        assert b[1..][i - 1];
      }
    }
    if exists i :: 0 <= i < |b[1..]| && b[1..][i] {
      var i :| 0 <= i < |b[1..]| && b[1..][i];
      assert b[i + 1];
    }
  }

  /** `dump(path, ...)`: a relative path is taken inside `dir`, an absolute
      one is used as given. */
  function DumpPath(dir: string, path: string): string {
    if Paths.IsAbs(path) then path else Paths.Join(dir, path)
  }

  lemma DumpTarget(dir: string, path: string)
    ensures Paths.IsAbs(path) ==> DumpPath(dir, path) == path
    ensures !Paths.IsAbs(path) && LDAttr.OpenDir(dir) ==> DumpPath(dir, path) == dir + "/" + path
    ensures !Paths.IsAbs(path) && Paths.IsName(path) && LDAttr.OpenDir(dir) ==>
      LDAttr.ChildOf(DumpPath(dir, path), dir, path)
  {
    if !Paths.IsAbs(path) && Paths.IsName(path) && LDAttr.OpenDir(dir) {
      LDAttr.Child(dir, path);
    }
  }

  /** The file `getCustomize(name)` reads for extension `ext`. */
  function CustomizePath(a: LDAttr.Attr, name: string, ext: string): string {
    Paths.Join(LDAttr.CustomizeConfigs(a), WithSuffix(name, ext))
  }

  /** The file `getRecommended(name)` reads for extension `ext`. */
  function RecommendedPath(a: LDAttr.Attr, name: string, ext: string): string {
    Paths.Join(LDAttr.RecommendedConfigs(a), WithSuffix(name, ext))
  }

  /** `getCustomize` / `getRecommended` up to `from_dict`: the cached load of
      the file (`disk` stands for the file system). For `.smp` files the raw
      value is what the source returns. */
  function GetCustomize(c: LfuCache.Cache, a: LDAttr.Attr, name: string, ext: string,
                        disk: string -> LfuCache.Disk, cap: nat): (o: LfuCache.Outcome)
  {
    var p := CustomizePath(a, name, ext);
    LfuCache.LoadFile(c, p, disk(p), cap)
  }

  function GetRecommended(c: LfuCache.Cache, a: LDAttr.Attr, name: string, ext: string,
                          disk: string -> LfuCache.Disk, cap: nat): (o: LfuCache.Outcome)
  {
    var p := RecommendedPath(a, name, ext);
    LfuCache.LoadFile(c, p, disk(p), cap)
  }

  /** Dumping under a bare name and reading back by that name, with or
      without the extension, address the same file; so does reading back a
      name that `customizeList` returned. */
  lemma DumpThenGet(a: LDAttr.Attr, name: string, ext: string)
    requires !Paths.IsAbs(name) && ext in {KmpExt, SmpExt, RecordExt}
    ensures DumpPath(LDAttr.CustomizeConfigs(a), WithSuffix(name, ext)) == CustomizePath(a, name, ext)
    ensures CustomizePath(a, WithSuffix(name, ext), ext) == CustomizePath(a, name, ext)
    ensures Text.EndsWith(name, ext) ==> CustomizePath(a, name, ext) == Paths.Join(LDAttr.CustomizeConfigs(a), name)
  {
    SuffixNormal(name, ext);
    assert !Paths.IsAbs(WithSuffix(name, ext)) by {
      if name != [] { assert WithSuffix(name, ext)[0] == name[0]; }
      else { assert WithSuffix(name, ext) == ext; }
    }
  }

  /** A cached read keeps the cache consistent and within its bound. */
  lemma GetKeepsCache(c: LfuCache.Cache, a: LDAttr.Attr, name: string, ext: string,
                      disk: string -> LfuCache.Disk, cap: nat)
    requires LfuCache.Valid(c) && cap >= 1 && |c.files| <= cap
    ensures LfuCache.Valid(GetCustomize(c, a, name, ext, disk, cap).cache)
    ensures |GetCustomize(c, a, name, ext, disk, cap).cache.files| <= cap
    ensures LfuCache.Valid(GetRecommended(c, a, name, ext, disk, cap).cache)
    ensures |GetRecommended(c, a, name, ext, disk, cap).cache.files| <= cap
  {
    var p := CustomizePath(a, name, ext);
    var q := RecommendedPath(a, name, ext);
    LfuCache.LoadValid(c, p, disk(p), cap);
    LfuCache.LoadBounded(c, p, disk(p), cap);
    LfuCache.LoadValid(c, q, disk(q), cap);
    LfuCache.LoadBounded(c, q, disk(q), cap);
  }
}

/** `LeidianFile`: the instance configurations `leidian<N>.config` and the
    shared `leidians.config` in the `config` folder. */
module LeidianFile {
  import opened Wrappers
  import Text
  import Paths
  import ODict
  import opened Py
  import LDAttr
  import LfuCache

  /** A configuration file `listLeidianConfigs` reports. */
  predicate IsInstanceFile(f: string) {
    Text.EndsWith(f, ".config") && Text.StartsWith(f, "leidian") && f != "leidians.config"
  }

  /** `listLeidianConfigs`: the joined paths of the instance files in
      directory order; `entries` is what `os.listdir` returned. */
  function ListConfigs(a: LDAttr.Attr, entries: seq<string>): (r: seq<string>)
    ensures |r| <= |entries|
  {
    if |entries| == 0 then []
    else
      var rest := ListConfigs(a, entries[1..]);
      if IsInstanceFile(entries[0]) then [Paths.Join(LDAttr.Config(a), entries[0])] + rest else rest
  }

  lemma {:induction false} ListConfigsExactly(a: LDAttr.Attr, entries: seq<string>, p: string)
    ensures p in ListConfigs(a, entries) <==>
      exists i :: 0 <= i < |entries| && IsInstanceFile(entries[i]) && Paths.Join(LDAttr.Config(a), entries[i]) == p
  {
    if |entries| > 0 {
      ListConfigsExactly(a, entries[1..], p);
      if p in ListConfigs(a, entries[1..]) {
        var i :| 0 <= i < |entries[1..]| && IsInstanceFile(entries[1..][i])
          && Paths.Join(LDAttr.Config(a), entries[1..][i]) == p;
        assert entries[i + 1] == entries[1..][i];
      }
      if (exists i :: 0 <= i < |entries| && IsInstanceFile(entries[i]) && Paths.Join(LDAttr.Config(a), entries[i]) == p) {
        var i :| 0 <= i < |entries| && IsInstanceFile(entries[i]) && Paths.Join(LDAttr.Config(a), entries[i]) == p;
        if i > 0 {
          assert entries[1..][i - 1] == entries[i];
        }
      }
    }
  }

  /** How a caller names an instance: by number or by text. */
  datatype Id = Num(n: int) | Name(s: string)

  /** A text made of digits is taken as a number (`int("007")` is 7). */
  function Normalise(id: Id): Id {
    if id.Name? && Text.IsDigits(id.s) then Num(Text.DigitsValue(id.s)) else id
  }

  /** The file name an instance is read from: a text already starting with
      "leidian" only gains ".config"; anything else is put after
      "leidian". */
  function InstanceFile(id: Id): string {
    match Normalise(id)
    case Num(n) => "leidian" + Text.IntToString(n) + ".config"
    case Name(s) => if Text.StartsWith(s, "leidian") then s + ".config" else "leidian" + s + ".config"
  }

  /** `getLeidianConfig`'s path. */
  function ConfigPath(a: LDAttr.Attr, id: Id): string {
    Paths.Join(LDAttr.Config(a), InstanceFile(id))
  }

  /** The path of `leidians.config`, read by `getLeidiansConfig` and written
      by `dumpLeidiansConfig`. */
  function SharedPath(a: LDAttr.Attr): string {
    Paths.Join(LDAttr.Config(a), "leidians.config")
  }

  /** `dumpLeidianConfig`'s path for a configuration whose id is `id`. */
  function DumpPath(a: LDAttr.Attr, id: int): string {
    Paths.Join(LDAttr.Config(a), "leidian" + Text.IntToString(id) + ".config")
  }

  /** The instance file of a number is an instance file (never the shared
      one), so a dumped configuration is listed. */
  lemma NumberedFileListed(n: int)
    ensures IsInstanceFile("leidian" + Text.IntToString(n) + ".config")
  {
    var t := Text.IntToString(n);
    var f := "leidian" + t + ".config";
    assert f[..7] == "leidian";
    assert f[|f| - 7..] == ".config";
    assert f[7] == t[0];
    if n >= 0 {
      assert Text.IsDigit(t[0]);
    }
    assert f[7] != 's';
  }

  /** Reading an instance by number reads what dumping it wrote, and the
      decimal text of a number, with or without the "leidian" prefix, names
      the same file. */
  lemma SameInstanceFile(a: LDAttr.Attr, n: nat)
    ensures ConfigPath(a, Num(n)) == DumpPath(a, n)
    ensures ConfigPath(a, Name(Text.NatToString(n))) == DumpPath(a, n)
    ensures ConfigPath(a, Name("leidian" + Text.NatToString(n))) == DumpPath(a, n)
  {
    Text.DigitsOfNat(n);
    var t := "leidian" + Text.NatToString(n);
    assert t[..7] == "leidian";
    assert !Text.IsDigit(t[0]);
    assert t + ".config" == "leidian" + Text.IntToString(n) + ".config";
  }

  /** Every listed file is the one `getLeidianConfig` reads for the file's
      name without ".config". */
  lemma ListedFileReadable(a: LDAttr.Attr, f: string)
    requires IsInstanceFile(f)
    ensures |f| >= 14
    ensures ConfigPath(a, Name(f[..|f| - 7])) == Paths.Join(LDAttr.Config(a), f)
  {
    assert f[..7] == "leidian";
    assert f[|f| - 7..] == ".config";
    // The '.' opening ".config" cannot fall inside "leidian".
    assert f[|f| - 7] == '.';
    assert forall j :: 0 <= j < 7 ==> f[j] != '.';
    var stem := f[..|f| - 7];
    assert stem[..7] == f[..7];
    assert !Text.IsDigit(stem[0]);
    assert stem + ".config" == f;
  }

  /** The result of `getMultipleLeidianConfigs`: the cache afterwards and
      the loaded values by id (`from_dict` is not applied). */
  datatype Many = Many(cache: LfuCache.Cache, result: Result<ODict.Dict<int, Option<Value>>>)

  /** The dictionary comprehension: load the ids in order, a repeated id
      overwriting its earlier value in place; the first failed load ends it. */
  function LoadFrom(c: LfuCache.Cache, a: LDAttr.Attr, ids: seq<int>, acc: ODict.Dict<int, Option<Value>>,
                    disk: string -> LfuCache.Disk, cap: nat): (m: Many)
    requires ODict.UniqueKeys(acc)
    ensures m.result.Ok? ==> ODict.UniqueKeys(m.result.value)
    ensures m.result.Ok? ==> ODict.Keys(m.result.value) == ODict.Keys(acc) + (set k | k in ids)
    decreases |ids|
  {
    if |ids| == 0 then Many(c, Ok(acc))
    else
      var p := DumpPath(a, ids[0]);
      var o := LfuCache.LoadFile(c, p, disk(p), cap);
      if o.result.Err? then Many(o.cache, Err(o.result.error))
      else
        ODict.PutUnique(acc, ids[0], o.result.value);
        ODict.PutGet(acc, ids[0], o.result.value, ids[0]);
        var m := LoadFrom(o.cache, a, ids[1..], ODict.Put(acc, ids[0], o.result.value), disk, cap);
        assert (set k | k in ids) == {ids[0]} + (set k | k in ids[1..]);
        m
  }

  /** `getMultipleLeidianConfigs(ids)` */
  function LoadMany(c: LfuCache.Cache, a: LDAttr.Attr, ids: seq<int>, disk: string -> LfuCache.Disk, cap: nat)
    : (m: Many)
    ensures m.result.Ok? ==> ODict.Keys(m.result.value) == set k | k in ids
    ensures m.result.Ok? ==> |m.result.value| <= |ids|
  {
    var m := LoadFrom(c, a, ids, [], disk, cap);
    if m.result.Ok? then
      ODict.KeyCount(m.result.value);
      CardOfIds(ids);
      m
    else m
  }

  lemma {:induction false} CardOfIds(ids: seq<int>)
    ensures |set k | k in ids| <= |ids|
  {
    if |ids| > 0 {
      CardOfIds(ids[1..]);
      assert (set k | k in ids) == {ids[0]} + (set k | k in ids[1..]);
    }
  }
}

/** `RecordFile`: operation records, a header and a list of operations. */
module RecordFile {
  import opened Wrappers
  import Paths
  import ODict
  import opened Py
  import LDAttr
  import LfuCache
  import ObjectFiles

  /** The declared fields of the `RecordInfo` and `Operation`
      dataclasses. Their module is not part of this model, so the fields
      are a parameter. */
  datatype Shapes = Shapes(info: seq<Field>, operation: seq<Field>)

  /** `Record(recordInfo=RecordInfo(**...), operations=[Operation(**...)])`,
      each part as the attributes of the constructed instance. */
  datatype Record = Record(info: Attrs, operations: seq<Attrs>)

  /** `[Operation(**op) for op in xs]`: the first item the dataclass refuses
      raises TypeError. */
  function Operations(xs: seq<Value>, fields: seq<Field>): (r: Result<seq<Attrs>>)
    ensures r.Ok? <==> forall i :: 0 <= i < |xs| ==> AcceptsKwargs(xs[i], fields)
    ensures r.Ok? ==> |r.value| == |xs|
    ensures r.Ok? ==> forall i :: 0 <= i < |xs| ==> Construct(xs[i], fields) == Ok(r.value[i])
    ensures r.Err? ==> r.error.TypeError?
  {
    if |xs| == 0 then Ok([])
    else
      var op :- Construct(xs[0], fields);
      var rest :- Operations(xs[1..], fields);
      assert forall i :: 1 <= i < |xs| ==> xs[i] == xs[1..][i - 1];
      Ok([op] + rest)
  }

  /** The construction shared by `getRecord` and `load`; `raw` is the
      parsed file, None when the file was missing. */
  function Build(raw: Option<Value>, shapes: Shapes): (r: Result<Record>)
  {
    if raw.None? then Err(TypeError("'NoneType' object is not subscriptable"))
    else
      var infoRaw :- Subscript(raw.value, "recordInfo");
      var info :- Construct(infoRaw, shapes.info);
      var opsRaw :- Subscript(raw.value, "operations");
      var items :- Items(opsRaw);
      var ops :- Operations(items, shapes.operation);
      Ok(Record(info, ops))
  }

  /** A file with a header and a list of operations builds exactly when
      the header and every operation fit their dataclasses; it then gives
      the constructed header and one constructed operation per entry, in
      file order. A header that does not fit raises TypeError. */
  lemma BuildShape(raw: Value, info: Value, ops: seq<Value>, shapes: Shapes)
    requires raw.Dict? && ODict.UniqueKeys(raw.entries)
    requires ("recordInfo", info) in raw.entries && ("operations", List(ops)) in raw.entries
    ensures Build(Some(raw), shapes).Ok? <==>
      AcceptsKwargs(info, shapes.info) && forall i :: 0 <= i < |ops| ==> AcceptsKwargs(ops[i], shapes.operation)
    ensures Build(Some(raw), shapes).Ok? ==>
      && Construct(info, shapes.info) == Ok(Build(Some(raw), shapes).value.info)
      && |Build(Some(raw), shapes).value.operations| == |ops|
      && forall i :: 0 <= i < |ops| ==>
           Construct(ops[i], shapes.operation) == Ok(Build(Some(raw), shapes).value.operations[i])
    ensures !AcceptsKwargs(info, shapes.info) ==>
      Build(Some(raw), shapes).Err? && Build(Some(raw), shapes).error.TypeError?
  {
    BuildFromParts(raw, info, ops, shapes);
  }

  /** Such a file builds from its header and its operation list alone. */
  lemma BuildFromParts(raw: Value, info: Value, ops: seq<Value>, shapes: Shapes)
    requires raw.Dict? && ODict.UniqueKeys(raw.entries)
    requires ("recordInfo", info) in raw.entries && ("operations", List(ops)) in raw.entries
    ensures Build(Some(raw), shapes)
         == match Construct(info, shapes.info)
            case Err(e) => Err(e)
            case Ok(i) =>
              match Operations(ops, shapes.operation)
              case Err(e) => Err(e)
              case Ok(os) => Ok(Record(i, os))
  {
    ODict.GetStored(raw.entries, "recordInfo", info);
    ODict.GetStored(raw.entries, "operations", List(ops));
  }

  lemma BuildErrors(raw: Value, shapes: Shapes)
    ensures Build(None, shapes).Err? && Build(None, shapes).error.TypeError?
    ensures raw.Dict? && "recordInfo" !in ODict.Keys(raw.entries) ==>
      Build(Some(raw), shapes) == Err(KeyError("recordInfo"))
    ensures !raw.Dict? ==> Build(Some(raw), shapes).Err? && Build(Some(raw), shapes).error.TypeError?
  {
  }

  /** The file `getRecord(name)` reads. */
  function RecordPath(a: LDAttr.Attr, name: string): string {
    Paths.Join(LDAttr.OperationRecords(a), ObjectFiles.WithSuffix(name, ObjectFiles.RecordExt))
  }

  /** `getRecord`: the cached load, then the construction. */
  function Get(c: LfuCache.Cache, a: LDAttr.Attr, name: string, disk: string -> LfuCache.Disk, cap: nat,
               shapes: Shapes): (r: (LfuCache.Cache, Result<Record>))
  {
    var p := RecordPath(a, name);
    var o := LfuCache.LoadFile(c, p, disk(p), cap);
    (o.cache, if o.result.Err? then Err(o.result.error) else Build(o.result.value, shapes))
  }

  /** `load(path)`: `parsed` is the parsed file, or the error opening or
      parsing it raised. */
  function Load(parsed: Result<Value>, shapes: Shapes): (r: Result<Record>)
    ensures parsed.Err? ==> r == Err(parsed.error)
  {
    var v :- parsed;
    Build(Some(v), shapes)
  }

  /** `getRecord` on an uncached, existing file builds exactly what `load`
      builds from the same file, and caches it. */
  lemma GetIsLoad(c: LfuCache.Cache, a: LDAttr.Attr, name: string, disk: string -> LfuCache.Disk, cap: nat,
                  mtime: int, parsed: Result<Value>, shapes: Shapes)
    requires disk(RecordPath(a, name)) == LfuCache.Present(mtime, parsed)
    requires RecordPath(a, name) !in ODict.Keys(c.files)
    ensures Get(c, a, name, disk, cap, shapes).1 == Load(parsed, shapes)
  {
  }
}

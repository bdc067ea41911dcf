/** The `mxx` plugin: validates where an executable is to be found (a Scoop
    package or a directory), resolves its path at startup, refuses to
    launch a file that does not exist, and kills it by image name at
    shutdown. */
module MXX {
  import opened Wrappers
  import ODict
  import opened Py
  import Paths
  import Lifetime

  /** `MXXModel`'s fields in declaration order, every one with a default. */
  const Fields: seq<Field> := [
    Field("scoop", Some(Bool(true))),
    Field("pkg", Some(Null)),
    Field("path", Some(Null)),
    Field("targetExe", Some(Null)),
    Field("delay", Some(Int(10)))
  ]

  datatype MXXModel = MXXModel(scoop: Value, pkg: Value, path: Value, targetExe: Value, delay: Value)

  /** The messages of the three checks. */
  const NoExeMessage := "targetExe must be specified for MXX configuration."
  const NoPkgMessage := "pkg must be specified when scoop is True for MXX configuration."
  const PathWithScoopMessage := "path should not be specified when scoop is True for MXX configuration."

  /** `__post_init__`: the first failing check raises ValueError. */
  function Validate(m: MXXModel): (r: Result<MXXModel>)
    ensures r.Ok? ==> r.value == m
    ensures r.Err? ==> r.error.ValueError?
  {
    if !Truthy(m.targetExe) then Err(ValueError(NoExeMessage))
    else if Truthy(m.scoop) && !Truthy(m.pkg) then
      Err(ValueError(NoPkgMessage))
    else if Truthy(m.scoop) && Truthy(m.path) then
      Err(ValueError(PathWithScoopMessage))
    else Ok(m)
  }

  /** A configuration passes exactly when it names an executable and, in
      Scoop mode, a package but no directory. Outside Scoop mode nothing
      else is checked, not even that a directory is given. */
  lemma ValidateExactly(m: MXXModel)
    ensures Validate(m).Ok? <==>
      Truthy(m.targetExe) && (Truthy(m.scoop) ==> Truthy(m.pkg) && !Truthy(m.path))
    ensures !Truthy(m.scoop) && Truthy(m.targetExe) ==> Validate(m).Ok?
  {
  }

  /** `onEnvLoad`: `MXXModel(**env)`. */
  function OnEnvLoad(env: Value): (r: Result<MXXModel>)
    ensures r.Ok? ==> AcceptsKwargs(env, Fields) && Validate(r.value).Ok?
  {
    var a :- Construct(env, Fields);
    Validate(MXXModel(Attr(a, "scoop"), Attr(a, "pkg"), Attr(a, "path"), Attr(a, "targetExe"), Attr(a, "delay")))
  }

  /** The declared names and the defaults of the fields a section may
      leave out. */
  lemma FieldFacts()
    ensures Names(Fields) == {"scoop", "pkg", "path", "targetExe", "delay"}
    ensures DefaultOf(Fields, "scoop") == Bool(true)
    ensures DefaultOf(Fields, "path") == Null
    ensures DefaultOf(Fields, "delay") == Int(10)
  {
    assert Fields[0].name == "scoop" && Fields[1].name == "pkg" && Fields[2].name == "path";
    assert Fields[3].name == "targetExe" && Fields[4].name == "delay";
    DefaultAt(Fields, 0);
    DefaultAt(Fields, 2);
    DefaultAt(Fields, 4);
  }

  /** A section giving only a package and an executable is accepted. */
  lemma PackageSectionAccepted(pkg: string, exe: string)
    ensures AcceptsKwargs(Dict([("pkg", Str(pkg)), ("targetExe", Str(exe))]), Fields)
  {
    FieldFacts();
    assert ODict.Keys([("pkg", Str(pkg)), ("targetExe", Str(exe))]) == {"pkg", "targetExe"};
  }

  /** The model `onEnvLoad` builds from an accepted section, before its
      checks run. */
  function Loaded(env: ODict.Dict<string, Value>): MXXModel {
    var g := (n: string) => ODict.Get(env, n).GetOr(DefaultOf(Fields, n));
    MXXModel(g("scoop"), g("pkg"), g("path"), g("targetExe"), g("delay"))
  }

  /** Every field takes the section's value, else its default. */
  lemma LoadedFields(env: ODict.Dict<string, Value>)
    requires AcceptsKwargs(Dict(env), Fields)
    ensures OnEnvLoad(Dict(env)) == Validate(Loaded(env))
  {
    FieldFacts();
    var a := Construct(Dict(env), Fields).value;
    assert Attr(a, "scoop") == Loaded(env).scoop;
    assert Attr(a, "pkg") == Loaded(env).pkg;
    assert Attr(a, "path") == Loaded(env).path;
    assert Attr(a, "targetExe") == Loaded(env).targetExe;
    assert Attr(a, "delay") == Loaded(env).delay;
  }

  /** A section giving only a package and an executable is in Scoop mode
      with a ten-second delay. */
  lemma Defaults(pkg: string, exe: string)
    requires pkg != [] && exe != []
    ensures OnEnvLoad(Dict([("pkg", Str(pkg)), ("targetExe", Str(exe))]))
         == Ok(MXXModel(Bool(true), Str(pkg), Null, Str(exe), Int(10)))
  {
    var env := [("pkg", Str(pkg)), ("targetExe", Str(exe))];
    var m := MXXModel(Bool(true), Str(pkg), Null, Str(exe), Int(10));
    assert OnEnvLoad(Dict(env)) == Validate(Loaded(env)) by {
      PackageSectionAccepted(pkg, exe);
      LoadedFields(env);
    }
    assert Loaded(env) == m by {
      LoadedPackageSection(pkg, exe);
    }
    ScoopModelValid(pkg, exe);
  }

  lemma ScoopModelValid(pkg: string, exe: string)
    requires pkg != [] && exe != []
    ensures var m := MXXModel(Bool(true), Str(pkg), Null, Str(exe), Int(10));
      Validate(m) == Ok(m)
  {
    assert Truthy(Str(exe)) && Truthy(Bool(true)) && Truthy(Str(pkg)) && !Truthy(Null);
  }

  lemma LoadedPackageSection(pkg: string, exe: string)
    ensures Loaded([("pkg", Str(pkg)), ("targetExe", Str(exe))]) == MXXModel(Bool(true), Str(pkg), Null, Str(exe), Int(10))
  {
    FieldFacts();
    ODict.GetTwo("pkg", Str(pkg), "targetExe", Str(exe), "scoop");
    ODict.GetTwo("pkg", Str(pkg), "targetExe", Str(exe), "pkg");
    ODict.GetTwo("pkg", Str(pkg), "targetExe", Str(exe), "path");
    ODict.GetTwo("pkg", Str(pkg), "targetExe", Str(exe), "targetExe");
    ODict.GetTwo("pkg", Str(pkg), "targetExe", Str(exe), "delay");
  }

  /** The Scoop root: `$SCOOP` when set, else `~\scoop` expanded against
      the user's home directory. */
  function ScoopRoot(scoopEnv: Option<string>, home: string): string {
    scoopEnv.GetOr(home + "\\scoop")
  }

  /** The path `onStartup` checks and launches; joining a non-string raises
      TypeError, as `os.path.join` does. */
  function ExecutablePath(m: MXXModel, scoopEnv: Option<string>, home: string): (r: Result<string>)
  {
    if Truthy(m.scoop) then
      if m.pkg.Str? && m.targetExe.Str? then
        Ok(Paths.JoinAll(ScoopRoot(scoopEnv, home), ["apps", m.pkg.s, "current", m.targetExe.s]))
      else Err(TypeError("join() argument must be str"))
    else if m.path.Str? && m.targetExe.Str? then Ok(Paths.Join(m.path.s, m.targetExe.s))
    else Err(TypeError("join() argument must be str"))
  }

  /** `onStartup`: resolve the path, refuse a missing file, and launch the
      file (the result is the path launched). `isFile` stands for the file
      system. */
  function OnStartup(m: MXXModel, scoopEnv: Option<string>, home: string, isFile: string -> bool)
    : (r: Result<string>)
    ensures r.Ok? ==> isFile(r.value)
    ensures r.Ok? ==> ExecutablePath(m, scoopEnv, home) == Ok(r.value)
  {
    var p :- ExecutablePath(m, scoopEnv, home);
    if !isFile(p) then Err(FileNotFoundError(NotFoundMessage(p))) else Ok(p)
  }

  /** What a missing executable is reported with. */
  function NotFoundMessage(path: string): string {
    "MXX executable not found at " + path
  }

  /** A path whose last character is not a separator. */
  predicate OpenDir(d: string) {
    d != [] && d[|d| - 1] != '/'
  }

  /** `os.path.join` of four parts is four single joins. */
  lemma JoinFour(root: string, w: string, x: string, y: string, z: string)
    ensures Paths.JoinAll(root, [w, x, y, z])
         == Paths.Join(Paths.Join(Paths.Join(Paths.Join(root, w), x), y), z)
  {
    var r1 := Paths.Join(root, w);
    var r2 := Paths.Join(r1, x);
    var r3 := Paths.Join(r2, y);
    assert [w, x, y, z] == [w] + [x, y, z];
    Paths.JoinStep(root, w, [x, y, z]);
    assert [x, y, z] == [x] + [y, z];
    Paths.JoinStep(r1, x, [y, z]);
    assert [y, z] == [y] + [z];
    Paths.JoinStep(r2, y, [z]);
    assert [z] == [z] + [];
    Paths.JoinStep(r3, z, []);
  }

  /** Joining `apps`, a package, `current` and an executable onto a root. */
  lemma ScoopJoin(root: string, pkg: string, exe: string)
    requires OpenDir(root) && Paths.IsName(pkg) && Paths.IsName(exe)
    ensures Paths.JoinAll(root, ["apps", pkg, "current", exe])
         == root + "/" + "apps" + "/" + pkg + "/" + "current" + "/" + exe
  {
    JoinFour(root, "apps", pkg, "current", exe);
    assert Paths.IsName("apps") && Paths.IsName("current");
    var a := JoinName(root, "apps");
    var b := JoinName(a, pkg);
    var c := JoinName(b, "current");
    var d := JoinName(c, exe);
  }

  /** Joining a component onto an open directory inserts one separator and
      gives another open directory. */
  lemma JoinName(dir: string, name: string) returns (r: string)
    requires OpenDir(dir) && Paths.IsName(name)
    ensures r == Paths.Join(dir, name) == dir + "/" + name
    ensures OpenDir(r)
  {
    r := dir + "/" + name;
    assert name[|name| - 1] in name;
  }

  /** In Scoop mode the executable is `<root>/apps/<pkg>/current/<exe>`:
      its file name is the configured executable and it sits in the
      package's `current` directory. */
  lemma ScoopLayout(m: MXXModel, scoopEnv: Option<string>, home: string)
    requires Truthy(m.scoop) && m.pkg.Str? && m.targetExe.Str?
    requires Paths.IsName(m.pkg.s) && Paths.IsName(m.targetExe.s)
    requires OpenDir(ScoopRoot(scoopEnv, home))
    ensures var dir := ScoopRoot(scoopEnv, home) + "/" + "apps" + "/" + m.pkg.s + "/" + "current";
      && ExecutablePath(m, scoopEnv, home) == Ok(dir + "/" + m.targetExe.s)
      && Paths.Basename(dir + "/" + m.targetExe.s) == m.targetExe.s
      && Paths.Dirname(dir + "/" + m.targetExe.s) == dir
  {
    var root := ScoopRoot(scoopEnv, home);
    var dir := root + "/" + "apps" + "/" + m.pkg.s + "/" + "current";
    ScoopJoin(root, m.pkg.s, m.targetExe.s);
    Paths.SplitJoined(dir, m.targetExe.s);
  }

  /** Outside Scoop mode the executable is `<path>/<exe>`. */
  lemma DirectoryLayout(m: MXXModel, scoopEnv: Option<string>, home: string)
    requires !Truthy(m.scoop) && m.path.Str? && m.targetExe.Str?
    requires OpenDir(m.path.s) && Paths.IsName(m.targetExe.s)
    ensures ExecutablePath(m, scoopEnv, home) == Ok(m.path.s + "/" + m.targetExe.s)
    ensures Paths.Basename(m.path.s + "/" + m.targetExe.s) == m.targetExe.s
    ensures Paths.Dirname(m.path.s + "/" + m.targetExe.s) == m.path.s
  {
    Paths.SplitJoined(m.path.s, m.targetExe.s);
  }

  /** A missing executable raises FileNotFoundError naming it, and nothing
      is launched. */
  lemma MissingExecutable(m: MXXModel, scoopEnv: Option<string>, home: string, isFile: string -> bool)
    requires ExecutablePath(m, scoopEnv, home).Ok?
    requires !isFile(ExecutablePath(m, scoopEnv, home).value)
    ensures OnStartup(m, scoopEnv, home, isFile)
         == Err(FileNotFoundError("MXX executable not found at " + ExecutablePath(m, scoopEnv, home).value))
  {
  }

  /** A configuration outside Scoop mode that names no directory passes
      validation but cannot start: the join raises TypeError. */
  lemma NoDirectoryFailsAtStartup(exe: string, scoopEnv: Option<string>, home: string, isFile: string -> bool)
    requires exe != []
    ensures var m := MXXModel(Bool(false), Null, Null, Str(exe), Int(10));
      && Validate(m).Ok?
      && OnStartup(m, scoopEnv, home, isFile).Err?
      && OnStartup(m, scoopEnv, home, isFile).error.TypeError?
  {
  }

  /** `onShutdown`: `taskkill /IM <targetExe> /F`, the same action the
      `lifetime` plugin takes for a "cmd" entry. */
  function OnShutdown(m: MXXModel): (a: Lifetime.Action)
    ensures Lifetime.ActionOf(Value.List([Str("cmd"), m.targetExe])) == Some(a)
  {
    Lifetime.TaskKill(m.targetExe)
  }
}

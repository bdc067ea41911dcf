/** The `ld` plugin: names one emulator instance by name or by index,
    launches it (with an app when a package is configured) at startup, and
    quits it at shutdown unless told not to. Where it registers is stated
    in `Plugins.BuiltinSections`. */
module LDPlugin {
  import opened Wrappers
  import ODict
  import opened Py

  /** `LDModel`'s fields in declaration order. */
  const Fields: seq<Field> := [
    Field("name", Some(Null)),
    Field("index", Some(Null)),
    Field("path", Some(Null)),
    Field("pkg", Some(Null)),
    Field("close", Some(Bool(true)))
  ]

  datatype LDModel = LDModel(name: Value, index: Value, path: Value, pkg: Value, close: Value)

  /** The messages of the two checks. */
  const NeitherMessage := "Either name or index must be provided for LD configuration."
  const BothMessage := "Only one of name or index should be provided for LD configuration."

  /** `__post_init__`: exactly one of name and index must be truthy. */
  function Validate(m: LDModel): (r: Result<LDModel>)
    ensures r.Ok? ==> r.value == m
    ensures r.Err? ==> r.error.ValueError?
  {
    if !Truthy(m.name) && !Truthy(m.index) then
      Err(ValueError(NeitherMessage))
    else if Truthy(m.name) && Truthy(m.index) then
      Err(ValueError(BothMessage))
    else Ok(m)
  }

  /** A model is accepted exactly when one of name and index is truthy; so
      index 0 counts as no index at all. */
  lemma ValidateExactly(m: LDModel)
    ensures Validate(m).Ok? <==> (Truthy(m.name) <==> !Truthy(m.index))
    ensures !Truthy(m.name) && m.index == Int(0) ==> Validate(m).Err?
  {
  }

  /** `onEnvLoad`: `LDModel(**env)`. */
  function OnEnvLoad(env: Value): (r: Result<LDModel>)
    ensures r.Ok? ==> AcceptsKwargs(env, Fields) && Validate(r.value).Ok?
  {
    var a :- Construct(env, Fields);
    Validate(LDModel(Attr(a, "name"), Attr(a, "index"), Attr(a, "path"), Attr(a, "pkg"), Attr(a, "close")))
  }

  lemma FieldFacts()
    ensures Names(Fields) == {"name", "index", "path", "pkg", "close"}
    ensures DefaultOf(Fields, "index") == Null
    ensures DefaultOf(Fields, "path") == Null
    ensures DefaultOf(Fields, "pkg") == Null
    ensures DefaultOf(Fields, "close") == Bool(true)
  {
    assert Fields[0].name == "name" && Fields[1].name == "index" && Fields[2].name == "path";
    assert Fields[3].name == "pkg" && Fields[4].name == "close";
    DefaultAt(Fields, 1);
    DefaultAt(Fields, 2);
    DefaultAt(Fields, 3);
    DefaultAt(Fields, 4);
  }

  /** The model `onEnvLoad` builds from an accepted section, before its
      checks run. */
  function Loaded(env: ODict.Dict<string, Value>): LDModel {
    var g := (n: string) => ODict.Get(env, n).GetOr(DefaultOf(Fields, n));
    LDModel(g("name"), g("index"), g("path"), g("pkg"), g("close"))
  }

  lemma LoadedFields(env: ODict.Dict<string, Value>)
    requires AcceptsKwargs(Dict(env), Fields)
    ensures OnEnvLoad(Dict(env)) == Validate(Loaded(env))
  {
    FieldFacts();
    var a := Construct(Dict(env), Fields).value;
    assert Attr(a, "name") == Loaded(env).name;
    assert Attr(a, "index") == Loaded(env).index;
    assert Attr(a, "path") == Loaded(env).path;
    assert Attr(a, "pkg") == Loaded(env).pkg;
    assert Attr(a, "close") == Loaded(env).close;
  }

  lemma NameSectionAccepted(name: string)
    ensures AcceptsKwargs(Dict([("name", Str(name))]), Fields)
  {
    FieldFacts();
    assert ODict.Keys([("name", Str(name))]) == {"name"};
  }

  /** A section naming only an instance closes it at shutdown by default. */
  lemma ClosesByDefault(name: string)
    requires name != []
    ensures OnEnvLoad(Dict([("name", Str(name))])) == Ok(LDModel(Str(name), Null, Null, Null, Bool(true)))
  {
    var env := [("name", Str(name))];
    var m := LDModel(Str(name), Null, Null, Null, Bool(true));
    assert OnEnvLoad(Dict(env)) == Validate(Loaded(env)) by {
      NameSectionAccepted(name);
      LoadedFields(env);
    }
    assert Loaded(env) == m by {
      LoadedNameSection(name);
    }
    NameModelValid(name);
  }

  lemma LoadedNameSection(name: string)
    ensures Loaded([("name", Str(name))]) == LDModel(Str(name), Null, Null, Null, Bool(true))
  {
    var env := [("name", Str(name))];
    FieldFacts();
    ODict.GetAt(env, 0);
    assert ODict.Get(env, "index").None? && ODict.Get(env, "path").None?;
    assert ODict.Get(env, "pkg").None? && ODict.Get(env, "close").None?;
  }

  lemma NameModelValid(name: string)
    requires name != []
    ensures var m := LDModel(Str(name), Null, Null, Null, Bool(true));
      Validate(m) == Ok(m)
  {
    assert Truthy(Str(name)) && !Truthy(Null);
  }

  /** Where the console comes from: the configured directory, or process
      discovery (which falls back to the user configuration). */
  datatype Locate = AtPath(path: Value) | Discover

  /** The console command a hook issues. */
  datatype Command =
    | Launch(name: Value, index: Value)
    | LaunchEx(name: Value, index: Value, pkg: Value)
    | Quit(name: Value, index: Value)

  datatype Step = Step(locate: Locate, command: Command)

  /** `onStartup`: locate the console, then launch the instance, through
      `launchex` when a package is configured. */
  function OnStartup(m: LDModel): (s: Step)
    ensures s.command.Launch? || s.command.LaunchEx?
    ensures s.command.name == m.name && s.command.index == m.index
  {
    var locate := if Truthy(m.path) then AtPath(m.path) else Discover;
    if Truthy(m.pkg) then Step(locate, LaunchEx(m.name, m.index, m.pkg))
    else Step(locate, Launch(m.name, m.index))
  }

  /** `onShutdown`: quit the instance only when `close` is truthy, on a
      discovered console. */
  function OnShutdown(m: LDModel): (s: Option<Step>)
    ensures s.Some? ==> s.value.command == Quit(m.name, m.index)
  {
    if Truthy(m.close) then Some(Step(Discover, Quit(m.name, m.index))) else None
  }

  /** Startup uses `launchex` exactly when a package is set, and the
      configured directory exactly when one is set. */
  lemma StartupChoice(m: LDModel)
    ensures OnStartup(m).command.LaunchEx? <==> Truthy(m.pkg)
    ensures OnStartup(m).command.LaunchEx? ==> OnStartup(m).command.pkg == m.pkg
    ensures OnStartup(m).locate == AtPath(m.path) <==> Truthy(m.path)
  {
  }

  /** Shutdown quits exactly when `close` is truthy, and always on a
      discovered console even when a directory was configured. */
  lemma ShutdownChoice(m: LDModel)
    ensures OnShutdown(m).Some? <==> Truthy(m.close)
    ensures OnShutdown(m).Some? ==> OnShutdown(m).value.locate == Discover
  {
  }
}

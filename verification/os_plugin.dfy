/** The `os` plugin: runs a system command at startup and, when a `kill`
    target is configured and the `lifetime` plugin is loaded, files that
    target in lifetime's kill list. */
module OSPlugin {
  import opened Wrappers
  import ODict
  import Text
  import opened Py
  import Lifetime

  /** `OSModel`: `cmd` is required, `kill` defaults to None. */
  const Fields: seq<Field> := [Field("cmd", None), Field("kill", Some(Null))]

  datatype OSModel = OSModel(cmd: Value, kill: Value)

  /** `onEnvLoad` */
  function OnEnvLoad(env: Value): (r: Result<OSModel>)
    ensures r.Ok? <==> AcceptsKwargs(env, Fields)
  {
    var a :- Construct(env, Fields);
    Ok(OSModel(Attr(a, "cmd"), Attr(a, "kill")))
  }

  /** A section naming only `cmd` has no kill target; a section without
      `cmd` is refused. */
  lemma KillDefaultsToNone(cmd: Value, env: ODict.Dict<string, Value>)
    requires "cmd" !in ODict.Keys(env)
    ensures OnEnvLoad(Dict([("cmd", cmd)])) == Ok(OSModel(cmd, Null))
    ensures OnEnvLoad(Dict(env)).Err? && OnEnvLoad(Dict(env)).error.TypeError?
  {
    assert Fields[0].name == "cmd" && Fields[1].name == "kill";
    assert ODict.Keys([("cmd", cmd)]) == {"cmd"};
    DefaultAt(Fields, 1);
    assert Fields[0].default.None?;
  }

  /** A two-element kill entry. */
  function Entry(tag: string, name: Value): Value {
    List([Str(tag), name])
  }

  /** The entry filed for a truthy `kill`: a string with a space gives
      ("cmd", its text before the first space), any other string gives
      ("process", the string). For a list or a dict `" " in kill` tests
      membership, and `split` then fails; any other value cannot be
      searched at all. */
  function KillEntry(kill: Value): (r: Result<Value>)
    ensures kill.Str? ==> r.Ok?
  {
    match kill
    case Str(s) =>
      if ' ' in s then Ok(Entry("cmd", Str(Text.Split(s, ' ')[0]))) else Ok(Entry("process", kill))
    case List(xs) =>
      if Str(" ") in xs then Err(AttributeError("split")) else Ok(Entry("process", kill))
    case Dict(es) =>
      if " " in ODict.Keys(es) then Err(AttributeError("split")) else Ok(Entry("process", kill))
    case _ => Err(TypeError("argument is not iterable"))
  }

  /** What `onStartup` did: the command it ran and lifetime's kill list
      afterwards (None when no `lifetime` plugin is loaded). */
  datatype Startup = Startup(command: string, kills: Option<seq<Value>>)

  /** `onStartup`: run `cmd`; then, if `kill` is truthy and a `lifetime`
      plugin is loaded (`kills` is its kill list), append the entry. */
  function OnStartup(m: OSModel, kills: Option<seq<Value>>): (r: Result<Startup>)
    ensures r.Ok? ==> m.cmd == Str(r.value.command)
    ensures r.Ok? ==> (r.value.kills.Some? <==> kills.Some?)
  {
    if !m.cmd.Str? then Err(TypeError("system() argument must be str"))
    else if Truthy(m.kill) && kills.Some? then
      var e :- KillEntry(m.kill);
      Ok(Startup(m.cmd.s, Some(kills.value + [e])))
    else Ok(Startup(m.cmd.s, kills))
  }

  /** `onStartup` adds at most one entry to lifetime's list, at its end,
      and only when `kill` is set; the entries already there stay as they
      were. */
  lemma AppendsAtMostOne(m: OSModel, kills: seq<Value>)
    requires OnStartup(m, Some(kills)).Ok?
    ensures var after := OnStartup(m, Some(kills)).value.kills.value;
      && (Truthy(m.kill) ==> after == kills + [KillEntry(m.kill).value])
      && (!Truthy(m.kill) ==> after == kills)
      && |after| <= |kills| + 1
      && after[..|kills|] == kills
  {
  }

  /** Without a `lifetime` plugin nothing is filed. */
  lemma NoLifetimeNoEntry(m: OSModel)
    requires m.cmd.Str?
    ensures OnStartup(m, None) == Ok(Startup(m.cmd.s, None))
  {
  }

  /** A string target with a space is filed as ("cmd", first word), the
      first word being a space-free prefix of the target; one without a
      space is filed as ("process", the target). */
  lemma StringTarget(s: string)
    ensures ' ' in s ==> var w := Text.Split(s, ' ')[0];
      && KillEntry(Str(s)) == Ok(Entry("cmd", Str(w)))
      && ' ' !in w && Text.StartsWith(s, w + " ")
    ensures ' ' !in s ==> KillEntry(Str(s)) == Ok(Entry("process", Str(s)))
  {
    if ' ' in s {
      var i := Text.FirstIndex(s, ' ');
      assert Text.Split(s, ' ')[0] == s[..i];
      assert s[..i + 1] == s[..i] + " ";
    }
  }

  /** Every entry `os` files is one `lifetime` acts on at shutdown: a
      command target is killed with taskkill by its first word, a process
      target is terminated by name. */
  lemma FiledEntriesAreKilled(s: string)
    ensures var e := KillEntry(Str(s)).value;
      && Lifetime.ActionOf(e).Some?
      && (' ' in s ==> Lifetime.ActionOf(e) == Some(Lifetime.TaskKill(Str(Text.Split(s, ' ')[0]))))
      && (' ' !in s ==> Lifetime.ActionOf(e) == Some(Lifetime.Terminate(Str(s))))
  {
  }

  /** Across a run: the entry filed at startup is acted on when `lifetime`
      shuts down, after the entries already listed. */
  lemma KilledAtShutdown(m: OSModel, st: Lifetime.State, terminate: Lifetime.Terminator)
    requires m.kill.Str? && m.kill.s != []
    requires OnStartup(m, Some(st.killList)).Ok?
    ensures var after := st.(killList := OnStartup(m, Some(st.killList)).value.kills.value);
      var e := KillEntry(m.kill).value;
      && Lifetime.Actions(after.killList) == Lifetime.Actions(st.killList) + [Lifetime.ActionOf(e).value]
      && (Lifetime.OnShutdown(after, terminate).raised.None? ==>
            Lifetime.OnShutdown(after, terminate).performed == Lifetime.Actions(st.killList) + [Lifetime.ActionOf(e).value])
  {
    var e := KillEntry(m.kill).value;
    FiledEntriesAreKilled(m.kill.s);
    Lifetime.ActionsAppend(st.killList, [e]);
  }
}

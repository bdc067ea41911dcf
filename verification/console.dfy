/** `Console`: the command lines the LDPlayer console is invoked with. A
    command line is the command name followed by `--flag value` pairs; the
    values are Python values (strings, or 1/0 for switches) handed to the
    process launcher. */
module LDConsole {
  import opened Wrappers
  import Text
  import ODict
  import opened Py
  import BatchConsole

  /** An option: its flag and its value, None when the option is not
      given. */
  type Opt = (string, Value)

  /** `--name value` for every option that is given, in order. */
  function Emit(opts: seq<Opt>): (argv: seq<Value>)
    ensures |argv| % 2 == 0
  {
    if |opts| == 0 then []
    else if opts[0].1.Null? then Emit(opts[1..])
    else [Str(opts[0].0), opts[0].1] + Emit(opts[1..])
  }

  /** Reading a command line back: the value after the first `flag` in a
      flag position. */
  function FlagValue(argv: seq<Value>, flag: string): Option<Value>
    decreases |argv|
  {
    if |argv| < 2 then None
    else if argv[0] == Str(flag) then Some(argv[1])
    else FlagValue(argv[2..], flag)
  }

  /** The first given value of the option `name`. */
  function Given(opts: seq<Opt>, name: string): Option<Value> {
    if |opts| == 0 then None
    else if opts[0].0 == name && !opts[0].1.Null? then Some(opts[0].1)
    else Given(opts[1..], name)
  }

  lemma DashesInjective(a: string, b: string)
    ensures "--" + a == "--" + b <==> a == b
  {
    if "--" + a == "--" + b {
      assert a == ("--" + a)[2..];
    }
  }

  /** Every given option can be read back from the command line under its
      flag, and an option that is not given cannot. */
  lemma {:induction false} EmitReadBack(opts: seq<Opt>, name: string)
    ensures FlagValue(Emit(opts), name) == Given(opts, name)
  {
    if |opts| > 0 {
      EmitReadBack(opts[1..], name);
      if !opts[0].1.Null? {
        var argv := [Str(opts[0].0), opts[0].1] + Emit(opts[1..]);
        assert argv[2..] == Emit(opts[1..]);
      }
    }
  }

  /** When every entry for `name` carries `v`, that is what is given. */
  lemma {:induction false} GivenUniform(opts: seq<Opt>, name: string, v: Value)
    requires !v.Null?
    requires forall i :: 0 <= i < |opts| && opts[i].0 == name ==> opts[i].1 == v
    ensures (exists i :: 0 <= i < |opts| && opts[i].0 == name) ==> Given(opts, name) == Some(v)
    ensures (forall i :: 0 <= i < |opts| ==> opts[i].0 != name) ==> Given(opts, name) == None
  {
    if |opts| > 0 {
      GivenUniform(opts[1..], name, v);
      if exists i :: 0 <= i < |opts| && opts[i].0 == name {
        var i :| 0 <= i < |opts| && opts[i].0 == name;
        if i > 0 {
          assert opts[1..][i - 1].0 == name;
        }
      }
      if forall i :: 0 <= i < |opts| ==> opts[i].0 != name {
        assert forall i :: 0 <= i < |opts[1..]| ==> opts[1..][i].0 == opts[i + 1].0;
      }
    }
  }

  /** An option whose name no other option has is read back as given. */
  lemma ReadBackAt(opts: seq<Opt>, i: nat)
    requires i < |opts|
    requires forall j :: 0 <= j < |opts| && j != i ==> opts[j].0 != opts[i].0
    ensures FlagValue(Emit(opts), opts[i].0) == (if opts[i].1.Null? then None else Some(opts[i].1))
  {
    var n := opts[i].0;
    EmitReadBack(opts, n);
    if opts[i].1.Null? {
      NullNotGiven(opts, n);
    } else {
      GivenUniform(opts, n, opts[i].1);
    }
  }

  /** The first option, when given, opens the command line. */
  lemma EmitFirst(o: Opt, rest: seq<Opt>)
    requires !o.1.Null?
    ensures Emit([o] + rest) == [Str(o.0), o.1] + Emit(rest)
  {
    assert ([o] + rest)[0] == o;
    assert ([o] + rest)[1..] == rest;
  }

  /** A switch: None stays None, anything else is 1 when truthy and 0 when
      not. */
  function Switch(v: Value): Value {
    if v.Null? then Null else Int(if Truthy(v) then 1 else 0)
  }

  /** `str(v)` of a given value. */
  function Shown(v: Value): Value {
    if v.Null? then Null else Str(Show(v))
  }

  // -----------------------------------------------------------------------
  // globalsetting

  function GlobalSettingOpts(fps: Value, audio: Value, fastplay: Value, cleanmode: Value): seq<Opt> {
    [("--fps", Shown(fps)), ("--audio", Switch(audio)), ("--fastplay", Switch(fastplay)), ("--cleanmode", Switch(cleanmode))]
  }

  /** `globalsetting`: the command line after the console path. */
  function GlobalSetting(fps: Value, audio: Value, fastplay: Value, cleanmode: Value): (argv: seq<Value>)
    ensures |argv| >= 1 && argv[0] == Str("globalsetting")
  {
    [Str("globalsetting")] + Emit(GlobalSettingOpts(fps, audio, fastplay, cleanmode))
  }

  /** Each setting is passed exactly when it is given: the frame rate as
      text, the switches as 1 or 0. */
  lemma GlobalSettingReadBack(fps: Value, audio: Value, fastplay: Value, cleanmode: Value)
    ensures var rest := GlobalSetting(fps, audio, fastplay, cleanmode)[1..];
      && FlagValue(rest, "--fps") == (if fps.Null? then None else Some(Str(Show(fps))))
      && FlagValue(rest, "--audio") == (if audio.Null? then None else Some(Int(if Truthy(audio) then 1 else 0)))
      && FlagValue(rest, "--fastplay") == (if fastplay.Null? then None else Some(Int(if Truthy(fastplay) then 1 else 0)))
      && FlagValue(rest, "--cleanmode") == (if cleanmode.Null? then None else Some(Int(if Truthy(cleanmode) then 1 else 0)))
  {
    var opts := GlobalSettingOpts(fps, audio, fastplay, cleanmode);
    assert GlobalSetting(fps, audio, fastplay, cleanmode)[1..] == Emit(opts);
    ReadBackAt(opts, 0);
    ReadBackAt(opts, 1);
    ReadBackAt(opts, 2);
    ReadBackAt(opts, 3);
  }

  // -----------------------------------------------------------------------
  // modify

  /** `modify`'s keyword arguments; None is `Null`. */
  datatype ModifyArgs = ModifyArgs(
    name: Value, index: Value, resolution: Value, cpu: Value, memory: Value,
    manufacturer: Value, model: Value, pnumber: Value, imei: Value, imsi: Value,
    simserial: Value, androidid: Value, mac: Value, autorotate: Value, lockwindow: Value, root: Value)

  /** The instance flag: a string name by `--name`, otherwise the index
      as text by `--index`. */
  function TargetOpt(name: Value, index: Value): Opt {
    if name.Str? then ("--name", name) else ("--index", Str(Show(index)))
  }

  /** The settings' flags, in the order they are passed. */
  const SettingFlags: seq<string> :=
    ["--resolution", "--cpu", "--memory", "--manufacturer", "--model", "--pnumber", "--imei",
     "--imsi", "--simserial", "--androidid", "--mac", "--autorotate", "--lockwindow", "--root"]

  /** What each setting is passed as: text as is, numbers and identifiers
      as text, switches as 1 or 0. */
  function SettingValues(m: ModifyArgs): (vs: seq<Value>)
    ensures |vs| == |SettingFlags|
  {
    [m.resolution, Shown(m.cpu), Shown(m.memory), m.manufacturer, m.model, Shown(m.pnumber),
     Shown(m.imei), Shown(m.imsi), Shown(m.simserial), Shown(m.androidid), Shown(m.mac),
     Switch(m.autorotate), Switch(m.lockwindow), Switch(m.root)]
  }

  function SettingOpts(m: ModifyArgs): (opts: seq<Opt>)
    ensures |opts| == |SettingFlags|
    ensures forall i :: 0 <= i < |opts| ==> opts[i] == (SettingFlags[i], SettingValues(m)[i])
  {
    var vs := SettingValues(m);
    seq(|SettingFlags|, i requires 0 <= i < |SettingFlags| => (SettingFlags[i], vs[i]))
  }

  lemma SettingFlagsDistinct()
    ensures forall i, j :: 0 <= i < j < |SettingFlags| ==> SettingFlags[i] != SettingFlags[j]
  {
  }

  function ModifyWith(m: ModifyArgs): seq<Value> {
    [Str("modify")] + Emit([TargetOpt(m.name, m.index)] + SettingOpts(m))
  }

  /** What `modify` refuses a call without a target with. */
  const NoTargetMessage := "Either name or index must be provided"

  /** `modify` as written: it refuses the call when the name and the index
      are both falsy, so index 0 is refused like a missing index. */
  function Modify(m: ModifyArgs): (r: Result<seq<Value>>)
    ensures r.Err? ==> r.error == ValueError(NoTargetMessage)
  {
    if !Truthy(m.name) && !Truthy(m.index) then Err(ValueError(NoTargetMessage))
    else Ok(ModifyWith(m))
  }

  /** Which instance `modify` addresses: a string name wins (even an empty
      one, when an index is also given); otherwise the index is passed as
      text. The call is refused exactly when both are falsy. */
  lemma ModifyTarget(m: ModifyArgs)
    ensures Modify(m).Ok? <==> Truthy(m.name) || Truthy(m.index)
    ensures Modify(m).Ok? && m.name.Str? ==> Modify(m).value[..3] == [Str("modify"), Str("--name"), m.name]
    ensures Modify(m).Ok? && !m.name.Str? ==> Modify(m).value[..3] == [Str("modify"), Str("--index"), Str(Show(m.index))]
  {
    EmitFirst(TargetOpt(m.name, m.index), SettingOpts(m));
  }

  /** The first instance cannot be modified by index: `index=0` alone is
      refused with the message for a missing target. */
  lemma ModifyRefusesIndexZero(m: ModifyArgs)
    requires m.name.Null? && m.index == Int(0)
    ensures Modify(m) == Err(ValueError(NoTargetMessage))
  {
  }

  /** `modify` with the guard evidently intended, as the command line's
      `not name and index is None`: only a missing index is refused. */
  function ModifyFixed(m: ModifyArgs): (r: Result<seq<Value>>)
    ensures r.Err? ==> r.error == ValueError(NoTargetMessage)
  {
    if !Truthy(m.name) && m.index.Null? then Err(ValueError(NoTargetMessage))
    else Ok(ModifyWith(m))
  }

  /** With the fix every given index is accepted, index 0 included, and
      it is passed under `--index`. */
  lemma ModifyFixedTarget(m: ModifyArgs)
    ensures ModifyFixed(m).Ok? <==> Truthy(m.name) || !m.index.Null?
    ensures m.name.Null? && m.index == Int(0) ==>
      ModifyFixed(m) == Ok([Str("modify"), Str("--index"), Str("0")] + Emit(SettingOpts(m)))
  {
    if m.name.Null? && m.index == Int(0) {
      assert Show(Int(0)) == "0";
      var t := TargetOpt(m.name, m.index);
      assert t == ("--index", Str("0"));
      EmitFirst(t, SettingOpts(m));
      var e := Emit(SettingOpts(m));
      assert ModifyWith(m) == [Str("modify")] + ([Str("--index"), Str("0")] + e);
      assert [Str("modify")] + ([Str("--index"), Str("0")] + e) == [Str("modify"), Str("--index"), Str("0")] + e;
    }
  }

  /** After the instance flag, every setting is passed under its own flag
      exactly when it is given. */
  lemma ModifySettings(m: ModifyArgs)
    ensures forall i :: 0 <= i < |SettingFlags| ==>
      FlagValue(ModifyWith(m)[3..], SettingFlags[i])
        == (if SettingValues(m)[i].Null? then None else Some(SettingValues(m)[i]))
  {
    var opts := SettingOpts(m);
    ModifyTail(m);
    forall i | 0 <= i < |SettingFlags|
      ensures FlagValue(Emit(opts), SettingFlags[i])
        == (if SettingValues(m)[i].Null? then None else Some(SettingValues(m)[i]))
    {
      SettingReadBack(m, i);
    }
  }

  /** After `modify` and the instance flag come the settings. */
  lemma ModifyTail(m: ModifyArgs)
    ensures ModifyWith(m)[3..] == Emit(SettingOpts(m))
  {
    EmitFirst(TargetOpt(m.name, m.index), SettingOpts(m));
  }

  lemma SettingReadBack(m: ModifyArgs, i: nat)
    requires i < |SettingFlags|
    ensures FlagValue(Emit(SettingOpts(m)), SettingFlags[i])
      == (if SettingValues(m)[i].Null? then None else Some(SettingValues(m)[i]))
  {
    SettingFlagsDistinct();
    ReadBackAt(SettingOpts(m), i);
  }

  /** The settings in particular: the resolution as given, the CPU count
      and the MAC address as text, root as a switch. */
  lemma ModifySettingExamples(m: ModifyArgs)
    ensures FlagValue(ModifyWith(m)[3..], "--cpu") == (if m.cpu.Null? then None else Some(Str(Show(m.cpu))))
    ensures FlagValue(ModifyWith(m)[3..], "--root") == (if m.root.Null? then None else Some(Int(if Truthy(m.root) then 1 else 0)))
  {
    ModifyTail(m);
    SettingReadBack(m, 1);
    SettingReadBack(m, 13);
    assert SettingFlags[1] == "--cpu" && SettingFlags[13] == "--root";
  }

  // -----------------------------------------------------------------------
  // operaterecord

  /** `operaterecord`: `content` is required; a `Record` object is passed
      as its JSON text, which `dump` stands for. A name is preferred over
      an index, and neither is required. */
  function OperateRecord(name: Value, index: Value, content: Value, dump: Value -> string): (r: Result<seq<Value>>)
    ensures r.Err? <==> content.Null?
    ensures r.Err? ==> r.error == AssertionError("content is required")
  {
    if content.Null? then Err(AssertionError("content is required"))
    else
      var target := if !name.Null? then [Str("--name"), name]
                    else if !index.Null? then [Str("--index"), Str(Show(index))] else [];
      var c := if content == Obj("Record") then Str(dump(content)) else content;
      Ok([Str("operaterecord")] + target + [Str("--content"), c])
  }

  /** The content always comes last; the instance flag, if any, sits
      between the command and it. */
  lemma OperateRecordShape(name: Value, index: Value, content: Value, dump: Value -> string)
    requires !content.Null?
    ensures var argv := OperateRecord(name, index, content, dump).value;
      && argv[0] == Str("operaterecord")
      && argv[|argv| - 2] == Str("--content")
      && argv[|argv| - 1] == (if content == Obj("Record") then Str(dump(content)) else content)
      && (!name.Null? ==> argv[1..3] == [Str("--name"), name])
      && (name.Null? && !index.Null? ==> argv[1..3] == [Str("--index"), Str(Show(index))])
      && (name.Null? && index.Null? <==> |argv| == 3)
  {
  }

  // -----------------------------------------------------------------------
  // Attribute access

  /** What a batch call without any target is refused with. */
  const NoTargetsMessage := "Either name, index, list of targets, instances filter, or console_func must be provided"

  /** Where a console attribute access leads. */
  datatype Route = Plain | BatchRun | Checked | Refused(error: Error)

  /** `__getattribute__` and its `batch_wrapper`: private names and
      commands that cannot run in batch are plain lookups; a batchable
      command called with a list or a filter runs in batch; one called
      with no arguments, no name and no index is refused; anything else
      goes to the method. */
  function Access(attr: string, batchable: set<string>, args: seq<Value>, kwargs: ODict.Dict<string, Value>): (r: Route)
  {
    if Text.StartsWith(attr, "_") || attr !in batchable then Plain
    else if BatchConsole.IsBatchCall(args, kwargs) then BatchRun
    else if |args| == 0 && ODict.Get(kwargs, "index").GetOr(Null).Null? && ODict.Get(kwargs, "name").GetOr(Null).Null?
         && "instances" !in ODict.Keys(kwargs) && "console_func" !in ODict.Keys(kwargs) then
      Refused(ValueError(NoTargetsMessage))
    else Checked
  }

  /** A batchable command is refused exactly when it is given nothing to
      act on: no argument, and no name, index, filter or custom function.
      The filter tests in the refusal are therefore never what decides
      it. */
  lemma AccessExactly(attr: string, batchable: set<string>, args: seq<Value>, kwargs: ODict.Dict<string, Value>)
    requires attr in batchable && !Text.StartsWith(attr, "_")
    ensures Access(attr, batchable, args, kwargs).Refused? <==>
      |args| == 0 && ODict.Get(kwargs, "index").GetOr(Null).Null? && ODict.Get(kwargs, "name").GetOr(Null).Null?
      && "instances" !in ODict.Keys(kwargs) && "console_func" !in ODict.Keys(kwargs)
    ensures Access(attr, batchable, args, kwargs).BatchRun? <==>
      (|args| > 0 && args[0].List?) || "instances" in ODict.Keys(kwargs) || "console_func" in ODict.Keys(kwargs)
    ensures |args| > 0 && !args[0].List? && "instances" !in ODict.Keys(kwargs) && "console_func" !in ODict.Keys(kwargs)
      ==> Access(attr, batchable, args, kwargs) == Checked
  {
  }

  // -----------------------------------------------------------------------
  // Signature-driven commands

  /** A parameter of the console interface's method: its name, and whether
      its annotation marks it as required. */
  datatype Param = Param(name: string, required: bool)

  predicate HasParam(params: seq<Param>, n: string) {
    exists p :: p in params && p.name == n
  }

  /** Positional arguments, each labelled with the parameter at its
      position; arguments past the last parameter are dropped. */
  function Positional(params: seq<Param>, args: seq<Value>): (argv: seq<Value>)
    ensures |argv| == 2 * (if |args| < |params| then |args| else |params|)
  {
    if |args| == 0 || |params| == 0 then []
    else [Str("--" + params[0].name), args[0]] + Positional(params[1..], args[1..])
  }

  lemma {:induction false} PositionalLabels(params: seq<Param>, args: seq<Value>)
    ensures var argv := Positional(params, args);
      forall i :: 0 <= i < |args| && i < |params| ==>
        argv[2 * i] == Str("--" + params[i].name) && argv[2 * i + 1] == args[i]
  {
    if |args| > 0 && |params| > 0 {
      var rest := Positional(params[1..], args[1..]);
      PositionalLabels(params[1..], args[1..]);
      var argv := [Str("--" + params[0].name), args[0]] + rest;
      forall i | 1 <= i < |args| && i < |params|
        ensures argv[2 * i] == Str("--" + params[i].name) && argv[2 * i + 1] == args[i]
      {
        assert argv[2 * i] == rest[2 * (i - 1)];
        assert argv[2 * i + 1] == rest[2 * (i - 1) + 1];
        assert params[1..][i - 1] == params[i] && args[1..][i - 1] == args[i];
      }
    }
  }

  /** The first parameter that is required but not among the keywords. */
  function MissingRequired(ps: seq<Param>, kw: ODict.Dict<string, Value>): (r: Option<string>)
    ensures r.Some? <==> exists p :: p in ps && p.required && p.name !in ODict.Keys(kw)
    ensures r.Some? ==> exists p :: p in ps && p.required && p.name == r.value && p.name !in ODict.Keys(kw)
  {
    if |ps| == 0 then None
    else if ps[0].name !in ODict.Keys(kw) && ps[0].required then Some(ps[0].name)
    else
      assert forall p :: p in ps[1..] ==> p in ps;
      assert forall p :: p in ps ==> p == ps[0] || p in ps[1..];
      MissingRequired(ps[1..], kw)
  }

  /** The keyword options of the remaining parameters, in parameter order. */
  function KeywordOpts(ps: seq<Param>, kw: ODict.Dict<string, Value>): (opts: seq<Opt>)
    ensures |opts| == |ps|
    ensures forall i :: 0 <= i < |ps| ==> opts[i] == ("--" + ps[i].name, ODict.Get(kw, ps[i].name).GetOr(Null))
  {
    seq(|ps|, i requires 0 <= i < |ps| => ("--" + ps[i].name, ODict.Get(kw, ps[i].name).GetOr(Null)))
  }

  /** How a lone positional argument is taken when the method has both a
      `name` and an `index` parameter: a string as the name and an integer
      as the index, unless that keyword was also given. */
  function SingleKeyword(params: seq<Param>, args: seq<Value>, kwargs: ODict.Dict<string, Value>): Option<string> {
    if |args| == 1 && HasParam(params, "name") && HasParam(params, "index") then
      if "name" !in ODict.Keys(kwargs) && args[0].Str? then Some("name")
      else if "index" !in ODict.Keys(kwargs) && IsInt(args[0]) then Some("index")
      else None
    else None
  }

  /** The command built from the interface signature `params` for the
      command `cmd`. */
  function Varied(cmd: string, params: seq<Param>, args: seq<Value>, kwargs: ODict.Dict<string, Value>)
    : (r: Result<seq<Value>>)
    ensures r.Ok? ==> |r.value| >= 1 && r.value[0] == Str(cmd)
    ensures r.Err? ==> r.error.ValueError?
  {
    var single := SingleKeyword(params, args, kwargs);
    var kw := if single.Some? then ODict.Put(kwargs, single.value, args[0]) else kwargs;
    var pos := if single.Some? then [] else Positional(params, args);
    var rest := if |args| <= |params| then params[|args|..] else [];
    match MissingRequired(rest, kw)
    case Some(n) => Err(ValueError("Mandatory parameter '" + n + "' is missing"))
    case None => Ok([Str(cmd)] + pos + Emit(KeywordOpts(rest, kw)))
  }

  /** A lone string argument becomes the name: it is passed under `--name`
      when `name` comes after the first parameter (as it does after
      `self`). */
  lemma VariedSingleName(cmd: string, params: seq<Param>, s: string, kwargs: ODict.Dict<string, Value>)
    requires HasParam(params, "index") && |params| >= 2
    requires exists i :: 1 <= i < |params| && params[i].name == "name"
    requires "name" !in ODict.Keys(kwargs)
    requires Varied(cmd, params, [Str(s)], kwargs).Ok?
    ensures FlagValue(Varied(cmd, params, [Str(s)], kwargs).value[1..], "--name") == Some(Str(s))
  {
    var args := [Str(s)];
    assert HasParam(params, "name") by {
      var i :| 1 <= i < |params| && params[i].name == "name";
      assert params[i] in params;
    }
    assert SingleKeyword(params, args, kwargs) == Some("name");
    var kw := ODict.Put(kwargs, "name", Str(s));
    ODict.PutGet(kwargs, "name", Str(s), "name");
    var rest := params[1..];
    var opts := KeywordOpts(rest, kw);
    assert Varied(cmd, params, args, kwargs).value[1..] == Emit(opts);
    var flag := "--name";
    assert "--" + "name" == flag;
    EmitReadBack(opts, flag);
    var i :| 1 <= i < |params| && params[i].name == "name";
    assert rest[i - 1] == params[i];
    assert opts[i - 1].0 == flag;
    forall j | 0 <= j < |opts| && opts[j].0 == flag
      ensures opts[j].1 == Str(s)
    {
      DashesInjective(rest[j].name, "name");
    }
    GivenUniform(opts, flag, Str(s));
  }

  /** Keyword values are passed under their parameter's flag and None
      values are left out; a required parameter that is not given refuses
      the call. */
  lemma VariedKeywords(cmd: string, params: seq<Param>, kwargs: ODict.Dict<string, Value>, n: string)
    ensures Varied(cmd, params, [], kwargs).Ok? <==>
      !exists p :: p in params && p.required && p.name !in ODict.Keys(kwargs)
    ensures Varied(cmd, params, [], kwargs).Ok? ==>
      FlagValue(Varied(cmd, params, [], kwargs).value[1..], "--" + n)
        == (if HasParam(params, n) && !ODict.Get(kwargs, n).GetOr(Null).Null?
            then Some(ODict.Get(kwargs, n).value) else None)
  {
    assert params[0..] == params;
    if Varied(cmd, params, [], kwargs).Ok? {
      assert Varied(cmd, params, [], kwargs).value[1..] == Emit(KeywordOpts(params, kwargs));
      KeywordReadBack(params, kwargs, n);
    }
  }

  /** The keyword options read back: a parameter's flag carries its keyword
      value when that is given and not None. */
  lemma KeywordReadBack(params: seq<Param>, kwargs: ODict.Dict<string, Value>, n: string)
    ensures FlagValue(Emit(KeywordOpts(params, kwargs)), "--" + n)
      == (if HasParam(params, n) && !ODict.Get(kwargs, n).GetOr(Null).Null?
          then Some(ODict.Get(kwargs, n).value) else None)
  {
    var opts := KeywordOpts(params, kwargs);
    var flag := "--" + n;
    EmitReadBack(opts, flag);
    var v := ODict.Get(kwargs, n).GetOr(Null);
    forall j | 0 <= j < |opts|
      ensures opts[j].0 == flag <==> params[j].name == n
    {
      DashesInjective(params[j].name, n);
    }
    if HasParam(params, n) {
      var p :| p in params && p.name == n;
      var i :| 0 <= i < |params| && params[i] == p;
      assert opts[i].0 == flag;
      if !v.Null? {
        GivenUniform(opts, flag, v);
      } else {
        NullNotGiven(opts, flag);
      }
    } else {
      forall i | 0 <= i < |opts| ensures opts[i].0 != flag {
        assert params[i] in params;
      }
      NoEntryNotGiven(opts, flag);
    }
  }

  lemma {:induction false} NullNotGiven(opts: seq<Opt>, n: string)
    requires forall i :: 0 <= i < |opts| && opts[i].0 == n ==> opts[i].1.Null?
    ensures Given(opts, n) == None
  {
    if |opts| > 0 {
      assert forall i :: 0 <= i < |opts[1..]| ==> opts[1..][i] == opts[i + 1];
      NullNotGiven(opts[1..], n);
    }
  }

  lemma {:induction false} NoEntryNotGiven(opts: seq<Opt>, n: string)
    requires forall i :: 0 <= i < |opts| ==> opts[i].0 != n
    ensures Given(opts, n) == None
  {
    if |opts| > 0 {
      assert forall i :: 0 <= i < |opts[1..]| ==> opts[1..][i] == opts[i + 1];
      NoEntryNotGiven(opts[1..], n);
    }
  }

  /** Positional arguments other than a lone name or index are labelled by
      position in the signature, starting from its first parameter. */
  lemma VariedPositional(cmd: string, params: seq<Param>, args: seq<Value>, kwargs: ODict.Dict<string, Value>)
    requires SingleKeyword(params, args, kwargs).None?
    requires Varied(cmd, params, args, kwargs).Ok?
    ensures forall i :: 0 <= i < |args| && i < |params| ==>
      Varied(cmd, params, args, kwargs).value[1 + 2 * i] == Str("--" + params[i].name)
      && Varied(cmd, params, args, kwargs).value[2 + 2 * i] == args[i]
    ensures |args| > 0 && |params| > 0 ==>
      Varied(cmd, params, args, kwargs).value[1] == Str("--" + params[0].name)
  {
    var pos := Positional(params, args);
    var tail := VariedShape(cmd, params, args, kwargs);
    PositionalLabels(params, args);
    LabelsAfterCommand(Str(cmd), pos, tail, params, args);
  }

  /** When the signature starts with `self`, the first argument goes out
      as `--self`. */
  lemma VariedSelf(cmd: string, params: seq<Param>, args: seq<Value>, kwargs: ODict.Dict<string, Value>)
    requires SingleKeyword(params, args, kwargs).None?
    requires Varied(cmd, params, args, kwargs).Ok?
    requires |args| > 0 && |params| > 0 && params[0].name == "self"
    ensures Varied(cmd, params, args, kwargs).value[1] == Str("--self")
  {
    VariedPositional(cmd, params, args, kwargs);
    assert "--" + "self" == "--self";
  }

  lemma LabelsAfterCommand(c: Value, pos: seq<Value>, tail: seq<Value>, params: seq<Param>, args: seq<Value>)
    requires |pos| == 2 * (if |args| < |params| then |args| else |params|)
    requires forall i :: 0 <= i < |args| && i < |params| ==>
      pos[2 * i] == Str("--" + params[i].name) && pos[2 * i + 1] == args[i]
    ensures forall i :: 0 <= i < |args| && i < |params| ==>
      ([c] + pos + tail)[1 + 2 * i] == Str("--" + params[i].name) && ([c] + pos + tail)[2 + 2 * i] == args[i]
    ensures |args| > 0 && |params| > 0 ==> ([c] + pos + tail)[1] == Str("--" + params[0].name)
  {
    forall i | 0 <= i < |args| && i < |params|
      ensures ([c] + pos + tail)[1 + 2 * i] == Str("--" + params[i].name)
      ensures ([c] + pos + tail)[2 + 2 * i] == args[i]
    {
      InMiddle(c, pos, tail, 2 * i);
      InMiddle(c, pos, tail, 2 * i + 1);
    }
    if |args| > 0 && |params| > 0 {
      InMiddle(c, pos, tail, 0);
    }
  }

  /** Without a lone name or index, the command line is the command, the
      positional options, then the keyword options. */
  lemma VariedShape(cmd: string, params: seq<Param>, args: seq<Value>, kwargs: ODict.Dict<string, Value>)
    returns (tail: seq<Value>)
    requires SingleKeyword(params, args, kwargs).None?
    requires Varied(cmd, params, args, kwargs).Ok?
    ensures Varied(cmd, params, args, kwargs).value == [Str(cmd)] + Positional(params, args) + tail
  {
    var rest := if |args| <= |params| then params[|args|..] else [];
    tail := Emit(KeywordOpts(rest, kwargs));
  }

  lemma InMiddle<T>(c: T, mid: seq<T>, tail: seq<T>, i: nat)
    requires i < |mid|
    ensures ([c] + mid + tail)[1 + i] == mid[i]
  {
  }
}

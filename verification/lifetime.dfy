/** The `lifetime` plugin: refuses to run with a non-positive lifetime, asks
    the runner to stop once the clock reaches the start time plus the
    lifetime, and at shutdown acts on the kill list other plugins fill. */
module Lifetime {
  import opened Wrappers
  import ODict
  import opened Py
  import Runner
  import Text

  /** `datetime.max` in whole seconds counted from `datetime.min`
      (0001-01-01 00:00:00): 9999-12-31 23:59:59. */
  const MaxClock := 315537897599

  /** Readings of the wall clock: the instants a `datetime` can hold, in
      whole seconds from `datetime.min`. */
  type Clock = t: int | 0 <= t <= MaxClock

  /** The most days a `timedelta` may hold, either way. */
  const MaxDays := 999999999

  const SecondsPerDay := 86400

  /** `LifetimeModel`: one required field. */
  const Fields: seq<Field> := [Field("lifetime", None)]

  /** The plugin's attributes: its model's `lifetime`, the kill list, and
      the target stop time once `onStartup` has set it. */
  datatype State = State(lifetime: Value, killList: seq<Value>, target: Option<Clock>)

  /** `onEnvLoad`: build the model and start with an empty kill list. */
  function OnEnvLoad(env: Value): (r: Result<State>)
    ensures r.Ok? <==> AcceptsKwargs(env, Fields)
    ensures r.Ok? ==> r.value.killList == [] && r.value.target.None?
  {
    var a :- Construct(env, Fields);
    Ok(State(Attr(a, "lifetime"), [], None))
  }

  /** The section's `lifetime` value is the model's. */
  lemma LoadsLifetime(v: Value)
    ensures OnEnvLoad(Dict([("lifetime", v)])) == Ok(State(v, [], None))
  {
    assert Fields[0].name == "lifetime";
    assert ODict.Keys([("lifetime", v)]) == {"lifetime"};
  }

  /** A section without `lifetime` is refused: the field is required. */
  lemma LifetimeRequired(env: ODict.Dict<string, Value>)
    requires "lifetime" !in ODict.Keys(env)
    ensures OnEnvLoad(Dict(env)).Err? && OnEnvLoad(Dict(env)).error.TypeError?
  {
    assert Fields[0].default.None?;
  }

  /** `canRun`: no for a lifetime of at most zero, otherwise the base
      answer (yes); comparing a non-number raises. */
  function CanRun(st: State): (r: Runner.Answer)
    ensures r.No? <==> IsInt(st.lifetime) && IntOf(st.lifetime) <= 0
    ensures r.Yes? <==> IsInt(st.lifetime) && IntOf(st.lifetime) > 0
  {
    if !IsInt(st.lifetime) then Runner.Raise(TypeError("'<=' not supported"))
    else if IntOf(st.lifetime) <= 0 then Runner.No
    else Runner.Yes
  }

  /** `onStartup`: the target is the start time plus the lifetime.
      `timedelta(seconds=n)` refuses more than `MaxDays` days, counting
      whole days downwards as `divmod` does, and the sum refuses to leave
      the range of `datetime`; both raise OverflowError. */
  function OnStartup(st: State, now: Clock): (r: Result<State>)
    ensures r.Ok? <==> IsInt(st.lifetime) && 0 <= now + IntOf(st.lifetime) <= MaxClock
    ensures r.Ok? ==> r.value.target == Some(now + IntOf(st.lifetime))
    ensures r.Ok? ==> r.value.lifetime == st.lifetime && r.value.killList == st.killList
    ensures r.Err? ==> (if IsInt(st.lifetime) then r.error.OverflowError? else r.error.TypeError?)
  {
    if !IsInt(st.lifetime) then Err(TypeError("unsupported type for timedelta seconds component"))
    else
      var n := IntOf(st.lifetime);
      var days := n / SecondsPerDay;
      if days > MaxDays || days < -MaxDays then
        Err(OverflowError("days=" + Text.IntToString(days) + "; must have magnitude <= " + Text.IntToString(MaxDays)))
      else if now + n < 0 || now + n > MaxClock then Err(OverflowError("date value out of range"))
      else Ok(st.(target := Some(now + n)))
  }

  /** `shouldStop`: yes once the clock has reached the target, otherwise the
      base answer (no); before `onStartup` there is no target to read. */
  function ShouldStop(st: State, now: Clock): Runner.Answer {
    match st.target
    case None => Runner.Raise(AttributeError("targetStopTime"))
    case Some(t) => if now >= t then Runner.Yes else Runner.No
  }

  /** After a start at `start`, the plugin asks to stop exactly when at
      least `lifetime` seconds have passed; so it never asks at the moment
      it started, and once it has asked it keeps asking. The start itself
      fails only when the stop time would fall after `datetime.max`. */
  lemma StopRule(st: State, start: Clock, now: Clock, later: Clock)
    requires CanRun(st).Yes?
    ensures OnStartup(st, start).Ok? <==> start + IntOf(st.lifetime) <= MaxClock
    ensures OnStartup(st, start).Ok? ==>
      var s := OnStartup(st, start).value;
      && (ShouldStop(s, now).Yes? <==> now - start >= IntOf(st.lifetime))
      && (ShouldStop(s, now).No? <==> now - start < IntOf(st.lifetime))
      && ShouldStop(s, start).No?
      && (ShouldStop(s, now).Yes? && now <= later ==> ShouldStop(s, later).Yes?)
  {
  }

  /** A lifetime longer than the whole range of `datetime` makes every
      start raise OverflowError, whatever the clock reads. */
  lemma StartOverflows(st: State, now: Clock)
    requires IsInt(st.lifetime) && IntOf(st.lifetime) > MaxClock
    ensures OnStartup(st, now).Err? && OnStartup(st, now).error.OverflowError?
  {
  }

  // -----------------------------------------------------------------------
  // The kill list

  /** What `onShutdown` does for one entry: terminate the processes of that
      name, or run `taskkill /IM <name> /F`. */
  datatype Action = Terminate(procName: Value) | TaskKill(image: Value)

  /** The command line a `TaskKill` runs. */
  function TaskKillCommand(image: string): string {
    "taskkill /IM " + image + " /F"
  }

  /** The `match` in `onShutdown`: a two-element sequence (list or tuple)
      tagged "process", "cmd" or "taskkill"; anything else is ignored. */
  function ActionOf(item: Value): (r: Option<Action>)
    ensures r.Some? ==> item.List? && |item.items| == 2
    ensures r.Some? ==> item.items[0] in {Str("process"), Str("cmd"), Str("taskkill")}
  {
    if item.List? && |item.items| == 2 then
      var tag := item.items[0];
      var name := item.items[1];
      if tag == Str("process") then Some(Terminate(name))
      else if tag == Str("cmd") || tag == Str("taskkill") then Some(TaskKill(name))
      else None
    else None
  }

  /** The actions for a kill list, in list order. */
  function Actions(items: seq<Value>): (r: seq<Action>)
    ensures |r| <= |items|
  {
    if |items| == 0 then []
    else
      match ActionOf(items[0])
      case Some(a) => [a] + Actions(items[1..])
      case None => Actions(items[1..])
  }

  /** What terminating the processes of a name gives: nothing when every
      match was terminated and waited for, or the error psutil raised
      (NoSuchProcess for a process that ended while being named,
      TimeoutExpired for one still alive after five seconds). A taskkill
      goes through `os.system`, which reports failure in its exit status
      and never raises. */
  type Terminator = Value -> Option<Error>

  /** The error an action raises, if any. */
  function Raised(a: Action, terminate: Terminator): Option<Error> {
    if a.Terminate? then terminate(a.procName) else None
  }

  /** The loop over the actions: each runs in turn, and the first that
      raises ends the loop. The result is the actions run, that one
      included, and its error. */
  function Perform(actions: seq<Action>, terminate: Terminator): (r: (seq<Action>, Option<Error>))
    ensures |r.0| <= |actions| && r.0 == actions[..|r.0|]
    ensures r.1.None? ==> r.0 == actions
  {
    if |actions| == 0 then ([], None)
    else if Raised(actions[0], terminate).Some? then ([actions[0]], Raised(actions[0], terminate))
    else
      var rest := Perform(actions[1..], terminate);
      ([actions[0]] + rest.0, rest.1)
  }

  /** What `onShutdown` did: the actions it ran, the plugin's state after
      it, and the error it raised, if any. */
  datatype Shutdown = Shutdown(performed: seq<Action>, after: State, raised: Option<Error>)

  /** `onShutdown`: act on every entry in order, then clear the list. An
      action that raises ends the call there: the entries after it get no
      action and the list is not cleared. */
  function OnShutdown(st: State, terminate: Terminator): (r: Shutdown)
    ensures r.raised.None? ==> r.after == st.(killList := []) && r.performed == Actions(st.killList)
    ensures r.raised.Some? ==> r.after == st
    ensures r.after.lifetime == st.lifetime && r.after.target == st.target
  {
    var (done, err) := Perform(Actions(st.killList), terminate);
    if err.Some? then Shutdown(done, st, err) else Shutdown(done, st.(killList := []), None)
  }

  /** The loop runs every action exactly when none raises. Otherwise it
      stops at the first action that raises, after running every action
      before it, and raises that action's error. */
  lemma {:induction false} PerformSpec(actions: seq<Action>, terminate: Terminator)
    ensures Perform(actions, terminate).1.None? <==> forall i :: 0 <= i < |actions| ==> Raised(actions[i], terminate).None?
    ensures Perform(actions, terminate).1.Some? ==>
      var n := |Perform(actions, terminate).0|;
      && 0 < n
      && Perform(actions, terminate).1 == Raised(actions[n - 1], terminate)
      && forall i :: 0 <= i < n - 1 ==> Raised(actions[i], terminate).None?
  {
    if |actions| > 0 && Raised(actions[0], terminate).None? {
      PerformSpec(actions[1..], terminate);
      forall i | 0 < i < |actions| ensures actions[i] == actions[1..][i - 1] { }
    }
  }

  /** Shutdown clears the kill list exactly when no termination raises; a
      raise leaves the list as it was, and the actions after the raising
      one are never run. */
  lemma ShutdownClears(st: State, terminate: Terminator)
    ensures var actions := Actions(st.killList);
      OnShutdown(st, terminate).after.killList == [] <==>
        st.killList == [] || forall i :: 0 <= i < |actions| ==> Raised(actions[i], terminate).None?
    ensures var r := OnShutdown(st, terminate);
      r.raised.Some? ==> 0 < |r.performed| && Raised(r.performed[|r.performed| - 1], terminate) == r.raised
  {
    PerformSpec(Actions(st.killList), terminate);
  }

  /** Acting on two lists one after the other is acting on their
      concatenation. */
  lemma {:induction false} ActionsAppend(a: seq<Value>, b: seq<Value>)
    ensures Actions(a + b) == Actions(a) + Actions(b)
  {
    if |a| > 0 {
      assert (a + b)[0] == a[0];
      assert (a + b)[1..] == a[1..] + b;
      ActionsAppend(a[1..], b);
      if ActionOf(a[0]).Some? {
        var x := [ActionOf(a[0]).value];
        assert Actions(a + b) == x + Actions(a[1..] + b);
        assert Actions(a) == x + Actions(a[1..]);
        assert x + (Actions(a[1..]) + Actions(b)) == (x + Actions(a[1..])) + Actions(b);
      } else {
        assert Actions(a + b) == Actions(a[1..] + b);
        assert Actions(a) == Actions(a[1..]);
      }
    } else {
      assert a + b == b;
    }
  }

  /** Every action comes from a tagged entry, and every tagged entry gets
      its action. */
  lemma {:induction false} ActionsExactly(items: seq<Value>)
    ensures forall a :: a in Actions(items) ==> exists i :: 0 <= i < |items| && ActionOf(items[i]) == Some(a)
    ensures forall i :: 0 <= i < |items| && ActionOf(items[i]).Some? ==> ActionOf(items[i]).value in Actions(items)
  {
    if |items| > 0 {
      ActionsExactly(items[1..]);
      forall a | a in Actions(items) ensures exists i :: 0 <= i < |items| && ActionOf(items[i]) == Some(a) {
        if a !in Actions(items[1..]) {
          assert ActionOf(items[0]) == Some(a);
        } else {
          var i :| 0 <= i < |items[1..]| && ActionOf(items[1..][i]) == Some(a);
          assert items[i + 1] == items[1..][i];
        }
      }
      forall i | 0 <= i < |items| && ActionOf(items[i]).Some? ensures ActionOf(items[i]).value in Actions(items) {
        if i > 0 {
          assert items[1..][i - 1] == items[i];
        }
      }
    }
  }

  /** Untagged entries produce no action at all. */
  lemma {:induction false} UntaggedIgnored(items: seq<Value>)
    requires forall i :: 0 <= i < |items| ==> ActionOf(items[i]).None?
    ensures Actions(items) == []
  {
    if |items| > 0 {
      UntaggedIgnored(items[1..]);
    }
  }
}

/** Concrete runs with the repository's test plugins: a counter that asks to
    stop on its `max_count`-th poll, and a tracker that records its own hook
    calls and asks to stop on its second poll. */
module Scenarios {
  import opened Wrappers
  import ODict
  import opened Py
  import Plugins
  import opened Runner
  import opened Lifecycle

  const Counter: Plugins.PluginClass := Plugins.PluginClass("CounterPlugin", Some("counter"))
  const Tracker: Plugins.PluginClass := Plugins.PluginClass("LifecycleTrackerPlugin", Some("lifecycle_tracker"))

  function TestRegistry(): Plugins.Registry {
    Plugins.DefineAll(map[], [Counter, Tracker])
  }

  lemma TestSections()
    ensures Plugins.Lookup(TestRegistry(), "counter") == Some(Counter)
    ensures Plugins.Lookup(TestRegistry(), "lifecycle_tracker") == Some(Tracker)
  {
    Plugins.LastDefinitionWins(map[], [Counter, Tracker], 0);
    Plugins.LastDefinitionWins(map[], [Counter, Tracker], 1);
  }

  /** The counter's `shouldStop` answers: its n-th call (counting from 1)
      says stop when n >= max_count. */
  function CounterPolls(maxCount: int): (polls: seq<Answer>)
    ensures |polls| >= 1 && polls[|polls| - 1] == Yes
    ensures forall i :: 0 <= i < |polls| - 1 ==> polls[i] == No
    ensures maxCount >= 1 ==> |polls| == maxCount
  {
    var n := if maxCount < 1 then 1 else maxCount;
    seq(n, i requires 0 <= i < n => if i + 1 >= maxCount then Yes else No)
  }

  /** `onEnvLoad` of the two test plugins (any other class is taken to
      override nothing). */
  function TestMake(cls: Plugins.PluginClass, env: Value): Result<Plugin> {
    if cls == Counter then
      var attrs :- Construct(env, [Field("max_count", Some(Int(5)))]);
      var m := Attr(attrs, "max_count");
      if IsInt(m) then Ok(Plugin(Yes, Done, CounterPolls(IntOf(m)), Done))
      else Ok(Plugin(Yes, Done, [Raise(TypeError("'>=' not supported"))], Done))
    else if cls == Tracker then
      var _ :- Construct(env, []);
      Ok(Plugin(Yes, Done, [No, Yes], Done))
    else Ok(DefaultPlugin)
  }

  /** A counter with `max_count = 3` is polled exactly three times, then the
      run stops normally. */
  lemma CounterStopsOnThirdPoll()
    ensures var r := RunInstance(TestRegistry(), [("counter", Dict([("max_count", Int(3))]))], TestMake, None);
      && Calls(r.trace, HShouldStop) == ["counter", "counter", "counter"]
      && r.outcome == Stopped
  {
    var config: ODict.Dict<string, Value> := [("counter", Dict([("max_count", Int(3))]))];
    TestSections();
    var p := Plugin(Yes, Done, CounterPolls(3), Done);
    var fields := [Field("max_count", Some(Int(5)))];
    assert fields[0].name in Names(fields);
    assert ODict.Keys([("max_count", Int(3))]) == {"max_count"};
    assert Construct(Dict([("max_count", Int(3))]), fields).Ok?;
    assert TestMake(Counter, Dict([("max_count", Int(3))])) == Ok(p);
    assert Load(TestRegistry(), config, TestMake) == Loaded([("counter", p)], [EnvLoad("counter")]);
    var ps := [("counter", p)];
    StopAtFirstRequest(TestRegistry(), config, TestMake, None, 2, 0);
    var ks := ODict.KeySeq(ps);
    assert ks == ["counter"];
    assert Rounds(ks, 1) == ks + Rounds(ks, 0) == ["counter"];
    assert Rounds(ks, 2) == ks + Rounds(ks, 1) == ["counter", "counter"];
    assert ps[..1] == ps;
  }

  /** The tracker sees exactly onEnvLoad, canRun, onStartup, two shouldStop
      calls and onShutdown, in that order. */
  lemma TrackerLifecycleOrder()
    ensures var k := "lifecycle_tracker";
      var r := RunInstance(TestRegistry(), [(k, Dict([]))], TestMake, None);
      && r.trace == [EnvLoad(k), CanRun(k), Startup(k), ShouldStop(k, 0), ShouldStop(k, 1), Shutdown(k)]
      && r.outcome == Stopped
  {
    var k := "lifecycle_tracker";
    TestSections();
    assert TestMake(Tracker, Dict([])) == Ok(Plugin(Yes, Done, [No, Yes], Done));
    TrackerRun(TestRegistry(), TestMake, k, Dict([]));
  }

  /** A lone plugin that answers no, then yes, to `shouldStop`. */
  lemma TrackerRun(reg: Plugins.Registry, make: Maker, k: string, section: Value)
    requires Plugins.Lookup(reg, k).Some?
    requires make(Plugins.Lookup(reg, k).value, section) == Ok(Plugin(Yes, Done, [No, Yes], Done))
    ensures var r := RunInstance(reg, [(k, section)], make, None);
      && r.trace == [EnvLoad(k), CanRun(k), Startup(k), ShouldStop(k, 0), ShouldStop(k, 1), Shutdown(k)]
      && r.outcome == Stopped
  {
    var ps := [(k, Plugin(Yes, Done, [No, Yes], Done))];
    assert Load(reg, [(k, section)], make) == Loaded(ps, [EnvLoad(k)]);
    assert CheckAll(ps) == Check([CanRun(k)], Yes);
    assert StartAll(ps) == Phase([Startup(k)], None);
    assert MaxPolls(ps) == 2;
    assert PollTick(ps, 0) == Check([ShouldStop(k, 0)], No);
    assert PollTick(ps, 1) == Check([ShouldStop(k, 1)], Yes);
    assert Loop(ps, 1, None) == LoopResult(StopAsked, 1);
    assert Loop(ps, 0, None) == LoopResult(StopAsked, 2);
    assert PollTrace(ps, 0, 2) == [ShouldStop(k, 0), ShouldStop(k, 1)];
    assert ShutdownAll(ps) == Phase([Shutdown(k)], None);
  }
}

/** The plugin lifecycle engine: `LDXInstance.load_plugins` and
    `LDXInstance.run`. A loaded plugin is described by what its hooks do, and
    a run produces the trace of hook calls the runner makes, so that ordering
    and cleanup promises become statements about that trace. */
module Runner {
  import opened Wrappers
  import ODict
  import Py
  import Plugins

  /** The outcome of a hook returning a boolean. */
  datatype Answer = Yes | No | Raise(e: Error)

  /** The outcome of a hook returning nothing. */
  datatype Step = Done | Fail(e: Error)

  /** A loaded plugin: `canRun`'s answer, whether `onStartup` raises,
      `shouldStop`'s answer at each poll tick, whether `onShutdown` raises.
      Past the end of `polls`, `shouldStop` answers No, as the base hook
      does. */
  datatype Plugin = Plugin(canRun: Answer, startup: Step, polls: seq<Answer>, shutdown: Step)

  function PollAt(p: Plugin, tick: nat): Answer {
    if tick < |p.polls| then p.polls[tick] else No
  }

  /** A plugin that overrides nothing: the base class's hooks. */
  const DefaultPlugin: Plugin := Plugin(Yes, Done, [], Done)

  /** The hook calls the runner makes, labelled by section name. */
  datatype Event =
    | EnvLoad(key: string)
    | CanRun(key: string)
    | Startup(key: string)
    | ShouldStop(key: string, tick: nat)
    | Shutdown(key: string)

  /** Instantiating a class and calling `onEnvLoad(section)` on it, which
      may raise (a section the plugin's model rejects). */
  type Maker = (Plugins.PluginClass, Py.Value) -> Result<Plugin>

  type Loaded = seq<(string, Plugin)>

  // -----------------------------------------------------------------------
  // Loading

  /** The section names of `config` that name a registered class, in order. */
  function Selected(reg: Plugins.Registry, config: ODict.Dict<string, Py.Value>): (ks: seq<string>)
    ensures forall k :: k in ks <==> k in ODict.Keys(config) && Plugins.Lookup(reg, k).Some?
  {
    if |config| == 0 then []
    else
      var rest := Selected(reg, config[1..]);
      if Plugins.Lookup(reg, config[0].0).Some? then [config[0].0] + rest else rest
  }

  datatype LoadResult =
    | Loaded(plugins: Loaded, trace: seq<Event>)
    | LoadFailed(trace: seq<Event>, e: Error)

  /** `load_plugins`: walk the sections in order; for a registered one,
      instantiate, call `onEnvLoad` with the section and store the plugin;
      skip the others silently. An `onEnvLoad` that raises stops the walk. */
  function Load(reg: Plugins.Registry, config: ODict.Dict<string, Py.Value>, make: Maker): (r: LoadResult)
    ensures r.Loaded? ==> |r.trace| == |r.plugins|
    ensures forall i :: 0 <= i < |r.trace| ==> r.trace[i].EnvLoad?
  {
    if |config| == 0 then Loaded([], [])
    else
      var (key, section) := config[0];
      match Plugins.Lookup(reg, key)
      case None => Load(reg, config[1..], make)
      case Some(cls) =>
        match make(cls, section)
        case Err(e) => LoadFailed([EnvLoad(key)], e)
        case Ok(p) =>
          var rest := Load(reg, config[1..], make);
          if rest.Loaded? then Loaded([(key, p)] + rest.plugins, [EnvLoad(key)] + rest.trace)
          else LoadFailed([EnvLoad(key)] + rest.trace, rest.e)
  }

  /** `entry` is what the class registered for its section makes of that
      section. */
  predicate BuiltFrom(reg: Plugins.Registry, config: ODict.Dict<string, Py.Value>, make: Maker,
                      entry: (string, Plugin)) {
    && Plugins.Lookup(reg, entry.0).Some?
    && ODict.Get(config, entry.0).Some?
    && make(Plugins.Lookup(reg, entry.0).value, ODict.Get(config, entry.0).value) == Ok(entry.1)
  }

  /** Loading keeps exactly the registered sections, in configuration order,
      builds each plugin from its own section, and calls `onEnvLoad` once per
      plugin in that order. */
  lemma LoadSpec(reg: Plugins.Registry, config: ODict.Dict<string, Py.Value>, make: Maker)
    requires ODict.UniqueKeys(config)
    requires Load(reg, config, make).Loaded?
    ensures var r := Load(reg, config, make);
      && ODict.KeySeq(r.plugins) == Selected(reg, config)
      && (forall i :: 0 <= i < |r.plugins| ==> BuiltFrom(reg, config, make, r.plugins[i]))
      && (forall i :: 0 <= i < |r.trace| ==> r.trace[i] == EnvLoad(r.plugins[i].0))
  {
    LoadKeys(reg, config, make);
    LoadBuilt(reg, config, make);
    LoadTrace(reg, config, make);
  }

  lemma {:induction false} LoadKeys(reg: Plugins.Registry, config: ODict.Dict<string, Py.Value>, make: Maker)
    requires Load(reg, config, make).Loaded?
    ensures ODict.KeySeq(Load(reg, config, make).plugins) == Selected(reg, config)
    decreases |config|
  {
    if |config| > 0 {
      var rest := Load(reg, config[1..], make);
      if Plugins.Lookup(reg, config[0].0).Some? {
        var r := Load(reg, config, make);
        LoadKeys(reg, config[1..], make);
        assert r.plugins == [r.plugins[0]] + rest.plugins;
        assert ODict.KeySeq(r.plugins) == [config[0].0] + ODict.KeySeq(rest.plugins);
      } else {
        LoadKeys(reg, config[1..], make);
      }
    }
  }

  lemma {:induction false} LoadTrace(reg: Plugins.Registry, config: ODict.Dict<string, Py.Value>, make: Maker)
    requires Load(reg, config, make).Loaded?
    ensures var r := Load(reg, config, make);
      forall i :: 0 <= i < |r.trace| ==> r.trace[i] == EnvLoad(r.plugins[i].0)
    decreases |config|
  {
    if |config| > 0 {
      LoadTrace(reg, config[1..], make);
    }
  }

  /** Every loaded plugin belongs to a section of the configuration. */
  lemma LoadedKeyIn(reg: Plugins.Registry, config: ODict.Dict<string, Py.Value>, make: Maker, i: nat)
    requires Load(reg, config, make).Loaded? && i < |Load(reg, config, make).plugins|
    ensures Load(reg, config, make).plugins[i].0 in ODict.Keys(config)
  {
    LoadKeys(reg, config, make);
    assert Load(reg, config, make).plugins[i].0 == Selected(reg, config)[i];
  }

  /** A plugin built from a later section is built from the same section
      of the whole configuration. */
  lemma TailBuilt(reg: Plugins.Registry, config: ODict.Dict<string, Py.Value>, make: Maker, e: (string, Plugin))
    requires |config| > 0 && e.0 != config[0].0
    requires BuiltFrom(reg, config[1..], make, e)
    ensures BuiltFrom(reg, config, make, e)
  {
  }

  lemma {:induction false} LoadBuilt(reg: Plugins.Registry, config: ODict.Dict<string, Py.Value>, make: Maker)
    requires ODict.UniqueKeys(config)
    requires Load(reg, config, make).Loaded?
    ensures var r := Load(reg, config, make);
      forall i :: 0 <= i < |r.plugins| ==> BuiltFrom(reg, config, make, r.plugins[i])
    decreases |config|
  {
    if |config| > 0 {
      var r := Load(reg, config, make);
      var rest := Load(reg, config[1..], make);
      assert ODict.UniqueKeys(config[1..]);
      ODict.HeadKeyFresh(config);
      LoadBuilt(reg, config[1..], make);
      var off := if Plugins.Lookup(reg, config[0].0).Some? then 1 else 0;
      assert r.plugins[off..] == rest.plugins;
      forall i | off <= i < |r.plugins| ensures BuiltFrom(reg, config, make, r.plugins[i]) {
        assert r.plugins[i] == rest.plugins[i - off];
        LoadedKeyIn(reg, config[1..], make, i - off);
        TailBuilt(reg, config, make, r.plugins[i]);
      }
    }
  }

  // -----------------------------------------------------------------------
  // The phases of `run`

  datatype Check = Check(events: seq<Event>, verdict: Answer)

  /** `all(p.canRun(...) for p in plugins)`: stops at the first answer that
      is not Yes; a raising `canRun` propagates. */
  function CheckAll(ps: Loaded): (r: Check)
    ensures |r.events| <= |ps|
  {
    if |ps| == 0 then Check([], Yes)
    else if ps[0].1.canRun.Yes? then
      var rest := CheckAll(ps[1..]);
      Check([CanRun(ps[0].0)] + rest.events, rest.verdict)
    else Check([CanRun(ps[0].0)], ps[0].1.canRun)
  }

  /** `all` asks the plugins in order, stops at the first answer that is
      not yes and returns it; it says yes only when every plugin does. */
  lemma {:induction false} CheckAllSpec(ps: Loaded)
    ensures var r := CheckAll(ps);
      && (forall i :: 0 <= i < |r.events| ==> r.events[i] == CanRun(ps[i].0))
      && (r.verdict.Yes? <==> |r.events| == |ps| && forall i :: 0 <= i < |ps| ==> ps[i].1.canRun.Yes?)
      && (!r.verdict.Yes? ==>
           (|r.events| >= 1 && ps[|r.events| - 1].1.canRun == r.verdict
            && forall i :: 0 <= i < |r.events| - 1 ==> ps[i].1.canRun.Yes?))
  {
    if |ps| > 0 { CheckAllSpec(ps[1..]); }
  }

  datatype Phase = Phase(events: seq<Event>, error: Option<Error>)

  /** The startup loop: `onStartup` on each plugin in order until one raises. */
  function StartAll(ps: Loaded): (r: Phase)
    ensures |r.events| <= |ps|
  {
    if |ps| == 0 then Phase([], None)
    else match ps[0].1.startup
      case Done =>
        var rest := StartAll(ps[1..]);
        Phase([Startup(ps[0].0)] + rest.events, rest.error)
      case Fail(e) => Phase([Startup(ps[0].0)], Some(e))
  }

  /** Startup runs on the plugins in order up to and including the first
      that raises, whose exception it reports. */
  lemma {:induction false} StartAllSpec(ps: Loaded)
    ensures var r := StartAll(ps);
      && (forall i :: 0 <= i < |r.events| ==> r.events[i] == Startup(ps[i].0))
      && (r.error.None? <==> |r.events| == |ps| && forall i :: 0 <= i < |ps| ==> ps[i].1.startup.Done?)
      && (r.error.Some? ==>
           (|r.events| >= 1 && ps[|r.events| - 1].1.startup == Fail(r.error.value)
            && forall i :: 0 <= i < |r.events| - 1 ==> ps[i].1.startup.Done?))
  {
    if |ps| > 0 { StartAllSpec(ps[1..]); }
  }

  /** The shutdown loop in the `finally` block: `onShutdown` on each loaded
      plugin in order; one that raises ends the loop and its exception
      replaces whatever was propagating. */
  function ShutdownAll(ps: Loaded): (r: Phase)
    ensures |r.events| <= |ps|
  {
    if |ps| == 0 then Phase([], None)
    else match ps[0].1.shutdown
      case Done =>
        var rest := ShutdownAll(ps[1..]);
        Phase([Shutdown(ps[0].0)] + rest.events, rest.error)
      case Fail(e) => Phase([Shutdown(ps[0].0)], Some(e))
  }

  /** Shutdown runs on the plugins in order up to and including the first
      that raises, whose exception it reports; with none raising, on all. */
  lemma {:induction false} ShutdownAllSpec(ps: Loaded)
    ensures var r := ShutdownAll(ps);
      && (forall i :: 0 <= i < |r.events| ==> r.events[i] == Shutdown(ps[i].0))
      && (r.error.None? <==> |r.events| == |ps| && forall i :: 0 <= i < |ps| ==> ps[i].1.shutdown.Done?)
      && (r.error.Some? ==>
           (|r.events| >= 1 && ps[|r.events| - 1].1.shutdown == Fail(r.error.value)
            && forall i :: 0 <= i < |r.events| - 1 ==> ps[i].1.shutdown.Done?))
  {
    if |ps| > 0 { ShutdownAllSpec(ps[1..]); }
  }

  /** One evaluation of `any(p.shouldStop(...) for p in plugins)` at `tick`:
      stops at the first answer that is not No. */
  function PollTick(ps: Loaded, tick: nat): (r: Check)
    ensures |r.events| <= |ps|
  {
    if |ps| == 0 then Check([], No)
    else if PollAt(ps[0].1, tick).No? then
      var rest := PollTick(ps[1..], tick);
      Check([ShouldStop(ps[0].0, tick)] + rest.events, rest.verdict)
    else Check([ShouldStop(ps[0].0, tick)], PollAt(ps[0].1, tick))
  }

  /** A poll asks the plugins in order and stops at the first that does not
      say go on, whose answer it returns; it says go on only when all do. */
  lemma {:induction false} PollTickSpec(ps: Loaded, tick: nat)
    ensures var r := PollTick(ps, tick);
      && (forall i :: 0 <= i < |r.events| ==> r.events[i] == ShouldStop(ps[i].0, tick))
      && (r.verdict.No? <==> |r.events| == |ps| && forall i :: 0 <= i < |ps| ==> PollAt(ps[i].1, tick).No?)
      && (!r.verdict.No? ==>
           (|r.events| >= 1 && PollAt(ps[|r.events| - 1].1, tick) == r.verdict
            && forall i :: 0 <= i < |r.events| - 1 ==> PollAt(ps[i].1, tick).No?))
  {
    if |ps| > 0 && PollAt(ps[0].1, tick).No? {
      PollTickSpec(ps[1..], tick);
    }
  }

  function MaxPolls(ps: Loaded): (n: nat)
    ensures forall i :: 0 <= i < |ps| ==> |ps[i].1.polls| <= n
  {
    if |ps| == 0 then 0
    else var m := MaxPolls(ps[1..]);
      if |ps[0].1.polls| > m then |ps[0].1.polls| else m
  }

  /** How the main loop ends. `Endless`: every plugin answers No forever and
      no interrupt comes, so the loop never exits (the trace then holds the
      ticks up to the point after which nothing changes). */
  datatype LoopEnd = StopAsked | LoopRaised(e: Error) | Interrupted | Endless

  /** How the loop ended and how many ticks were polled. */
  datatype LoopResult = LoopResult(end: LoopEnd, ticks: nat)

  /** Past every plugin's scripted answers, every tick's poll says go on. */
  lemma QuietAfter(ps: Loaded)
    ensures forall t: nat :: t >= MaxPolls(ps) ==> PollTick(ps, t).verdict.No?
  {
    forall t: nat | t >= MaxPolls(ps) ensures PollTick(ps, t).verdict.No? {
      PollTickSpec(ps, t);
      assert forall i :: 0 <= i < |ps| ==> PollAt(ps[i].1, t).No?;
    }
  }

  /** The calls made by `n` complete polls starting at tick `from`. */
  function PollTrace(ps: Loaded, from: nat, n: nat): seq<Event>
    decreases n
  {
    if n == 0 then [] else PollTick(ps, from).events + PollTrace(ps, from + 1, n - 1)
  }

  function LoopBound(ps: Loaded, interrupt: Option<nat>): nat {
    var n := MaxPolls(ps);
    match interrupt
    case Some(t) => if t + 1 > n then t + 1 else n
    case None => n
  }

  /** `while True: if any(shouldStop): break; time.sleep(1)` from `tick` on.
      `interrupt` is the tick after whose poll a KeyboardInterrupt arrives
      (during the sleep). `ticks` counts the polls evaluated. */
  function Loop(ps: Loaded, tick: nat, interrupt: Option<nat>): (r: LoopResult)
    ensures r.ticks >= 1
    decreases LoopBound(ps, interrupt) - tick
  {
    var verdict := PollTick(ps, tick).verdict;
    if verdict.Yes? then LoopResult(StopAsked, 1)
    else if verdict.Raise? then LoopResult(LoopRaised(verdict.e), 1)
    else if interrupt == Some(tick) then LoopResult(Interrupted, 1)
    else if tick + 1 >= LoopBound(ps, interrupt) then LoopResult(Endless, 1)
    else
      var rest := Loop(ps, tick + 1, interrupt);
      LoopResult(rest.end, rest.ticks + 1)
  }

  /** The loop polls tick after tick while every plugin says go on. */
  lemma {:induction false} LoopGoesOn(ps: Loaded, tick: nat, interrupt: Option<nat>)
    ensures forall t :: tick <= t < tick + Loop(ps, tick, interrupt).ticks - 1 ==>
      PollTick(ps, t).verdict.No?
    decreases LoopBound(ps, interrupt) - tick
  {
    var poll := PollTick(ps, tick);
    if poll.verdict.No? && interrupt != Some(tick) && tick + 1 < LoopBound(ps, interrupt) {
      LoopGoesOn(ps, tick + 1, interrupt);
    }
  }

  /** What the last poll of a loop that ended that way said. */
  function LastVerdict(end: LoopEnd): Answer {
    match end
    case StopAsked => Yes
    case LoopRaised(e) => Raise(e)
    case _ => No
  }

  /** The loop ends at the first tick where a plugin says stop or raises, or
      in the sleep after the interrupted tick. */
  lemma {:induction false} LoopEnds(ps: Loaded, tick: nat, interrupt: Option<nat>)
    ensures var r := Loop(ps, tick, interrupt);
      PollTick(ps, tick + r.ticks - 1).verdict == LastVerdict(r.end)
    ensures var r := Loop(ps, tick, interrupt);
      r.end.Interrupted? ==> interrupt == Some(tick + r.ticks - 1)
    decreases LoopBound(ps, interrupt) - tick
  {
    var poll := PollTick(ps, tick);
    var r := Loop(ps, tick, interrupt);
    if poll.verdict.No? && interrupt != Some(tick) && tick + 1 < LoopBound(ps, interrupt) {
      LoopEnds(ps, tick + 1, interrupt);
      var rest := Loop(ps, tick + 1, interrupt);
      assert r.end == rest.end && tick + r.ticks - 1 == tick + 1 + rest.ticks - 1;
    } else {
      assert r.ticks == 1;
      assert PollTick(ps, tick + r.ticks - 1) == poll;
    }
  }

  /** The loop runs for ever exactly when every poll from `tick` on says go
      on and no interrupt is due. */
  lemma {:induction false} LoopEndless(ps: Loaded, tick: nat, interrupt: Option<nat>)
    ensures Loop(ps, tick, interrupt).end.Endless? <==>
      (forall t: nat :: t >= tick ==> PollTick(ps, t).verdict.No?)
      && (interrupt.None? || interrupt.value < tick)
    decreases LoopBound(ps, interrupt) - tick
  {
    QuietAfter(ps);
    var poll := PollTick(ps, tick);
    if poll.verdict.No? && interrupt != Some(tick) {
      if tick + 1 < LoopBound(ps, interrupt) {
        LoopEndless(ps, tick + 1, interrupt);
        if Loop(ps, tick + 1, interrupt).end.Endless? {
          forall t: nat | t >= tick ensures PollTick(ps, t).verdict.No? {
          }
        }
      } else {
        assert Loop(ps, tick, interrupt).end.Endless?;
        forall t: nat | t >= tick ensures PollTick(ps, t).verdict.No? {
          if t > tick {
            assert t >= MaxPolls(ps);
          }
        }
      }
    } else {
      assert !Loop(ps, tick, interrupt).end.Endless?;
      if !poll.verdict.No? {
        assert !PollTick(ps, tick).verdict.No?;
      }
    }
  }

  // -----------------------------------------------------------------------
  // run

  /** How `run` ends. */
  datatype Outcome =
    | NothingLoaded       // no section named a plugin
    | Refused             // some canRun said no
    | Stopped             // a plugin asked to stop and shutdown went through
    | Raised(e: Error)    // an exception left run
    | KeyboardInterrupt   // the interrupt, re-raised after shutdown
    | Runs                // the main loop never exits

  datatype Run = Run(plugins: Loaded, trace: seq<Event>, outcome: Outcome)

  /** The body of the `try` block and then the `finally` block. */
  function Guarded(ps: Loaded, interrupt: Option<nat>): (r: (seq<Event>, Outcome)) {
    var start := StartAll(ps);
    if start.error.Some? then
      var down := ShutdownAll(ps);
      (start.events + down.events, Raised(if down.error.Some? then down.error.value else start.error.value))
    else
      var loop := Loop(ps, 0, interrupt);
      var polls := PollTrace(ps, 0, loop.ticks);
      if loop.end.Endless? then (start.events + polls, Runs)
      else
        var down := ShutdownAll(ps);
        var body := match loop.end
          case StopAsked => Stopped
          case LoopRaised(e) => Raised(e)
          case _ => KeyboardInterrupt;
        (start.events + polls + down.events,
         if down.error.Some? then Raised(down.error.value) else body)
  }

  /** `LDXInstance(config).run()` with the classes in `reg`. */
  function RunInstance(reg: Plugins.Registry, config: ODict.Dict<string, Py.Value>, make: Maker,
                       interrupt: Option<nat>): Run
  {
    match Load(reg, config, make)
    case LoadFailed(t, e) => Run([], t, Raised(e))
    case Loaded(ps, t) =>
      if ps == [] then Run(ps, t, NothingLoaded)
      else
        var check := CheckAll(ps);
        if check.verdict.No? then Run(ps, t + check.events, Refused)
        else if check.verdict.Raise? then Run(ps, t + check.events, Raised(check.verdict.e))
        else
          var g := Guarded(ps, interrupt);
          Run(ps, t + check.events + g.0, g.1)
  }
}

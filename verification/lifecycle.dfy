/** What `LDXInstance.run` promises, stated over the trace of hook calls:
    nothing runs without plugins, `canRun` is all-or-nothing, every plugin
    starts before the first poll, the loop ends at the first stop request,
    and once startup begins every loaded plugin is shut down once. */
module Lifecycle {
  import opened Wrappers
  import ODict
  import Py
  import Plugins
  import opened Runner

  datatype Hook = HEnvLoad | HCanRun | HStartup | HShouldStop | HShutdown

  function HookOf(e: Event): Hook {
    match e
    case EnvLoad(_) => HEnvLoad
    case CanRun(_) => HCanRun
    case Startup(_) => HStartup
    case ShouldStop(_, _) => HShouldStop
    case Shutdown(_) => HShutdown
  }

  /** The sections whose hook `h` was called, in call order. */
  function Calls(trace: seq<Event>, h: Hook): seq<string> {
    if |trace| == 0 then []
    else (if HookOf(trace[0]) == h then [trace[0].key] else []) + Calls(trace[1..], h)
  }

  lemma {:induction false} CallsAppend(a: seq<Event>, b: seq<Event>, h: Hook)
    ensures Calls(a + b, h) == Calls(a, h) + Calls(b, h)
  {
    if |a| > 0 {
      CallsAppend(a[1..], b, h);
      var head := if HookOf(a[0]) == h then [a[0].key] else [];
      calc {
        Calls(a + b, h);
        { assert (a + b)[0] == a[0]; assert (a + b)[1..] == a[1..] + b; }
        head + Calls(a[1..] + b, h);
        head + (Calls(a[1..], h) + Calls(b, h));
        (head + Calls(a[1..], h)) + Calls(b, h);
      }
    } else {
      assert a + b == b;
    }
  }

  /** In a stretch of calls to one hook, the calls to that hook are its
      sections and there are no calls to any other hook. */
  lemma {:induction false} CallsUniform(es: seq<Event>, h0: Hook, h: Hook)
    requires forall i :: 0 <= i < |es| ==> HookOf(es[i]) == h0
    ensures Calls(es, h) == if h == h0 then seq(|es|, i requires 0 <= i < |es| => es[i].key) else []
  {
    if |es| > 0 {
      CallsUniform(es[1..], h0, h);
    }
  }

  /** The calls of `h` in a phase that calls `h0` on `ps[..n]` in order. */
  lemma PhaseCalls(es: seq<Event>, ps: Loaded, h0: Hook, h: Hook)
    requires |es| <= |ps|
    requires forall i :: 0 <= i < |es| ==> HookOf(es[i]) == h0 && es[i].key == ps[i].0
    ensures Calls(es, h) == if h == h0 then ODict.KeySeq(ps[..|es|]) else []
  {
    CallsUniform(es, h0, h);
  }

  // -----------------------------------------------------------------------

  lemma {:induction false} LoadNothing(reg: Plugins.Registry, config: ODict.Dict<string, Py.Value>, make: Maker)
    requires forall k :: k in ODict.Keys(config) ==> Plugins.Lookup(reg, k).None?
    ensures Load(reg, config, make) == Loaded([], [])
  {
    if |config| > 0 {
      LoadNothing(reg, config[1..], make);
    }
  }

  /** A configuration that names no registered plugin makes `run` return
      without calling any hook. */
  lemma NothingLoadedNoHooks(reg: Plugins.Registry, config: ODict.Dict<string, Py.Value>, make: Maker,
                             interrupt: Option<nat>)
    requires forall k :: k in ODict.Keys(config) ==> Plugins.Lookup(reg, k).None?
    ensures RunInstance(reg, config, make, interrupt).outcome == NothingLoaded
    ensures RunInstance(reg, config, make, interrupt).trace == []
  {
    LoadNothing(reg, config, make);
  }

  /** If the first `canRun` that does not answer yes belongs to `ps[i]`, the
      runner asks exactly `ps[..i+1]`, then returns (or lets the exception
      out) without starting, polling or shutting down anything. */
  lemma CanRunAllOrNothing(reg: Plugins.Registry, config: ODict.Dict<string, Py.Value>, make: Maker,
                           interrupt: Option<nat>, i: nat)
    requires Load(reg, config, make).Loaded?
    requires var ps := Load(reg, config, make).plugins;
      i < |ps| && !ps[i].1.canRun.Yes? && forall j :: 0 <= j < i ==> ps[j].1.canRun.Yes?
    ensures var ps := Load(reg, config, make).plugins;
      var r := RunInstance(reg, config, make, interrupt);
      && r.outcome == (if ps[i].1.canRun.No? then Refused else Raised(ps[i].1.canRun.e))
      && Calls(r.trace, HCanRun) == ODict.KeySeq(ps[..i + 1])
      && Calls(r.trace, HStartup) == []
      && Calls(r.trace, HShouldStop) == []
      && Calls(r.trace, HShutdown) == []
  {
    var L := Load(reg, config, make);
    var ps := L.plugins;
    var check := CheckAll(ps);
    CheckAllSpec(ps);
    assert |check.events| == i + 1;
    var trace := RunInstance(reg, config, make, interrupt).trace;
    assert trace == L.trace + check.events;
    LoadThenCheck(L.trace, check.events, ps, HCanRun);
    LoadThenCheck(L.trace, check.events, ps, HStartup);
    LoadThenCheck(L.trace, check.events, ps, HShouldStop);
    LoadThenCheck(L.trace, check.events, ps, HShutdown);
  }

  /** The calls of `h` while loading and then checking `ps[..|es|]`. */
  lemma LoadThenCheck(t: seq<Event>, es: seq<Event>, ps: Loaded, h: Hook)
    requires forall i :: 0 <= i < |t| ==> HookOf(t[i]) == HEnvLoad
    requires |es| <= |ps|
    requires forall i :: 0 <= i < |es| ==> HookOf(es[i]) == HCanRun && es[i].key == ps[i].0
    requires h != HEnvLoad
    ensures Calls(t + es, h) == if h == HCanRun then ODict.KeySeq(ps[..|es|]) else []
  {
    CallsAppend(t, es, h);
    CallsUniform(t, HEnvLoad, h);
    PhaseCalls(es, ps, HCanRun, h);
  }

  // -----------------------------------------------------------------------
  // Phase order

  /** The phase a hook belongs to. */
  function Rank(h: Hook): nat {
    match h
    case HEnvLoad => 0
    case HCanRun => 1
    case HStartup => 2
    case HShouldStop => 3
    case HShutdown => 4
  }

  /** Every call to a hook of an earlier phase comes before every call to a
      hook of a later one. */
  predicate InPhaseOrder(trace: seq<Event>) {
    forall i, j :: 0 <= i < j < |trace| ==> Rank(HookOf(trace[i])) <= Rank(HookOf(trace[j]))
  }

  predicate AllOf(es: seq<Event>, h: Hook) {
    forall i :: 0 <= i < |es| ==> HookOf(es[i]) == h
  }

  lemma OrderAppend(a: seq<Event>, h: Hook, b: seq<Event>)
    requires InPhaseOrder(a) && AllOf(b, h)
    requires forall i :: 0 <= i < |a| ==> Rank(HookOf(a[i])) <= Rank(h)
    ensures InPhaseOrder(a + b)
  {
    forall i, j | 0 <= i < j < |a + b|
      ensures Rank(HookOf((a + b)[i])) <= Rank(HookOf((a + b)[j]))
    {
      if j >= |a| {
        assert (a + b)[j] == b[j - |a|];
        if i >= |a| {
          assert (a + b)[i] == b[i - |a|];
        }
      }
    }
  }

  /** No event of `a` belongs to a phase after that of `h`. */
  predicate RankedUpTo(a: seq<Event>, h: Hook) {
    forall i :: 0 <= i < |a| ==> Rank(HookOf(a[i])) <= Rank(h)
  }

  lemma RankedAppend(a: seq<Event>, b: seq<Event>, h: Hook, h': Hook)
    requires RankedUpTo(a, h) && AllOf(b, h') && Rank(h) <= Rank(h')
    ensures RankedUpTo(a + b, h')
  {
    forall i | 0 <= i < |a + b| ensures Rank(HookOf((a + b)[i])) <= Rank(h') {
      if i >= |a| {
        assert (a + b)[i] == b[i - |a|];
      }
    }
  }

  /** Adds the phase `b` of hook `h'` after a prefix ranked up to `h`. */
  lemma Then(a: seq<Event>, h: Hook, b: seq<Event>, h': Hook)
    requires InPhaseOrder(a) && RankedUpTo(a, h) && AllOf(b, h') && Rank(h) <= Rank(h')
    ensures InPhaseOrder(a + b) && RankedUpTo(a + b, h')
  {
    OrderAppend(a, h', b);
    RankedAppend(a, b, h, h');
  }

  lemma PollTraceAllPolls(ps: Loaded, from: nat, n: nat)
    ensures AllOf(PollTrace(ps, from, n), HShouldStop)
    decreases n
  {
    if n > 0 {
      PollTickSpec(ps, from);
      PollTraceAllPolls(ps, from + 1, n - 1);
      var a := PollTick(ps, from).events;
      var b := PollTrace(ps, from + 1, n - 1);
      forall i | 0 <= i < |a + b| ensures HookOf((a + b)[i]) == HShouldStop {
        if i >= |a| {
          assert (a + b)[i] == b[i - |a|];
        }
      }
    }
  }

  /** The try/finally part of a run calls startup, then polls, then
      shutdown hooks, in that phase order. */
  lemma GuardedInOrder(ps: Loaded, interrupt: Option<nat>)
    ensures InPhaseOrder(Guarded(ps, interrupt).0)
    ensures forall i :: 0 <= i < |Guarded(ps, interrupt).0| ==>
      Rank(HookOf(Guarded(ps, interrupt).0[i])) >= Rank(HStartup)
  {
    if StartAll(ps).error.Some? {
      FailedStartInOrder(ps, interrupt);
    } else {
      StartedInOrder(ps, interrupt);
    }
  }

  /** No event of `a` belongs to a phase before that of `h`. */
  predicate RankedFrom(a: seq<Event>, h: Hook) {
    forall i :: 0 <= i < |a| ==> Rank(HookOf(a[i])) >= Rank(h)
  }

  lemma RankedFromAppend(a: seq<Event>, b: seq<Event>, h: Hook)
    requires RankedFrom(a, h) && RankedFrom(b, h)
    ensures RankedFrom(a + b, h)
  {
    forall i | 0 <= i < |a + b| ensures Rank(HookOf((a + b)[i])) >= Rank(h) {
      if i >= |a| {
        assert (a + b)[i] == b[i - |a|];
      }
    }
  }

  lemma FailedStartInOrder(ps: Loaded, interrupt: Option<nat>)
    requires StartAll(ps).error.Some?
    ensures InPhaseOrder(Guarded(ps, interrupt).0)
    ensures RankedFrom(Guarded(ps, interrupt).0, HStartup)
  {
    StartAllSpec(ps);
    ShutdownAllSpec(ps);
    var start := StartAll(ps);
    var down := ShutdownAll(ps);
    assert InPhaseOrder(start.events) && RankedUpTo(start.events, HStartup);
    Then(start.events, HStartup, down.events, HShutdown);
    RankedFromAppend(start.events, down.events, HStartup);
  }

  lemma StartedInOrder(ps: Loaded, interrupt: Option<nat>)
    requires StartAll(ps).error.None?
    ensures InPhaseOrder(Guarded(ps, interrupt).0)
    ensures RankedFrom(Guarded(ps, interrupt).0, HStartup)
  {
    var start := StartAll(ps);
    var loop := Loop(ps, 0, interrupt);
    var polls := PollTrace(ps, 0, loop.ticks);
    var sp := start.events + polls;
    assert InPhaseOrder(sp) && RankedUpTo(sp, HShouldStop) && RankedFrom(sp, HStartup) by {
      StartAllSpec(ps);
      assert InPhaseOrder(start.events) && RankedUpTo(start.events, HStartup);
      PollTraceAllPolls(ps, 0, loop.ticks);
      Then(start.events, HStartup, polls, HShouldStop);
      RankedFromAppend(start.events, polls, HStartup);
    }
    if !loop.end.Endless? {
      var down := ShutdownAll(ps);
      ShutdownAllSpec(ps);
      Then(sp, HShouldStop, down.events, HShutdown);
      RankedFromAppend(sp, down.events, HStartup);
    }
  }

  lemma Concat(a: seq<Event>, h: Hook, b: seq<Event>)
    requires InPhaseOrder(a) && RankedUpTo(a, h) && InPhaseOrder(b)
    requires forall i :: 0 <= i < |b| ==> Rank(HookOf(b[i])) >= Rank(h)
    ensures InPhaseOrder(a + b)
  {
    forall i, j | 0 <= i < j < |a + b|
      ensures Rank(HookOf((a + b)[i])) <= Rank(HookOf((a + b)[j]))
    {
      if j >= |a| {
        assert (a + b)[j] == b[j - |a|];
        if i >= |a| {
          assert (a + b)[i] == b[i - |a|];
        }
      }
    }
  }

  /** In every run, all `onEnvLoad` calls precede all `canRun` calls, which
      precede all `onStartup` calls, then all `shouldStop` calls, then all
      `onShutdown` calls: in particular every started plugin starts before
      the first poll. */
  lemma PhasesInOrder(reg: Plugins.Registry, config: ODict.Dict<string, Py.Value>, make: Maker,
                      interrupt: Option<nat>)
    ensures InPhaseOrder(RunInstance(reg, config, make, interrupt).trace)
  {
    var L := Load(reg, config, make);
    assert InPhaseOrder(L.trace) && RankedUpTo(L.trace, HEnvLoad);
    if L.Loaded? && L.plugins != [] {
      var ps := L.plugins;
      CheckAllSpec(ps);
      var check := CheckAll(ps);
      Then(L.trace, HEnvLoad, check.events, HCanRun);
      if check.verdict.Yes? {
        GuardedInOrder(ps, interrupt);
        RankedAppend(L.trace, check.events, HEnvLoad, HCanRun);
        Concat(L.trace + check.events, HCanRun, Guarded(ps, interrupt).0);
      }
    }
  }

  // -----------------------------------------------------------------------
  // Once startup begins

  /** Loading produced plugins and every `canRun` said yes, so the `try`
      block is entered. */
  predicate StartupBegins(reg: Plugins.Registry, config: ODict.Dict<string, Py.Value>, make: Maker) {
    var L := Load(reg, config, make);
    L.Loaded? && L.plugins != [] && forall i :: 0 <= i < |L.plugins| ==> L.plugins[i].1.canRun.Yes?
  }

  lemma EnteredTry(reg: Plugins.Registry, config: ODict.Dict<string, Py.Value>, make: Maker,
                   interrupt: Option<nat>, h: Hook)
    requires StartupBegins(reg, config, make)
    requires Rank(h) >= Rank(HStartup)
    ensures var ps := Load(reg, config, make).plugins;
      var r := RunInstance(reg, config, make, interrupt);
      && r.outcome == Guarded(ps, interrupt).1
      && Calls(r.trace, h) == Calls(Guarded(ps, interrupt).0, h)
  {
    var L := Load(reg, config, make);
    var ps := L.plugins;
    CheckAllSpec(ps);
    var check := CheckAll(ps);
    var g := Guarded(ps, interrupt);
    CallsAppend(L.trace + check.events, g.0, h);
    CallsAppend(L.trace, check.events, h);
    CallsUniform(L.trace, HEnvLoad, h);
    CallsUniform(check.events, HCanRun, h);
  }

  /** Once startup begins and unless the loop never ends, `onShutdown` is
      called once on every loaded plugin in load order, including plugins
      whose `onStartup` never ran, as long as none raises; the run then ends
      with the startup exception, the loop's exception, the interrupt or
      the normal stop. */
  lemma ShutdownEachOnce(reg: Plugins.Registry, config: ODict.Dict<string, Py.Value>, make: Maker,
                         interrupt: Option<nat>)
    requires StartupBegins(reg, config, make)
    requires var ps := Load(reg, config, make).plugins;
      forall i :: 0 <= i < |ps| ==> ps[i].1.shutdown.Done?
    requires !RunInstance(reg, config, make, interrupt).outcome.Runs?
    ensures var ps := Load(reg, config, make).plugins;
      var r := RunInstance(reg, config, make, interrupt);
      && Calls(r.trace, HShutdown) == ODict.KeySeq(ps)
      && (StartAll(ps).error.Some? ==> r.outcome == Raised(StartAll(ps).error.value))
  {
    var ps := Load(reg, config, make).plugins;
    EnteredTry(reg, config, make, interrupt, HShutdown);
    GuardedShutdownCalls(ps, interrupt);
    ShutdownAllSpec(ps);
    assert ps[..|ps|] == ps;
  }

  /** After every plugin started and with no `onShutdown` raising, `run`
      ends as the main loop did: a stop request ends it normally, an
      exception from `shouldStop` leaves `run` after cleanup, and an
      interrupt is re-raised after cleanup. */
  lemma LoopOutcome(reg: Plugins.Registry, config: ODict.Dict<string, Py.Value>, make: Maker,
                    interrupt: Option<nat>)
    requires StartupBegins(reg, config, make)
    requires var ps := Load(reg, config, make).plugins;
      StartAll(ps).error.None? && forall i :: 0 <= i < |ps| ==> ps[i].1.shutdown.Done?
    ensures var ps := Load(reg, config, make).plugins;
      var loop := Loop(ps, 0, interrupt);
      var r := RunInstance(reg, config, make, interrupt);
      && (loop.end.StopAsked? <==> r.outcome == Stopped)
      && (loop.end.LoopRaised? ==> r.outcome == Raised(loop.end.e))
      && (loop.end.Interrupted? <==> r.outcome == KeyboardInterrupt)
      && (loop.end.Endless? <==> r.outcome == Runs)
  {
    var ps := Load(reg, config, make).plugins;
    EnteredTry(reg, config, make, interrupt, HShutdown);
    ShutdownAllSpec(ps);
  }

  /** If the first plugin whose `onShutdown` raises is `ps[k]`, shutdown
      stops there and its exception is what leaves `run`, replacing any
      exception from startup or the loop. */
  lemma ShutdownErrorWins(reg: Plugins.Registry, config: ODict.Dict<string, Py.Value>, make: Maker,
                          interrupt: Option<nat>, k: nat)
    requires StartupBegins(reg, config, make)
    requires var ps := Load(reg, config, make).plugins;
      k < |ps| && ps[k].1.shutdown.Fail? && forall i :: 0 <= i < k ==> ps[i].1.shutdown.Done?
    requires !RunInstance(reg, config, make, interrupt).outcome.Runs?
    ensures var ps := Load(reg, config, make).plugins;
      var r := RunInstance(reg, config, make, interrupt);
      && Calls(r.trace, HShutdown) == ODict.KeySeq(ps[..k + 1])
      && r.outcome == Raised(ps[k].1.shutdown.e)
  {
    var ps := Load(reg, config, make).plugins;
    EnteredTry(reg, config, make, interrupt, HShutdown);
    GuardedShutdownCalls(ps, interrupt);
    ShutdownAllSpec(ps);
    assert |ShutdownAll(ps).events| == k + 1;
  }

  lemma GuardedShutdownCalls(ps: Loaded, interrupt: Option<nat>)
    requires !Guarded(ps, interrupt).1.Runs?
    ensures Calls(Guarded(ps, interrupt).0, HShutdown) == ODict.KeySeq(ps[..|ShutdownAll(ps).events|])
    ensures ShutdownAll(ps).error.Some? ==> Guarded(ps, interrupt).1 == Raised(ShutdownAll(ps).error.value)
  {
    var start := StartAll(ps);
    var down := ShutdownAll(ps);
    assert Calls(down.events, HShutdown) == ODict.KeySeq(ps[..|down.events|]) by {
      ShutdownAllSpec(ps);
      PhaseCalls(down.events, ps, HShutdown, HShutdown);
    }
    if start.error.Some? {
      assert Calls(start.events, HShutdown) == [] by {
        StartAllSpec(ps);
        PhaseCalls(start.events, ps, HStartup, HShutdown);
      }
      CallsAppend(start.events, down.events, HShutdown);
    } else {
      LoopShutdownCalls(ps, interrupt);
    }
  }

  lemma LoopShutdownCalls(ps: Loaded, interrupt: Option<nat>)
    requires StartAll(ps).error.None?
    requires !Loop(ps, 0, interrupt).end.Endless?
    ensures var polls := PollTrace(ps, 0, Loop(ps, 0, interrupt).ticks);
      Calls(StartAll(ps).events + polls + ShutdownAll(ps).events, HShutdown)
        == Calls(ShutdownAll(ps).events, HShutdown)
  {
    StartAllSpec(ps);
    var start := StartAll(ps);
    var polls := PollTrace(ps, 0, Loop(ps, 0, interrupt).ticks);
    PollTraceAllPolls(ps, 0, Loop(ps, 0, interrupt).ticks);
    CallsUniform(polls, HShouldStop, HShutdown);
    PhaseCalls(start.events, ps, HStartup, HShutdown);
    CallsAppend(start.events + polls, ShutdownAll(ps).events, HShutdown);
    CallsAppend(start.events, polls, HShutdown);
  }

  /** If any plugin is polled, every loaded plugin has been started, in
      load order. */
  lemma PolledOnlyAfterAllStarted(reg: Plugins.Registry, config: ODict.Dict<string, Py.Value>, make: Maker,
                                  interrupt: Option<nat>)
    requires StartupBegins(reg, config, make)
    requires Calls(RunInstance(reg, config, make, interrupt).trace, HShouldStop) != []
    ensures Calls(RunInstance(reg, config, make, interrupt).trace, HStartup)
         == ODict.KeySeq(Load(reg, config, make).plugins)
  {
    var ps := Load(reg, config, make).plugins;
    EnteredTry(reg, config, make, interrupt, HShouldStop);
    EnteredTry(reg, config, make, interrupt, HStartup);
    StartFailedNoPolls(ps, interrupt);
    StartedAllBeforePolls(ps, interrupt);
  }

  /** When a startup raises, nothing is polled. */
  lemma StartFailedNoPolls(ps: Loaded, interrupt: Option<nat>)
    ensures StartAll(ps).error.Some? ==> Calls(Guarded(ps, interrupt).0, HShouldStop) == []
  {
    if StartAll(ps).error.Some? {
      StartFailedCalls(ps, interrupt);
    }
  }

  lemma StartFailedCalls(ps: Loaded, interrupt: Option<nat>)
    requires StartAll(ps).error.Some?
    ensures Calls(Guarded(ps, interrupt).0, HShouldStop) == []
  {
    StartAllSpec(ps);
    ShutdownAllSpec(ps);
    var start := StartAll(ps);
    var down := ShutdownAll(ps);
    PhaseCalls(start.events, ps, HStartup, HShouldStop);
    PhaseCalls(down.events, ps, HShutdown, HShouldStop);
    CallsAppend(start.events, down.events, HShouldStop);
  }

  /** When every startup succeeds, the startup calls are all the plugins
      in load order, and the loop and shutdown add none. */
  lemma StartedAllBeforePolls(ps: Loaded, interrupt: Option<nat>)
    ensures StartAll(ps).error.None? ==> Calls(Guarded(ps, interrupt).0, HStartup) == ODict.KeySeq(ps)
  {
    if StartAll(ps).error.None? {
      StartedAllCalls(ps, interrupt);
    }
  }

  lemma StartedAllCalls(ps: Loaded, interrupt: Option<nat>)
    requires StartAll(ps).error.None?
    ensures Calls(Guarded(ps, interrupt).0, HStartup) == ODict.KeySeq(ps)
  {
    var start := StartAll(ps);
    var loop := Loop(ps, 0, interrupt);
    var polls := PollTrace(ps, 0, loop.ticks);
    var down := if loop.end.Endless? then [] else ShutdownAll(ps).events;
    StartedEvents(ps, interrupt);
    assert Calls(start.events, HStartup) == ODict.KeySeq(ps) by {
      StartAllSpec(ps);
      PhaseCalls(start.events, ps, HStartup, HStartup);
      assert ps[..|ps|] == ps;
    }
    assert Calls(polls, HStartup) == [] by {
      PollTraceAllPolls(ps, 0, loop.ticks);
      CallsUniform(polls, HShouldStop, HStartup);
    }
    assert Calls(down, HStartup) == [] by {
      if !loop.end.Endless? {
        ShutdownAllSpec(ps);
        PhaseCalls(down, ps, HShutdown, HStartup);
      }
    }
    CallsAppend(start.events, polls, HStartup);
    CallsAppend(start.events + polls, down, HStartup);
  }

  /** After a clean start the trace is the starts, the polls, and the
      shutdowns unless the loop never ends. */
  lemma StartedEvents(ps: Loaded, interrupt: Option<nat>)
    requires StartAll(ps).error.None?
    ensures var loop := Loop(ps, 0, interrupt);
      Guarded(ps, interrupt).0 == StartAll(ps).events + PollTrace(ps, 0, loop.ticks)
        + (if loop.end.Endless? then [] else ShutdownAll(ps).events)
  {
    var loop := Loop(ps, 0, interrupt);
    if loop.end.Endless? {
      assert StartAll(ps).events + PollTrace(ps, 0, loop.ticks) + []
          == StartAll(ps).events + PollTrace(ps, 0, loop.ticks);
    }
  }

  // -----------------------------------------------------------------------
  // The main loop

  /** `ks` once per round, `n` rounds. */
  function Rounds(ks: seq<string>, n: nat): seq<string> {
    if n == 0 then [] else ks + Rounds(ks, n - 1)
  }

  lemma {:induction false} PollTraceSnoc(ps: Loaded, from: nat, n: nat)
    ensures PollTrace(ps, from, n + 1) == PollTrace(ps, from, n) + PollTick(ps, from + n).events
    decreases n
  {
    if n > 0 {
      PollTraceSnoc(ps, from + 1, n - 1);
    }
  }

  /** Polls where every plugin says go on ask every plugin, in order. */
  lemma {:induction false} QuietRounds(ps: Loaded, from: nat, n: nat)
    requires forall t :: from <= t < from + n ==> PollTick(ps, t).verdict.No?
    ensures Calls(PollTrace(ps, from, n), HShouldStop) == Rounds(ODict.KeySeq(ps), n)
    decreases n
  {
    if n > 0 {
      PollTickSpec(ps, from);
      PhaseCalls(PollTick(ps, from).events, ps, HShouldStop, HShouldStop);
      assert ps[..|ps|] == ps;
      QuietRounds(ps, from + 1, n - 1);
      CallsAppend(PollTick(ps, from).events, PollTrace(ps, from + 1, n - 1), HShouldStop);
    }
  }

  /** The poll at a tick where `ps[m]` is the first plugin asking to stop
      asks `ps[..m+1]` and says stop. */
  lemma FirstStopper(ps: Loaded, tick: nat, m: nat)
    requires m < |ps| && PollAt(ps[m].1, tick).Yes?
    requires forall j :: 0 <= j < m ==> PollAt(ps[j].1, tick).No?
    ensures PollTick(ps, tick).verdict.Yes?
    ensures Calls(PollTick(ps, tick).events, HShouldStop) == ODict.KeySeq(ps[..m + 1])
  {
    PollTickSpec(ps, tick);
    PhaseCalls(PollTick(ps, tick).events, ps, HShouldStop, HShouldStop);
  }

  /** The loop's length when the first stop request comes at tick `T`. */
  lemma LoopStopsAt(ps: Loaded, interrupt: Option<nat>, T: nat)
    requires forall t :: 0 <= t < T ==> PollTick(ps, t).verdict.No?
    requires PollTick(ps, T).verdict.Yes?
    requires interrupt.None? || interrupt.value >= T
    ensures Loop(ps, 0, interrupt) == LoopResult(StopAsked, T + 1)
  {
    LoopGoesOn(ps, 0, interrupt);
    LoopEnds(ps, 0, interrupt);
    LoopEndless(ps, 0, interrupt);
  }

  /** With every plugin started, if `ps[m]` is the first plugin to ask to
      stop and it does so at tick `T` (and no interrupt comes earlier), the
      loop polls every plugin at each earlier tick, then `ps[..m+1]` at tick
      `T`, and stops: plugins after `ps[m]` are not polled at tick `T`. */
  lemma StopAtFirstRequest(reg: Plugins.Registry, config: ODict.Dict<string, Py.Value>, make: Maker,
                           interrupt: Option<nat>, T: nat, m: nat)
    requires StartupBegins(reg, config, make)
    requires var ps := Load(reg, config, make).plugins;
      && (forall j :: 0 <= j < |ps| ==> ps[j].1.startup.Done?)
      && (forall t, j :: 0 <= t < T && 0 <= j < |ps| ==> PollAt(ps[j].1, t).No?)
      && m < |ps| && PollAt(ps[m].1, T).Yes?
      && (forall j :: 0 <= j < m ==> PollAt(ps[j].1, T).No?)
    requires interrupt.None? || interrupt.value >= T
    ensures var ps := Load(reg, config, make).plugins;
      var r := RunInstance(reg, config, make, interrupt);
      && Calls(r.trace, HShouldStop) == Rounds(ODict.KeySeq(ps), T) + ODict.KeySeq(ps[..m + 1])
      && ((forall j :: 0 <= j < |ps| ==> ps[j].1.shutdown.Done?) ==> r.outcome == Stopped)
  {
    var ps := Load(reg, config, make).plugins;
    EnteredTry(reg, config, make, interrupt, HShouldStop);
    forall t | 0 <= t < T ensures PollTick(ps, t).verdict.No? {
      PollTickSpec(ps, t);
    }
    FirstStopper(ps, T, m);
    LoopStopsAt(ps, interrupt, T);
    StartAllSpec(ps);
    ShutdownAllSpec(ps);
    GuardedPolls(ps, interrupt, T, m);
  }

  lemma GuardedPolls(ps: Loaded, interrupt: Option<nat>, T: nat, m: nat)
    requires m < |ps|
    requires StartAll(ps).error.None?
    requires Loop(ps, 0, interrupt) == LoopResult(StopAsked, T + 1)
    requires forall t :: 0 <= t < T ==> PollTick(ps, t).verdict.No?
    requires Calls(PollTick(ps, T).events, HShouldStop) == ODict.KeySeq(ps[..m + 1])
    ensures Calls(Guarded(ps, interrupt).0, HShouldStop) == Rounds(ODict.KeySeq(ps), T) + ODict.KeySeq(ps[..m + 1])
    ensures ShutdownAll(ps).error.None? ==> Guarded(ps, interrupt).1 == Stopped
  {
    var polls := PollTrace(ps, 0, T + 1);
    assert Guarded(ps, interrupt).0 == StartAll(ps).events + polls + ShutdownAll(ps).events;
    OnlyPolls(ps, polls);
    PollTraceSnoc(ps, 0, T);
    QuietRounds(ps, 0, T);
    CallsAppend(PollTrace(ps, 0, T), PollTick(ps, T).events, HShouldStop);
  }

  /** Between the startup and shutdown phases, the polls are the only
      `shouldStop` calls. */
  lemma OnlyPolls(ps: Loaded, polls: seq<Event>)
    ensures Calls(StartAll(ps).events + polls + ShutdownAll(ps).events, HShouldStop)
         == Calls(polls, HShouldStop)
  {
    StartAllSpec(ps);
    ShutdownAllSpec(ps);
    var start := StartAll(ps);
    var down := ShutdownAll(ps);
    PhaseCalls(start.events, ps, HStartup, HShouldStop);
    PhaseCalls(down.events, ps, HShutdown, HShouldStop);
    CallsAppend(start.events + polls, down.events, HShouldStop);
    CallsAppend(start.events, polls, HShouldStop);
  }

  /** Plugins that override nothing never ask to stop: without an interrupt
      the loop runs for ever and no plugin is shut down. */
  lemma DefaultsNeverStop(reg: Plugins.Registry, config: ODict.Dict<string, Py.Value>, make: Maker)
    requires Load(reg, config, make).Loaded? && Load(reg, config, make).plugins != []
    requires var ps := Load(reg, config, make).plugins;
      forall j :: 0 <= j < |ps| ==> ps[j].1 == DefaultPlugin
    ensures RunInstance(reg, config, make, None).outcome == Runs
    ensures Calls(RunInstance(reg, config, make, None).trace, HShutdown) == []
  {
    var ps := Load(reg, config, make).plugins;
    CheckAllSpec(ps);
    StartAllSpec(ps);
    forall t: nat ensures PollTick(ps, t).verdict.No? {
      PollTickSpec(ps, t);
    }
    LoopEndless(ps, 0, None);
    EnteredTry(reg, config, make, None, HShutdown);
    var polls := PollTrace(ps, 0, Loop(ps, 0, None).ticks);
    PollTraceAllPolls(ps, 0, Loop(ps, 0, None).ticks);
    CallsUniform(polls, HShouldStop, HShutdown);
    PhaseCalls(StartAll(ps).events, ps, HStartup, HShutdown);
    CallsAppend(StartAll(ps).events, polls, HShutdown);
  }
}

/** Batch execution on the console: one command run over a list of
    instances (by index or by name), over the instances a filter selects, or
    handed to a custom function; with a pause between runs. */
module BatchConsole {
  import opened Wrappers
  import ODict
  import opened Py

  /** Keyword arguments of a call, in order. */
  type Kwargs = ODict.Dict<string, Value>

  /** What the console offers the batch runner. `commands` are its method
      names, `list2` what its `list2()` returns, `interval` its
      `interval_between_batches` in whole seconds (-1 when absent).
      `call(cmd, args, kwargs)` is what calling a method gives, `test(f, x)`
      what a filter `f` returns (or raises) for an instance, and `invoke(f)`
      what a custom function `f` returns when handed the console. */
  datatype Console = Console(
    commands: set<string>,
    list2: seq<Value>,
    interval: int,
    call: (string, seq<Value>, Kwargs) -> Result<Value>,
    test: (Value, Value) -> Result<Value>,
    invoke: Value -> Result<Value>)

  /** One step of a batch run: a call on a target and what it gave (a
      raised exception is kept, not propagated), a pause, or a target that
      is neither an integer nor a string. */
  datatype Event = Ran(target: Value, result: Result<Value>) | Waited(seconds: int) | Skipped(target: Value)

  /** What `batch_execute` returns: the custom function's result, or the
      per-target results (with the pauses taken between them). */
  datatype Outcome = Custom(value: Value) | Batch(events: seq<Event>)

  /** The keyword a target is passed under: integers (booleans included)
      by `index`, strings by `name`. */
  function Keyword(t: Value): Option<string> {
    if IsInt(t) then Some("index") else if t.Str? then Some("name") else None
  }

  /** `command_method(<keyword>=target, *args, **kwargs)`; a keyword that
      `kwargs` also holds is a TypeError raised by the call itself. */
  function CallOn(c: Console, cmd: string, t: Value, args: seq<Value>, kwargs: Kwargs): Result<Value>
    requires Keyword(t).Some?
  {
    var k := Keyword(t).value;
    if k in ODict.Keys(kwargs) then Err(TypeError("got multiple values for keyword argument '" + k + "'"))
    else c.call(cmd, args, [(k, t)] + kwargs)
  }

  /** The loop over the targets from position `i` on. */
  function Run(c: Console, cmd: string, ts: seq<Value>, i: nat, args: seq<Value>, kwargs: Kwargs)
    : (es: seq<Event>)
    decreases |ts| - i
  {
    if i >= |ts| then []
    else if Keyword(ts[i]).None? then [Skipped(ts[i])] + Run(c, cmd, ts, i + 1, args, kwargs)
    else
      var r := CallOn(c, cmd, ts[i], args, kwargs);
      var pause := if r.Ok? && c.interval > 0 && i < |ts| - 1 then [Waited(c.interval)] else [];
      [Ran(ts[i], r)] + pause + Run(c, cmd, ts, i + 1, args, kwargs)
  }

  /** The list `batch_execute` returns: the call results in order. */
  function Results(es: seq<Event>): seq<Result<Value>> {
    if |es| == 0 then []
    else (if es[0].Ran? then [es[0].result] else []) + Results(es[1..])
  }

  function Waits(es: seq<Event>): nat {
    if |es| == 0 then 0 else (if es[0].Waited? then 1 else 0) + Waits(es[1..])
  }

  /** The targets a run calls, in order: the integers and the strings. */
  function Callable(ts: seq<Value>): (r: seq<Value>)
    ensures forall t :: t in r ==> Keyword(t).Some?
  {
    if |ts| == 0 then []
    else (if Keyword(ts[0]).Some? then [ts[0]] else []) + Callable(ts[1..])
  }

  lemma {:induction false} ResultsAppend(a: seq<Event>, b: seq<Event>)
    ensures Results(a + b) == Results(a) + Results(b)
    ensures Waits(a + b) == Waits(a) + Waits(b)
  {
    if |a| == 0 {
      assert a + b == b;
    } else {
      assert (a + b)[0] == a[0];
      assert (a + b)[1..] == a[1..] + b;
      ResultsAppend(a[1..], b);
      var h := if a[0].Ran? then [a[0].result] else [];
      assert Results(a + b) == h + Results(a[1..] + b);
      assert h + (Results(a[1..]) + Results(b)) == (h + Results(a[1..])) + Results(b);
    }
  }

  /** The run calls every integer and string target once, in order, passes
      the target under its keyword along with the same arguments, and
      returns what each call gave; other targets are skipped. */
  lemma {:induction false} RunResults(c: Console, cmd: string, ts: seq<Value>, i: nat, args: seq<Value>,
                                      kwargs: Kwargs)
    requires i <= |ts|
    ensures var rs := Results(Run(c, cmd, ts, i, args, kwargs));
      var cs := Callable(ts[i..]);
      && |rs| == |cs|
      && forall j :: 0 <= j < |cs| ==> rs[j] == CallOn(c, cmd, cs[j], args, kwargs)
    decreases |ts| - i
  {
    if i < |ts| {
      RunResults(c, cmd, ts, i + 1, args, kwargs);
      RunStep(c, cmd, ts, i, args, kwargs);
      assert ts[i..][1..] == ts[i + 1..];
      assert Callable(ts[i..]) == (if Keyword(ts[i]).Some? then [ts[i]] else []) + Callable(ts[i + 1..]);
    }
  }

  /** One step of a run: the target's result, if it is called, then the
      rest of the run's. */
  lemma RunStep(c: Console, cmd: string, ts: seq<Value>, i: nat, args: seq<Value>, kwargs: Kwargs)
    requires i < |ts|
    ensures Results(Run(c, cmd, ts, i, args, kwargs))
      == (if Keyword(ts[i]).Some? then [CallOn(c, cmd, ts[i], args, kwargs)] else [])
         + Results(Run(c, cmd, ts, i + 1, args, kwargs))
  {
    var rest := Run(c, cmd, ts, i + 1, args, kwargs);
    if Keyword(ts[i]).None? {
      ResultsAppend([Skipped(ts[i])], rest);
    } else {
      var r := CallOn(c, cmd, ts[i], args, kwargs);
      var pause := if r.Ok? && c.interval > 0 && i < |ts| - 1 then [Waited(c.interval)] else [];
      ResultsAppend([Ran(ts[i], r)], pause + rest);
      ResultsAppend(pause, rest);
      assert Results(pause) == [];
    }
  }

  /** Pauses: none unless the interval is positive, one after each call
      that returned and is not on the last target, and so never at the end
      of a run. */
  lemma {:induction false} RunPauses(c: Console, cmd: string, ts: seq<Value>, i: nat, args: seq<Value>,
                                     kwargs: Kwargs)
    requires i <= |ts|
    ensures c.interval <= 0 ==> Waits(Run(c, cmd, ts, i, args, kwargs)) == 0
    ensures Waits(Run(c, cmd, ts, i, args, kwargs)) <= |Results(Run(c, cmd, ts, i, args, kwargs))|
    ensures |Run(c, cmd, ts, i, args, kwargs)| > 0 ==> !Run(c, cmd, ts, i, args, kwargs)[|Run(c, cmd, ts, i, args, kwargs)| - 1].Waited?
    ensures |Run(c, cmd, ts, i, args, kwargs)| > 0 <==> i < |ts|
    decreases |ts| - i
  {
    if i < |ts| {
      RunPauses(c, cmd, ts, i + 1, args, kwargs);
      var rest := Run(c, cmd, ts, i + 1, args, kwargs);
      if Keyword(ts[i]).None? {
        ResultsAppend([Skipped(ts[i])], rest);
      } else {
        var r := CallOn(c, cmd, ts[i], args, kwargs);
        var pause := if r.Ok? && c.interval > 0 && i < |ts| - 1 then [Waited(c.interval)] else [];
        ResultsAppend([Ran(ts[i], r)], pause + rest);
        ResultsAppend(pause, rest);
        assert Run(c, cmd, ts, i, args, kwargs) == [Ran(ts[i], r)] + pause + rest;
      }
    }
  }

  /** `[item for item in list2 if instances(item)]`: the filter's answer is
      taken by its truth value, and the first call that raises ends the
      selection with that error. */
  function Kept(c: Console, filter: Value, items: seq<Value>): (r: Result<seq<Value>>)
    ensures r.Ok? ==> |r.value| <= |items|
  {
    if |items| == 0 then Ok([])
    else
      var answer :- c.test(filter, items[0]);
      var rest :- Kept(c, filter, items[1..]);
      Ok(if Truthy(answer) then [items[0]] + rest else rest)
  }

  /** `[item["id"] for item in filtered_instances]`: the first item without
      an id ends the lookup with that error. */
  function Ids(kept: seq<Value>): (r: Result<seq<Value>>)
    ensures r.Ok? ==> |r.value| == |kept|
  {
    if |kept| == 0 then Ok([])
    else
      var id :- Subscript(kept[0], "id");
      var rest :- Ids(kept[1..]);
      Ok([id] + rest)
  }

  /** The targets a filter selects: every instance is filtered before any
      id is looked up. */
  function SelectedIds(c: Console, filter: Value, items: seq<Value>): (r: Result<seq<Value>>)
    ensures r.Ok? ==> |r.value| <= |items|
  {
    var kept :- Kept(c, filter, items);
    Ids(kept)
  }

  /** `idx` picks, in increasing order, exactly the positions of `items`
      whose filter answer is true. */
  ghost predicate PicksPassing(c: Console, filter: Value, items: seq<Value>, idx: seq<int>)
    requires forall i :: 0 <= i < |items| ==> c.test(filter, items[i]).Ok?
  {
    && (forall k :: 0 <= k < |idx| ==> 0 <= idx[k] < |items|)
    && (forall k, l :: 0 <= k < l < |idx| ==> idx[k] < idx[l])
    && (forall i :: 0 <= i < |items| ==> (i in idx <==> Truthy(c.test(filter, items[i]).value)))
  }

  /** The filter pass succeeds iff no filter call raises, and otherwise
      fails with the error of the first call that raised. */
  lemma {:induction false} KeptFails(c: Console, filter: Value, items: seq<Value>)
    ensures Kept(c, filter, items).Ok? <==> forall i :: 0 <= i < |items| ==> c.test(filter, items[i]).Ok?
    ensures Kept(c, filter, items).Err? ==>
      exists i :: 0 <= i < |items| && c.test(filter, items[i]).Err?
        && (forall j :: 0 <= j < i ==> c.test(filter, items[j]).Ok?)
        && Kept(c, filter, items).error == c.test(filter, items[i]).error
  {
    if |items| > 0 {
      KeptFails(c, filter, items[1..]);
      forall i | 0 < i < |items| ensures items[i] == items[1..][i - 1] { }
      if c.test(filter, items[0]).Ok? && Kept(c, filter, items[1..]).Err? {
        var i :| 0 <= i < |items[1..]| && c.test(filter, items[1..][i]).Err?
          && (forall j :: 0 <= j < i ==> c.test(filter, items[1..][j]).Ok?)
          && Kept(c, filter, items[1..]).error == c.test(filter, items[1..][i]).error;
        assert c.test(filter, items[i + 1]).Err?;
      }
    }
  }

  /** The picks of `items[1..]`, moved up by one position, with position 0
      in front when the first instance passes, are the picks of `items`. */
  lemma ConsPicks(c: Console, filter: Value, items: seq<Value>, tail: seq<int>) returns (idx: seq<int>)
    requires |items| > 0 && forall i :: 0 <= i < |items| ==> c.test(filter, items[i]).Ok?
    requires PicksPassing(c, filter, items[1..], tail)
    ensures PicksPassing(c, filter, items, idx)
    ensures |idx| == |tail| + (if Truthy(c.test(filter, items[0]).value) then 1 else 0)
    ensures Truthy(c.test(filter, items[0]).value) ==> idx[0] == 0 && forall k :: 0 <= k < |tail| ==> idx[k + 1] == tail[k] + 1
    ensures !Truthy(c.test(filter, items[0]).value) ==> forall k :: 0 <= k < |tail| ==> idx[k] == tail[k] + 1
  {
    var shifted := seq(|tail|, k requires 0 <= k < |tail| => tail[k] + 1);
    idx := if Truthy(c.test(filter, items[0]).value) then [0] + shifted else shifted;
    forall i | 0 < i < |items|
      ensures i in idx <==> Truthy(c.test(filter, items[i]).value)
    {
      assert items[i] == items[1..][i - 1];
      if i - 1 in tail {
        var k :| 0 <= k < |tail| && tail[k] == i - 1;
        assert shifted[k] == i;
      }
      if i in shifted {
        var k :| 0 <= k < |shifted| && shifted[k] == i;
        assert tail[k] == i - 1;
      }
    }
  }

  /** A filter pass that succeeds keeps exactly the passing instances, in
      `list2` order. */
  lemma {:induction false} KeptPicks(c: Console, filter: Value, items: seq<Value>) returns (idx: seq<int>)
    requires Kept(c, filter, items).Ok?
    ensures forall i :: 0 <= i < |items| ==> c.test(filter, items[i]).Ok?
    ensures PicksPassing(c, filter, items, idx)
    ensures |idx| == |Kept(c, filter, items).value|
    ensures forall k :: 0 <= k < |idx| ==> Kept(c, filter, items).value[k] == items[idx[k]]
  {
    KeptFails(c, filter, items);
    if |items| == 0 {
      idx := [];
    } else {
      var tail := KeptPicks(c, filter, items[1..]);
      idx := ConsPicks(c, filter, items, tail);
      var rest := Kept(c, filter, items[1..]).value;
      forall k | 0 <= k < |tail| ensures rest[k] == items[tail[k] + 1] {
        assert items[1..][tail[k]] == items[tail[k] + 1];
      }
    }
  }

  /** The id pass succeeds iff every kept instance has an id; it then
      gives those ids in order, and otherwise the first lookup's error. */
  lemma {:induction false} IdsSpec(kept: seq<Value>)
    ensures Ids(kept).Ok? <==> forall k :: 0 <= k < |kept| ==> Subscript(kept[k], "id").Ok?
    ensures Ids(kept).Ok? ==> forall k :: 0 <= k < |kept| ==> Ids(kept).value[k] == Subscript(kept[k], "id").value
    ensures Ids(kept).Err? ==>
      exists k :: 0 <= k < |kept| && Subscript(kept[k], "id").Err?
        && Ids(kept).error == Subscript(kept[k], "id").error
  {
    if |kept| > 0 {
      IdsSpec(kept[1..]);
      if Subscript(kept[0], "id").Ok? && Ids(kept[1..]).Err? {
        var k :| 0 <= k < |kept[1..]| && Subscript(kept[1..][k], "id").Err?
          && Ids(kept[1..]).error == Subscript(kept[1..][k], "id").error;
        assert kept[k + 1] == kept[1..][k];
      }
      forall k | 0 < k < |kept| ensures kept[k] == kept[1..][k - 1] { }
    }
  }

  /** With a filter, the targets are the ids of the `list2` instances the
      filter passes, in order: the selection succeeds iff no filter call
      raises and every passing instance has an id. */
  lemma SelectedIdsSpec(c: Console, filter: Value, items: seq<Value>)
    ensures SelectedIds(c, filter, items).Ok? <==>
      && (forall i :: 0 <= i < |items| ==> c.test(filter, items[i]).Ok?)
      && (forall i :: 0 <= i < |items| && Truthy(c.test(filter, items[i]).value) ==> Subscript(items[i], "id").Ok?)
    ensures SelectedIds(c, filter, items).Ok? ==>
      exists idx :: PicksPassing(c, filter, items, idx)
        && |idx| == |SelectedIds(c, filter, items).value|
        && forall k :: 0 <= k < |idx| ==> SelectedIds(c, filter, items).value[k] == Subscript(items[idx[k]], "id").value
  {
    KeptFails(c, filter, items);
    var kept := Kept(c, filter, items);
    if kept.Ok? {
      var idx := KeptPicks(c, filter, items);
      IdsSpec(kept.value);
      if forall k :: 0 <= k < |kept.value| ==> Subscript(kept.value[k], "id").Ok? {
        assert SelectedIds(c, filter, items).Ok?;
      } else {
        var k :| 0 <= k < |kept.value| && Subscript(kept.value[k], "id").Err?;
        assert idx[k] in idx;
      }
      if SelectedIds(c, filter, items).Ok? {
        assert |idx| == |SelectedIds(c, filter, items).value|;
      }
    }
  }

  /** The filter pass comes first: a filter that raises on any instance
      makes the selection fail with the first such error, whatever the
      instances before it lack. */
  lemma FilterErrorFirst(c: Console, filter: Value, items: seq<Value>, i: nat)
    requires i < |items| && c.test(filter, items[i]).Err?
    requires forall j :: 0 <= j < i ==> c.test(filter, items[j]).Ok?
    ensures SelectedIds(c, filter, items) == Err(c.test(filter, items[i]).error)
  {
    KeptFails(c, filter, items);
    var w :| 0 <= w < |items| && c.test(filter, items[w]).Err?
      && (forall j :: 0 <= j < w ==> c.test(filter, items[j]).Ok?)
      && Kept(c, filter, items).error == c.test(filter, items[w]).error;
    assert w == i;
  }

  /** What a batch without any way to find its targets is refused with. */
  const NoTargetsMessage := "Either targets list, instances filter, or console_func must be provided"

  /** `batch_execute(console, command_name, targets, instances,
      console_func, *args, **kwargs)`; None is `Null`. */
  function BatchExecute(c: Console, cmd: string, targets: Value, instances: Value, consoleFunc: Value,
                        args: seq<Value>, kwargs: Kwargs): (r: Result<Outcome>)
    ensures r.Ok? && r.value.Custom? ==> !consoleFunc.Null?
  {
    if !consoleFunc.Null? then
      var v :- c.invoke(consoleFunc);
      Ok(Custom(v))
    else if cmd !in c.commands then Err(ValueError("Command '" + cmd + "' not found on console"))
    else
      var ts :- if instances.Null? then Ok(targets)
                else var ids :- SelectedIds(c, instances, c.list2); Ok(List(ids));
      if ts.Null? then Err(ValueError(NoTargetsMessage))
      else
        var items :- Items(ts);
        Ok(Batch(Run(c, cmd, items, 0, args, kwargs)))
  }

  /** A custom function is used before anything else is looked at: the
      run is whatever it returns or raises. */
  lemma CustomFirst(c: Console, cmd: string, targets: Value, instances: Value, consoleFunc: Value,
                    args: seq<Value>, kwargs: Kwargs)
    requires !consoleFunc.Null?
    ensures c.invoke(consoleFunc).Ok? ==>
      BatchExecute(c, cmd, targets, instances, consoleFunc, args, kwargs) == Ok(Custom(c.invoke(consoleFunc).value))
    ensures c.invoke(consoleFunc).Err? ==>
      BatchExecute(c, cmd, targets, instances, consoleFunc, args, kwargs) == Err(c.invoke(consoleFunc).error)
  {
  }

  /** Otherwise an unknown command is refused next, and a call with
      neither targets nor a filter is refused after that. */
  lemma NothingToRun(c: Console, cmd: string, targets: Value, instances: Value, args: seq<Value>, kwargs: Kwargs)
    ensures cmd !in c.commands ==>
      BatchExecute(c, cmd, targets, instances, Null, args, kwargs) == Err(ValueError("Command '" + cmd + "' not found on console"))
    ensures cmd in c.commands && targets.Null? && instances.Null? ==>
      BatchExecute(c, cmd, targets, instances, Null, args, kwargs)
        == Err(ValueError(NoTargetsMessage))
  {
  }

  /** A target list runs the command on its integers and strings, in
      order, and returns what each call gave. */
  lemma ListResults(c: Console, cmd: string, ts: seq<Value>, args: seq<Value>, kwargs: Kwargs)
    requires cmd in c.commands
    ensures var r := BatchExecute(c, cmd, List(ts), Null, Null, args, kwargs);
      && r.Ok? && r.value.Batch?
      && |Results(r.value.events)| == |Callable(ts)|
      && forall j :: 0 <= j < |Callable(ts)| ==> Results(r.value.events)[j] == CallOn(c, cmd, Callable(ts)[j], args, kwargs)
  {
    RunResults(c, cmd, ts, 0, args, kwargs);
    assert ts[0..] == ts;
  }

  /** A filter replaces any target list: the run goes over the ids of the
      instances the filter keeps, in `list2` order. */
  lemma FilterWins(c: Console, cmd: string, targets: Value, filter: Value, args: seq<Value>, kwargs: Kwargs)
    requires cmd in c.commands && !filter.Null?
    requires SelectedIds(c, filter, c.list2).Ok?
    ensures BatchExecute(c, cmd, targets, filter, Null, args, kwargs)
         == Ok(Batch(Run(c, cmd, SelectedIds(c, filter, c.list2).value, 0, args, kwargs)))
  {
  }

  /** A filter that raises makes the whole call raise, before any command
      runs: the filter calls sit outside the per-target `try`. */
  lemma FilterRaises(c: Console, cmd: string, targets: Value, filter: Value, args: seq<Value>, kwargs: Kwargs, i: nat)
    requires cmd in c.commands && !filter.Null?
    requires i < |c.list2| && c.test(filter, c.list2[i]).Err?
    requires forall j :: 0 <= j < i ==> c.test(filter, c.list2[j]).Ok?
    ensures BatchExecute(c, cmd, targets, filter, Null, args, kwargs) == Err(c.test(filter, c.list2[i]).error)
  {
    FilterErrorFirst(c, filter, c.list2, i);
  }

  // -----------------------------------------------------------------------
  // The console mixin

  /** `_is_batch_call`: a list as first argument, or a filter or a custom
      function among the keywords. */
  predicate IsBatchCall(args: seq<Value>, kwargs: Kwargs) {
    (|args| > 0 && args[0].List?) || "instances" in ODict.Keys(kwargs) || "console_func" in ODict.Keys(kwargs)
  }

  /** `batch_execute`'s own parameter names, which `**kwargs` must not
      repeat. */
  const Parameters: set<string> := {"console", "command_name", "targets", "instances", "console_func"}

  /** What `_execute_batch` unpacks from a call: the target list (the first
      argument when it is a list), the filter, the custom function, and the
      arguments and keywords left over. */
  datatype Unpacked = Unpacked(targets: Value, instances: Value, consoleFunc: Value, rest: seq<Value>, kwargs: Kwargs)

  function Unpack(args: seq<Value>, kwargs: Kwargs): (u: Unpacked)
    ensures "instances" !in ODict.Keys(u.kwargs) && "console_func" !in ODict.Keys(u.kwargs)
    ensures |args| > 0 && args[0].List? ==> u.targets == args[0] && u.rest == args[1..]
    ensures !(|args| > 0 && args[0].List?) ==> u.targets == Null && u.rest == args
  {
    var instances := ODict.Get(kwargs, "instances").GetOr(Null);
    var consoleFunc := ODict.Get(kwargs, "console_func").GetOr(Null);
    var kw := ODict.Remove(ODict.Remove(kwargs, "instances"), "console_func");
    ODict.RemoveGet(kwargs, "instances", "console_func");
    ODict.RemoveGet(ODict.Remove(kwargs, "instances"), "console_func", "instances");
    if |args| > 0 && args[0].List? then Unpacked(args[0], instances, consoleFunc, args[1..], kw)
    else Unpacked(Null, instances, consoleFunc, args, kw)
  }

  /** `_execute_batch` as written: it passes `console=self` by keyword and
      then spreads the leftover arguments positionally, so any leftover
      argument lands on `console` a second time. */
  function ExecuteBatchAsWritten(c: Console, cmd: string, args: seq<Value>, kwargs: Kwargs): (r: Result<Outcome>)
  {
    var u := Unpack(args, kwargs);
    if |u.rest| > 0 then Err(TypeError("batch_execute() got multiple values for argument 'console'"))
    else if exists k :: k in Parameters && k in ODict.Keys(u.kwargs) then
      Err(TypeError("batch_execute() got multiple values for a keyword argument"))
    else BatchExecute(c, cmd, u.targets, u.instances, u.consoleFunc, [], u.kwargs)
  }

  /** A batch call with a target list and one more positional argument
      fails before any command runs. */
  lemma ExtraArgumentRefused(c: Console, cmd: string, ts: seq<Value>, extra: Value, kwargs: Kwargs)
    ensures ExecuteBatchAsWritten(c, cmd, [List(ts), extra], kwargs).Err?
    ensures ExecuteBatchAsWritten(c, cmd, [List(ts), extra], kwargs).error.TypeError?
  {
    assert [List(ts), extra][1..] == [extra];
  }

  /** `_execute_batch` as evidently intended: the leftover arguments go on
      to every per-target call. */
  function ExecuteBatch(c: Console, cmd: string, args: seq<Value>, kwargs: Kwargs): (r: Result<Outcome>)
  {
    var u := Unpack(args, kwargs);
    if exists k :: k in Parameters && k in ODict.Keys(u.kwargs) then
      Err(TypeError("batch_execute() got multiple values for a keyword argument"))
    else BatchExecute(c, cmd, u.targets, u.instances, u.consoleFunc, u.rest, u.kwargs)
  }

  /** With the correction, the leftover arguments reach every call: a
      target list followed by more arguments runs each target with those
      arguments; without leftovers it agrees with the code as written. */
  lemma ForwardedArguments(c: Console, cmd: string, ts: seq<Value>, more: seq<Value>, kwargs: Kwargs)
    requires cmd in c.commands
    requires "instances" !in ODict.Keys(kwargs) && "console_func" !in ODict.Keys(kwargs)
    requires forall k :: k in Parameters ==> k !in ODict.Keys(kwargs)
    ensures var r := ExecuteBatch(c, cmd, [List(ts)] + more, kwargs);
      && r.Ok? && r.value.Batch?
      && |Results(r.value.events)| == |Callable(ts)|
      && forall j :: 0 <= j < |Callable(ts)| ==> Results(r.value.events)[j] == CallOn(c, cmd, Callable(ts)[j], more, kwargs)
    ensures more == [] ==> ExecuteBatchAsWritten(c, cmd, [List(ts)], kwargs) == ExecuteBatch(c, cmd, [List(ts)], kwargs)
  {
    var args := [List(ts)] + more;
    assert args[0] == List(ts) && args[1..] == more;
    var u := Unpack(args, kwargs);
    assert u.kwargs == kwargs;
    ListResults(c, cmd, ts, more, kwargs);
  }
}

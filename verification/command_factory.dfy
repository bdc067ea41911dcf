/** The command line's command builders: how a console method becomes a
    command, which call each kind of command makes on the console, and what
    it prints. A console method is a function from the call it receives to
    what it returns or raises. */
module CommandFactory {
  import opened Wrappers
  import Text
  import ODict
  import opened Py
  import BatchUtils

  type Kwargs = ODict.Dict<string, Value>

  /** A call on a console method: positional and keyword arguments. */
  datatype Call = Call(args: seq<Value>, kwargs: Kwargs)

  /** What running a command comes to: a usage error before any console
      call, or the call made and then either what it raised or the lines
      printed. */
  datatype Outcome =
    | Usage(message: string)
    | Raised(call: Call, error: Error)
    | Done(call: Call, output: seq<string>)

  // -----------------------------------------------------------------------
  // Command names

  /** The command's name: underscores become dashes, letters lower case. */
  function CommandName(methodName: string): (r: string)
    ensures |r| == |methodName|
  {
    Text.Lower(Text.ReplaceChar(methodName, '_', '-'))
  }

  /** A command name has no underscore and no upper-case letter; every
      other character of the method name is kept, and naming a command
      name again changes nothing. */
  lemma CommandNameShape(methodName: string)
    ensures '_' !in CommandName(methodName)
    ensures forall i :: 0 <= i < |methodName| ==> !('A' <= CommandName(methodName)[i] <= 'Z')
    ensures forall i :: 0 <= i < |methodName| && methodName[i] != '_' && !('A' <= methodName[i] <= 'Z') ==>
      CommandName(methodName)[i] == methodName[i]
    ensures CommandName(CommandName(methodName)) == CommandName(methodName)
  {
    var r := CommandName(methodName);
    forall i | 0 <= i < |r| ensures r[i] != '_' && !('A' <= r[i] <= 'Z') {
    }
    var rr := CommandName(r);
    assert forall i :: 0 <= i < |r| ==> rr[i] == r[i];
  }

  // -----------------------------------------------------------------------
  // Simple commands

  /** What a simple command prints for the method's result: nothing for a
      falsy one, a string as is, a dictionary pretty-printed, a list one
      item per line, and nothing for any other value. */
  function SimpleOutput(result: Value): (lines: seq<string>)
  {
    if !Truthy(result) then []
    else match result
      case Str(s) => [s]
      case Dict(_) => [Show(result)]
      case List(items) => seq(|items|, i requires 0 <= i < |items| => Show(items[i]))
      case _ => []
  }

  /** A falsy result prints nothing; a non-empty list prints a line per
      item; a non-empty string prints itself; any result that is not a
      string, dictionary or list prints nothing. */
  lemma SimpleOutputLines(result: Value)
    ensures !Truthy(result) ==> SimpleOutput(result) == []
    ensures result.List? ==> |SimpleOutput(result)| == |result.items|
    ensures result.Str? && result.s != [] ==> SimpleOutput(result) == [result.s]
    ensures SimpleOutput(result) != [] ==> Truthy(result) && (result.Str? || result.Dict? || result.List?)
  {
  }

  /** A simple command calls the method without arguments. */
  function Simple(invoke: Call -> Result<Value>): (o: Outcome)
    ensures !o.Usage?
    ensures o.call == Call([], [])
  {
    var call := Call([], []);
    match invoke(call)
    case Err(e) => Raised(call, e)
    case Ok(result) => Done(call, SimpleOutput(result))
  }

  // -----------------------------------------------------------------------
  // The instance options

  /** `name` when it is truthy, otherwise `index` when it is given, put into
      `kw`; `None` when neither is. */
  function Target(kw: Kwargs, name: Value, index: Value): Option<Kwargs> {
    if Truthy(name) then Some(ODict.Put(kw, "name", name))
    else if !index.Null? then Some(ODict.Put(kw, "index", index))
    else None
  }

  /** A truthy name is passed and the index is not touched; otherwise a
      given index is passed; neither means no target. Every other keyword
      is kept. */
  lemma TargetChoice(kw: Kwargs, name: Value, index: Value, k: string)
    ensures Target(kw, name, index).None? <==> !Truthy(name) && index.Null?
    ensures Truthy(name) ==>
      && ODict.Get(Target(kw, name, index).value, "name") == Some(name)
      && ODict.Get(Target(kw, name, index).value, "index") == ODict.Get(kw, "index")
    ensures !Truthy(name) && !index.Null? ==>
      && ODict.Get(Target(kw, name, index).value, "index") == Some(index)
      && ODict.Get(Target(kw, name, index).value, "name") == ODict.Get(kw, "name")
    ensures Target(kw, name, index).Some? && k != "name" && k != "index" ==>
      ODict.Get(Target(kw, name, index).value, k) == ODict.Get(kw, k)
  {
    ODict.PutGet(kw, "name", name, k);
    ODict.PutGet(kw, "name", name, "index");
    ODict.PutGet(kw, "index", index, k);
    ODict.PutGet(kw, "index", index, "name");
  }

  // -----------------------------------------------------------------------
  // Query commands

  /** A query command: the target, when the command takes one, then the
      extra options; a truthy result is printed. */
  function Query(invoke: Call -> Result<Value>, hasTarget: bool, name: Value, index: Value, kwargs: Kwargs)
    : (o: Outcome)
    ensures !o.Usage?
    ensures o.call.args == []
  {
    var target := if hasTarget then Target([], name, index).GetOr([]) else [];
    var call := Call([], ODict.PutAll(target, kwargs));
    match invoke(call)
    case Err(e) => Raised(call, e)
    case Ok(result) => Done(call, if Truthy(result) then [Show(result)] else [])
  }

  /** A query never refuses: the extra options reach the method unchanged,
      and the target goes with them only when the command takes one. */
  lemma QueryCall(invoke: Call -> Result<Value>, hasTarget: bool, name: Value, index: Value, kwargs: Kwargs, k: string)
    requires ODict.UniqueKeys(kwargs)
    ensures var kw := Query(invoke, hasTarget, name, index, kwargs).call.kwargs;
      && (k in ODict.Keys(kwargs) ==> ODict.Get(kw, k) == ODict.Get(kwargs, k))
      && (!hasTarget && k !in ODict.Keys(kwargs) ==> ODict.Get(kw, k).None?)
      && (hasTarget && Truthy(name) && "name" !in ODict.Keys(kwargs) ==> ODict.Get(kw, "name") == Some(name))
      && (hasTarget && !Truthy(name) && !index.Null? && "index" !in ODict.Keys(kwargs) ==>
            ODict.Get(kw, "index") == Some(index))
  {
    var target := if hasTarget then Target([], name, index).GetOr([]) else [];
    ODict.PutAllGet(target, kwargs, k);
    ODict.PutAllGet(target, kwargs, "name");
    ODict.PutAllGet(target, kwargs, "index");
    TargetChoice([], name, index, k);
  }

  // -----------------------------------------------------------------------
  // Batchable commands

  /** A text option: `None` when it is not given. */
  function OptionValue(o: Option<string>): Value {
    if o.None? then Null else Str(o.value)
  }

  /** An option's text, when it is given and not empty. */
  predicate Filled(o: Option<string>) {
    o.Some? && o.value != []
  }

  /** What the lambda option does: `parsed` and `evaluated` are what
      parsing and evaluating its text gave. */
  datatype Lambda = Lambda(parsed: BatchUtils.Parsed, evaluated: Result<Value>)

  /** A batchable command. The four instance options must not be combined;
      a non-empty batch string is split into targets, passed as one list;
      otherwise a non-empty lambda is checked and passed as `instances`,
      with a value or syntax error, from the check or from the call, shown
      as a usage error; otherwise one instance is addressed by name or
      index. */
  function Batchable(
    invoke: Call -> Result<Value>, methodName: string, name: Value, index: Value,
    batchString: Option<string>, batchLambda: Option<string>, lambda: Lambda, kwargs: Kwargs)
    : (o: Outcome)
  {
    match BatchUtils.ValidateExclusivity(name, index, OptionValue(batchString), OptionValue(batchLambda))
    case Err(e) => Usage(e.Message())
    case Ok(_) =>
      if Filled(batchString) then
        var call := Call([List(BatchUtils.ParseBatchString(batchString.value))], kwargs);
        BatchResult(call, invoke(call))
      else if Filled(batchLambda) then
        match BatchUtils.SafeEvalLambda(lambda.parsed, lambda.evaluated)
        case Err(e) => Usage("Invalid lambda expression: " + e.Message())
        case Ok(f) =>
          var call := Call([], [("instances", f)] + kwargs);
          if "instances" in ODict.Keys(kwargs) then
            Raised(call, TypeError(methodName + "() got multiple values for keyword argument 'instances'"))
          else
            match invoke(call)
            case Err(e) =>
              if e.ValueError? || e.SyntaxError? then Usage("Invalid lambda expression: " + e.Message())
              else Raised(call, e)
            case Ok(result) => Done(call, BatchLines(result))
      else Single(invoke, methodName, name, index, kwargs)
  }

  /** Single-target mode: the instance named by `--name` or `--index`. */
  function Single(invoke: Call -> Result<Value>, methodName: string, name: Value, index: Value, kwargs: Kwargs)
    : (o: Outcome)
  {
    match Target(kwargs, name, index)
    case None =>
      Usage(SingleUsage(methodName))
    case Some(kw) =>
      var call := Call([], kw);
      match invoke(call)
      case Err(e) => Raised(call, e)
      case Ok(result) => Done(call, if Truthy(result) then [Show(result)] else [])
  }

  /** The usage error of a batchable command given no instance option. */
  function SingleUsage(methodName: string): string {
    "Command '" + CommandName(methodName)
    + "' requires one of: --name, --index, -bs/--batch-string, or -bl/--batch-lambda"
  }

  function BatchLines(result: Value): seq<string> {
    if Truthy(result) then ["Batch execution completed. Results: " + Show(result)] else []
  }

  function BatchResult(call: Call, r: Result<Value>): Outcome {
    match r
    case Err(e) => Raised(call, e)
    case Ok(result) => Done(call, BatchLines(result))
  }

  /** Combining instance options is a usage error raised before the console
      is called, with the validation's message. */
  lemma BatchableRefusesCombinations(
    invoke: Call -> Result<Value>, methodName: string, name: Value, index: Value,
    batchString: Option<string>, batchLambda: Option<string>, lambda: Lambda, kwargs: Kwargs)
    ensures var given := BatchUtils.Given(name) + BatchUtils.Given(index)
                         + BatchUtils.Given(OptionValue(batchString)) + BatchUtils.Given(OptionValue(batchLambda));
      given > 1 ==>
        Batchable(invoke, methodName, name, index, batchString, batchLambda, lambda, kwargs).Usage?
    ensures !name.Null? && !index.Null? ==>
      Batchable(invoke, methodName, name, index, batchString, batchLambda, lambda, kwargs)
        == Usage(BatchUtils.BothSingle)
  {
    BatchUtils.ExclusivityExactly(name, index, OptionValue(batchString), OptionValue(batchLambda));
  }

  /** A non-empty batch string alone calls the method once, with the parsed
      targets as its one positional argument and the other options as
      keywords. */
  lemma BatchStringCall(
    invoke: Call -> Result<Value>, methodName: string, s: string, lambda: Lambda, kwargs: Kwargs)
    requires s != []
    ensures var o := Batchable(invoke, methodName, Null, Null, Some(s), None, lambda, kwargs);
      && !o.Usage?
      && o.call == Call([List(BatchUtils.ParseBatchString(s))], kwargs)
      && (invoke(o.call).Ok? ==> o.Done? && (o.output != [] <==> Truthy(invoke(o.call).value)))
  {
  }

  /** A lambda is refused as a usage error when it does not parse, is not a
      lambda or fails to evaluate, and so is a value or syntax error the
      method raises; it is passed first, as `instances`. */
  lemma BatchLambdaCall(
    invoke: Call -> Result<Value>, methodName: string, text: string, lambda: Lambda, kwargs: Kwargs)
    requires text != [] && "instances" !in ODict.Keys(kwargs)
    ensures var o := Batchable(invoke, methodName, Null, Null, None, Some(text), lambda, kwargs);
      && (BatchUtils.SafeEvalLambda(lambda.parsed, lambda.evaluated).Err? ==> o.Usage?)
      && (BatchUtils.SafeEvalLambda(lambda.parsed, lambda.evaluated).Ok? ==>
            var call := Call([], [("instances", lambda.evaluated.value)] + kwargs);
            && (o.Usage? <==> invoke(call).Err? && (invoke(call).error.ValueError? || invoke(call).error.SyntaxError?))
            && (!o.Usage? ==> o.call == call))
  {
  }

  /** Without a batch option, the command needs a truthy name or a given
      index; the name wins when truthy. An empty batch string counts as
      given for the validation but not as a batch. */
  lemma BatchableSingle(
    invoke: Call -> Result<Value>, methodName: string, name: Value, index: Value,
    batchString: Option<string>, lambda: Lambda, kwargs: Kwargs)
    requires batchString == None || batchString == Some([])
    requires batchString == None || (name.Null? && index.Null?)
    requires name.Null? || index.Null?
    ensures var o := Batchable(invoke, methodName, name, index, batchString, None, lambda, kwargs);
      && (o.Usage? <==> !Truthy(name) && index.Null?)
      && (o.Usage? ==> o.message == SingleUsage(methodName))
      && (Truthy(name) ==> ODict.Get(o.call.kwargs, "name") == Some(name))
      && (!Truthy(name) && !index.Null? ==> ODict.Get(o.call.kwargs, "index") == Some(index))
  {
    assert BatchUtils.ValidateExclusivity(name, index, OptionValue(batchString), OptionValue(None)).Ok? by {
      BatchUtils.ExclusivityExactly(name, index, OptionValue(batchString), Null);
    }
    FallsToSingle(invoke, methodName, name, index, batchString, None, lambda, kwargs);
    SingleTarget(invoke, methodName, name, index, kwargs);
  }

  /** Options that pass validation with no filled batch option select
      single-target mode. */
  lemma FallsToSingle(
    invoke: Call -> Result<Value>, methodName: string, name: Value, index: Value,
    batchString: Option<string>, batchLambda: Option<string>, lambda: Lambda, kwargs: Kwargs)
    requires BatchUtils.ValidateExclusivity(name, index, OptionValue(batchString), OptionValue(batchLambda)).Ok?
    requires !Filled(batchString) && !Filled(batchLambda)
    ensures Batchable(invoke, methodName, name, index, batchString, batchLambda, lambda, kwargs)
         == Single(invoke, methodName, name, index, kwargs)
  {
  }

  lemma SingleTarget(invoke: Call -> Result<Value>, methodName: string, name: Value, index: Value, kwargs: Kwargs)
    ensures var o := Single(invoke, methodName, name, index, kwargs);
      && (o.Usage? <==> !Truthy(name) && index.Null?)
      && (o.Usage? ==> o.message == SingleUsage(methodName))
      && (Truthy(name) ==> ODict.Get(o.call.kwargs, "name") == Some(name))
      && (!Truthy(name) && !index.Null? ==> ODict.Get(o.call.kwargs, "index") == Some(index))
  {
    TargetChoice(kwargs, name, index, "name");
  }

  // -----------------------------------------------------------------------
  // Exec commands

  /** The commands that address no instance. */
  predicate Untargeted(methodName: string) {
    methodName == "add" || methodName == "globalsetting"
  }

  /** The mark the success line starts with. The source holds a check
      mark encoded twice, so its text is these three characters rather
      than U+2713. */
  const SuccessMark := "\U{00e2}\U{0153}\U{201c}"

  /** An exec command: `add` and `globalsetting` take their options alone;
      every other command needs a truthy name or a given index. A falsy
      result is reported as success. */
  function Exec(invoke: Call -> Result<Value>, methodName: string, name: Value, index: Value, kwargs: Kwargs)
    : (o: Outcome)
  {
    var target := if Untargeted(methodName) then Some(kwargs) else Target(kwargs, name, index);
    match target
    case None => Usage("Command '" + CommandName(methodName) + "' requires either --name or --index")
    case Some(kw) =>
      var call := Call([], kw);
      match invoke(call)
      case Err(e) => Raised(call, e)
      case Ok(result) =>
        Done(call, [if Truthy(result) then Show(result)
                    else SuccessMark + " Command '" + CommandName(methodName) + "' executed successfully"])
  }

  /** `add` and `globalsetting` receive exactly the options given, never a
      name or index they were not given; every other exec command is
      refused exactly when it has no target. A completed command always
      prints one line. */
  lemma ExecTarget(invoke: Call -> Result<Value>, methodName: string, name: Value, index: Value, kwargs: Kwargs)
    ensures var o := Exec(invoke, methodName, name, index, kwargs);
      && (Untargeted(methodName) ==> !o.Usage? && o.call.kwargs == kwargs)
      && (!Untargeted(methodName) ==> (o.Usage? <==> !Truthy(name) && index.Null?))
      && (!Untargeted(methodName) && Truthy(name) ==> ODict.Get(o.call.kwargs, "name") == Some(name))
      && (!Untargeted(methodName) && !Truthy(name) && !index.Null? ==> ODict.Get(o.call.kwargs, "index") == Some(index))
      && (o.Done? ==> |o.output| == 1)
  {
    TargetChoice(kwargs, name, index, "name");
  }
}

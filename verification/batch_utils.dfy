/** The command line's batch helpers: reading a comma-separated target list,
    guarding a lambda filter, and keeping single-target and batch options
    apart. */
module BatchUtils {
  import opened Wrappers
  import Text
  import opened Py

  /** One comma-separated item: stripped, and a number when it is all
      digits. */
  function ParseItem(piece: string): (v: Value)
    ensures v.Int? || v.Str?
    ensures v.Str? ==> v.s == Text.Strip(piece) && !Text.IsDigits(v.s)
  {
    var t := Text.Strip(piece);
    if Text.IsDigits(t) then Int(Text.DigitsValue(t)) else Str(t)
  }

  /** `parse_batch_string`: one target per comma-separated piece, in order.
      An empty string gives one empty name. */
  function ParseBatchString(s: string): (r: seq<Value>)
    ensures |r| == |Text.Split(s, ',')|
    ensures forall i :: 0 <= i < |r| ==> r[i] == ParseItem(Text.Split(s, ',')[i])
  {
    MapAllEach(ParseItem, Text.Split(s, ','));
    MapAll(ParseItem, Text.Split(s, ','))
  }

  /** `[f(x) for x in xs]` */
  function MapAll<A, B>(f: A -> B, xs: seq<A>): seq<B> {
    if |xs| == 0 then [] else [f(xs[0])] + MapAll(f, xs[1..])
  }

  /** Each element is mapped on its own. */
  lemma {:induction false} MapAllEach<A, B>(f: A -> B, xs: seq<A>)
    ensures |MapAll(f, xs)| == |xs|
    ensures forall i :: 0 <= i < |xs| ==> MapAll(f, xs)[i] == f(xs[i])
  {
    if |xs| > 0 {
      MapAllEach(f, xs[1..]);
      var r := MapAll(f, xs);
      assert r == [f(xs[0])] + MapAll(f, xs[1..]);
      forall i | 1 <= i < |xs|
        ensures r[i] == f(xs[i])
      {
        assert r[i] == MapAll(f, xs[1..])[i - 1];
        assert xs[1..][i - 1] == xs[i];
      }
    }
  }

  /** A number never has a sign and a name never has a comma, surrounding
      whitespace, or digits alone: those are the targets a batch string can
      express. */
  predicate Expressible(t: Value) {
    match t
    case Int(n) => n >= 0
    case Str(s) => ',' !in s && Text.Trimmed(s) && !Text.IsDigits(s)
    case _ => false
  }

  /** How a target is written in a batch string. */
  function Render(t: Value): string
    requires Expressible(t)
  {
    if t.Int? then Text.NatToString(t.i) else t.s
  }

  lemma RenderItem(t: Value)
    requires Expressible(t)
    ensures ',' !in Render(t)
    ensures ParseItem(Render(t)) == t
  {
    if t.Int? {
      var s := Text.NatToString(t.i);
      Text.DigitsOfNat(t.i);
      assert Text.Trimmed(s) by {
        assert Text.IsDigit(s[0]) && Text.IsDigit(s[|s| - 1]);
      }
      Text.StripTrimmed(s);
    } else {
      Text.StripTrimmed(t.s);
    }
  }

  /** Writing targets as a comma-separated list and parsing it gives the
      same targets back. */
  lemma ParseRendered(ts: seq<Value>)
    requires |ts| >= 1
    requires forall i :: 0 <= i < |ts| ==> Expressible(ts[i])
    ensures ParseBatchString(Text.Join(seq(|ts|, i requires 0 <= i < |ts| => Render(ts[i])), ',')) == ts
  {
    var parts := seq(|ts|, i requires 0 <= i < |ts| => Render(ts[i]));
    forall k | 0 <= k < |parts|
      ensures ',' !in parts[k] && ParseItem(parts[k]) == ts[k]
    {
      RenderItem(ts[k]);
    }
    Text.SplitJoin(parts, ',');
  }

  /** Whitespace around the pieces is dropped and digit pieces become
      numbers: `"0, test, 5"` is `[0, "test", 5]`. */
  lemma MixedExample()
    ensures ParseBatchString("0, test, 5") == [Int(0), Str("test"), Int(5)]
  {
    MixedPieces();
    ThreePieces("0, test, 5", "0", " test", " 5");
    ZeroPiece();
    TestPiece();
    FivePiece();
  }

  lemma ThreePieces(s: string, a: string, b: string, c: string)
    requires Text.Split(s, ',') == [a, b, c]
    ensures ParseBatchString(s) == [ParseItem(a), ParseItem(b), ParseItem(c)]
  {
    assert [a, b, c][1..] == [b, c] && [b, c][1..] == [c];
  }

  lemma MixedPieces()
    ensures Text.Split("0, test, 5", ',') == ["0", " test", " 5"]
  {
    var parts := ["0", " test", " 5"];
    Text.JoinThree("0", " test", " 5", ',');
    assert "0" + [','] + " test" + [','] + " 5" == "0, test, 5";
    assert forall k :: 0 <= k < |parts| ==> ',' !in parts[k];
    Text.SplitJoin(parts, ',');
  }

  lemma ZeroPiece()
    ensures ParseItem("0") == Int(0)
  {
    assert "0" == ['0'];
    DigitPiece('0');
  }

  lemma TestPiece()
    ensures ParseItem(" test") == Str("test")
  {
    assert " test" == [' '] + "test";
    assert !Text.IsSpace('t') && !Text.IsDigit('t');
    SpacedName(' ', "test");
  }

  lemma FivePiece()
    ensures ParseItem(" 5") == Int(5)
  {
    assert " 5" == [' '] + ['5'];
    SpacedDigit(' ', '5');
  }

  /** One digit is that number. */
  lemma DigitPiece(d: char)
    requires Text.IsDigit(d)
    ensures ParseItem([d]) == Int(d as int - '0' as int)
  {
    assert !Text.IsSpace(d);
    assert Text.StripLeft([d]) == [d];
    assert Text.StripRight([d]) == [d];
    assert [d][..0] == [];
    assert Text.DigitsValue([]) == 0;
  }

  /** A digit after a space is that number. */
  lemma SpacedDigit(sp: char, d: char)
    requires Text.IsSpace(sp) && Text.IsDigit(d)
    ensures ParseItem([sp] + [d]) == Int(d as int - '0' as int)
  {
    Text.StripLeadingSpace(sp, [d]);
    SameStrip([sp] + [d], [d]);
    DigitPiece(d);
  }

  lemma SameStrip(p: string, q: string)
    requires Text.Strip(p) == Text.Strip(q)
    ensures ParseItem(p) == ParseItem(q)
  {
  }

  /** A name after a space is that name. */
  lemma SpacedName(sp: char, t: string)
    requires Text.IsSpace(sp) && t != []
    requires !Text.IsSpace(t[0]) && !Text.IsSpace(t[|t| - 1]) && !Text.IsDigit(t[0])
    ensures ParseItem([sp] + t) == Str(t)
  {
    Text.StripLeadingSpace(sp, t);
    Text.StripTrimmed(t);
  }

  /** The outcome of `ast.parse(text, mode='eval')`. */
  datatype Parsed = Unparsable(reason: string) | Expression(isLambda: bool, dump: string)

  /** `safe_eval_lambda`: only a lambda expression is evaluated. `parsed` is
      what parsing gave and `evaluated` what `eval` gave. */
  function SafeEvalLambda(parsed: Parsed, evaluated: Result<Value>): (r: Result<Value>)
    ensures r.Ok? <==> parsed.Expression? && parsed.isLambda && evaluated.Ok?
    ensures r.Ok? ==> r == evaluated
    ensures r.Err? ==> r.error.SyntaxError? || r.error.ValueError?
    ensures r.Err? && r.error.SyntaxError? <==> parsed.Unparsable?
  {
    match parsed
    case Unparsable(reason) => Err(SyntaxError("Invalid lambda syntax: " + reason))
    case Expression(isLambda, dump) =>
      if !isLambda then Err(ValueError("Only lambda expressions are allowed. Got: " + dump))
      else if evaluated.Err? then Err(ValueError("Failed to evaluate lambda: " + evaluated.error.Message()))
      else evaluated
  }

  /** `x is not None` as 0 or 1. */
  function Given(v: Value): nat {
    if v.Null? then 0 else 1
  }

  /** The messages of the three rules. */
  const BothSingle := "Cannot specify both --name and --index"
  const BothBatch := "Cannot specify both -bs/--batch-string and -bl/--batch-lambda"
  const MixedOptions := "Cannot mix single-target options (--name, --index) with batch options (-bs, -bl)"

  /** `validate_batch_exclusivity`: the first rule broken is reported. */
  function ValidateExclusivity(name: Value, index: Value, batchString: Value, batchLambda: Value)
    : (r: Result<()>)
    ensures r.Err? ==> r.error.ValueError?
  {
    var single := Given(name) + Given(index);
    var batch := Given(batchString) + Given(batchLambda);
    if single > 1 then Err(ValueError(BothSingle))
    else if batch > 1 then Err(ValueError(BothBatch))
    else if single > 0 && batch > 0 then
      Err(ValueError(MixedOptions))
    else Ok(())
  }

  /** The options pass exactly when at most one of the four is given, and a
      name given with an index is always reported as such, whatever else is
      given. */
  lemma ExclusivityExactly(name: Value, index: Value, batchString: Value, batchLambda: Value)
    ensures ValidateExclusivity(name, index, batchString, batchLambda).Ok? <==>
      Given(name) + Given(index) + Given(batchString) + Given(batchLambda) <= 1
    ensures !name.Null? && !index.Null? ==>
      ValidateExclusivity(name, index, batchString, batchLambda) == Err(ValueError(BothSingle))
    ensures !batchString.Null? && !batchLambda.Null? && name.Null? && index.Null? ==>
      ValidateExclusivity(name, index, batchString, batchLambda)
        == Err(ValueError(BothBatch))
  {
    ExclusivityPasses(name, index, batchString, batchLambda);
  }

  lemma ExclusivityPasses(name: Value, index: Value, batchString: Value, batchLambda: Value)
    ensures ValidateExclusivity(name, index, batchString, batchLambda).Ok? <==>
      Given(name) + Given(index) + Given(batchString) + Given(batchLambda) <= 1
  {
    var single := Given(name) + Given(index);
    var batch := Given(batchString) + Given(batchLambda);
    CountRule(single, batch);
    assert ValidateExclusivity(name, index, batchString, batchLambda).Ok? <==>
      !(single > 1 || batch > 1 || (single > 0 && batch > 0));
  }

  /** Two groups of options clash exactly when more than one option is
      given in all. */
  lemma CountRule(single: nat, batch: nat)
    ensures (single > 1 || batch > 1 || (single > 0 && batch > 0)) <==> single + batch > 1
  {
  }
}

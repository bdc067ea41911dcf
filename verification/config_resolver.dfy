/** How the runner turns configuration files into the configuration an
    instance runs with: the global table overlaid by the instance file, then
    `template::NAME` strings replaced by the template loaded from
    `NAME.template.toml`, at the top level and one level down. */
module ConfigResolver {
  import opened Wrappers
  import ODict
  import Text
  import opened Py

  /** A parsed TOML document. */
  type Config = ODict.Dict<string, Value>

  /** `LDXRunner.templates`: template name to its parsed document. */
  type Templates = ODict.Dict<string, Value>

  const Marker: string := "template::"
  const TemplateSuffix: string := ".template"

  // -----------------------------------------------------------------------
  // Merging

  /** `merged = dict(global); merged.update(instance)`. */
  function Merge(global: Config, inst: Config): (r: Config)
    ensures |r| >= |global|
    decreases |inst|
  {
    if |inst| == 0 then global
    else Merge(ODict.Put(global, inst[0].0, inst[0].1), inst[1..])
  }

  /** The merge is shallow and the instance wins: a key's value is the last
      one the instance gives it. */
  lemma {:induction false} MergeLast(global: Config, inst: Config, i: nat)
    requires i < |inst|
    requires forall j :: i < j < |inst| ==> inst[j].0 != inst[i].0
    ensures ODict.Get(Merge(global, inst), inst[i].0) == Some(inst[i].1)
    decreases |inst|
  {
    var g' := ODict.Put(global, inst[0].0, inst[0].1);
    if i == 0 {
      ODict.PutGet(global, inst[0].0, inst[0].1, inst[0].0);
      assert inst[0].0 !in ODict.Keys(inst[1..]);
      MergeKeep(g', inst[1..], inst[0].0);
    } else {
      MergeLast(g', inst[1..], i - 1);
    }
  }

  /** A key the instance does not mention keeps its global value. */
  lemma {:induction false} MergeKeep(global: Config, inst: Config, k: string)
    requires k !in ODict.Keys(inst)
    ensures ODict.Get(Merge(global, inst), k) == ODict.Get(global, k)
    decreases |inst|
  {
    if |inst| > 0 {
      ODict.PutGet(global, inst[0].0, inst[0].1, k);
      MergeKeep(ODict.Put(global, inst[0].0, inst[0].1), inst[1..], k);
    }
  }

  /** The merged keys are those of both tables. */
  lemma {:induction false} MergeKeys(global: Config, inst: Config)
    ensures ODict.Keys(Merge(global, inst)) == ODict.Keys(global) + ODict.Keys(inst)
    decreases |inst|
  {
    if |inst| > 0 {
      ODict.PutGet(global, inst[0].0, inst[0].1, inst[0].0);
      MergeKeys(ODict.Put(global, inst[0].0, inst[0].1), inst[1..]);
    }
  }

  /** The global keys come first, in their own order. */
  lemma {:induction false} MergeOrder(global: Config, inst: Config)
    ensures ODict.KeySeq(Merge(global, inst))[..|global|] == ODict.KeySeq(global)
    decreases |inst|
  {
    if |inst| > 0 {
      var k := inst[0].0;
      var g' := ODict.Put(global, k, inst[0].1);
      ODict.PutGet(global, k, inst[0].1, k);
      MergeOrder(g', inst[1..]);
      assert ODict.KeySeq(g')[..|global|] == ODict.KeySeq(global) by {
        if k !in ODict.Keys(global) {
          assert g'[..|global|] == global;
        }
      }
      assert ODict.KeySeq(Merge(g', inst[1..]))[..|global|]
          == ODict.KeySeq(Merge(g', inst[1..]))[..|g'|][..|global|];
    }
  }

  /** Keys stay distinct. */
  lemma {:induction false} MergeUnique(global: Config, inst: Config)
    requires ODict.UniqueKeys(global)
    ensures ODict.UniqueKeys(Merge(global, inst))
    decreases |inst|
  {
    if |inst| > 0 {
      ODict.PutUnique(global, inst[0].0, inst[0].1);
      MergeUnique(ODict.Put(global, inst[0].0, inst[0].1), inst[1..]);
    }
  }

  // -----------------------------------------------------------------------
  // Template references

  /** `s.split("template::")[1].strip()` for a string starting with the
      marker: the text up to the next marker, without surrounding
      whitespace. None when `s` does not start with the marker. */
  function TemplateRef(s: string): (r: Option<string>)
    ensures r.Some? <==> Text.StartsWith(s, Marker)
    ensures r.Some? ==> Text.Trimmed(r.value)
  {
    if Text.StartsWith(s, Marker) then
      var rest := s[|Marker|..];
      var i := Text.Find(rest, Marker);
      var name := Text.Strip(if i == -1 then rest else rest[..i]);
      Text.StripResult(if i == -1 then rest else rest[..i]);
      Some(name)
    else None
  }

  /** A reference written `template::` + a trimmed name that holds no
      marker names exactly that template. */
  lemma RefOfName(n: string)
    requires Text.Trimmed(n) && !Text.Contains(n, Marker)
    ensures TemplateRef(Marker + n) == Some(n)
  {
    var s := Marker + n;
    assert s[..|Marker|] == Marker;
    assert s[|Marker|..] == n;
    Text.StripTrimmed(n);
  }

  /** The template a value stands for: a string reference whose template is
      loaded and truthy (an empty template leaves the reference in place). */
  function Referenced(v: Value, templates: Templates): (r: Option<Value>)
    ensures r.Some? ==> v.Str? && TemplateRef(v.s).Some?
    ensures r.Some? ==> ODict.Get(templates, TemplateRef(v.s).value) == Some(r.value)
    ensures r.Some? ==> Truthy(r.value)
  {
    if v.Str? && TemplateRef(v.s).Some? then
      match ODict.Get(templates, TemplateRef(v.s).value)
      case Some(t) => if Truthy(t) then Some(t) else None
      case None => None
    else None
  }

  /** A value one level down: replaced when it references a template. */
  function ResolveChild(v: Value, templates: Templates): Value {
    match Referenced(v, templates)
    case Some(t) => t
    case None => v
  }

  function ResolveChildren(es: Config, templates: Templates): (r: Config)
    ensures |r| == |es|
    ensures forall i :: 0 <= i < |es| ==> r[i].0 == es[i].0
  {
    if |es| == 0 then []
    else [(es[0].0, ResolveChild(es[0].1, templates))] + ResolveChildren(es[1..], templates)
  }

  /** A top-level value: a reference is replaced, a table has its own
      references replaced, anything else is kept. */
  function ResolveTop(v: Value, templates: Templates): Value {
    if v.Str? then ResolveChild(v, templates)
    else if v.Dict? then Dict(ResolveChildren(v.entries, templates))
    else v
  }

  /** The template substitution pass of `create_instance`. */
  function Resolve(config: Config, templates: Templates): (r: Config)
    ensures |r| == |config|
    ensures forall i :: 0 <= i < |config| ==> r[i].0 == config[i].0
  {
    if |config| == 0 then []
    else [(config[0].0, ResolveTop(config[0].1, templates))] + Resolve(config[1..], templates)
  }

  /** `create_instance`: merge, then resolve. */
  function CreateInstance(global: Config, inst: Config, templates: Templates): (r: Config)
    ensures ODict.KeySeq(r) == ODict.KeySeq(Merge(global, inst))
  {
    Resolve(Merge(global, inst), templates)
  }

  /** A key of the resolved configuration holds its merged value, resolved. */
  lemma {:induction false} ResolveGet(config: Config, templates: Templates, k: string)
    ensures ODict.Get(Resolve(config, templates), k)
         == (match ODict.Get(config, k)
             case Some(v) => Some(ResolveTop(v, templates))
             case None => None)
    decreases |config|
  {
    if |config| > 0 {
      ResolveGet(config[1..], templates, k);
    }
  }

  /** A top-level `template::NAME` is replaced by the template exactly when
      one named NAME is loaded and non-empty. */
  lemma TopReference(n: string, templates: Templates)
    requires Text.Trimmed(n) && !Text.Contains(n, Marker)
    ensures var t := ODict.Get(templates, n);
      ResolveTop(Str(Marker + n), templates)
      == if t.Some? && Truthy(t.value) then t.value else Str(Marker + n)
  {
    RefOfName(n);
  }

  /** Resolution reaches one level into a table and no further: within a
      table only string entries may change. */
  lemma {:induction false} OneLevelDeep(es: Config, templates: Templates, i: nat)
    requires i < |es| && !es[i].1.Str?
    ensures ResolveChildren(es, templates)[i] == es[i]
    decreases |es|
  {
    if i > 0 {
      OneLevelDeep(es[1..], templates, i - 1);
    }
  }

  /** Values without a single reference come through unchanged. */
  predicate NoRef(v: Value) {
    !(v.Str? && Text.StartsWith(v.s, Marker))
  }

  predicate RefFree(config: Config) {
    forall i :: 0 <= i < |config| ==>
      && NoRef(config[i].1)
      && (config[i].1.Dict? ==> forall j :: 0 <= j < |config[i].1.entries| ==> NoRef(config[i].1.entries[j].1))
  }

  lemma {:induction false} ChildrenRefFree(es: Config, templates: Templates)
    requires forall j :: 0 <= j < |es| ==> NoRef(es[j].1)
    ensures ResolveChildren(es, templates) == es
    decreases |es|
  {
    if |es| > 0 {
      ChildrenRefFree(es[1..], templates);
    }
  }

  lemma {:induction false} ResolveRefFree(config: Config, templates: Templates)
    requires RefFree(config)
    ensures Resolve(config, templates) == config
    decreases |config|
  {
    if |config| > 0 {
      if config[0].1.Dict? {
        ChildrenRefFree(config[0].1.entries, templates);
      }
      assert RefFree(config[1..]) by {
        forall i | 0 <= i < |config[1..]| ensures config[1..][i] == config[i + 1] { }
      }
      ResolveRefFree(config[1..], templates);
    }
  }

  /** Templates that are themselves resolved: substituting one never brings
      in a reference that a second pass would replace. */
  predicate Settled(templates: Templates) {
    forall i :: 0 <= i < |templates| ==> ResolveTop(templates[i].1, templates) == templates[i].1
  }

  lemma ChildIdempotent(v: Value, templates: Templates)
    requires Settled(templates)
    ensures ResolveChild(ResolveChild(v, templates), templates) == ResolveChild(v, templates)
  {
    var r := Referenced(v, templates);
    if r.Some? {
      var t := r.value;
      assert (TemplateRef(v.s).value, t) in templates;
      var i :| 0 <= i < |templates| && templates[i] == (TemplateRef(v.s).value, t);
      assert ResolveTop(t, templates) == t;
    }
  }

  lemma {:induction false} ChildrenIdempotent(es: Config, templates: Templates)
    requires Settled(templates)
    ensures ResolveChildren(ResolveChildren(es, templates), templates) == ResolveChildren(es, templates)
    decreases |es|
  {
    if |es| > 0 {
      ChildIdempotent(es[0].1, templates);
      ChildrenIdempotent(es[1..], templates);
    }
  }

  lemma TopIdempotent(v: Value, templates: Templates)
    requires Settled(templates)
    ensures ResolveTop(ResolveTop(v, templates), templates) == ResolveTop(v, templates)
  {
    if v.Str? {
      var r := Referenced(v, templates);
      if r.Some? {
        var t := r.value;
        assert (TemplateRef(v.s).value, t) in templates;
        var i :| 0 <= i < |templates| && templates[i] == (TemplateRef(v.s).value, t);
      }
    } else if v.Dict? {
      ChildrenIdempotent(v.entries, templates);
    }
  }

  /** With settled templates, resolving twice is resolving once. */
  lemma {:induction false} ResolveIdempotent(config: Config, templates: Templates)
    requires Settled(templates)
    ensures Resolve(Resolve(config, templates), templates) == Resolve(config, templates)
    decreases |config|
  {
    if |config| > 0 {
      TopIdempotent(config[0].1, templates);
      ResolveIdempotent(config[1..], templates);
    }
  }

  // -----------------------------------------------------------------------
  // Template files

  /** `Path(name).stem`: the name without its last suffix. */
  function Stem(name: string): (r: string)
    ensures |r| <= |name| && r == name[..|r|]
  {
    var i := Text.LastIndex(name, '.');
    if 0 < i < |name| - 1 then name[..i] else name
  }

  /** `load_template`'s name: the stem with every ".template" removed. */
  function TemplateName(fileName: string): string {
    Text.ReplaceAll(Stem(fileName), TemplateSuffix, "")
  }

  /** `NAME.template.toml` is loaded as template NAME. */
  lemma TemplateNameOf(n: string)
    requires !Text.Contains(n, TemplateSuffix)
    ensures TemplateName(n + TemplateSuffix + ".toml") == n
  {
    var f := n + TemplateSuffix + ".toml";
    var dot := |n| + |TemplateSuffix|;
    assert f[dot] == '.';
    assert forall j :: dot < j < |f| ==> f[j] != '.';
    assert Stem(f) == n + TemplateSuffix;
    Text.ReplaceTrailing(n, TemplateSuffix, "");
  }

  /** The files under the template names they load as. */
  function Named(files: seq<(string, Value)>): (r: Config)
    ensures |r| == |files|
    ensures forall i :: 0 <= i < |files| ==> r[i] == (TemplateName(files[i].0), files[i].1)
  {
    seq(|files|, i requires 0 <= i < |files| => (TemplateName(files[i].0), files[i].1))
  }

  /** The templates after loading the template files in glob order; a later
      file whose name maps to the same template replaces the earlier one. */
  function LoadTemplates(files: seq<(string, Value)>): Templates {
    Merge([], Named(files))
  }

  /** Every file's template name is loaded, and nothing else. */
  lemma TemplateNames(files: seq<(string, Value)>)
    ensures forall i :: 0 <= i < |files| ==> TemplateName(files[i].0) in ODict.Keys(LoadTemplates(files))
    ensures forall n :: n in ODict.Keys(LoadTemplates(files)) ==>
      exists i :: 0 <= i < |files| && TemplateName(files[i].0) == n
  {
    MergeKeys([], Named(files));
  }

  /** A template file nothing later overrides is reachable under its name. */
  lemma TemplateLoaded(files: seq<(string, Value)>, i: nat)
    requires i < |files|
    requires forall j :: i < j < |files| ==> TemplateName(files[j].0) != TemplateName(files[i].0)
    ensures ODict.Get(LoadTemplates(files), TemplateName(files[i].0)) == Some(files[i].1)
  {
    MergeLast([], Named(files), i);
  }
}

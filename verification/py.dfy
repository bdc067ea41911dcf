/** Python values as the modelled code sees them (TOML and JSON documents,
    keyword arguments, hook results), their truthiness, and the keyword
    construction `SomeDataclass(**env)` that every plugin model uses. */
module Py {
  import opened Wrappers
  import ODict
  import Text

  datatype Value =
    | Null
    | Bool(b: bool)
    | Int(i: int)
    | Str(s: string)
    | List(items: seq<Value>)
    | Dict(entries: ODict.Dict<string, Value>)
    | Obj(tag: string)   // any other object (a Record, a callable, ...)

  /** `bool(v)` */
  predicate Truthy(v: Value) {
    match v
    case Null => false
    case Bool(b) => b
    case Int(i) => i != 0
    case Str(s) => s != []
    case List(xs) => xs != []
    case Dict(es) => es != []
    case Obj(_) => true
  }

  /** `isinstance(v, int)`: booleans are integers in Python. */
  predicate IsInt(v: Value) {
    v.Int? || v.Bool?
  }

  /** The integer a Python `int` or `bool` stands for. */
  function IntOf(v: Value): int
    requires IsInt(v)
  {
    if v.Int? then v.i else if v.b then 1 else 0
  }

  // -----------------------------------------------------------------------
  // Dataclass construction from keyword arguments

  /** A dataclass field; `default` is None for a required field. */
  datatype Field = Field(name: string, default: Option<Value>)

  function Names(fields: seq<Field>): set<string> {
    set i | 0 <= i < |fields| :: fields[i].name
  }

  /** The default of the first field called `n`. */
  function DefaultOf(fields: seq<Field>, n: string): Value {
    if |fields| == 0 then Null
    else if fields[0].name == n then fields[0].default.GetOr(Null)
    else DefaultOf(fields[1..], n)
  }

  /** A field whose name no earlier field declares takes its own default. */
  lemma {:induction false} DefaultAt(fields: seq<Field>, i: nat)
    requires i < |fields|
    requires forall j :: 0 <= j < i ==> fields[j].name != fields[i].name
    ensures DefaultOf(fields, fields[i].name) == fields[i].default.GetOr(Null)
  {
    if i > 0 {
      DefaultAt(fields[1..], i - 1);
    }
  }

  /** The attributes of a constructed dataclass instance. */
  type Attrs = map<string, Value>

  /** `getattr(obj, n)` for a constructed instance (Null for a name the
      class does not declare, which the callers never ask for). */
  function Attr(a: Attrs, n: string): Value {
    if n in a then a[n] else Null
  }

  predicate AcceptsKwargs(env: Value, fields: seq<Field>) {
    && env.Dict?
    && (forall k :: k in ODict.Keys(env.entries) ==> k in Names(fields))
    && (forall i :: (0 <= i < |fields| && fields[i].default.None?) ==>
                      fields[i].name in ODict.Keys(env.entries))
  }

  /** What a refused keyword construction raises. */
  const NotMappingMessage := "argument after ** must be a mapping"
  const UnexpectedKeywordMessage := "got an unexpected keyword argument"
  const MissingArgumentMessage := "missing a required argument"

  /** `Cls(**env)` for a dataclass with the given fields, before any
      `__post_init__` runs: `env` must be a mapping, may name declared fields
      only, and must name every field without a default (TypeError
      otherwise). Each attribute is the given value, else the default. */
  function Construct(env: Value, fields: seq<Field>): (r: Result<Attrs>)
    ensures r.Ok? <==> AcceptsKwargs(env, fields)
    ensures r.Err? ==> r.error.TypeError?
    ensures r.Ok? ==> r.value.Keys == Names(fields)
    ensures r.Ok? ==> forall n :: n in Names(fields) ==>
      r.value[n] == ODict.Get(env.entries, n).GetOr(DefaultOf(fields, n))
  {
    if !env.Dict? then Err(TypeError(NotMappingMessage))
    else if exists k :: k in ODict.Keys(env.entries) && k !in Names(fields) then
      Err(TypeError(UnexpectedKeywordMessage))
    else if exists i :: 0 <= i < |fields| && fields[i].default.None?
                        && fields[i].name !in ODict.Keys(env.entries) then
      Err(TypeError(MissingArgumentMessage))
    else
      Ok(map n | n in Names(fields) :: ODict.Get(env.entries, n).GetOr(DefaultOf(fields, n)))
  }

  /** `v[key]` for a string key. */
  function Subscript(v: Value, key: string): (r: Result<Value>)
    ensures r.Ok? ==> v.Dict? && (key, r.value) in v.entries
    ensures v.Dict? && key !in ODict.Keys(v.entries) ==> r == Err(KeyError(key))
  {
    match v
    case Dict(es) => if key in ODict.Keys(es) then Ok(ODict.Get(es, key).value) else Err(KeyError(key))
    case List(_) => Err(TypeError("list indices must be integers or slices, not str"))
    case Str(_) => Err(TypeError("string indices must be integers"))
    case _ => Err(TypeError("object is not subscriptable"))
  }

  /** What `for x in v` visits: a list's items, a dict's keys, a string's
      characters; anything else cannot be iterated. */
  function Items(v: Value): (r: Result<seq<Value>>)
    ensures v.List? ==> r == Ok(v.items)
    ensures r.Err? <==> !(v.List? || v.Dict? || v.Str?)
  {
    match v
    case List(xs) => Ok(xs)
    case Dict(es) => Ok(seq(|es|, i requires 0 <= i < |es| => Str(es[i].0)))
    case Str(s) => Ok(seq(|s|, i requires 0 <= i < |s| => Str([s[i]])))
    case _ => Err(TypeError("object is not iterable"))
  }

  /** `str(v)`. A container or another object is shown by a placeholder:
      its Python representation is not modelled. */
  function Show(v: Value): string {
    match v
    case Null => "None"
    case Bool(b) => if b then "True" else "False"
    case Int(i) => Text.IntToString(i)
    case Str(s) => s
    case List(_) => "[...]"
    case Dict(_) => "{...}"
    case Obj(tag) => "<" + tag + ">"
  }
}

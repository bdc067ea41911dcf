/** POSIX path operations (`os.path.join`, `isabs`, `basename`, `dirname`)
    as Python's `posixpath` defines them. */
module Paths {
  import Text

  predicate IsAbs(p: string) {
    |p| > 0 && p[0] == '/'
  }

  /** A single path component: non-empty and free of separators. */
  predicate IsName(n: string) {
    n != [] && '/' !in n
  }

  /** `os.path.join(a, b)`: an absolute `b` replaces `a`; otherwise a
      separator is inserted unless `a` is empty or already ends in one. */
  function Join(a: string, b: string): string {
    if IsAbs(b) then b
    else if a == [] || a[|a| - 1] == '/' then a + b
    else a + "/" + b
  }

  /** `os.path.join(a, *parts)` */
  function JoinAll(a: string, parts: seq<string>): string
    decreases |parts|
  {
    if |parts| == 0 then a else JoinAll(Join(a, parts[0]), parts[1..])
  }

  /** `os.path.join(a, p, *ps)` is `os.path.join(os.path.join(a, p), *ps)`. */
  lemma JoinStep(a: string, p: string, ps: seq<string>)
    ensures JoinAll(a, [p] + ps) == JoinAll(Join(a, p), ps)
  {
    assert ([p] + ps)[0] == p;
    assert ([p] + ps)[1..] == ps;
  }

  /** `p.rfind('/')` */
  function LastSlash(p: string): (r: int)
    ensures -1 <= r < |p|
    ensures r >= 0 ==> p[r] == '/'
    ensures forall j :: r < j < |p| ==> p[j] != '/'
  {
    Text.LastIndex(p, '/')
  }

  function StripTrailingSlashes(s: string): string {
    if |s| > 0 && s[|s| - 1] == '/' then StripTrailingSlashes(s[..|s| - 1]) else s
  }

  predicate AllSlashes(s: string) {
    forall i :: 0 <= i < |s| ==> s[i] == '/'
  }

  /** `os.path.basename(p)`: the text after the last separator. */
  function Basename(p: string): string {
    p[LastSlash(p) + 1..]
  }

  /** `os.path.dirname(p)`: the text up to the last separator, with trailing
      separators removed unless it consists of separators only. */
  function Dirname(p: string): string {
    var head := p[..LastSlash(p) + 1];
    if head != [] && !AllSlashes(head) then StripTrailingSlashes(head) else head
  }

  /** Joining a directory and a component is undone by `dirname` and
      `basename`. */
  lemma {:induction false} SplitJoined(dir: string, name: string)
    requires dir != [] && dir[|dir| - 1] != '/'
    requires IsName(name)
    ensures Join(dir, name) == dir + "/" + name
    ensures Basename(Join(dir, name)) == name
    ensures Dirname(Join(dir, name)) == dir
  {
    var p := dir + "/" + name;
    assert !IsAbs(name);
    var r := LastSlash(p);
    assert p[|dir|] == '/';
    assert r == |dir|;
    assert p[r + 1..] == name;
    var head := p[..r + 1];
    assert head == dir + "/";
    assert !AllSlashes(head) by {
      assert head[|dir| - 1] != '/';
    }
    assert StripTrailingSlashes(head) == StripTrailingSlashes(dir);
  }
}

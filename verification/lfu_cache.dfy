/** The class-level file cache the emulator's configuration objects read
    through: parsed JSON files keyed by path, each with the modification
    time it was read at and an access count. A hit needs the same
    modification time; a full cache evicts its least frequently used
    entries before a new file is read. */
module LfuCache {
  import opened Wrappers
  import ODict
  import opened Py

  /** `FileMeta`: the modification time a file was read at and how often it
      has been served. */
  datatype FileMeta = FileMeta(mtime: int, ac: int)

  type Entry = (string, FileMeta)

  /** `_opened_files` and `_opened_meta`. */
  datatype Cache = Cache(files: ODict.Dict<string, Value>, meta: ODict.Dict<string, FileMeta>)

  /** `_total_cached` */
  const TotalCached: nat := 1000

  /** Both maps start empty. */
  const Empty: Cache := Cache([], [])

  /** The two maps hold the same paths in the same order. */
  predicate Valid(c: Cache) {
    && ODict.UniqueKeys(c.files)
    && ODict.UniqueKeys(c.meta)
    && ODict.KeySeq(c.files) == ODict.KeySeq(c.meta)
  }

  /** What the file system holds at a path: nothing, or a file with its
      modification time and its text parsed as JSON (an error when it does
      not parse). */
  datatype Disk = Missing | Present(mtime: int, parsed: Result<Value>)

  /** The cache after a call and what the call returned (None for a missing
      file). */
  datatype Outcome = Outcome(cache: Cache, result: Result<Option<Value>>)

  // -----------------------------------------------------------------------
  // sorted(meta.items(), key=lambda item: item[1]["ac"])

  predicate SortedByAc(s: seq<Entry>) {
    forall i, j :: 0 <= i < j < |s| ==> s[i].1.ac <= s[j].1.ac
  }

  /** Insert `x` before the first entry whose count is at least its own. */
  function Insert(x: Entry, t: seq<Entry>): (r: seq<Entry>)
    ensures multiset(r) == multiset{x} + multiset(t)
    ensures |r| == |t| + 1
  {
    if |t| == 0 || x.1.ac <= t[0].1.ac then [x] + t
    else
      assert t == [t[0]] + t[1..];
      [t[0]] + Insert(x, t[1..])
  }

  /** Python's `sorted` by access count: an insertion sort, stable because
      an entry goes before the later entries with an equal count. */
  function SortByAc(s: seq<Entry>): (r: seq<Entry>)
    ensures multiset(r) == multiset(s)
    ensures |r| == |s|
  {
    if |s| == 0 then []
    else
      assert s == [s[0]] + s[1..];
      Insert(s[0], SortByAc(s[1..]))
  }

  lemma {:induction false} InsertSorted(x: Entry, t: seq<Entry>)
    requires SortedByAc(t)
    ensures SortedByAc(Insert(x, t))
  {
    if |t| > 0 && x.1.ac > t[0].1.ac {
      var rest := Insert(x, t[1..]);
      InsertSorted(x, t[1..]);
      forall j | 0 <= j < |rest| ensures t[0].1.ac <= rest[j].1.ac {
        assert rest[j] in multiset(rest);
        if rest[j] != x {
          assert rest[j] in t[1..];
        }
      }
    }
  }

  lemma {:induction false} SortSorted(s: seq<Entry>)
    ensures SortedByAc(SortByAc(s))
  {
    if |s| > 0 {
      SortSorted(s[1..]);
      InsertSorted(s[0], SortByAc(s[1..]));
    }
  }

  /** The entries of a sorted copy are the entries of the original. */
  lemma SortElems(s: seq<Entry>, p: Entry)
    ensures p in SortByAc(s) <==> p in s
  {
    assert p in SortByAc(s) <==> p in multiset(SortByAc(s));
  }

  lemma InsertKeys(x: Entry, t: seq<Entry>)
    ensures ODict.Keys(Insert(x, t)) == {x.0} + ODict.Keys(t)
    ensures ODict.UniqueKeys(t) && x.0 !in ODict.Keys(t) ==> ODict.UniqueKeys(Insert(x, t))
  {
    InsertKeySet(x, t);
    if ODict.UniqueKeys(t) && x.0 !in ODict.Keys(t) {
      InsertUnique(x, t);
    }
  }

  lemma {:induction false} InsertKeySet(x: Entry, t: seq<Entry>)
    ensures ODict.Keys(Insert(x, t)) == {x.0} + ODict.Keys(t)
  {
    if |t| > 0 && x.1.ac > t[0].1.ac {
      var rest := Insert(x, t[1..]);
      InsertKeySet(x, t[1..]);
      assert Insert(x, t) == [t[0]] + rest;
      assert ([t[0]] + rest)[1..] == rest;
    }
  }

  lemma {:induction false} InsertUnique(x: Entry, t: seq<Entry>)
    requires ODict.UniqueKeys(t) && x.0 !in ODict.Keys(t)
    ensures ODict.UniqueKeys(Insert(x, t))
  {
    if |t| == 0 || x.1.ac <= t[0].1.ac {
      ODict.ConsUnique(x, t);
    } else {
      var rest := Insert(x, t[1..]);
      assert ODict.UniqueKeys(t[1..]);
      InsertUnique(x, t[1..]);
      ODict.HeadKeyFresh(t);
      InsertKeySet(x, t[1..]);
      assert t[0].0 !in ODict.Keys(rest);
      ODict.ConsUnique(t[0], rest);
      assert Insert(x, t) == [t[0]] + rest;
    }
  }

  /** Sorting keeps the keys ... */
  lemma {:induction false} SortKeys(s: seq<Entry>)
    ensures ODict.Keys(SortByAc(s)) == ODict.Keys(s)
  {
    if |s| > 0 {
      SortKeys(s[1..]);
      InsertKeys(s[0], SortByAc(s[1..]));
    }
  }

  /** ... and keeps them distinct. */
  lemma {:induction false} SortUnique(s: seq<Entry>)
    requires ODict.UniqueKeys(s)
    ensures ODict.UniqueKeys(SortByAc(s))
  {
    if |s| > 0 {
      assert ODict.UniqueKeys(s[1..]);
      SortUnique(s[1..]);
      SortKeys(s[1..]);
      assert s[0].0 !in ODict.Keys(s[1..]);
      InsertKeys(s[0], SortByAc(s[1..]));
    }
  }

  // -----------------------------------------------------------------------
  // __real_load__ and _loadFile

  /** The paths evicted before a new file is read into a cache holding
      `|files| >= cap` files: the first `|files| - cap + 1` of the
      entries sorted by access count. */
  function Victims(c: Cache, cap: nat): (vs: seq<string>)
    ensures |vs| <= |c.meta|
  {
    if |c.files| >= cap then
      var sorted := SortByAc(c.meta);
      var n := |c.files| - cap + 1;
      ODict.KeySeq(if n <= |sorted| then sorted[..n] else sorted)
    else []
  }

  /** `__real_load__`: evict, read and parse the file, and store it with an
      access count of one. A file that does not parse raises after the
      eviction has happened. */
  function RealLoad(c: Cache, path: string, mtime: int, parsed: Result<Value>, cap: nat): Outcome {
    var vs := Victims(c, cap);
    var files := ODict.RemoveAll(c.files, vs);
    var meta := ODict.RemoveAll(c.meta, vs);
    match parsed
    case Err(e) => Outcome(Cache(files, meta), Err(e))
    case Ok(data) =>
      Outcome(Cache(ODict.Put(files, path, data), ODict.Put(meta, path, FileMeta(mtime, 1))), Ok(Some(data)))
  }

  /** `_opened_meta.get(path, {}).get("mtime", 0)` */
  function StoredMtime(meta: ODict.Dict<string, FileMeta>, path: string): int {
    match ODict.Get(meta, path)
    case Some(fm) => fm.mtime
    case None => 0
  }

  /** A hit: the path is cached and was read at the file's current
      modification time. */
  predicate IsHit(c: Cache, path: string, mtime: int) {
    path in ODict.Keys(c.files) && StoredMtime(c.meta, path) == mtime
  }

  /** The hit path of `_loadFile`: count the access and serve the cached
      data. */
  function Serve(c: Cache, path: string): Outcome {
    match ODict.Get(c.meta, path)
    case None => Outcome(c, Err(KeyError(path)))
    case Some(fm) =>
      Outcome(c.(meta := ODict.Put(c.meta, path, fm.(ac := fm.ac + 1))),
              Ok(Some(ODict.Get(c.files, path).GetOr(Null))))
  }

  /** `_loadFile(path)` against a cache of capacity `cap`. */
  function LoadFile(c: Cache, path: string, disk: Disk, cap: nat): (o: Outcome)
    ensures disk.Missing? ==> o.result == Ok(None)
  {
    match disk
    case Missing => Outcome(Cache(ODict.Remove(c.files, path), ODict.Remove(c.meta, path)), Ok(None))
    case Present(mtime, parsed) =>
      if IsHit(c, path, mtime) then Serve(c, path) else RealLoad(c, path, mtime, parsed, cap)
  }

  // -----------------------------------------------------------------------
  // Properties

  lemma EmptyValid()
    ensures Valid(Empty)
  {
  }

  /** A file that no longer exists leaves both maps, and nothing else
      changes. */
  lemma MissingFile(c: Cache, path: string, cap: nat, other: string)
    requires Valid(c)
    ensures var o := LoadFile(c, path, Missing, cap);
      && o.result == Ok(None)
      && path !in ODict.Keys(o.cache.files) && path !in ODict.Keys(o.cache.meta)
      && (other != path ==>
            ODict.Get(o.cache.files, other) == ODict.Get(c.files, other) &&
            ODict.Get(o.cache.meta, other) == ODict.Get(c.meta, other))
  {
    ODict.RemoveGet(c.files, path, other);
    ODict.RemoveGet(c.meta, path, other);
  }

  /** A hit serves the cached data and adds one to its access count;
      nothing else changes. */
  lemma Hit(c: Cache, path: string, fm: FileMeta, parsed: Result<Value>, cap: nat, other: string)
    requires path in ODict.Keys(c.files) && ODict.Get(c.meta, path) == Some(fm)
    ensures var o := LoadFile(c, path, Present(fm.mtime, parsed), cap);
      && o.result == Ok(ODict.Get(c.files, path))
      && o.cache.files == c.files
      && ODict.Get(o.cache.meta, path) == Some(FileMeta(fm.mtime, fm.ac + 1))
      && (other != path ==> ODict.Get(o.cache.meta, other) == ODict.Get(c.meta, other))
  {
    var fm' := FileMeta(fm.mtime, fm.ac + 1);
    assert IsHit(c, path, fm.mtime);
    assert LoadFile(c, path, Present(fm.mtime, parsed), cap) == Serve(c, path);
    var meta' := ODict.Put(c.meta, path, fm');
    assert Serve(c, path).cache == c.(meta := meta');
    ODict.PutGet(c.meta, path, fm', other);
    assert ODict.Get(meta', path) == Some(fm');
  }

  /** A miss, or a file changed since it was read, is read afresh: the new
      data is returned and stored with the current modification time and
      an access count of one. */
  lemma Reload(c: Cache, path: string, mtime: int, data: Value, cap: nat)
    requires !IsHit(c, path, mtime)
    ensures var o := LoadFile(c, path, Present(mtime, Ok(data)), cap);
      && o.result == Ok(Some(data))
      && ODict.Get(o.cache.files, path) == Some(data)
      && ODict.Get(o.cache.meta, path) == Some(FileMeta(mtime, 1))
  {
    var vs := Victims(c, cap);
    ODict.PutGet(ODict.RemoveAll(c.files, vs), path, data, path);
    ODict.PutGet(ODict.RemoveAll(c.meta, vs), path, FileMeta(mtime, 1), path);
  }

  /** A valid cache has as many meta entries as files. */
  lemma SameSize(c: Cache)
    requires Valid(c)
    ensures |c.files| == |c.meta|
  {
    assert |ODict.KeySeq(c.files)| == |ODict.KeySeq(c.meta)|;
  }

  /** The victims are distinct cached paths, exactly `|files| - cap + 1`
      of them ... */
  lemma VictimsCount(c: Cache, cap: nat)
    requires Valid(c) && cap >= 1 && |c.files| >= cap
    ensures var vs := Victims(c, cap);
      && |vs| == |c.files| - cap + 1
      && (forall i :: 0 <= i < |vs| ==> vs[i] in ODict.Keys(c.files))
      && (forall i, j :: 0 <= i < j < |vs| ==> vs[i] != vs[j])
  {
    var sorted := SortByAc(c.meta);
    var n := |c.files| - cap + 1;
    var vs := Victims(c, cap);
    SameSize(c);
    assert vs == ODict.KeySeq(sorted[..n]);
    SortKeys(c.meta);
    SortUnique(c.meta);
    forall i | 0 <= i < |vs| ensures vs[i] in ODict.Keys(c.files) {
      assert vs[i] == sorted[i].0 && sorted[i].0 in ODict.Keys(sorted);
      KeysOfKeySeq(c.files, c.meta, vs[i]);
    }
  }

  /** ... and none was used more often than any path that stays. */
  lemma VictimsLeast(c: Cache, cap: nat)
    requires Valid(c) && cap >= 1 && |c.files| >= cap
    ensures var vs := Victims(c, cap);
      forall v, fv, k, fk :: v in vs && (v, fv) in c.meta && k !in vs && (k, fk) in c.meta ==>
        fv.ac <= fk.ac
  {
    var sorted := SortByAc(c.meta);
    var n := |c.files| - cap + 1;
    var vs := Victims(c, cap);
    SameSize(c);
    assert vs == ODict.KeySeq(sorted[..n]);
    SortSorted(c.meta);
    SortUnique(c.meta);
    forall v, fv, k, fk | v in vs && (v, fv) in c.meta && k !in vs && (k, fk) in c.meta
      ensures fv.ac <= fk.ac
    {
      SortElems(c.meta, (v, fv));
      SortElems(c.meta, (k, fk));
      PrefixLeast(sorted, n, v, fv, k, fk);
    }
  }

  /** In a list sorted by count with distinct keys, an entry among the
      first `n` was used no more often than one after them. */
  lemma PrefixLeast(s: seq<Entry>, n: nat, v: string, fv: FileMeta, k: string, fk: FileMeta)
    requires SortedByAc(s) && ODict.UniqueKeys(s) && n <= |s|
    requires v in ODict.KeySeq(s[..n]) && (v, fv) in s
    requires k !in ODict.KeySeq(s[..n]) && (k, fk) in s
    ensures fv.ac <= fk.ac
  {
    var ks := ODict.KeySeq(s[..n]);
    var i :| 0 <= i < |ks| && ks[i] == v;
    var j :| 0 <= j < |s| && s[j] == (k, fk);
    assert forall t :: 0 <= t < n ==> ks[t] == s[t].0;
    assert n <= j;
    ODict.GetStored(s, v, s[i].1);
    ODict.GetStored(s, v, fv);
    assert s[i].1.ac <= s[j].1.ac;
  }

  /** Two dictionaries with the same key order have the same keys. */
  lemma KeysOfKeySeq<V, W>(a: ODict.Dict<string, V>, b: ODict.Dict<string, W>, k: string)
    requires ODict.KeySeq(a) == ODict.KeySeq(b)
    ensures k in ODict.Keys(a) <==> k in ODict.Keys(b)
  {
    if k in ODict.Keys(a) {
      var i :| 0 <= i < |a| && a[i].0 == k;
      assert ODict.KeySeq(b)[i] == k;
    }
    if k in ODict.Keys(b) {
      var i :| 0 <= i < |b| && b[i].0 == k;
      assert ODict.KeySeq(a)[i] == k;
    }
  }

  /** Reading a file afresh keeps the two maps in step. */
  lemma RealLoadValid(c: Cache, path: string, mtime: int, parsed: Result<Value>, cap: nat)
    requires Valid(c)
    ensures Valid(RealLoad(c, path, mtime, parsed, cap).cache)
  {
    var vs := Victims(c, cap);
    var files := ODict.RemoveAll(c.files, vs);
    var meta := ODict.RemoveAll(c.meta, vs);
    ODict.RemoveAllSpec(c.files, vs);
    ODict.RemoveAllSpec(c.meta, vs);
    ODict.RemoveAllKeySeq(c.files, c.meta, vs);
    if parsed.Ok? {
      ODict.PutUnique(files, path, parsed.value);
      ODict.PutUnique(meta, path, FileMeta(mtime, 1));
      ODict.PutKeySeq(files, meta, path, parsed.value, FileMeta(mtime, 1));
    }
  }

  /** What a hit does to the cache: only the path's access count moves. */
  lemma ServeCache(c: Cache, path: string, fm: FileMeta)
    requires ODict.Get(c.meta, path) == Some(fm)
    ensures Serve(c, path).cache == c.(meta := ODict.Put(c.meta, path, fm.(ac := fm.ac + 1)))
  {
  }

  lemma ServeValid(c: Cache, path: string)
    requires Valid(c)
    ensures Valid(Serve(c, path).cache)
  {
    match ODict.Get(c.meta, path)
    case None =>
    case Some(fm) =>
      var fm' := fm.(ac := fm.ac + 1);
      ServeCache(c, path, fm);
      ODict.PutUnique(c.meta, path, fm');
      ODict.PutGet(c.meta, path, fm', path);
  }

  lemma DropValid(c: Cache, path: string)
    requires Valid(c)
    ensures Valid(Cache(ODict.Remove(c.files, path), ODict.Remove(c.meta, path)))
  {
    ODict.RemoveUnique(c.files, path);
    ODict.RemoveUnique(c.meta, path);
    ODict.RemoveKeySeq(c.files, c.meta, path);
  }

  /** Every load keeps the two maps in step. */
  lemma LoadValid(c: Cache, path: string, disk: Disk, cap: nat)
    requires Valid(c)
    ensures Valid(LoadFile(c, path, disk, cap).cache)
  {
    match disk
    case Missing =>
      DropValid(c, path);
    case Present(mtime, parsed) =>
      if IsHit(c, path, mtime) {
        ServeValid(c, path);
      } else {
        RealLoadValid(c, path, mtime, parsed, cap);
      }
  }

  /** A cache holding at most `cap` files still does after any load, and a
      file read afresh never pushes it past `cap`. */
  lemma LoadBounded(c: Cache, path: string, disk: Disk, cap: nat)
    requires Valid(c) && cap >= 1 && |c.files| <= cap
    ensures |LoadFile(c, path, disk, cap).cache.files| <= cap
  {
    match disk
    case Missing =>
    case Present(mtime, parsed) =>
      if !IsHit(c, path, mtime) {
        var vs := Victims(c, cap);
        var files := ODict.RemoveAll(c.files, vs);
        if |c.files| >= cap {
          VictimsCount(c, cap);
          ODict.RemoveAllSize(c.files, vs);
          assert |files| == cap - 1;
        }
        assert |files| <= |c.files|;
      }
  }
}

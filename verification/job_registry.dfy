/** The server's job registry: entries keyed by job id, each holding the
    job's configuration, an optional schedule and its execution history,
    with the serialised form used for persistence. */
module JobRegistry {
  import opened Wrappers
  import ODict
  import Text
  import opened Py
  import Schedule
  import Plugins
  import Runner

  /** Instants of the server clock; the serialised form of an instant is its
      decimal text (the clock stands in for `datetime`). */
  type Time = nat

  datatype Entry = Entry(
    jobId: string,
    config: ODict.Dict<string, Value>,
    schedule: Option<Schedule.ScheduleConfig>,
    source: string,
    registeredAt: Time,
    lastTriggered: Option<Time>,
    executionCount: int)

  /** `JobRegistryEntry(...)` as built by `register`: never triggered yet. */
  function NewEntry(id: string, config: ODict.Dict<string, Value>, schedule: Option<Schedule.ScheduleConfig>,
                    source: string, now: Time): (e: Entry)
    ensures e.executionCount == 0 && e.lastTriggered.None?
  {
    Entry(id, config, schedule, source, now, None, 0)
  }

  /** `JobRegistry._entries` */
  type Registry = ODict.Dict<string, Entry>

  /** Every entry is filed under its own id, once. */
  predicate Valid(reg: Registry) {
    && ODict.UniqueKeys(reg)
    && forall p :: p in reg ==> p.1.jobId == p.0
  }

  // -----------------------------------------------------------------------
  // Operations

  /** What registering a taken id is refused with. */
  function TakenMessage(id: string): string {
    "Job '" + id + "' already registered. Use replace_existing=True to replace."
  }

  /** `register`: refused with ValueError when the id is taken and
      `replace_existing` is false; otherwise the id maps to a fresh entry. */
  function Register(reg: Registry, id: string, config: ODict.Dict<string, Value>,
                    schedule: Option<Schedule.ScheduleConfig>, source: string, replace: bool,
                    now: Time): (r: Result<Registry>)
    ensures r.Ok? <==> (id !in ODict.Keys(reg) || replace)
    ensures r.Err? ==> r.error.ValueError?
  {
    if id in ODict.Keys(reg) && !replace then
      Err(ValueError(TakenMessage(id)))
    else Ok(ODict.Put(reg, id, NewEntry(id, config, schedule, source, now)))
  }

  /** After a successful `register` the id holds the fresh entry, every
      other id is untouched and the registry stays valid. */
  lemma RegisterSpec(reg: Registry, id: string, config: ODict.Dict<string, Value>,
                     schedule: Option<Schedule.ScheduleConfig>, source: string, replace: bool,
                     now: Time, other: string)
    requires Valid(reg)
    requires Register(reg, id, config, schedule, source, replace, now).Ok?
    ensures var r := Register(reg, id, config, schedule, source, replace, now).value;
      && ODict.Get(r, id) == Some(NewEntry(id, config, schedule, source, now))
      && (other != id ==> ODict.Get(r, other) == ODict.Get(reg, other))
      && ODict.Keys(r) == ODict.Keys(reg) + {id}
      && Valid(r)
  {
    var e := NewEntry(id, config, schedule, source, now);
    ODict.PutGet(reg, id, e, other);
    ODict.PutUnique(reg, id, e);
    ODict.PutElems(reg, id, e);
  }

  /** `unregister`: whether the id was present, and the registry without
      it. */
  function Unregister(reg: Registry, id: string): (r: (bool, Registry))
    ensures r.0 <==> id in ODict.Keys(reg)
    ensures !r.0 ==> r.1 == reg
  {
    if id !in ODict.Keys(reg) then (false, reg) else (true, ODict.Remove(reg, id))
  }

  /** `unregister` removes only the given id. */
  lemma UnregisterSpec(reg: Registry, id: string, other: string)
    requires Valid(reg)
    ensures var r := Unregister(reg, id).1;
      && !Exists(r, id)
      && (other != id ==> ODict.Get(r, other) == ODict.Get(reg, other))
      && Valid(r)
      && (id in ODict.Keys(reg) ==> |r| == |reg| - 1)
  {
    ODict.RemoveGet(reg, id, other);
    ODict.RemoveUnique(reg, id);
  }

  /** `get` */
  function GetEntry(reg: Registry, id: string): Option<Entry> {
    ODict.Get(reg, id)
  }

  /** `exists` */
  predicate Exists(reg: Registry, id: string) {
    id in ODict.Keys(reg)
  }

  /** `exists(id)` holds exactly when `get(id)` finds an entry, and that
      entry carries the id. */
  lemma ExistsIffGet(reg: Registry, id: string)
    requires Valid(reg)
    ensures Exists(reg, id) <==> GetEntry(reg, id).Some?
    ensures GetEntry(reg, id).Some? ==> GetEntry(reg, id).value.jobId == id
  {
    if GetEntry(reg, id).Some? {
      var e := GetEntry(reg, id).value;
      var i :| 0 <= i < |reg| && reg[i] == (id, e);
    }
  }

  predicate IsScheduled(e: Entry) { e.schedule.Some? }
  predicate IsOnDemand(e: Entry) { e.schedule.None? }

  /** `list_all`, `list_scheduled`, `list_on_demand` */
  function ListAll(reg: Registry): seq<Entry> { ODict.Values(reg) }
  function ListScheduled(reg: Registry): seq<Entry> { ODict.FilterValues(reg, IsScheduled) }
  function ListOnDemand(reg: Registry): seq<Entry> { ODict.FilterValues(reg, IsOnDemand) }

  /** The scheduled and on-demand listings split `list_all` between them. */
  lemma ListingsPartition(reg: Registry)
    ensures multiset(ListScheduled(reg)) + multiset(ListOnDemand(reg)) == multiset(ListAll(reg))
    ensures forall e :: e in ListScheduled(reg) ==> e.schedule.Some?
    ensures forall e :: e in ListOnDemand(reg) ==> e.schedule.None?
  {
    ODict.FilterPartition(reg, IsScheduled, IsOnDemand);
  }

  /** `mark_triggered`: stamp the time and count one more execution; an
      unknown id is ignored. */
  function MarkTriggered(reg: Registry, id: string, now: Time): (r: Registry)
    ensures id !in ODict.Keys(reg) ==> r == reg
  {
    match ODict.Get(reg, id)
    case None => reg
    case Some(e) => ODict.Put(reg, id, Triggered(e, now))
  }

  function Triggered(e: Entry, now: Time): Entry {
    e.(lastTriggered := Some(now), executionCount := e.executionCount + 1)
  }

  /** `mark_triggered` adds exactly one to the count of the id it names and
      changes nothing else about it or any other entry. */
  lemma MarkTriggeredSpec(reg: Registry, id: string, now: Time, other: string)
    requires Exists(reg, id)
    ensures GetEntry(MarkTriggered(reg, id, now), id).Some?
    ensures var e := GetEntry(reg, id).value;
      var e' := GetEntry(MarkTriggered(reg, id, now), id).value;
      && e'.executionCount == e.executionCount + 1
      && e'.lastTriggered == Some(now)
      && e' == e.(lastTriggered := e'.lastTriggered, executionCount := e'.executionCount)
      && (other != id ==> GetEntry(MarkTriggered(reg, id, now), other) == GetEntry(reg, other))
      && ODict.KeySeq(MarkTriggered(reg, id, now)) == ODict.KeySeq(reg)
  {
    MarkTriggeredEntry(reg, id, now);
    MarkTriggeredRest(reg, id, now, other);
  }

  lemma MarkTriggeredEntry(reg: Registry, id: string, now: Time)
    requires Exists(reg, id)
    ensures GetEntry(MarkTriggered(reg, id, now), id) == Some(Triggered(GetEntry(reg, id).value, now))
  {
    var e := GetEntry(reg, id).value;
    ODict.PutGetSame(reg, id, Triggered(e, now));
  }

  lemma MarkTriggeredRest(reg: Registry, id: string, now: Time, other: string)
    requires Exists(reg, id)
    ensures other != id ==> GetEntry(MarkTriggered(reg, id, now), other) == GetEntry(reg, other)
    ensures ODict.KeySeq(MarkTriggered(reg, id, now)) == ODict.KeySeq(reg)
  {
    var e := GetEntry(reg, id).value;
    ODict.PutGetOther(reg, id, Triggered(e, now), other);
    ODict.PutKeyOrder(reg, id, Triggered(e, now));
  }

  /** `create_instance`: None for an unknown id, otherwise the plugins the
      entry's configuration loads. */
  function CreateInstance(reg: Registry, id: string, plugins: Plugins.Registry, make: Runner.Maker)
    : (r: Option<Runner.LoadResult>)
    ensures r.None? <==> !Exists(reg, id)
  {
    match ODict.Get(reg, id)
    case None => None
    case Some(e) => Some(Runner.Load(plugins, e.config, make))
  }

  // -----------------------------------------------------------------------
  // Serialised form

  function StampText(t: Time): Value { Str(Text.NatToString(t)) }

  /** `datetime.fromisoformat` on the serialised clock. */
  function ParseStamp(v: Value): (r: Result<Time>)
    ensures r.Ok? ==> v == StampText(r.value) || v.Str?
  {
    if !v.Str? then Err(TypeError("fromisoformat: argument must be str"))
    else if !Text.IsDigits(v.s) then Err(ValueError("Invalid isoformat string"))
    else Ok(Text.DigitsValue(v.s))
  }

  lemma StampRoundTrip(t: Time)
    ensures ParseStamp(StampText(t)) == Ok(t)
  {
    Text.DigitsOfNat(t);
  }

  /** The `schedule` part of `to_dict`: every field under its own name. */
  function ScheduleToDict(s: Schedule.ScheduleConfig): ODict.Dict<string, Value> {
    [("trigger", s.trigger), ("hour", s.hour), ("minute", s.minute), ("second", s.second),
     ("day_of_week", s.dayOfWeek), ("day", s.day), ("interval_seconds", s.intervalSeconds)]
  }

  lemma ScheduleDictKeys(s: Schedule.ScheduleConfig)
    ensures forall k :: k in ODict.Keys(ScheduleToDict(s)) ==> k in Schedule.FieldNames
  {
    var r := ScheduleToDict(s);
    assert forall i :: 0 <= i < |r| ==> r[i].0 in Schedule.FieldNames;
  }

  /** `to_dict` */
  function ToDict(e: Entry): (r: Value)
    ensures r.Dict? && |r.entries| == 7
  {
    Dict([
      ("job_id", Str(e.jobId)),
      ("config", Dict(e.config)),
      ("schedule", if e.schedule.Some? then Dict(ScheduleToDict(e.schedule.value)) else Null),
      ("source", Str(e.source)),
      ("registered_at", StampText(e.registeredAt)),
      ("last_triggered", if e.lastTriggered.Some? then StampText(e.lastTriggered.value) else Null),
      ("execution_count", Int(e.executionCount))
    ])
  }

  /** `data[key]`: KeyError when absent. */
  function Required(d: ODict.Dict<string, Value>, key: string): (r: Result<Value>)
    ensures r.Ok? <==> key in ODict.Keys(d)
    ensures r.Ok? ==> ODict.Get(d, key) == Some(r.value)
  {
    match ODict.Get(d, key)
    case Some(v) => Ok(v)
    case None => Err(KeyError(key))
  }

  /** `ScheduleConfig(**data["schedule"]) if data.get("schedule") else None` */
  function ParseSchedule(v: Option<Value>): (r: Result<Option<Schedule.ScheduleConfig>>)
    ensures (v.None? || !Truthy(v.value)) ==> r == Ok(None)
  {
    if v.Some? && Truthy(v.value) then
      var s :- Schedule.FromEnv(v.value);
      Ok(Some(s))
    else Ok(None)
  }

  /** The constructor arguments `from_dict` reads first: id, configuration,
      schedule and source. */
  datatype Head = Head(id: Value, config: Value, schedule: Option<Schedule.ScheduleConfig>, source: Value)

  function ReadHead(d: ODict.Dict<string, Value>): (r: Result<Head>)
    ensures r.Ok? ==> "job_id" in ODict.Keys(d)
  {
    var id :- Required(d, "job_id");
    var config :- Required(d, "config");
    var schedule :- ParseSchedule(ODict.Get(d, "schedule"));
    Ok(Head(id, config, schedule, ODict.Get(d, "source").GetOr(Str("api"))))
  }

  /** The history `from_dict` then restores: registration instant, last
      trigger and count. */
  datatype History = History(registered: Time, last: Option<Time>, count: Value)

  function ReadHistory(d: ODict.Dict<string, Value>): (r: Result<History>)
    ensures r.Ok? ==> "registered_at" in ODict.Keys(d)
  {
    var stamp :- Required(d, "registered_at");
    var registered :- ParseStamp(stamp);
    var l := ODict.Get(d, "last_triggered");
    var last :- ParseLast(l);
    Ok(History(registered, last, ODict.Get(d, "execution_count").GetOr(Int(0))))
  }

  /** `fromisoformat(data["last_triggered"]) if data.get("last_triggered")` */
  function ParseLast(l: Option<Value>): Result<Option<Time>> {
    if l.Some? && Truthy(l.value) then
      var t :- ParseStamp(l.value);
      Ok(Some(t))
    else Ok(None)
  }

  /** `from_dict`. The job id, configuration, source and count must have the
      types `to_dict` writes (TypeError otherwise). */
  function FromDict(data: Value): (r: Result<Entry>)
    ensures r.Ok? ==> data.Dict? && "job_id" in ODict.Keys(data.entries)
    ensures r.Ok? ==> "registered_at" in ODict.Keys(data.entries)
  {
    if !data.Dict? then Err(TypeError("from_dict expects a mapping"))
    else
      var h :- ReadHead(data.entries);
      var t :- ReadHistory(data.entries);
      if !h.id.Str? || !h.config.Dict? || !h.source.Str? || !t.count.Int? then Err(TypeError("unexpected field type"))
      else Ok(Entry(h.id.s, h.config.entries, h.schedule, h.source.s, t.registered, t.last, t.count.i))
  }

  /** A schedule as stored is a validated one. */
  predicate Storable(e: Entry) {
    e.schedule.Some? ==> Schedule.Validate(e.schedule.value).Ok?
  }

  /** Reading back a stored schedule gives the same schedule. */
  lemma ScheduleRoundTrip(s: Schedule.ScheduleConfig)
    requires Schedule.Validate(s).Ok?
    ensures ParseSchedule(Some(Dict(ScheduleToDict(s)))) == Ok(Some(s))
  {
    var env := ScheduleToDict(s);
    ScheduleDictKeys(s);
    Schedule.FromEnvOf(env);
    ScheduleGets(s);
    var c := Schedule.ScheduleConfig(
      ODict.Get(env, "trigger").GetOr(Null), ODict.Get(env, "hour").GetOr(Null),
      ODict.Get(env, "minute").GetOr(Int(0)), ODict.Get(env, "second").GetOr(Int(0)),
      ODict.Get(env, "day_of_week").GetOr(Schedule.Star), ODict.Get(env, "day").GetOr(Schedule.Star),
      ODict.Get(env, "interval_seconds").GetOr(Null));
    assert c == s;
    assert Schedule.FromEnv(Dict(env)) == Ok(s);
    assert Truthy(Dict(env));
  }

  lemma ScheduleAt(s: Schedule.ScheduleConfig, i: nat)
    requires i < 7
    ensures ODict.Get(ScheduleToDict(s), ScheduleToDict(s)[i].0) == Some(ScheduleToDict(s)[i].1)
  {
    var env := ScheduleToDict(s);
    assert forall j :: 0 <= j < i ==> env[j].0 != env[i].0;
    ODict.GetAt(env, i);
  }

  lemma ScheduleGets(s: Schedule.ScheduleConfig)
    ensures var env := ScheduleToDict(s);
      && ODict.Get(env, "trigger") == Some(s.trigger)
      && ODict.Get(env, "hour") == Some(s.hour)
      && ODict.Get(env, "minute") == Some(s.minute)
      && ODict.Get(env, "second") == Some(s.second)
      && ODict.Get(env, "day_of_week") == Some(s.dayOfWeek)
      && ODict.Get(env, "day") == Some(s.day)
      && ODict.Get(env, "interval_seconds") == Some(s.intervalSeconds)
  {
    ScheduleAt(s, 0); ScheduleAt(s, 1); ScheduleAt(s, 2); ScheduleAt(s, 3);
    ScheduleAt(s, 4); ScheduleAt(s, 5); ScheduleAt(s, 6);
  }

  lemma EntryAt(e: Entry, i: nat)
    requires i < 7
    ensures ODict.Get(ToDict(e).entries, ToDict(e).entries[i].0) == Some(ToDict(e).entries[i].1)
  {
    var d := ToDict(e).entries;
    assert forall j :: 0 <= j < i ==> d[j].0 != d[i].0;
    ODict.GetAt(d, i);
  }

  lemma EntryGets(e: Entry)
    ensures var d := ToDict(e).entries;
      && ODict.Get(d, "job_id") == Some(d[0].1)
      && ODict.Get(d, "config") == Some(d[1].1)
      && ODict.Get(d, "schedule") == Some(d[2].1)
      && ODict.Get(d, "source") == Some(d[3].1)
      && ODict.Get(d, "registered_at") == Some(d[4].1)
      && ODict.Get(d, "last_triggered") == Some(d[5].1)
      && ODict.Get(d, "execution_count") == Some(d[6].1)
  {
    EntryAt(e, 0); EntryAt(e, 1); EntryAt(e, 2); EntryAt(e, 3);
    EntryAt(e, 4); EntryAt(e, 5); EntryAt(e, 6);
  }

  /** `from_dict(to_dict(e))` gives back the entry: id, configuration,
      schedule, source, both instants and the count. */
  lemma EntryRoundTrip(e: Entry)
    requires Storable(e)
    ensures FromDict(ToDict(e)) == Ok(e)
  {
    var d := ToDict(e).entries;
    EntryGets(e);
    HeadOf(d, e);
    HistoryOf(d, e);
    Assembled(d, e);
  }

  lemma Assembled(d: ODict.Dict<string, Value>, e: Entry)
    requires ReadHead(d) == Ok(Head(Str(e.jobId), Dict(e.config), e.schedule, Str(e.source)))
    requires ReadHistory(d) == Ok(History(e.registeredAt, e.lastTriggered, Int(e.executionCount)))
    ensures FromDict(Dict(d)) == Ok(e)
  {
  }

  lemma HeadOf(d: ODict.Dict<string, Value>, e: Entry)
    requires Storable(e)
    requires ODict.Get(d, "job_id") == Some(Str(e.jobId)) && ODict.Get(d, "config") == Some(Dict(e.config))
    requires ODict.Get(d, "schedule") == Some(if e.schedule.Some? then Dict(ScheduleToDict(e.schedule.value)) else Null)
    requires ODict.Get(d, "source") == Some(Str(e.source))
    ensures ReadHead(d) == Ok(Head(Str(e.jobId), Dict(e.config), e.schedule, Str(e.source)))
  {
    if e.schedule.Some? {
      ScheduleRoundTrip(e.schedule.value);
    }
  }

  lemma HistoryOf(d: ODict.Dict<string, Value>, e: Entry)
    requires ODict.Get(d, "registered_at") == Some(StampText(e.registeredAt))
    requires ODict.Get(d, "last_triggered") == Some(if e.lastTriggered.Some? then StampText(e.lastTriggered.value) else Null)
    requires ODict.Get(d, "execution_count") == Some(Int(e.executionCount))
    ensures ReadHistory(d) == Ok(History(e.registeredAt, e.lastTriggered, Int(e.executionCount)))
  {
    StampRoundTrip(e.registeredAt);
    if e.lastTriggered.Some? {
      StampRoundTrip(e.lastTriggered.value);
    }
  }
}

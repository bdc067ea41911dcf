/** `ScheduleConfig`: the schedule a plugin may attach to a job, its
    validation on construction, and its conversion to the job options of the
    timer library (a cron trigger or an interval trigger). */
module Schedule {
  import opened Wrappers
  import ODict
  import opened Py

  /** The fields as constructed; every one is an arbitrary Python value
      because the dataclass does not check types. */
  datatype ScheduleConfig = ScheduleConfig(
    trigger: Value,
    hour: Value,
    minute: Value,
    second: Value,
    dayOfWeek: Value,
    day: Value,
    intervalSeconds: Value)

  const Cron: Value := Str("cron")
  const Interval: Value := Str("interval")
  const Star: Value := Str("*")

  /** The declared fields and their defaults; every field has one. */
  const Fields: seq<Field> := [
    Field("trigger", Some(Null)),
    Field("hour", Some(Null)),
    Field("minute", Some(Int(0))),
    Field("second", Some(Int(0))),
    Field("day_of_week", Some(Star)),
    Field("day", Some(Star)),
    Field("interval_seconds", Some(Null))
  ]

  /** The reasons `__post_init__` rejects a configuration. */
  predicate NoTrigger(c: ScheduleConfig) { !Truthy(c.trigger) }
  predicate CronWithoutHour(c: ScheduleConfig) { c.trigger == Cron && c.hour == Null }
  predicate IntervalWithoutSeconds(c: ScheduleConfig) { c.trigger == Interval && !Truthy(c.intervalSeconds) }

  /** The messages of the three checks. */
  const NoTriggerMessage := "trigger must be specified for Schedule configuration."
  const NoHourMessage := "hour must be specified for cron trigger."
  const NoSecondsMessage := "interval_seconds must be specified for interval trigger."

  /** `__post_init__`: the first failing check raises ValueError. */
  function Validate(c: ScheduleConfig): (r: Result<ScheduleConfig>)
    ensures r.Ok? ==> r.value == c
    ensures r.Err? ==> r.error.ValueError?
  {
    if !Truthy(c.trigger) then Err(ValueError(NoTriggerMessage))
    else if c.trigger == Cron && c.hour == Null then Err(ValueError(NoHourMessage))
    else if c.trigger == Interval && !Truthy(c.intervalSeconds) then
      Err(ValueError(NoSecondsMessage))
    else Ok(c)
  }

  /** Exactly the three documented defects are rejected; anything else,
      including an unknown trigger name, passes. */
  lemma ValidateExactly(c: ScheduleConfig)
    ensures Validate(c).Err? <==> NoTrigger(c) || CronWithoutHour(c) || IntervalWithoutSeconds(c)
  {
  }

  /** `ScheduleConfig(**env)`: keyword construction, then validation. */
  function FromEnv(env: Value): (r: Result<ScheduleConfig>)
    ensures r.Ok? ==> AcceptsKwargs(env, Fields)
    ensures r.Ok? ==> !NoTrigger(r.value) && !CronWithoutHour(r.value) && !IntervalWithoutSeconds(r.value)
  {
    var a :- Construct(env, Fields);
    Validate(ScheduleConfig(Attr(a, "trigger"), Attr(a, "hour"), Attr(a, "minute"), Attr(a, "second"),
                            Attr(a, "day_of_week"), Attr(a, "day"), Attr(a, "interval_seconds")))
  }

  /** A cron schedule naming only its hour gets minute 0, second 0 and
      every day. */
  lemma CronDefaults(h: int)
    ensures FromEnv(Dict([("trigger", Cron), ("hour", Int(h))]))
         == Ok(ScheduleConfig(Cron, Int(h), Int(0), Int(0), Star, Star, Null))
  {
    var env := [("trigger", Cron), ("hour", Int(h))];
    CronHourKeys(h);
    FromEnvOf(env);
    var c := ScheduleConfig(Cron, Int(h), Int(0), Int(0), Star, Star, Null);
    assert Validate(c) == Ok(c);
  }

  /** The two keys of an hour-only cron section and what they hold. */
  lemma CronHourKeys(h: int)
    ensures var env := [("trigger", Cron), ("hour", Int(h))];
      && ODict.Keys(env) == {"trigger", "hour"}
      && ODict.Get(env, "trigger") == Some(Cron) && ODict.Get(env, "hour") == Some(Int(h))
      && ODict.Get(env, "minute").None? && ODict.Get(env, "second").None?
      && ODict.Get(env, "day_of_week").None? && ODict.Get(env, "day").None?
      && ODict.Get(env, "interval_seconds").None?
  {
  }

  /** The attributes built from keyword arguments that name declared fields
      only: given values win, defaults fill the rest. */
  lemma ConstructedFrom(env: ODict.Dict<string, Value>) returns (a: Attrs)
    requires forall k :: k in ODict.Keys(env) ==> k in FieldNames
    ensures Construct(Dict(env), Fields) == Ok(a)
    ensures forall n :: n in FieldNames ==> Attr(a, n) == ODict.Get(env, n).GetOr(DefaultOf(Fields, n))
  {
    NamesOfFields();
    assert AcceptsKwargs(Dict(env), Fields);
    a := Construct(Dict(env), Fields).value;
  }

  /** `ScheduleConfig(**env)` for keyword arguments naming declared fields
      only: each field takes its given value, else its default. */
  lemma FromEnvOf(env: ODict.Dict<string, Value>)
    requires forall k :: k in ODict.Keys(env) ==> k in FieldNames
    ensures FromEnv(Dict(env)) == Validate(ScheduleConfig(
      ODict.Get(env, "trigger").GetOr(Null), ODict.Get(env, "hour").GetOr(Null),
      ODict.Get(env, "minute").GetOr(Int(0)), ODict.Get(env, "second").GetOr(Int(0)),
      ODict.Get(env, "day_of_week").GetOr(Star), ODict.Get(env, "day").GetOr(Star),
      ODict.Get(env, "interval_seconds").GetOr(Null)))
  {
    var a := ConstructedFrom(env);
    DefaultsOf();
    assert Attr(a, "trigger") == ODict.Get(env, "trigger").GetOr(Null);
    assert Attr(a, "hour") == ODict.Get(env, "hour").GetOr(Null);
    assert Attr(a, "minute") == ODict.Get(env, "minute").GetOr(Int(0));
    assert Attr(a, "second") == ODict.Get(env, "second").GetOr(Int(0));
    assert Attr(a, "day_of_week") == ODict.Get(env, "day_of_week").GetOr(Star);
    assert Attr(a, "day") == ODict.Get(env, "day").GetOr(Star);
    assert Attr(a, "interval_seconds") == ODict.Get(env, "interval_seconds").GetOr(Null);
  }

  const FieldNames: set<string> := {"trigger", "hour", "minute", "second", "day_of_week", "day", "interval_seconds"}

  lemma NamesOfFields()
    ensures Names(Fields) == FieldNames
  {
    forall n | n in FieldNames ensures n in Names(Fields) {
      assert Fields[0].name == "trigger" && Fields[1].name == "hour" && Fields[2].name == "minute";
      assert Fields[3].name == "second" && Fields[4].name == "day_of_week";
      assert Fields[5].name == "day" && Fields[6].name == "interval_seconds";
    }
  }

  /** The defaults the dataclass declares. */
  lemma DefaultsOf()
    ensures DefaultOf(Fields, "trigger") == Null && DefaultOf(Fields, "hour") == Null
    ensures DefaultOf(Fields, "minute") == Int(0) && DefaultOf(Fields, "second") == Int(0)
    ensures DefaultOf(Fields, "day_of_week") == Star && DefaultOf(Fields, "day") == Star
    ensures DefaultOf(Fields, "interval_seconds") == Null
  {
    DefaultAt(Fields, 0);
    DefaultAt(Fields, 1);
    DefaultAt(Fields, 2);
    DefaultAt(Fields, 3);
    DefaultAt(Fields, 4);
    DefaultAt(Fields, 5);
    DefaultAt(Fields, 6);
  }

  /** A negative interval is accepted: only None and 0 are refused. */
  lemma NegativeIntervalAccepted(n: int)
    requires n < 0
    ensures Validate(ScheduleConfig(Interval, Null, Int(0), Int(0), Star, Star, Int(n))).Ok?
  {
  }

  /** A missing trigger is refused whatever else is given. */
  lemma TriggerRequired(env: Value)
    requires env.Dict? && "trigger" !in ODict.Keys(env.entries)
    ensures FromEnv(env).Err?
    ensures FromEnv(env).error.ValueError? || FromEnv(env).error.TypeError?
  {
    var r := Construct(env, Fields);
    if r.Ok? {
      assert "trigger" in Names(Fields) by { assert Fields[0].name == "trigger"; }
      assert r.value["trigger"] == DefaultOf(Fields, "trigger");
    }
  }

  // -----------------------------------------------------------------------
  // Conversion

  /** `to_apscheduler_config` */
  function ToAps(c: ScheduleConfig): (r: ODict.Dict<string, Value>)
    ensures ODict.UniqueKeys(r)
  {
    if c.trigger == Cron then
      [("trigger", Cron), ("hour", c.hour), ("minute", c.minute), ("second", c.second),
       ("day_of_week", c.dayOfWeek)]
      + (if c.day != Star then [("day", c.day)] else [])
    else [("trigger", Interval), ("seconds", c.intervalSeconds)]
  }

  /** A cron conversion has exactly the cron keys, with `day` only when it
      is not "*". */
  lemma CronKeys(c: ScheduleConfig)
    requires c.trigger == Cron
    ensures ODict.Keys(ToAps(c)) == {"trigger", "hour", "minute", "second", "day_of_week"}
                                    + (if c.day != Star then {"day"} else {})
  {
    var base := [("trigger", Cron), ("hour", c.hour), ("minute", c.minute), ("second", c.second),
                 ("day_of_week", c.dayOfWeek)];
    ODict.FiveKeys(base);
    if c.day != Star {
      ODict.KeysConcat(base, [("day", c.day)]);
    } else {
      assert ToAps(c) == base;
    }
  }

  /** Every trigger other than "cron" becomes an interval of
      `interval_seconds`. */
  lemma NonCronIsInterval(c: ScheduleConfig)
    requires c.trigger != Cron
    ensures ODict.Keys(ToAps(c)) == {"trigger", "seconds"}
    ensures ODict.Get(ToAps(c), "trigger") == Some(Interval)
    ensures ODict.Get(ToAps(c), "seconds") == Some(c.intervalSeconds)
  {
  }

  /** The cron fields as the timer library reads them back, with `day`
      defaulting to every day. */
  function ReadCron(d: ODict.Dict<string, Value>): (Value, Value, Value, Value, Value) {
    (ODict.Get(d, "hour").GetOr(Null), ODict.Get(d, "minute").GetOr(Null),
     ODict.Get(d, "second").GetOr(Null), ODict.Get(d, "day_of_week").GetOr(Star),
     ODict.Get(d, "day").GetOr(Star))
  }

  /** Nothing of a cron schedule is lost in conversion: reading the options
      back gives the configured fields. */
  lemma CronRoundTrip(c: ScheduleConfig)
    requires c.trigger == Cron
    ensures ReadCron(ToAps(c)) == (c.hour, c.minute, c.second, c.dayOfWeek, c.day)
  {
    var d := ToAps(c);
    assert d[1] == ("hour", c.hour) && d[2] == ("minute", c.minute) && d[3] == ("second", c.second);
    assert d[4] == ("day_of_week", c.dayOfWeek);
    ODict.GetStored(d, "hour", c.hour);
    ODict.GetStored(d, "minute", c.minute);
    ODict.GetStored(d, "second", c.second);
    ODict.GetStored(d, "day_of_week", c.dayOfWeek);
    if c.day != Star {
      assert d[5] == ("day", c.day);
      ODict.GetStored(d, "day", c.day);
    } else {
      CronKeys(c);
    }
  }

  /** A validated interval schedule converts to a truthy period. */
  lemma ValidIntervalHasPeriod(c: ScheduleConfig)
    requires Validate(c).Ok? && c.trigger == Interval
    ensures ODict.Get(ToAps(c), "seconds").Some? && Truthy(ODict.Get(ToAps(c), "seconds").value)
  {
  }
}

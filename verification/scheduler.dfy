/** The server's scheduler service: execution contexts keyed by job id, the
    job registry it records jobs in, and the set of ids for which a timer is
    armed (the timer library itself is abstracted to that set). */
module Scheduler {
  import opened Wrappers
  import ODict
  import opened Py
  import Plugins
  import Runner
  import Schedule
  import JobRegistry

  type Time = JobRegistry.Time
  type Config = ODict.Dict<string, Value>

  /** What the instance's `validate`, `can_run`, `startup_phase`,
      `execution_phase` and `shutdown_phase` do. The instance class the
      scheduler uses defines none of them, so they are uninterpreted here: a
      boolean answer or a raised error for the first two, completion or a
      raised error for the phases. */
  datatype Phases = Phases(validate: Runner.Answer, canRun: Runner.Answer,
                           startup: Runner.Step, execution: Runner.Step, shutdown: Runner.Step)

  /** The phase methods an instance offers, as a function of its
      configuration and loaded plugins. */
  type Methods = (Config, Runner.Loaded) -> Phases

  /** An `LDXInstance` as the scheduler sees it. */
  datatype Instance = Instance(config: Config, plugins: Runner.Loaded, phases: Phases)

  /** `LDXInstance(config)` followed by `load_plugins()`, which may raise. */
  function Build(config: Config, reg: Plugins.Registry, make: Runner.Maker, methods: Methods)
    : (r: Result<Instance>)
    ensures r.Ok? ==> r.value.config == config && Runner.Load(reg, config, make).Loaded?
    ensures r.Ok? ==> r.value.plugins == Runner.Load(reg, config, make).plugins
  {
    match Runner.Load(reg, config, make)
    case LoadFailed(_, e) => Err(e)
    case Loaded(ps, _) => Ok(Instance(config, ps, methods(config, ps)))
  }

  datatype Status = Pending | Running | Completed | Failed

  /** The statuses `remove_job` refuses: not yet run, or running. */
  predicate InProgress(st: Status) { st == Pending || st == Running }

  /** `JobExecutionContext` */
  datatype Context = Context(jobId: string, instance: Instance, startTime: Option<Time>,
                             endTime: Option<Time>, status: Status, error: Option<Error>)

  function NewContext(id: string, inst: Instance): (c: Context)
    ensures c.status == Pending && c.error.None? && c.startTime.None? && c.endTime.None?
  {
    Context(id, inst, None, None, Pending, None)
  }

  type Contexts = ODict.Dict<string, Context>

  /** `SchedulerService`'s state: `job_contexts`, `registry`, the ids of
      the jobs in the timer's job store, and those of them that have no
      trigger, so that they run once and then leave the store. */
  datatype Service = Service(contexts: Contexts, registry: JobRegistry.Registry, armed: set<string>,
                             once: set<string>)

  /** Every context is filed once, under its own job id. */
  predicate Filed(cs: Contexts) {
    && ODict.UniqueKeys(cs)
    && forall p :: p in cs ==> p.1.jobId == p.0
  }

  predicate Valid(s: Service) {
    Filed(s.contexts) && JobRegistry.Valid(s.registry)
  }

  lemma PutFiled(cs: Contexts, id: string, c: Context)
    requires Filed(cs) && c.jobId == id
    ensures Filed(ODict.Put(cs, id, c))
  {
    ODict.PutUnique(cs, id, c);
    ODict.PutElems(cs, id, c);
  }

  lemma RemoveFiled(cs: Contexts, id: string)
    requires Filed(cs)
    ensures Filed(ODict.Remove(cs, id))
  {
    ODict.RemoveGet(cs, id, id);
    ODict.RemoveUnique(cs, id);
  }

  // -----------------------------------------------------------------------
  // schedule_job

  /** `instance_or_config`: a ready instance, or a configuration to build
      one from. */
  datatype Given = Ready(inst: Instance) | FromConfig(config: Config)

  datatype Reply =
    | Scheduled(jobId: string, options: Config)
    | Registered(jobId: string, hint: string)
    | Triggered(jobId: string, executionId: string, message: string)

  /** What an operation leaves behind and what it returns or raises; the
      state is kept on the error path too, because an exception may leave
      changes already made. */
  datatype Outcome = Outcome(state: Service, reply: Result<Reply>)

  function Hint(id: string): string {
    "Trigger execution via POST /api/scheduler/jobs/" + id + "/trigger"
  }

  /** A non-empty overlap description, which `if overlap_info:` treats as
      found. */
  predicate Overlaps(overlap: Option<string>) {
    overlap.Some? && overlap.value != ""
  }

  /** What scheduling refuses a job with. */
  function JobExistsMessage(id: string): string {
    "Job '" + id + "' already exists. Use replace_existing=True to replace."
  }
  const NoValidPluginsMessage := "No valid plugins found in configuration"
  function OverlapMessage(info: string): string {
    "Schedule overlaps with existing jobs: " + info
  }
  const CannotRunMessage := "Not all plugins can run - aborting execution"
  function InvalidInstanceMessage(id: string): string {
    "Failed to create valid instance for job '" + id + "'"
  }
  function JobNotFoundMessage(id: string): string {
    "Job '" + id + "' not found in registry"
  }
  function TriggeredMessage(id: string): string {
    "Job '" + id + "' triggered for immediate execution"
  }

  /** The checks `schedule_job` makes before it changes anything: the id is
      free (or replacing is asked for), the instance builds and validates,
      and a scheduled job overlaps nothing. `overlap` is what the overlap
      check reports. */
  function Admit(s: Service, id: string, given: Given, schedule: Option<Schedule.ScheduleConfig>,
                 replace: bool, overlap: Option<string>, reg: Plugins.Registry, make: Runner.Maker,
                 methods: Methods): (r: Result<Instance>)
    ensures r.Ok? ==> id !in ODict.Keys(s.contexts) || replace
    ensures r.Ok? ==> r.value.phases.validate.Yes?
    ensures r.Ok? ==> schedule.None? || !Overlaps(overlap)
    ensures r.Ok? && given.Ready? ==> r.value == given.inst
  {
    if id in ODict.Keys(s.contexts) && !replace then
      Err(ValueError(JobExistsMessage(id)))
    else
      var inst :- match given
        case Ready(i) => Ok(i)
        case FromConfig(c) => Build(c, reg, make, methods);
      match inst.phases.validate
      case Raise(e) => Err(e)
      case No => Err(ValueError(NoValidPluginsMessage))
      case Yes =>
        if schedule.Some? && Overlaps(overlap) then Err(ValueError(OverlapMessage(overlap.value)))
        else Ok(inst)
  }

  /** `schedule_job` as written: the context is stored before the registry
      is asked, so a registry refusal leaves it behind. */
  function ScheduleJob(s: Service, id: string, given: Given, schedule: Option<Schedule.ScheduleConfig>,
                       replace: bool, overlap: Option<string>, now: Time, reg: Plugins.Registry,
                       make: Runner.Maker, methods: Methods): (r: Outcome)
    ensures id in ODict.Keys(s.contexts) && !replace ==> r == Outcome(s, r.reply) && r.reply.Err?
  {
    match Admit(s, id, given, schedule, replace, overlap, reg, make, methods)
    case Err(e) => Outcome(s, Err(e))
    case Ok(inst) =>
      var cs := ODict.Put(s.contexts, id, NewContext(id, inst));
      match JobRegistry.Register(s.registry, id, inst.config, schedule, "api", replace, now)
      case Err(e) => Outcome(s.(contexts := cs), Err(e))
      case Ok(jobs) =>
        if schedule.Some? then
          Outcome(Service(cs, jobs, s.armed + {id}, s.once - {id}), Ok(Scheduled(id, Schedule.ToAps(schedule.value))))
        else Outcome(Service(cs, jobs, s.armed, s.once), Ok(Registered(id, Hint(id))))
  }

  /** A successful `schedule_job` stores a pending context for the id,
      records the job in the registry with source "api", arms a timer
      exactly when there is a schedule, and keeps the service valid. */
  lemma ScheduleJobSpec(s: Service, id: string, given: Given, schedule: Option<Schedule.ScheduleConfig>,
                        replace: bool, overlap: Option<string>, now: Time, reg: Plugins.Registry,
                        make: Runner.Maker, methods: Methods, other: string)
    requires Valid(s)
    requires ScheduleJob(s, id, given, schedule, replace, overlap, now, reg, make, methods).reply.Ok?
    ensures var inst := Admit(s, id, given, schedule, replace, overlap, reg, make, methods).value;
      var t := ScheduleJob(s, id, given, schedule, replace, overlap, now, reg, make, methods).state;
      && ODict.Get(t.contexts, id) == Some(NewContext(id, inst))
      && (other != id ==> ODict.Get(t.contexts, other) == ODict.Get(s.contexts, other))
      && JobRegistry.GetEntry(t.registry, id) == Some(JobRegistry.NewEntry(id, inst.config, schedule, "api", now))
      && t.armed == (if schedule.Some? then s.armed + {id} else s.armed)
      && (schedule.Some? ==> id !in t.once)
      && Valid(t)
    ensures var r := ScheduleJob(s, id, given, schedule, replace, overlap, now, reg, make, methods).reply.value;
      r == if schedule.Some? then Scheduled(id, Schedule.ToAps(schedule.value)) else Registered(id, Hint(id))
  {
    var inst := Admit(s, id, given, schedule, replace, overlap, reg, make, methods).value;
    var c := NewContext(id, inst);
    ODict.PutGet(s.contexts, id, c, other);
    PutFiled(s.contexts, id, c);
    JobRegistry.RegisterSpec(s.registry, id, inst.config, schedule, "api", replace, now, other);
  }

  /** A job the registry already holds, with no context yet and no request
      to replace: `schedule_job` raises ValueError, yet a pending context for
      the id stays behind, so a retry is refused as a duplicate and
      `remove_job` will not clear it. */
  lemma RegistryRefusalLeavesContext(s: Service, id: string, inst: Instance, now: Time,
                                     reg: Plugins.Registry, make: Runner.Maker, methods: Methods)
    requires id !in ODict.Keys(s.contexts) && JobRegistry.Exists(s.registry, id)
    requires inst.phases.validate.Yes?
    ensures var r := ScheduleJob(s, id, Ready(inst), None, false, None, now, reg, make, methods);
      && r.reply.Err? && r.reply.error.ValueError?
      && ODict.Get(r.state.contexts, id) == Some(NewContext(id, inst))
      && ScheduleJob(r.state, id, Ready(inst), None, false, None, now, reg, make, methods).reply.Err?
      && !RemoveJob(r.state, id).0
  {
    var c := NewContext(id, inst);
    StoredBeforeRefusal(s, id, inst, now, reg, make, methods);
    ODict.PutGetSame(s.contexts, id, c);
    var t := s.(contexts := ODict.Put(s.contexts, id, c));
    assert ODict.Get(t.contexts, id) == Some(c);
  }

  /** The refusal comes after the context is stored. */
  lemma StoredBeforeRefusal(s: Service, id: string, inst: Instance, now: Time,
                            reg: Plugins.Registry, make: Runner.Maker, methods: Methods)
    requires id !in ODict.Keys(s.contexts) && JobRegistry.Exists(s.registry, id)
    requires inst.phases.validate.Yes?
    ensures var r := ScheduleJob(s, id, Ready(inst), None, false, None, now, reg, make, methods);
      && r.state == s.(contexts := ODict.Put(s.contexts, id, NewContext(id, inst)))
      && r.reply.Err? && r.reply.error.ValueError?
  {
    assert Admit(s, id, Ready(inst), None, false, None, reg, make, methods) == Ok(inst);
    assert JobRegistry.Register(s.registry, id, inst.config, None, "api", false, now).Err?;
  }

  /** `schedule_job` with the registry asked first, so that a refusal
      leaves the service as it was. */
  function ScheduleJobAtomic(s: Service, id: string, given: Given, schedule: Option<Schedule.ScheduleConfig>,
                             replace: bool, overlap: Option<string>, now: Time, reg: Plugins.Registry,
                             make: Runner.Maker, methods: Methods): (r: Outcome)
  {
    match Admit(s, id, given, schedule, replace, overlap, reg, make, methods)
    case Err(e) => Outcome(s, Err(e))
    case Ok(inst) =>
      match JobRegistry.Register(s.registry, id, inst.config, schedule, "api", replace, now)
      case Err(e) => Outcome(s, Err(e))
      case Ok(jobs) =>
        var cs := ODict.Put(s.contexts, id, NewContext(id, inst));
        if schedule.Some? then
          Outcome(Service(cs, jobs, s.armed + {id}, s.once - {id}), Ok(Scheduled(id, Schedule.ToAps(schedule.value))))
        else Outcome(Service(cs, jobs, s.armed, s.once), Ok(Registered(id, Hint(id))))
  }

  /** The reordered operation raises exactly when the original does, leaves
      the service unchanged whenever it raises, and agrees with the original
      whenever it succeeds. */
  lemma AtomicScheduleJob(s: Service, id: string, given: Given, schedule: Option<Schedule.ScheduleConfig>,
                          replace: bool, overlap: Option<string>, now: Time, reg: Plugins.Registry,
                          make: Runner.Maker, methods: Methods)
    ensures var a := ScheduleJobAtomic(s, id, given, schedule, replace, overlap, now, reg, make, methods);
      var w := ScheduleJob(s, id, given, schedule, replace, overlap, now, reg, make, methods);
      && a.reply == w.reply
      && (a.reply.Err? ==> a.state == s)
      && (a.reply.Ok? ==> a.state == w.state)
  {
  }

  // -----------------------------------------------------------------------
  // _execute_job

  /** The phase methods `_execute_job` calls, in call order. */
  datatype Call = CallCanRun | CallStartup | CallExecution | CallShutdown

  /** The `try` block: check `can_run`, then run the three phases; the first
      error ends the block. */
  function TryBlock(p: Phases): (r: (seq<Call>, Option<Error>))
    ensures 1 <= |r.0| <= 4 && r.0 == [CallCanRun, CallStartup, CallExecution, CallShutdown][..|r.0|]
  {
    match p.canRun
    case No => ([CallCanRun], Some(RuntimeError(CannotRunMessage)))
    case Raise(e) => ([CallCanRun], Some(e))
    case Yes =>
      if p.startup.Fail? then ([CallCanRun, CallStartup], Some(p.startup.e))
      else if p.execution.Fail? then ([CallCanRun, CallStartup, CallExecution], Some(p.execution.e))
      else if p.shutdown.Fail? then ([CallCanRun, CallStartup, CallExecution, CallShutdown], Some(p.shutdown.e))
      else ([CallCanRun, CallStartup, CallExecution, CallShutdown], None)
  }

  /** The context as `_execute_job` leaves it, and the phase calls made:
      on an error the status becomes failed, the error is kept and the
      shutdown phase is called once more (its own error is swallowed); the
      end time is set either way. A success leaves an earlier error in
      place. */
  function Execute(c: Context, started: Time, ended: Time): (r: (Context, seq<Call>))
    ensures r.0.jobId == c.jobId && r.0.instance == c.instance
  {
    var (calls, err) := TryBlock(c.instance.phases);
    var running := c.(status := Running, startTime := Some(started));
    match err
    case None => (running.(status := Completed, endTime := Some(ended)), calls)
    case Some(e) => (running.(status := Failed, error := Some(e), endTime := Some(ended)), calls + [CallShutdown])
  }

  /** The phases all go through exactly when the run completes; then the
      four phases are called once each in order. Otherwise the run fails
      with the first error and ends with a shutdown call; the shutdown phase
      is called twice exactly when it is the phase that failed. */
  lemma ExecuteSpec(c: Context, started: Time, ended: Time)
    ensures var (c', calls) := Execute(c, started, ended);
      var p := c.instance.phases;
      && c'.startTime == Some(started) && c'.endTime == Some(ended)
      && (c'.status == Completed <==> p.canRun.Yes? && p.startup.Done? && p.execution.Done? && p.shutdown.Done?)
      && (c'.status == Completed ==> calls == [CallCanRun, CallStartup, CallExecution, CallShutdown]
                                     && c'.error == c.error)
      && (c'.status != Completed ==> c'.status == Failed && c'.error.Some? && calls[|calls| - 1] == CallShutdown)
      && (c'.status == Failed && p.canRun.Yes? && p.startup.Done? && p.execution.Done? ==>
            calls == [CallCanRun, CallStartup, CallExecution, CallShutdown, CallShutdown]
            && c'.error == Some(p.shutdown.e))
      && (p.canRun.No? ==> calls == [CallCanRun, CallShutdown] && c'.error.value.RuntimeError?)
  {
  }

  /** The first half of `_execute_job`: the context becomes running. */
  function Begin(s: Service, id: string, started: Time): (r: Service)
    ensures id !in ODict.Keys(s.contexts) ==> r == s
  {
    match ODict.Get(s.contexts, id)
    case None => s
    case Some(c) => s.(contexts := ODict.Put(s.contexts, id, c.(status := Running, startTime := Some(started))))
  }

  /** `_execute_job`: an unknown id changes nothing; otherwise the context
      is replaced by its executed form. */
  function ExecuteJob(s: Service, id: string, started: Time, ended: Time): (r: (Service, seq<Call>))
    ensures id !in ODict.Keys(s.contexts) ==> r == (s, [])
    ensures r.0.registry == s.registry && r.0.armed == s.armed
  {
    match ODict.Get(s.contexts, id)
    case None => (s, [])
    case Some(c) =>
      var (c', calls) := Execute(c, started, ended);
      (s.(contexts := ODict.Put(s.contexts, id, c')), calls)
  }

  /** While `_execute_job` runs, the job is listed as active. */
  lemma BeginSpec(s: Service, id: string, started: Time)
    requires Valid(s) && id in ODict.Keys(s.contexts)
    ensures IsActive(Begin(s, id, started), id)
    ensures Valid(Begin(s, id, started))
  {
    var c := ODict.Get(s.contexts, id).value;
    var running := c.(status := Running, startTime := Some(started));
    assert Begin(s, id, started).contexts == ODict.Put(s.contexts, id, running);
    ODict.PutGet(s.contexts, id, running, id);
    PutFiled(s.contexts, id, running);
    ActiveIff(Begin(s, id, started), id);
  }

  /** Once `_execute_job` returns, the job is completed or failed, has an
      end time and is no longer active; other contexts are untouched and
      the service stays valid. */
  lemma ExecuteJobSpec(s: Service, id: string, started: Time, ended: Time, other: string)
    requires Valid(s) && id in ODict.Keys(s.contexts)
    ensures var t := ExecuteJob(s, id, started, ended).0;
      && ODict.Get(t.contexts, id).Some?
      && (ODict.Get(t.contexts, id).value.status == Completed || ODict.Get(t.contexts, id).value.status == Failed)
      && ODict.Get(t.contexts, id).value.endTime == Some(ended)
      && !IsActive(t, id)
      && (other != id ==> ODict.Get(t.contexts, other) == ODict.Get(s.contexts, other))
      && Valid(t)
  {
    var c := ODict.Get(s.contexts, id).value;
    var c' := Execute(c, started, ended).0;
    ExecuteSpec(c, started, ended);
    var t := ExecuteJob(s, id, started, ended).0;
    assert t.contexts == ODict.Put(s.contexts, id, c');
    ODict.PutGet(s.contexts, id, c', other);
    PutFiled(s.contexts, id, c');
    ActiveIff(t, id);
  }

  /** The timer firing `id`: a job without a trigger leaves the job store
      as it fires, a recurring one stays; then `_execute_job` runs. */
  function Fire(s: Service, id: string, started: Time, ended: Time): (r: (Service, seq<Call>))
    ensures r.0.registry == s.registry
    ensures id in s.once ==> id !in r.0.armed && id !in r.0.once
    ensures id !in s.once ==> r.0.armed == s.armed && r.0.once == s.once
    ensures forall other :: other != id ==> (other in r.0.armed <==> other in s.armed)
  {
    var t := if id in s.once then s.(armed := s.armed - {id}, once := s.once - {id}) else s;
    ExecuteJob(t, id, started, ended)
  }

  // -----------------------------------------------------------------------
  // cancel_job, remove_job

  /** `cancel_job`: refused for an unknown or running job; otherwise the
      timer is disarmed and the context dropped. */
  function CancelJob(s: Service, id: string): (r: (bool, Service))
    ensures !r.0 ==> r.1 == s
    ensures r.1.registry == s.registry
  {
    match ODict.Get(s.contexts, id)
    case None => (false, s)
    case Some(c) =>
      if c.status == Running then (false, s)
      else (true, Service(ODict.Remove(s.contexts, id), s.registry, s.armed - {id}, s.once - {id}))
  }

  lemma CancelJobSpec(s: Service, id: string, other: string)
    requires Valid(s)
    ensures var (ok, t) := CancelJob(s, id);
      && (ok <==> ODict.Get(s.contexts, id).Some? && ODict.Get(s.contexts, id).value.status != Running)
      && (ok ==> id !in ODict.Keys(t.contexts) && t.armed == s.armed - {id})
      && (other != id ==> ODict.Get(t.contexts, other) == ODict.Get(s.contexts, other))
      && Valid(t)
  {
    ODict.RemoveGet(s.contexts, id, other);
    RemoveFiled(s.contexts, id);
  }

  /** `remove_job`: refused for an unknown, pending or running job;
      otherwise only the context is dropped (an armed timer stays). */
  function RemoveJob(s: Service, id: string): (r: (bool, Service))
    ensures !r.0 ==> r.1 == s
    ensures r.1.registry == s.registry && r.1.armed == s.armed
  {
    match ODict.Get(s.contexts, id)
    case None => (false, s)
    case Some(c) =>
      if InProgress(c.status) then (false, s)
      else (true, s.(contexts := ODict.Remove(s.contexts, id)))
  }

  lemma RemoveJobSpec(s: Service, id: string, other: string)
    requires Valid(s)
    ensures var (ok, t) := RemoveJob(s, id);
      && (ok <==> ODict.Get(s.contexts, id).Some? && !InProgress(ODict.Get(s.contexts, id).value.status))
      && (ok ==> id !in ODict.Keys(t.contexts))
      && (other != id ==> ODict.Get(t.contexts, other) == ODict.Get(s.contexts, other))
      && Valid(t)
  {
    if RemoveJob(s, id).0 {
      ODict.RemoveGet(s.contexts, id, other);
      RemoveFiled(s.contexts, id);
    }
  }

  // -----------------------------------------------------------------------
  // trigger_job

  /** The execution id: the job id, an underscore and the timestamp text
      (`stamp` stands for the formatted clock). */
  function ExecutionId(id: string, stamp: string): string {
    id + "_" + stamp
  }

  /** `trigger_job`: an id the registry lacks raises ValueError; otherwise
      an instance is built from the stored configuration, validated, given a
      pending context under a fresh execution id and a one-off timer, and
      the registry counts the trigger. */
  function TriggerJob(s: Service, id: string, now: Time, stamp: string, reg: Plugins.Registry,
                      make: Runner.Maker, methods: Methods): (r: Outcome)
    ensures !JobRegistry.Exists(s.registry, id) ==> r == Outcome(s, r.reply) && r.reply.Err? && r.reply.error.ValueError?
    ensures r.reply.Err? ==> r.state == s
    ensures r.reply.Ok? ==> r.reply.value.Triggered? && r.reply.value.executionId == ExecutionId(id, stamp)
  {
    match JobRegistry.GetEntry(s.registry, id)
    case None => Outcome(s, Err(ValueError(JobNotFoundMessage(id))))
    case Some(e) =>
      match Build(e.config, reg, make, methods)
      case Err(err) => Outcome(s, Err(err))
      case Ok(inst) =>
        match inst.phases.validate
        case Raise(err) => Outcome(s, Err(err))
        case No => Outcome(s, Err(ValueError(InvalidInstanceMessage(id))))
        case Yes =>
          var x := ExecutionId(id, stamp);
          Outcome(Service(ODict.Put(s.contexts, x, NewContext(x, inst)),
                          JobRegistry.MarkTriggered(s.registry, id, now),
                          s.armed + {x}, s.once + {x}),
                  Ok(Triggered(id, x, TriggeredMessage(id))))
  }

  /** A trigger builds its instance exactly as the registry's
      `create_instance` does. */
  lemma TriggerBuildsLikeRegistry(s: Service, id: string, reg: Plugins.Registry, make: Runner.Maker,
                                  methods: Methods)
    requires JobRegistry.Exists(s.registry, id)
    ensures var e := JobRegistry.GetEntry(s.registry, id).value;
      && JobRegistry.CreateInstance(s.registry, id, reg, make) == Some(Runner.Load(reg, e.config, make))
      && (Build(e.config, reg, make, methods).Ok? <==> Runner.Load(reg, e.config, make).Loaded?)
  {
  }

  /** A successful trigger stores a pending context under
      `job_id + "_" + stamp`, arms it, and bumps the job's execution count
      by one, leaving every other context in place. */
  lemma TriggerJobSpec(s: Service, id: string, now: Time, stamp: string, reg: Plugins.Registry,
                       make: Runner.Maker, methods: Methods, other: string)
    requires Valid(s)
    requires TriggerJob(s, id, now, stamp, reg, make, methods).reply.Ok?
    ensures var x := ExecutionId(id, stamp);
      var t := TriggerJob(s, id, now, stamp, reg, make, methods).state;
      && ODict.Get(t.contexts, x).Some? && ODict.Get(t.contexts, x).value.status == Pending
      && (other != x ==> ODict.Get(t.contexts, other) == ODict.Get(s.contexts, other))
      && t.armed == s.armed + {x} && x in t.once
      && JobRegistry.GetEntry(s.registry, id).Some? && JobRegistry.GetEntry(t.registry, id).Some?
      && JobRegistry.GetEntry(t.registry, id).value.executionCount
         == JobRegistry.GetEntry(s.registry, id).value.executionCount + 1
      && Valid(t)
    ensures TriggerJob(s, id, now, stamp, reg, make, methods).reply.value.executionId == ExecutionId(id, stamp)
  {
    var x := ExecutionId(id, stamp);
    assert JobRegistry.Exists(s.registry, id);
    var e := JobRegistry.GetEntry(s.registry, id).value;
    var b := Build(e.config, reg, make, methods);
    assert b.Ok? && b.value.phases.validate.Yes?;
    var c := NewContext(x, b.value);
    var t := Service(ODict.Put(s.contexts, x, c), JobRegistry.MarkTriggered(s.registry, id, now), s.armed + {x}, s.once + {x});
    assert TriggerJob(s, id, now, stamp, reg, make, methods)
        == Outcome(t, Ok(Triggered(id, x, TriggeredMessage(id))));
    ODict.PutGet(s.contexts, x, c, other);
    PutFiled(s.contexts, x, c);
    JobRegistry.MarkTriggeredSpec(s.registry, id, now, id);
    MarkTriggeredValid(s.registry, id, now);
  }

  lemma MarkTriggeredValid(jobs: JobRegistry.Registry, id: string, now: Time)
    requires JobRegistry.Valid(jobs) && JobRegistry.Exists(jobs, id)
    ensures JobRegistry.Valid(JobRegistry.MarkTriggered(jobs, id, now))
  {
    var e := ODict.Get(jobs, id).value;
    var e2 := e.(lastTriggered := Some(now), executionCount := e.executionCount + 1);
    assert (id, e) in jobs;
    assert JobRegistry.MarkTriggered(jobs, id, now) == ODict.Put(jobs, id, e2);
    ODict.PutUnique(jobs, id, e2);
    ODict.PutElems(jobs, id, e2);
  }

  // -----------------------------------------------------------------------
  // get_job_status, list_active_jobs

  datatype JobStatus = JobStatus(jobId: string, status: Status, startTime: Option<Time>, endTime: Option<Time>,
                                 error: Option<Error>, pluginCount: nat, scheduled: bool)

  function StatusOf(id: string, c: Context, armed: set<string>): JobStatus {
    JobStatus(id, c.status, c.startTime, c.endTime, c.error, |c.instance.plugins|, id in armed)
  }

  /** `get_job_status` */
  function GetJobStatus(s: Service, id: string): (r: Option<JobStatus>)
    ensures r.Some? <==> id in ODict.Keys(s.contexts)
    ensures r.Some? ==> r.value.jobId == id && (r.value.scheduled <==> id in s.armed)
  {
    match ODict.Get(s.contexts, id)
    case None => None
    case Some(c) => Some(StatusOf(id, c, s.armed))
  }

  /** A triggered execution is listed as scheduled until its timer fires;
      once it has run it is completed or failed and no longer scheduled. */
  lemma TriggeredRunsOnce(s: Service, id: string, now: Time, stamp: string, reg: Plugins.Registry,
                          make: Runner.Maker, methods: Methods, started: Time, ended: Time)
    requires Valid(s)
    requires TriggerJob(s, id, now, stamp, reg, make, methods).reply.Ok?
    ensures var x := ExecutionId(id, stamp);
      var t := TriggerJob(s, id, now, stamp, reg, make, methods).state;
      var u := Fire(t, x, started, ended).0;
      && GetJobStatus(t, x).Some? && GetJobStatus(t, x).value.scheduled
      && GetJobStatus(u, x).Some? && !GetJobStatus(u, x).value.scheduled
      && (GetJobStatus(u, x).value.status == Completed || GetJobStatus(u, x).value.status == Failed)
  {
    var x := ExecutionId(id, stamp);
    var t := TriggerJob(s, id, now, stamp, reg, make, methods).state;
    TriggerJobSpec(s, id, now, stamp, reg, make, methods, x);
    var t' := t.(armed := t.armed - {x}, once := t.once - {x});
    assert Valid(t') && x in ODict.Keys(t'.contexts);
    ExecuteJobSpec(t', x, started, ended, x);
  }

  /** A job scheduled with a trigger stays scheduled after each run. */
  lemma RecurringStaysArmed(s: Service, id: string, given: Given, schedule: Option<Schedule.ScheduleConfig>,
                            replace: bool, overlap: Option<string>, now: Time, reg: Plugins.Registry,
                            make: Runner.Maker, methods: Methods, started: Time, ended: Time)
    requires Valid(s) && schedule.Some?
    requires ScheduleJob(s, id, given, schedule, replace, overlap, now, reg, make, methods).reply.Ok?
    ensures var t := ScheduleJob(s, id, given, schedule, replace, overlap, now, reg, make, methods).state;
      var u := Fire(t, id, started, ended).0;
      && GetJobStatus(u, id).Some? && GetJobStatus(u, id).value.scheduled
  {
    var t := ScheduleJob(s, id, given, schedule, replace, overlap, now, reg, make, methods).state;
    ScheduleJobSpec(s, id, given, schedule, replace, overlap, now, reg, make, methods, id);
    ExecuteJobSpec(t, id, started, ended, id);
  }

  function ActiveIn(cs: Contexts, armed: set<string>): (r: seq<JobStatus>)
    ensures forall j :: 0 <= j < |r| ==> r[j].status == Running && r[j].jobId in ODict.Keys(cs)
  {
    if |cs| == 0 then []
    else
      var rest := ActiveIn(cs[1..], armed);
      if cs[0].1.status == Running then [StatusOf(cs[0].0, cs[0].1, armed)] + rest else rest
  }

  /** `list_active_jobs`: the status of every running context, in
      insertion order. */
  function ListActiveJobs(s: Service): seq<JobStatus> {
    ActiveIn(s.contexts, s.armed)
  }

  /** `id` is among the jobs `list_active_jobs` reports. */
  predicate IsActive(s: Service, id: string) {
    Lists(ListActiveJobs(s), id)
  }

  predicate Lists(r: seq<JobStatus>, id: string) {
    exists j :: 0 <= j < |r| && r[j].jobId == id
  }

  lemma {:induction false} ActiveInIff(cs: Contexts, armed: set<string>, id: string)
    requires ODict.UniqueKeys(cs)
    ensures Lists(ActiveIn(cs, armed), id)
        <==> ODict.Get(cs, id).Some? && ODict.Get(cs, id).value.status == Running
  {
    if |cs| > 0 {
      assert ODict.UniqueKeys(cs[1..]);
      ActiveInIff(cs[1..], armed, id);
      if cs[0].0 == id {
        ActiveAtHead(cs, armed, id);
      } else {
        ActivePastHead(cs, armed, id);
      }
    }
  }

  lemma ActiveAtHead(cs: Contexts, armed: set<string>, id: string)
    requires ODict.UniqueKeys(cs) && |cs| > 0 && cs[0].0 == id
    ensures Lists(ActiveIn(cs, armed), id) <==> cs[0].1.status == Running
  {
    var rest := ActiveIn(cs[1..], armed);
    assert id !in ODict.Keys(cs[1..]);
    assert !Lists(rest, id);
    if cs[0].1.status == Running {
      assert ActiveIn(cs, armed)[0].jobId == id;
    } else {
      assert ActiveIn(cs, armed) == rest;
    }
  }

  lemma ActivePastHead(cs: Contexts, armed: set<string>, id: string)
    requires |cs| > 0 && cs[0].0 != id
    ensures Lists(ActiveIn(cs, armed), id) <==> Lists(ActiveIn(cs[1..], armed), id)
    ensures ODict.Get(cs, id) == ODict.Get(cs[1..], id)
  {
    var rest := ActiveIn(cs[1..], armed);
    var r := ActiveIn(cs, armed);
    if cs[0].1.status == Running {
      assert r == [StatusOf(cs[0].0, cs[0].1, armed)] + rest;
      if Lists(rest, id) {
        var j :| 0 <= j < |rest| && rest[j].jobId == id;
        assert r[j + 1] == rest[j];
      }
      if Lists(r, id) {
        var j :| 0 <= j < |r| && r[j].jobId == id;
        assert j > 0 && r[j] == rest[j - 1];
      }
    }
  }

  /** A job is listed as active exactly when it has a running context. */
  lemma ActiveIff(s: Service, id: string)
    requires Filed(s.contexts)
    ensures IsActive(s, id) <==> ODict.Get(s.contexts, id).Some? && ODict.Get(s.contexts, id).value.status == Running
  {
    ActiveInIff(s.contexts, s.armed, id);
  }
}

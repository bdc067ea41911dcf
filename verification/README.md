# ldx in Dafny

A functional model of the core of `ldx`, a Python toolkit that automates
LDPlayer Android emulators. The toolkit has two halves, and both are modelled.

The **runner** executes automation jobs made of plugins:

- A TOML configuration names plugin sections.
- A metaclass registry maps each section key to a plugin class.
- `LDXInstance` loads the plugins and drives their hooks in a fixed lifecycle:
  `onEnvLoad`, all-or-nothing `canRun`, `onStartup` for every plugin, a polling
  loop over `shouldStop`, and `onShutdown` in a `finally` block.
- `LDXRunner` merges a global configuration with an instance configuration and
  substitutes `template::name` references.
- A scheduler service keeps a job registry and per-execution contexts on top of
  a timer library.
- Built-in plugins:
  - `lifetime`: a timer with a kill list;
  - `os`: files a process or command to kill;
  - `mxx`: launches an executable, optionally from a scoop install;
  - `ld`: launches and quits an emulator instance.

The **emulator side**:

- builds the argument vectors of the `ldconsole` command-line tool;
- parses and dispatches batch targets for the `ld` command line;
- derives paths from an LDPlayer installation;
- lists and loads configuration, key-mapping, macro and record files through a
  small LFU file cache.

Everything is modelled as immutable data and pure functions:

- Python values are one datatype, `Py.Value`, with Python truthiness.
- Dictionaries are insertion-ordered sequences of pairs (`ODict`).
- Exceptions are `Result` errors.
- Hooks and other calls whose behaviour lives outside the modelled code are
  inputs: each plugin is a record of what its hooks do.
- The runner, the registries, the scheduler and the cache are state-transition
  functions. Each returns the new state together with a trace of the calls made.

Modules follow the source files:

| module | source |
|---|---|
| `Plugins`, `Runner`, `Lifecycle`, `Scenarios` | `core/plugin.py`, `core/runner.py` (`LDXInstance`), and the test plugins |
| `ConfigResolver` | `core/runner.py` (`LDXRunner`) |
| `Schedule` | `core/schedule.py` |
| `JobRegistry`, `Scheduler` | `ldx_server/registry.py`, `ldx_server/scheduler.py` |
| `Lifetime`, `OSPlugin`, `MXX`, `LDPlugin` | the four built-ins |
| `LfuCache` | `ld_ext/base/cache.py` |
| `ObjectFiles`, `LeidianFile`, `RecordFile` | `kmp.py`, `smp.py`, `leidian.py`, `record.py` |
| `LDAttr` | `ld/ldattr.py` |
| `LDConsole` | `ld/console.py`; `ld/ldplayer.py` is the same file byte for byte |
| `BatchUtils`, `BatchConsole`, `CommandFactory` | the batch helpers and the `ld` command line |
| `Py`, `ODict`, `Text`, `Paths`, `Wrappers` | Python's values, dicts, strings and `posixpath` |

## Model

| member | source | states |
|---|---|---|
| Plugins.Define | src/ldx/ldx_runner/core/plugin.py:42-45 | Defining a class other than `LDXPlugin` files it under its `__env_key__` and leaves every other key as it was. Defining the base class changes nothing. |
| Plugins.Lookup | src/ldx/ldx_runner/core/runner.py:74-75 | A section key finds a class exactly when that key is registered, and it finds the registered class. |
| Plugins.LastDefinitionWins | src/ldx/ldx_runner/core/plugin.py:44 | After a series of class definitions, a key holds the last class defined under it. |
| Plugins.KeepsUnregistered | src/ldx/ldx_runner/core/plugin.py:43-44 | A key that no defined class uses keeps its earlier class, or stays absent. |
| Plugins.BaseNeverRegistered | src/ldx/ldx_runner/core/plugin.py:43 | The base class `LDXPlugin` is never found in the registry, however many classes are defined. |
| Plugins.KeylessUnreachable | src/ldx/ldx_runner/core/plugin.py:89 | A class that declares no `__env_key__` is filed under `None`, and no section lookup changes because of it. |
| Plugins.BuiltinSections | src/ldx/ldx_runner/builtins/ld.py:52-72 | With the four built-ins defined, `lifetime`, `os` and `mxx` find their classes. An `[ld]` section finds nothing, because `LD` declares no env key. |
| Plugins.KeyedSections | src/ldx/ldx_runner/builtins/ld.py:62-70 | With `LD` keyed `ld` as its documentation says, an `[ld]` section finds `LD`, the other built-in sections find their classes, and no class sits under None. |
| Runner.Selected | src/ldx/ldx_runner/core/runner.py:73-75 | The keys that load are exactly the configuration keys with a registered class. |
| Runner.Load | src/ldx/ldx_runner/core/runner.py:73-78 | Loading records one `onEnvLoad` call per loaded plugin and nothing else. |
| Runner.LoadSpec | src/ldx/ldx_runner/core/runner.py:73-78 | The loaded plugins are the registered keys in configuration order. Each is built by its class from its own section. The trace is their `onEnvLoad` calls in that order. Unknown keys are skipped silently. |
| Runner.CheckAllSpec | src/ldx/ldx_runner/core/runner.py:106 | `canRun` is asked in load order and stops at the first answer that is not true. The verdict is true exactly when every plugin says true. Otherwise the last plugin asked gave the verdict, and all before it said true. |
| Runner.StartAllSpec | src/ldx/ldx_runner/core/runner.py:111-112 | `onStartup` runs in load order. It succeeds exactly when every plugin starts. Otherwise it stops at the first plugin that raises, and that error is reported. |
| Runner.ShutdownAllSpec | src/ldx/ldx_runner/core/runner.py:122-123 | `onShutdown` runs in load order and stops at the first plugin that raises, whose error is reported. |
| Runner.PollTickSpec | src/ldx/ldx_runner/core/runner.py:116 | One tick asks `shouldStop` in load order, up to the first plugin that does not answer false (`any` short-circuits). The tick says "go on" exactly when every plugin answers false. |
| Runner.QuietAfter | src/ldx/ldx_runner/core/plugin.py:187 | Once a plugin's scripted answers run out, it answers with the default `shouldStop` (false), so late ticks say "go on". |
| Runner.LoopGoesOn | src/ldx/ldx_runner/core/runner.py:115-117 | Every tick before the loop's last one said "go on". |
| Runner.LoopEnds | src/ldx/ldx_runner/core/runner.py:115-117 | The last tick's verdict is how the loop ended: stop requested, or a `shouldStop` raised. An interrupt ends the loop exactly at the interrupted tick. |
| Runner.LoopEndless | src/ldx/ldx_runner/core/runner.py:115-118 | The loop runs forever exactly when no tick from the start on asks to stop and no interrupt is pending. |
| Lifecycle.LoadNothing | src/ldx/ldx_runner/core/runner.py:73-78 | A configuration with no registered key loads nothing and calls no hook. |
| Lifecycle.NothingLoadedNoHooks | src/ldx/ldx_runner/core/runner.py:101-103 | With no plugins loaded, `run` returns without calling `canRun`, `onStartup`, `shouldStop` or `onShutdown`. |
| Lifecycle.CanRunAllOrNothing | src/ldx/ldx_runner/core/runner.py:105-107 | When plugin `i` is the first whose `canRun` is not true, `canRun` is asked of plugins `0..i` only. No `onStartup`, `shouldStop` or `onShutdown` is ever called. The run returns, or raises `canRun`'s error. |
| Lifecycle.GuardedInOrder | src/ldx/ldx_runner/core/runner.py:109-123 | The `try`/`finally` block calls hooks in phase order (startups, polls, shutdowns) and calls no `onEnvLoad` or `canRun`. |
| Lifecycle.PhasesInOrder | src/ldx/ldx_runner/core/runner.py:99-123 | Every trace of `run` is in phase order: loads, checks, startups, polls, shutdowns. |
| Lifecycle.ShutdownEachOnce | src/ldx/ldx_runner/core/runner.py:120-123 | Once startup begins and the run ends, `onShutdown` is called exactly once on every loaded plugin, in load order. This includes plugins whose `onStartup` never ran. A startup error propagates after the shutdowns. |
| Lifecycle.LoopOutcome | src/ldx/ldx_runner/core/runner.py:109-123 | After every startup went through and with no shutdown raising, `run` ends normally exactly when a plugin asked to stop. An exception from `shouldStop` leaves `run` after cleanup. The interrupt is re-raised after cleanup exactly when it arrived. The run goes on forever exactly when the loop never ends. |
| Lifecycle.ShutdownErrorWins | src/ldx/ldx_runner/core/runner.py:120-123 | If an `onShutdown` raises inside the `finally` block, the remaining shutdowns are skipped and its error replaces the outcome. |
| Lifecycle.PolledOnlyAfterAllStarted | src/ldx/ldx_runner/core/runner.py:110-116 | If `shouldStop` was called at all, `onStartup` was called on every loaded plugin, in load order. |
| Lifecycle.StartFailedNoPolls | src/ldx/ldx_runner/core/runner.py:109-118 | When an `onStartup` raises, `shouldStop` is never called. |
| Lifecycle.StartedAllBeforePolls | src/ldx/ldx_runner/core/runner.py:110-112 | When every startup succeeds, the startup calls are exactly the loaded plugins in load order. |
| Lifecycle.QuietRounds | src/ldx/ldx_runner/core/runner.py:115-118 | Over ticks that all say "go on", every plugin is polled once per tick, in load order. |
| Lifecycle.FirstStopper | src/ldx/ldx_runner/core/runner.py:116-117 | In the tick where plugin `m` is the first to ask to stop, plugins after `m` are not polled. |
| Lifecycle.LoopStopsAt | src/ldx/ldx_runner/core/runner.py:115-117 | The loop ends at the first tick where some plugin asks to stop. |
| Lifecycle.StopAtFirstRequest | src/ldx/ldx_runner/core/runner.py:109-123 | When the first stop request comes at tick `T` from plugin `m`, there are `T` full polling rounds and then one partial round up to `m`. With clean shutdowns the run ends as stopped. |
| Lifecycle.DefaultsNeverStop | src/ldx/ldx_runner/core/plugin.py:160-187 | Plugins that keep every default hook run forever, and `onShutdown` is never reached. |
| Scenarios.TestSections | tests_support/test_plugins.py:110-142 | The two test plugins are found under `counter` and `lifecycle_tracker`. |
| Scenarios.CounterPolls | tests_support/test_plugins.py:127-129 | A counter with `max_count >= 1` answers false `max_count - 1` times and then true. |
| Scenarios.CounterStopsOnThirdPoll | tests/test_runner.py:121-140 | A counter with `max_count = 3` is polled exactly three times, and the run ends as stopped. |
| Scenarios.TrackerLifecycleOrder | tests/test_runner.py:148-169 | The lifecycle tracker sees exactly `onEnvLoad`, `canRun`, `onStartup`, `shouldStop` twice, then `onShutdown`. |
| Scenarios.TrackerRun | tests_support/test_plugins.py:148-165 | Any single plugin that says yes to `canRun`, starts cleanly and asks to stop on its second poll produces that same six-call trace. |
| ConfigResolver.MergeLast | src/ldx/ldx_runner/core/runner.py:265-266 | For a key the instance configuration sets, the merged value is the instance value, whole (the merge is shallow). |
| ConfigResolver.MergeKeep | src/ldx/ldx_runner/core/runner.py:265-266 | A key only the global configuration sets keeps the global value. |
| ConfigResolver.MergeKeys | src/ldx/ldx_runner/core/runner.py:265-266 | The merged keys are the keys of both configurations. |
| ConfigResolver.MergeOrder | src/ldx/ldx_runner/core/runner.py:265-266 | The global keys come first and keep their order (`dict.update` keeps the position of an existing key). |
| ConfigResolver.MergeUnique | src/ldx/ldx_runner/core/runner.py:265-266 | The merge never repeats a key. |
| ConfigResolver.TemplateRef | src/ldx/ldx_runner/core/runner.py:269-270 | A string is a reference exactly when it starts with `template::`. The name taken from it is stripped of surrounding whitespace. |
| ConfigResolver.RefOfName | src/ldx/ldx_runner/core/runner.py:269-270 | `template::` followed by a stripped name that does not contain the marker refers to that name. |
| ConfigResolver.Referenced | src/ldx/ldx_runner/core/runner.py:269-273 | A value is replaced only by a template that exists under the referenced name and is non-empty. |
| ConfigResolver.Resolve | src/ldx/ldx_runner/core/runner.py:268-280 | Substitution keeps every key, in order. |
| ConfigResolver.CreateInstance | src/ldx/ldx_runner/core/runner.py:265-281 | The instance's configuration has the merged keys in the merged order. |
| ConfigResolver.ResolveGet | src/ldx/ldx_runner/core/runner.py:268-280 | Each key's resolved value is its own value resolved at top level. No other entry has any effect on it. |
| ConfigResolver.TopReference | src/ldx/ldx_runner/core/runner.py:269-273 | A top-level `template::n` becomes template `n` when it exists and is non-empty. Otherwise it is left unchanged. |
| ConfigResolver.OneLevelDeep | src/ldx/ldx_runner/core/runner.py:274-280 | Inside a section, a value that is not a string is never touched, so deeper levels are never resolved. |
| ConfigResolver.ResolveRefFree | src/ldx/ldx_runner/core/runner.py:268-280 | A configuration with no reference at the two resolved levels comes back unchanged. |
| ConfigResolver.ResolveIdempotent | src/ldx/ldx_runner/core/runner.py:268-280 | If the templates contain no reference that would resolve further, resolving twice gives what resolving once does. |
| ConfigResolver.Stem | src/ldx/ldx_runner/core/runner.py:227 | `Path.stem` is a prefix of the file name. |
| ConfigResolver.TemplateNameOf | src/ldx/ldx_runner/core/runner.py:227 | `n.template.toml` is loaded as template `n`. |
| ConfigResolver.TemplateNames | src/ldx/ldx_runner/core/runner.py:213-230 | The loaded template names are exactly the names derived from the files. |
| ConfigResolver.TemplateLoaded | src/ldx/ldx_runner/core/runner.py:230 | Each template name holds the content of the last file that derives it. |
| Schedule.Validate | src/ldx/ldx_runner/core/schedule.py:22-30 | A configuration that passes comes back unchanged. A refusal is always a ValueError. |
| Schedule.ValidateExactly | src/ldx/ldx_runner/core/schedule.py:22-30 | Validation fails exactly when the trigger is falsy, or a cron trigger has no hour, or an interval trigger has a falsy `interval_seconds`. |
| Schedule.FromEnv | src/ldx/ldx_runner/core/schedule.py:4-30 | `ScheduleConfig(**d)` succeeds only for keys the dataclass declares, and what it returns passes all three checks. |
| Schedule.CronDefaults | src/ldx/ldx_runner/core/schedule.py:10-20 | A section with only a cron trigger and an hour gets minute 0, second 0, `*` for the weekday and the day, and no interval. |
| Schedule.FromEnvOf | src/ldx/ldx_runner/core/schedule.py:10-20 | Every field takes the section's value when given and its declared default otherwise, and the result is then validated. |
| Schedule.DefaultsOf | src/ldx/ldx_runner/core/schedule.py:10-20 | The declared defaults: no trigger, no hour, minute 0, second 0, `*`, `*`, no interval. |
| Schedule.NegativeIntervalAccepted | src/ldx/ldx_runner/core/schedule.py:29-30 | A negative `interval_seconds` is truthy and passes validation. Only zero or a missing value is refused. |
| Schedule.TriggerRequired | src/ldx/ldx_runner/core/schedule.py:10-24 | A section without a trigger is always refused, since the default trigger is None. |
| Schedule.ToAps | src/ldx/ldx_runner/core/schedule.py:32-49 | The scheduler configuration never repeats a key. |
| Schedule.CronKeys | src/ldx/ldx_runner/core/schedule.py:34-44 | A cron configuration has exactly the keys trigger, hour, minute, second and day_of_week, plus `day` only when the day is not `*`. |
| Schedule.NonCronIsInterval | src/ldx/ldx_runner/core/schedule.py:45-49 | Any trigger other than cron becomes an interval trigger holding exactly `interval_seconds` under `seconds`. |
| Schedule.CronRoundTrip | src/ldx/ldx_runner/core/schedule.py:34-44 | Reading the cron fields back from the conversion, with `*` for a missing day, gives the original hour, minute, second, weekday and day. |
| Schedule.ValidIntervalHasPeriod | src/ldx/ldx_runner/core/schedule.py:29-49 | A valid interval schedule always converts to a truthy period. |
| JobRegistry.NewEntry | src/ldx/ldx_server/registry.py:30-36 | A new entry has never been triggered and has a count of 0. |
| JobRegistry.Register | src/ldx/ldx_server/registry.py:161-163 | Registration succeeds exactly when the id is new or replacing is asked for. A refusal is a ValueError. |
| JobRegistry.RegisterSpec | src/ldx/ldx_server/registry.py:161-176 | After registering, the id holds a fresh entry and every other id keeps its entry. The ids are the old ones plus this one, and ids stay distinct and match their entries. |
| JobRegistry.Unregister | src/ldx/ldx_server/registry.py:188-196 | The answer is true exactly when the id was registered. A false answer leaves the registry as it was. |
| JobRegistry.UnregisterSpec | src/ldx/ldx_server/registry.py:188-196 | Afterwards the id is gone, the other entries are untouched, and a removal shrinks the registry by exactly one. |
| JobRegistry.ExistsIffGet | src/ldx/ldx_server/registry.py:198-230 | `exists` and `get` agree, and an entry found under an id carries that id. |
| JobRegistry.ListingsPartition | src/ldx/ldx_server/registry.py:202-212 | The scheduled and on-demand listings split the full listing between them, counting repeats. Each holds only its own kind. |
| JobRegistry.MarkTriggered | src/ldx/ldx_server/registry.py:221-223 | Marking an unknown id changes nothing. |
| JobRegistry.MarkTriggeredSpec | src/ldx/ldx_server/registry.py:221-226 | Marking a known id sets its last trigger to now and adds one to its count. Nothing else in the entry changes, the other entries are untouched, and the order of ids is kept. |
| JobRegistry.CreateInstance | src/ldx/ldx_server/registry.py:242-248 | No instance exactly when the id is not registered. |
| JobRegistry.StampRoundTrip | src/ldx/ldx_server/registry.py:53-67 | A stored timestamp reads back as the same instant. |
| JobRegistry.Required | src/ldx/ldx_server/registry.py:62-67 | `data[key]` succeeds exactly when the key is present, and then gives its value. |
| JobRegistry.ParseSchedule | src/ldx/ldx_server/registry.py:64 | A missing or falsy schedule reads as no schedule. |
| JobRegistry.FromDict | src/ldx/ldx_server/registry.py:59-71 | Reading an entry needs a mapping with `job_id` and `registered_at`. |
| JobRegistry.ToDict | src/ldx/ldx_server/registry.py:38-56 | An entry is written as a mapping of its seven fields. |
| JobRegistry.ScheduleRoundTrip | src/ldx/ldx_server/registry.py:43-64 | A valid schedule written by `to_dict` reads back as the same schedule. |
| JobRegistry.EntryRoundTrip | src/ldx/ldx_server/registry.py:38-71 | An entry whose schedule is valid is written and read back unchanged: id, configuration, schedule, source, both instants and the count. |
| Scheduler.NewContext | src/ldx/ldx_server/scheduler.py:121 | A new execution context is pending, with no error and no start or end time. |
| Scheduler.Admit | src/ldx/ldx_server/scheduler.py:99-118 | An instance is admitted only when the id has no context (or replacing is asked for), the instance validates, and a scheduled job overlaps nothing. A ready instance is used as given. |
| Scheduler.ScheduleJob | src/ldx/ldx_server/scheduler.py:99-100 | An id that already has a context is refused, without replacing, and nothing changes. |
| Scheduler.ScheduleJobSpec | src/ldx/ldx_server/scheduler.py:121-160 | On success the id holds a new pending context and the registry holds a new `"api"` entry for it. Other contexts are untouched. A timer is armed exactly when a schedule is given. The reply is `scheduled` with the converted schedule, or `registered` with the trigger hint. |
| Scheduler.RegistryRefusalLeavesContext | src/ldx/ldx_server/scheduler.py:121-131 | When the registry already holds the id, the call fails with ValueError but leaves a pending context behind. A retry is then refused and `remove_job` will not clear it. |
| Scheduler.AtomicScheduleJob | src/ldx/ldx_server/scheduler.py:97-160 | Asking the registry before storing the context gives the same replies, leaves the service untouched on any refusal, and gives the same state on success. |
| Scheduler.TryBlock | src/ldx/ldx_server/scheduler.py:220-228 | The phases are called in the order canRun, startup, execution, shutdown, stopping at the first failure. |
| Scheduler.Execute | src/ldx/ldx_server/scheduler.py:216-245 | Executing a context keeps its id and instance. |
| Scheduler.ExecuteSpec | src/ldx/ldx_server/scheduler.py:216-245 | Both times are set. The run completes exactly when every phase succeeds; otherwise it fails with an error and shutdown is the last call. A failed shutdown after successful phases is called twice and its error is kept. A refusal from canRun fails with RuntimeError after one shutdown call. |
| Scheduler.Begin | src/ldx/ldx_server/scheduler.py:211-217 | Beginning an unknown id changes nothing. |
| Scheduler.BeginSpec | src/ldx/ldx_server/scheduler.py:216-217 | Once begun, the job is listed as active. |
| Scheduler.ExecuteJob | src/ldx/ldx_server/scheduler.py:211-214 | Executing an unknown id changes nothing and calls nothing. The registry and the timers are never touched. |
| Scheduler.ExecuteJobSpec | src/ldx/ldx_server/scheduler.py:216-245 | A known job ends completed or failed, with its end time set and no longer active. Other contexts are untouched. |
| Scheduler.Fire | src/ldx/ldx_server/scheduler.py:370-375 | When a timer fires, a job added without a trigger leaves the job store and a recurring one stays. No other timer and no registry entry changes. |
| Scheduler.CancelJob | src/ldx/ldx_server/scheduler.py:296-302 | A refusal changes nothing, and the registry is never touched. |
| Scheduler.CancelJobSpec | src/ldx/ldx_server/scheduler.py:296-313 | Cancelling succeeds exactly when the job has a context that is not running. It then drops the context and disarms the timer. Other contexts are untouched. |
| Scheduler.RemoveJob | src/ldx/ldx_server/scheduler.py:322-328 | A refusal changes nothing. The registry and the timers are never touched. |
| Scheduler.RemoveJobSpec | src/ldx/ldx_server/scheduler.py:322-334 | Removing succeeds exactly when the job has a context that is neither pending nor running. It then drops only that context. |
| Scheduler.TriggerJob | src/ldx/ldx_server/scheduler.py:352-387 | An id missing from the registry is refused with ValueError and nothing changes. Any refusal leaves the service as it was. A success is a `triggered` reply under `job_id + "_" + timestamp`. |
| Scheduler.TriggerBuildsLikeRegistry | src/ldx/ldx_server/registry.py:242-248 | The instance a trigger builds is the one `create_instance` loads from the entry's configuration. |
| Scheduler.TriggerJobSpec | src/ldx/ldx_server/scheduler.py:362-378 | A trigger adds a pending context under the execution id and arms it. Other contexts are untouched, and the job's count in the registry goes up by one. |
| Scheduler.MarkTriggeredValid | src/ldx/ldx_server/registry.py:221-226 | Marking a trigger keeps the registry well formed. |
| Scheduler.GetJobStatus | src/ldx/ldx_server/scheduler.py:247-270 | There is a status exactly when the id has a context. It carries the id, and says `scheduled` exactly when a timer is armed for it. |
| Scheduler.TriggeredRunsOnce | src/ldx/ldx_server/scheduler.py:370-375 | A triggered execution is scheduled until its timer fires. After it runs, it is completed or failed and no longer scheduled, because a job added without a trigger runs once. |
| Scheduler.RecurringStaysArmed | src/ldx/ldx_server/scheduler.py:137-144 | A job scheduled with a trigger is still scheduled after it has run. |
| Scheduler.ActiveIn | src/ldx/ldx_server/scheduler.py:281-287 | The active listing holds only running jobs that have contexts. |
| Scheduler.ActiveInIff | src/ldx/ldx_server/scheduler.py:281-287 | A job is listed as active exactly when its context is running. |
| Scheduler.ActiveIff | src/ldx/ldx_server/scheduler.py:281-287 | Over the service's contexts, a job is active exactly when its context is running. |
| Lifetime.OnEnvLoad | src/ldx/ldx_runner/builtins/lifetime.py:61-69 | Loading succeeds exactly when the section's keys fit `LifetimeModel`. The kill list starts empty and no stop time is set yet. |
| Lifetime.LoadsLifetime | src/ldx/ldx_runner/builtins/lifetime.py:16-30 | A section with only `lifetime` loads that value as it is. |
| Lifetime.LifetimeRequired | src/ldx/ldx_runner/builtins/lifetime.py:30 | A section without `lifetime` raises TypeError, since the field has no default. |
| Lifetime.CanRun | src/ldx/ldx_runner/builtins/lifetime.py:82-85 | A number at most 0 says no and a positive number defers to the base default, yes. Anything else raises. |
| Lifetime.OnStartup | src/ldx/ldx_runner/builtins/lifetime.py:95 | Startup succeeds exactly when the lifetime is a number and now plus the lifetime is still a `datetime`. It then sets the stop time to that instant and changes nothing else. A non-number raises TypeError, and a stop time beyond the `datetime` range raises OverflowError. |
| Lifetime.StopRule | src/ldx/ldx_runner/builtins/lifetime.py:95-111 | With a positive lifetime, startup fails exactly when the stop time would fall after `datetime.max`. After a startup at `start`, the plugin asks to stop exactly when `lifetime` seconds have passed. It never asks at the start, and once it asks it keeps asking. |
| Lifetime.StartOverflows | src/ldx/ldx_runner/builtins/lifetime.py:95 | A lifetime longer than the whole `datetime` range raises OverflowError at every start. |
| Lifetime.ActionOf | src/ldx/ldx_runner/builtins/lifetime.py:126-141 | Only a pair tagged `process`, `cmd` or `taskkill` leads to an action. |
| Lifetime.Actions | src/ldx/ldx_runner/builtins/lifetime.py:125-141 | There are never more actions than kill-list items. |
| Lifetime.Perform | src/ldx/ldx_runner/builtins/lifetime.py:125-141 | The actions run are a prefix of the kill list's actions, and all of them when none raises. |
| Lifetime.OnShutdown | src/ldx/ldx_runner/builtins/lifetime.py:125-143 | Without a raise, shutdown runs every action and empties the kill list. A raise leaves the state exactly as it was. The lifetime and stop time never change. |
| Lifetime.PerformSpec | src/ldx/ldx_runner/builtins/lifetime.py:125-141 | The loop raises nothing exactly when no action raises. Otherwise it stops at the first action that raises, after running every action before it, and raises that action's error. |
| Lifetime.ShutdownClears | src/ldx/ldx_runner/builtins/lifetime.py:129-143 | The kill list ends up empty exactly when it was empty or no termination raises. A raising shutdown's last action run is the one that raised. |
| Lifetime.ActionsAppend | src/ldx/ldx_runner/builtins/lifetime.py:125-141 | Kill lists are handled item by item: the actions for two lists together are the actions for each, in order. |
| Lifetime.ActionsExactly | src/ldx/ldx_runner/builtins/lifetime.py:125-141 | Every action comes from some kill-list item, and every recognised item leads to its action. |
| Lifetime.UntaggedIgnored | src/ldx/ldx_runner/builtins/lifetime.py:140-141 | Items that match no tag lead to nothing. |
| OSPlugin.OnEnvLoad | src/ldx/ldx_runner/builtins/os.py:64-71 | Loading succeeds exactly when the section's keys fit `OSModel`. |
| OSPlugin.KillDefaultsToNone | src/ldx/ldx_runner/builtins/os.py:29-30 | `kill` defaults to None, and a section without `cmd` raises TypeError. |
| OSPlugin.KillEntry | src/ldx/ldx_runner/builtins/os.py:86-89 | A string kill target always gives a kill-list entry. |
| OSPlugin.OnStartup | src/ldx/ldx_runner/builtins/os.py:84-89 | The command run is the configured one. A kill list is there afterwards exactly when the lifetime plugin is loaded. |
| OSPlugin.AppendsAtMostOne | src/ldx/ldx_runner/builtins/os.py:85-89 | A truthy kill target appends exactly its entry to the lifetime plugin's list. Otherwise the list is unchanged. Earlier entries are never touched. |
| OSPlugin.NoLifetimeNoEntry | src/ldx/ldx_runner/builtins/os.py:84-85 | Without the lifetime plugin only the command runs. |
| OSPlugin.StringTarget | src/ldx/ldx_runner/builtins/os.py:86-89 | A target with a space is filed as `cmd` with its first word. A target without one is filed as `process` with the whole name. |
| OSPlugin.FiledEntriesAreKilled | src/ldx/ldx_runner/builtins/lifetime.py:126-139 | Every entry the os plugin files is one the lifetime plugin acts on: taskkill of the first word, or terminating the process by name. |
| OSPlugin.KilledAtShutdown | src/ldx/ldx_runner/builtins/os.py:85-89 | A non-empty kill target filed at startup becomes the last action on the lifetime plugin's kill list, after the earlier entries' actions. When no termination raises, it is the last action taken at shutdown. |
| MXX.Validate | src/ldx/ldx_runner/builtins/mxx.py:56-64 | A configuration that passes comes back unchanged. A refusal is always a ValueError. |
| MXX.ValidateExactly | src/ldx/ldx_runner/builtins/mxx.py:56-64 | A configuration passes exactly when it names an executable and, in Scoop mode, a package but no directory. Outside Scoop mode a missing directory is not caught. |
| MXX.OnEnvLoad | src/ldx/ldx_runner/builtins/mxx.py:102-112 | Loading succeeds only for keys `MXXModel` declares, and the loaded model passes validation. |
| MXX.FieldFacts | src/ldx/ldx_runner/builtins/mxx.py:47-54 | The declared fields, with Scoop mode on, no directory and a 10-second delay by default. |
| MXX.PackageSectionAccepted | src/ldx/ldx_runner/builtins/mxx.py:47-54 | A section with only `pkg` and `targetExe` fits the dataclass. |
| MXX.LoadedFields | src/ldx/ldx_runner/builtins/mxx.py:47-64 | Each field takes the section's value or its default, and the result is then validated. |
| MXX.Defaults | src/ldx/ldx_runner/builtins/mxx.py:47-64 | A section with only a package and an executable loads in Scoop mode with a ten-second delay. |
| MXX.OnStartup | src/ldx/ldx_runner/builtins/mxx.py:129-145 | What is launched is the resolved path, and only when that file exists. |
| MXX.ScoopLayout | src/ldx/ldx_runner/builtins/mxx.py:129-131 | In Scoop mode the executable is `<root>/apps/<pkg>/current/<exe>`. |
| MXX.DirectoryLayout | src/ldx/ldx_runner/builtins/mxx.py:139 | Outside Scoop mode the executable is `<path>/<exe>`. |
| MXX.MissingExecutable | src/ldx/ldx_runner/builtins/mxx.py:133-141 | A missing file raises FileNotFoundError naming the path. |
| MXX.NoDirectoryFailsAtStartup | src/ldx/ldx_runner/builtins/mxx.py:56-64 | A non-Scoop configuration without a directory passes validation and then fails at startup with TypeError. |
| MXX.OnShutdown | src/ldx/ldx_runner/builtins/mxx.py:158 | Shutdown takes the action the lifetime plugin takes for a `cmd` entry naming the executable. |
| LDPlugin.Validate | src/ldx/ldx_runner/builtins/ld.py:44-49 | A configuration that passes comes back unchanged. A refusal is always a ValueError. |
| LDPlugin.ValidateExactly | src/ldx/ldx_runner/builtins/ld.py:44-49 | A configuration passes exactly when one of name and index is truthy. Index 0 without a name is refused. |
| LDPlugin.OnEnvLoad | src/ldx/ldx_runner/builtins/ld.py:73-83 | Loading succeeds only for keys `LDModel` declares, and the loaded model passes validation. |
| LDPlugin.FieldFacts | src/ldx/ldx_runner/builtins/ld.py:38-42 | The declared fields, with `close` true and the others None by default. |
| LDPlugin.LoadedFields | src/ldx/ldx_runner/builtins/ld.py:38-49 | Each field takes the section's value or its default, and the result is then validated. |
| LDPlugin.NameSectionAccepted | src/ldx/ldx_runner/builtins/ld.py:38-42 | A section with only a name fits the dataclass. |
| LDPlugin.ClosesByDefault | src/ldx/ldx_runner/builtins/ld.py:38-49 | A section with only a non-empty name loads with `close` on. |
| LDPlugin.OnStartup | src/ldx/ldx_runner/builtins/ld.py:97-105 | Startup launches the configured instance, by name and index. |
| LDPlugin.StartupChoice | src/ldx/ldx_runner/builtins/ld.py:97-105 | `launchex` with the package is used exactly when a package is set. A configured path is used exactly when it is truthy. |
| LDPlugin.OnShutdown | src/ldx/ldx_runner/builtins/ld.py:115-117 | Shutdown, when it acts, quits the configured instance. |
| LDPlugin.ShutdownChoice | src/ldx/ldx_runner/builtins/ld.py:115-117 | The instance is quit exactly when `close` is truthy, always through a discovered console, even when a path is configured. |
| LfuCache.Insert | src/ldx/ld_ext/base/cache.py:34-37 | Inserting into a list keeps every element and adds exactly the new one. |
| LfuCache.SortByAc | src/ldx/ld_ext/base/cache.py:34-37 | Sorting by access count is a permutation of the entries. |
| LfuCache.InsertSorted | src/ldx/ld_ext/base/cache.py:34-37 | Inserting into a list sorted by access count keeps it sorted. |
| LfuCache.SortSorted | src/ldx/ld_ext/base/cache.py:34-37 | The sorted entries are in ascending order of access count. |
| LfuCache.SortElems | src/ldx/ld_ext/base/cache.py:34-37 | An entry is in the sorted list exactly when it is in the original. |
| LfuCache.SortKeys | src/ldx/ld_ext/base/cache.py:34-37 | Sorting keeps the set of paths. |
| LfuCache.SortUnique | src/ldx/ld_ext/base/cache.py:34-37 | Sorting never repeats a path. |
| LfuCache.Victims | src/ldx/ld_ext/base/cache.py:32-40 | There are never more victims than cached entries. |
| LfuCache.VictimsCount | src/ldx/ld_ext/base/cache.py:32-40 | A full cache evicts exactly `len - total + 1` distinct cached paths, leaving room for the new file. |
| LfuCache.VictimsLeast | src/ldx/ld_ext/base/cache.py:34-40 | No evicted file has been accessed more often than a file that stays. |
| LfuCache.LoadFile | src/ldx/ld_ext/base/cache.py:61-66 | A missing file gives None. |
| LfuCache.EmptyValid | src/ldx/ld_ext/base/cache.py:14-15 | The empty cache is well formed: the files and their metadata have the same paths in the same order. |
| LfuCache.MissingFile | src/ldx/ld_ext/base/cache.py:61-66 | A file that no longer exists is dropped from both the data and the metadata and gives None. Every other entry is untouched. |
| LfuCache.Hit | src/ldx/ld_ext/base/cache.py:68-70 | A cached file whose modification time is unchanged is served from the cache, and only its access count goes up by one. |
| LfuCache.Reload | src/ldx/ld_ext/base/cache.py:47-56 | A file not cached at its current time is read from disk, stored, and given an access count of 1 with that time. |
| LfuCache.SameSize | src/ldx/ld_ext/base/cache.py:14-15 | A well-formed cache has as many metadata entries as data entries. |
| LfuCache.RealLoadValid | src/ldx/ld_ext/base/cache.py:29-56 | Evicting and loading keeps the cache well formed, even when parsing fails after the eviction. |
| LfuCache.ServeCache | src/ldx/ld_ext/base/cache.py:68-70 | Serving a hit changes only that file's access count. |
| LfuCache.ServeValid | src/ldx/ld_ext/base/cache.py:68-70 | Serving a hit keeps the cache well formed. |
| LfuCache.DropValid | src/ldx/ld_ext/base/cache.py:61-65 | Dropping a path keeps the cache well formed. |
| LfuCache.LoadValid | src/ldx/ld_ext/base/cache.py:59-73 | Every load keeps the cache well formed. |
| LfuCache.LoadBounded | src/ldx/ld_ext/base/cache.py:29-73 | A cache holding at most its capacity still does after any load. |
| ObjectFiles.SuffixNormal | src/ldx/ld_ext/object/kmp.py:19-20 | The name always ends with the extension afterwards. It is left alone exactly when it already did, and normalising twice changes nothing more. |
| ObjectFiles.ListFiles | src/ldx/ld_ext/object/kmp.py:10-15 | The listing is never longer than the directory. |
| ObjectFiles.ListFilesExactly | src/ldx/ld_ext/object/kmp.py:10-15 | A name is listed exactly when some directory entry is a regular file with the extension and that name. |
| ObjectFiles.DumpTarget | src/ldx/ld_ext/object/kmp.py:42-44 | An absolute dump path is used as given. A relative one is placed inside the folder. |
| ObjectFiles.DumpThenGet | src/ldx/ld_ext/object/kmp.py:17-47 | A file dumped under `name` plus the extension is the one `getCustomize(name)` reads, with or without the extension. |
| ObjectFiles.GetKeepsCache | src/ldx/ld_ext/object/kmp.py:17-31 | Reading a customize or recommended file keeps the cache well formed and within capacity. |
| LeidianFile.ListConfigs | src/ldx/ld_ext/object/leidian.py:12-20 | The listing is never longer than the directory. |
| LeidianFile.ListConfigsExactly | src/ldx/ld_ext/object/leidian.py:12-20 | A path is listed exactly when it joins the config folder with an entry that starts with `leidian`, ends with `.config` and is not `leidians.config`. |
| LeidianFile.NumberedFileListed | src/ldx/ld_ext/object/leidian.py:17-19 | The file an instance number is dumped to is one the listing reports. |
| LeidianFile.SameInstanceFile | src/ldx/ld_ext/object/leidian.py:28-44 | Instance `n`, the string `"n"` and the string `"leidian<n>"` all read the file `dumpLeidianConfig` writes for `n`. |
| LeidianFile.ListedFileReadable | src/ldx/ld_ext/object/leidian.py:12-44 | A listed file can be read back by passing its name without `.config`. |
| LeidianFile.LoadFrom | src/ldx/ld_ext/object/leidian.py:46-55 | The comprehension's keys are the requested ids, each once. |
| LeidianFile.LoadMany | src/ldx/ld_ext/object/leidian.py:46-55 | On success the result has exactly the requested ids as keys, so never more entries than ids. |
| RecordFile.Operations | src/ldx/ld_ext/object/record.py:28 | The operations are built exactly when every item fits the `Operation` dataclass, one constructed instance per item and in order. Otherwise TypeError is raised. |
| RecordFile.BuildShape | src/ldx/ld_ext/object/record.py:26-29 | A file with a header and an operation list builds exactly when the header fits `RecordInfo` and every operation fits `Operation`. It then gives the constructed header and one constructed operation per item, in file order. A header that does not fit raises TypeError. |
| RecordFile.BuildErrors | src/ldx/ld_ext/object/record.py:25-27 | A missing file raises TypeError, a file without `recordInfo` raises KeyError, and a value that is not a mapping raises TypeError. |
| RecordFile.Load | src/ldx/ld_ext/object/record.py:41-48 | An error opening or parsing the file is raised as it is. |
| RecordFile.GetIsLoad | src/ldx/ld_ext/object/record.py:20-48 | Reading an uncached file through the cache builds exactly what `load` builds from the same file. |
| LDAttr.New | src/ldx/ld/ldattr.py:13-16 | Construction succeeds exactly when validation is off or the path probes valid. The refusal names the path. |
| LDAttr.Child | src/ldx/ld/ldattr.py:51-77 | Joining a directory with a plain name gives a path whose directory and base name are those two. |
| LDAttr.TopLevelPaths | src/ldx/ld/ldattr.py:51-61 | `dnconsole.exe`, `ldconsole` and `vms` sit directly under the installation path. |
| LDAttr.VmChildren | src/ldx/ld/ldattr.py:63-77 | The customize, recommend, records and config folders sit directly under `vms`. |
| LDAttr.SameMeansSamePaths | src/ldx/ld/ldattr.py:45-49 | Equality and hashing look only at the path, so equal attributes derive equal folders. |
| LDAttr.FromUserBounds | src/ldx/ld/ldattr.py:27-32 | No paths or an index past the end is refused with ValueError. An index in range picks that path, with Python's negative indexing, and a too-negative index raises IndexError. |
| LDAttr.DiscoverFallback | src/ldx/ld/ldattr.py:35-43 | A running instance's path is used when found. Otherwise the first configured path is used, or nothing when fallback is off. |
| LDConsole.Emit | src/ldx/ld/console.py:62-70 | Options are emitted as flag and value pairs. |
| LDConsole.EmitReadBack | src/ldx/ld/console.py:62-70 | Reading a flag back from the emitted pairs gives the first value given for it, and nothing for an option that is None. |
| LDConsole.GivenUniform | src/ldx/ld/console.py:62-70 | An option given with one value wherever it appears reads back as that value. An option that never appears reads back as nothing. |
| LDConsole.ReadBackAt | src/ldx/ld/console.py:130-157 | An option whose flag appears once reads back as its own value, or as nothing when it is None. |
| LDConsole.GlobalSetting | src/ldx/ld/console.py:71 | The command line starts with `globalsetting`. |
| LDConsole.GlobalSettingReadBack | src/ldx/ld/console.py:62-70 | `--fps` carries the frame rate as text and the three switches carry 1 or 0, each exactly when it is not None. |
| LDConsole.Modify | src/ldx/ld/console.py:123-124 | The only refusal is the ValueError for a missing target. |
| LDConsole.ModifyTarget | src/ldx/ld/console.py:122-128 | The call goes through exactly when the name or the index is truthy. A string name is passed under `--name`, otherwise the index as text under `--index`. |
| LDConsole.ModifyRefusesIndexZero | src/ldx/ld/console.py:123-124 | `index=0` without a name is refused like a missing target. |
| LDConsole.ModifyFixed | src/ldx/ld/console.py:123-124 | The corrected guard also refuses only with the missing-target ValueError. |
| LDConsole.ModifyFixedTarget | src/ldx/ld/console.py:123-128 | With the corrected guard, a call goes through exactly when the name is truthy or an index is given, and index 0 alone becomes `--index 0`. |
| LDConsole.SettingFlagsDistinct | src/ldx/ld/console.py:130-157 | The fourteen setting flags are distinct. |
| LDConsole.ModifySettings | src/ldx/ld/console.py:130-157 | Each setting's flag carries its value exactly when the setting is not None. Numbers are passed as text and switches as 1 or 0. |
| LDConsole.ModifySettingExamples | src/ldx/ld/console.py:132-157 | `--cpu` carries the core count as text and `--root` carries 1 or 0, each only when given. |
| LDConsole.OperateRecord | src/ldx/ld/console.py:180 | The call fails exactly when there is no content, with the assertion's message. |
| LDConsole.OperateRecordShape | src/ldx/ld/console.py:180-191 | The command comes first and `--content` with the content comes last; a record object is passed as its JSON text. A name is preferred over an index, and with neither there is no instance flag. |
| LDConsole.AccessExactly | src/ldx/ld/console.py:212-237 | A batchable command runs as a batch exactly when its first argument is a list or a filter or custom function is given. It is refused exactly when it has no argument, no name or index, no filter and no custom function. A plain first argument goes through unchanged. |
| LDConsole.Positional | src/ldx/ld/console.py:309-312 | One pair per argument that has a parameter to label it. |
| LDConsole.PositionalLabels | src/ldx/ld/console.py:309-312 | Argument `i` is labelled with parameter `i`'s name and keeps its value. |
| LDConsole.MissingRequired | src/ldx/ld/console.py:315-325 | A missing parameter is reported exactly when some remaining required parameter is absent from the keyword arguments, and the one reported is such a parameter. |
| LDConsole.KeywordOpts | src/ldx/ld/console.py:315-322 | Each remaining parameter is paired with its keyword value, or None when absent. |
| LDConsole.Varied | src/ldx/ld/console.py:281-328 | The command line always starts with the command name, and the only refusal is a ValueError. |
| LDConsole.VariedSingleName | src/ldx/ld/console.py:296-298 | A lone string argument is passed as the name when the method takes both a name and an index. |
| LDConsole.VariedKeywords | src/ldx/ld/console.py:314-325 | With only keyword arguments, the call goes through exactly when no required parameter is missing. A parameter is passed exactly when it is declared and given a value that is not None. |
| LDConsole.KeywordReadBack | src/ldx/ld/console.py:314-322 | A keyword parameter reads back as its value when declared and not None, and as nothing otherwise. |
| LDConsole.VariedPositional | src/ldx/ld/console.py:301-312 | Positional arguments are labelled in declaration order right after the command. |
| LDConsole.VariedSelf | src/ldx/ld/console.py:289-312 | When the signature starts with `self`, the first positional argument is labelled `--self`. |
| BatchConsole.Callable | src/ldx/ld_base/batch_console_ext.py:77-85 | Only numbers and strings are kept as targets. |
| BatchConsole.ResultsAppend | src/ldx/ld_base/batch_console_ext.py:75-96 | Results and waits of consecutive stretches of the loop add up. |
| BatchConsole.RunResults | src/ldx/ld_base/batch_console_ext.py:75-96 | There is one result per number or string target, in order: the call with `index=` or `name=` for that target, or the error it raised. Other targets are skipped. |
| BatchConsole.RunStep | src/ldx/ld_base/batch_console_ext.py:76-87 | One loop step yields the call's result for a number or string target and nothing for any other. |
| BatchConsole.RunPauses | src/ldx/ld_base/batch_console_ext.py:89-92 | There is no wait when the interval is not positive, never more waits than results, and never a wait at the end. |
| BatchConsole.Kept | src/ldx/ld_base/batch_console_ext.py:62-63 | The filter pass never keeps more instances than `list2` has. |
| BatchConsole.Ids | src/ldx/ld_base/batch_console_ext.py:64 | The id pass gives one id per kept instance. |
| BatchConsole.SelectedIds | src/ldx/ld_base/batch_console_ext.py:62-64 | The selection never has more ids than `list2` has items. |
| BatchConsole.KeptFails | src/ldx/ld_base/batch_console_ext.py:63 | The filter pass succeeds exactly when no filter call raises. Otherwise it fails with the error of the first instance whose filter call raised. |
| BatchConsole.ConsPicks | src/ldx/ld_base/batch_console_ext.py:63 | The passing positions of a list are those of its tail moved up by one, plus position 0 when the first instance passes. |
| BatchConsole.KeptPicks | src/ldx/ld_base/batch_console_ext.py:63 | A successful filter pass keeps exactly the instances whose filter answer is truthy, in `list2` order: the k-th kept instance is the one at the k-th passing position. |
| BatchConsole.IdsSpec | src/ldx/ld_base/batch_console_ext.py:64 | The id pass succeeds exactly when every kept instance has an `"id"`. It then gives each instance's id in order; otherwise it fails with a missing id's error. |
| BatchConsole.SelectedIdsSpec | src/ldx/ld_base/batch_console_ext.py:62-64 | The selection succeeds exactly when no filter call raises and every passing instance has an `"id"`. The k-th selected id is then the id of the k-th passing instance, by increasing position, and every passing position is used. |
| BatchConsole.FilterErrorFirst | src/ldx/ld_base/batch_console_ext.py:62-64 | Every instance is filtered before any id is looked up: a filter call that raises makes the whole call fail with the first such error, even when an earlier passing instance has no `"id"`. |
| BatchConsole.BatchExecute | src/ldx/ld_base/batch_console_ext.py:49-51 | A custom result comes only from a custom function. |
| BatchConsole.CustomFirst | src/ldx/ld_base/batch_console_ext.py:49-51 | With a custom function, its result (or its error) is the whole outcome, whatever else is given. |
| BatchConsole.NothingToRun | src/ldx/ld_base/batch_console_ext.py:54-69 | An unknown command raises a ValueError naming it. A known command with no targets and no filter raises the no-targets ValueError. |
| BatchConsole.ListResults | src/ldx/ld_base/batch_console_ext.py:71-98 | A target list gives one result per number or string target, each the call on that target. |
| BatchConsole.FilterWins | src/ldx/ld_base/batch_console_ext.py:60-64 | With a filter, the targets are the selected ids of `list2`, whatever target list was given. |
| BatchConsole.FilterRaises | src/ldx/ld_base/batch_console_ext.py:60-64 | A filter call that raises (the first one, in `list2` order) makes `batch_execute` raise that error, whatever target list was given and before any command runs. |
| BatchConsole.Unpack | src/ldx/ld_base/batch_console_ext.py:116-125 | The filter and custom function are taken out of the keywords, and a leading list becomes the targets. |
| BatchConsole.ExtraArgumentRefused | src/ldx/ld_base/batch_console_ext.py:127-135 | As written, a target list followed by one more argument raises TypeError, because the argument is bound a second time to `console`. |
| BatchConsole.ForwardedArguments | src/ldx/ld_base/batch_console_ext.py:116-135 | With extra arguments forwarded as intended, each target's call receives them. Without extra arguments the as-written and corrected dispatches agree. |
| BatchUtils.ParseBatchString | src/ldx/ld_cli/commands/batch_utils.py:28-39 | One target per comma-separated piece, in order. Each target is the stripped piece, as a number when it is all digits. |
| BatchUtils.ParseItem | src/ldx/ld_cli/commands/batch_utils.py:28-36 | A piece becomes a number or a string. The string is the stripped piece and is never all digits. |
| BatchUtils.RenderItem | src/ldx/ld_cli/commands/batch_utils.py:28-36 | A non-negative number, or a name without commas, surrounding spaces or all digits, reads back as itself. |
| BatchUtils.ParseRendered | src/ldx/ld_cli/commands/batch_utils.py:28-39 | Joining such targets with commas and parsing the result gives the same targets back. |
| BatchUtils.MixedExample | src/ldx/ld_cli/commands/batch_utils.py:25-26 | `"0, test, 5"` parses to `[0, "test", 5]`. |
| BatchUtils.SafeEvalLambda | src/ldx/ld_cli/commands/batch_utils.py:66-84 | Evaluation succeeds exactly for a parsed lambda whose evaluation succeeds, and then gives that value. Syntax errors come only from parsing. Every other refusal is a ValueError. |
| BatchUtils.ValidateExclusivity | src/ldx/ld_cli/commands/batch_utils.py:100-113 | Every refusal is a ValueError. |
| BatchUtils.ExclusivityExactly | src/ldx/ld_cli/commands/batch_utils.py:100-113 | The options pass exactly when at most one of name, index, batch string and batch lambda is given. Name with index is always reported as such. Both batch options alone are reported as such. |
| CommandFactory.CommandNameShape | src/ldx/ld_cli/commands/command_factory.py:33 | A command name has no underscore and no capital letter, keeps every other character in place, and naming it again changes nothing. |
| CommandFactory.Simple | src/ldx/ld_cli/commands/command_factory.py:37-51 | A simple command calls its method with no arguments and never raises a usage error. |
| CommandFactory.SimpleOutputLines | src/ldx/ld_cli/commands/command_factory.py:42-51 | A falsy result prints nothing. A list prints one line per item. A non-empty string prints itself. Only truthy strings, dictionaries and lists print anything. |
| CommandFactory.Query | src/ldx/ld_cli/commands/command_factory.py:88-108 | A query command never raises a usage error and passes no positional argument. |
| CommandFactory.TargetChoice | src/ldx/ld_cli/commands/command_factory.py:94-98 | No target exactly when the name is falsy and no index is given. A truthy name wins over the index. Other keywords are untouched. |
| CommandFactory.QueryCall | src/ldx/ld_cli/commands/command_factory.py:93-104 | The extra options reach the method unchanged. A command without a target receives nothing else. A command with one receives the name or the index unless an option overrides it. |
| CommandFactory.BatchableRefusesCombinations | src/ldx/ld_cli/commands/command_factory.py:151-155 | More than one instance option is a usage error. A name with an index reports the name-and-index message. |
| CommandFactory.BatchStringCall | src/ldx/ld_cli/commands/command_factory.py:159-163 | A non-empty batch string calls the method once with the parsed targets as the one positional argument. Output appears exactly when the result is truthy. |
| CommandFactory.BatchLambdaCall | src/ldx/ld_cli/commands/command_factory.py:164-171 | A lambda that fails its check is a usage error. A checked lambda is passed as `instances`, and the call's ValueError or SyntaxError becomes a usage error. |
| CommandFactory.BatchableSingle | src/ldx/ld_cli/commands/command_factory.py:179-193 | Without batch options, the command is refused exactly when there is no target. The refusal names the command. The target is a truthy name, otherwise the index. |
| CommandFactory.FallsToSingle | src/ldx/ld_cli/commands/command_factory.py:158-179 | Valid options whose batch string and lambda are both missing or empty are handled as single-target mode. |
| CommandFactory.SingleTarget | src/ldx/ld_cli/commands/command_factory.py:179-197 | Single-target mode refuses exactly when there is no target, and otherwise passes a truthy name, else the index. |
| CommandFactory.ExecTarget | src/ldx/ld_cli/commands/command_factory.py:238-261 | `add` and `globalsetting` receive exactly the given options. Every other exec command is refused exactly when it has no target, and otherwise receives a truthy name, else the index. A completed command prints one line. |
| Py.Construct | src/ldx/ldx_runner/builtins/lifetime.py:68 | Keyword construction succeeds exactly when every keyword is a field and every field without a default is given, and otherwise raises TypeError. Each field is its keyword's value, otherwise its default. |

## Left out

- Timers, threads and locks: APScheduler, the scheduler's lock and the polling thread are not modelled. Time is an integer clock, and `strftime`/`isoformat` stamps are inputs.
- Calls whose behaviour lives outside the modelled files are inputs: plugin hooks, the `ldconsole` process, `eval` and `ast.parse`, file existence probes, file contents and directory listings.
- `LDXInstance.validate`, `can_run` and the three phase methods, which the scheduler calls, are not defined in `core/runner.py`. Their outcomes are inputs (`Scheduler.Phases`).
- `_check_overlaps` (`ldx_server/scheduler.py`) is an input: its answer is an optional overlap description.
- `list_jobs` (`ldx_server/scheduler.py:272-279`) is `get_job_status` applied to every registered id and is not modelled separately. `start` and `stop` only drive APScheduler.
- Registry persistence `_load` and `_save` (`ldx_server/registry.py:104-135`): JSON file I/O.
- `Console.list2` line parsing (`ld/console.py:22-41`): the parsed instance list is an input.
- `LDAttr`: `os.path.abspath` is the identity on the given path, and `isValid` is an input probe.
- `os.path.join` is modelled as POSIX `join`, although the source runs on Windows, where a drive letter restarts the path. `os.path.expanduser("~\\scoop")` (`MXX.ScoopRoot`) is modelled the Windows way, as the home directory followed by `\scoop`. POSIX `expanduser` would leave that string unchanged, so the model mixes the two path flavours.
- `from_dict` of `KeyboardMapping`, `LeidianConfig` and `LeidiansConfig` is not part of this model: the raw value is returned in their place. JSON dumping and the file I/O of the `load` class methods are also left out.
- RecordFile.Build: the `RecordInfo` and `Operation` dataclasses are not part of this model, so their declared fields are a parameter (`RecordFile.Shapes`). Construction through them is modelled, but no `__post_init__` they may have.
- TOML and JSON floats and datetimes have no `Py.Value` form. A float setting such as `lifetime = 1.5`, which `timedelta` accepts, is outside the model. The lifetime operations treat it like any other value that is neither an integer nor a boolean: comparing or adding it raises.
- `create_instance` copies the global configuration shallowly (`core/runner.py:265`). A template substituted inside a global section (`core/runner.py:280`) therefore replaces the reference in the runner's own global configuration, and a later `load_template` no longer reaches it. The model resolves each instance from an unchanged global configuration.
- The KeyboardInterrupt arrives only after a polling round, during `time.sleep(1)`. An interrupt inside `onStartup`, `canRun` or `shouldStop` is not modelled.
- Two triggers of the same job within one second get the same execution id. While the first one-off job is still in the store, the timer library refuses the second one with an error, after its context has replaced the first. The model replaces the context, keeps one timer and raises nothing.
- `str(e)` of an exception is the model's `Message()`, and `pformat`/`str` of a value is `Show`, which does not render nested values.
- `str.isdigit` and `str.lower` are ASCII-only. `str.strip` uses the characters Python's `str.isspace` accepts.
- The `lifetime` clock reads whole seconds from `datetime.min`. The microseconds of `datetime.now()` are dropped, so the stop test compares whole seconds.
- The outcome of terminating the processes of a name (`psutil.process_iter`, `terminate`, `wait(timeout=5)`) is an input, `Lifetime.Terminator`: nothing, or the error psutil raised. `taskkill` runs through `os.system`, which never raises.
- Logging and `time.sleep` are trace events. `interval_between_batches` is a whole number of seconds rather than a float.
- The click option tables (`COMMAND_PARAMS` in `params.py`) are not part of this model: a command's extra options arrive as one keyword dictionary.
- The HTTP routes, the client, the server and the click entry point are outside the modelled core.
- `MXX`: the `delay` setting is read but never used by the source, so the model ignores it too.
- The runner calls `onShutdown` on every loaded plugin, not only on the plugins that started. The model follows the code.
- The `ld` built-in discovers the installation again on shutdown even when a path is configured (`builtins/ld.py:115-117`). The model follows the code.
- The cache's class-level dictionaries are one explicit `LfuCache.Cache` value passed in and returned. A `KeyError` on a hit can arise only when data and metadata disagree, which every load rules out (`LfuCache.LoadValid`).
- JobRegistry.FromDict: refuses an `id`, `config`, `source` or execution count of an unexpected type, where Python would store the value untyped.
- LDConsole.Varied: labels positional arguments from the first declared parameter, which is `self` on a bound method. `LDConsole.VariedSelf` shows this; the model does not correct it.
- CommandFactory.Batchable: an empty batch string passes validation but is then handled in single-target mode, as the source does.

## Findings

| source | as written | input that shows it | evidently intended | confidence | as-written member | corrected member |
|---|---|---|---|---|---|---|
| src/ldx/ldx_server/scheduler.py:121-131 | The execution context is stored before the registry accepts the job. | An id already in the registry, with no context, scheduled with `replace_existing=False`. The call raises ValueError, but the new context stays. | A refused job leaves the scheduler's contexts unchanged. | not executed | Scheduler.RegistryRefusalLeavesContext | Scheduler.AtomicScheduleJob |
| src/ldx/ld_base/batch_console_ext.py:127-135 | `console=self` is passed by keyword after `*args`. A leftover positional argument binds to `console` as well. | `console.launch([1, 2], extra)` raises TypeError for multiple values of `console`. | Extra positional arguments reach each target's call. | not executed | BatchConsole.ExtraArgumentRefused | BatchConsole.ForwardedArguments |
| src/ldx/ldx_runner/builtins/ld.py:52-62 | `LD` declares no `__env_key__`, so the metaclass files it under None. | A configuration with an `[ld]` section loads no LD plugin. | `[ld]` selects `LD`, as its documentation says. | not executed | Plugins.BuiltinSections | Plugins.KeyedSections |
| src/ldx/ld/console.py:123-124 | `not name and not index` treats index 0 as missing. | `modify(index=0)` raises ValueError. | Index 0 addresses the first instance. | not executed | LDConsole.ModifyRefusesIndexZero | LDConsole.ModifyFixedTarget |

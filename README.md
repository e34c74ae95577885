# ResourceUnloadOptimizations throttling engine, in Dafny

COM3D2.ResourceUnloadOptimizations is a BepInEx plugin for a Unity game. It
intercepts the game's `GC.Collect()` and `Resources.UnloadUnusedAssets()`
calls and decides when a collection or an asset unload should really run.
This project models that decision engine and proves properties of it:

- the memory-pressure test `PlentyOfMemory`, with its normal and dance
  threshold profiles (`MemoryPressure`, `Settings`);
- the request coalescer: every intercepted `GC.Collect()` resets a countdown
  to 3, and the once-a-second cleanup loop fires one collection on the tick
  that takes the countdown to zero (`Coalescer`, `Engine`);
- the pseudo-incremental collection, which collects generations 0, 0, 1, …,
  maxGeneration one frame at a time (`IncrementalCollect`, `Engine`);
- the single-flight unload guard and its diagnostic off switch (`Engine`);
- the dance flag and the scene and free-dance events that set and clear it
  (`SceneNames`, `DanceMode`, `Engine`);
- the optional full collection after a scene unload (`Engine`).

The plugin's mutable state becomes one object,
`Engine.ResourceUnloadOptimizations`. Its fields are the countdown, the
cleanup loop's wait time, the recorded unload operation and its done bit,
the running marker and progress of the incremental job, and the dance flag.
The configuration is an immutable `Settings.Config`; `Settings.Defaults`
holds the defaults bound in `Awake`. Calls into the host runtime
(`GC.Collect(gen)`, `GC.WaitForPendingFinalizers()`, the original unload)
are appended to a ghost trace of `Host.Event`s, so contracts can say
"exactly one collection", "no collection" or "these generations, in this
order".

Host inputs are parameters:

- the OS memory status (`MemoryInfo.GetCurrentStatus()`) is an
  `Option<Snapshot>`, where `None` is a failed read;
- the clock (`Time.realtimeSinceStartup`) is the `now` argument of
  `CleanupTick`;
- `AsyncOperation.isDone` is a done bit that the host sets through
  `OperationCompleted`;
- the unload operation handles are fresh numbers.

Each coroutine is modelled as explicit steps:

- one resumption of `CleanupCo` is `CleanupTick`;
- starting `RunPseudoIncrementalCollect` runs its first segment up to the
  first yield, as `StartCoroutine` does;
- each later end-of-frame resumption is `ResumeIncrementalCollect`;
- `CompleteIncrementalCollect` loops those resumptions until the job
  clears its marker.

Behaviour of the code that the model keeps as written:

- `OnSceneLoaded` sets the dance flag for every scene whose name does not
  contain "dance" (ResourceUnloadOptimizations.cs:287-290). The flag is
  cleared only by the end of a free dance, and with the dance setting off
  only a non-dance scene sets it. `DanceMode.AfterSceneLoaded`,
  `DanceMode.ToggleOnFollowsLastEvent` and
  `DanceMode.ToggleOffSetOnlyByNonDanceScene` state this.
- In pseudo-incremental mode (the default), the countdown starts the
  incremental job without consulting `PlentyOfMemory`. Only the
  non-incremental path is gated by the memory test.
- The memory test has three limits: load, free page-file ratio and
  available page-file bytes. There is no managed-heap limit. The default
  ratios are 0.3 (normal) and 0.7 (dance), as bound in `Awake`. With these
  defaults the dance profile is not uniformly more tolerant, which
  `MemoryPressure.DefaultProfilesIncomparable` proves. The model follows
  these three limits and these ratios as the code binds them.
- The code has no "ignore the global toggle" variant of the memory test,
  and no suppression of the runtime's automatic collector. Neither is
  modelled.

## Model

| member | source | states |
|---|---|---|
| `Settings.DefaultsAsBound` | COM3D2.ResourceUnloadOptimizations.Plugin/ResourceUnloadOptimizations.cs:57-73 | the defaults bound at start-up: memory maximizing on in both profiles, pseudo-incremental collection on, unload enabled, full collection on scene unload and periodic collection off with a 120-second interval; each normal threshold lies below the dance one, with a 2 GiB available page-file floor in both (the values themselves are `Settings.Defaults`) |
| `MemoryPressure.WithinProfile` | COM3D2.ResourceUnloadOptimizations.Plugin/ResourceUnloadOptimizations.cs:256-267 | a status within a profile is strictly inside each limit: load not at the threshold, available bytes positive and not at the minimum, and for a non-empty page file a free ratio above the threshold |
| `MemoryPressure.PlentyOfMemory` | COM3D2.ResourceUnloadOptimizations.Plugin/ResourceUnloadOptimizations.cs:245-250 | "skip" is possible only with MaximizeMemoryUsage on and a readable memory status; a missing status or the toggle off always means "collect" |
| `MemoryPressure.PlentyOfMemoryIff` | COM3D2.ResourceUnloadOptimizations.Plugin/ResourceUnloadOptimizations.cs:253-267 | for a readable status with a non-empty page file: skip iff the toggle is on, load < percent threshold, avail/total > free-ratio threshold and avail > min-bytes threshold, all of the dance profile when the dance flag is set and of the normal profile otherwise |
| `MemoryPressure.RatioTestIsDivision` | COM3D2.ResourceUnloadOptimizations.Plugin/ResourceUnloadOptimizations.cs:253-265 | the multiplied-out ratio test used by the model equals the division test avail/total > threshold whenever total > 0 |
| `MemoryPressure.EmptyPageFile` | COM3D2.ResourceUnloadOptimizations.Plugin/ResourceUnloadOptimizations.cs:253 | with a zero total page file the ratio test holds iff some page file is available (avail/0 is +infinity, 0/0 is NaN) |
| `MemoryPressure.AtThresholdMeansCollect` | COM3D2.ResourceUnloadOptimizations.Plugin/ResourceUnloadOptimizations.cs:258-266 | all comparisons are strict: a load, ratio or available-bytes value exactly at its threshold yields "collect" |
| `MemoryPressure.DefaultProfilesIncomparable` | COM3D2.ResourceUnloadOptimizations.Plugin/ResourceUnloadOptimizations.cs:60-68 | with the default settings some status is plentiful under the normal profile but not the dance one, and some other status the other way round |
| `Coalescer.Tick` | COM3D2.ResourceUnloadOptimizations.Plugin/ResourceUnloadOptimizations.cs:122-125 | a tick fires exactly when the countdown goes from 1 to 0, never takes a non-negative countdown below zero or above its old value, decrements a positive countdown by exactly one, and changes the countdown iff it was positive |
| `Coalescer.Armed` | COM3D2.ResourceUnloadOptimizations.Plugin/ResourceUnloadOptimizations.cs:300 | an intercepted request sets the countdown to 3; without one a countdown in 0..3 stays in 0..3 |
| `Coalescer.Run` | COM3D2.ResourceUnloadOptimizations.Plugin/ResourceUnloadOptimizations.cs:114-137 | replaying a run of request slots yields exactly one fire flag per tick, one tick per slot; each slot arms the countdown left by the earlier slots if a request came in and then ticks it (the unfolding is `Coalescer.RunStep`) |
| `Coalescer.CounterAfterRun` | COM3D2.ResourceUnloadOptimizations.Plugin/ResourceUnloadOptimizations.cs:122-125 | from zero, the countdown after any run of ticks and requests lies in 0..2 and depends only on whether requests came in before the last two ticks |
| `Coalescer.FireCharacterization` | COM3D2.ResourceUnloadOptimizations.Plugin/ResourceUnloadOptimizations.cs:117-137 | tick i fires the collection iff the last request came in before tick i-2 and none came in before ticks i-1 and i: the third tick after the last request |
| `Coalescer.FiresSpacedApart` | COM3D2.ResourceUnloadOptimizations.Plugin/ResourceUnloadOptimizations.cs:122-137 | two collections fired by the countdown are at least three ticks apart |
| `Coalescer.BurstFiresOnce` | COM3D2.ResourceUnloadOptimizations.Plugin/ResourceUnloadOptimizations.cs:297-303 | a burst of requests on consecutive ticks followed by quiet ticks fires exactly one collection, on the third tick counted from the last request |
| `Coalescer.RequestsAtTicks0To4` | COM3D2.ResourceUnloadOptimizations.Plugin/ResourceUnloadOptimizations.cs:117-137 | requests before ticks 0, 1, 2 and 4 over eight ticks fire exactly one collection, on tick 6 |
| `Host.CollectEvents` | COM3D2.ResourceUnloadOptimizations.Plugin/ResourceUnloadOptimizations.cs:160-161 | collecting a list of generations issues two host calls per generation |
| `Host.CollectEventsAt` | COM3D2.ResourceUnloadOptimizations.Plugin/ResourceUnloadOptimizations.cs:176-177 | the k-th generation is collected by call 2k and followed by a finalizer wait at call 2k+1 |
| `IncrementalCollect.Ascending` | COM3D2.ResourceUnloadOptimizations.Plugin/ResourceUnloadOptimizations.cs:170 | the second loop visits lo, lo+1, …, hi in order, hi-lo+1 generations |
| `IncrementalCollect.Plan` | COM3D2.ResourceUnloadOptimizations.Plugin/ResourceUnloadOptimizations.cs:150-184 | the job has maxGen+2 steps: generation 0 twice, then generation k-1 at step k |
| `IncrementalCollect.PlanShape` | COM3D2.ResourceUnloadOptimizations.Plugin/ResourceUnloadOptimizations.cs:154-184 | the job's generations never decrease, cover every generation 0..maxGen and end with maxGen |
| `IncrementalCollect.JobStep` | COM3D2.ResourceUnloadOptimizations.Plugin/ResourceUnloadOptimizations.cs:154-184 | host call 2k of the job collects generation 0 for k < 2 and k-1 otherwise; call 2k+1 waits for finalizers |
| `IncrementalCollect.StartThenResume` | COM3D2.ResourceUnloadOptimizations.Plugin/ResourceUnloadOptimizations.cs:130 | the segment run at start-up plus the later resumptions make up exactly the whole job |
| `SceneNames.ToLower` | COM3D2.ResourceUnloadOptimizations.Plugin/ResourceUnloadOptimizations.cs:279 | lower-casing keeps the length and maps every character by itself |
| `SceneNames.Contains` | COM3D2.ResourceUnloadOptimizations.Plugin/ResourceUnloadOptimizations.cs:279 | the search succeeds iff the pattern occurs at some position |
| `SceneNames.IsDanceScene` | COM3D2.ResourceUnloadOptimizations.Plugin/ResourceUnloadOptimizations.cs:279 | a scene is a dance scene iff its name spells "dance" in any case at some position |
| `DanceMode.AfterSceneLoaded` | COM3D2.ResourceUnloadOptimizations.Plugin/ResourceUnloadOptimizations.cs:277-291 | after a scene load the flag is set iff it was set, the dance setting is on, or the scene is not a dance scene |
| `DanceMode.AfterStartFreeDance` | COM3D2.ResourceUnloadOptimizations.Plugin/ResourceUnloadOptimizations.cs:337-344 | starting a free dance sets the flag iff it was set or the dance setting is on |
| `DanceMode.AfterEndFreeDance` | COM3D2.ResourceUnloadOptimizations.Plugin/ResourceUnloadOptimizations.cs:348-352 | ending a free dance always clears the flag |
| `DanceMode.ToggleOnFollowsLastEvent` | COM3D2.ResourceUnloadOptimizations.Plugin/ResourceUnloadOptimizations.cs:277-291 | with the dance setting on, after any event sequence the flag is set iff the last event was not the end of a free dance |
| `DanceMode.ToggleOffSetOnlyByNonDanceScene` | COM3D2.ResourceUnloadOptimizations.Plugin/ResourceUnloadOptimizations.cs:287-290 | with the dance setting off, a flag that ends up set was set at the start or some event loaded a non-dance scene |
| `Engine.StartsUnload` | COM3D2.ResourceUnloadOptimizations.Plugin/ResourceUnloadOptimizations.cs:198 | with no recorded operation an unload starts; a started unload had none recorded or a done one; a recorded operation under plentiful memory never lets another start |
| `Engine.ResourceUnloadOptimizations.constructor` | COM3D2.ResourceUnloadOptimizations.Plugin/ResourceUnloadOptimizations.cs:77 | the plugin starts with the dance flag equal to its setting, no pending request, no recorded unload, no running job and no host calls |
| `Engine.ResourceUnloadOptimizations.GCCollectHook` | COM3D2.ResourceUnloadOptimizations.Plugin/ResourceUnloadOptimizations.cs:297-303 | a request sets the countdown to 3 whatever it was and suppresses the original call |
| `Engine.ResourceUnloadOptimizations.RunFullGarbageCollect` | COM3D2.ResourceUnloadOptimizations.Plugin/ResourceUnloadOptimizations.cs:209-222 | no host call when memory is plentiful, otherwise exactly Collect(maxGeneration) then one finalizer wait |
| `Engine.ResourceUnloadOptimizations.StartIncrementalCollect` | COM3D2.ResourceUnloadOptimizations.Plugin/ResourceUnloadOptimizations.cs:129-130 | starting the job sets the running marker and runs its first step, Collect(0) and a finalizer wait |
| `Engine.ResourceUnloadOptimizations.ResumeIncrementalCollect` | COM3D2.ResourceUnloadOptimizations.Plugin/ResourceUnloadOptimizations.cs:154-188 | each resumption collects the next generation of the plan; the one after the last step clears the marker; without a job nothing happens |
| `Engine.ResourceUnloadOptimizations.CompleteIncrementalCollect` | COM3D2.ResourceUnloadOptimizations.Plugin/ResourceUnloadOptimizations.cs:145-189 | resuming a running job to its end collects the rest of the plan in order and clears the marker |
| `Engine.ResourceUnloadOptimizations.CleanupTick` | COM3D2.ResourceUnloadOptimizations.Plugin/ResourceUnloadOptimizations.cs:112-140 | before the wait time nothing changes; otherwise the next wait is now+1 and the countdown ticks; on the 1-to-0 tick a job starts in incremental mode if none runs (none if one runs), or the gated full collection runs |
| `Engine.ResourceUnloadOptimizations.OriginalUnload` | COM3D2.ResourceUnloadOptimizations.Plugin/ResourceUnloadOptimizations.cs:201 | the original unload records a fresh, not yet done operation and issues one unload call |
| `Engine.ResourceUnloadOptimizations.OperationCompleted` | COM3D2.ResourceUnloadOptimizations.Plugin/ResourceUnloadOptimizations.cs:198 | the host's done bit only goes from false to true, and only for a recorded operation |
| `Engine.ResourceUnloadOptimizations.RunUnloadAssets` | COM3D2.ResourceUnloadOptimizations.Plugin/ResourceUnloadOptimizations.cs:195-204 | a new unload starts iff none is recorded or the recorded one is done and memory is not plentiful; otherwise the same handle returns and nothing changes |
| `Engine.ResourceUnloadOptimizations.UnloadUnusedAssetsHook` | COM3D2.ResourceUnloadOptimizations.Plugin/ResourceUnloadOptimizations.cs:306-312 | with DisableUnload the hook returns null and changes nothing; otherwise it behaves as the single-flight unload |
| `Engine.ResourceUnloadOptimizations.OnSceneLoaded` | COM3D2.ResourceUnloadOptimizations.Plugin/ResourceUnloadOptimizations.cs:277-291 | the new flag is the scene-load transition of the old one |
| `Engine.ResourceUnloadOptimizations.StartFreeDancePostfix` | COM3D2.ResourceUnloadOptimizations.Plugin/ResourceUnloadOptimizations.cs:337-344 | the new flag is the free-dance-start transition of the old one |
| `Engine.ResourceUnloadOptimizations.EndFreeDancePostfix` | COM3D2.ResourceUnloadOptimizations.Plugin/ResourceUnloadOptimizations.cs:348-352 | the flag is cleared |
| `Engine.ResourceUnloadOptimizations.UnloadScenePostfix` | COM3D2.ResourceUnloadOptimizations.Plugin/ResourceUnloadOptimizations.cs:318-329 | after a scene unload, exactly one ungated Collect(maxGeneration) and finalizer wait when the setting is on, no host call otherwise |
| `Engine.RequestThenQuietTicks` | COM3D2.ResourceUnloadOptimizations.Plugin/ResourceUnloadOptimizations.cs:117-137 | with no job running, a request followed by three ticks a second apart yields the whole incremental job in order, or the single gated full collection, and leaves the countdown at 0 |
| `Engine.UnloadWhilePending` | COM3D2.ResourceUnloadOptimizations.Plugin/ResourceUnloadOptimizations.cs:195-204 | two unload requests in a row get the same handle and issue at most one original unload |
| `Engine.DriveSlot` | COM3D2.ResourceUnloadOptimizations.Plugin/ResourceUnloadOptimizations.cs:117-137 | an intercepted request (if any) then a due tick move the countdown as the coalescer arms then ticks it; a firing tick runs the gated full collection, or starts the incremental job unless one runs; otherwise the job marker, its progress and the trace stay as they were |
| `Engine.DriveFullCollections` | COM3D2.ResourceUnloadOptimizations.Plugin/ResourceUnloadOptimizations.cs:122-135 | full-collection mode over any requests and per-tick memory statuses: the countdown ends where the replay ends, and the trace gains Collect(maxGeneration) and a finalizer wait for exactly the firing ticks whose status is not plentiful, in order |
| `Engine.DriveIncrementalStarts` | COM3D2.ResourceUnloadOptimizations.Plugin/ResourceUnloadOptimizations.cs:122-131 | incremental mode with no frame resumptions between ticks: the countdown ends where the replay ends; the job marker is set iff it was set or some tick fired; a job not running before is started once, by its first step, and a running one is left alone |
| `Engine.DriveCoalescer` | COM3D2.ResourceUnloadOptimizations.Plugin/ResourceUnloadOptimizations.cs:112-140 | in either mode, with any requests and a memory status per one-second tick: the countdown ends where the coalescer replay from its old value ends; in full mode a collection runs on exactly the firing ticks under memory pressure; in incremental mode, with no frame resumptions in between, the first fire starts the job unless one runs and later fires are dropped |

## Left out

- Hook installation (`InstallHooks`, lines 91-106) is not modelled: NativeDetour and Harmony patching are runtime plumbing. The hooks are ordinary entry-point methods.
- Configuration loading and saving (`Config.Bind`, lines 57-73) is not modelled. The values are an immutable `Settings.Config`, and `Settings.Defaults` holds their defaults.
- `PeriodicGCCo` (lines 224-239) is not modelled. It is a timer that issues `GC.Collect(0)` when enabled. `periodicGCInterval` and `enablePeriodicGC` are kept in the configuration only.
- `MemoryInfo.GetCurrentStatus`, `GC.Collect`, `GC.WaitForPendingFinalizers`, the original unload and `AsyncOperation.isDone` are host primitives. They are an `Option<Snapshot>` input, trace events and a done bit set by `OperationCompleted`.
- Unity's coroutine scheduler is not modelled: `yield return null` and `WaitForEndOfFrame` become explicit resumption calls, and of `StartCoroutine` only its synchronous run up to the first yield is kept (`StartIncrementalCollect`). The model therefore does not fix how the two coroutines interleave within a frame.
- Stopwatch timing and all logging are left out (lines 147-148, 156-166, 172-182, 186-187, 200, 213-214, 220-221, 272, 283, 325, 341, 350). They have no functional effect.
- MemoryPressure.PlentyOfMemory: the page-file ratio is a single-precision float division in the source. The model uses an exact comparison, avail > threshold × total, over reals. Float rounding is therefore not captured: a status within one float ulp of the threshold can decide differently. The float threshold values 0.3f and 0.7f are taken as the reals 0.3 and 0.7.
- MemoryPressure.EmptyPageFile: the IEEE outcome for a zero total is matched only for finite thresholds. An infinite or NaN threshold from the configuration is not modelled.
- SceneNames.ToLower: only ASCII A–Z are mapped. The source's `ToLower()` is culture-dependent Unicode case mapping, and non-ASCII letters and culture rules (such as Turkish dotted I) are not captured.
- Wrap-around of counters and time is not modelled: integers and the clock are unbounded. The countdown stays within 0..3 in any case.
- Engine.DriveCoalescer: in incremental mode the drive runs no end-of-frame resumptions between ticks, so a started job is still running at every later tick. How the job's frames interleave with the one-second ticks is not captured, and neither are the collections of later jobs. `CompleteIncrementalCollect` and `RequestThenQuietTicks` cover one job run to its end.

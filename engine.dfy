/**
 * The plugin's throttling engine as one object: the request countdown and
 * its one-second clock, the recorded unload operation, the marker and
 * progress of the pseudo-incremental job, and the dance flag. Calls into the
 * host runtime are appended to the ghost trace.
 */
module Engine {
  import opened Wrappers
  import opened Settings
  import opened Host
  import MemoryPressure
  import Coalescer
  import IncrementalCollect
  import DanceMode
  import SceneNames

  /** A new unload runs when none is recorded, or the recorded one is done and memory is not plentiful. */
  predicate StartsUnload(current: Option<nat>, isDone: bool, plenty: bool): (starts: bool)
    ensures current.None? ==> starts
    ensures starts ==> current.None? || isDone
    ensures current.Some? && plenty ==> !starts
  {
    current.None? || (isDone && !plenty)
  }

  class ResourceUnloadOptimizations {
    const config: Config
    const maxGeneration: nat  // GC.MaxGeneration of the runtime

    var garbageCollect: int                // countdown of ticks until the coalesced collection
    var waitTime: real                     // clock time before which the cleanup loop does not tick
    var currentOperation: Option<nat>      // the recorded unload operation, if any
    var currentOperationDone: bool         // the host's isDone for the recorded operation
    var nextOperation: nat                 // the handle the next original unload returns
    var incrementalRunning: bool           // a pseudo-incremental job is running
    var incrementalStep: nat               // how many steps of the running job have been issued
    var danceFlag: bool                    // the dance profile is active

    ghost var trace: seq<Event>

    ghost predicate Valid()
      reads this
    {
      && 0 <= garbageCollect <= Coalescer.Countdown
      && (incrementalRunning ==> 1 <= incrementalStep <= |IncrementalCollect.Plan(maxGeneration)|)
      && (!incrementalRunning ==> incrementalStep == 0)
      && (currentOperation.Some? ==> currentOperation.value < nextOperation)
      && (currentOperation.None? ==> !currentOperationDone)
    }

    /**
     * The plugin as Awake leaves it: the dance flag copied from its setting,
     * no pending request, no unload recorded, no job running.
     */
    constructor (config: Config, maxGeneration: nat)
      ensures Valid()
      ensures this.config == config && this.maxGeneration == maxGeneration
      ensures danceFlag == config.danceMaximizeMemoryUsage
      ensures garbageCollect == 0 && waitTime == 0.0
      ensures currentOperation == None && !incrementalRunning
      ensures trace == []
    {
      this.config := config;
      this.maxGeneration := maxGeneration;
      garbageCollect := 0;
      waitTime := 0.0;
      currentOperation := None;
      currentOperationDone := false;
      nextOperation := 0;
      incrementalRunning := false;
      incrementalStep := 0;
      danceFlag := config.danceMaximizeMemoryUsage;
      trace := [];
    }

    /** The memory-pressure test under the current dance flag. */
    function Plenty(mem: Option<MemoryPressure.Snapshot>): bool
      reads this
    {
      MemoryPressure.PlentyOfMemory(config, danceFlag, mem)
    }

    /** An intercepted GC.Collect(): restart the countdown and suppress the original call. */
    method GCCollectHook() returns (runOriginal: bool)
      requires Valid()
      modifies this`garbageCollect
      ensures Valid()
      ensures !runOriginal
      ensures garbageCollect == Coalescer.Countdown
    {
      garbageCollect := Coalescer.Countdown;
      runOriginal := false;
    }

    /** A full collection, unless memory is plentiful. */
    method RunFullGarbageCollect(mem: Option<MemoryPressure.Snapshot>)
      requires Valid()
      modifies this`trace
      ensures Valid()
      ensures trace == old(trace) + if Plenty(mem) then [] else CollectEvents([maxGeneration])
    {
      if Plenty(mem) {
        return;
      }
      trace := trace + [Collect(maxGeneration), WaitForPendingFinalizers];
    }

    /** StartCoroutine runs the new job up to its first yield: one collection of generation 0. */
    method StartIncrementalCollect()
      requires Valid() && !incrementalRunning
      modifies this`incrementalRunning, this`incrementalStep, this`trace
      ensures Valid()
      ensures incrementalRunning && incrementalStep == 1
      ensures trace == old(trace) + CollectEvents(IncrementalCollect.Plan(maxGeneration)[..1])
    {
      incrementalRunning := true;
      var gens := IncrementalCollect.Plan(maxGeneration);
      trace := trace + [Collect(gens[0]), WaitForPendingFinalizers];
      incrementalStep := 1;
    }

    /**
     * One resumption of the job at the end of a frame: the next generation of
     * the plan, or, once the plan is done, clearing the running marker.
     */
    method ResumeIncrementalCollect()
      requires Valid()
      modifies this`incrementalRunning, this`incrementalStep, this`trace
      ensures Valid()
      ensures !old(incrementalRunning) ==>
        !incrementalRunning && incrementalStep == old(incrementalStep) && trace == old(trace)
      ensures old(incrementalRunning) && old(incrementalStep) < |IncrementalCollect.Plan(maxGeneration)| ==>
        && incrementalRunning && incrementalStep == old(incrementalStep) + 1
        && trace == old(trace) + CollectEvents([IncrementalCollect.Plan(maxGeneration)[old(incrementalStep)]])
      ensures old(incrementalRunning) && old(incrementalStep) == |IncrementalCollect.Plan(maxGeneration)| ==>
        !incrementalRunning && trace == old(trace)
    {
      if !incrementalRunning {
        return;
      }
      var gens := IncrementalCollect.Plan(maxGeneration);
      if incrementalStep < |gens| {
        trace := trace + [Collect(gens[incrementalStep]), WaitForPendingFinalizers];
        incrementalStep := incrementalStep + 1;
      } else {
        incrementalRunning := false;
        incrementalStep := 0;
      }
    }

    /**
     * Frames pass with nothing else happening until the running job finishes:
     * the rest of the plan is collected in order and the marker is cleared.
     */
    method CompleteIncrementalCollect()
      requires Valid()
      modifies this`incrementalRunning, this`incrementalStep, this`trace
      ensures Valid() && !incrementalRunning
      ensures old(incrementalRunning) ==>
        trace == old(trace) + CollectEvents(IncrementalCollect.Plan(maxGeneration)[old(incrementalStep)..])
      ensures !old(incrementalRunning) ==> trace == old(trace)
    {
      if !incrementalRunning {
        return;
      }
      ghost var gens := IncrementalCollect.Plan(maxGeneration);
      ghost var from := incrementalStep;
      ghost var before := trace;
      while incrementalRunning
        invariant Valid()
        invariant from <= |gens|
        invariant incrementalRunning ==> from <= incrementalStep
        invariant incrementalRunning ==> trace == before + CollectEvents(gens[from..incrementalStep])
        invariant !incrementalRunning ==> trace == before + CollectEvents(gens[from..])
        decreases if incrementalRunning then |gens| + 1 - incrementalStep else 0
      {
        if incrementalStep < |gens| {
          CollectEventsExtend(gens, from, incrementalStep);
        } else {
          assert gens[from..incrementalStep] == gens[from..];
        }
        ResumeIncrementalCollect();
      }
    }

    /**
     * One frame's resumption of the cleanup loop at clock time now. Once the
     * one-second wait is over, the next wait ends a second later and the
     * countdown ticks; on the tick that takes it to zero the collection starts:
     * a new pseudo-incremental job when that mode is on and none is running,
     * or else a full collection gated by the memory-pressure test.
     */
    method CleanupTick(now: real, mem: Option<MemoryPressure.Snapshot>)
      requires Valid()
      modifies this`garbageCollect, this`waitTime, this`incrementalRunning, this`incrementalStep, this`trace
      ensures Valid()
      ensures now < old(waitTime) ==>
        && waitTime == old(waitTime) && garbageCollect == old(garbageCollect)
        && incrementalRunning == old(incrementalRunning) && incrementalStep == old(incrementalStep)
        && trace == old(trace)
      ensures old(waitTime) <= now ==>
        waitTime == now + 1.0 && garbageCollect == Coalescer.Tick(old(garbageCollect)).counter
      ensures var fired := old(waitTime) <= now && Coalescer.Tick(old(garbageCollect)).fire;
        && (!fired ==>
              incrementalRunning == old(incrementalRunning) && incrementalStep == old(incrementalStep)
              && trace == old(trace))
        && (fired && !config.enablePseudoIncrementalGC ==>
              incrementalRunning == old(incrementalRunning) && incrementalStep == old(incrementalStep)
              && trace == old(trace) + if Plenty(mem) then [] else CollectEvents([maxGeneration]))
        && (fired && config.enablePseudoIncrementalGC && old(incrementalRunning) ==>
              incrementalRunning && incrementalStep == old(incrementalStep) && trace == old(trace))
        && (fired && config.enablePseudoIncrementalGC && !old(incrementalRunning) ==>
              incrementalRunning && incrementalStep == 1
              && trace == old(trace) + CollectEvents(IncrementalCollect.Plan(maxGeneration)[..1]))
    {
      if now < waitTime {
        return;
      }
      waitTime := now + 1.0;
      if garbageCollect > 0 {
        garbageCollect := garbageCollect - 1;
        if garbageCollect == 0 {
          if config.enablePseudoIncrementalGC {
            if !incrementalRunning {
              StartIncrementalCollect();
            }
          } else {
            RunFullGarbageCollect(mem);
          }
        }
      }
    }

    /** The host's original unload: a fresh operation, not yet done, recorded as current. */
    method OriginalUnload()
      requires Valid()
      modifies this`currentOperation, this`currentOperationDone, this`nextOperation, this`trace
      ensures Valid()
      ensures currentOperation == Some(old(nextOperation)) && !currentOperationDone
      ensures nextOperation == old(nextOperation) + 1
      ensures trace == old(trace) + [Unload(old(nextOperation))]
    {
      trace := trace + [Unload(nextOperation)];
      currentOperation := Some(nextOperation);
      currentOperationDone := false;
      nextOperation := nextOperation + 1;
    }

    /** The host reports that the recorded unload operation has finished. */
    method OperationCompleted()
      requires Valid()
      modifies this`currentOperationDone
      ensures Valid()
      ensures currentOperationDone == (old(currentOperationDone) || currentOperation.Some?)
    {
      if currentOperation.Some? {
        currentOperationDone := true;
      }
    }

    /**
     * Single-flight unload: a new operation only when none is recorded, or the
     * recorded one is done and memory is not plentiful; otherwise the recorded
     * handle comes back and nothing changes.
     */
    method RunUnloadAssets(mem: Option<MemoryPressure.Snapshot>) returns (operation: Option<nat>)
      requires Valid()
      modifies this`currentOperation, this`currentOperationDone, this`nextOperation, this`trace
      ensures Valid()
      ensures operation.Some? && operation == currentOperation
      ensures StartsUnload(old(currentOperation), old(currentOperationDone), Plenty(mem)) ==>
        && currentOperation == Some(old(nextOperation)) && !currentOperationDone
        && nextOperation == old(nextOperation) + 1
        && trace == old(trace) + [Unload(old(nextOperation))]
      ensures !StartsUnload(old(currentOperation), old(currentOperationDone), Plenty(mem)) ==>
        && currentOperation == old(currentOperation) && currentOperationDone == old(currentOperationDone)
        && nextOperation == old(nextOperation) && trace == old(trace)
    {
      if currentOperation.None? || (currentOperationDone && !Plenty(mem)) {
        OriginalUnload();
      }
      operation := currentOperation;
    }

    /** The detour of Resources.UnloadUnusedAssets; the diagnostic switch makes it a no-op returning null. */
    method UnloadUnusedAssetsHook(mem: Option<MemoryPressure.Snapshot>) returns (operation: Option<nat>)
      requires Valid()
      modifies this`currentOperation, this`currentOperationDone, this`nextOperation, this`trace
      ensures Valid()
      ensures config.disableUnload ==>
        && operation == None
        && currentOperation == old(currentOperation) && currentOperationDone == old(currentOperationDone)
        && nextOperation == old(nextOperation) && trace == old(trace)
      ensures !config.disableUnload ==> operation.Some? && operation == currentOperation
      ensures !config.disableUnload && StartsUnload(old(currentOperation), old(currentOperationDone), Plenty(mem)) ==>
        && currentOperation == Some(old(nextOperation)) && !currentOperationDone
        && nextOperation == old(nextOperation) + 1
        && trace == old(trace) + [Unload(old(nextOperation))]
      ensures !StartsUnload(old(currentOperation), old(currentOperationDone), Plenty(mem)) ==>
        && currentOperation == old(currentOperation) && currentOperationDone == old(currentOperationDone)
        && nextOperation == old(nextOperation) && trace == old(trace)
    {
      if config.disableUnload {
        operation := None;
      } else {
        operation := RunUnloadAssets(mem);
      }
    }

    method OnSceneLoaded(sceneName: string)
      requires Valid()
      modifies this`danceFlag
      ensures Valid()
      ensures danceFlag == DanceMode.AfterSceneLoaded(old(danceFlag), config.danceMaximizeMemoryUsage, sceneName)
    {
      if SceneNames.IsDanceScene(sceneName) {
        if config.danceMaximizeMemoryUsage {
          danceFlag := true;
        }
      } else {
        danceFlag := true;
      }
    }

    method StartFreeDancePostfix()
      requires Valid()
      modifies this`danceFlag
      ensures Valid()
      ensures danceFlag == DanceMode.AfterStartFreeDance(old(danceFlag), config.danceMaximizeMemoryUsage)
    {
      if config.danceMaximizeMemoryUsage {
        danceFlag := true;
      }
    }

    method EndFreeDancePostfix()
      requires Valid()
      modifies this`danceFlag
      ensures Valid()
      ensures danceFlag == DanceMode.AfterEndFreeDance(old(danceFlag))
    {
      danceFlag := false;
    }

    /** After a scene unload: a full collection, ungated, when the setting asks for one. */
    method UnloadScenePostfix(sceneName: string)
      requires Valid()
      modifies this`trace
      ensures Valid()
      ensures trace == old(trace) + if config.fullGCOnSceneUnload then CollectEvents([maxGeneration]) else []
    {
      if !config.fullGCOnSceneUnload {
        return;
      }
      trace := trace + [Collect(maxGeneration), WaitForPendingFinalizers];
    }
  }

  /**
   * A collection request followed by quiet seconds: nothing happens on the
   * first two ticks; the third starts the collection, and in incremental mode
   * the job then runs to its end, collecting the whole plan in order.
   */
  method RequestThenQuietTicks(e: ResourceUnloadOptimizations, now: real, mem: Option<MemoryPressure.Snapshot>)
    requires e.Valid() && e.waitTime <= now && !e.incrementalRunning
    modifies e
    ensures e.Valid() && e.garbageCollect == 0 && !e.incrementalRunning
    ensures e.config.enablePseudoIncrementalGC ==>
      e.trace == old(e.trace) + CollectEvents(IncrementalCollect.Plan(e.maxGeneration))
    ensures !e.config.enablePseudoIncrementalGC ==>
      e.trace == old(e.trace) + if e.Plenty(mem) then [] else CollectEvents([e.maxGeneration])
  {
    var suppressed := e.GCCollectHook();
    e.CleanupTick(now, mem);
    e.CleanupTick(now + 1.0, mem);
    assert e.trace == old(e.trace) && e.garbageCollect == 1;
    e.CleanupTick(now + 2.0, mem);
    e.CompleteIncrementalCollect();
    IncrementalCollect.StartThenResume(e.maxGeneration);
  }

  /**
   * Two unload requests with the first operation still pending: the second
   * gets the same handle and the original unload runs once.
   */
  method UnloadWhilePending(e: ResourceUnloadOptimizations, mem: Option<MemoryPressure.Snapshot>)
    returns (first: Option<nat>, second: Option<nat>)
    requires e.Valid()
    modifies e
    ensures e.Valid()
    ensures !e.config.disableUnload ==> first.Some? && second == first
    ensures |e.trace| <= |old(e.trace)| + 1
  {
    first := e.UnloadUnusedAssetsHook(mem);
    second := e.UnloadUnusedAssetsHook(mem);
  }

  /**
   * The host calls of the full collections started on the ticks flagged in
   * fires, in order: tick k collects unless memory is plentiful under its
   * status mems[k].
   */
  ghost function GatedCollections(config: Config, danceFlag: bool, fires: seq<bool>,
                                  mems: seq<Option<MemoryPressure.Snapshot>>, generation: nat): seq<Event>
    requires |fires| == |mems|
    decreases |fires|
  {
    if fires == [] then []
    else
      var n := |fires| - 1;
      GatedCollections(config, danceFlag, fires[..n], mems[..n], generation)
      + if fires[n] && !MemoryPressure.PlentyOfMemory(config, danceFlag, mems[n])
        then CollectEvents([generation]) else []
  }

  /**
   * One more tick: a trace that holds the gated collections of the earlier
   * ticks, extended by this tick's collection if it runs one, holds the gated
   * collections of all of them.
   */
  lemma GatedCollectionsStep(config: Config, danceFlag: bool, generation: nat, before: seq<Event>,
                             fires: seq<bool>, fire: bool, mems: seq<Option<MemoryPressure.Snapshot>>, k: nat,
                             traceBefore: seq<Event>, traceAfter: seq<Event>)
    requires |fires| == k < |mems|
    requires traceBefore == before + GatedCollections(config, danceFlag, fires, mems[..k], generation)
    requires traceAfter == traceBefore
      + if fire && !MemoryPressure.PlentyOfMemory(config, danceFlag, mems[k]) then CollectEvents([generation]) else []
    ensures traceAfter == before + GatedCollections(config, danceFlag, fires + [fire], mems[..k + 1], generation)
  {
    assert (fires + [fire])[..k] == fires;
    assert mems[..k + 1][..k] == mems[..k];
  }

  /**
   * One slot: an intercepted request if there is one, then a tick once the
   * wait is over. The countdown is armed then ticked as in the coalescer; a
   * firing tick runs the gated full collection, or starts the incremental
   * job unless one is running.
   */
  method DriveSlot(e: ResourceUnloadOptimizations, request: bool, now: real,
                   mem: Option<MemoryPressure.Snapshot>)
    requires e.Valid() && e.waitTime <= now
    modifies e`garbageCollect, e`waitTime, e`incrementalRunning, e`incrementalStep, e`trace
    ensures e.Valid() && e.waitTime == now + 1.0
    ensures var t := Coalescer.Tick(Coalescer.Armed(old(e.garbageCollect), request));
      var starts := t.fire && e.config.enablePseudoIncrementalGC && !old(e.incrementalRunning);
      && e.garbageCollect == t.counter
      && (!e.config.enablePseudoIncrementalGC ==>
            e.trace == old(e.trace) + if t.fire && !e.Plenty(mem) then CollectEvents([e.maxGeneration]) else [])
      && (starts ==>
            && e.incrementalRunning && e.incrementalStep == 1
            && e.trace == old(e.trace) + CollectEvents(IncrementalCollect.Plan(e.maxGeneration)[..1]))
      && (!starts ==>
            e.incrementalRunning == old(e.incrementalRunning) && e.incrementalStep == old(e.incrementalStep))
      && (e.config.enablePseudoIncrementalGC && !starts ==> e.trace == old(e.trace))
  {
    if request {
      var suppressed := e.GCCollectHook();
    }
    e.CleanupTick(now, mem);
  }

  /**
   * Requests and one-second ticks driven through the object in full-collection
   * mode: slots[k] says whether a GC.Collect() was intercepted before tick k,
   * and mems[k] is the memory status at tick k. The countdown ends where the
   * coalescer replay from its old value ends, and a full collection runs on
   * exactly the firing ticks whose status shows memory pressure.
   */
  method DriveFullCollections(e: ResourceUnloadOptimizations, slots: seq<bool>, now: real,
                              mems: seq<Option<MemoryPressure.Snapshot>>)
    requires e.Valid() && e.waitTime <= now && |mems| == |slots|
    requires !e.config.enablePseudoIncrementalGC
    modifies e`garbageCollect, e`waitTime, e`incrementalRunning, e`incrementalStep, e`trace
    ensures e.Valid()
    ensures var r := Coalescer.Run(old(e.garbageCollect), slots);
      && e.garbageCollect == r.counter
      && e.trace == old(e.trace) + GatedCollections(e.config, e.danceFlag, r.fires, mems, e.maxGeneration)
      && e.incrementalRunning == old(e.incrementalRunning) && e.incrementalStep == old(e.incrementalStep)
  {
    ghost var start := e.garbageCollect;
    ghost var r := Coalescer.Replay(start, []);
    var k := 0;
    var tick := now;
    while k < |slots|
      invariant 0 <= k <= |slots|
      invariant e.Valid() && e.waitTime <= tick
      invariant r == Coalescer.Run(start, slots[..k]) && e.garbageCollect == r.counter
      invariant e.trace == old(e.trace) + GatedCollections(e.config, e.danceFlag, r.fires, mems[..k], e.maxGeneration)
      invariant e.incrementalRunning == old(e.incrementalRunning) && e.incrementalStep == old(e.incrementalStep)
    {
      ghost var t := Coalescer.Tick(Coalescer.Armed(r.counter, slots[k]));
      ghost var traceBefore := e.trace;
      DriveSlot(e, slots[k], tick, mems[k]);
      Coalescer.RunStep(start, slots, k);
      GatedCollectionsStep(e.config, e.danceFlag, e.maxGeneration, old(e.trace), r.fires, t.fire,
                           mems, k, traceBefore, e.trace);
      r := Coalescer.Replay(t.counter, r.fires + [t.fire]);
      k, tick := k + 1, tick + 1.0;
    }
    assert slots[..k] == slots;
    assert mems[..k] == mems;
  }

  /**
   * The same drive in incremental mode, with no frame resumptions in between:
   * the countdown ends where the replay ends, the first firing tick starts
   * the job unless one is running, and every later fire is dropped because
   * the job is still running.
   */
  method DriveIncrementalStarts(e: ResourceUnloadOptimizations, slots: seq<bool>, now: real,
                                mems: seq<Option<MemoryPressure.Snapshot>>)
    requires e.Valid() && e.waitTime <= now && |mems| == |slots|
    requires e.config.enablePseudoIncrementalGC
    modifies e`garbageCollect, e`waitTime, e`incrementalRunning, e`incrementalStep, e`trace
    ensures e.Valid()
    ensures var r := Coalescer.Run(old(e.garbageCollect), slots);
      && e.garbageCollect == r.counter
      && e.incrementalRunning == (old(e.incrementalRunning) || true in r.fires)
      && (old(e.incrementalRunning) || true !in r.fires ==>
            e.incrementalStep == old(e.incrementalStep) && e.trace == old(e.trace))
      && (!old(e.incrementalRunning) && true in r.fires ==>
            e.incrementalStep == 1
            && e.trace == old(e.trace) + CollectEvents(IncrementalCollect.Plan(e.maxGeneration)[..1]))
  {
    ghost var start := e.garbageCollect;
    ghost var r := Coalescer.Replay(start, []);
    var k := 0;
    var tick := now;
    while k < |slots|
      invariant 0 <= k <= |slots|
      invariant e.Valid() && e.waitTime <= tick
      invariant r == Coalescer.Run(start, slots[..k]) && e.garbageCollect == r.counter
      invariant e.incrementalRunning == (old(e.incrementalRunning) || true in r.fires)
      invariant old(e.incrementalRunning) || true !in r.fires ==>
        e.incrementalStep == old(e.incrementalStep) && e.trace == old(e.trace)
      invariant !old(e.incrementalRunning) && true in r.fires ==>
        e.incrementalStep == 1
        && e.trace == old(e.trace) + CollectEvents(IncrementalCollect.Plan(e.maxGeneration)[..1])
    {
      ghost var t := Coalescer.Tick(Coalescer.Armed(r.counter, slots[k]));
      DriveSlot(e, slots[k], tick, mems[k]);
      Coalescer.RunStep(start, slots, k);
      r := Coalescer.Replay(t.counter, r.fires + [t.fire]);
      k, tick := k + 1, tick + 1.0;
    }
    assert slots[..k] == slots;
  }

  /**
   * Requests and one-second ticks driven through the object in either mode,
   * with a memory status per tick.
   */
  method DriveCoalescer(e: ResourceUnloadOptimizations, slots: seq<bool>, now: real,
                        mems: seq<Option<MemoryPressure.Snapshot>>)
    requires e.Valid() && e.waitTime <= now && |mems| == |slots|
    modifies e`garbageCollect, e`waitTime, e`incrementalRunning, e`incrementalStep, e`trace
    ensures e.Valid()
    ensures var r := Coalescer.Run(old(e.garbageCollect), slots);
      && e.garbageCollect == r.counter
      && (!e.config.enablePseudoIncrementalGC ==>
            && e.trace == old(e.trace) + GatedCollections(e.config, e.danceFlag, r.fires, mems, e.maxGeneration)
            && e.incrementalRunning == old(e.incrementalRunning) && e.incrementalStep == old(e.incrementalStep))
      && (e.config.enablePseudoIncrementalGC ==>
            && e.incrementalRunning == (old(e.incrementalRunning) || true in r.fires)
            && (old(e.incrementalRunning) || true !in r.fires ==>
                  e.incrementalStep == old(e.incrementalStep) && e.trace == old(e.trace))
            && (!old(e.incrementalRunning) && true in r.fires ==>
                  e.incrementalStep == 1
                  && e.trace == old(e.trace) + CollectEvents(IncrementalCollect.Plan(e.maxGeneration)[..1])))
  {
    if e.config.enablePseudoIncrementalGC {
      DriveIncrementalStarts(e, slots, now, mems);
    } else {
      DriveFullCollections(e, slots, now, mems);
    }
  }
}

/**
 * The pseudo-incremental collection: generation 0 twice, then every
 * generation from 1 up to the runtime's maximum, one step per frame, each
 * step followed by a wait for pending finalizers.
 */
module IncrementalCollect {
  import opened Host

  /** The generations lo, lo + 1, ..., hi (empty when lo > hi). */
  function Ascending(lo: nat, hi: nat): (gens: seq<nat>)
    ensures |gens| == if lo <= hi then hi - lo + 1 else 0
    ensures forall k :: 0 <= k < |gens| ==> gens[k] == lo + k
    decreases if lo <= hi then hi - lo + 1 else 0
  {
    if lo > hi then [] else [lo] + Ascending(lo + 1, hi)
  }

  /** The generations the job collects, in order: the two-pass loop over 0, then 1 to maxGen. */
  function Plan(maxGen: nat): (gens: seq<nat>)
    ensures |gens| == maxGen + 2
    ensures gens[0] == 0 && gens[1] == 0
    ensures forall k :: 2 <= k < |gens| ==> gens[k] == k - 1
  {
    [0, 0] + Ascending(1, maxGen)
  }

  /**
   * The job never goes back to a younger generation, visits every generation
   * up to maxGen and ends on maxGen.
   */
  lemma PlanShape(maxGen: nat)
    ensures forall k, l :: 0 <= k <= l < |Plan(maxGen)| ==> Plan(maxGen)[k] <= Plan(maxGen)[l]
    ensures forall g :: 0 <= g <= maxGen ==> g in Plan(maxGen)
    ensures Plan(maxGen)[|Plan(maxGen)| - 1] == maxGen
  {
    var gens := Plan(maxGen);
    forall g | 0 <= g <= maxGen
      ensures g in gens
    {
      assert gens[g + 1] == g;
    }
  }

  /**
   * Step k of the job as the host sees it: a collection of generation 0 for the
   * first two steps and of generation k - 1 after that, each followed by a
   * wait for pending finalizers.
   */
  lemma JobStep(maxGen: nat, k: nat)
    requires k < maxGen + 2
    ensures CollectEvents(Plan(maxGen))[2 * k] == Collect(if k < 2 then 0 else k - 1)
    ensures CollectEvents(Plan(maxGen))[2 * k + 1] == WaitForPendingFinalizers
  {
    CollectEventsAt(Plan(maxGen), k);
  }

  /** The first segment, run when the job starts, and the resumptions after it make up the whole job. */
  lemma StartThenResume(maxGen: nat)
    ensures CollectEvents(Plan(maxGen)[..1]) + CollectEvents(Plan(maxGen)[1..])
         == CollectEvents(Plan(maxGen))
  {
    var gens := Plan(maxGen);
    assert gens[..1] + gens[1..] == gens;
    CollectEventsAppend(gens[..1], gens[1..]);
  }
}

/**
 * The request coalescer. Every intercepted parameterless GC.Collect() resets a
 * countdown to three; the cleanup loop, about once a second, decrements a
 * positive countdown and fires the real collection on the tick that takes it
 * to zero. A burst of requests therefore becomes one collection, timed from
 * the last request of the burst.
 */
module Coalescer {
  /** The value every intercepted request resets the countdown to. */
  const Countdown: int := 3

  datatype TickResult = TickResult(counter: int, fire: bool)

  /** One pass of the cleanup loop once its one-second wait is over. */
  function Tick(counter: int): (r: TickResult)
    ensures r.fire <==> counter == 1
    ensures 0 < counter ==> r.counter == counter - 1
    ensures 0 <= counter ==> 0 <= r.counter <= counter
    ensures r.counter == counter <==> counter <= 0
  {
    if counter > 0 then
      var next := counter - 1;
      TickResult(next, next == 0)
    else
      TickResult(counter, false)
  }

  /** The countdown as the tick sees it: reset if a request came in since the previous tick. */
  function Armed(counter: int, requested: bool): (armed: int)
    ensures requested ==> armed == Countdown
    ensures 0 <= counter <= Countdown ==> 0 <= armed <= Countdown
  {
    if requested then Countdown else counter
  }

  datatype Replay = Replay(counter: int, fires: seq<bool>)

  /**
   * Replays a run of ticks from a countdown of `start`. slots[k] says whether
   * at least one request was intercepted between tick k - 1 and tick k (more
   * than one request there has the same effect as one); fires[k] says whether
   * tick k started the collection.
   */
  function Run(start: int, slots: seq<bool>): (r: Replay)
    ensures |r.fires| == |slots|
    decreases |slots|
  {
    if slots == [] then Replay(start, [])
    else
      var prev := Run(start, slots[..|slots| - 1]);
      var t := Tick(Armed(prev.counter, slots[|slots| - 1]));
      Replay(t.counter, prev.fires + [t.fire])
  }

  /** One more slot of a run: its request (if any) and its tick. */
  lemma RunStep(start: int, slots: seq<bool>, k: nat)
    requires k < |slots|
    ensures var prev := Run(start, slots[..k]);
      var t := Tick(Armed(prev.counter, slots[k]));
      Run(start, slots[..k + 1]) == Replay(t.counter, prev.fires + [t.fire])
  {
    assert slots[..k + 1][..k] == slots[..k];
  }

  /** What the countdown holds after the slots, starting from zero. */
  function Remaining(slots: seq<bool>): int
  {
    var n := |slots|;
    if n >= 1 && slots[n - 1] then 2
    else if n >= 2 && slots[n - 2] then 1
    else 0
  }

  /** A replay of a longer run agrees with the replay of its prefix. */
  lemma {:induction false} RunPrefix(start: int, slots: seq<bool>, k: nat)
    requires k <= |slots|
    ensures Run(start, slots[..k]).fires == Run(start, slots).fires[..k]
    decreases |slots| - k
  {
    if k < |slots| {
      var init := slots[..|slots| - 1];
      assert init[..k] == slots[..k];
      RunPrefix(start, init, k);
    } else {
      assert slots[..k] == slots;
    }
  }

  /** From a zero countdown, the countdown depends only on the last two slots. */
  lemma {:induction false} CounterAfterRun(slots: seq<bool>)
    ensures Run(0, slots).counter == Remaining(slots)
    ensures 0 <= Run(0, slots).counter < Countdown
    decreases |slots|
  {
    if slots != [] {
      var init := slots[..|slots| - 1];
      CounterAfterRun(init);
      if |slots| >= 2 {
        assert init[|init| - 1] == slots[|slots| - 2];
      }
      if |slots| >= 3 {
        assert init[|init| - 2] == slots[|slots| - 3];
      }
    }
  }

  /**
   * Tick i starts the collection exactly when the last request came in before
   * tick i - 2 and none came in since: the third tick after the last request.
   */
  lemma FireCharacterization(slots: seq<bool>, i: nat)
    requires i < |slots|
    ensures Run(0, slots).fires[i] <==> i >= 2 && slots[i - 2] && !slots[i - 1] && !slots[i]
  {
    RunPrefix(0, slots, i + 1);
    var upto := slots[..i + 1];
    assert upto[..|upto| - 1] == slots[..i];
    CounterAfterRun(slots[..i]);
    assert Run(0, slots).fires[i] == Tick(Armed(Run(0, slots[..i]).counter, slots[i])).fire;
  }

  /** Two collections started by the coalescer are at least three ticks apart. */
  lemma FiresSpacedApart(slots: seq<bool>, i: nat, j: nat)
    requires i < j < |slots|
    requires Run(0, slots).fires[i] && Run(0, slots).fires[j]
    ensures j - i >= Countdown
  {
    FireCharacterization(slots, i);
    FireCharacterization(slots, j);
    QuietWindowsApart(slots, i, j);
  }

  lemma QuietWindowsApart(slots: seq<bool>, i: nat, j: nat)
    requires 2 <= i < j < |slots|
    requires !slots[i - 1] && !slots[i] && slots[j - 2]
    ensures j - i >= 3
  {
  }

  /**
   * A burst of n >= 1 back-to-back requests followed by quiet ticks starts
   * exactly one collection, on the third tick counted from the last request,
   * never one counted from the first.
   */
  lemma BurstFiresOnce(n: nat, quiet: nat, slots: seq<bool>)
    requires n >= 1 && quiet >= 2
    requires |slots| == n + quiet
    requires forall k :: 0 <= k < |slots| ==> slots[k] == (k < n)
    ensures forall k :: 0 <= k < |slots| ==> Run(0, slots).fires[k] == (k == n + 1)
  {
    forall k | 0 <= k < |slots|
      ensures Run(0, slots).fires[k] == (k == n + 1)
    {
      FireCharacterization(slots, k);
    }
  }

  /**
   * Requests before ticks 0, 1, 2 and 4 over eight ticks (several before one
   * tick count as one): a single collection, on tick 6. There is none on tick 2, where the first request
   * alone would have fired, and none on tick 4, where the burst of requests
   * before ticks 0 to 2 would have fired.
   */
  lemma RequestsAtTicks0To4()
    ensures Run(0, [true, true, true, false, true, false, false, false]).fires
         == [false, false, false, false, false, false, true, false]
  {
    var slots := [true, true, true, false, true, false, false, false];
    var fires := Run(0, slots).fires;
    forall k | 0 <= k < |slots|
      ensures fires[k] == (k == 6)
    {
      FireCharacterization(slots, k);
    }
  }
}

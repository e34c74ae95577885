/**
 * Calls the plugin makes into the host runtime, recorded as events of a
 * trace: GC.Collect(generation), GC.WaitForPendingFinalizers() and the
 * original Resources.UnloadUnusedAssets (which yields a fresh operation).
 */
module Host {
  datatype Event =
    | Collect(generation: nat)
    | WaitForPendingFinalizers
    | Unload(operation: nat)

  /** Each generation in turn is collected and then finalizers are awaited. */
  function CollectEvents(generations: seq<nat>): (events: seq<Event>)
    ensures |events| == 2 * |generations|
  {
    if generations == [] then []
    else [Collect(generations[0]), WaitForPendingFinalizers] + CollectEvents(generations[1..])
  }

  /** Step k of the list is a collection of generation k followed by a finalizer wait. */
  lemma {:induction false} CollectEventsAt(generations: seq<nat>, k: nat)
    requires k < |generations|
    ensures CollectEvents(generations)[2 * k] == Collect(generations[k])
    ensures CollectEvents(generations)[2 * k + 1] == WaitForPendingFinalizers
    decreases k
  {
    if k > 0 {
      CollectEventsAt(generations[1..], k - 1);
    }
  }

  /** Collecting one list of generations and then another is collecting their concatenation. */
  lemma {:induction false} CollectEventsAppend(a: seq<nat>, b: seq<nat>)
    ensures CollectEvents(a + b) == CollectEvents(a) + CollectEvents(b)
    decreases |a|
  {
    if a == [] {
      assert a + b == b;
    } else {
      assert (a + b)[0] == a[0];
      assert (a + b)[1..] == a[1..] + b;
      CollectEventsAppend(a[1..], b);
      var head := [Collect(a[0]), WaitForPendingFinalizers];
      calc {
        CollectEvents(a + b);
        head + CollectEvents(a[1..] + b);
        head + (CollectEvents(a[1..]) + CollectEvents(b));
        (head + CollectEvents(a[1..])) + CollectEvents(b);
        CollectEvents(a) + CollectEvents(b);
      }
    }
  }

  /** Extending a slice of generations by one more collects that one generation more. */
  lemma CollectEventsExtend(generations: seq<nat>, from: nat, to: nat)
    requires from <= to < |generations|
    ensures CollectEvents(generations[from..to + 1])
         == CollectEvents(generations[from..to]) + CollectEvents([generations[to]])
  {
    assert generations[from..to + 1] == generations[from..to] + [generations[to]];
    CollectEventsAppend(generations[from..to], [generations[to]]);
  }
}

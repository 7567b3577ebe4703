/** When something last happened, read off a record of what happened. */
module Traces {

  /** The position of the last `x` in a trace, -1 if there is none. */
  ghost function LastIndex<T>(trace: seq<T>, x: T): int {
    if trace == [] then -1
    else if trace[|trace| - 1] == x then |trace| - 1
    else LastIndex(trace[..|trace| - 1], x)
  }

  /** It holds `x`, and no later position does. */
  lemma {:induction false} LastIndexIsLast<T>(trace: seq<T>, x: T)
    ensures -1 <= LastIndex(trace, x) < |trace|
    ensures LastIndex(trace, x) >= 0 ==> trace[LastIndex(trace, x)] == x
    ensures forall i :: LastIndex(trace, x) < i < |trace| ==> trace[i] != x
  {
    if trace != [] && trace[|trace| - 1] != x {
      LastIndexIsLast(trace[..|trace| - 1], x);
    }
  }

  lemma LastIndexAfter<T>(trace: seq<T>, next: T, x: T)
    ensures LastIndex(trace + [next], x) == if x == next then |trace| else LastIndex(trace, x)
    ensures LastIndex(trace, x) < |trace|
  {
    LastIndexIsLast(trace, x);
    assert (trace + [next])[..|trace|] == trace;
  }

  /** The elements occur in the trace and are in the order of their last occurrences. */
  ghost predicate ByLast<T>(xs: seq<T>, trace: seq<T>) {
    && (forall i :: 0 <= i < |xs| ==> LastIndex(trace, xs[i]) >= 0)
    && (forall i, j :: 0 <= i < j < |xs| ==> LastIndex(trace, xs[i]) < LastIndex(trace, xs[j]))
  }

  lemma ByLastAppend<T>(xs: seq<T>, trace: seq<T>, x: T)
    requires ByLast(xs, trace) && x !in xs
    ensures ByLast(xs + [x], trace + [x])
  {
    LastIndexAfter(trace, x, x);
    forall i | 0 <= i < |xs|
      ensures LastIndex(trace + [x], xs[i]) == LastIndex(trace, xs[i]) < |trace|
    {
      LastIndexAfter(trace, x, xs[i]);
    }
  }

  lemma ByLastRemove<T>(xs: seq<T>, trace: seq<T>, k: nat)
    requires ByLast(xs, trace) && k < |xs|
    ensures ByLast(xs[..k] + xs[k + 1..], trace)
  {
    var rest := xs[..k] + xs[k + 1..];
    assert forall i :: 0 <= i < |rest| ==> rest[i] == if i < k then xs[i] else xs[i + 1];
  }
}

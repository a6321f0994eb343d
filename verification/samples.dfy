/**
 Reductions over recorded sample sequences, shared by the metrics tracker
 (running delay totals) and the queue-statistics report (sums and maxima).
 */
module Samples {

  /** Unsigned 32-bit values: queue lengths and run parameters. */
  type Uint32 = n: int | 0 <= n < 0x1_0000_0000

  /** Sum of a sample sequence, accumulated front to back as the tracker does. */
  function Sum(s: seq<int>): int
  {
    if |s| == 0 then 0 else Sum(s[..|s| - 1]) + s[|s| - 1]
  }

  /** Appending one sample adds exactly that sample to the sum. */
  lemma SumAppend(s: seq<int>, x: int)
    ensures Sum(s + [x]) == Sum(s) + x
  {
    assert (s + [x])[..|s|] == s;
  }

  /** Sum distributes over concatenation. */
  lemma {:induction false} SumConcat(a: seq<int>, b: seq<int>)
    ensures Sum(a + b) == Sum(a) + Sum(b)
    decreases |b|
  {
    if |b| == 0 {
      assert a + b == a;
    } else {
      var b' := b[..|b| - 1];
      SumConcat(a, b');
      assert (a + b)[..|a + b| - 1] == a + b';
    }
  }

  /**
   The value `m` is what a running maximum seeded with 0 ends with: it bounds
   every sample, and it is one of the samples unless there are none, when it
   is the seed 0.
   */
  ghost predicate IsRunningMax(s: seq<int>, m: int)
  {
    && (forall i :: 0 <= i < |s| ==> s[i] <= m)
    && (|s| == 0 ==> m == 0)
    && (|s| > 0 ==> exists i :: 0 <= i < |s| && s[i] == m)
  }
}

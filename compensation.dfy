/**
 * The CPU-temperature compensation of the sampler's main loop: a window of the
 * five most recent CPU temperature samples, seeded with copies of the first
 * reading, shifted once per cycle, averaged, and fed into the formula that
 * derates the ambient sensor's self-heating.
 *
 * Samples are exact `real`s: the model gives the arithmetic meaning of the
 * Python float expressions, not their IEEE-754 rounding.
 */
module Compensation {

  /** Number of CPU samples the window holds. */
  const Capacity: nat := 5

  /** The window at start-up: Capacity copies of the first CPU reading. */
  function Seed<T>(first: T): (w: seq<T>)
    ensures |w| == Capacity
    ensures forall i :: 0 <= i < |w| ==> w[i] == first
  {
    seq(Capacity, _ => first)
  }

  /**
   * One per-cycle update of the window: drop the oldest sample and append
   * the newest. As with a Python slice, dropping from an empty list leaves
   * it empty.
   */
  function Shift<T>(w: seq<T>, sample: T): (r: seq<T>)
    ensures |w| > 0 ==> |r| == |w|
    ensures |w| == 0 ==> r == [sample]
    ensures r[|r| - 1] == sample
    ensures |w| > 0 ==> forall i :: 0 <= i < |w| - 1 ==> r[i] == w[i + 1]
  {
    if |w| == 0 then [sample] else w[1..] + [sample]
  }

  /** A shift evicts exactly the oldest sample and admits exactly the new one. */
  lemma ShiftSamples<T>(w: seq<T>, sample: T)
    requires |w| > 0
    ensures multiset(Shift(w, sample)) == multiset(w) - multiset{w[0]} + multiset{sample}
  {
    assert w == [w[0]] + w[1..];
  }

  /** The window after the given CPU samples, oldest first, have been shifted in. */
  function WindowAfter<T>(first: T, samples: seq<T>): (w: seq<T>)
    ensures |w| == Capacity
    decreases |samples|
  {
    if |samples| == 0 then Seed(first)
    else Shift(WindowAfter(first, samples[..|samples| - 1]), samples[|samples| - 1])
  }

  /** Sum of a sequence of samples, as Python's `sum`. */
  function Sum(s: seq<real>): real
  {
    if |s| == 0 then 0.0 else s[0] + Sum(s[1..])
  }

  /** Arithmetic mean: the sum divided by the number of samples. */
  function Mean(s: seq<real>): (m: real)
    requires |s| > 0
    ensures m * (|s| as real) == Sum(s)
  {
    Sum(s) / (|s| as real)
  }

  /**
   * The compensated temperature: the raw ambient reading less the CPU's
   * excess over it, derated by the factor.
   */
  function Compensate(raw: real, avg: real, factor: real): (c: real)
    requires factor != 0.0
    ensures avg == raw ==> c == raw
    ensures factor > 0.0 ==> (c < raw <==> avg > raw) && (c > raw <==> avg < raw)
    ensures factor < 0.0 ==> (c > raw <==> avg > raw) && (c < raw <==> avg < raw)
  {
    raw - (avg - raw) / factor
  }

  // ---------------------------------------------------------------------------
  // The window over time

  /**
   * The window is always the last Capacity entries of the seed followed by
   * every sample seen so far.
   */
  lemma {:induction false} WindowIsSuffix<T>(first: T, samples: seq<T>)
    ensures WindowAfter(first, samples) == (Seed(first) + samples)[|samples|..]
    decreases |samples|
  {
    if |samples| > 0 {
      var n := |samples|;
      var p := samples[..n - 1];
      WindowIsSuffix(first, p);
      var w := (Seed(first) + p)[n - 1..];
      assert |w| == Capacity;
      assert Seed(first) + samples == (Seed(first) + p) + [samples[n - 1]];
      assert w[1..] == (Seed(first) + p)[n..];
    }
  }

  /** Once Capacity samples have arrived, the window is the latest Capacity of them, in arrival order. */
  lemma WindowOfRecent<T>(first: T, samples: seq<T>)
    requires |samples| >= Capacity
    ensures WindowAfter(first, samples) == samples[|samples| - Capacity..]
  {
    WindowIsSuffix(first, samples);
    DropPastPrefix(Seed(first), samples, |samples|);
  }

  /** Dropping past the whole of a leads into b. */
  lemma DropPastPrefix<T>(a: seq<T>, b: seq<T>, k: nat)
    requires |a| <= k <= |a| + |b|
    ensures (a + b)[k..] == b[k - |a|..]
  {
  }

  /** Dropping within a keeps all of b. */
  lemma DropWithinPrefix<T>(a: seq<T>, b: seq<T>, k: nat)
    requires k <= |a|
    ensures (a + b)[k..] == a[k..] + b
  {
  }

  /** Before that, the window is the seed value padded in front of the samples seen so far. */
  lemma WindowWhileFilling<T>(first: T, samples: seq<T>)
    requires |samples| < Capacity
    ensures WindowAfter(first, samples) == Seed(first)[|samples|..] + samples
    ensures forall i :: 0 <= i < Capacity - |samples| ==> WindowAfter(first, samples)[i] == first
  {
    WindowIsSuffix(first, samples);
    DropWithinPrefix(Seed(first), samples, |samples|);
    var w := Seed(first)[|samples|..] + samples;
    forall i | 0 <= i < Capacity - |samples|
      ensures w[i] == first
    {
      assert w[i] == Seed(first)[|samples| + i];
    }
  }

  // ---------------------------------------------------------------------------
  // Sums and means

  lemma {:induction false} SumAppend(s: seq<real>, x: real)
    ensures Sum(s + [x]) == Sum(s) + x
  {
    if |s| == 0 {
      assert s + [x] == [x];
    } else {
      assert (s + [x])[1..] == s[1..] + [x];
      SumAppend(s[1..], x);
    }
  }

  /** A shift changes the sum by the new sample less the evicted one. */
  lemma SumShift(w: seq<real>, x: real)
    requires |w| > 0
    ensures Sum(Shift(w, x)) == Sum(w) - w[0] + x
  {
    SumAppend(w[1..], x);
  }

  /** A shift moves the mean by the new sample's excess over the evicted one, over the window size. */
  lemma MeanShift(w: seq<real>, x: real)
    requires |w| > 0
    ensures Mean(Shift(w, x)) == Mean(w) + (x - w[0]) / (|w| as real)
  {
    SumShift(w, x);
    var n := |w| as real;
    assert Sum(Shift(w, x)) / n == Sum(w) / n + (x - w[0]) / n;
  }

  lemma {:induction false} SumBounds(s: seq<real>, lo: real, hi: real)
    requires forall i :: 0 <= i < |s| ==> lo <= s[i] <= hi
    ensures (|s| as real) * lo <= Sum(s) <= (|s| as real) * hi
  {
    if |s| > 0 {
      SumBounds(s[1..], lo, hi);
      assert (|s| as real) * lo == lo + (|s[1..]| as real) * lo;
      assert (|s| as real) * hi == hi + (|s[1..]| as real) * hi;
    }
  }

  /** The mean lies between any lower and upper bound of the samples. */
  lemma MeanBounds(s: seq<real>, lo: real, hi: real)
    requires |s| > 0
    requires forall i :: 0 <= i < |s| ==> lo <= s[i] <= hi
    ensures lo <= Mean(s) <= hi
  {
    SumBounds(s, lo, hi);
    var n := |s| as real;
    assert n * lo / n == lo && n * hi / n == hi;
  }

  /** The mean of a window in which every sample is the same is that sample. */
  lemma MeanOfConstant(s: seq<real>, c: real)
    requires |s| > 0
    requires forall i :: 0 <= i < |s| ==> s[i] == c
    ensures Mean(s) == c
  {
    MeanBounds(s, c, c);
  }

  /** The average of the freshly seeded window is the first CPU reading, so the first cycles carry no cold-start bias. */
  lemma SeedMean(first: real)
    ensures Mean(Seed(first)) == first
  {
    MeanOfConstant(Seed(first), first);
  }

  /** After Capacity or more samples the window average is the mean of exactly the latest Capacity samples. */
  lemma AverageOfRecent(first: real, samples: seq<real>)
    requires |samples| >= Capacity
    ensures Mean(WindowAfter(first, samples)) == Mean(samples[|samples| - Capacity..])
  {
    WindowOfRecent(first, samples);
  }

  // ---------------------------------------------------------------------------
  // The compensation formula

  /**
   * The formula can be undone: from the compensated value, the window
   * average and the factor (other than -1) the raw reading is recovered.
   */
  lemma CompensateInverse(raw: real, avg: real, factor: real)
    requires factor != 0.0 && factor != -1.0
    ensures raw == (Compensate(raw, avg, factor) * factor + avg) / (factor + 1.0)
  {
    var c := Compensate(raw, avg, factor);
    assert (avg - raw) / factor * factor == avg - raw;
    assert c * factor == raw * factor - (avg - raw);
    assert c * factor + avg == raw * (factor + 1.0);
    CancelFactor(raw, factor + 1.0);
  }

  /** Multiplying by a nonzero d and dividing by it again is the identity. */
  lemma CancelFactor(x: real, d: real)
    requires d != 0.0
    ensures x * d / d == x
  {
  }

  /** A hotter CPU average never raises the compensated value when the factor is positive. */
  lemma CompensateAntitone(raw: real, avg1: real, avg2: real, factor: real)
    requires factor > 0.0 && avg1 <= avg2
    ensures Compensate(raw, avg2, factor) <= Compensate(raw, avg1, factor)
  {
    assert (avg2 - raw) / factor - (avg1 - raw) / factor == (avg2 - avg1) / factor;
  }

  /**
   * The worked scenario: first CPU reading 20, next 22, so the window is
   * 20, 20, 20, 20, 22 with average 20.4; a raw reading of 21 with factor
   * 2.25 compensates to 21 + 0.6 / 2.25 = 319/15.
   */
  lemma Scenario()
    ensures WindowAfter(20.0, [22.0]) == [20.0, 20.0, 20.0, 20.0, 22.0]
    ensures Mean(WindowAfter(20.0, [22.0])) == 20.4
    ensures Compensate(21.0, 20.4, 2.25) == 319.0 / 15.0
  {
  }
}

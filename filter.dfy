/**
 * The loop's `cpu_temps` list as an object: seeded once before the loop and
 * rebound once per cycle, returning the window average for that cycle.
 */
module Filter {
  import opened Compensation

  class CpuTempWindow {
    /** The current window, oldest sample first. */
    var temps: seq<real>
    /** The CPU reading taken before the loop started. */
    ghost const first: real
    /** Every CPU sample shifted in since, oldest first. */
    ghost var history: seq<real>

    /** The window is what the seed and the samples so far produce. */
    ghost predicate Valid()
      reads this
    {
      temps == WindowAfter(first, history)
    }

    constructor (first: real)
      ensures Valid() && this.first == first && history == []
      ensures temps == Seed(first)
    {
      temps := Seed(first);
      this.first := first;
      history := [];
    }

    /** One cycle: shift the new sample in and return the mean of the window. */
    method Update(sample: real) returns (avg: real)
      requires Valid()
      modifies this
      ensures Valid() && history == old(history) + [sample]
      ensures temps == Shift(old(temps), sample)
      ensures |temps| == Capacity
      ensures avg == Mean(temps)
    {
      temps := Shift(temps, sample);
      history := history + [sample];
      assert history[..|history| - 1] == old(history);
      avg := Mean(temps);
    }
  }
}

/** The I/O counters and the retrying update of the rolling latency, as one thread runs it. */
module IoMetrics {
  import opened EmaLatency

  /**
   * What the latency cell holds when the `k`-th compare-and-swap runs: other threads left `foreign[k]` there
   * after this thread loaded the cell, and nobody interferes once `foreign` is used up.
   */
  function CellAtSwap(initial: nat, foreign: seq<nat>, k: nat): nat {
    if foreign == [] then initial
    else if k < |foreign| then foreign[k]
    else foreign[|foreign| - 1]
  }

  /** The cell changed between the load and the compare-and-swap of attempt `k`. */
  predicate Interfered(initial: nat, foreign: seq<nat>, k: nat) {
    CellAtSwap(initial, foreign, k) != if k == 0 then initial else CellAtSwap(initial, foreign, k - 1)
  }

  class IoMetrics {
    var rollingLatency: nat
    var readCount: nat
    var writeCount: nat
    var totalBytesWritten: nat
    var smoothingFactor: nat

    ghost predicate Valid()
      reads this
    {
      smoothingFactor <= SCALE
    }

    constructor ()
      ensures Valid()
      ensures rollingLatency == 0 && readCount == 0 && writeCount == 0 && totalBytesWritten == 0
      ensures smoothingFactor == 300_000
    {
      rollingLatency, readCount, writeCount, totalBytesWritten := 0, 0, 0, 0;
      smoothingFactor := 300_000;
    }

    method SetSmoothingFactor(factor: real)
      requires Valid()
      modifies this`smoothingFactor
      ensures Valid()
      ensures 0.0 <= factor <= 1.0 ==> smoothingFactor as real <= factor * 1_000_000.0 < smoothingFactor as real + 1.0
      ensures (factor < 0.0 ==> smoothingFactor == 0) && (factor > 1.0 ==> smoothingFactor == SCALE)
    {
      smoothingFactor := EncodeFactor(factor);
    }

    method RecordRead(durationUs: nat, foreign: seq<nat>) returns (swaps: nat)
      requires Valid()
      modifies this`readCount, this`rollingLatency
      ensures Valid() && readCount == old(readCount) + 1
      ensures 1 <= swaps <= |foreign| + 1
      ensures rollingLatency == Smooth(smoothingFactor, CellAtSwap(old(rollingLatency), foreign, swaps - 1), durationUs)
    {
      readCount := readCount + 1;
      swaps := UpdateRollingLatency(durationUs, foreign);
    }

    method RecordWrite(durationUs: nat, dataSize: nat, foreign: seq<nat>) returns (swaps: nat)
      requires Valid()
      modifies this`writeCount, this`totalBytesWritten, this`rollingLatency
      ensures Valid() && writeCount == old(writeCount) + 1
      ensures totalBytesWritten == old(totalBytesWritten) + dataSize
      ensures 1 <= swaps <= |foreign| + 1
      ensures rollingLatency == Smooth(smoothingFactor, CellAtSwap(old(rollingLatency), foreign, swaps - 1), durationUs)
    {
      writeCount := writeCount + 1;
      totalBytesWritten := totalBytesWritten + dataSize;
      swaps := UpdateRollingLatency(durationUs, foreign);
    }

    /**
     * The sample is folded, once, into whatever the cell holds at the successful swap, not into what was
     * loaded first. A swap fails only when somebody changed the cell in between, so the loop ends.
     */
    method UpdateRollingLatency(newLatency: nat, foreign: seq<nat>) returns (swaps: nat)
      requires Valid()
      modifies this`rollingLatency
      ensures Valid()
      ensures 1 <= swaps <= |foreign| + 1
      ensures rollingLatency == Smooth(smoothingFactor, CellAtSwap(old(rollingLatency), foreign, swaps - 1), newLatency)
      ensures !Interfered(old(rollingLatency), foreign, swaps - 1)
      ensures forall k :: 0 <= k < swaps - 1 ==> Interfered(old(rollingLatency), foreign, k)
    {
      var alpha := smoothingFactor;
      var swapped := false;
      swaps := 0;
      while !swapped
        invariant swaps <= |foreign| + 1 && (swapped ==> 1 <= swaps)
        invariant !swapped ==> swaps <= |foreign|
        invariant !swapped ==>
          rollingLatency == if swaps == 0 then old(rollingLatency) else CellAtSwap(old(rollingLatency), foreign, swaps - 1)
        invariant swapped ==>
          rollingLatency == Smooth(alpha, CellAtSwap(old(rollingLatency), foreign, swaps - 1), newLatency)
        invariant swapped ==> !Interfered(old(rollingLatency), foreign, swaps - 1)
        invariant forall k :: 0 <= k < (if swapped then swaps - 1 else swaps) ==> Interfered(old(rollingLatency), foreign, k)
        decreases !swapped, |foreign| - swaps
      {
        var current := rollingLatency;
        var smoothed := Smooth(alpha, current, newLatency);
        rollingLatency := CellAtSwap(rollingLatency, foreign, swaps);
        swaps := swaps + 1;
        if rollingLatency == current {
          rollingLatency := smoothed;
          swapped := true;
        }
      }
    }
  }
}

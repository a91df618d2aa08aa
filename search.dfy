/**
 * The two sizing loops of hpt_for_vpmem.py: lowering the HPT and PPT ratios
 * in lockstep (lines 131-137), then growing the maximum memory size along
 * the quarter breakpoints (lines 143-152).
 */
module Search {
  import opened SizeMath

  /** The ratio loop never lowers the HPT ratio below 5, i.e. 1/32. */
  const MinHptRatio: nat := 5

  /**
   * Lines 131-137: while the HPT is short of the target and the ratio is
   * above 5, lower both ratios by one.
   */
  method RatioSearch(maxMemorySize: nat, targetHptSize: nat, hptRatio0: nat, pptRatio0: int)
    returns (hptRatio: nat, pptRatio: int, actualHptSize: nat)
    requires maxMemorySize >= 1
    ensures hptRatio <= hptRatio0
    ensures hptRatio == hptRatio0 || MinHptRatio <= hptRatio
    ensures pptRatio - hptRatio == pptRatio0 - hptRatio0
    ensures actualHptSize == ComputeHptSize(maxMemorySize, hptRatio)
    ensures actualHptSize >= targetHptSize || hptRatio <= MinHptRatio
    // every ratio the loop passed over was too coarse for the target
    ensures forall r: nat :: hptRatio < r <= hptRatio0 ==> ComputeHptSize(maxMemorySize, r) < targetHptSize
    // so the ratio found is the largest one from 5 up that meets the target, if any does
    ensures (exists r: nat :: MinHptRatio <= r <= hptRatio0 && ComputeHptSize(maxMemorySize, r) >= targetHptSize)
            ==> actualHptSize >= targetHptSize
  {
    hptRatio, pptRatio := hptRatio0, pptRatio0;
    actualHptSize := ComputeHptSize(maxMemorySize, hptRatio);
    while actualHptSize < targetHptSize && hptRatio > MinHptRatio
      invariant hptRatio <= hptRatio0
      invariant hptRatio == hptRatio0 || MinHptRatio <= hptRatio
      invariant pptRatio - hptRatio == pptRatio0 - hptRatio0
      invariant actualHptSize == ComputeHptSize(maxMemorySize, hptRatio)
      invariant forall r: nat :: hptRatio < r <= hptRatio0 ==> ComputeHptSize(maxMemorySize, r) < targetHptSize
      decreases hptRatio
    {
      hptRatio := hptRatio - 1;
      pptRatio := pptRatio - 1;
      actualHptSize := ComputeHptSize(maxMemorySize, hptRatio);
    }
    if actualHptSize < targetHptSize {
      forall r: nat | MinHptRatio <= r <= hptRatio0
        ensures ComputeHptSize(maxMemorySize, r) < targetHptSize
      {
        HptSizeAntitoneInRatio(maxMemorySize, hptRatio, r);
      }
    }
  }

  /** A quarter breakpoint: five quarters of the power of two at or below `m`. */
  predicate IsBreakpoint(m: nat) {
    m >= 1 && 4 * m == 5 * LowerPow2(m)
  }

  /**
   * One pass of lines 144-151: below the quarter breakpoint jump onto it,
   * exactly on it nudge up by 1 GiB, above it jump to the next one.
   */
  function GrowStep(m: nat): nat
    requires m >= 1
  {
    var lower := LowerPow2(m);
    var upper := 2 * lower;
    if 4 * m < 5 * lower then (5 * lower) / 4
    else if 4 * m == 5 * lower then m + GB
    else (5 * upper) / 4
  }

  /**
   * From four bytes up every pass makes progress: the two jumps land exactly
   * on a breakpoint, the nudge adds 1 GiB.
   */
  lemma GrowStepAdvances(m: nat)
    requires m >= 4
    ensures GrowStep(m) > m
    ensures IsBreakpoint(m) ==> GrowStep(m) == m + GB
    ensures !IsBreakpoint(m) ==> IsBreakpoint(GrowStep(m))
  {
    BitLengthBounds(m);
    var j := BitLength(m) - 1;
    var lower := Pow2(j);
    assert lower == LowerPow2(m);
    assert j >= 2;
    var q := Pow2(j - 2);
    Pow2Quarter(j);
    assert lower == 4 * q;
    if 4 * m < 5 * lower {
      assert (5 * lower) / 4 == 5 * q;
      LowerPow2OfRange(5 * q, j);
    } else if 4 * m > 5 * lower {
      assert (5 * (2 * lower)) / 4 == 10 * q;
      assert Pow2(j + 1) == 8 * q;
      LowerPow2OfRange(10 * q, j + 1);
    }
  }

  /** A jump from off a breakpoint lands on the very next breakpoint, skipping none. */
  lemma GrowStepSkipsNoBreakpoint(m: nat)
    requires m >= 4 && !IsBreakpoint(m)
    ensures forall x: nat :: m < x < GrowStep(m) ==> !IsBreakpoint(x)
  {
    BitLengthBounds(m);
    var j := BitLength(m) - 1;
    var lower := Pow2(j);
    assert j >= 2;
    var q := Pow2(j - 2);
    Pow2Quarter(j);
    var next := GrowStep(m);
    // below the breakpoint the jump stays under `2 * lower`; above it, under `4 * lower`
    assert 4 * m < 5 * lower ==> next == 5 * q;
    assert 4 * m > 5 * lower ==> next == 10 * q;
    forall x: nat | m < x < next
      ensures !IsBreakpoint(x)
    {
      if x < 2 * lower {
        LowerPow2OfRange(x, j);
      } else {
        LowerPow2OfRange(x, j + 1);
      }
    }
  }

  /**
   * The growth loop's progress measure: three per bit of `m`, plus where `m`
   * sits within its octave: below the breakpoint (0), on it (1), past it (2).
   */
  function GrowthRank(m: nat): nat
    requires m >= 1
  {
    var lower := LowerPow2(m);
    3 * BitLength(m) + (if 4 * m < 5 * lower then 0 else if 4 * m == 5 * lower then 1 else 2)
  }

  /**
   * Every pass from four bytes up raises the rank: a jump lands on a
   * breakpoint of the same or the next octave, and the 1 GiB nudge from a
   * breakpoint moves past it or into a higher octave.
   */
  lemma GrowStepRaisesRank(m: nat)
    requires m >= 4
    ensures GrowStep(m) >= 1 && GrowthRank(GrowStep(m)) > GrowthRank(m)
  {
    var lower := LowerPow2(m);
    if 4 * m < 5 * lower {
      RankAfterJump(m, false);
    } else if 4 * m > 5 * lower {
      RankAfterJump(m, true);
    } else {
      var next := m + GB;
      BitLengthMonotone(m, next);
      if BitLength(next) == BitLength(m) {
        assert LowerPow2(next) == lower;
      }
    }
  }

  /** The jump from below (`past == false`) or past (`past == true`) the breakpoint raises the rank. */
  lemma RankAfterJump(m: nat, past: bool)
    requires m >= 4
    requires if past then 4 * m > 5 * LowerPow2(m) else 4 * m < 5 * LowerPow2(m)
    ensures GrowStep(m) >= 1 && GrowthRank(GrowStep(m)) > GrowthRank(m)
  {
    BitLengthBounds(m);
    var j := BitLength(m) - 1;
    assert j >= 2;
    var q := Pow2(j - 2);
    Pow2Quarter(j);
    if past {
      assert GrowStep(m) == 10 * q;
      assert Pow2(j + 1) == 8 * q;
      LowerPow2OfRange(10 * q, j + 1);
      BitLengthOfRange(10 * q, j + 1);
    } else {
      assert GrowStep(m) == 5 * q;
      LowerPow2OfRange(5 * q, j);
      BitLengthOfRange(5 * q, j);
    }
  }

  /** `target << (hptRatio + 1)`: from this memory size up the HPT meets the target. */
  function GrowthCeiling(targetHptSize: nat, hptRatio: nat): nat {
    targetHptSize * Pow2(hptRatio + 1)
  }

  /** At most this many passes of the growth loop run below the ceiling. */
  function GrowthPassBound(targetHptSize: nat, hptRatio: nat): nat {
    3 * BitLength(GrowthCeiling(targetHptSize, hptRatio)) + 3
  }

  /** One more pass from below the ceiling stays within the pass bound and the rank. */
  lemma GrowPassCounted(m: nat, passes: nat, ceiling: nat)
    requires 4 <= m < ceiling && passes <= GrowthRank(m)
    ensures GrowStep(m) >= 1
    ensures passes + 1 <= GrowthRank(GrowStep(m))
    ensures passes + 1 <= 3 * BitLength(ceiling) + 3
  {
    BitLengthMonotone(m, ceiling);
    GrowStepRaisesRank(m);
  }

  /** The memory size after `n` passes of the growth loop. */
  function GrowSteps(m: nat, n: nat): (r: nat)
    requires m >= 4
    ensures r >= m
    ensures n > 0 ==> r > m
  {
    if n == 0 then m
    else
      var prev := GrowSteps(m, n - 1);
      GrowStepAdvances(prev);
      GrowStep(prev)
  }

  /**
   * Lines 143-152: grow the maximum memory size until the HPT it gives at
   * `hptRatio` reaches the target. The loop has no bound of its own; it
   * stops because the HPT reaches the target once the memory reaches
   * `target << (hptRatio + 1)`.
   */
  method GrowMemory(maxMemorySize0: nat, hptRatio: nat, targetHptSize: nat)
    returns (maxMemorySize: nat, actualHptSize: nat, ghost passes: nat)
    requires maxMemorySize0 >= 4
    ensures maxMemorySize >= maxMemorySize0
    ensures actualHptSize == ComputeHptSize(maxMemorySize, hptRatio)
    ensures actualHptSize >= targetHptSize
    ensures maxMemorySize == maxMemorySize0 <==> ComputeHptSize(maxMemorySize0, hptRatio) >= targetHptSize
    // the result is the first size along the loop's steps that meets the target
    ensures maxMemorySize == GrowSteps(maxMemorySize0, passes)
    ensures forall i: nat :: i < passes ==> ComputeHptSize(GrowSteps(maxMemorySize0, i), hptRatio) < targetHptSize
    // the number of passes is bounded by the bit width of `target << (hptRatio + 1)`
    ensures passes <= GrowthPassBound(targetHptSize, hptRatio)
  {
    maxMemorySize := maxMemorySize0;
    actualHptSize := ComputeHptSize(maxMemorySize, hptRatio);
    passes := 0;
    while actualHptSize < targetHptSize
      invariant maxMemorySize >= maxMemorySize0
      invariant maxMemorySize == GrowSteps(maxMemorySize0, passes)
      invariant actualHptSize == ComputeHptSize(maxMemorySize, hptRatio)
      invariant forall i: nat :: i < passes ==> ComputeHptSize(GrowSteps(maxMemorySize0, i), hptRatio) < targetHptSize
      invariant passes > 0 ==> maxMemorySize > maxMemorySize0
      invariant passes <= GrowthRank(maxMemorySize)
      invariant passes <= GrowthPassBound(targetHptSize, hptRatio)
      decreases GrowthCeiling(targetHptSize, hptRatio) - maxMemorySize
    {
      if maxMemorySize >= GrowthCeiling(targetHptSize, hptRatio) {
        HptSizeReachesTarget(maxMemorySize, hptRatio, targetHptSize);
        assert false;
      }
      GrowPassCounted(maxMemorySize, passes, GrowthCeiling(targetHptSize, hptRatio));
      GrowStepAdvances(maxMemorySize);
      maxMemorySize := GrowStep(maxMemorySize);
      actualHptSize := ComputeHptSize(maxMemorySize, hptRatio);
      passes := passes + 1;
    }
  }
}

/**
 * The script's sizing run from validated inputs to the values it prints:
 * initial ratios and target (hpt_for_vpmem.py lines 109-122), the ratio
 * loop, the memory-growth loop, the ELMM layout and the recommendations
 * (lines 195-202).
 */
module Planner {
  import opened SizeMath
  import opened Partition
  import opened Luns
  import opened Search
  import opened Layout

  /** The sizing the script prints under "Outputs". */
  datatype Sizing = Sizing(maxMemorySize: nat, hptRatio: nat, pptRatio: int, actualHptSize: nat)

  /** Which recommendation lines the script prints. */
  datatype Recommendations = Recommendations(
    changeHptRatio: bool,
    changePptRatio: bool,
    changeMaxMemory: bool,
    linuxFootprintWarning: bool)

  datatype PlanResult = PlanResult(
    desiredMemorySize: nat,
    vpmemSize: nat,
    targetHptSize: nat,
    sizing: Sizing,
    layout: ElmmLayout,
    advice: Recommendations)

  /**
   * The HPT at the desired memory alone never exceeds the target, which
   * also counts the VPMEM storage: the search only ever has to grow it.
   */
  lemma InitialHptWithinTarget(desiredMemorySize: nat, vpmemSize: nat, hptRatio: nat)
    requires desiredMemorySize >= 1
    ensures ComputeHptSize(desiredMemorySize, hptRatio) <= ComputeHptSize(desiredMemorySize + vpmemSize, hptRatio)
  {
    HptSizeMonotoneInSize(desiredMemorySize, desiredMemorySize + vpmemSize, hptRatio);
  }

  /**
   * What lines 109-152 promise about the sizing for `desiredMemorySize` bytes
   * of memory and `vpmemSize` bytes of VPMEM: the target is the HPT as if all
   * LUN storage were DRAM, the sizing meets it, the ratios moved in lockstep
   * within 5 .. initial and went no lower than needed, memory grows exactly
   * when even ratio 5 falls short (and then the ratio is 5), the grown size
   * is the first of the growth loop's successive sizes that meets the target,
   * and without VPMEM storage nothing changes.
   */
  ghost predicate SizingMeetsTarget(desiredMemorySize: nat, vpmemSize: nat, kind: PartitionKind,
                                    targetHptSize: nat, sizing: Sizing)
  {
    && desiredMemorySize >= 4
    && targetHptSize == ComputeHptSize(desiredMemorySize + vpmemSize, InitialHptRatio(kind))
    && sizing.maxMemorySize >= desiredMemorySize
    && sizing.actualHptSize == ComputeHptSize(sizing.maxMemorySize, sizing.hptRatio)
    && sizing.actualHptSize >= targetHptSize
    && MinHptRatio <= sizing.hptRatio <= InitialHptRatio(kind)
    && sizing.pptRatio - sizing.hptRatio == InitialPptRatio - InitialHptRatio(kind)
    && (forall r: nat :: sizing.hptRatio < r <= InitialHptRatio(kind) ==>
          ComputeHptSize(desiredMemorySize, r) < targetHptSize)
    && (sizing.maxMemorySize != desiredMemorySize ==> sizing.hptRatio == MinHptRatio)
    && (sizing.maxMemorySize != desiredMemorySize <==>
          ComputeHptSize(desiredMemorySize, MinHptRatio) < targetHptSize)
    && (exists passes: nat ::
          && sizing.maxMemorySize == GrowSteps(desiredMemorySize, passes)
          && forall i: nat :: i < passes ==>
               ComputeHptSize(GrowSteps(desiredMemorySize, i), sizing.hptRatio) < targetHptSize)
    && (vpmemSize == 0 ==> sizing.hptRatio == InitialHptRatio(kind) && sizing.maxMemorySize == desiredMemorySize)
  }

  /**
   * `SizingMeetsTarget` leaves no choice: the ratios, the maximum memory and
   * the HPT size it allows are the only ones the script can print.
   */
  lemma SizingIsDetermined(desiredMemorySize: nat, vpmemSize: nat, kind: PartitionKind,
                           targetHptSize: nat, s1: Sizing, s2: Sizing)
    requires SizingMeetsTarget(desiredMemorySize, vpmemSize, kind, targetHptSize, s1)
    requires SizingMeetsTarget(desiredMemorySize, vpmemSize, kind, targetHptSize, s2)
    ensures s1 == s2
  {
    if s1.hptRatio < s2.hptRatio {
      assert false;
    }
    if s2.hptRatio < s1.hptRatio {
      assert false;
    }
    var n1: nat :| s1.maxMemorySize == GrowSteps(desiredMemorySize, n1) &&
      forall i: nat :: i < n1 ==> ComputeHptSize(GrowSteps(desiredMemorySize, i), s1.hptRatio) < targetHptSize;
    var n2: nat :| s2.maxMemorySize == GrowSteps(desiredMemorySize, n2) &&
      forall i: nat :: i < n2 ==> ComputeHptSize(GrowSteps(desiredMemorySize, i), s2.hptRatio) < targetHptSize;
    if n1 < n2 {
      assert false;
    }
    if n2 < n1 {
      assert false;
    }
  }

  /**
   * Lines 109-152: the initial ratios (6 for IBMi, 7 for Linux and AIX; PPT
   * 6), the target, the ratio loop and the memory-growth loop. The growth
   * loop only stops from four bytes up, which the script's whole-GiB sizes
   * always are.
   */
  method SizeHpt(desiredMemorySize: nat, vpmemSize: nat, kind: PartitionKind)
    returns (targetHptSize: nat, sizing: Sizing)
    requires desiredMemorySize >= 4
    ensures SizingMeetsTarget(desiredMemorySize, vpmemSize, kind, targetHptSize, sizing)
  {
    var hptRatio := InitialHptRatio(kind);
    var pptRatio := InitialPptRatio;
    var maxMemorySize := desiredMemorySize;
    targetHptSize := ComputeHptSize(maxMemorySize + vpmemSize, hptRatio);

    var actualHptSize;
    hptRatio, pptRatio, actualHptSize := RatioSearch(maxMemorySize, targetHptSize, hptRatio, pptRatio);
    HptSizeAntitoneInRatio(maxMemorySize, MinHptRatio, hptRatio);
    ghost var passes;
    maxMemorySize, actualHptSize, passes := GrowMemory(maxMemorySize, hptRatio, targetHptSize);
    sizing := Sizing(maxMemorySize, hptRatio, pptRatio, actualHptSize);
    assert sizing.maxMemorySize == GrowSteps(desiredMemorySize, passes);
  }

  /**
   * Lines 78-202 after option parsing: `desiredGiB` is the sum of the
   * `--memory` options, `lunSpecs` the parsed `--lun` options and `kind`
   * the single partition type.
   */
  method Plan(desiredGiB: nat, lunSpecs: seq<LunSpec>, kind: PartitionKind) returns (res: PlanResult)
    requires desiredGiB > 0
    requires forall i :: 0 <= i < |lunSpecs| ==> lunSpecs[i].size > 0
    ensures res.desiredMemorySize == desiredGiB * GB
    ensures res.vpmemSize == Sum(Expand(lunSpecs))
    ensures SizingMeetsTarget(res.desiredMemorySize, res.vpmemSize, kind, res.targetHptSize, res.sizing)
    // the ELMM layout
    ensures res.layout == ElmmLayoutOf(kind, res.desiredMemorySize, res.sizing.maxMemorySize, Expand(lunSpecs))
    // the recommendations
    ensures res.advice.changeHptRatio <==> res.sizing.hptRatio != InitialHptRatio(kind)
    ensures res.advice.changePptRatio <==> res.sizing.pptRatio != InitialPptRatio
    ensures res.advice.changeMaxMemory <==> res.sizing.maxMemorySize != res.desiredMemorySize
    ensures res.advice.linuxFootprintWarning <==> kind == Linux && res.layout.end > LinuxFootprintLimit
    ensures res.advice.changeHptRatio == res.advice.changePptRatio
    ensures res.advice.changeMaxMemory ==> res.advice.changeHptRatio
    ensures res.vpmemSize == 0 ==> !res.advice.changeHptRatio && !res.advice.changeMaxMemory
  {
    var desiredMemorySize := desiredGiB * GB;
    var lunSizes, vpmemSize := ExpandLuns(lunSpecs);
    var targetHptSize, sizing := SizeHpt(desiredMemorySize, vpmemSize, kind);
    var layout := LayoutElmm(kind, desiredMemorySize, sizing.maxMemorySize, lunSizes);
    var advice := Recommendations(
      InitialHptRatio(kind) != sizing.hptRatio,
      InitialPptRatio != sizing.pptRatio,
      desiredMemorySize != sizing.maxMemorySize,
      kind == Linux && layout.end > LinuxFootprintLimit);
    res := PlanResult(desiredMemorySize, vpmemSize, targetHptSize, sizing, layout, advice);
  }
}

/**
 * The rough ELMM tree layout of hpt_for_vpmem.py lines 166-188: a 4 TiB
 * aligned base past the partition's memory, a fixed 4 TiB window for
 * PCI/VAS/XIVE, then one naturally aligned allocation per LUN, in order.
 */
module Layout {
  import opened SizeMath
  import opened Partition
  import opened Luns

  /** The alignment of the ELMM base address. */
  const ElmmAlignment: nat := 4 * TB

  /** The window reserved for PCI, VAS and XIVE right after the base. */
  const PciVasXiveSize: nat := 4 * TB

  /** The Linux memory footprint restriction. */
  const LinuxFootprintLimit: nat := 64 * TB

  /** An address range as the script prints it: `start..start + length`. */
  datatype Region = Region(start: nat, length: nat) {
    function End(): nat { start + length }
  }

  datatype ElmmLayout = ElmmLayout(base: nat, pciVasXive: Region, luns: seq<Region>, end: nat)

  /** Lines 170-171: round `x` up to a multiple of `a`. */
  function AlignUp(x: nat, a: nat): (r: nat)
    requires a > 0
    ensures r % a == 0
    ensures x <= r < x + a
  {
    if x % a != 0 then
      var q := x / a;
      assert x + (a - x % a) == (q + 1) * a;
      DivModUnique((q + 1) * a, a, q + 1, 0);
      x + (a - x % a)
    else x
  }

  /** One more step of `a` past an aligned address stays aligned. */
  lemma AlignUpThenStep(x: nat, a: nat)
    requires a > 0
    ensures (AlignUp(x, a) + a) % a == 0
  {
    var r := AlignUp(x, a);
    var q := r / a;
    assert r == q * a;
    DivModUnique(r + a, a, q + 1, 0);
  }

  /**
   * Lines 167-171: the ELMM base address. Linux and AIX add the headroom
   * `max - desired` on top of the maximum memory; IBMi does not.
   */
  function ElmmBase(kind: PartitionKind, desiredMemorySize: nat, maxMemorySize: nat): (base: nat)
    requires desiredMemorySize <= maxMemorySize
    ensures base % ElmmAlignment == 0
    ensures HasHeadroom(kind) ==>
      2 * maxMemorySize - desiredMemorySize <= base < 2 * maxMemorySize - desiredMemorySize + ElmmAlignment
    ensures !HasHeadroom(kind) ==> maxMemorySize <= base < maxMemorySize + ElmmAlignment
  {
    var raw := maxMemorySize + (if HasHeadroom(kind) then maxMemorySize - desiredMemorySize else 0);
    AlignUp(raw, ElmmAlignment)
  }

  /** Lines 180-183: the LUN size rounded up to a power of two. */
  function LunPow2(lunSize: nat): (p: nat)
    requires lunSize > 0
    ensures p == Pow2(BitLength(lunSize) - 1) || p == Pow2(BitLength(lunSize))
    ensures lunSize <= p < 2 * lunSize
  {
    BitLengthBounds(lunSize);
    var lower := LowerPow2(lunSize);
    if lunSize > lower then 2 * lower else lower
  }

  /**
   * Lines 180-185: the bytes a LUN takes at `cursor`: its power-of-two size
   * plus the padding that aligns the allocation's end to that size.
   */
  function LunAllocation(cursor: nat, lunSize: nat): (allocation: nat)
    requires lunSize > 0
    ensures cursor + allocation == AlignUp(cursor, LunPow2(lunSize)) + LunPow2(lunSize)
    ensures (cursor + allocation) % LunPow2(lunSize) == 0
    ensures lunSize <= LunPow2(lunSize) <= allocation < 2 * LunPow2(lunSize)
  {
    var p := LunPow2(lunSize);
    AlignUpThenStep(cursor, p);
    if cursor % p != 0 then p + (p - cursor % p) else p
  }

  /** The layout cursor after the LUNs `lunSizes`, starting from `cursor`. */
  function LunsEnd(cursor: nat, lunSizes: seq<nat>): nat
    requires AllPositive(lunSizes)
  {
    if lunSizes == [] then cursor
    else
      var prev := LunsEnd(cursor, lunSizes[..|lunSizes| - 1]);
      prev + LunAllocation(prev, lunSizes[|lunSizes| - 1])
  }

  /** The printed range of each LUN: from the unaligned cursor, padded allocation long. */
  function LunRegions(cursor: nat, lunSizes: seq<nat>): seq<Region>
    requires AllPositive(lunSizes)
  {
    if lunSizes == [] then []
    else
      var prev := LunsEnd(cursor, lunSizes[..|lunSizes| - 1]);
      LunRegions(cursor, lunSizes[..|lunSizes| - 1]) + [Region(prev, LunAllocation(prev, lunSizes[|lunSizes| - 1]))]
  }

  /**
   * The LUN regions tile the space from `cursor` to the end without gaps, in
   * input order: one region per LUN, the first at the cursor, each starting
   * where the previous one ends, and the end address after the last.
   */
  lemma {:induction false} LunRegionsTile(cursor: nat, lunSizes: seq<nat>)
    requires AllPositive(lunSizes)
    ensures |LunRegions(cursor, lunSizes)| == |lunSizes|
    ensures |lunSizes| > 0 ==> LunRegions(cursor, lunSizes)[0].start == cursor
    ensures forall i :: 0 <= i < |lunSizes| - 1 ==>
      LunRegions(cursor, lunSizes)[i].End() == LunRegions(cursor, lunSizes)[i + 1].start
    ensures LunsEnd(cursor, lunSizes) ==
      if lunSizes == [] then cursor else LunRegions(cursor, lunSizes)[|lunSizes| - 1].End()
  {
    if lunSizes != [] {
      LunRegionsTile(cursor, lunSizes[..|lunSizes| - 1]);
    }
  }

  /**
   * The region of the `i`-th LUN ends on a multiple of the LUN's power-of-two
   * size `p` and is at least `p` long, so it holds the naturally aligned
   * block `[End() - p, End())`, which is at least as long as the LUN.
   */
  lemma {:induction false} LunRegionAligned(cursor: nat, lunSizes: seq<nat>, i: nat)
    requires AllPositive(lunSizes) && i < |lunSizes|
    ensures |LunRegions(cursor, lunSizes)| == |lunSizes|
    ensures lunSizes[i] <= LunPow2(lunSizes[i]) <= LunRegions(cursor, lunSizes)[i].length
    ensures LunRegions(cursor, lunSizes)[i].End() % LunPow2(lunSizes[i]) == 0
  {
    var init := lunSizes[..|lunSizes| - 1];
    LunRegionsTile(cursor, init);
    if i < |init| {
      LunRegionAligned(cursor, init, i);
      assert lunSizes[i] == init[i];
    } else {
      var prev := LunsEnd(cursor, init);
      assert LunRegions(cursor, lunSizes)[i] == Region(prev, LunAllocation(prev, lunSizes[i]));
    }
  }

  /** Together the LUN regions take at least the LUNs' total size. */
  lemma {:induction false} LunsEndCoversSum(cursor: nat, lunSizes: seq<nat>)
    requires AllPositive(lunSizes)
    ensures LunsEnd(cursor, lunSizes) >= cursor + Sum(lunSizes)
  {
    if lunSizes != [] {
      LunsEndCoversSum(cursor, lunSizes[..|lunSizes| - 1]);
    }
  }

  /**
   * Lines 179-187: the loop over the LUNs, in input order, that records each
   * LUN's range and advances `elmm_end_address` from `start`.
   */
  method PlaceLuns(start: nat, lunSizes: seq<nat>) returns (regions: seq<Region>, endAddress: nat)
    requires AllPositive(lunSizes)
    ensures regions == LunRegions(start, lunSizes)
    ensures endAddress == LunsEnd(start, lunSizes)
  {
    regions, endAddress := [], start;
    for i := 0 to |lunSizes|
      invariant regions == LunRegions(start, lunSizes[..i])
      invariant endAddress == LunsEnd(start, lunSizes[..i])
    {
      assert lunSizes[..i + 1][..i] == lunSizes[..i];
      var allocationSize := lunSizes[i];
      LowerPow2Bounds(lunSizes[i]);
      var lower := LowerPow2(allocationSize);
      if allocationSize > lower {
        allocationSize := 2 * lower;
      }
      assert allocationSize == LunPow2(lunSizes[i]);
      if endAddress % allocationSize != 0 {
        allocationSize := allocationSize + (allocationSize - endAddress % allocationSize);
      }
      assert allocationSize == LunAllocation(endAddress, lunSizes[i]);
      regions := regions + [Region(endAddress, allocationSize)];
      endAddress := endAddress + allocationSize;
    }
    assert lunSizes[..|lunSizes|] == lunSizes;
  }

  /**
   * Lines 167-188: the layout the script prints: the base, the PCI/VAS/XIVE
   * window right at it, then the LUNs from the window's end.
   */
  function ElmmLayoutOf(kind: PartitionKind, desiredMemorySize: nat, maxMemorySize: nat, lunSizes: seq<nat>): ElmmLayout
    requires desiredMemorySize <= maxMemorySize
    requires AllPositive(lunSizes)
  {
    var base := ElmmBase(kind, desiredMemorySize, maxMemorySize);
    var start := base + PciVasXiveSize;
    ElmmLayout(base, Region(base, PciVasXiveSize), LunRegions(start, lunSizes), LunsEnd(start, lunSizes))
  }

  /**
   * The layout is laid out end to end: an aligned base past the memory (and
   * the headroom), the window at the base, the LUNs right after the window
   * without gaps, and the end after the last of them, at least as far as the
   * LUNs' total size past the window.
   */
  lemma ElmmLayoutTiles(kind: PartitionKind, desiredMemorySize: nat, maxMemorySize: nat, lunSizes: seq<nat>)
    requires desiredMemorySize <= maxMemorySize
    requires AllPositive(lunSizes)
    ensures var l := ElmmLayoutOf(kind, desiredMemorySize, maxMemorySize, lunSizes);
      && l.base % ElmmAlignment == 0
      && l.base >= maxMemorySize
      && (HasHeadroom(kind) ==> l.base >= 2 * maxMemorySize - desiredMemorySize)
      && l.pciVasXive.start == l.base && l.pciVasXive.length == PciVasXiveSize
      && |l.luns| == |lunSizes|
      && (|lunSizes| > 0 ==> l.luns[0].start == l.pciVasXive.End())
      && (forall i :: 0 <= i < |lunSizes| - 1 ==> l.luns[i].End() == l.luns[i + 1].start)
      && (forall i :: 0 <= i < |lunSizes| ==>
            lunSizes[i] <= LunPow2(lunSizes[i]) <= l.luns[i].length && l.luns[i].End() % LunPow2(lunSizes[i]) == 0)
      && l.end == (if lunSizes == [] then l.pciVasXive.End() else l.luns[|lunSizes| - 1].End())
      && l.end >= l.pciVasXive.End() + Sum(lunSizes)
  {
    var base := ElmmBase(kind, desiredMemorySize, maxMemorySize);
    var start := base + PciVasXiveSize;
    LunRegionsTile(start, lunSizes);
    LunsEndCoversSum(start, lunSizes);
    forall i | 0 <= i < |lunSizes|
      ensures lunSizes[i] <= LunPow2(lunSizes[i]) <= LunRegions(start, lunSizes)[i].length
      ensures LunRegions(start, lunSizes)[i].End() % LunPow2(lunSizes[i]) == 0
    {
      LunRegionAligned(start, lunSizes, i);
    }
  }

  /** Lines 167-171: the base address as the script computes it, step by step. */
  method ComputeElmmBase(kind: PartitionKind, desiredMemorySize: nat, maxMemorySize: nat) returns (base: nat)
    requires desiredMemorySize <= maxMemorySize
    ensures base == ElmmBase(kind, desiredMemorySize, maxMemorySize)
  {
    base := maxMemorySize;
    if HasHeadroom(kind) {
      base := base + (maxMemorySize - desiredMemorySize);
    }
    ghost var raw := base;
    if base % ElmmAlignment != 0 {
      base := base + (ElmmAlignment - base % ElmmAlignment);
    }
    assert base == AlignUp(raw, ElmmAlignment);
  }

  /** Lines 167-188: compute the base, reserve the window, place the LUNs. */
  method LayoutElmm(kind: PartitionKind, desiredMemorySize: nat, maxMemorySize: nat, lunSizes: seq<nat>)
    returns (layout: ElmmLayout)
    requires desiredMemorySize <= maxMemorySize
    requires AllPositive(lunSizes)
    ensures layout == ElmmLayoutOf(kind, desiredMemorySize, maxMemorySize, lunSizes)
  {
    var base := ComputeElmmBase(kind, desiredMemorySize, maxMemorySize);
    var endAddress := base;
    var pciVasXive := Region(endAddress, PciVasXiveSize);
    endAddress := endAddress + PciVasXiveSize;
    var regions;
    regions, endAddress := PlaceLuns(endAddress, lunSizes);
    layout := ElmmLayout(base, pciVasXive, regions, endAddress);
  }
}

# HPT sizing for VPMEM partitions, in Dafny

`hpt_for_vpmem.py` sizes the hashed page table (HPT) of a partition that has
VPMEM storage. The HPT should be as large as if every VPMEM LUN were DRAM.
The script gets there in two steps:

1. It lowers the HPT ratio down to 1/32, moving the PPT ratio down with it.
2. If that is not enough, it raises the partition's maximum memory size along
   the "quarter breakpoints", the sizes five quarters of a power of two.

It then prints a rough layout of the ELMM tree and some recommendations:

- The ELMM base address is aligned to 4 TiB.
- A 4 TiB PCI/VAS/XIVE window follows the base.
- Each LUN then gets one naturally aligned power-of-two allocation.
- The recommendations say which ratios and sizes to change. A warning is
  printed when a Linux layout passes 64 TiB.

The model is split into six modules:

- `SizeMath` (`size_math.dfy`) holds the byte units, `bit_length`, the shifts
  `1 << k` and `x >> k`, the quarter-breakpoint bucket and
  `compute_hpt_size`, with their properties.
- `Partition` (`partition.dfy`) holds the partition kind (IBMi, Linux or AIX)
  and the initial ratios.
- `Luns` (`luns.dfy`) expands the parsed `--lun` options into the list of LUN
  sizes and the total VPMEM size. It has a loop and the specification
  functions the loop is proved against.
- `Search` (`search.dfy`) holds the ratio loop and the memory-growth loop as
  methods with loop invariants. The growth step is a function. A jump from off
  a breakpoint is proved to land on the next breakpoint without skipping any.
  From a breakpoint the step adds 1 GiB, which below 1 GiB can pass over
  breakpoints. A progress measure bounds the number of passes by the bit
  width of the memory size that is sure to meet the target.
- `Layout` (`layout.dfy`) holds the ELMM base address, each LUN's allocation,
  and the layout loop. The loop is proved equal to recursive specification
  functions, which are proved to tile the address space.
- `Planner` (`planner.dfy`) runs the whole script from validated inputs to
  the values and flags it prints.

Python's `x >> k` on a non-negative integer is modelled by `Shr`, which halves
`k` times. `ShrIsDiv` proves that this is floor division by `2^k`. Python
integers have no width and no wrap-around. Every integer in the modelled,
validated domain is non-negative, so the model uses unbounded `nat`. The PPT
ratio is typed `int`; the model constrains only its offset from the HPT
ratio.

The bucket of `compute_hpt_size` is not "at least the memory size". The code
snaps a size up to the next power of two only once it lies more than a
quarter past the lower one, so 9 bytes fall in the 8-byte bucket. The model
follows the code: `QuarterBucketMayBeBelowSize` proves that example, and
`QuarterBucketBounds` gives the bound that does hold, `4n <= 5 * bucket`.

Each LUN's printed range starts at the unaligned layout cursor. Its length
includes the padding that aligns its end. The model follows the code here
too: a region is `(cursor, padded allocation)`. It is not a range that starts
at the aligned address.

## Model

| member | source | states |
|---|---|---|
| SizeMath.BitLengthBounds | hpt_for_vpmem.py:13 | a positive `n` has `n.bit_length() >= 1`, and `2^(b-1) <= n < 2^b` |
| SizeMath.BitLengthMonotone | hpt_for_vpmem.py:13 | a larger number never has a smaller bit length |
| SizeMath.BitLengthOfRange | hpt_for_vpmem.py:13 | `2^k <= n < 2^(k+1)` pins the bit length to exactly `k + 1` |
| SizeMath.LowerPow2Bounds | hpt_for_vpmem.py:13 | `1 << (n.bit_length() - 1)` is at most `n`, and `n` is below twice it |
| SizeMath.LowerPow2OfRange | hpt_for_vpmem.py:13 | when `2^k <= n < 2^(k+1)`, the power of two below `n` is `2^k` |
| SizeMath.QuarterBucketBounds | hpt_for_vpmem.py:13-15 | the bucket is the power of two at or below `n` or the next one; `4n <= 5 * bucket`; `n < 2 * bucket` and `bucket < 2n` |
| SizeMath.QuarterBucketIsLeast | hpt_for_vpmem.py:13-15 | every power of two `P` with `4n <= 5P` is at least the bucket, so the bucket is the least such power |
| SizeMath.QuarterBucketMonotone | hpt_for_vpmem.py:13-15 | the bucket is monotone in the size |
| SizeMath.QuarterBucketOfPow2 | hpt_for_vpmem.py:13-15 | an exact power of two is its own bucket |
| SizeMath.QuarterBucketMayBeBelowSize | hpt_for_vpmem.py:13-15 | the bucket can lie below the size: 9 bytes fall in the 8-byte bucket |
| SizeMath.ShrIsDiv | hpt_for_vpmem.py:16 | `x >> k` is floor division of `x` by `2^k` |
| SizeMath.ShrMonotone | hpt_for_vpmem.py:16 | a right shift is monotone in the shifted value |
| SizeMath.ShrAntitone | hpt_for_vpmem.py:16 | shifting further never gives a larger value |
| SizeMath.ShrLowerBound | hpt_for_vpmem.py:16 | when `x >= t * 2^k`, `x >> k >= t` |
| SizeMath.ShrPow2 | hpt_for_vpmem.py:16 | `(1 << j) >> k` is `1 << (j - k)` when `k <= j`, otherwise 0 |
| SizeMath.ComputeHptSize | hpt_for_vpmem.py:12-16 | `compute_hpt_size` is defined for sizes from 1 up and never returns less than 256 KiB |
| SizeMath.HptSizeMonotoneInSize | hpt_for_vpmem.py:12-16 | at a fixed ratio, a larger memory never gives a smaller HPT |
| SizeMath.HptSizeAntitoneInRatio | hpt_for_vpmem.py:12-16 | at a fixed size, a larger ratio never gives a larger HPT |
| SizeMath.HptSizeOfPow2 | hpt_for_vpmem.py:12-16 | for `2^k` bytes the HPT is `max(256 KiB, 2^(k-r))`, or the floor when `r > k` |
| SizeMath.HptSizeReachesTarget | hpt_for_vpmem.py:143-152 | once the memory reaches `target << (r + 1)`, the HPT at ratio `r` reaches `target`; this bounds the growth loop |
| Luns.Repeat | hpt_for_vpmem.py:88 | `[size] * count` has `count` entries, each equal to `size` |
| Luns.Expand | hpt_for_vpmem.py:79-88 | when every option's LUN size is positive, every expanded LUN size is positive |
| Luns.SumAppend | hpt_for_vpmem.py:87-88 | the total of two concatenated LUN lists is the sum of their totals |
| Luns.SumRepeat | hpt_for_vpmem.py:87-88 | the replicas of one option add `count * size` to the total |
| Luns.ExpandLuns | hpt_for_vpmem.py:74-88 | the option loop builds the expanded list in option order, and `vpmem_size` is the sum of that list |
| Search.RatioSearch | hpt_for_vpmem.py:131-137 | the ratio only falls and, once it has moved, stays at 5 or more; `ppt - hpt` keeps its initial value; `actual == compute_hpt_size(m, hpt)`; the loop exits with the target met or the ratio at 5; every ratio passed over falls short; if any ratio from 5 up meets the target, the result does |
| Search.GrowStepAdvances | hpt_for_vpmem.py:144-151 | from four bytes up, each pass strictly grows the memory; on a breakpoint it adds 1 GiB; off one it lands exactly on a breakpoint |
| Search.GrowStepSkipsNoBreakpoint | hpt_for_vpmem.py:144-151 | a jump from off a breakpoint skips no breakpoint on the way |
| Search.GrowStepRaisesRank | hpt_for_vpmem.py:144-151 | from four bytes up, each pass strictly raises the growth rank: three per bit of the memory size, plus 0, 1 or 2 for below, on or past the octave's breakpoint |
| Search.RankAfterJump | hpt_for_vpmem.py:146-151 | each of the two jumps raises the growth rank: from below the breakpoint it lands on it in the same octave, and from past it on the next octave's breakpoint |
| Search.GrowPassCounted | hpt_for_vpmem.py:143-152 | a pass that starts below `target << (r + 1)` raises the rank past the pass count, and keeps the count within three per bit of that ceiling, plus 3 |
| Search.GrowSteps | hpt_for_vpmem.py:143-152 | after `n` passes the memory has not shrunk, and after at least one pass it has grown |
| Search.GrowMemory | hpt_for_vpmem.py:143-152 | the loop terminates with `actual == compute_hpt_size(m, r) >= target` and `m >= m0`; the memory is unchanged iff the target was already met; the result is the first of the loop's successive sizes that meets the target; it takes at most `3 * bit_length(target << (r + 1)) + 3` passes |
| Layout.AlignUp | hpt_for_vpmem.py:170-171 | rounding up gives a multiple of the alignment, at least `x` and less than `x + a` |
| Layout.AlignUpThenStep | hpt_for_vpmem.py:184-185 | one more step of the alignment past an aligned address is still aligned |
| Layout.ElmmBase | hpt_for_vpmem.py:167-171 | the base is a multiple of 4 TiB; it lies in `[max + headroom, max + headroom + 4 TiB)`, where the headroom is `max - desired` for Linux and AIX (`HasHeadroom`, line 168) and 0 for IBMi |
| Layout.ComputeElmmBase | hpt_for_vpmem.py:167-171 | the step-by-step computation of the base gives `ElmmBase` |
| Layout.LunPow2 | hpt_for_vpmem.py:180-183 | the LUN size rounded up is a power of two (the one at or below it, or the next), at least the size and less than twice it |
| Layout.LunAllocation | hpt_for_vpmem.py:180-185 | the cursor moves from `e` to `roundUp(e, p) + p`, a multiple of `p`, and grows by at least `p`, which is at least the LUN size, and by less than `2p` |
| Layout.LunRegionsTile | hpt_for_vpmem.py:179-187 | one region per LUN, in input order; the first starts at the cursor; each ends where the next starts; the end address is the last region's end, or the cursor when there are no LUNs |
| Layout.LunRegionAligned | hpt_for_vpmem.py:180-187 | the `i`-th region ends on a multiple of its LUN's power of two `p` and is at least `p` long, so it holds the naturally aligned block `[end - p, end)`, which is at least the LUN's size |
| Layout.LunsEndCoversSum | hpt_for_vpmem.py:179-187 | the end address is at least the cursor plus the total LUN size |
| Layout.PlaceLuns | hpt_for_vpmem.py:179-187 | the LUN loop produces exactly `LunRegions` and `LunsEnd` of its start and LUN sizes |
| Layout.ElmmLayoutTiles | hpt_for_vpmem.py:167-188 | the base is 4 TiB aligned and past the memory and headroom; the PCI/VAS/XIVE window is 4 TiB at the base; the LUNs start right after the window and follow one another without gaps; each LUN's region holds its naturally aligned power-of-two block; the end is after the last LUN (or the window), at least the total LUN size past the window |
| Layout.LayoutElmm | hpt_for_vpmem.py:167-188 | the script's base, window and LUN loop produce exactly `ElmmLayoutOf` of its inputs |
| Planner.InitialHptWithinTarget | hpt_for_vpmem.py:121-122 | the HPT for the desired memory alone never exceeds the target, which also counts the VPMEM storage |
| Planner.SizingIsDetermined | hpt_for_vpmem.py:109-152 | two sizings that both meet `SizingMeetsTarget` for the same inputs are equal: the HPT ratio, the PPT ratio, the maximum memory and the HPT size are all determined |
| Planner.SizeHpt | hpt_for_vpmem.py:109-152 | from the initial ratios (`InitialHptRatio`: 6 for IBMi, 7 for Linux and AIX; `InitialPptRatio`: 6; lines 109-110), `SizingMeetsTarget` holds: the target is `compute_hpt_size(desired + vpmem, initial ratio)`; the result meets it with `actual == compute_hpt_size(max, hpt)`, `max >= desired` and `5 <= hpt <= initial`; the ratios keep their offset; every coarser ratio falls short at the desired size; memory grows only at ratio 5, and exactly when ratio 5 falls short; the maximum memory is the first of the growth loop's successive sizes from `desired` that meets the target; without VPMEM nothing changes |
| Planner.Plan | hpt_for_vpmem.py:74-202 | end to end: `vpmem_size` is the sum of the expanded LUNs; the target and sizing meet `SizingMeetsTarget`, as in `SizeHpt`; the layout is `ElmmLayoutOf` the final sizes; each recommendation is printed iff its value changed; the 64 TiB warning is printed iff the partition is Linux and the end exceeds 64 TiB; the two ratio changes go together, and a memory change implies a ratio change; without VPMEM there is no recommendation to change anything |

## Left out

- Command-line parsing, the help text, `exit` and the validation messages (`hpt_for_vpmem.py:39-104`). They are I/O. `Plan` takes the validated values: a positive whole number of GiB, the parsed LUN options, and exactly one partition kind.
- Turning the `--lun` text into numbers and splitting off `Nx` (`hpt_for_vpmem.py:80-86`). A parsed option is a `LunSpec(count, size)`.
- `Planner.Plan`: takes the desired memory as the total of the `--memory` values in GiB, not as bytes summed option by option.
- `Planner.Plan`: requires every LUN size to be positive, and counts cannot be negative (`nat`). The script only rejects a negative total (`hpt_for_vpmem.py:101-102`). A zero LUN size makes it fail with a negative shift at line 181. A negative count silently adds nothing to the list but subtracts from the total. These inputs are not modelled.
- `format_size` (`hpt_for_vpmem.py:20-35`). It is presentation only, using float division.
- Every `print`. The model has the values and the flags that decide which lines are printed, not the text.
- `Search.GrowMemory`: requires a starting memory of at least four bytes. Below that, the jump `(5 * L) // 4` does not move for `L` of 1 or 2, and the loop can stall. The script's memory is a positive multiple of 1 GiB, so it always meets this.

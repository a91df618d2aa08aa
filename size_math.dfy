/**
 * Integer size arithmetic of hpt_for_vpmem.py: the byte units, Python's
 * `bit_length`, the shifts `1 << k` and `x >> k`, the quarter-breakpoint
 * bucket and `compute_hpt_size`.
 *
 * A right shift of a non-negative integer is repeated halving (`Shr`), which
 * is floor division by a power of two (`ShrIsDiv`); every size here is
 * non-negative.
 */
module SizeMath {

  const KB: nat := 1024
  const MB: nat := 1024 * KB
  const GB: nat := 1024 * MB
  const TB: nat := 1024 * GB

  /** The firmware floor on the size of a hashed page table: 256 KiB. */
  const MinHptSize: nat := 256 * KB

  function Max(a: nat, b: nat): nat {
    if a < b then b else a
  }

  /** `1 << k` */
  function Pow2(k: nat): (p: nat)
    ensures p >= 1
  {
    if k == 0 then 1 else 2 * Pow2(k - 1)
  }

  lemma {:induction false} Pow2Monotone(i: nat, j: nat)
    requires i <= j
    ensures Pow2(i) <= Pow2(j)
  {
    if i < j {
      Pow2Monotone(i, j - 1);
    }
  }

  /** `Pow2(k)` is divisible by four once `k >= 2`. */
  lemma Pow2Quarter(k: nat)
    requires k >= 2
    ensures Pow2(k) == 4 * Pow2(k - 2)
  {
  }

  /** Python's `n.bit_length()` for a non-negative `n`. */
  function BitLength(n: nat): nat {
    if n == 0 then 0 else 1 + BitLength(n / 2)
  }

  /** A positive `n` has `n.bit_length()` bits: `2^(b-1) <= n < 2^b`. */
  lemma {:induction false} BitLengthBounds(n: nat)
    requires n >= 1
    ensures BitLength(n) >= 1
    ensures Pow2(BitLength(n) - 1) <= n < Pow2(BitLength(n))
  {
    if n > 1 {
      BitLengthBounds(n / 2);
    }
  }

  /** A larger number never has fewer bits. */
  lemma {:induction false} BitLengthMonotone(a: nat, b: nat)
    requires a <= b
    ensures BitLength(a) <= BitLength(b)
  {
    if a > 0 {
      BitLengthMonotone(a / 2, b / 2);
    }
  }

  /** The bit length of `n` is pinned down by the powers of two around it. */
  lemma BitLengthOfRange(n: nat, k: nat)
    requires Pow2(k) <= n < Pow2(k + 1)
    ensures BitLength(n) == k + 1
  {
    BitLengthBounds(n);
    var b := BitLength(n);
    if b < k + 1 {
      Pow2Monotone(b, k);
      assert false;
    } else if b > k + 1 {
      Pow2Monotone(k + 1, b - 1);
      assert false;
    }
  }

  /** `1 << (n.bit_length() - 1)`: the largest power of two not above `n`. */
  function LowerPow2(n: nat): nat
    requires n >= 1
  {
    Pow2(BitLength(n) - 1)
  }

  lemma LowerPow2Bounds(n: nat)
    requires n >= 1
    ensures LowerPow2(n) <= n < 2 * LowerPow2(n)
  {
    BitLengthBounds(n);
  }

  lemma LowerPow2OfRange(n: nat, k: nat)
    requires Pow2(k) <= n < 2 * Pow2(k)
    ensures LowerPow2(n) == Pow2(k)
  {
    BitLengthOfRange(n, k);
  }

  /**
   * The bucket of lines 13-15: the power of two at or below `n`, doubled
   * when `n` lies more than a quarter of the way past it.
   */
  function QuarterBucket(n: nat): nat
    requires n >= 1
  {
    var p := LowerPow2(n);
    if 4 * n > 5 * p then 2 * p else p
  }

  /**
   * The bucket is a power of two (the one at or below `n`, or the next),
   * at least four fifths of `n`, more than half of `n` and less than `2n`.
   * It can be below `n`.
   */
  lemma QuarterBucketBounds(n: nat)
    requires n >= 1
    ensures QuarterBucket(n) == Pow2(BitLength(n) - 1) || QuarterBucket(n) == Pow2(BitLength(n))
    ensures 4 * n <= 5 * QuarterBucket(n)
    ensures n < 2 * QuarterBucket(n) && QuarterBucket(n) < 2 * n
  {
    BitLengthBounds(n);
  }

  /**
   * The bucket is the least power of two whose five quarters reach `n`:
   * no power of two below it covers `n` that way.
   */
  lemma QuarterBucketIsLeast(n: nat, k: nat)
    requires n >= 1 && 4 * n <= 5 * Pow2(k)
    ensures QuarterBucket(n) <= Pow2(k)
  {
    BitLengthBounds(n);
    var j := BitLength(n) - 1;
    if 4 * n > 5 * Pow2(j) {
      if k <= j {
        Pow2Monotone(k, j);
        assert false;
      }
      Pow2Monotone(j + 1, k);
    } else {
      if k < j {
        Pow2Monotone(k + 1, j);
        assert false;
      }
      Pow2Monotone(j, k);
    }
  }

  lemma QuarterBucketMonotone(a: nat, b: nat)
    requires 1 <= a <= b
    ensures QuarterBucket(a) <= QuarterBucket(b)
  {
    QuarterBucketBounds(b);
    var bb := QuarterBucket(b);
    if bb == Pow2(BitLength(b) - 1) {
      QuarterBucketIsLeast(a, BitLength(b) - 1);
    } else {
      QuarterBucketIsLeast(a, BitLength(b));
    }
  }

  /** An exact power of two is its own bucket. */
  lemma QuarterBucketOfPow2(k: nat)
    ensures QuarterBucket(Pow2(k)) == Pow2(k)
  {
    LowerPow2OfRange(Pow2(k), k);
  }

  /** The bucket may lie below `n`: nine bytes fall in the eight-byte bucket. */
  lemma QuarterBucketMayBeBelowSize()
    ensures QuarterBucket(9) == 8 < 9
  {
    LowerPow2OfRange(9, 3);
  }

  /** `x >> k` for a non-negative `x`: halve `k` times, rounding down. */
  function Shr(x: nat, k: nat): nat {
    if k == 0 then x else Shr(x / 2, k - 1)
  }

  /** Shifting right by `k` is floor division by `2^k`. */
  lemma {:induction false} ShrIsDiv(x: nat, k: nat)
    ensures Shr(x, k) == x / Pow2(k)
  {
    if k > 0 {
      ShrIsDiv(x / 2, k - 1);
      var p := Pow2(k - 1);
      var q, r := (x / 2) / p, (x / 2) % p;
      assert x / 2 == q * p + r;
      MulDouble(q, p);
      assert x == q * (2 * p) + (2 * r + x % 2);
      DivModUnique(x, 2 * p, q, 2 * r + x % 2);
    }
  }

  lemma {:induction false} ShrMonotone(x: nat, y: nat, k: nat)
    requires x <= y
    ensures Shr(x, k) <= Shr(y, k)
  {
    if k > 0 {
      ShrMonotone(x / 2, y / 2, k - 1);
    }
  }

  lemma {:induction false} ShrAntitone(x: nat, k1: nat, k2: nat)
    requires k1 <= k2
    ensures Shr(x, k2) <= Shr(x, k1)
  {
    if k1 > 0 {
      ShrAntitone(x / 2, k1 - 1, k2 - 1);
    } else if k2 > 0 {
      ShrAntitone(x / 2, 0, k2 - 1);
    }
  }

  /** `(t << k) >> k == t`, and shifting right is monotone, so `x >= t << k` gives `x >> k >= t`. */
  lemma {:induction false} ShrLowerBound(x: nat, k: nat, t: nat)
    requires t * Pow2(k) <= x
    ensures t <= Shr(x, k)
  {
    if k > 0 {
      var p := Pow2(k - 1);
      MulDouble(t, p);
      ShrLowerBound(x / 2, k - 1, t);
    }
  }

  /** `(1 << j) >> k` is `1 << (j - k)`, or nothing once `k` exceeds `j`. */
  lemma {:induction false} ShrPow2(j: nat, k: nat)
    ensures Shr(Pow2(j), k) == if k <= j then Pow2(j - k) else 0
  {
    if k > 0 {
      if j > 0 {
        ShrPow2(j - 1, k - 1);
      } else {
        ShrOfZero(k - 1);
      }
    }
  }

  lemma {:induction false} ShrOfZero(k: nat)
    ensures Shr(0, k) == 0
  {
    if k > 0 {
      ShrOfZero(k - 1);
    }
  }

  /** `compute_hpt_size(total_memory_size, hpt_ratio)` of lines 12-16. */
  function ComputeHptSize(totalMemorySize: nat, hptRatio: nat): (size: nat)
    requires totalMemorySize >= 1
    ensures size >= MinHptSize
  {
    Max(MinHptSize, Shr(QuarterBucket(totalMemorySize), hptRatio))
  }

  /** Quotient and remainder are unique. */
  lemma DivModUnique(z: nat, d: nat, q: nat, r: nat)
    requires r < d && z == q * d + r
    ensures z / d == q && z % d == r
  {
    var q', r' := z / d, z % d;
    if q' < q {
      MulMonotone(q' + 1, q, d);
      assert false;
    }
    if q' > q {
      MulMonotone(q + 1, q', d);
      assert false;
    }
  }

  lemma MulDouble(t: nat, p: nat)
    ensures t * (2 * p) == 2 * (t * p)
  {
  }

  lemma MulMonotone(a: nat, b: nat, d: nat)
    requires a <= b
    ensures a * d <= b * d
  {
  }

  // ---------------------------------------------------------------------------
  // Properties of compute_hpt_size.

  /** A larger memory never needs a smaller HPT, at a fixed ratio. */
  lemma HptSizeMonotoneInSize(a: nat, b: nat, r: nat)
    requires 1 <= a <= b
    ensures ComputeHptSize(a, r) <= ComputeHptSize(b, r)
  {
    QuarterBucketMonotone(a, b);
    ShrMonotone(QuarterBucket(a), QuarterBucket(b), r);
  }

  /** A larger ratio (a finer fraction) never gives a larger HPT, at a fixed size. */
  lemma HptSizeAntitoneInRatio(n: nat, r1: nat, r2: nat)
    requires n >= 1 && r1 <= r2
    ensures ComputeHptSize(n, r2) <= ComputeHptSize(n, r1)
  {
    ShrAntitone(QuarterBucket(n), r1, r2);
  }

  /** For an exact power of two `2^k` the size is `max(256 KiB, 2^(k - r))`, or the floor when `r > k`. */
  lemma HptSizeOfPow2(k: nat, r: nat)
    ensures ComputeHptSize(Pow2(k), r) == Max(MinHptSize, if r <= k then Pow2(k - r) else 0)
  {
    QuarterBucketOfPow2(k);
    ShrPow2(k, r);
  }

  /**
   * Once the memory reaches `target << (r + 1)` the HPT reaches `target`:
   * the bucket exceeds half the memory.
   */
  lemma HptSizeReachesTarget(m: nat, r: nat, target: nat)
    requires m >= 1 && m >= target * Pow2(r + 1)
    ensures ComputeHptSize(m, r) >= target
  {
    QuarterBucketBounds(m);
    var b, p := QuarterBucket(m), Pow2(r);
    assert Pow2(r + 1) == 2 * p;
    MulDouble(target, p);
    assert target * p <= b;
    ShrLowerBound(b, r, target);
  }
}

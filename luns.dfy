/**
 * The VPMEM LUN list of hpt_for_vpmem.py lines 79-88: each `--lun [N x]size`
 * option appends N copies of its size to `lun_sizes` and adds N * size to
 * `vpmem_size`. Parsing the option text is not part of this model; a
 * parsed option is a `LunSpec`.
 */
module Luns {

  /** One parsed `--lun` option: `count` replicas of a LUN of `size` bytes. */
  datatype LunSpec = LunSpec(count: nat, size: nat)

  /** `[size] * count` */
  function Repeat(size: nat, count: nat): (s: seq<nat>)
    ensures |s| == count
    ensures forall i :: 0 <= i < count ==> s[i] == size
  {
    seq(count, _ => size)
  }

  function Sum(s: seq<nat>): nat {
    if s == [] then 0 else Sum(s[..|s| - 1]) + s[|s| - 1]
  }

  /** The flat list of LUN sizes the options describe, in option order. */
  function Expand(specs: seq<LunSpec>): (lunSizes: seq<nat>)
    ensures (forall i :: 0 <= i < |specs| ==> specs[i].size > 0) ==> AllPositive(lunSizes)
  {
    if specs == [] then []
    else
      var last := specs[|specs| - 1];
      Expand(specs[..|specs| - 1]) + Repeat(last.size, last.count)
  }

  predicate AllPositive(s: seq<nat>) {
    forall i :: 0 <= i < |s| ==> s[i] > 0
  }

  lemma {:induction false} SumAppend(a: seq<nat>, b: seq<nat>)
    ensures Sum(a + b) == Sum(a) + Sum(b)
  {
    if b != [] {
      assert (a + b)[..|a + b| - 1] == a + b[..|b| - 1];
      SumAppend(a, b[..|b| - 1]);
    } else {
      assert a + b == a;
    }
  }

  /** The replicas of one option add up to `count * size`. */
  lemma {:induction false} SumRepeat(size: nat, count: nat)
    ensures Sum(Repeat(size, count)) == count * size
  {
    if count > 0 {
      assert Repeat(size, count)[..count - 1] == Repeat(size, count - 1);
      SumRepeat(size, count - 1);
    }
  }

  /**
   * Lines 87-88: the loop over the `--lun` options, growing `lun_sizes` and
   * `vpmem_size` as it goes. The total it keeps is the sum of the list.
   */
  method ExpandLuns(specs: seq<LunSpec>) returns (lunSizes: seq<nat>, vpmemSize: nat)
    ensures lunSizes == Expand(specs)
    ensures vpmemSize == Sum(lunSizes)
  {
    lunSizes, vpmemSize := [], 0;
    for i := 0 to |specs|
      invariant lunSizes == Expand(specs[..i])
      invariant vpmemSize == Sum(lunSizes)
    {
      var spec := specs[i];
      assert specs[..i + 1][..i] == specs[..i];
      SumAppend(lunSizes, Repeat(spec.size, spec.count));
      SumRepeat(spec.size, spec.count);
      vpmemSize := vpmemSize + spec.count * spec.size;
      lunSizes := lunSizes + Repeat(spec.size, spec.count);
    }
    assert specs[..|specs|] == specs;
  }
}

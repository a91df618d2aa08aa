/**
 * The partition kind chosen on the command line, and the two ratios it
 * starts the sizing from (hpt_for_vpmem.py lines 109-110).
 */
module Partition {

  /** Exactly one of `--ibmi`, `--linux`, `--aix`. */
  datatype PartitionKind = IBMi | Linux | AIX

  /** IBMi starts from the coarser HPT ratio 1/64, Linux and AIX from 1/128. */
  function InitialHptRatio(kind: PartitionKind): nat {
    if kind == IBMi then 6 else 7
  }

  /** The PPT ratio starts at 6, i.e. 1/(64 * 64), for every kind. */
  const InitialPptRatio: int := 6

  /** Linux and AIX place the ELMM tree past `max - desired` bytes of headroom. */
  predicate HasHeadroom(kind: PartitionKind) {
    kind == Linux || kind == AIX
  }
}

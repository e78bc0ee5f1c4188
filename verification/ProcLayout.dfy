/** Sizes, offsets and state values of a `struct proc` (include/trunix/proc.h). */
module ProcLayout {
  import opened Words

  const PROC_SIZE := 104
  /** Offsets of the fields used here. The pid comes first. */
  const KSTACK := 8
  const CONTEXT := 16
  const TF := 20
  const OFILE := 24
  const STATE := 88

  /** Descriptors. The state comes right behind the last one. */
  const MAXFILES := 16

  const RUNNING := 0
  const READY := 1
  const DEAD := 4

  /** Addresses of `n` file records: none of them could be mistaken for a state. */
  predicate Records(rs: seq<u32>, n: nat) {
    |rs| == n && forall i :: 0 <= i < n ==> rs[i] > DEAD
  }
}

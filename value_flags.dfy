/** The per-symbol value flags (a bit set over one byte) and their merge rule. */
module ValueFlagsModel {

  type ValueFlags = bv8

  /** Something with an address, e.g. a regular symbol or a section. */
  const ADDRESS: ValueFlags := 1
  /** An absolute value that does not move with the load address. */
  const ABSOLUTE: ValueFlags := 2
  /** The value comes from a shared object and is only known at run time. */
  const DYNAMIC: ValueFlags := 4
  /** The value refers to an indirect function. */
  const IFUNC: ValueFlags := 8
  /** References may bypass the GOT because the symbol cannot be interposed. */
  const CAN_BYPASS_GOT: ValueFlags := 16
  /** A version script downgrades the symbol to a local. */
  const DOWNGRADE_TO_LOCAL: ValueFlags := 32
  /** The value is a function (only set for dynamic symbols). */
  const FUNCTION: ValueFlags := 64

  predicate Contains(flags: ValueFlags, f: ValueFlags) {
    flags & f == f
  }

  /**
   * Merges into `flags` the flags `other` of a local, possibly non-canonical definition:
   * only the permission to bypass the GOT is carried over.
   */
  function Merge(flags: ValueFlags, other: ValueFlags): (merged: ValueFlags)
    ensures merged & !CAN_BYPASS_GOT == flags & !CAN_BYPASS_GOT
    ensures Contains(merged, CAN_BYPASS_GOT) <==> Contains(flags, CAN_BYPASS_GOT) || Contains(other, CAN_BYPASS_GOT)
    ensures merged & flags == flags
  {
    if Contains(other, CAN_BYPASS_GOT) then flags | CAN_BYPASS_GOT else flags
  }

  /** Merging twice with the same flags changes nothing more. */
  lemma MergeIdempotent(flags: ValueFlags, other: ValueFlags)
    ensures Merge(Merge(flags, other), other) == Merge(flags, other)
  {
  }

  /** Merging never removes a bit and leaves DYNAMIC, IFUNC and the others as they were. */
  lemma MergeKeepsOtherFlags(flags: ValueFlags, other: ValueFlags, f: ValueFlags)
    requires f & CAN_BYPASS_GOT == 0
    ensures Contains(Merge(flags, other), f) <==> Contains(flags, f)
  {
  }
}

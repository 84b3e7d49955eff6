/** The two access-flag masks a member's predicates test, as fixed by the
    Java Virtual Machine Specification (section 4.5, field access flags, and
    section 4.6, method access flags), and what testing them means. */
module AccessFlags {
  import opened Bits

  /** An unsigned 16-bit item: the width of the access_flags word. */
  type U2 = x: int | 0 <= x < 0x1_0000

  const ACC_STATIC: nat := 0x0008
  const ACC_FINAL: nat := 0x0010

  /** Masking a flag word with ACC_STATIC leaves ACC_STATIC when bit 3 is set
      and zero otherwise, whatever the other bits are. */
  lemma {:induction false} StaticMaskIsBit3(f: nat)
    ensures And(f, ACC_STATIC) == if Bit(f, 3) then ACC_STATIC else 0
  {
    assert ACC_STATIC == Pow2(3);
    AndPow2(f, 3);
  }

  /** Masking a flag word with ACC_FINAL leaves ACC_FINAL when bit 4 is set
      and zero otherwise, whatever the other bits are. */
  lemma {:induction false} FinalMaskIsBit4(f: nat)
    ensures And(f, ACC_FINAL) == if Bit(f, 4) then ACC_FINAL else 0
  {
    assert ACC_FINAL == Pow2(4);
    AndPow2(f, 4);
  }
}

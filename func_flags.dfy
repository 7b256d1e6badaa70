/** The 16-bit `func_flags` word of a function record: a return-value policy in the low bits
    and one bit per optional field or structural property from bit 4 up. */
module FuncFlags {

  /** Bit `k` of a 16-bit word. */
  predicate Bit(x: bv16, k: bv4)
  {
    x & ((1 as bv16) << k) != 0
  }

  /** The members of `enum class func_flags`. */
  datatype FuncFlag =
    | HasName | HasScope | HasDoc | HasArgs | HasVarArgs
    | HasVarKwargs | IsMethod | IsConstructor | HasFree | ReturnRef

  /** The bit each flag occupies: 4 for `has_name` up to 13 for `return_ref`. */
  function Position(f: FuncFlag): (k: bv4)
    ensures 4 <= k <= 13
  {
    match f
    case HasName => 4
    case HasScope => 5
    case HasDoc => 6
    case HasArgs => 7
    case HasVarArgs => 8
    case HasVarKwargs => 9
    case IsMethod => 10
    case IsConstructor => 11
    case HasFree => 12
    case ReturnRef => 13
  }

  /** The enumerator's value `1 << Position(f)`: a single bit, clear of the policy bits 0..3. */
  function Mask(f: FuncFlag): (m: bv16)
    ensures Bit(m, Position(f)) && m & (m - 1) == 0
    ensures m & 0xF == 0
  {
    (1 as bv16) << Position(f)
  }

  /** The flag that lives in bit `j`, for each of bits 4..13. */
  function FlagAt(j: bv4): (f: FuncFlag)
    requires 4 <= j <= 13
    ensures Position(f) == j
  {
    if j == 4 then HasName
    else if j == 5 then HasScope
    else if j == 6 then HasDoc
    else if j == 7 then HasArgs
    else if j == 8 then HasVarArgs
    else if j == 9 then HasVarKwargs
    else if j == 10 then IsMethod
    else if j == 11 then IsConstructor
    else if j == 12 then HasFree
    else ReturnRef
  }

  /** Two words that agree on each of their sixteen bits are equal. */
  lemma WordFromSixteenBits(x: bv16, y: bv16)
    requires Bit(x, 0) == Bit(y, 0) && Bit(x, 1) == Bit(y, 1) && Bit(x, 2) == Bit(y, 2) && Bit(x, 3) == Bit(y, 3)
    requires Bit(x, 4) == Bit(y, 4) && Bit(x, 5) == Bit(y, 5) && Bit(x, 6) == Bit(y, 6) && Bit(x, 7) == Bit(y, 7)
    requires Bit(x, 8) == Bit(y, 8) && Bit(x, 9) == Bit(y, 9) && Bit(x, 10) == Bit(y, 10) && Bit(x, 11) == Bit(y, 11)
    requires Bit(x, 12) == Bit(y, 12) && Bit(x, 13) == Bit(y, 13) && Bit(x, 14) == Bit(y, 14) && Bit(x, 15) == Bit(y, 15)
    ensures x == y
  {
  }

  /** The same, with the sixteen bits given by one quantifier. */
  lemma WordFromBits(x: bv16, y: bv16)
    requires forall j: bv4 :: Bit(x, j) == Bit(y, j)
    ensures x == y
  {
    WordFromSixteenBits(x, y);
  }

  /** Distinct flags occupy distinct bits, so their masks never overlap. */
  lemma MasksDisjoint(f: FuncFlag, g: FuncFlag)
    ensures f != g <==> Mask(f) & Mask(g) == 0
    ensures f != g <==> Position(f) != Position(g)
  {
  }

  /** `flags |= (uint16_t) f`: the flag's bit ends up set and every other bit keeps its value. */
  function SetFlag(flags: bv16, f: FuncFlag): (r: bv16)
    ensures r & Mask(f) == Mask(f)
    ensures r & !Mask(f) == flags & !Mask(f)
  {
    flags | Mask(f)
  }

  /** The same, bit by bit: exactly bit `Position(f)` is turned on. */
  lemma SetFlagBit(flags: bv16, f: FuncFlag, j: bv4)
    ensures Bit(SetFlag(flags, f), j) <==> j == Position(f) || Bit(flags, j)
  {
    OrSingleBit(flags, Position(f), j);
  }

  lemma OrSingleBit(x: bv16, p: bv4, j: bv4)
    ensures Bit(x | ((1 as bv16) << p), j) <==> j == p || Bit(x, j)
  {
  }

  /** Setting a flag twice is the same as setting it once. */
  lemma SetFlagIdempotent(flags: bv16, f: FuncFlag)
    ensures SetFlag(SetFlag(flags, f), f) == SetFlag(flags, f)
  {
    OrTwice(flags, Mask(f));
  }

  lemma OrTwice(x: bv16, m: bv16)
    ensures (x | m) | m == x | m
  {
  }

  /** Setting two flags gives the same word in either order. */
  lemma SetFlagsCommute(flags: bv16, f: FuncFlag, g: FuncFlag)
    ensures SetFlag(SetFlag(flags, f), g) == SetFlag(SetFlag(flags, g), f)
  {
  }

  /** Setting a flag and assigning a policy give the same word in either order, because no
      flag lives in bits 0..1. */
  lemma SetFlagPolicyCommute(flags: bv16, f: FuncFlag, pol: bv16)
    ensures PolicyAssign(SetFlag(flags, f), pol) == SetFlag(PolicyAssign(flags, pol), f)
  {
    OrClearOfLowBits(flags, Mask(f), pol);
  }

  lemma OrClearOfLowBits(x: bv16, m: bv16, pol: bv16)
    requires m & 3 == 0
    ensures ((x | m) & !3) | pol == ((x & !3) | pol) | m
  {
  }

  /** `flags = (flags & ~0b11) | pol`, as written: bits 0 and 1 become the policy's,
      every higher bit is the old bit OR-ed with the policy's (so bit 2 is never cleared). */
  function PolicyAssign(flags: bv16, pol: bv16): (r: bv16)
    ensures r & 3 == pol & 3
    ensures r & !3 == (flags | pol) & !3
  {
    (flags & !3) | pol
  }

  /** The same, bit by bit. */
  lemma PolicyAssignBit(flags: bv16, pol: bv16, k: bv4)
    ensures k < 2 ==> Bit(PolicyAssign(flags, pol), k) == Bit(pol, k)
    ensures 2 <= k ==> Bit(PolicyAssign(flags, pol), k) == (Bit(flags, k) || Bit(pol, k))
  {
  }

  /** For a policy code below 8 the assignment keeps bits 3..15 and only ORs into bit 2. */
  lemma PolicyAssignInRange(flags: bv16, pol: bv16, k: bv4)
    requires pol < 8
    ensures 3 <= k ==> Bit(PolicyAssign(flags, pol), k) == Bit(flags, k)
    ensures Bit(PolicyAssign(flags, pol), 2) == (Bit(flags, 2) || Bit(pol, 2))
  {
  }

  /** A second policy assignment erases the first exactly when the first did not leave
      behind a bit 2 that the second and the original word lack. */
  lemma PolicyOverwriteIff(flags: bv16, p: bv16, q: bv16)
    requires p < 8 && q < 8
    ensures PolicyAssign(PolicyAssign(flags, p), q) == PolicyAssign(flags, q)
        <==> (!Bit(p, 2) || Bit(q, 2) || Bit(flags, 2))
  {
  }

  /** Policy 4 followed by policy 3 on a clear word leaves 7 in the three policy bits, not 3. */
  lemma PolicyLeak()
    ensures PolicyAssign(PolicyAssign(0, 4), 3) & 7 == 7
    ensures PolicyAssign(PolicyAssign(0, 4), 3) != PolicyAssign(0, 3)
  {
  }

  /** The assignment the three reserved bits call for: `flags = (flags & ~0b111) | pol`. */
  function PolicyAssignIntended(flags: bv16, pol: bv16): (r: bv16)
    ensures pol < 8 ==> r & 7 == pol
    ensures pol < 8 ==> r & !7 == flags & !7
  {
    (flags & !7) | pol
  }

  /** With the three-bit mask the last policy always wins. */
  lemma IntendedPolicyLastWins(flags: bv16, p: bv16, q: bv16)
    requires p < 8 && q < 8
    ensures PolicyAssignIntended(PolicyAssignIntended(flags, p), q) == PolicyAssignIntended(flags, q)
  {
  }
}

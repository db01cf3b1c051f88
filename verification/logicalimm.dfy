// The bit-mask immediates of the A64 logical instructions, decoded twice: once in the
// translator, which shifts and masks, and once in Capstone, which rotates one bit at a time.
//
// A field of k bits (6) selects among registers of Pow2(k) bits (64).  The immediate consists
// of equal elements of Pow2(len) bits, each a run of ones rotated to the right.
module LogicalImmediates {
  import opened Arithmetic
  import opened Bits
  import opened Wrappers

  // DecodeBitMasks() of the Arm Architecture Reference Manual, Appendix J1, bit by bit.

  function HighestSetBit(x: nat): (h: int)
    ensures h >= -1
  {
    if x == 0 then -1 else 1 + HighestSetBit(x / 2)
  }

  // log2 of the element size, from immN : NOT(imms).
  function Len(k: nat, immn: nat, imms: nat): int
    requires imms < Pow2(k)
  {
    HighestSetBit(Up(immn, k) + Not(k, imms))
  }

  ghost predicate ValidFields(k: nat, immn: nat, imms: nat)
    requires imms < Pow2(k)
  {
    var len := Len(k, immn, imms);
    len >= 1 && Low(len, imms) != Ones(len)
  }

  // Bit i of an endless row of elements: a run of s + 1 ones, rotated right by r.
  function RunBit(len: nat, s: nat, r: nat, i: nat): bool
  {
    (i + r) % Pow2(len) <= s
  }

  function Pattern(len: nat, s: nat, r: nat, m: nat): nat
  {
    Assemble((i: nat) => RunBit(len, s, r, i), 0, Pow2(m))
  }

  // The immediate of a register of Pow2(m) bits, if the fields have one.
  ghost function Immediate(k: nat, m: nat, immn: nat, imms: nat, immr: nat): Option<nat>
    requires imms < Pow2(k)
  {
    var len := Len(k, immn, imms);
    if ValidFields(k, immn, imms) && len <= m then Some(Pattern(len, Low(len, imms), Low(len, immr), m))
    else None
  }

  lemma PatternBits(len: nat, s: nat, r: nat, m: nat)
    ensures Pattern(len, s, r, m) < Pow2(Pow2(m))
    ensures forall i: nat :: i < Pow2(m) ==> Bit(Pattern(len, s, r, m), i) == RunBit(len, s, r, i)
  {
    AssembleBit((i: nat) => RunBit(len, s, r, i), 0, Pow2(m), 0);
    forall i: nat | i < Pow2(m) ensures Bit(Pattern(len, s, r, m), i) == RunBit(len, s, r, i) {
      AssembleBit((i: nat) => RunBit(len, s, r, i), 0, Pow2(m), i);
    }
  }

  // A word with these bits is the pattern.
  lemma IsPattern(x: nat, len: nat, s: nat, r: nat, m: nat)
    requires x < Pow2(Pow2(m))
    requires forall i: nat :: i < Pow2(m) ==> Bit(x, i) == RunBit(len, s, r, i)
    ensures x == Pattern(len, s, r, m)
  {
    PatternBits(len, s, r, m);
    SameBits(Pow2(m), x, Pattern(len, s, r, m));
  }

  // The element size.

  lemma {:induction false} HighestBound(x: nat, n: nat)
    requires x < Pow2(n)
    ensures HighestSetBit(x) < n
    ensures n >= 1 && x >= Pow2(n - 1) ==> HighestSetBit(x) == n - 1
    decreases n
  {
    if x > 0 {
      HighestBound(x / 2, n - 1);
    }
  }

  method CountLeadingZeros(c: nat, word: int) returns (count: nat)
    requires c >= 1 && -(Pow2(c - 1) as int) <= word < Pow2(c - 1)
    ensures count == if word < 0 then 0 else c - 1 - HighestSetBit(word)
  {
    var x := word;
    count := c;
    if x < 0 {
      return 0;
    }
    var i := c - 1;
    while i != 0
      invariant x >= 0 && i >= 0 && x < Pow2(i)
      invariant count == i + 1
      invariant i - HighestSetBit(x) == c - 1 - HighestSetBit(word)
    {
      if x == 0 {
        break;
      }
      count := count - 1;
      x := x / 2;
      i := i - 1;
    }
  }

  // (immn << k) | (~imms & mask), in a word of c bits.
  function LengthWord(c: nat, k: nat, immn: nat, imms: nat): nat
    requires imms < Pow2(c)
  {
    Or(Up(immn, k), And(Not(c, imms), Ones(k)))
  }

  lemma LengthWordIs(c: nat, k: nat, immn: nat, imms: nat)
    requires imms < Pow2(k) && k + 1 < c && immn < 2
    ensures imms < Pow2(c) && HighestSetBit(LengthWord(c, k, immn, imms)) == Len(k, immn, imms)
    ensures LengthWord(c, k, immn, imms) == Up(immn, k) + Not(k, imms) < Pow2(k + 1) <= Pow2(c - 1)
    ensures Len(k, immn, imms) == (if immn == 1 then k else Len(k, 0, imms)) <= k
    ensures immn == 0 ==> Len(k, immn, imms) < k
  {
    hide And, Or, Up, HighestSetBit;
    Pow2Monotone(k, c);
    Pow2Monotone(k + 1, c - 1);
    NotInside(c, k, imms);
    OrDisjoint(immn, k, Not(k, imms));
    UpOfBit(immn, k);
    HighestBound(Up(immn, k) + Not(k, imms), if immn == 1 then k + 1 else k);
  }

  lemma NotInside(c: nat, k: nat, imms: nat)
    requires imms < Pow2(k) && imms < Pow2(c) && k < c
    ensures And(Not(c, imms), Ones(k)) == Not(k, imms)
  {
    hide And, Bit, Low, Pow2;
    AndOnes(k, Not(c, imms));
    LowBit(k, Not(c, imms), 0);
    forall i: nat | i < k ensures Bit(Low(k, Not(c, imms)), i) == Bit(Not(k, imms), i) {
      LowBit(k, Not(c, imms), i);
      NotBit(c, imms, i);
      NotBit(k, imms, i);
    }
    SameBits(k, Low(k, Not(c, imms)), Not(k, imms));
  }

  lemma UpOfBit(b: nat, k: nat)
    requires b < 2
    ensures Up(b, k) == if b == 1 then Pow2(k) else 0
  {
    UpOne(k);
    UpIsTimes(0, k);
  }

  // Rotation and replication.

  lemma SamePosition(i: nat, len: nat, j: nat)
    requires len <= j
    ensures (i + Pow2(j)) % Pow2(len) == i % Pow2(len)
  {
    Pow2Add(len, j - len);
    StepMany(i, Pow2(len), Pow2(j - len));
  }

  lemma StepMany(i: nat, e: nat, m: nat)
    requires e > 0
    ensures (i + e * m) % e == i % e
  {
    DivMod(i, e);
    Distribute(e, i / e, m);
    DivUnique(i + e * m, e, i / e + m, i % e);
  }

  lemma StepOver(i: nat, e: nat)
    requires e > 0
    ensures (i + e) % e == i % e
  {
    DivMod(i, e);
    Distribute(e, i / e, 1);
    DivUnique(i + e, e, i / e + 1, i % e);
  }

  lemma SmallMod(i: nat, e: nat)
    requires i < e
    ensures i % e == i
  {}

  // The bits of one element, wherever it is.
  ghost predicate IsElement(x: nat, len: nat, s: nat, r: nat, n: nat)
  {
    && x < Pow2(n)
    && forall i: nat :: i < n ==> Bit(x, i) == RunBit(len, s, r, i)
  }

  lemma OnesAreARun(len: nat, s: nat)
    requires s < Pow2(len)
    ensures IsElement(Ones(s + 1), len, s, 0, Pow2(len))
  {
    Pow2Monotone(s + 1, Pow2(len));
    forall i: nat | i < Pow2(len) ensures Bit(Ones(s + 1), i) == RunBit(len, s, 0, i) {
      OnesBit(s + 1, i);
      SmallMod(i, Pow2(len));
    }
  }

  // A row of copies of an element of e bits.
  ghost predicate Repeats(x: nat, elt: nat, e: nat, n: nat)
    requires e > 0
  {
    && x < Pow2(n)
    && forall i: nat :: i < n ==> Bit(x, i) == Bit(elt, i % e)
  }

  // Doubling: the row or-ed with itself, one row further up.
  lemma Doubled(x: nat, w: nat, elt: nat, len: nat, j: nat)
    requires len <= j && Pow2(j + 1) <= w
    requires Repeats(x, elt, Pow2(len), Pow2(j))
    ensures Repeats(Or(x, Shl(w, x, Pow2(j))), elt, Pow2(len), Pow2(j + 1))
  {
    var n := Pow2(j);
    var up := Shl(w, x, n);
    ShlIsUp(w, x, n, n);
    Pow2Monotone(n, 2 * n);
    OrBound(2 * n, x, up);
    forall i: nat | i < 2 * n ensures Bit(Or(x, up), i) == Bit(elt, i % Pow2(len)) {
      OrBit(x, up, i);
      ShlBit(w, x, n, i);
      if i >= n {
        BitAbove(n, x, i);
        SamePosition(i - n, len, j);
      }
    }
  }

  lemma OneCopy(elt: nat, e: nat)
    requires e > 0 && elt < Pow2(e)
    ensures Repeats(elt, elt, e, e)
  {
    forall i: nat | i < e ensures Bit(elt, i) == Bit(elt, i % e) {
      SmallMod(i, e);
    }
  }

  lemma InElement(i: nat, r: nat, e: nat, q: nat, t: nat)
    requires e > 0 && t < e && i == e * q + t
    ensures (t + r) % e == (i + r) % e
  {
    StepsApart(t + r, e, q, i + r);
  }

  lemma StepsApart(i: nat, e: nat, m: nat, j: nat)
    requires e > 0 && j == i + e * m
    ensures j % e == i % e
  {
    StepMany(i, e, m);
  }

  lemma RunBitInElement(len: nat, s: nat, r: nat, i: nat)
    ensures i % Pow2(len) < Pow2(len)
    ensures RunBit(len, s, r, i % Pow2(len)) == RunBit(len, s, r, i)
  {
    hide Pow2;
    DivMod(i, Pow2(len));
    InElement(i, r, Pow2(len), i / Pow2(len), i % Pow2(len));
  }

  // A row of copies of one element of an endless row is the beginning of that row.
  lemma RowOfElement(x: nat, elt: nat, len: nat, s: nat, r: nat, n: nat)
    requires Repeats(x, elt, Pow2(len), n) && IsElement(elt, len, s, r, Pow2(len))
    ensures IsElement(x, len, s, r, n)
  {
    hide Bit, Pow2, RunBit;
    forall i: nat | i < n ensures Bit(x, i) == RunBit(len, s, r, i) {
      RunBitInElement(len, s, r, i);
      assert Bit(elt, i % Pow2(len)) == RunBit(len, s, r, i % Pow2(len));
    }
  }

  // The translator.

  // Bit i of the result is bit i % e of the element, whatever the element.
  method BitfieldReplicate(k: nat, mask: nat, len: nat) returns (m: nat)
    requires len <= k && mask < Pow2(Pow2(len))
    ensures Repeats(m, mask, Pow2(len), Pow2(k))
  {
    m := mask;
    OneCopy(mask, Pow2(len));
    var e := Pow2(len);
    ghost var j := len;
    while e < Pow2(k)
      invariant len <= j <= k && e == Pow2(j)
      invariant Repeats(m, mask, Pow2(len), e)
      decreases Pow2(k) - e
    {
      if j == k {
        assert false;
      }
      Pow2Monotone(j + 1, k);
      Doubled(m, Pow2(k), mask, len, j);
      m := Or(m, Shl(Pow2(k), m, e));
      e := 2 * e;
      j := j + 1;
    }
    if j < k {
      Pow2Monotone(j, k);
    }
  }

  method Bitmask64(w: nat, length: nat) returns (mask: nat)
    requires 0 < length <= w
    ensures mask == Ones(length)
  {
    ShrOnes(w, w - length);
    mask := Shr(Ones(w), w - length);
  }

  // One element: s + 1 set bits rotated by r, in a register of w bits.
  method Element(w: nat, len: nat, s: nat, r: nat) returns (mask: nat)
    requires s < Pow2(len) - 1 && r < Pow2(len) <= w
    ensures IsElement(mask, len, s, r, Pow2(len))
  {
    var e := Pow2(len);
    OnesAreARun(len, s);
    mask := Bitmask64(w, s + 1);
    if r != 0 {
      RotatedByShifts(w, len, s, r);
      mask := Or(Shr(mask, r), Shl(w, mask, e - r));
      var all := Bitmask64(w, e);
      mask := And(mask, all);
    }
  }

  // Two shifts or-ed together and masked are a rotation, whatever the element.
  lemma MaskedRotationBit(w: nat, x: nat, e: nat, r: nat, i: nat)
    requires x < Pow2(e) && 0 < r < e <= w && i < e
    ensures var turned := And(Or(Shr(x, r), Shl(w, x, e - r)), Ones(e));
      turned < Pow2(e) && Bit(turned, i) == Bit(x, (i + r) % e)
  {
    var both := Or(Shr(x, r), Shl(w, x, e - r));
    AndBound(both, Ones(e));
    AndBit(both, Ones(e), i);
    OnesBit(e, i);
    OrBit(Shr(x, r), Shl(w, x, e - r), i);
    ShrBit(x, r, i);
    ShlBit(w, x, e - r, i);
    if i >= e - r {
      BitAbove(e, x, i + r);
      StepOver(i + r - e, e);
      SmallMod(i + r - e, e);
    } else {
      SmallMod(i + r, e);
    }
  }

  lemma RotatedByShifts(w: nat, len: nat, s: nat, r: nat)
    requires s < Pow2(len) - 1 && 0 < r < Pow2(len) <= w
    ensures IsElement(And(Or(Shr(Ones(s + 1), r), Shl(w, Ones(s + 1), Pow2(len) - r)), Ones(Pow2(len))),
                      len, s, r, Pow2(len))
  {
    var e := Pow2(len);
    Pow2Monotone(s + 1, e);
    MaskedRotationBit(w, Ones(s + 1), e, r, 0);
    forall i: nat | i < e
      ensures Bit(And(Or(Shr(Ones(s + 1), r), Shl(w, Ones(s + 1), e - r)), Ones(e)), i) == RunBit(len, s, r, i)
    {
      MaskedRotationBit(w, Ones(s + 1), e, r, i);
      OnesBit(s + 1, (i + r) % e);
    }
  }

  // logic_imm_decode_wmask, with clz32 counting in words of c bits.
  method LogicImmDecodeWmask(c: nat, k: nat, immn: nat, imms: nat, immr: nat) returns (result: Option<nat>)
    requires k + 1 < c && immn < 2 && imms < Pow2(k) && immr < Pow2(k)
    ensures result == Immediate(k, k, immn, imms, immr)
  {
    hide And, HighestSetBit, LengthWord, Len, Up, Not, Bit;
    LengthWordIs(c, k, immn, imms);
    var len := HighestSetBit(LengthWord(c, k, immn, imms));
    if len < 1 {
      return None;
    }
    var levels := Ones(len);
    AndOnes(len, imms);
    AndOnes(len, immr);
    LowBit(len, imms, 0);
    LowBit(len, immr, 0);
    var s, r := And(imms, levels), And(immr, levels);
    if s == levels {
      return None;
    }
    Pow2Monotone(len, k);
    var element := Element(Pow2(k), len, s, r);
    var mask := BitfieldReplicate(k, element, len);
    RowOfElement(mask, element, len, s, r, Pow2(k));
    IsPattern(mask, len, s, r, k);
    result := Some(mask);
  }

  // The immediate as disas_logic_imm uses it: a W register (sf clear) takes the low half.
  method TranslatorImmediate(c: nat, k: nat, sf: bool, immn: nat, imms: nat, immr: nat)
    returns (result: Option<nat>)
    requires 1 <= k && k + 1 < c && immn < 2 && imms < Pow2(k) && immr < Pow2(k)
    ensures result == Immediate(k, if sf then k else k - 1, immn, imms, immr)
  {
    LengthWordIs(c, k, immn, imms);
    if !sf && immn == 1 {
      return None;
    }
    result := LogicImmDecodeWmask(c, k, immn, imms, immr);
    if result.Some? && !sf {
      var len := Len(k, immn, imms);
      LowHalf(k, len, Low(len, imms), Low(len, immr));
      AndOnes(Pow2(k - 1), result.value);
      result := Some(And(result.value, Ones(Pow2(k - 1))));
    }
  }

  lemma LowHalf(k: nat, len: nat, s: nat, r: nat)
    requires 1 <= k
    ensures Low(Pow2(k - 1), Pattern(len, s, r, k)) == Pattern(len, s, r, k - 1)
  {
    var whole := Pattern(len, s, r, k);
    PatternBits(len, s, r, k);
    LowBit(Pow2(k - 1), whole, 0);
    forall i: nat | i < Pow2(k - 1) ensures Bit(Low(Pow2(k - 1), whole), i) == RunBit(len, s, r, i) {
      LowBit(Pow2(k - 1), whole, i);
      assert Bit(whole, i) == RunBit(len, s, r, i);
    }
    IsPattern(Low(Pow2(k - 1), whole), len, s, r, k - 1);
  }

  // Capstone.

  function Ror(w: nat, elt: nat, size: nat): nat
    requires size >= 1
  {
    Or(Shl(w, And(elt, 1), size - 1), Shr(elt, 1))
  }

  function RorTimes(w: nat, x: nat, e: nat, r: nat): nat
    requires e >= 1
  {
    if r == 0 then x else Ror(w, RorTimes(w, x, e, r - 1), e)
  }

  // Single-bit steps rotate by as many bits, whatever the element ...
  lemma {:induction false} RorTimesBit(w: nat, x: nat, e: nat, r: nat, i: nat)
    requires 1 <= e <= w && x < Pow2(e) && i < e
    ensures RorTimes(w, x, e, r) < Pow2(e)
    ensures Bit(RorTimes(w, x, e, r), i) == Bit(x, (i + r) % e)
    decreases r
  {
    if r == 0 {
      SmallMod(i, e);
    } else {
      var j := if i < e - 1 then i + 1 else 0;
      RorTimesBit(w, x, e, r - 1, j);
      RorFits(w, RorTimes(w, x, e, r - 1), e);
      RorBit(w, RorTimes(w, x, e, r - 1), e, i);
      if i == e - 1 {
        StepOver(r - 1, e);
        assert r - 1 + e == i + r;
      }
    }
  }

  // ... so they do what the translator's two shifts do.
  lemma RorTimesIsMaskedRotation(w: nat, x: nat, e: nat, r: nat)
    requires x < Pow2(e) && 0 < r < e <= w
    ensures RorTimes(w, x, e, r) == And(Or(Shr(x, r), Shl(w, x, e - r)), Ones(e))
  {
    RorTimesBit(w, x, e, r, 0);
    MaskedRotationBit(w, x, e, r, 0);
    forall i: nat | i < e
      ensures Bit(RorTimes(w, x, e, r), i) == Bit(And(Or(Shr(x, r), Shl(w, x, e - r)), Ones(e)), i)
    {
      RorTimesBit(w, x, e, r, i);
      MaskedRotationBit(w, x, e, r, i);
    }
    SameBits(e, RorTimes(w, x, e, r), And(Or(Shr(x, r), Shl(w, x, e - r)), Ones(e)));
  }

  lemma RorFits(w: nat, x: nat, e: nat)
    requires 1 <= e <= w && x < Pow2(e)
    ensures Ror(w, x, e) < Pow2(e)
  {
    hide And, Or, Shl, Shr, Up;
    AndBound(x, 1);
    ShlIsUp(w, And(x, 1), 1, e - 1);
    ShrFits(e - 1, 1, x);
    Pow2Monotone(e - 1, e);
    OrBound(e, Shl(w, And(x, 1), e - 1), Shr(x, 1));
  }

  lemma RorBit(w: nat, x: nat, e: nat, i: nat)
    requires 1 <= e <= w && x < Pow2(e) && i < e
    ensures Bit(Ror(w, x, e), i) == Bit(x, if i < e - 1 then i + 1 else 0)
  {
    var top := Shl(w, And(x, 1), e - 1);
    OrBit(top, Shr(x, 1), i);
    ShlBit(w, And(x, 1), e - 1, i);
    ShrBit(x, 1, i);
    AndBit(x, 1, 0);
    BitAbove(e, x, e);
  }

  // Register size Pow2(m); val is given by its three fields.
  method IsValidDecodeLogicalImmediate(c: nat, k: nat, m: nat, immn: nat, imms: nat) returns (valid: bool)
    requires k + 1 < c && immn < 2 && imms < Pow2(k) && (m == k || m == k - 1)
    ensures valid == (ValidFields(k, immn, imms) && Len(k, immn, imms) <= m)
  {
    hide And, HighestSetBit, LengthWord, Len, Up, Not, Bit;
    LengthWordIs(c, k, immn, imms);
    if m == k - 1 && immn != 0 {
      return false;
    }
    var clz := CountLeadingZeros(c, LengthWord(c, k, immn, imms));
    var len := c - 1 - clz;
    if len < 0 {
      return false;
    }
    var size := Pow2(len);
    AndOnes(len, imms);
    var s := And(imms, size - 1);
    if s == size - 1 {
      return false;
    }
    assert len == 0 ==> s == 0;
    return true;
  }

  method DecodeLogicalImmediate(c: nat, k: nat, m: nat, immn: nat, imms: nat, immr: nat) returns (pattern: nat)
    requires k + 1 < c && immn < 2 && imms < Pow2(k) && immr < Pow2(k) && m <= k
    requires ValidFields(k, immn, imms) && Len(k, immn, imms) <= m
    ensures Immediate(k, m, immn, imms, immr) == Some(pattern)
  {
    hide And, Low, HighestSetBit, LengthWord, Shl;
    LengthWordIs(c, k, immn, imms);
    var clz := CountLeadingZeros(c, LengthWord(c, k, immn, imms));
    var len := c - 1 - clz;
    var size := Pow2(len);
    AndOnes(len, imms);
    AndOnes(len, immr);
    var r, s := And(immr, size - 1), And(imms, size - 1);
    LowBit(len, imms, 0);
    Pow2Monotone(len, k);
    var element := RotateElement(Pow2(k), len, s, r);
    pattern := FillRegister(k, m, len, element);
    RowOfElement(pattern, element, len, s, r, Pow2(m));
    IsPattern(pattern, len, s, r, m);
  }

  method RotateElement(w: nat, len: nat, s: nat, r: nat) returns (pattern: nat)
    requires s < Pow2(len) - 1 && Pow2(len) <= w
    ensures pattern == RorTimes(w, Ones(s + 1), Pow2(len), r)
    ensures IsElement(pattern, len, s, r, Pow2(len))
  {
    ShlIsUp(w, 1, 1, s + 1);
    UpOne(s + 1);
    pattern := Shl(w, 1, s + 1) - 1;
    for i := 0 to r
      invariant pattern == RorTimes(w, Ones(s + 1), Pow2(len), i)
    {
      pattern := Ror(w, pattern, Pow2(len));
    }
    RotatedRun(w, len, s, r);
  }

  lemma RotatedRun(w: nat, len: nat, s: nat, r: nat)
    requires s < Pow2(len) - 1 && Pow2(len) <= w
    ensures IsElement(RorTimes(w, Ones(s + 1), Pow2(len), r), len, s, r, Pow2(len))
  {
    var e, run := Pow2(len), Ones(s + 1);
    Pow2Monotone(s + 1, e);
    RorTimesBit(w, run, e, r, 0);
    forall i: nat | i < e ensures Bit(RorTimes(w, run, e, r), i) == RunBit(len, s, r, i) {
      RorTimesBit(w, run, e, r, i);
      OnesBit(s + 1, (i + r) % e);
    }
  }

  // Any element fills the register.
  method FillRegister(k: nat, m: nat, len: nat, element: nat) returns (pattern: nat)
    requires len <= m <= k && element < Pow2(Pow2(len))
    ensures Repeats(pattern, element, Pow2(len), Pow2(m))
  {
    pattern := element;
    OneCopy(element, Pow2(len));
    var size := Pow2(len);
    ghost var j := len;
    while size != Pow2(m)
      invariant len <= j <= m && size == Pow2(j)
      invariant Repeats(pattern, element, Pow2(len), size)
      decreases m - j
    {
      Pow2Monotone(j + 1, k);
      Doubled(pattern, Pow2(k), element, len, j);
      pattern := Or(pattern, Shl(Pow2(k), pattern, size));
      size := 2 * size;
      j := j + 1;
    }
    if j < m {
      Pow2Monotone(j, m);
    }
  }

  // The two decoders side by side: for all fields and both register sizes they accept the same and
  // return the same, which is what the manual says.
  method DecodeBoth(c: nat, k: nat, sf: bool, immn: nat, imms: nat, immr: nat)
    returns (translated: Option<nat>, shown: Option<nat>)
    requires 1 <= k && k + 1 < c && immn < 2 && imms < Pow2(k) && immr < Pow2(k)
    ensures translated == shown == Immediate(k, if sf then k else k - 1, immn, imms, immr)
  {
    var m := if sf then k else k - 1;
    translated := TranslatorImmediate(c, k, sf, immn, imms, immr);
    var valid := IsValidDecodeLogicalImmediate(c, k, m, immn, imms);
    shown := None;
    if valid {
      var pattern := DecodeLogicalImmediate(c, k, m, immn, imms, immr);
      shown := Some(pattern);
    }
  }
}

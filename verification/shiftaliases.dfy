// What the assembler's names for the bitfield instructions promise: shifts and extensions as
// arithmetic on the numbers in the registers.
module ShiftAliases {
  import opened Arithmetic
  import opened Bits
  import opened Tcg
  import opened Bitfields
  import LogicalImmediates
  import opened RoundingShifts

  // LSR: unsigned division by a power of two.
  lemma UbfmIsLsr(n: nat, src: nat, dst: nat, r: nat)
    requires r < n
    ensures BitfieldMove(2, n, src, dst, r, n - 1) == Low(n, src) / Pow2(r)
  {
    hide Bit, Shr, Low, Pow2;
    var x := Low(n, src);
    LowBit(n, src, 0);
    ShrFits(n - r, r, x);
    Pow2Monotone(n - r, n);
    forall i: nat | i < n ensures Bit(Shr(x, r), i) == BitfieldBit(2, n, src, dst, r, n - 1, i) {
      ShrBit(x, r, i);
      LowBit(n, src, i + r);
    }
    IsBitfieldMove(Shr(x, r), 2, n, src, dst, r, n - 1);
    ShrIsDiv(x, r);
  }

  // LSL: multiplication by a power of two, modulo the width.
  lemma UbfmIsLsl(n: nat, src: nat, dst: nat, k: nat)
    requires 0 < k < n
    ensures BitfieldMove(2, n, src, dst, n - k, n - 1 - k) == src * Pow2(k) % Pow2(n)
  {
    ShlBit(n, src, k, 0);
    forall i: nat | i < n
      ensures Bit(Shl(n, src, k), i) == BitfieldBit(2, n, src, dst, n - k, n - 1 - k, i)
    {
      ShlBit(n, src, k, i);
    }
    IsBitfieldMove(Shl(n, src, k), 2, n, src, dst, n - k, n - 1 - k);
    UpIsTimes(src, k);
    LowIsMod(n, Up(src, k));
  }

  // ASR: signed division by a power of two, rounding towards minus infinity.
  lemma SbfmIsAsr(n: nat, src: nat, dst: nat, r: nat)
    requires 0 < r < n
    ensures var x := BitfieldMove(0, n, src, dst, r, n - 1);
      && Low(n, src) < Pow2(n) && x < Pow2(n)
      && SInt(n, x) == SInt(n, Low(n, src)) / Pow2(r)
  {
    var x := Low(n, src);
    LowBit(n, src, 0);
    LowBit(n, src, n - 1);
    SarIs(n, x, r);
    forall i: nat | i < n ensures Bit(Sar(n, x, r), i) == BitfieldBit(0, n, src, dst, r, n - 1, i) {
      SarBit(n, x, r, i);
      LowBit(n, src, i + r);
    }
    IsBitfieldMove(Sar(n, x, r), 0, n, src, dst, r, n - 1);
    SmallerQuotient(n, SInt(n, x), r);
  }

  lemma SarBit(n: nat, x: nat, k: nat, i: nat)
    requires 0 < k < n && x < Pow2(n) && i < n
    ensures Bit(Sar(n, x, k), i) == Bit(x, if i + k < n then i + k else n - 1)
  {
    ShrBit(x, k, i);
    ShlBit(n, Ones(n), n - k, i);
    OrBit(Shr(x, k), Shl(n, Ones(n), n - k), i);
    if i + k >= n {
      BitAbove(n, x, i + k);
      OnesBit(n, i - (n - k));
    }
  }

  // Dividing a signed number keeps it in range, so that its word stands for it.

  lemma DivideRange(v: int, d: int, b: int)
    requires d >= 1 && b >= 1 && -b <= v < b
    ensures -b <= v / d < b
  {
    var q := v / d;
    Distribute(d, q, -1);
    if q >= b {
      MulPositive(q, d);
    } else if q < -b {
      MulPositive(-(q + 1), d);
    }
  }

  lemma SmallerQuotient(n: nat, v: int, k: nat)
    requires 0 < k < n && -(Pow2(n - 1) as int) <= v < Pow2(n - 1)
    ensures var w := Wrapped(n, v / Pow2(k));
      0 <= w < Pow2(n) && SInt(n, w) == v / Pow2(k)
  {
    DivideRange(v, Pow2(k), Pow2(n - 1));
  }

  // UXTB, UXTH and the like.
  lemma UbfmIsZeroExtend(n: nat, src: nat, dst: nat, s: nat)
    requires s < n
    ensures BitfieldMove(2, n, src, dst, 0, s) == src % Pow2(s + 1)
  {
    UnsignedExtraction(n, src, dst, 0, s);
    LowIsMod(s + 1, src);
  }

  // SXTB, SXTH and SXTW: the low bits read as a signed number.
  lemma SbfmIsSignExtend(n: nat, src: nat, dst: nat, s: nat)
    requires s < n
    ensures var x := BitfieldMove(0, n, src, dst, 0, s);
      && x < Pow2(n) && Low(s + 1, src) < Pow2(s + 1)
      && SInt(n, x) == SInt(s + 1, Low(s + 1, src))
  {
    hide Bit, Shl, Or, Low;
    var field := Low(s + 1, src);
    var sign := Bit(src, s);
    LowBit(s + 1, src, s);
    TopBit(s + 1, field);
    Pow2Monotone(s + 1, n);
    Pow2Monotone(s, n - 1);
    ShlOnes(n, s + 1);
    var x := if sign then Or(field, Shl(n, Ones(n), s + 1)) else field;
    Together(n, Ones(n), field, s + 1);
    forall i: nat | i < n ensures Bit(x, i) == BitfieldBit(0, n, src, dst, 0, s, i) {
      LowBit(s + 1, src, i);
      OrBit(field, Shl(n, Ones(n), s + 1), i);
      ShlBit(n, Ones(n), s + 1, i);
      if i > s {
        OnesBit(n, i - (s + 1));
      }
    }
    IsBitfieldMove(x, 0, n, src, dst, 0, s);
  }

  // The bits a bitfield instruction takes from its rotated source are those of the mask that
  // the same fields give as an immediate.
  lemma SelectionIsMask(m: nat, s: nat, r: nat, i: nat)
    requires r < Pow2(m) && i < Pow2(m)
    ensures Turned(Pow2(m), i, r) <= s <==> Bit(LogicalImmediates.Pattern(m, s, r, m), i)
  {
    LogicalImmediates.PatternBits(m, s, r, m);
    if i + r < Pow2(m) {
      LogicalImmediates.SmallMod(i + r, Pow2(m));
    } else {
      LogicalImmediates.StepOver(i + r - Pow2(m), Pow2(m));
      LogicalImmediates.SmallMod(i + r - Pow2(m), Pow2(m));
    }
  }
}

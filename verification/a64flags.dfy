// The A64 condition flags: addition, subtraction, addition with carry, conditional compare.
module A64Flags {
  import opened Arithmetic
  import opened Bits
  import opened Tcg

  datatype Nzcv = Nzcv(n: bool, z: bool, c: bool, v: bool)

  datatype Sum = Sum(result: nat, flags: Nzcv)

  // AddWithCarry() of the Arm Architecture Reference Manual, Appendix J1: the sum is taken
  // once as a sum of unsigned numbers and once as a sum of signed numbers.
  function AddWithCarry(n: nat, x: nat, y: nat, carry: nat): (s: Sum)
    requires n >= 1 && x < Pow2(n) && y < Pow2(n) && carry <= 1
    ensures s.result < Pow2(n)
  {
    var unsignedSum := x + y + carry;
    var signedSum := SInt(n, x) + SInt(n, y) + carry;
    var result := if unsignedSum < Pow2(n) then unsignedSum else unsignedSum - Pow2(n);
    Sum(result, Nzcv(SInt(n, result) < 0, result == 0, result != unsignedSum, SInt(n, result) != signedSum))
  }

  // ConditionHolds() of the same appendix.
  function ConditionHolds(cond: nat, f: Nzcv): bool
    requires cond < 16
  {
    var base :=
      match cond / 2
      case 0 => f.z
      case 1 => f.c
      case 2 => f.n
      case 3 => f.v
      case 4 => f.c && !f.z
      case 5 => f.n == f.v
      case 6 => f.n == f.v && !f.z
      case _ => true;
    if cond % 2 == 1 && cond != 15 then !base else base
  }

  function FlagsOf(nzcv: nat): Nzcv
  {
    Nzcv(Bit(nzcv, 3), Bit(nzcv, 2), Bit(nzcv, 1), Bit(nzcv, 0))
  }

  // Overflow shows in the sign bits alone: the operands agree in sign and the sum does not.
  lemma OverflowFromSigns(n: nat, x: nat, y: nat, carry: nat)
    requires n >= 1 && x < Pow2(n) && y < Pow2(n) && carry <= 1
    ensures var s := AddWithCarry(n, x, y, carry);
      s.flags.v <==> (Bit(s.result, n - 1) != Bit(x, n - 1) && Bit(x, n - 1) == Bit(y, n - 1))
    ensures AddWithCarry(n, x, y, carry).flags.n == Bit(AddWithCarry(n, x, y, carry).result, n - 1)
  {
    TopBit(n, x);
    TopBit(n, y);
    TopBit(n, AddWithCarry(n, x, y, carry).result);
  }

  // What the emitted words say about the sum r: N in the top bit of r, V in the top bit of flag.
  function SumOf(n: nat, r: nat, carry: nat, flag: nat): Sum
    requires n >= 1
  {
    Sum(r, Nzcv(Bit(r, n - 1), r == 0, carry == 1, Bit(flag, n - 1)))
  }

  lemma AddMeets(n: nat, x: nat, y: nat)
    requires n >= 1 && x < Pow2(n) && y < Pow2(n)
    ensures var (r, carry) := Add2(n, x, 0, y, 0);
      && carry <= 1
      && SumOf(n, r, carry, AndC(Xor(r, x), Xor(x, y))) == AddWithCarry(n, x, y, 0)
  {
    SignsOfDifference(n, Add(n, x, y), x, y);
    OverflowFromSigns(n, x, y, 0);
  }

  lemma SubMeets(n: nat, x: nat, y: nat)
    requires n >= 1 && x < Pow2(n) && y < Pow2(n)
    ensures var r := Sub(n, x, y);
      SumOf(n, r, SetcondGeu(x, y), And(Xor(r, x), Xor(x, y))) == AddWithCarry(n, x, Not(n, y), 1)
  {
    SignsOfDifference(n, Sub(n, x, y), x, y);
    NotBit(n, y, n - 1);
    OverflowFromSigns(n, x, Not(n, y), 1);
  }

  // The carry is added first; of the two additions at most one overflows.
  lemma TwoStepSum(n: nat, x: nat, y: nat, c: nat)
    requires n >= 1 && x < Pow2(n) && y < Pow2(n) && c <= 1
    ensures c < Pow2(n)
    ensures var (partial, c1) := Add2(n, x, 0, c, 0);
      Add2(n, partial, c1, y, 0) == (if x + y + c < Pow2(n) then (x + y + c, 0) else (x + y + c - Pow2(n), 1))
  {
    if x + c < Pow2(n) {
      assert Add2(n, x, 0, c, 0) == (x + c, 0);
    } else {
      assert Add2(n, x, 0, c, 0) == (0, 1);
    }
  }

  lemma AdcMeets(n: nat, x: nat, y: nat, c: nat)
    requires n >= 1 && x < Pow2(n) && y < Pow2(n) && c <= 1
    ensures c < Pow2(n)
    ensures var (partial, c1) := Add2(n, x, 0, c, 0);
      var (r, c2) := Add2(n, partial, c1, y, 0);
      && c2 <= 1
      && SumOf(n, r, c2, AndC(Xor(r, x), Xor(x, y))) == AddWithCarry(n, x, y, c)
  {
    TwoStepSum(n, x, y, c);
    SignsOfDifference(n, AddWithCarry(n, x, y, c).result, x, y);
    OverflowFromSigns(n, x, y, c);
  }

  // The flag state of the translator.  w is the width of a flag register (32); an X register
  // is twice as wide.  N and V live in a top bit, Z means "ZF is zero", C is 0 or 1.
  class FlagState {
    const w: nat
    var NF: nat
    var ZF: nat
    var CF: nat
    var VF: nat

    constructor (width: nat)
      requires width >= 1
      ensures Valid() && w == width
    {
      w, NF, ZF, CF, VF := width, 0, 0, 0, 0;
    }

    ghost predicate Valid()
      reads this
    {
      w >= 1 && NF < Pow2(w) && ZF < Pow2(w) && CF <= 1 && VF < Pow2(w)
    }

    // The architectural flags the registers stand for.
    function Flags(): Nzcv
      requires Valid()
      reads this
    {
      Nzcv(Bit(NF, w - 1), ZF == 0, CF == 1, Bit(VF, w - 1))
    }

    method SetNZ64(result: nat)
      requires w >= 1 && result < Pow2(2 * w)
      modifies this`NF, this`ZF
      ensures NF < Pow2(w) && ZF < Pow2(w)
      ensures Bit(NF, w - 1) == Bit(result, 2 * w - 1) && (ZF == 0 <==> result == 0)
    {
      HalvesFit(w, result);
      HalvesZero(w, result);
      OrBound(w, Low(w, result), Shr(result, w));
      OrZero(Low(w, result), Shr(result, w));
      ZF, NF := Low(w, result), Shr(result, w);
      ZF := Or(ZF, NF);
    }

    // The flags C and V of a 64-bit operation, from its carry and its overflow word.
    method SetCV64(carry: nat, flag: nat)
      requires w >= 1 && carry <= 1 && flag < Pow2(2 * w)
      modifies this`CF, this`VF
      ensures CF == carry && VF < Pow2(w) && Bit(VF, w - 1) == Bit(flag, 2 * w - 1)
    {
      LowOfFlag(w, carry);
      HalvesFit(w, flag);
      CF := Low(w, carry);
      VF := Shr(flag, w);
    }

    method AddCC64(t0: nat, t1: nat) returns (dest: nat)
      requires Valid() && t0 < Pow2(2 * w) && t1 < Pow2(2 * w)
      modifies this
      ensures Valid() && Sum(dest, Flags()) == AddWithCarry(2 * w, t0, t1, 0)
    {
      AddMeets(2 * w, t0, t1);
      SignsOfDifference(2 * w, Add(2 * w, t0, t1), t0, t1);
      var (result, flag) := Add2(2 * w, t0, 0, t1, 0);
      SetNZ64(result);
      SetCV64(flag, AndC(Xor(result, t0), Xor(t0, t1)));
      dest := result;
    }

    method AddCC32(x: nat, y: nat) returns (dest: nat)
      requires Valid() && x < Pow2(w) && y < Pow2(w)
      modifies this
      ensures Valid() && Sum(dest, Flags()) == AddWithCarry(w, x, y, 0)
    {
      AddMeets(w, x, y);
      var (low, carry) := Add2(w, x, 0, y, 0);
      NF, CF := low, carry;
      SignsOfDifference(w, NF, x, y);
      ZF := NF;
      VF := AndC(Xor(NF, x), Xor(x, y));
      dest := NF;
    }

    method SubCC64(t0: nat, t1: nat) returns (dest: nat)
      requires Valid() && t0 < Pow2(2 * w) && t1 < Pow2(2 * w)
      modifies this
      ensures Valid() && Sum(dest, Flags()) == AddWithCarry(2 * w, t0, Not(2 * w, t1), 1)
    {
      SubMeets(2 * w, t0, t1);
      var result := Sub(2 * w, t0, t1);
      SignsOfDifference(2 * w, result, t0, t1);
      SetNZ64(result);
      SetCV64(SetcondGeu(t0, t1), And(Xor(result, t0), Xor(t0, t1)));
      dest := result;
    }

    method SubCC32(x: nat, y: nat) returns (dest: nat)
      requires Valid() && x < Pow2(w) && y < Pow2(w)
      modifies this
      ensures Valid() && Sum(dest, Flags()) == AddWithCarry(w, x, Not(w, y), 1)
    {
      SubMeets(w, x, y);
      NF := Sub(w, x, y);
      SignsOfDifference(w, NF, x, y);
      ZF := NF;
      CF := SetcondGeu(x, y);
      VF := And(Xor(NF, x), Xor(x, y));
      dest := NF;
    }

    method AdcCC64(t0: nat, t1: nat) returns (dest: nat)
      requires Valid() && t0 < Pow2(2 * w) && t1 < Pow2(2 * w)
      modifies this
      ensures Valid() && Sum(dest, Flags()) == AddWithCarry(2 * w, t0, t1, old(CF))
    {
      AdcMeets(2 * w, t0, t1, CF);
      var (partial, cf) := Add2(2 * w, t0, 0, CF, 0);
      var (result, cf') := Add2(2 * w, partial, cf, t1, 0);
      SignsOfDifference(2 * w, result, t0, t1);
      SetNZ64(result);
      SetCV64(cf', AndC(Xor(result, t0), Xor(t0, t1)));
      dest := result;
    }

    method AdcCC32(x: nat, y: nat) returns (dest: nat)
      requires Valid() && x < Pow2(w) && y < Pow2(w)
      modifies this
      ensures Valid() && Sum(dest, Flags()) == AddWithCarry(w, x, y, old(CF))
    {
      AdcMeets(w, x, y, CF);
      var (partial, cf) := Add2(w, x, 0, CF, 0);
      var (low, cf') := Add2(w, partial, cf, y, 0);
      NF, CF := low, cf';
      SignsOfDifference(w, NF, x, y);
      ZF := NF;
      VF := AndC(Xor(NF, x), Xor(x, y));
      dest := NF;
    }

    // dest = t0 + t1.
    method AddCC(sf: bool, t0: nat, t1: nat) returns (dest: nat)
      requires Valid() && t0 < Pow2(2 * w) && t1 < Pow2(2 * w)
      modifies this
      ensures Valid() && Sum(dest, Flags()) == Adding(w, sf, t0, t1, 0)
    {
      OperandFits(w, sf, t0);
      OperandFits(w, sf, t1);
      if sf {
        dest := AddCC64(t0, t1);
      } else {
        dest := AddCC32(Low(w, t0), Low(w, t1));
      }
    }

    // dest = t0 - t1.
    method SubCC(sf: bool, t0: nat, t1: nat) returns (dest: nat)
      requires Valid() && t0 < Pow2(2 * w) && t1 < Pow2(2 * w)
      modifies this
      ensures Valid() && Sum(dest, Flags()) == Subtracting(w, sf, t0, t1)
    {
      OperandFits(w, sf, t0);
      OperandFits(w, sf, t1);
      if sf {
        dest := SubCC64(t0, t1);
      } else {
        dest := SubCC32(Low(w, t0), Low(w, t1));
      }
    }

    // dest = t0 + t1 + CF.
    method AdcCC(sf: bool, t0: nat, t1: nat) returns (dest: nat)
      requires Valid() && t0 < Pow2(2 * w) && t1 < Pow2(2 * w)
      modifies this
      ensures Valid() && Sum(dest, Flags()) == Adding(w, sf, t0, t1, old(CF))
    {
      OperandFits(w, sf, t0);
      OperandFits(w, sf, t1);
      if sf {
        dest := AdcCC64(t0, t1);
      } else {
        dest := AdcCC32(Low(w, t0), Low(w, t1));
      }
    }

    // A flag register cleared where the mask t1 is all ones, for hosts with and without ANDC.
    method Clear(hasAndc: bool, flag: nat, t1: nat, t2: nat) returns (r: nat)
      requires flag < Pow2(w)
      requires (t1 == 0 && t2 == Pow2(w) - 1) || (t1 == Pow2(w) - 1 && t2 == 0)
      ensures r == if t1 == 0 then flag else 0
    {
      MaskedByT1(w, flag);
      if hasAndc {
        r := AndC(flag, t1);
      } else {
        r := And(flag, t2);
      }
    }

    // The flags forced to nzcv where t0 is 1.
    method ForceFlags(hasAndc: bool, nzcv: nat, t0: nat)
      requires Valid() && t0 <= 1
      modifies this
      ensures Valid() && Flags() == if t0 == 1 then FlagsOf(nzcv) else old(Flags())
    {
      Masks(w, t0);
      SignIsForced(w, NF);
      SignIsForced(w, VF);
      ForcedZ(w, ZF, t0);
      ForcedC(CF, t0);
      var t1, t2 := Neg(w, t0), Sub(w, t0, 1);
      var cleared := Clear(hasAndc, NF, t1, t2);
      NF := if Bit(nzcv, 3) then Or(NF, t1) else cleared;
      cleared := Clear(hasAndc, ZF, t1, t2);
      ZF := if Bit(nzcv, 2) then cleared else Or(ZF, t0);
      cleared := Clear(hasAndc, CF, t1, t2);
      CF := if Bit(nzcv, 1) then Or(CF, t0) else cleared;
      cleared := Clear(hasAndc, VF, t1, t2);
      VF := if Bit(nzcv, 0) then Or(VF, t1) else cleared;
    }

    // Conditional compare: SUBS or ADDS if cond holds of the flags before, else the flags nzcv.
    method ConditionalCompare(hasAndc: bool, sf: bool, subtract: bool, cond: nat, nzcv: nat, rn: nat, y: nat)
      requires Valid() && rn < Pow2(2 * w) && y < Pow2(2 * w) && cond < 16
      modifies this
      ensures Valid()
      ensures Flags() ==
              if !ConditionHolds(cond, old(Flags())) then FlagsOf(nzcv)
              else if subtract then Subtracting(w, sf, rn, y).flags
              else Adding(w, sf, rn, y, 0).flags
    {
      var t0 := if ConditionHolds(cond, Flags()) then 0 else 1;
      var scratch;
      if subtract {
        scratch := SubCC(sf, rn, y);
      } else {
        scratch := AddCC(sf, rn, y);
      }
      ForceFlags(hasAndc, nzcv, t0);
    }
  }

  // The two operations at the width sf selects: X registers, or the low halves of them.
  function Adding(w: nat, sf: bool, t0: nat, t1: nat, carry: nat): Sum
    requires w >= 1 && t0 < Pow2(2 * w) && t1 < Pow2(2 * w) && carry <= 1
  {
    if sf then AddWithCarry(2 * w, t0, t1, carry)
    else
      LowBit(w, t0, 0);
      LowBit(w, t1, 0);
      AddWithCarry(w, Low(w, t0), Low(w, t1), carry)
  }

  function Subtracting(w: nat, sf: bool, t0: nat, t1: nat): Sum
    requires w >= 1 && t0 < Pow2(2 * w) && t1 < Pow2(2 * w)
  {
    if sf then AddWithCarry(2 * w, t0, Not(2 * w, t1), 1)
    else
      LowBit(w, t0, 0);
      LowBit(w, t1, 0);
      AddWithCarry(w, Low(w, t0), Not(w, Low(w, t1)), 1)
  }

  // In numbers: the sum or the difference modulo the width sf selects, of which a W register keeps
  // nothing above its low half.
  lemma SumIs(w: nat, sf: bool, t0: nat, t1: nat, carry: nat)
    requires w >= 1 && t0 < Pow2(2 * w) && t1 < Pow2(2 * w) && carry <= 1
    ensures var m := if sf then Pow2(2 * w) else Pow2(w);
      Adding(w, sf, t0, t1, carry).result == (t0 % m + t1 % m + carry) % m
  {
    hide AddWithCarry, Low, Pow2;
    var n := if sf then 2 * w else w;
    ReducedTo(n, t0);
    ReducedTo(n, t1);
    SumWraps(n, t0 % Pow2(n), t1 % Pow2(n), carry);
  }

  lemma DifferenceIs(w: nat, sf: bool, t0: nat, t1: nat)
    requires w >= 1 && t0 < Pow2(2 * w) && t1 < Pow2(2 * w)
    ensures var m := if sf then Pow2(2 * w) else Pow2(w);
      Subtracting(w, sf, t0, t1).result == (t0 % m - t1 % m) % m
  {
    hide AddWithCarry, Low, Pow2;
    var n := if sf then 2 * w else w;
    ReducedTo(n, t0);
    ReducedTo(n, t1);
    DifferenceWraps(n, t0 % Pow2(n), t1 % Pow2(n));
  }

  lemma SumWraps(n: nat, x: nat, y: nat, carry: nat)
    requires n >= 1 && x < Pow2(n) && y < Pow2(n) && carry <= 1
    ensures AddWithCarry(n, x, y, carry).result == (x + y + carry) % Pow2(n)
  {
    WrapsOnce(x + y + carry, Pow2(n));
  }

  lemma DifferenceWraps(n: nat, x: nat, y: nat)
    requires n >= 1 && x < Pow2(n) && y < Pow2(n)
    ensures AddWithCarry(n, x, Not(n, y), 1).result == (x - y) % Pow2(n)
  {
    WrapsOnce(x - y, Pow2(n));
  }

  lemma ReducedTo(n: nat, x: nat)
    ensures Low(n, x) == x % Pow2(n) < Pow2(n)
    ensures x < Pow2(n) ==> x % Pow2(n) == x
  {
    LowIsMod(n, x);
    if x < Pow2(n) {
      DivUnique(x, Pow2(n), 0, x);
    }
  }

  lemma WrapsOnce(x: int, m: nat)
    requires m > 0 && 0 - m < x < 2 * m
    ensures x % m == if x < 0 then x + m else if x < m then x else x - m
  {
    if x < 0 {
      DivUnique(x, m, -1, x + m);
    } else if x < m {
      DivUnique(x, m, 0, x);
    } else {
      DivUnique(x, m, 1, x - m);
    }
  }

  // What the conditions say after a comparison of x with y.
  lemma ConditionMeans(n: nat, x: nat, y: nat)
    requires n >= 1 && x < Pow2(n) && y < Pow2(n)
    ensures var f := AddWithCarry(n, x, Not(n, y), 1).flags;
      var d := SInt(n, x) - SInt(n, y);
      && (ConditionHolds(0, f) <==> x == y) && (ConditionHolds(1, f) <==> x != y)
      && (ConditionHolds(2, f) <==> x >= y) && (ConditionHolds(3, f) <==> x < y)
      && (ConditionHolds(4, f) <==> SInt(n, (x - y) % Pow2(n)) < 0)
      && (ConditionHolds(5, f) <==> SInt(n, (x - y) % Pow2(n)) >= 0)
      && (ConditionHolds(6, f) <==> !(0 <= d + Pow2(n - 1) < Pow2(n)))
      && (ConditionHolds(7, f) <==> 0 <= d + Pow2(n - 1) < Pow2(n))
      && (ConditionHolds(8, f) <==> x > y) && (ConditionHolds(9, f) <==> x <= y)
      && (ConditionHolds(10, f) <==> SInt(n, x) >= SInt(n, y)) && (ConditionHolds(11, f) <==> SInt(n, x) < SInt(n, y))
      && (ConditionHolds(12, f) <==> SInt(n, x) > SInt(n, y)) && (ConditionHolds(13, f) <==> SInt(n, x) <= SInt(n, y))
      && ConditionHolds(14, f) && ConditionHolds(15, f)
  {
    WrapsOnce(x - y, Pow2(n));
  }

  lemma OperandFits(w: nat, sf: bool, t: nat)
    requires t < Pow2(2 * w)
    ensures Low(w, t) < Pow2(w)
  {
    LowBit(w, t, 0);
  }

  lemma HalvesFit(w: nat, x: nat)
    requires x < Pow2(2 * w)
    ensures Low(w, x) < Pow2(w) && Shr(x, w) < Pow2(w)
    ensures w >= 1 ==> Bit(Shr(x, w), w - 1) == Bit(x, 2 * w - 1)
  {
    LowBit(w, x, 0);
    ShrFits(w, w, x);
    if w >= 1 {
      ShrBit(x, w, w - 1);
    }
  }

  lemma {:induction false} HalvesZero(w: nat, x: nat)
    ensures Low(w, x) == 0 && Shr(x, w) == 0 <==> x == 0
    decreases w
  {
    if w > 0 {
      HalvesZero(w - 1, x / 2);
    }
  }

  // The masks T1 and T2, and what they do to a word.
  lemma Masks(w: nat, t0: nat)
    requires w >= 1 && t0 <= 1
    ensures 1 < Pow2(w)
    ensures Neg(w, t0) == (if t0 == 1 then Pow2(w) - 1 else 0)
    ensures Sub(w, t0, 1) == (if t0 == 1 then 0 else Pow2(w) - 1)
  {}

  lemma {:induction false} MaskedByT1(n: nat, x: nat)
    requires x < Pow2(n)
    ensures AndC(x, Pow2(n) - 1) == 0 && AndC(x, 0) == x
    ensures And(x, 0) == 0 && And(x, Pow2(n) - 1) == x
  {
    if x != 0 {
      MaskedByT1(n - 1, x / 2);
      assert (Pow2(n) - 1) / 2 == Pow2(n - 1) - 1;
    }
  }

  lemma ForcedZ(w: nat, zf: nat, t0: nat)
    requires w >= 1 && zf < Pow2(w) && t0 <= 1
    ensures Or(zf, t0) < Pow2(w) && (if t0 == 1 then Or(zf, t0) != 0 else Or(zf, t0) == zf)
  {
    OrBound(w, zf, t0);
    OrZero(zf, t0);
  }

  lemma ForcedC(cf: nat, t0: nat)
    requires cf <= 1 && t0 <= 1
    ensures Or(cf, t0) == if t0 == 1 then 1 else cf
  {}

  predicate SignForced(w: nat, x: nat)
    requires w >= 1
  {
    Or(x, Pow2(w) - 1) < Pow2(w) && Bit(Or(x, Pow2(w) - 1), w - 1) && !Bit(0, w - 1) && Or(x, 0) == x
  }

  lemma SignIsForced(w: nat, x: nat)
    requires w >= 1 && x < Pow2(w)
    ensures SignForced(w, x)
  {
    OrBound(w, x, Pow2(w) - 1);
    TopBit(w, Pow2(w) - 1);
    BitOfZero(w - 1);
    OrBit(x, Pow2(w) - 1, w - 1);
  }

  lemma LowOfFlag(w: nat, flag: nat)
    requires w >= 1 && flag <= 1
    ensures Low(w, flag) == flag
  {
    LowOfSmall(w, flag);
  }

  // The two overflow words, bit n - 1.
  lemma SignsOfDifference(n: nat, result: nat, x: nat, y: nat)
    requires n >= 1 && result < Pow2(n) && x < Pow2(n) && y < Pow2(n)
    ensures AndC(Xor(result, x), Xor(x, y)) < Pow2(n) && And(Xor(result, x), Xor(x, y)) < Pow2(n)
    ensures Bit(AndC(Xor(result, x), Xor(x, y)), n - 1) ==
            (Bit(result, n - 1) != Bit(x, n - 1) && Bit(x, n - 1) == Bit(y, n - 1))
    ensures Bit(And(Xor(result, x), Xor(x, y)), n - 1) ==
            (Bit(result, n - 1) != Bit(x, n - 1) && Bit(x, n - 1) != Bit(y, n - 1))
  {
    XorBit(result, x, n - 1);
    XorBit(x, y, n - 1);
    XorBound(n, result, x);
    AndBound(Xor(result, x), Xor(x, y));
    AndBit(Xor(result, x), Xor(x, y), n - 1);
    AndCBit(Xor(result, x), Xor(x, y), n - 1);
  }
}

// The vector right shifts of A64 with optional rounding and accumulation:
// SSHR, USHR, SSRA, USRA, SRSHR, URSHR, SRSRA and URSRA.
module RoundingShifts {
  import opened Arithmetic
  import opened Bits
  import opened Tcg
  import opened Wrappers

  // The number an element stands for.
  function Value(n: nat, isU: bool, x: nat): int
    requires n >= 1 && x < Pow2(n)
  {
    if isU then x else SInt(n, x)
  }

  // The word of n bits for a number just outside the range of unsigned words.
  function Wrapped(n: nat, v: int): int
  {
    if v < 0 then v + Pow2(n) else if v < Pow2(n) then v else v - Pow2(n)
  }

  // The architecture's result: shift the exact sum, rounding towards minus infinity, and add
  // what was there before, in a word of n bits.
  function Shifted(n: nat, before: nat, v: int, rnd: nat, shift: nat): nat
  {
    (before + (v + rnd) / Pow2(shift)) % Pow2(n)
  }

  // A double word (hi, lo) stands for Part(sh, 2^n) + lo, where hi is -1, 0 or 1 as a signed word.
  predicate High(n: nat, hi: int, sh: int)
  {
    -1 <= sh <= 1 && hi == if sh < 0 then Pow2(n) - 1 else sh
  }

  // sh * p.
  function Part(sh: int, p: nat): int
  {
    if sh < 0 then 0 - p else if sh == 0 then 0 else p
  }

  lemma DivideDoubleWord(n: nat, sh: int, lo: nat, k: nat)
    requires k <= n && lo < Pow2(n)
    ensures (Part(sh, Pow2(n)) + lo) / Pow2(k) == Part(sh, Pow2(n - k)) + lo / Pow2(k)
    ensures lo / Pow2(k) < Pow2(n - k)
  {
    var d, p := Pow2(k), Pow2(n - k);
    Pow2Add(k, n - k);
    PartTimes(sh, d, p);
    DivMod(lo, d);
    Distribute(d, Part(sh, p), lo / d);
    DivUnique(Part(sh, Pow2(n)) + lo, d, Part(sh, p) + lo / d, lo % d);
    ShrFits(n - k, k, lo);
    ShrIsDiv(lo, k);
  }

  lemma PartTimes(sh: int, d: nat, p: nat)
    ensures Part(sh, d * p) == d * Part(sh, p)
  {}

  lemma ShlOnes(n: nat, j: nat)
    requires j <= n
    ensures Pow2(j) <= Pow2(n) && Shl(n, Ones(n), j) == Pow2(n) - Pow2(j)
  {
    LowUpOnes(n, n, j);
    Pow2Monotone(j, n);
  }

  lemma {:induction false} LowUpOnes(n: nat, m: nat, j: nat)
    requires j <= n <= m + j
    ensures Low(n, Up(Ones(m), j)) == Pow2(n) - Pow2(j)
    decreases j
  {
    if j == 0 {
      LowOnes(m, n);
    } else {
      LowUpOnes(n - 1, m, j - 1);
    }
  }

  lemma {:induction false} LowOnes(n: nat, m: nat)
    requires m <= n
    ensures Low(m, Ones(n)) == Ones(m)
    decreases m
  {
    if m > 0 {
      assert Ones(n) / 2 == Ones(n - 1);
      LowOnes(n - 1, m - 1);
    }
  }

  lemma ShlHigh(n: nat, hi: nat, sh: int, j: nat)
    requires 1 <= j < n && High(n, hi, sh)
    ensures 2 * Pow2(j) <= Pow2(n) && Shl(n, hi, j) == Wrapped(n, Part(sh, Pow2(j)))
  {
    Pow2Monotone(j + 1, n);
    if sh < 0 {
      ShlOnes(n, j);
    } else {
      UpOne(j);
      UpIsTimes(0, j);
      LowOfSmall(n, Up(hi, j));
    }
  }

  // The two halves shifted and or-ed together.
  lemma Combine(n: nat, hi: nat, lo: nat, sh: int, k: nat)
    requires 0 < k < n && lo < Pow2(n) && High(n, hi, sh)
    ensures Or(Shr(lo, k), Shl(n, hi, n - k)) == Wrapped(n, (Part(sh, Pow2(n)) + lo) / Pow2(k)) < Pow2(n)
  {
    hide Part, Wrapped;
    DivideDoubleWord(n, sh, lo, k);
    ShlHigh(n, hi, sh, n - k);
    ShrIsDiv(lo, k);
    Together(n, hi, Shr(lo, k), n - k);
    WrappedPlus(n, sh, Pow2(n - k), lo / Pow2(k));
  }

  lemma WrappedPlus(n: nat, sh: int, d: nat, q: nat)
    requires -1 <= sh <= 1 && q < d && 2 * d <= Pow2(n)
    ensures Wrapped(n, Part(sh, d)) + q == Wrapped(n, Part(sh, d) + q) < Pow2(n)
  {}

  lemma Together(n: nat, hi: nat, q: nat, j: nat)
    requires j <= n && q < Pow2(j)
    ensures Or(q, Shl(n, hi, j)) == q + Shl(n, hi, j)
  {
    ShlIsUpOfLow(n, hi, j);
    OrDisjoint(Low(n - j, hi), j, q);
    OrCommutes(q, Shl(n, hi, j));
  }

  lemma {:induction false} ShlIsUpOfLow(n: nat, x: nat, j: nat)
    requires j <= n
    ensures Shl(n, x, j) == Up(Low(n - j, x), j)
    decreases j
  {
    if j > 0 {
      ShlIsUpOfLow(n - 1, x, j - 1);
    }
  }

  lemma {:induction false} OrCommutes(x: nat, y: nat)
    ensures Or(x, y) == Or(y, x)
  {
    if x != 0 && y != 0 {
      OrCommutes(x / 2, y / 2);
    }
  }

  // The arithmetic right shift, as copies of the sign bit or-ed onto the logical one.
  function Sar(n: nat, x: nat, k: nat): nat
    requires n >= 1 && k < n
  {
    if Bit(x, n - 1) then Or(Shr(x, k), Shl(n, Ones(n), n - k)) else Shr(x, k)
  }

  function SignWord(n: nat, x: nat): int
    requires n >= 1
  {
    if Bit(x, n - 1) then -1 else 0
  }

  lemma SarIs(n: nat, x: nat, k: nat)
    requires n >= 1 && 0 < k < n && x < Pow2(n)
    ensures Sar(n, x, k) == Wrapped(n, SInt(n, x) / Pow2(k)) < Pow2(n)
  {
    hide Wrapped, Or, Shr, Shl, Bit, Pow2;
    TopBit(n, x);
    Combine(n, if Bit(x, n - 1) then Ones(n) else 0, x, SignWord(n, x), k);
    assert SInt(n, x) == Part(SignWord(n, x), Pow2(n)) + x;
    if !Bit(x, n - 1) {
      OrZeroShift(n, Shr(x, k), n - k);
    }
  }

  lemma OrZeroShift(n: nat, x: nat, j: nat)
    ensures Or(x, Shl(n, 0, j)) == x
  {
    UpIsTimes(0, j);
    LowOfSmall(n, 0);
  }

  // Shifting in the sign everywhere.
  lemma SarAll(n: nat, x: nat)
    requires n >= 2 && x < Pow2(n)
    ensures Sar(n, x, n - 1) == Wrapped(n, SignWord(n, x)) < Pow2(n)
    ensures SInt(n, x) / Pow2(n) == SignWord(n, x)
    ensures SInt(n, x) == Part(SignWord(n, x), Pow2(n)) + x
  {
    TopBit(n, x);
    SarIs(n, x, n - 1);
    var p := Pow2(n - 1);
    if Bit(x, n - 1) {
      DivUnique(SInt(n, x), p, -1, SInt(n, x) + p);
      DivUnique(SInt(n, x), Pow2(n), -1, x);
    } else {
      DivUnique(SInt(n, x), p, 0, x);
      DivUnique(SInt(n, x), Pow2(n), 0, x);
    }
  }

  // The exact sum as a double word.
  lemma WideSum(n: nat, source: nat, rnd: nat, isU: bool) returns (sh: int)
    requires n >= 2 && source < Pow2(n) && rnd < Pow2(n)
    ensures Sar(n, source, n - 1) < Pow2(n)
    ensures var (lo, hi) := Add2(n, source, if isU then 0 else Sar(n, source, n - 1), rnd, 0);
      High(n, hi, sh) && Value(n, isU, source) + rnd == Part(sh, Pow2(n)) + lo
  {
    SarAll(n, source);
    sh := (if isU then 0 else SignWord(n, source)) + (if source + rnd < Pow2(n) then 0 else 1);
  }

  // The rounding constant added at double width, then shifted back.
  method RoundWide(n: nat, source: nat, rnd: nat, isU: bool, shift: nat) returns (src: nat)
    requires n >= 2 && source < Pow2(n) && rnd < Pow2(n) && 1 <= shift <= n
    ensures src == Wrapped(n, (Value(n, isU, source) + rnd) / Pow2(shift)) < Pow2(n)
  {
    var extLshift := n - shift;
    ghost var sh := WideSum(n, source, rnd, isU);
    var srcHi := if isU then 0 else Sar(n, source, n - 1);
    var (lo, hi) := Add2(n, source, srcHi, rnd, 0);
    if extLshift == 0 {
      src := hi;
      HighOnly(n, sh, hi, lo);
    } else {
      Combine(n, hi, lo, sh, shift);
      src := Or(Shr(lo, shift), Shl(n, hi, extLshift));
    }
  }

  lemma HighOnly(n: nat, sh: int, hi: nat, lo: nat)
    requires n >= 1 && High(n, hi, sh) && lo < Pow2(n)
    ensures hi == Wrapped(n, (Part(sh, Pow2(n)) + lo) / Pow2(n)) < Pow2(n)
  {
    DivideDoubleWord(n, sh, lo, n);
    SmallQuotient(lo, Pow2(n));
  }

  lemma SmallQuotient(x: nat, d: nat)
    requires x < d
    ensures x / d == 0
  {}

  lemma UnsignedQuotient(n: nat, src: nat, shift: nat)
    requires n >= 2 && src < Pow2(n) && 1 <= shift <= n
    ensures (if shift == n then 0 else Shr(src, shift)) == Wrapped(n, Value(n, true, src) / Pow2(shift)) < Pow2(n)
  {
    DivideDoubleWord(n, 0, src, shift);
    Pow2Monotone(n - shift, n);
    ShrIsDiv(src, shift);
  }

  // Without extra precision.
  method ShiftNarrow(n: nat, src: nat, isU: bool, shift: nat) returns (r: nat)
    requires n >= 2 && src < Pow2(n) && 1 <= shift <= n
    ensures r == Wrapped(n, Value(n, isU, src) / Pow2(shift)) < Pow2(n)
  {
    if isU {
      UnsignedQuotient(n, src, shift);
      r := if shift == n then 0 else Shr(src, shift);
    } else {
      SarAll(n, src);
      if shift == n {
        r := Sar(n, src, n - 1);
      } else {
        SarIs(n, src, shift);
        r := Sar(n, src, shift);
      }
    }
  }

  // An element of e bits, extended to the n bits of the calculation.
  predicate Element(n: nat, e: nat, isU: bool, src: nat)
    requires 1 <= e <= n && src < Pow2(n)
  {
    if isU then src < Pow2(e) else -(Pow2(e - 1) as int) <= SInt(n, src) < Pow2(e - 1)
  }

  // A rounding constant of half an element does not overflow a wider word.
  lemma NarrowSum(n: nat, e: nat, isU: bool, src: nat, rnd: nat)
    requires 1 <= e < n && src < Pow2(n) && Element(n, e, isU, src) && rnd <= Pow2(e - 1)
    ensures rnd < Pow2(n) && Value(n, isU, Add(n, src, rnd)) == Value(n, isU, src) + rnd
  {
    Pow2Monotone(e, n - 1);
  }

  // n is 64 and e is 8 << size, so that size is 3 exactly when e is n.
  method HandleShriWithRndacc(n: nat, res: nat, source: nat, rnd: Option<nat>, accumulate: bool, isU: bool,
                              e: nat, shift: nat) returns (r: nat)
    requires n >= 2 && res < Pow2(n) && source < Pow2(n)
    requires 1 <= shift <= e <= n && Element(n, e, isU, source)
    requires rnd.Some? ==> rnd.value == Pow2(shift - 1)
    ensures r == Shifted(n, if accumulate then res else 0, Value(n, isU, source),
                         Constant(rnd), shift)
  {
    var extendedResult := rnd.Some? && e == n;
    if !extendedResult && shift == n && !accumulate && isU {
      NothingLeft(n, source, rnd, e, shift);
      return 0;
    }
    var src := ShiftedWord(n, source, rnd, isU, e, shift);
    Accumulated(n, if accumulate then res else 0, (Value(n, isU, source) + Constant(rnd)) / Pow2(shift), src);
    r := if accumulate then Add(n, res, src) else src;
  }

  // Rounding and shifting, at double width where the sum of a full element needs it.
  method ShiftedWord(n: nat, source: nat, rnd: Option<nat>, isU: bool, e: nat, shift: nat) returns (src: nat)
    requires n >= 2 && source < Pow2(n) && 1 <= shift <= e <= n && Element(n, e, isU, source)
    requires rnd.Some? ==> rnd.value == Pow2(shift - 1)
    ensures src == Wrapped(n, (Value(n, isU, source) + Constant(rnd)) / Pow2(shift)) < Pow2(n)
  {
    if rnd.Some? && e == n {
      Pow2Monotone(shift - 1, n);
      src := RoundWide(n, source, rnd.value, isU, shift);
    } else {
      src := source;
      if rnd.Some? {
        Pow2Monotone(shift - 1, e - 1);
        NarrowSum(n, e, isU, source, rnd.value);
        src := Add(n, src, rnd.value);
      }
      src := ShiftNarrow(n, src, isU, shift);
    }
  }

  function Constant(rnd: Option<nat>): nat
  {
    if rnd.Some? then rnd.value else 0
  }

  // An unsigned shift by the full width leaves nothing.
  lemma NothingLeft(n: nat, source: nat, rnd: Option<nat>, e: nat, shift: nat)
    requires source < Pow2(n) && shift == n && e <= n && shift <= e && !(rnd.Some? && e == n)
    ensures Shifted(n, 0, source, Constant(rnd), shift) == 0
  {
    SmallQuotient(source, Pow2(n));
    DivUnique(0, Pow2(n), 0, 0);
  }

  lemma Accumulated(n: nat, before: nat, v: int, word: nat)
    requires before < Pow2(n) && word < Pow2(n) && word == Wrapped(n, v)
    ensures (before + v) % Pow2(n) == Add(n, before, word)
  {
    var q := (if v < 0 then -1 else if v < Pow2(n) then 0 else 1) + (if before + word < Pow2(n) then 0 else 1);
    assert before + v == Pow2(n) * q + Add(n, before, word);
    DivUnique(before + v, Pow2(n), q, Add(n, before, word));
  }
}

// Machine words as natural numbers, and the C bit operators on them.
//
// A word of width n is a number below Pow2(n).  Every operator is characterised by
// what it does to each bit, and two words with the same bits are equal (SameBits).
module Bits {
  import opened Arithmetic

  predicate Bit(w: nat, i: nat)
    decreases i
  {
    if i == 0 then w % 2 == 1 else Bit(w / 2, i - 1)
  }

  function And(x: nat, y: nat): nat
  {
    if x == 0 || y == 0 then 0
    else 2 * And(x / 2, y / 2) + (if x % 2 == 1 && y % 2 == 1 then 1 else 0)
  }

  function Or(x: nat, y: nat): nat
  {
    if x == 0 then y
    else if y == 0 then x
    else 2 * Or(x / 2, y / 2) + (if x % 2 == 1 || y % 2 == 1 then 1 else 0)
  }

  // ~x in a word of width n.
  function Not(n: nat, x: nat): nat
    requires x < Pow2(n)
  {
    Pow2(n) - 1 - x
  }

  // x << k without a width: no bit is lost.
  function Up(x: nat, k: nat): nat
  {
    if k == 0 then x else 2 * Up(x, k - 1)
  }

  // The n low bits of x.
  function Low(n: nat, x: nat): nat
  {
    if n == 0 then 0 else 2 * Low(n - 1, x / 2) + x % 2
  }

  // x << k, in a word of width n: the bits shifted out at the top are lost.
  function Shl(n: nat, x: nat, k: nat): nat
  {
    Low(n, Up(x, k))
  }

  // x >> k for an unsigned word.
  function Shr(x: nat, k: nat): nat
    decreases k
  {
    if k == 0 then x else Shr(x / 2, k - 1)
  }

  // The word of width n - i whose bit k is f(i + k).
  function Assemble(f: nat -> bool, i: nat, n: nat): nat
    requires i <= n
    decreases n - i
  {
    if i == n then 0 else (if f(i) then 1 else 0) + 2 * Assemble(f, i + 1, n)
  }

  lemma {:induction false} BitOfZero(i: nat)
    ensures !Bit(0, i)
  {
    if i > 0 {
      BitOfZero(i - 1);
    }
  }

  lemma {:induction false} AndBit(x: nat, y: nat, i: nat)
    ensures Bit(And(x, y), i) == (Bit(x, i) && Bit(y, i))
    decreases i
  {
    BitOfZero(i);
    if x != 0 && y != 0 && i > 0 {
      AndBit(x / 2, y / 2, i - 1);
    }
  }

  // One level of the recursion, from the parts of both words.
  lemma AndStep(x: nat, y: nat, xHalf: nat, yHalf: nat, xBit: bool, yBit: bool)
    requires x == 2 * xHalf + (if xBit then 1 else 0) && y == 2 * yHalf + (if yBit then 1 else 0)
    ensures And(x, y) == 2 * And(xHalf, yHalf) + (if xBit && yBit then 1 else 0)
  {
    assert x / 2 == xHalf && y / 2 == yHalf;
  }

  lemma {:induction false} OrBit(x: nat, y: nat, i: nat)
    ensures Bit(Or(x, y), i) == (Bit(x, i) || Bit(y, i))
    decreases i
  {
    BitOfZero(i);
    if x != 0 && y != 0 && i > 0 {
      OrBit(x / 2, y / 2, i - 1);
    }
  }

  lemma {:induction false} NotBit(n: nat, x: nat, i: nat)
    requires x < Pow2(n)
    ensures Bit(Not(n, x), i) == (i < n && !Bit(x, i))
    decreases i
  {
    if n == 0 {
      BitOfZero(i);
    } else {
      assert Not(n, x) / 2 == Not(n - 1, x / 2);
      if i > 0 {
        NotBit(n - 1, x / 2, i - 1);
      }
    }
  }

  lemma {:induction false} AssembleBit(f: nat -> bool, i: nat, n: nat, k: nat)
    requires i <= n
    ensures Assemble(f, i, n) < Pow2(n - i)
    ensures Bit(Assemble(f, i, n), k) == (i + k < n && f(i + k))
    decreases n - i
  {
    if i == n {
      BitOfZero(k);
    } else {
      AssembleBit(f, i + 1, n, if k > 0 then k - 1 else 0);
      assert Assemble(f, i, n) / 2 == Assemble(f, i + 1, n);
    }
  }

  // Bits at and above the width of a word are clear.
  lemma {:induction false} BitAbove(n: nat, x: nat, i: nat)
    requires x < Pow2(n) && n <= i
    ensures !Bit(x, i)
    decreases n
  {
    if n == 0 {
      BitOfZero(i);
    } else {
      BitAbove(n - 1, x / 2, i - 1);
    }
  }

  // Words are equal as soon as their bits are.
  lemma {:induction false} SameBits(n: nat, x: nat, y: nat)
    requires x < Pow2(n) && y < Pow2(n)
    requires forall i: nat :: i < n ==> Bit(x, i) == Bit(y, i)
    ensures x == y
    decreases n
  {
    if n > 0 {
      assert Bit(x, 0) == Bit(y, 0);
      forall i: nat | i < n - 1 ensures Bit(x / 2, i) == Bit(y / 2, i) {
        assert Bit(x, i + 1) == Bit(y, i + 1);
      }
      SameBits(n - 1, x / 2, y / 2);
    }
  }

  lemma {:induction false} AndBound(x: nat, y: nat)
    ensures And(x, y) <= x && And(x, y) <= y
  {
    if x != 0 && y != 0 {
      AndBound(x / 2, y / 2);
    }
  }

  lemma {:induction false} OrBound(n: nat, x: nat, y: nat)
    requires x < Pow2(n) && y < Pow2(n)
    ensures Or(x, y) < Pow2(n)
  {
    if x != 0 && y != 0 {
      OrBound(n - 1, x / 2, y / 2);
    }
  }

  lemma {:induction false} ShrBit(x: nat, k: nat, i: nat)
    ensures Bit(Shr(x, k), i) == Bit(x, i + k)
    decreases k
  {
    if k > 0 {
      ShrBit(x / 2, k - 1, i);
    }
  }

  lemma {:induction false} ShrFits(n: nat, k: nat, x: nat)
    requires x < Pow2(n + k)
    ensures Shr(x, k) < Pow2(n)
    decreases k
  {
    if k > 0 {
      ShrFits(n, k - 1, x / 2);
    }
  }

  lemma {:induction false} ShrBelow(x: nat, k: nat)
    ensures Shr(x, k) <= x
    decreases k
  {
    if k > 0 {
      ShrBelow(x / 2, k - 1);
    }
  }

  lemma {:induction false} OrZero(x: nat, y: nat)
    ensures Or(x, y) == 0 <==> x == 0 && y == 0
  {
    if x != 0 && y != 0 {
      OrZero(x / 2, y / 2);
    }
  }

  lemma {:induction false} UpBit(x: nat, k: nat, i: nat)
    ensures Bit(Up(x, k), i) == (k <= i && Bit(x, i - k))
    decreases k
  {
    if k > 0 && i > 0 {
      UpBit(x, k - 1, i - 1);
    }
  }

  lemma {:induction false} LowBit(n: nat, x: nat, i: nat)
    ensures Low(n, x) < Pow2(n)
    ensures Bit(Low(n, x), i) == (i < n && Bit(x, i))
    decreases n
  {
    if n == 0 {
      BitOfZero(i);
    } else {
      LowBit(n - 1, x / 2, if i > 0 then i - 1 else 0);
      assert Low(n, x) / 2 == Low(n - 1, x / 2);
    }
  }

  lemma ShlBit(n: nat, x: nat, k: nat, i: nat)
    ensures Shl(n, x, k) < Pow2(n)
    ensures Bit(Shl(n, x, k), i) == (k <= i < n && Bit(x, i - k))
  {
    LowBit(n, Up(x, k), i);
    UpBit(x, k, i);
  }

  // The operators in terms of multiplication and division.

  lemma {:induction false} UpIsTimes(x: nat, k: nat)
    ensures Up(x, k) == x * Pow2(k)
  {
    if k > 0 {
      UpIsTimes(x, k - 1);
      assert x * (2 * Pow2(k - 1)) == 2 * (x * Pow2(k - 1));
    }
  }

  lemma {:induction false} ShrIsDiv(x: nat, k: nat)
    ensures Shr(x, k) == x / Pow2(k)
    decreases k
  {
    if k > 0 {
      ShrIsDiv(x / 2, k - 1);
      DivDiv(x, 2, Pow2(k - 1));
    }
  }

  lemma {:induction false} LowIsMod(n: nat, x: nat)
    ensures Low(n, x) == x % Pow2(n)
    decreases n
  {
    if n > 0 {
      LowIsMod(n - 1, x / 2);
      ModOfDouble(x, Pow2(n - 1));
    }
  }

  lemma ModOfDouble(x: nat, p: nat)
    requires p > 0
    ensures x % (2 * p) == 2 * (x / 2 % p) + x % 2
  {
    DivMod(x / 2, p);
    assert x == (2 * p) * (x / 2 / p) + (2 * (x / 2 % p) + x % 2) by {
      assert 2 * (p * (x / 2 / p)) == (2 * p) * (x / 2 / p);
    }
    DivUnique(x, 2 * p, x / 2 / p, 2 * (x / 2 % p) + x % 2);
  }

  // Cutting a word in two and putting it together again.
  lemma {:induction false} UpPlusLow(x: nat, k: nat)
    ensures x == Up(Shr(x, k), k) + Low(k, x)
    decreases k
  {
    if k > 0 {
      UpPlusLow(x / 2, k - 1);
    }
  }

  lemma {:induction false} CutUp(high: nat, low: nat, k: nat)
    requires low < Pow2(k)
    ensures Shr(Up(high, k) + low, k) == high && Low(k, Up(high, k) + low) == low
    decreases k
  {
    if k > 0 {
      CutUp(high, low / 2, k - 1);
      assert (Up(high, k) + low) / 2 == Up(high, k - 1) + low / 2;
    }
  }

  lemma {:induction false} UpUp(x: nat, j: nat, k: nat)
    ensures Up(Up(x, j), k) == Up(x, j + k)
    decreases k
  {
    if k > 0 {
      UpUp(x, j, k - 1);
    }
  }

  lemma {:induction false} UpAdd(x: nat, y: nat, k: nat)
    ensures Up(x + y, k) == Up(x, k) + Up(y, k)
    decreases k
  {
    if k > 0 {
      UpAdd(x, y, k - 1);
    }
  }

  lemma {:induction false} ShrShr(x: nat, j: nat, k: nat)
    ensures Shr(Shr(x, j), k) == Shr(x, j + k)
    decreases j
  {
    if j > 0 {
      ShrShr(x / 2, j - 1, k);
    }
  }

  lemma {:induction false} UpOne(k: nat)
    ensures Up(1, k) == Pow2(k)
  {
    if k > 0 {
      UpOne(k - 1);
    }
  }

  lemma {:induction false} LowOfSmall(n: nat, x: nat)
    requires x < Pow2(n)
    ensures Low(n, x) == x
  {
    if n > 0 {
      LowOfSmall(n - 1, x / 2);
    }
  }

  // 1 << k has exactly bit k set.
  lemma OneBit(n: nat, k: nat, i: nat)
    requires k < n
    ensures Bit(Shl(n, 1, k), i) == (i == k)
  {
    ShlBit(n, 1, k, i);
    if i > k {
      BitAbove(1, 1, i - k);
    }
  }

  // The C idiom for testing a bit: x & (1 << k).
  lemma {:induction false} TestBit(n: nat, x: nat, k: nat)
    requires k < n
    ensures (And(x, Shl(n, 1, k)) != 0) == Bit(x, k)
    ensures And(x, Shl(n, 1, k)) == if Bit(x, k) then Shl(n, 1, k) else 0
  {
    var m := Shl(n, 1, k);
    ShlBit(n, 1, k, 0);
    AndBound(x, m);
    forall i: nat | i < n
      ensures Bit(And(x, m), i) == Bit(if Bit(x, k) then m else 0, i)
    {
      AndBit(x, m, i);
      OneBit(n, k, i);
      BitOfZero(i);
    }
    SameBits(n, And(x, m), if Bit(x, k) then m else 0);
    OneBit(n, k, k);
    BitOfZero(k);
  }

  // Masks.

  function Ones(n: nat): nat
  {
    Pow2(n) - 1
  }

  lemma {:induction false} OnesBit(n: nat, i: nat)
    ensures Bit(Ones(n), i) == (i < n)
    decreases n
  {
    if n == 0 {
      BitOfZero(i);
    } else {
      assert Ones(n) / 2 == Ones(n - 1);
      OnesBit(n - 1, if i > 0 then i - 1 else 0);
    }
  }

  lemma {:induction false} AndOnes(n: nat, x: nat)
    ensures And(x, Ones(n)) == Low(n, x)
    decreases n
  {
    if n > 0 {
      assert Ones(n) / 2 == Ones(n - 1);
      AndOnes(n - 1, x / 2);
      LowOfSmall(n, 0);
    }
  }

  lemma {:induction false} OrDisjoint(high: nat, k: nat, low: nat)
    requires low < Pow2(k)
    ensures Or(Up(high, k), low) == Up(high, k) + low
    decreases k
  {
    if k > 0 {
      OrDisjoint(high, k - 1, low / 2);
    }
  }

  lemma {:induction false} ShrOnes(n: nat, k: nat)
    requires k <= n
    ensures Shr(Ones(n), k) == Ones(n - k)
    decreases k
  {
    if k > 0 {
      assert Ones(n) / 2 == Ones(n - 1);
      ShrOnes(n - 1, k - 1);
    }
  }

  // Nothing is lost when the word is wide enough.
  lemma ShlIsUp(w: nat, x: nat, n: nat, k: nat)
    requires x < Pow2(n) && n + k <= w
    ensures Shl(w, x, k) == Up(x, k) < Pow2(n + k)
  {
    UpIsTimes(x, k);
    UpIsTimes(Pow2(n), k);
    Pow2Add(n, k);
    Pow2Monotone(n + k, w);
    UpBelow(x, Pow2(n), k);
    LowOfSmall(w, Up(x, k));
  }

  lemma {:induction false} UpBelow(x: nat, y: nat, k: nat)
    requires x < y
    ensures Up(x, k) < Up(y, k)
    decreases k
  {
    if k > 0 {
      UpBelow(x, y, k - 1);
    }
  }
}

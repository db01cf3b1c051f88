// The TCG primitives the A64 translator emits, with their plain meaning on machine words.
//
// A word of width n is a natural number below Pow2(n).  In the translator n is 32 or 64;
// nothing below depends on that, so it is proved for every width.
module Tcg {
  import opened Arithmetic
  import opened Bits

  function Add(n: nat, x: nat, y: nat): (r: nat)
    requires x < Pow2(n) && y < Pow2(n)
    ensures r < Pow2(n)
  {
    if x + y < Pow2(n) then x + y else x + y - Pow2(n)
  }

  function Sub(n: nat, x: nat, y: nat): (r: nat)
    requires x < Pow2(n) && y < Pow2(n)
    ensures r < Pow2(n)
  {
    if x >= y then x - y else x + Pow2(n) - y
  }

  function Neg(n: nat, x: nat): (r: nat)
    requires x < Pow2(n)
    ensures r < Pow2(n)
  {
    Sub(n, 0, x)
  }

  // Addition of two double words, each given as (low, high).
  function Add2(n: nat, xLow: nat, xHigh: nat, yLow: nat, yHigh: nat): (r: (nat, nat))
    requires xLow < Pow2(n) && xHigh < Pow2(n) && yLow < Pow2(n) && yHigh < Pow2(n)
    ensures r.0 < Pow2(n) && r.1 < Pow2(n)
  {
    var carry := if xLow + yLow < Pow2(n) then 0 else 1;
    var high := xHigh + yHigh + carry;
    (Add(n, xLow, yLow), if high < Pow2(n) then high else high - Pow2(n))
  }

  function Xor(x: nat, y: nat): nat
  {
    if x == 0 then y
    else if y == 0 then x
    else 2 * Xor(x / 2, y / 2) + (if x % 2 != y % 2 then 1 else 0)
  }

  // x & ~y.
  function AndC(x: nat, y: nat): nat
  {
    if x == 0 then 0
    else 2 * AndC(x / 2, y / 2) + (if x % 2 == 1 && y % 2 == 0 then 1 else 0)
  }

  function SetcondGeu(x: nat, y: nat): nat
  {
    if x >= y then 1 else 0
  }

  lemma {:induction false} XorBit(x: nat, y: nat, i: nat)
    ensures Bit(Xor(x, y), i) == (Bit(x, i) != Bit(y, i))
    decreases i
  {
    BitOfZero(i);
    if x != 0 && y != 0 && i > 0 {
      XorBit(x / 2, y / 2, i - 1);
    }
  }

  lemma {:induction false} XorBound(n: nat, x: nat, y: nat)
    requires x < Pow2(n) && y < Pow2(n)
    ensures Xor(x, y) < Pow2(n)
  {
    if x != 0 && y != 0 {
      XorBound(n - 1, x / 2, y / 2);
    }
  }

  lemma {:induction false} AndCBit(x: nat, y: nat, i: nat)
    ensures AndC(x, y) <= x
    ensures Bit(AndC(x, y), i) == (Bit(x, i) && !Bit(y, i))
    decreases x
  {
    BitOfZero(i);
    if x != 0 {
      AndCBit(x / 2, y / 2, if i > 0 then i - 1 else 0);
    }
  }

  // The sign bit.
  lemma {:induction false} TopBit(n: nat, x: nat)
    requires n >= 1 && x < Pow2(n)
    ensures Bit(x, n - 1) <==> x >= Pow2(n - 1)
  {
    if n > 1 {
      TopBit(n - 1, x / 2);
    }
  }

  // The value of a word read as a two's complement number.
  function SInt(n: nat, x: nat): int
    requires n >= 1 && x < Pow2(n)
  {
    if x < Pow2(n - 1) then x else x - Pow2(n)
  }

  // Fields of a word: bits pos to pos + len - 1.

  function Extract(x: nat, pos: nat, len: nat): nat
  {
    Low(len, Shr(x, pos))
  }

  // The same field, its top bit copied into the rest of a word of n bits.
  function SExtract(n: nat, x: nat, pos: nat, len: nat): nat
    requires len >= 1
  {
    var field := Extract(x, pos, len);
    if Bit(field, len - 1) then Or(field, Shl(n, Ones(n), len)) else field
  }

  // y inserted into x.
  function Deposit(n: nat, x: nat, y: nat, pos: nat, len: nat): nat
  {
    Or(AndC(x, Shl(n, Ones(len), pos)), DepositZ(n, y, pos, len))
  }

  function DepositZ(n: nat, y: nat, pos: nat, len: nat): nat
  {
    Shl(n, Low(len, y), pos)
  }

  function RotR(n: nat, x: nat, k: nat): nat
    requires 0 < k < n
  {
    Or(Shr(x, k), Shl(n, x, n - k))
  }

  lemma ExtractBit(x: nat, pos: nat, len: nat, i: nat)
    ensures Extract(x, pos, len) < Pow2(len)
    ensures Bit(Extract(x, pos, len), i) == (i < len && Bit(x, i + pos))
  {
    LowBit(len, Shr(x, pos), i);
    ShrBit(x, pos, i);
  }

  lemma SExtractBit(n: nat, x: nat, pos: nat, len: nat, i: nat)
    requires 1 <= len <= n
    ensures SExtract(n, x, pos, len) < Pow2(n)
    ensures i < n ==> Bit(SExtract(n, x, pos, len), i) == Bit(x, pos + (if i < len then i else len - 1))
  {
    var field := Extract(x, pos, len);
    ExtractBit(x, pos, len, i);
    ExtractBit(x, pos, len, len - 1);
    Pow2Monotone(len, n);
    ShlBit(n, Ones(n), len, i);
    OrBound(n, field, Shl(n, Ones(n), len));
    OrBit(field, Shl(n, Ones(n), len), i);
    if i >= len {
      OnesBit(n, i - len);
    }
  }

  lemma DepositZBit(n: nat, y: nat, pos: nat, len: nat, i: nat)
    ensures DepositZ(n, y, pos, len) < Pow2(n)
    ensures Bit(DepositZ(n, y, pos, len), i) == (pos <= i < n && i - pos < len && Bit(y, i - pos))
  {
    ShlBit(n, Low(len, y), pos, i);
    if i >= pos {
      LowBit(len, y, i - pos);
    }
  }

  lemma DepositBit(n: nat, x: nat, y: nat, pos: nat, len: nat, i: nat)
    requires x < Pow2(n) && pos + len <= n
    ensures Deposit(n, x, y, pos, len) < Pow2(n)
    ensures Bit(Deposit(n, x, y, pos, len), i) == if pos <= i < pos + len then Bit(y, i - pos) else Bit(x, i)
  {
    var hole := Shl(n, Ones(len), pos);
    DepositZBit(n, y, pos, len, i);
    AndCBit(x, hole, i);
    OrBound(n, AndC(x, hole), DepositZ(n, y, pos, len));
    OrBit(AndC(x, hole), DepositZ(n, y, pos, len), i);
    ShlBit(n, Ones(len), pos, i);
    if i >= pos {
      OnesBit(len, i - pos);
    }
  }

  lemma RotRBit(n: nat, x: nat, k: nat, i: nat)
    requires 0 < k < n && x < Pow2(n)
    ensures RotR(n, x, k) < Pow2(n)
    ensures i < n ==> Bit(RotR(n, x, k), i) == Bit(x, if i + k < n then i + k else i + k - n)
  {
    ShlBit(n, x, n - k, i);
    ShrBit(x, k, i);
    ShrFits(n - k, k, x);
    Pow2Monotone(n - k, n);
    OrBound(n, Shr(x, k), Shl(n, x, n - k));
    OrBit(Shr(x, k), Shl(n, x, n - k), i);
    if i + k >= n {
      BitAbove(n, x, i + k);
    }
  }
}

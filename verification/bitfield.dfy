// The bitfield and extract instructions of A64: SBFM, BFM, UBFM and EXTR.
module Bitfields {
  import opened Arithmetic
  import opened Bits
  import opened Tcg

  // The architecture's definition: rotate the source, then select bit by bit.

  // Where bit i of a word of n bits rotated right by r comes from.
  function Turned(n: nat, i: nat, r: nat): (j: nat)
    requires i < n && r < n
    ensures j < n
  {
    if i + r < n then i + r else i + r - n
  }

  // opc 0 is SBFM, 1 is BFM and 2 is UBFM; only BFM keeps bits of the destination.
  function BitfieldBit(opc: nat, n: nat, src: nat, dst: nat, r: nat, s: nat, i: nat): bool
    requires i < n && r < n && s < n
  {
    var kept := opc == 1 && Bit(dst, i);
    var width := if s >= r then s - r else s + n - r;
    if i > width then (if opc == 0 then Bit(src, s) else kept)
    else if Turned(n, i, r) <= s then Bit(src, Turned(n, i, r))
    else kept
  }

  function BitfieldMove(opc: nat, n: nat, src: nat, dst: nat, r: nat, s: nat): nat
    requires r < n && s < n
  {
    Assemble((i: nat) => i < n && BitfieldBit(opc, n, src, dst, r, s, i), 0, n)
  }

  // n bits out of the concatenation of two registers, from bit lsb.
  function ExtractPair(n: nat, high: nat, low: nat, lsb: nat): nat
    requires lsb < n
  {
    Assemble((i: nat) => i < n && Bit(if i + lsb < n then low else high, Turned(n, i, lsb)), 0, n)
  }

  lemma IsBitfieldMove(x: nat, opc: nat, n: nat, src: nat, dst: nat, r: nat, s: nat)
    requires r < n && s < n && x < Pow2(n)
    requires forall i: nat :: i < n ==> Bit(x, i) == BitfieldBit(opc, n, src, dst, r, s, i)
    ensures x == BitfieldMove(opc, n, src, dst, r, s)
  {
    var f := (i: nat) => i < n && BitfieldBit(opc, n, src, dst, r, s, i);
    AssembleBit(f, 0, n, 0);
    forall i: nat | i < n ensures Bit(Assemble(f, 0, n), i) == BitfieldBit(opc, n, src, dst, r, s, i) {
      AssembleBit(f, 0, n, i);
    }
    SameBits(n, x, Assemble(f, 0, n));
  }

  lemma IsExtractPair(x: nat, n: nat, high: nat, low: nat, lsb: nat)
    requires lsb < n && x < Pow2(n)
    requires forall i: nat :: i < n ==> Bit(x, i) == Bit(if i + lsb < n then low else high, Turned(n, i, lsb))
    ensures x == ExtractPair(n, high, low, lsb)
  {
    var f := (i: nat) => i < n && Bit(if i + lsb < n then low else high, Turned(n, i, lsb));
    AssembleBit(f, 0, n, 0);
    forall i: nat | i < n ensures Bit(Assemble(f, 0, n), i) == f(i) {
      AssembleBit(f, 0, n, i);
    }
    SameBits(n, x, Assemble(f, 0, n));
  }

  // Only the low n bits of the registers matter, for W registers their low halves.

  lemma MoveReadsLow(opc: nat, n: nat, src: nat, dst: nat, r: nat, s: nat)
    requires r < n && s < n
    ensures BitfieldMove(opc, n, src, dst, r, s) == BitfieldMove(opc, n, Low(n, src), Low(n, dst), r, s)
  {
    var low, high := Low(n, src), Low(n, dst);
    var f := (i: nat) => i < n && BitfieldBit(opc, n, src, dst, r, s, i);
    AssembleBit(f, 0, n, 0);
    forall i: nat | i < n
      ensures Bit(BitfieldMove(opc, n, src, dst, r, s), i) == BitfieldBit(opc, n, low, high, r, s, i)
    {
      AssembleBit(f, 0, n, i);
      LowBit(n, src, Turned(n, i, r));
      LowBit(n, src, s);
      LowBit(n, dst, i);
    }
    IsBitfieldMove(BitfieldMove(opc, n, src, dst, r, s), opc, n, low, high, r, s);
  }

  lemma PairReadsLow(n: nat, high: nat, low: nat, lsb: nat)
    requires lsb < n
    ensures ExtractPair(n, high, low, lsb) == ExtractPair(n, Low(n, high), Low(n, low), lsb)
  {
    var f := (i: nat) => i < n && Bit(if i + lsb < n then low else high, Turned(n, i, lsb));
    AssembleBit(f, 0, n, 0);
    forall i: nat | i < n
      ensures Bit(ExtractPair(n, high, low, lsb), i) ==
              Bit(if i + lsb < n then Low(n, low) else Low(n, high), Turned(n, i, lsb))
    {
      AssembleBit(f, 0, n, i);
      LowBit(n, low, Turned(n, i, lsb));
      LowBit(n, high, Turned(n, i, lsb));
    }
    IsExtractPair(ExtractPair(n, high, low, lsb), n, Low(n, high), Low(n, low), lsb);
  }

  // The emitted sequences, one lemma for each path.  w is the width of a register and n the
  // width of the instruction.

  lemma SignedExtraction(w: nat, n: nat, src: nat, dst: nat, r: nat, s: nat)
    requires r <= s < n <= w
    ensures Low(n, SExtract(w, src, r, s - r + 1)) == BitfieldMove(0, n, src, dst, r, s)
  {
    var x := Low(n, SExtract(w, src, r, s - r + 1));
    LowBit(n, SExtract(w, src, r, s - r + 1), 0);
    forall i: nat | i < n ensures Bit(x, i) == BitfieldBit(0, n, src, dst, r, s, i) {
      LowBit(n, SExtract(w, src, r, s - r + 1), i);
      SExtractBit(w, src, r, s - r + 1, i);
    }
    IsBitfieldMove(x, 0, n, src, dst, r, s);
  }

  lemma UnsignedExtraction(n: nat, src: nat, dst: nat, r: nat, s: nat)
    requires r <= s < n
    ensures Extract(src, r, s - r + 1) == BitfieldMove(2, n, src, dst, r, s)
  {
    var x := Extract(src, r, s - r + 1);
    ExtractBit(src, r, s - r + 1, 0);
    Pow2Monotone(s - r + 1, n);
    forall i: nat | i < n ensures Bit(x, i) == BitfieldBit(2, n, src, dst, r, s, i) {
      ExtractBit(src, r, s - r + 1, i);
    }
    IsBitfieldMove(x, 2, n, src, dst, r, s);
  }

  lemma Insertion(w: nat, n: nat, src: nat, dst: nat, r: nat, s: nat)
    requires r <= s < n <= w && dst < Pow2(w)
    ensures Low(n, Deposit(w, dst, Extract(src, r, s - r + 1), 0, s - r + 1)) ==
            BitfieldMove(1, n, src, dst, r, s)
  {
    var field := Extract(src, r, s - r + 1);
    var whole := Deposit(w, dst, field, 0, s - r + 1);
    LowBit(n, whole, 0);
    forall i: nat | i < n ensures Bit(Low(n, whole), i) == BitfieldBit(1, n, src, dst, r, s, i) {
      LowBit(n, whole, i);
      DepositBit(w, dst, field, 0, s - r + 1, i);
      ExtractBit(src, r, s - r + 1, i);
    }
    IsBitfieldMove(Low(n, whole), 1, n, src, dst, r, s);
  }

  lemma InsertionHigh(w: nat, n: nat, src: nat, dst: nat, r: nat, s: nat)
    requires s < r < n <= w && dst < Pow2(w)
    ensures Low(n, Deposit(w, dst, src, n - r, s + 1)) == BitfieldMove(1, n, src, dst, r, s)
  {
    var whole := Deposit(w, dst, src, n - r, s + 1);
    LowBit(n, whole, 0);
    forall i: nat | i < n ensures Bit(Low(n, whole), i) == BitfieldBit(1, n, src, dst, r, s, i) {
      LowBit(n, whole, i);
      DepositBit(w, dst, src, n - r, s + 1, i);
    }
    IsBitfieldMove(Low(n, whole), 1, n, src, dst, r, s);
  }

  lemma DepositZFits(w: nat, n: nat, y: nat, pos: nat, len: nat)
    requires pos + len <= n <= w
    ensures DepositZ(w, y, pos, len) < Pow2(n)
  {
    LowBit(len, y, 0);
    ShlIsUp(w, Low(len, y), len, pos);
    Pow2Monotone(len + pos, n);
  }

  lemma UnsignedHigh(w: nat, n: nat, src: nat, dst: nat, r: nat, s: nat)
    requires s < r < n <= w
    ensures DepositZ(w, src, n - r, s + 1) == BitfieldMove(2, n, src, dst, r, s)
  {
    var x := DepositZ(w, src, n - r, s + 1);
    DepositZFits(w, n, src, n - r, s + 1);
    forall i: nat | i < n ensures Bit(x, i) == BitfieldBit(2, n, src, dst, r, s, i) {
      DepositZBit(w, src, n - r, s + 1, i);
    }
    IsBitfieldMove(x, 2, n, src, dst, r, s);
  }

  // The sign bits fill the word up to its top.
  lemma SignedHigh(w: nat, n: nat, src: nat, dst: nat, r: nat, s: nat)
    requires s < r < n <= w
    ensures DepositZ(w, if s + 1 < r then SExtract(w, src, 0, s + 1) else src, n - r, r) ==
            BitfieldMove(0, n, src, dst, r, s)
  {
    var y := if s + 1 < r then SExtract(w, src, 0, s + 1) else src;
    DepositZFits(w, n, y, n - r, r);
    forall i: nat | i < n ensures Bit(DepositZ(w, y, n - r, r), i) == BitfieldBit(0, n, src, dst, r, s, i) {
      DepositZBit(w, y, n - r, r, i);
      if i >= n - r && s + 1 < r {
        SExtractBit(w, src, 0, s + 1, i - (n - r));
      }
    }
    IsBitfieldMove(DepositZ(w, y, n - r, r), 0, n, src, dst, r, s);
  }

  lemma ExtractNothing(n: nat, high: nat, low: nat)
    requires n > 0
    ensures Low(n, low) == ExtractPair(n, high, low, 0)
  {
    LowBit(n, low, 0);
    forall i: nat | i < n ensures Bit(Low(n, low), i) == Bit(low, i) {
      LowBit(n, low, i);
    }
    IsExtractPair(Low(n, low), n, high, low, 0);
  }

  lemma ExtractRotation(n: nat, reg: nat, lsb: nat)
    requires 0 < lsb < n
    ensures Low(n, reg) < Pow2(n) && RotR(n, Low(n, reg), lsb) == ExtractPair(n, reg, reg, lsb)
  {
    var x := Low(n, reg);
    LowBit(n, reg, 0);
    RotRBit(n, x, lsb, 0);
    forall i: nat | i < n ensures Bit(RotR(n, x, lsb), i) == Bit(reg, Turned(n, i, lsb)) {
      RotRBit(n, x, lsb, i);
      LowBit(n, reg, Turned(n, i, lsb));
    }
    IsExtractPair(RotR(n, x, lsb), n, reg, reg, lsb);
  }

  lemma ExtractByShifts(w: nat, n: nat, high: nat, low: nat, lsb: nat)
    requires 0 < lsb < n <= w
    ensures Low(n, Or(Shr(Low(n, low), lsb), Shl(w, Low(n, high), n - lsb))) == ExtractPair(n, high, low, lsb)
  {
    var right, left := Shr(Low(n, low), lsb), Shl(w, Low(n, high), n - lsb);
    LowBit(n, Or(right, left), 0);
    forall i: nat | i < n
      ensures Bit(Low(n, Or(right, left)), i) == Bit(if i + lsb < n then low else high, Turned(n, i, lsb))
    {
      LowBit(n, Or(right, left), i);
      OrBit(right, left, i);
      ShrBit(Low(n, low), lsb, i);
      LowBit(n, low, i + lsb);
      ShlBit(w, Low(n, high), n - lsb, i);
      if i >= n - lsb {
        LowBit(n, high, i - (n - lsb));
      }
    }
    IsExtractPair(Low(n, Or(right, left)), n, high, low, lsb);
  }

  // The guest registers; register 31 reads as zero and ignores writes.
  class RegisterFile {
    // A register has Pow2(k) bits; k is 6.
    const k: nat
    const X: array<nat>

    constructor (log2Width: nat, x: array<nat>)
      requires log2Width >= 1 && x.Length == 32
      requires forall i :: 0 <= i < x.Length ==> x[i] < Pow2(Pow2(log2Width))
      ensures k == log2Width && X == x && Valid()
    {
      k, X := log2Width, x;
    }

    ghost predicate Valid()
      reads this, X
    {
      k >= 1 && X.Length == 32 && forall i :: 0 <= i < X.Length ==> X[i] < Pow2(Pow2(k))
    }

    function Read(r: nat): (value: nat)
      requires X.Length == 32 && r < 32
      reads X
      ensures r == 31 ==> value == 0
      ensures r < 31 ==> value == X[r]
    {
      if r == 31 then 0 else X[r]
    }

    method Write(r: nat, value: nat)
      requires Valid() && r < 32 && value < Pow2(Pow2(k))
      modifies X
      ensures Valid() && X[..] == if r == 31 then old(X[..]) else old(X[..])[r := value]
    {
      if r != 31 {
        X[r] := value;
      }
    }

    // The width of the instruction is Pow2(k) bits with sf set and half of that without.

    method DisasBitfield(sf: bool, n: bool, opc: nat, ri: nat, si: nat, rn: nat, rd: nat)
      returns (defined: bool)
      requires Valid() && rn < 32 && rd < 32
      modifies X
      ensures Valid()
      ensures defined <==>
        sf == n && opc <= 2 && (if sf then ri < Pow2(k) && si < Pow2(k) else ri < Pow2(k - 1) && si < Pow2(k - 1))
      ensures !defined ==> X[..] == old(X[..])
      ensures defined ==>
        var width := if sf then Pow2(k) else Pow2(k - 1);
        (X[..] == if rd == 31 then old(X[..])
                  else old(X[..])[rd := BitfieldMove(opc, width, old(Read(rn)), old(Read(rd)), ri, si)])
      // A W register is zero-extended.
      ensures defined && !sf && rd != 31 ==> X[rd] < Pow2(Pow2(k - 1))
    {
      var m := if sf then k else k - 1;
      if sf != n || ri >= Pow2(m) || si >= Pow2(m) || opc > 2 {
        return false;
      }
      Pow2Monotone(m, k);
      var result;
      if si >= ri {
        result := BitfieldLow(Pow2(k), Pow2(m), sf, opc, ri, si, Read(rn), Read(rd));
      } else {
        result := BitfieldHigh(Pow2(k), m, sf, opc, ri, si, Read(rn), Read(rd));
      }
      BitfieldMoveFits(Pow2(k), opc, Pow2(m), Read(rn), Read(rd), ri, si);
      BitfieldMoveFits(Pow2(m), opc, Pow2(m), Read(rn), Read(rd), ri, si);
      Write(rd, result);
      return true;
    }

    method DisasExtract(sf: bool, n: bool, op21: nat, op0: nat, imm: nat, rm: nat, rn: nat, rd: nat)
      returns (defined: bool)
      requires Valid() && rm < 32 && rn < 32 && rd < 32
      modifies X
      ensures Valid()
      ensures defined <==> sf == n && op21 == 0 && op0 == 0 && (if sf then imm < Pow2(k) else imm < Pow2(k - 1))
      ensures !defined ==> X[..] == old(X[..])
      ensures defined ==>
        var width := if sf then Pow2(k) else Pow2(k - 1);
        (X[..] == if rd == 31 then old(X[..])
                  else old(X[..])[rd := ExtractPair(width, old(Read(rn)), old(Read(rm)), imm)])
      // A W register is zero-extended.
      ensures defined && !sf && rd != 31 ==> X[rd] < Pow2(Pow2(k - 1))
    {
      var m := if sf then k else k - 1;
      if sf != n || op21 != 0 || op0 != 0 || imm >= Pow2(m) {
        return false;
      }
      Pow2Monotone(m, k);
      var result := ExtractWord(Pow2(k), Pow2(m), sf, imm, rm == rn, Read(rm), Read(rn));
      ExtractPairFits(Pow2(k), Pow2(m), Read(rn), Read(rm), imm);
      ExtractPairFits(Pow2(m), Pow2(m), Read(rn), Read(rm), imm);
      Write(rd, result);
      return true;
    }
  }

  lemma BitfieldMoveFits(w: nat, opc: nat, n: nat, src: nat, dst: nat, r: nat, s: nat)
    requires r < n <= w && s < n
    ensures BitfieldMove(opc, n, src, dst, r, s) < Pow2(w)
  {
    AssembleBit((i: nat) => i < n && BitfieldBit(opc, n, src, dst, r, s, i), 0, n, 0);
    Pow2Monotone(n, w);
  }

  lemma ExtractPairFits(w: nat, n: nat, high: nat, low: nat, lsb: nat)
    requires lsb < n <= w
    ensures ExtractPair(n, high, low, lsb) < Pow2(w)
  {
    AssembleBit((i: nat) => i < n && Bit(if i + lsb < n then low else high, Turned(n, i, lsb)), 0, n, 0);
    Pow2Monotone(n, w);
  }

  // si >= ri: simple extractions, and the insertion at bit 0.
  method BitfieldLow(w: nat, n: nat, sf: bool, opc: nat, ri: nat, si: nat, src: nat, dst: nat) returns (rd: nat)
    requires ri <= si < n <= w && (sf ==> n == w) && opc <= 2 && dst < Pow2(w)
    ensures rd == BitfieldMove(opc, n, src, dst, ri, si)
  {
    var len := si - ri + 1;
    if opc == 0 {
      rd := SExtract(w, src, ri, len);
      SignedExtraction(w, n, src, dst, ri, si);
      SExtractBit(w, src, ri, len, 0);
    } else if opc == 2 {
      UnsignedExtraction(n, src, dst, ri, si);
      return Extract(src, ri, len);
    } else {
      var tmp := Extract(src, ri, len);
      rd := Deposit(w, dst, tmp, 0, len);
      Insertion(w, n, src, dst, ri, si);
      DepositBit(w, dst, tmp, 0, len, 0);
    }
    LowIfNarrow(w, n, sf, rd);
    rd := if sf then rd else Low(n, rd);
  }

  // si < ri: the field moves up, to end at the top of the word.
  method BitfieldHigh(w: nat, m: nat, sf: bool, opc: nat, ri: nat, si: nat, src: nat, dst: nat) returns (rd: nat)
    requires si < ri < Pow2(m) <= w && (sf ==> Pow2(m) == w) && opc <= 2 && dst < Pow2(w)
    ensures rd == BitfieldMove(opc, Pow2(m), src, dst, ri, si)
  {
    hide SExtract, Deposit, DepositZ, And, Low;
    var n := Pow2(m);
    var len := si + 1;
    AndOnes(m, n - ri);
    LowOfSmall(m, n - ri);
    var pos := And(n - ri, n - 1);
    var tmp := src;
    SignedHigh(w, n, src, dst, ri, si);
    if opc == 0 && len < ri {
      tmp := SExtract(w, tmp, 0, len);
      len := ri;
    }
    if opc == 1 {
      InsertionHigh(w, n, src, dst, ri, si);
      rd := Deposit(w, dst, tmp, pos, len);
      DepositBit(w, dst, tmp, pos, len, 0);
      LowIfNarrow(w, n, sf, rd);
      rd := if sf then rd else Low(n, rd);
    } else {
      UnsignedHigh(w, n, src, dst, ri, si);
      rd := DepositZ(w, tmp, pos, len);
    }
  }

  method ExtractWord(w: nat, n: nat, sf: bool, imm: nat, same: bool, rm: nat, rn: nat) returns (rd: nat)
    requires imm < n <= w && (sf ==> n == w) && rm < Pow2(w) && rn < Pow2(w) && (same ==> rm == rn)
    ensures rd == ExtractPair(n, rn, rm, imm)
  {
    LowIfNarrow(w, n, sf, rm);
    LowIfNarrow(w, n, sf, rn);
    if imm == 0 {
      ExtractNothing(n, rn, rm);
      rd := if sf then rm else Low(n, rm);
    } else if same {
      ExtractRotation(n, rm, imm);
      rd := if sf then RotR(w, rm, imm) else RotR(n, Low(n, rm), imm);
    } else {
      ExtractByShifts(w, n, rn, rm, imm);
      var right := Shr(if sf then rm else Low(n, rm), imm);
      var left := Shl(w, if sf then rn else Low(n, rn), n - imm);
      LowIfNarrow(w, n, sf, Or(right, left));
      OrOfShifts(w, n, sf, rm, rn, imm);
      rd := if sf then Or(right, left) else Low(n, Or(right, left));
    }
  }

  lemma LowIfNarrow(w: nat, n: nat, sf: bool, x: nat)
    requires sf ==> n == w
    ensures x < Pow2(w) ==> (sf ==> Low(n, x) == x)
  {
    if x < Pow2(w) && sf {
      LowOfSmall(n, x);
    }
  }

  lemma OrOfShifts(w: nat, n: nat, sf: bool, rm: nat, rn: nat, imm: nat)
    requires imm < n <= w && rm < Pow2(w)
    ensures sf ==> Or(Shr(rm, imm), Shl(w, rn, n - imm)) < Pow2(w)
  {
    ShrBelow(rm, imm);
    ShlBit(w, rn, n - imm, 0);
    OrBound(w, Shr(rm, imm), Shl(w, rn, n - imm));
  }
}

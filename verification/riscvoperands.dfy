// The operand fields of RISC-V instruction words, taken apart by shifts and put together again.
module RiscvOperands {
  import opened RiscvOps

  datatype Extra = Extra(rs3: bv64, rm: bv64, pred: bv64, succ: bv64, aq: bv64, rl: bv64)

  // Immediates are 32-bit patterns, kept in the low half of a 64-bit word.
  datatype Fields = Fields(rd: bv64, rs1: bv64, rs2: bv64, imm: bv64, extra: Extra)

  function NoExtra(): Extra { Extra(0, 0, 0, 0, 0, 0) }

  function Plain(rd: bv64, rs1: bv64, rs2: bv64, imm: bv64): Fields
  {
    Fields(rd, rs1, rs2, imm, NoExtra())
  }

  function Int32(x: bv64): bv64 { x & 0xFFFF_FFFF }

  // Arithmetic right shifts of a 64-bit word.

  function Fill(x: bv64): bv64 { if x >> 63 == 1 then 0xFFFF_FFFF_FFFF_FFFF else 0 }

  function Sar44(x: bv64): bv64 { (x >> 44) | (Fill(x) << 20) }

  function Sar52(x: bv64): bv64 { (x >> 52) | (Fill(x) << 12) }

  function Sar57(x: bv64): bv64 { (x >> 57) | (Fill(x) << 7) }

  function Sar63(x: bv64): bv64 { Fill(x) }

  // Registers and small fields.

  function RdOf(inst: bv64): bv64 { (inst << 52) >> 59 }

  function Rs1Of(inst: bv64): bv64 { (inst << 44) >> 59 }

  function Rs2Of(inst: bv64): bv64 { (inst << 39) >> 59 }

  function Rs3Of(inst: bv64): bv64 { (inst << 32) >> 59 }

  function AqOf(inst: bv64): bv64 { (inst << 37) >> 63 }

  function RlOf(inst: bv64): bv64 { (inst << 38) >> 63 }

  function PredOf(inst: bv64): bv64 { (inst << 36) >> 60 }

  function SuccOf(inst: bv64): bv64 { (inst << 40) >> 60 }

  function RmOf(inst: bv64): bv64 { (inst << 49) >> 61 }

  function Shamt5(inst: bv64): bv64 { (inst << 39) >> 59 }

  function Shamt6(inst: bv64): bv64 { (inst << 38) >> 58 }

  function Shamt7(inst: bv64): bv64 { (inst << 37) >> 57 }

  function Csr12(inst: bv64): bv64 { (inst << 32) >> 52 }

  // A compressed word names eight registers in three bits, x8 to x15.

  function CrdQ(inst: bv64): bv64 { ((inst << 59) >> 61) + 8 }

  function Crs1Q(inst: bv64): bv64 { ((inst << 54) >> 61) + 8 }

  function Crs1(inst: bv64): bv64 { (inst << 52) >> 59 }

  function Crs2(inst: bv64): bv64 { (inst << 57) >> 59 }

  // Immediates of 32-bit words.

  function Imm12(inst: bv64): bv64 { Int32(Sar52(inst << 32)) }

  function Imm20(inst: bv64): bv64 { Int32(Sar44(inst << 32) << 12) }

  function Jimm20(inst: bv64): bv64
  {
    Int32((Sar63(inst << 32) << 20) | (((inst << 33) >> 54) << 1) | (((inst << 43) >> 63) << 11) |
          (((inst << 44) >> 56) << 12))
  }

  function Simm12(inst: bv64): bv64 { Int32((Sar57(inst << 32) << 5) | ((inst << 52) >> 59)) }

  function Sbimm12(inst: bv64): bv64
  {
    Int32((Sar63(inst << 32) << 12) | (((inst << 33) >> 58) << 5) | (((inst << 52) >> 60) << 1) |
          (((inst << 56) >> 63) << 11))
  }

  // Immediates of compressed words.

  function CimmSh5(inst: bv64): bv64 { (inst << 57) >> 59 }

  function CimmSh6(inst: bv64): bv64 { (((inst << 51) >> 63) << 5) | ((inst << 57) >> 59) }

  function CimmI(inst: bv64): bv64 { Int32((Sar63(inst << 51) << 5) | ((inst << 57) >> 59)) }

  function CimmUi(inst: bv64): bv64 { Int32((Sar63(inst << 51) << 17) | (((inst << 57) >> 59) << 12)) }

  function CimmLwsp(inst: bv64): bv64
  {
    (((inst << 51) >> 63) << 5) | (((inst << 57) >> 61) << 2) | (((inst << 60) >> 62) << 6)
  }

  function CimmLdsp(inst: bv64): bv64
  {
    (((inst << 51) >> 63) << 5) | (((inst << 57) >> 62) << 3) | (((inst << 59) >> 61) << 6)
  }

  function CimmLqsp(inst: bv64): bv64
  {
    (((inst << 51) >> 63) << 5) | (((inst << 57) >> 63) << 4) | (((inst << 58) >> 60) << 6)
  }

  function Cimm16sp(inst: bv64): bv64
  {
    Int32((Sar63(inst << 51) << 9) | (((inst << 57) >> 63) << 4) | (((inst << 58) >> 63) << 6) |
          (((inst << 59) >> 62) << 7) | (((inst << 61) >> 63) << 5))
  }

  function CimmJ(inst: bv64): bv64
  {
    Int32((Sar63(inst << 51) << 11) | (((inst << 52) >> 63) << 4) | (((inst << 53) >> 62) << 8) |
          (((inst << 55) >> 63) << 10) | (((inst << 56) >> 63) << 6) | (((inst << 57) >> 63) << 7) |
          (((inst << 58) >> 61) << 1) | (((inst << 61) >> 63) << 5))
  }

  function CimmB(inst: bv64): bv64
  {
    Int32((Sar63(inst << 51) << 8) | (((inst << 52) >> 62) << 3) | (((inst << 57) >> 62) << 6) |
          (((inst << 59) >> 62) << 1) | (((inst << 61) >> 63) << 5))
  }

  function CimmSwsp(inst: bv64): bv64 { (((inst << 51) >> 60) << 2) | (((inst << 55) >> 62) << 6) }

  function CimmSdsp(inst: bv64): bv64 { (((inst << 51) >> 61) << 3) | (((inst << 54) >> 61) << 6) }

  function CimmSqsp(inst: bv64): bv64 { (((inst << 51) >> 62) << 4) | (((inst << 53) >> 60) << 6) }

  function Cimm4spn(inst: bv64): bv64
  {
    (((inst << 51) >> 62) << 4) | (((inst << 53) >> 60) << 6) | (((inst << 57) >> 63) << 2) |
    (((inst << 58) >> 63) << 3)
  }

  function CimmW(inst: bv64): bv64
  {
    (((inst << 51) >> 61) << 3) | (((inst << 57) >> 63) << 2) | (((inst << 58) >> 63) << 6)
  }

  function CimmD(inst: bv64): bv64 { (((inst << 51) >> 61) << 3) | (((inst << 57) >> 62) << 6) }

  function CimmQ(inst: bv64): bv64
  {
    (((inst << 51) >> 62) << 4) | (((inst << 53) >> 63) << 8) | (((inst << 57) >> 62) << 6)
  }

  // The operands of a word, by the layout of its operation; x1 is ra and x2 is sp.

  function RdIn(codec: Codec, inst: bv64): bv64
  {
    match codec
    case OfU | OfUj | OfI | OfISh5 | OfISh6 | OfISh7 | OfICsr | OfR | OfRM | OfR4M | OfRA | OfRL => RdOf(inst)
    case OfCbImm | OfCbSh5 | OfCbSh6 | OfCs => Crs1Q(inst)
    case OfCi | OfCiSh5 | OfCiSh6 | OfCiLwsp | OfCiLdsp | OfCiLqsp | OfCiLi | OfCiLui | OfCr | OfCrMv => Crs1(inst)
    case OfCiw4spn | OfClLw | OfClLd | OfClLq => CrdQ(inst)
    case OfCjJal | OfCrJalr => 1
    case OfCi16sp => 2
    case _ => 0
  }

  function Rs1In(codec: Codec, inst: bv64): bv64
  {
    match codec
    case OfI | OfISh5 | OfISh6 | OfISh7 | OfICsr | OfS | OfSb | OfR | OfRM | OfR4M | OfRA | OfRL => Rs1Of(inst)
    case OfCb | OfCbImm | OfCbSh5 | OfCbSh6 | OfClLw | OfClLd | OfClLq | OfCs | OfCsSw | OfCsSd | OfCsSq => Crs1Q(inst)
    case OfCi | OfCiSh5 | OfCiSh6 | OfCr | OfCrJalr | OfCrJr => Crs1(inst)
    case OfCrMv => Crs2(inst)
    case OfCi16sp | OfCiLwsp | OfCiLdsp | OfCiLqsp | OfCiw4spn | OfCssSwsp | OfCssSdsp | OfCssSqsp => 2
    case _ => 0
  }

  function Rs2In(codec: Codec, inst: bv64): bv64
  {
    match codec
    case OfS | OfSb | OfR | OfRM | OfR4M | OfRA => Rs2Of(inst)
    case OfCs | OfCsSw | OfCsSd | OfCsSq => CrdQ(inst)
    case OfCr | OfCssSwsp | OfCssSdsp | OfCssSqsp => Crs2(inst)
    case _ => 0
  }

  function ImmIn(codec: Codec, inst: bv64): bv64
  {
    match codec
    case OfU => Imm20(inst)
    case OfUj => Jimm20(inst)
    case OfI => Imm12(inst)
    case OfISh5 => Shamt5(inst)
    case OfISh6 => Shamt6(inst)
    case OfISh7 => Shamt7(inst)
    case OfICsr => Csr12(inst)
    case OfS => Simm12(inst)
    case OfSb => Sbimm12(inst)
    case OfCb => CimmB(inst)
    case OfCbImm | OfCi | OfCiLi => CimmI(inst)
    case OfCbSh5 | OfCiSh5 => CimmSh5(inst)
    case OfCbSh6 | OfCiSh6 => CimmSh6(inst)
    case OfCi16sp => Cimm16sp(inst)
    case OfCiLwsp => CimmLwsp(inst)
    case OfCiLdsp => CimmLdsp(inst)
    case OfCiLqsp => CimmLqsp(inst)
    case OfCiLui => CimmUi(inst)
    case OfCiw4spn => Cimm4spn(inst)
    case OfCj | OfCjJal => CimmJ(inst)
    case OfClLw | OfCsSw => CimmW(inst)
    case OfClLd | OfCsSd => CimmD(inst)
    case OfClLq | OfCsSq => CimmQ(inst)
    case OfCssSwsp => CimmSwsp(inst)
    case OfCssSdsp => CimmSdsp(inst)
    case OfCssSqsp => CimmSqsp(inst)
    case _ => 0
  }

  function ExtraIn(codec: Codec, inst: bv64): Extra
  {
    match codec
    case OfRM => Extra(0, RmOf(inst), 0, 0, 0, 0)
    case OfR4M => Extra(Rs3Of(inst), RmOf(inst), 0, 0, 0, 0)
    case OfRA | OfRL => Extra(0, 0, 0, 0, AqOf(inst), RlOf(inst))
    case OfRF => Extra(0, 0, PredOf(inst), SuccOf(inst), 0, 0)
    case _ => NoExtra()
  }

  function OperandsOf(codec: Codec, inst: bv64): Fields
  {
    Fields(RdIn(codec, inst), Rs1In(codec, inst), Rs2In(codec, inst), ImmIn(codec, inst), ExtraIn(codec, inst))
  }

  // The bits of a word under a mask, and two words side by side.

  function Part(inst: bv64, bits: bv64): bv64 { inst & bits }

  function Beside(x: bv64, y: bv64): bv64 { x | y }

  lemma PartsJoin(inst: bv64, x: bv64, y: bv64)
    ensures Part(inst, Beside(x, y)) == Beside(Part(inst, x), Part(inst, y))
  {
    hide Beside;
    MasksJoin(inst, x, y);
  }

  lemma MasksJoin(inst: bv64, x: bv64, y: bv64)
    ensures Beside(inst & x, inst & y) == inst & Beside(x, y)
  {}

  lemma PieceClear(bits: bv64, x: bv64, xBits: bv64)
    requires Part(x, xBits) == x && Part(bits, xBits) == 0
    ensures Part(x, bits) == 0
  {}

  lemma PartSwap(x: bv64, y: bv64)
    ensures Part(x, y) == Part(y, x)
  {}

  lemma BesideNothing(x: bv64)
    ensures Beside(x, 0) == Beside(0, x) == x
  {}

  lemma PartOfPart(inst: bv64, x: bv64, y: bv64)
    ensures Part(Part(inst, x), y) == Part(inst, Part(x, y))
  {}

  lemma PartAbsorbs(x: bv64, y: bv64)
    ensures Part(Beside(x, y), x) == x && Part(Beside(x, y), y) == y
  {}

  // Two pieces under masks that do not overlap can be taken out of one word.

  lemma HeldTogether(a: bv64, b: bv64, x: bv64, y: bv64)
    requires Part(x, a) == x && Part(y, b) == y && Part(a, b) == 0
    ensures Part(Beside(x, y), a) == x && Part(Beside(x, y), b) == y
    ensures Part(Beside(x, y), Beside(a, b)) == Beside(x, y)
  {
    hide Part, Beside;
    PartSwap(a, b);
    PieceClear(b, x, a);
    PieceClear(a, y, b);
    PartsJoin(a, x, y);
    PartsJoin(b, x, y);
    PartsJoin(Beside(x, y), a, b);
    PartSwap(Beside(x, y), a);
    PartSwap(Beside(x, y), b);
    PartSwap(x, a);
    PartSwap(y, b);
    PartSwap(x, b);
    PartSwap(y, a);
    BesideNothing(x);
    BesideNothing(y);
  }

  lemma JoinedParts(inst: bv64, a: bv64, b: bv64, x: bv64, y: bv64)
    requires Part(x, a) == x && Part(y, b) == y && Part(a, b) == 0
    ensures Part(inst, Beside(a, b)) == Beside(x, y) <==> Part(inst, a) == x && Part(inst, b) == y
  {
    hide Part, Beside;
    PartsJoin(inst, a, b);
    PartOfPart(inst, Beside(a, b), a);
    PartOfPart(inst, Beside(a, b), b);
    PartAbsorbs(a, b);
    HeldTogether(a, b, x, y);
  }

  // The layouts of 32-bit words turned around: a word from its operands, over the fixed bits.

  function EncodeU(rd: bv64, imm: bv64): bv64 { (imm & 0xFFFF_F000) | (rd << 7) }

  function EncodeUj(rd: bv64, imm: bv64): bv64
  {
    (((imm >> 20) & 1) << 31) | (((imm >> 1) & 0x3FF) << 21) | (((imm >> 11) & 1) << 20) |
    (((imm >> 12) & 0xFF) << 12) | (rd << 7)
  }

  function EncodeI(rd: bv64, rs1: bv64, imm: bv64): bv64 { ((imm & 0xFFF) << 20) | (rs1 << 15) | (rd << 7) }

  function EncodeS(rs1: bv64, rs2: bv64, imm: bv64): bv64
  {
    (((imm >> 5) & 0x7F) << 25) | (rs2 << 20) | (rs1 << 15) | ((imm & 0x1F) << 7)
  }

  function EncodeSb(rs1: bv64, rs2: bv64, imm: bv64): bv64
  {
    (((imm >> 12) & 1) << 31) | (((imm >> 5) & 0x3F) << 25) | (rs2 << 20) | (rs1 << 15) |
    (((imm >> 1) & 0xF) << 8) | (((imm >> 11) & 1) << 7)
  }

  function EncodeR(rd: bv64, rs1: bv64, rs2: bv64): bv64 { (rs2 << 20) | (rs1 << 15) | (rd << 7) }

  // Rounding mode, third source, ordering bits and the two sets of a fence.
  function EncodeExtra(x: Extra): bv64
  {
    (x.rs3 << 27) | (x.aq << 26) | (x.rl << 25) | (x.pred << 24) | (x.succ << 20) | (x.rm << 12)
  }

  // What the immediates can be: sign-extended ones have all bits equal from the sign bit up.

  predicate Reg(r: bv64) { r < 32 }

  predicate Upper20(imm: bv64) { imm & 0xFFF == 0 && imm <= 0xFFFF_FFFF }

  predicate Signed12(imm: bv64) { imm >> 11 == 0 || imm >> 11 == 0x1F_FFFF }

  predicate Even13(imm: bv64) { imm & 1 == 0 && (imm >> 12 == 0 || imm >> 12 == 0xF_FFFF) }

  predicate Even21(imm: bv64) { imm & 1 == 0 && (imm >> 20 == 0 || imm >> 20 == 0xFFF) }

  // The layouts of 32-bit words.
  predicate IsWordLayout(codec: Codec)
  {
    match codec
    case OfNone | OfU | OfUj | OfI | OfISh5 | OfISh6 | OfISh7 | OfICsr | OfS | OfSb | OfR | OfRM | OfR4M | OfRA | OfRL
    | OfRF => true
    case _ => false
  }

  predicate ImmediateFits(codec: Codec, imm: bv64)
  {
    match codec
    case OfU => Upper20(imm)
    case OfUj => Even21(imm)
    case OfI | OfS => Signed12(imm)
    case OfISh5 => imm < 0x20
    case OfISh6 => imm < 0x40
    case OfISh7 => imm < 0x80
    case OfICsr => imm < 0x1000
    case OfSb => Even13(imm)
    case _ => imm == 0
  }

  predicate ExtraFits(codec: Codec, x: Extra)
  {
    match codec
    case OfRM => x == Extra(0, x.rm, 0, 0, 0, 0) && x.rm < 8
    case OfR4M => x == Extra(x.rs3, x.rm, 0, 0, 0, 0) && Reg(x.rs3) && x.rm < 8
    case OfRA | OfRL => x == Extra(0, 0, 0, 0, x.aq, x.rl) && x.aq < 2 && x.rl < 2
    case OfRF => x == Extra(0, 0, x.pred, x.succ, 0, 0) && x.pred < 0x10 && x.succ < 0x10
    case _ => x == NoExtra()
  }

  predicate HasRd(codec: Codec) { !codec.OfNone? && !codec.OfS? && !codec.OfSb? && !codec.OfRF? }

  predicate HasRs1(codec: Codec) { !codec.OfNone? && !codec.OfU? && !codec.OfUj? && !codec.OfRF? }

  predicate HasRs2(codec: Codec)
  {
    codec.OfS? || codec.OfSb? || codec.OfR? || codec.OfRM? || codec.OfR4M? || codec.OfRA?
  }

  // The operands a layout can hold.
  predicate InRange(codec: Codec, f: Fields)
  {
    && Reg(f.rd) && Reg(f.rs1) && Reg(f.rs2) && ImmediateFits(codec, f.imm) && ExtraFits(codec, f.extra)
    && (!HasRd(codec) ==> f.rd == 0) && (!HasRs1(codec) ==> f.rs1 == 0) && (!HasRs2(codec) ==> f.rs2 == 0)
  }

  // The bits of a word that a layout takes operands from.
  function LayoutBits(codec: Codec): bv64
  {
    match codec
    case OfU | OfUj => 0xFFFF_FF80
    case OfI | OfICsr | OfS | OfSb => 0xFFFF_8F80
    case OfISh5 | OfR => 0x01FF_8F80
    case OfISh6 => 0x03FF_8F80
    case OfISh7 | OfRA => 0x07FF_8F80
    case OfRM => 0x01FF_FF80
    case OfR4M => 0xF9FF_FF80
    case OfRL => 0x060F_8F80
    case OfRF => 0x0FF0_0000
    case _ => 0
  }

  function EncodeLayout(codec: Codec, f: Fields): bv64
  {
    match codec
    case OfU => EncodeU(f.rd, f.imm)
    case OfUj => EncodeUj(f.rd, f.imm)
    case OfI | OfISh5 | OfISh6 | OfISh7 | OfICsr => EncodeI(f.rd, f.rs1, f.imm)
    case OfS => EncodeS(f.rs1, f.rs2, f.imm)
    case OfSb => EncodeSb(f.rs1, f.rs2, f.imm)
    case _ => Beside(EncodeR(f.rd, f.rs1, f.rs2), EncodeExtra(f.extra))
  }

  // For each layout: what is encoded is decoded again, whatever the other bits are, and what is
  // decoded is encoded again, so that no operand bit is lost or moved.

  ghost predicate Found(codec: Codec, f: Fields, rest: bv64)
  {
    OperandsOf(codec, Beside(EncodeLayout(codec, f), rest)) == f
  }

  predicate Kept(codec: Codec, inst: bv64)
  {
    InRange(codec, OperandsOf(codec, inst)) && EncodeLayout(codec, OperandsOf(codec, inst)) ==
      Part(inst, LayoutBits(codec))
  }

  lemma RegistersInRange(inst: bv64)
    ensures Reg(RdOf(inst)) && Reg(Rs1Of(inst)) && Reg(Rs2Of(inst)) && Reg(0)
  {}

  lemma UDecoded(rd: bv64, imm: bv64, fixed: bv64)
    requires Reg(rd) && Upper20(imm) && Part(fixed, 0xFFFF_FF80) == 0
    ensures var e := Beside(EncodeU(rd, imm), fixed);
      RdOf(e) == rd && Imm20(e) == imm
  {}

  lemma UEncoded(inst: bv64)
    ensures EncodeU(RdOf(inst), Imm20(inst)) == Part(inst, 0xFFFF_FF80)
  {}

  lemma URange(inst: bv64)
    ensures Upper20(Imm20(inst))
  {}

  lemma UjDecoded(rd: bv64, imm: bv64, fixed: bv64)
    requires Reg(rd) && Even21(imm) && Part(fixed, 0xFFFF_FF80) == 0
    ensures var e := Beside(EncodeUj(rd, imm), fixed);
      RdOf(e) == rd && Jimm20(e) == imm
  {}

  lemma UjEncoded(inst: bv64)
    ensures EncodeUj(RdOf(inst), Jimm20(inst)) == Part(inst, 0xFFFF_FF80)
  {}

  lemma UjRange(inst: bv64)
    ensures Even21(Jimm20(inst))
  {}

  lemma IDecoded(rd: bv64, rs1: bv64, imm: bv64, fixed: bv64)
    requires Reg(rd) && Reg(rs1) && Signed12(imm) && Part(fixed, 0xFFFF_8F80) == 0
    ensures var e := Beside(EncodeI(rd, rs1, imm), fixed);
      RdOf(e) == rd && Rs1Of(e) == rs1 && Imm12(e) == imm
  {}

  lemma IEncoded(inst: bv64)
    ensures EncodeI(RdOf(inst), Rs1Of(inst), Imm12(inst)) == Part(inst, 0xFFFF_8F80)
  {}

  lemma IRange(inst: bv64)
    ensures Signed12(Imm12(inst))
  {}

  lemma SDecoded(rs1: bv64, rs2: bv64, imm: bv64, fixed: bv64)
    requires Reg(rs1) && Reg(rs2) && Signed12(imm) && Part(fixed, 0xFFFF_8F80) == 0
    ensures var e := Beside(EncodeS(rs1, rs2, imm), fixed);
      Rs1Of(e) == rs1 && Rs2Of(e) == rs2 && Simm12(e) == imm
  {}

  lemma SEncoded(inst: bv64)
    ensures EncodeS(Rs1Of(inst), Rs2Of(inst), Simm12(inst)) == Part(inst, 0xFFFF_8F80)
  {}

  lemma SRange(inst: bv64)
    ensures Signed12(Simm12(inst))
  {}

  lemma SbDecoded(rs1: bv64, rs2: bv64, imm: bv64, fixed: bv64)
    requires Reg(rs1) && Reg(rs2) && Even13(imm) && Part(fixed, 0xFFFF_8F80) == 0
    ensures var e := Beside(EncodeSb(rs1, rs2, imm), fixed);
      Rs1Of(e) == rs1 && Rs2Of(e) == rs2 && Sbimm12(e) == imm
  {}

  lemma SbEncoded(inst: bv64)
    ensures EncodeSb(Rs1Of(inst), Rs2Of(inst), Sbimm12(inst)) == Part(inst, 0xFFFF_8F80)
  {}

  lemma SbRange(inst: bv64)
    ensures Even13(Sbimm12(inst))
  {}

  lemma RMBits(inst: bv64)
    ensures RmOf(inst) < 8
    ensures Beside(EncodeR(RdOf(inst), Rs1Of(inst), Rs2Of(inst)), EncodeExtra(Extra(0, RmOf(inst), 0, 0, 0, 0))) ==
      Part(inst, 0x01FF_FF80)
  {}

  lemma UFound(f: Fields, rest: bv64)
    requires InRange(OfU, f) && Part(rest, LayoutBits(OfU)) == 0
    ensures Found(OfU, f, rest)
  {
    hide Part, Beside, RdOf, Rs1Of, Rs2Of, EncodeU, Imm20, Upper20, Reg;
    UDecoded(f.rd, f.imm, rest);
  }

  lemma UKept(inst: bv64)
    ensures Kept(OfU, inst)
  {
    hide Part, RdOf, Rs1Of, Rs2Of, EncodeU, Imm20, Upper20, Reg;
    RegistersInRange(inst);
    URange(inst);
    UEncoded(inst);
  }

  lemma UjFound(f: Fields, rest: bv64)
    requires InRange(OfUj, f) && Part(rest, LayoutBits(OfUj)) == 0
    ensures Found(OfUj, f, rest)
  {
    hide Part, Beside, RdOf, Rs1Of, Rs2Of, EncodeUj, Jimm20, Even21, Reg;
    UjDecoded(f.rd, f.imm, rest);
  }

  lemma UjKept(inst: bv64)
    ensures Kept(OfUj, inst)
  {
    hide Part, RdOf, Rs1Of, Rs2Of, EncodeUj, Jimm20, Even21, Reg;
    RegistersInRange(inst);
    UjRange(inst);
    UjEncoded(inst);
  }

  lemma IFound(f: Fields, rest: bv64)
    requires InRange(OfI, f) && Part(rest, LayoutBits(OfI)) == 0
    ensures Found(OfI, f, rest)
  {
    hide Part, Beside, RdOf, Rs1Of, Rs2Of, EncodeI, Imm12, Signed12, Reg;
    IDecoded(f.rd, f.rs1, f.imm, rest);
  }

  lemma IKept(inst: bv64)
    ensures Kept(OfI, inst)
  {
    hide Part, RdOf, Rs1Of, Rs2Of, EncodeI, Imm12, Signed12, Reg;
    RegistersInRange(inst);
    IRange(inst);
    IEncoded(inst);
  }

  lemma ISh5Decoded(rd: bv64, rs1: bv64, imm: bv64, fixed: bv64)
    requires Reg(rd) && Reg(rs1) && imm < 0x20 && Part(fixed, 0x01FF_8F80) == 0
    ensures var e := Beside(EncodeI(rd, rs1, imm), fixed);
      RdOf(e) == rd && Rs1Of(e) == rs1 && Shamt5(e) == imm
  {}

  lemma ISh5Found(f: Fields, rest: bv64)
    requires InRange(OfISh5, f) && Part(rest, LayoutBits(OfISh5)) == 0
    ensures Found(OfISh5, f, rest)
  {
    hide Part, Beside, RdOf, Rs1Of, Rs2Of, EncodeI, Shamt5, Reg;
    ISh5Decoded(f.rd, f.rs1, f.imm, rest);
  }

  lemma ISh5Bits(inst: bv64)
    ensures Shamt5(inst) < 0x20 && EncodeI(RdOf(inst), Rs1Of(inst), Shamt5(inst)) == Part(inst, 0x01FF_8F80)
  {}

  lemma ISh5Kept(inst: bv64)
    ensures Kept(OfISh5, inst)
  {
    hide Part, Beside, RdOf, Rs1Of, Shamt5, EncodeI, Reg;
    RegistersInRange(inst);
    ISh5Bits(inst);
  }

  lemma ISh6Decoded(rd: bv64, rs1: bv64, imm: bv64, fixed: bv64)
    requires Reg(rd) && Reg(rs1) && imm < 0x40 && Part(fixed, 0x03FF_8F80) == 0
    ensures var e := Beside(EncodeI(rd, rs1, imm), fixed);
      RdOf(e) == rd && Rs1Of(e) == rs1 && Shamt6(e) == imm
  {}

  lemma ISh6Found(f: Fields, rest: bv64)
    requires InRange(OfISh6, f) && Part(rest, LayoutBits(OfISh6)) == 0
    ensures Found(OfISh6, f, rest)
  {
    hide Part, Beside, RdOf, Rs1Of, Rs2Of, EncodeI, Shamt6, Reg;
    ISh6Decoded(f.rd, f.rs1, f.imm, rest);
  }

  lemma ISh6Bits(inst: bv64)
    ensures Shamt6(inst) < 0x40 && EncodeI(RdOf(inst), Rs1Of(inst), Shamt6(inst)) == Part(inst, 0x03FF_8F80)
  {}

  lemma ISh6Kept(inst: bv64)
    ensures Kept(OfISh6, inst)
  {
    hide Part, Beside, RdOf, Rs1Of, Shamt6, EncodeI, Reg;
    RegistersInRange(inst);
    ISh6Bits(inst);
  }

  lemma ISh7Decoded(rd: bv64, rs1: bv64, imm: bv64, fixed: bv64)
    requires Reg(rd) && Reg(rs1) && imm < 0x80 && Part(fixed, 0x07FF_8F80) == 0
    ensures var e := Beside(EncodeI(rd, rs1, imm), fixed);
      RdOf(e) == rd && Rs1Of(e) == rs1 && Shamt7(e) == imm
  {}

  lemma ISh7Found(f: Fields, rest: bv64)
    requires InRange(OfISh7, f) && Part(rest, LayoutBits(OfISh7)) == 0
    ensures Found(OfISh7, f, rest)
  {
    hide Part, Beside, RdOf, Rs1Of, Rs2Of, EncodeI, Shamt7, Reg;
    ISh7Decoded(f.rd, f.rs1, f.imm, rest);
  }

  lemma ISh7Bits(inst: bv64)
    ensures Shamt7(inst) < 0x80 && EncodeI(RdOf(inst), Rs1Of(inst), Shamt7(inst)) == Part(inst, 0x07FF_8F80)
  {}

  lemma ISh7Kept(inst: bv64)
    ensures Kept(OfISh7, inst)
  {
    hide Part, Beside, RdOf, Rs1Of, Shamt7, EncodeI, Reg;
    RegistersInRange(inst);
    ISh7Bits(inst);
  }

  lemma ICsrDecoded(rd: bv64, rs1: bv64, imm: bv64, fixed: bv64)
    requires Reg(rd) && Reg(rs1) && imm < 0x1000 && Part(fixed, 0xFFFF_8F80) == 0
    ensures var e := Beside(EncodeI(rd, rs1, imm), fixed);
      RdOf(e) == rd && Rs1Of(e) == rs1 && Csr12(e) == imm
  {}

  lemma ICsrFound(f: Fields, rest: bv64)
    requires InRange(OfICsr, f) && Part(rest, LayoutBits(OfICsr)) == 0
    ensures Found(OfICsr, f, rest)
  {
    hide Part, Beside, RdOf, Rs1Of, Rs2Of, EncodeI, Csr12, Reg;
    ICsrDecoded(f.rd, f.rs1, f.imm, rest);
  }

  lemma ICsrBits(inst: bv64)
    ensures Csr12(inst) < 0x1000 && EncodeI(RdOf(inst), Rs1Of(inst), Csr12(inst)) == Part(inst, 0xFFFF_8F80)
  {}

  lemma ICsrKept(inst: bv64)
    ensures Kept(OfICsr, inst)
  {
    hide Part, Beside, RdOf, Rs1Of, Csr12, EncodeI, Reg;
    RegistersInRange(inst);
    ICsrBits(inst);
  }

  lemma SFound(f: Fields, rest: bv64)
    requires InRange(OfS, f) && Part(rest, LayoutBits(OfS)) == 0
    ensures Found(OfS, f, rest)
  {
    hide Part, Beside, RdOf, Rs1Of, Rs2Of, EncodeS, Simm12, Signed12, Reg;
    SDecoded(f.rs1, f.rs2, f.imm, rest);
  }

  lemma SKept(inst: bv64)
    ensures Kept(OfS, inst)
  {
    hide Part, RdOf, Rs1Of, Rs2Of, EncodeS, Simm12, Signed12, Reg;
    RegistersInRange(inst);
    SRange(inst);
    SEncoded(inst);
  }

  lemma SbFound(f: Fields, rest: bv64)
    requires InRange(OfSb, f) && Part(rest, LayoutBits(OfSb)) == 0
    ensures Found(OfSb, f, rest)
  {
    hide Part, Beside, RdOf, Rs1Of, Rs2Of, EncodeSb, Sbimm12, Even13, Reg;
    SbDecoded(f.rs1, f.rs2, f.imm, rest);
  }

  lemma SbKept(inst: bv64)
    ensures Kept(OfSb, inst)
  {
    hide Part, RdOf, Rs1Of, Rs2Of, EncodeSb, Sbimm12, Even13, Reg;
    RegistersInRange(inst);
    SbRange(inst);
    SbEncoded(inst);
  }

  lemma RDecoded(rd: bv64, rs1: bv64, rs2: bv64, fixed: bv64)
    requires Reg(rd) && Reg(rs1) && Reg(rs2) && Part(fixed, 0x01FF_8F80) == 0
    ensures var e := Beside(Beside(EncodeR(rd, rs1, rs2), EncodeExtra(NoExtra())), fixed);
      RdOf(e) == rd && Rs1Of(e) == rs1 && Rs2Of(e) == rs2
  {}

  lemma RFound(f: Fields, rest: bv64)
    requires InRange(OfR, f) && Part(rest, LayoutBits(OfR)) == 0
    ensures Found(OfR, f, rest)
  {
    hide Part, Beside, RdOf, Rs1Of, Rs2Of, EncodeR, EncodeExtra, Reg;
    RDecoded(f.rd, f.rs1, f.rs2, rest);
  }

  lemma RBits(inst: bv64)
    ensures Beside(EncodeR(RdOf(inst), Rs1Of(inst), Rs2Of(inst)), EncodeExtra(NoExtra())) == Part(inst, 0x01FF_8F80)
  {}

  lemma RKept(inst: bv64)
    ensures Kept(OfR, inst)
  {
    hide Part, Beside, RdOf, Rs1Of, Rs2Of, EncodeR, EncodeExtra;
    RegistersInRange(inst);
    RBits(inst);
    assert OperandsOf(OfR, inst) == Plain(RdOf(inst), Rs1Of(inst), Rs2Of(inst), 0);
  }

  lemma RMFound(f: Fields, rest: bv64)
    requires InRange(OfRM, f) && Part(rest, LayoutBits(OfRM)) == 0
    ensures Found(OfRM, f, rest)
  {}

  lemma RMKept(inst: bv64)
    ensures Kept(OfRM, inst)
  {
    hide Part, Beside, RdOf, Rs1Of, Rs2Of, RmOf, EncodeR, EncodeExtra, Reg;
    RegistersInRange(inst);
    RMBits(inst);
  }

  lemma R4MFound(f: Fields, rest: bv64)
    requires InRange(OfR4M, f) && Part(rest, LayoutBits(OfR4M)) == 0
    ensures Found(OfR4M, f, rest)
  {}

  lemma R4MBits(inst: bv64)
    ensures Reg(Rs3Of(inst)) && RmOf(inst) < 8
    ensures Beside(EncodeR(RdOf(inst), Rs1Of(inst), Rs2Of(inst)), EncodeExtra(Extra(Rs3Of(inst), RmOf(inst), 0, 0, 0,
      0))) == Part(inst, 0xF9FF_FF80)
  {}

  lemma R4MKept(inst: bv64)
    ensures Kept(OfR4M, inst)
  {
    hide Part, Beside, RdOf, Rs1Of, Rs2Of, RmOf, Rs3Of, EncodeR, EncodeExtra, Reg;
    RegistersInRange(inst);
    R4MBits(inst);
  }

  lemma RADecoded(rd: bv64, rs1: bv64, rs2: bv64, aq: bv64, rl: bv64, fixed: bv64)
    requires Reg(rd) && Reg(rs1) && Reg(rs2) && aq < 2 && rl < 2 && Part(fixed, 0x07FF_8F80) == 0
    ensures var e := Beside(Beside(EncodeR(rd, rs1, rs2), EncodeExtra(Extra(0, 0, 0, 0, aq, rl))), fixed);
      RdOf(e) == rd && Rs1Of(e) == rs1 && Rs2Of(e) == rs2 && AqOf(e) == aq && RlOf(e) == rl
  {}

  lemma RAFound(f: Fields, rest: bv64)
    requires InRange(OfRA, f) && Part(rest, LayoutBits(OfRA)) == 0
    ensures Found(OfRA, f, rest)
  {
    hide Part, Beside, RdOf, Rs1Of, Rs2Of, AqOf, RlOf, EncodeR, EncodeExtra, Reg;
    RADecoded(f.rd, f.rs1, f.rs2, f.extra.aq, f.extra.rl, rest);
  }

  lemma RABits(inst: bv64)
    ensures AqOf(inst) < 2 && RlOf(inst) < 2
    ensures Beside(EncodeR(RdOf(inst), Rs1Of(inst), Rs2Of(inst)), EncodeExtra(Extra(0, 0, 0, 0, AqOf(inst),
      RlOf(inst)))) == Part(inst, 0x07FF_8F80)
  {}

  lemma RAKept(inst: bv64)
    ensures Kept(OfRA, inst)
  {
    hide Part, Beside, RdOf, Rs1Of, Rs2Of, AqOf, RlOf, EncodeR, EncodeExtra, Reg;
    RegistersInRange(inst);
    RABits(inst);
  }

  lemma RLFound(f: Fields, rest: bv64)
    requires InRange(OfRL, f) && Part(rest, LayoutBits(OfRL)) == 0
    ensures Found(OfRL, f, rest)
  {}

  lemma RLBits(inst: bv64)
    ensures AqOf(inst) < 2 && RlOf(inst) < 2
    ensures Beside(EncodeR(RdOf(inst), Rs1Of(inst), 0), EncodeExtra(Extra(0, 0, 0, 0, AqOf(inst), RlOf(inst)))) ==
      Part(inst, 0x060F_8F80)
  {}

  lemma RLKept(inst: bv64)
    ensures Kept(OfRL, inst)
  {
    hide Part, Beside, RdOf, Rs1Of, Rs2Of, AqOf, RlOf, EncodeR, EncodeExtra;
    RegistersInRange(inst);
    RLBits(inst);
    assert OperandsOf(OfRL, inst) == Fields(RdOf(inst), Rs1Of(inst), 0, 0, Extra(0, 0, 0, 0, AqOf(inst), RlOf(inst)));
  }

  lemma RFFound(f: Fields, rest: bv64)
    requires InRange(OfRF, f) && Part(rest, LayoutBits(OfRF)) == 0
    ensures Found(OfRF, f, rest)
  {}

  lemma RFBits(inst: bv64)
    ensures PredOf(inst) < 0x10 && SuccOf(inst) < 0x10
    ensures Beside(EncodeR(0, 0, 0), EncodeExtra(Extra(0, 0, PredOf(inst), SuccOf(inst), 0, 0))) ==
      Part(inst, 0x0FF0_0000)
  {}

  lemma RFKept(inst: bv64)
    ensures Kept(OfRF, inst)
  {
    hide Part, Beside, RdOf, Rs1Of, Rs2Of, PredOf, SuccOf, EncodeR, EncodeExtra, Reg;
    RegistersInRange(inst);
    RFBits(inst);
  }

  lemma NoneFound(f: Fields, rest: bv64)
    requires InRange(OfNone, f) && Part(rest, LayoutBits(OfNone)) == 0
    ensures Found(OfNone, f, rest)
  {}

  lemma NoneKept(inst: bv64)
    ensures Kept(OfNone, inst)
  {}

  predicate HasImmediate(codec: Codec)
  {
    match codec
    case OfU | OfUj | OfI | OfISh5 | OfISh6 | OfISh7 | OfICsr | OfS | OfSb => true
    case _ => false
  }

  lemma ImmediateLayoutFound(codec: Codec, f: Fields, rest: bv64)
    requires HasImmediate(codec) && InRange(codec, f) && Part(rest, LayoutBits(codec)) == 0
    ensures Found(codec, f, rest)
  {
    hide Found, InRange, LayoutBits, Part;
    if codec.OfU? {
      UFound(f, rest);
    } else if codec.OfUj? {
      UjFound(f, rest);
    } else if codec.OfI? {
      IFound(f, rest);
    } else if codec.OfISh5? {
      ISh5Found(f, rest);
    } else if codec.OfISh6? {
      ISh6Found(f, rest);
    } else if codec.OfISh7? {
      ISh7Found(f, rest);
    } else if codec.OfICsr? {
      ICsrFound(f, rest);
    } else if codec.OfS? {
      SFound(f, rest);
    } else {
      SbFound(f, rest);
    }
  }

  lemma RegisterLayoutFound(codec: Codec, f: Fields, rest: bv64)
    requires IsWordLayout(codec) && !HasImmediate(codec) && InRange(codec, f) && Part(rest, LayoutBits(codec)) == 0
    ensures Found(codec, f, rest)
  {
    hide Found, InRange, LayoutBits, Part;
    if codec.OfR? {
      RFound(f, rest);
    } else if codec.OfRM? {
      RMFound(f, rest);
    } else if codec.OfR4M? {
      R4MFound(f, rest);
    } else if codec.OfRA? {
      RAFound(f, rest);
    } else if codec.OfRL? {
      RLFound(f, rest);
    } else if codec.OfRF? {
      RFFound(f, rest);
    } else {
      NoneFound(f, rest);
    }
  }

  // All operands a layout can hold are read back from the word that encodes them ...
  lemma LayoutFound(codec: Codec, f: Fields, rest: bv64)
    requires IsWordLayout(codec) && InRange(codec, f) && Part(rest, LayoutBits(codec)) == 0
    ensures OperandsOf(codec, Beside(EncodeLayout(codec, f), rest)) == f
  {
    hide OperandsOf, InRange, EncodeLayout, LayoutBits, Part, Beside;
    if HasImmediate(codec) {
      ImmediateLayoutFound(codec, f, rest);
    } else {
      RegisterLayoutFound(codec, f, rest);
    }
  }

  // ... and the operands read from any word are ones the layout can hold, and encoded again give the
  // bits of the word.
  lemma LayoutKept(codec: Codec, inst: bv64)
    requires IsWordLayout(codec)
    ensures var f := OperandsOf(codec, inst);
      InRange(codec, f) && EncodeLayout(codec, f) == Part(inst, LayoutBits(codec))
  {
    hide OperandsOf, InRange, EncodeLayout, LayoutBits, Part;
    match codec
    case OfU => UKept(inst);
    case OfUj => UjKept(inst);
    case OfI => IKept(inst);
    case OfISh5 => ISh5Kept(inst);
    case OfISh6 => ISh6Kept(inst);
    case OfISh7 => ISh7Kept(inst);
    case OfICsr => ICsrKept(inst);
    case OfS => SKept(inst);
    case OfSb => SbKept(inst);
    case OfR => RKept(inst);
    case OfRM => RMKept(inst);
    case OfR4M => R4MKept(inst);
    case OfRA => RAKept(inst);
    case OfRL => RLKept(inst);
    case OfRF => RFKept(inst);
    case OfNone => NoneKept(inst);
  }
}

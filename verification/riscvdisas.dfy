// The RISC-V disassembler's passes over one word: decode, decompress, show as a
// pseudo-instruction.
module RiscvDecoder {
  import opened RiscvOps
  import opened RiscvOperands
  import opened RiscvParcels
  import opened RiscvWords

  function Decompress(isa: Isa, d: Decoded): Decoded
  {
    if d.op.Parcel? && Expansion(isa, d.op.c) != Illegal then
      var op := Expansion(isa, d.op.c);
      if NeedsImmediate(d.op.c) && d.f.imm == 0 then d.(op := Illegal) else d.(op := op, codec := CodecOf(op))
    else d
  }

  // Every compressed operation the decoder comes up with exists in its instruction set.
  predicate Expandable(isa: Isa, op: Op)
  {
    op == Illegal || (op.Parcel? && Expansion(isa, op.c) != Illegal)
  }

  lemma Quadrant0Expands(isa: Isa, inst: bv64)
    ensures Expandable(isa, Quadrant0(isa, inst))
  {}

  lemma Quadrant1Expands(isa: Isa, inst: bv64)
    ensures Expandable(isa, Quadrant1(isa, inst))
  {}

  lemma Quadrant2Expands(isa: Isa, inst: bv64)
    ensures Expandable(isa, Quadrant2(isa, inst))
  {}

  lemma ParcelExpands(isa: Isa, inst: bv64)
    requires Parcel16(inst)
    ensures Expandable(isa, Opcode(isa, inst))
  {
    Quadrant0Expands(isa, inst);
    Quadrant1Expands(isa, inst);
    Quadrant2Expands(isa, inst);
  }

  // What compressed operations expand to.
  predicate Target(op: Op)
  {
    match op
    case Upper(Lui) | Jal | Jalr | Branch(Beq) | Branch(Bne) => true
    case Immediate(Addi) | Immediate(Andi) | Immediate(Addiw) | Shift(_, Xlen) => true
    case Load(Lw) | Load(Ld) | Load(Lq) | Load(Flw) | Load(Fld) => true
    case Store(Sw) | Store(Sd) | Store(Sq) | Store(Fsw) | Store(Fsd) => true
    case Register(Add, Xlen) | Register(Sub, Xlen) | Register(Xor, Xlen) | Register(Or, Xlen) => true
    case Register(And, Xlen) | Register(Add, Bits32) | Register(Sub, Bits32) | System(Ebreak) => true
    case _ => false
  }

  lemma TargetIsFree(op: Op)
    requires Target(op)
    ensures IsFree(op)
  {}

  // Every operand an expansion's layout can hold is in some word of the expansion.
  lemma TargetWord(isa: Isa, op: Op, f: Fields)
    requires Target(op) && InRange(CodecOf(op), f)
    ensures Word(WordOf(op, f)) && DecodeInst(isa, WordOf(op, f)) == Decoded(op, CodecOf(op), f)
  {
    hide Target, IsFree, InRange, CodecOf, FormatOf, Held, WordOf, Word, OperandsOf, Opcode;
    TargetIsFree(op);
    hide IsWordOp;
    Formats(op);
    AnyHeld(op, f);
    WordDecoded(isa, op, f);
  }

  // The immediates of compressed words fit the layouts they are expanded to.

  // The layout of an expansion for each layout of a 16-bit word.
  predicate Becomes(parcel: Codec, word: Codec)
  {
    match parcel
    case OfCiw4spn | OfCi | OfCiLi | OfCi16sp | OfCbImm | OfCrMv | OfCrJr | OfCrJalr => word == OfI
    case OfClLw | OfClLd | OfClLq | OfCiLwsp | OfCiLdsp | OfCiLqsp => word == OfI
    case OfCsSw | OfCsSd | OfCsSq | OfCssSwsp | OfCssSdsp | OfCssSqsp => word == OfS
    case OfCbSh6 | OfCiSh6 => word == OfISh7
    case OfCs | OfCr => word == OfR
    case OfCiLui => word == OfU
    case OfCj | OfCjJal => word == OfUj
    case OfCb => word == OfSb
    case OfCiNone => word == OfI || word == OfNone
    case _ => false
  }

  // The operands a 16-bit layout can hold are among those its expansion's layout can.

  lemma SpotSuits(spot: Spot, r: bv64)
    requires RegFits(spot, r) && spot != SameAsRd
    ensures Reg(r) && (spot == IsX0 ==> r == 0)
  {}

  lemma SmallSuits(kind: Scatter, imm: bv64)
    requires ImmFits(kind, imm) && (kind.ImmI? || kind.Imm16sp? || kind.Imm4spn? || kind.NoImm?)
    ensures ImmediateFits(OfI, imm)
  {}

  lemma OffsetSuits(kind: Scatter, imm: bv64)
    requires ImmFits(kind, imm) && (kind.ImmW? || kind.ImmD? || kind.ImmQ?)
    ensures ImmediateFits(OfI, imm) && ImmediateFits(OfS, imm)
  {}

  lemma SpLoadSuits(kind: Scatter, imm: bv64)
    requires ImmFits(kind, imm) && (kind.ImmLwsp? || kind.ImmLdsp? || kind.ImmLqsp?)
    ensures ImmediateFits(OfI, imm)
  {}

  lemma SpStoreSuits(kind: Scatter, imm: bv64)
    requires ImmFits(kind, imm) && (kind.ImmSwsp? || kind.ImmSdsp? || kind.ImmSqsp?)
    ensures ImmediateFits(OfS, imm)
  {}

  lemma ShiftSuits(imm: bv64)
    requires ImmFits(ImmSh6, imm)
    ensures ImmediateFits(OfISh7, imm)
  {}

  lemma UpperSuits(imm: bv64)
    requires ImmFits(ImmUi, imm)
    ensures ImmediateFits(OfU, imm)
  {}

  lemma JumpSuits(imm: bv64)
    requires ImmFits(ImmJ, imm)
    ensures ImmediateFits(OfUj, imm)
  {}

  lemma BranchSuits(imm: bv64)
    requires ImmFits(ImmB, imm)
    ensures ImmediateFits(OfSb, imm)
  {}

  lemma NothingSuits(imm: bv64)
    requires ImmFits(NoImm, imm)
    ensures ImmediateFits(OfR, imm) && ImmediateFits(OfNone, imm) && ImmediateFits(OfI, imm)
  {}

  // The layouts an immediate scattered in that way is expanded to.
  predicate Receives(word: Codec, kind: Scatter)
  {
    match kind
    case NoImm => word.OfI? || word.OfR? || word.OfNone?
    case ImmI | Imm16sp | Imm4spn | ImmLwsp | ImmLdsp | ImmLqsp => word.OfI?
    case ImmW | ImmD | ImmQ => word.OfI? || word.OfS?
    case ImmSwsp | ImmSdsp | ImmSqsp => word.OfS?
    case ImmSh6 => word.OfISh7?
    case ImmUi => word.OfU?
    case ImmJ => word.OfUj?
    case ImmB => word.OfSb?
  }

  lemma ImmediateSuits(kind: Scatter, word: Codec, imm: bv64)
    requires Receives(word, kind) && ImmFits(kind, imm)
    ensures ImmediateFits(word, imm)
  {
    hide ImmFits, ImmediateFits;
    match kind
    case NoImm => NothingSuits(imm);
    case ImmI | Imm16sp | Imm4spn => SmallSuits(kind, imm);
    case ImmW | ImmD | ImmQ => OffsetSuits(kind, imm);
    case ImmLwsp | ImmLdsp | ImmLqsp => SpLoadSuits(kind, imm);
    case ImmSwsp | ImmSdsp | ImmSqsp => SpStoreSuits(kind, imm);
    case ImmSh6 => ShiftSuits(imm);
    case ImmUi => UpperSuits(imm);
    case ImmJ => JumpSuits(imm);
    case ImmB => BranchSuits(imm);
  }

  // An operand that the expansion's layout lacks is x0, and the immediate is one it has a place for.
  lemma ExpansionHolds(codec: Codec, word: Codec)
    requires Becomes(codec, word)
    ensures IsParcelLayout(codec) && Receives(word, ImmSpot(codec))
    ensures word.OfS? || word.OfSb? || word.OfNone? ==> RdSpot(codec) == IsX0
    ensures word.OfU? || word.OfUj? || word.OfNone? ==> Rs1Spot(codec) == IsX0
    ensures word.OfU? || word.OfUj? || word.OfI? || word.OfISh7? || word.OfNone? ==> Rs2Spot(codec) == IsX0
  {}

  lemma HeldSuits(codec: Codec, word: Codec, f: Fields)
    requires Becomes(codec, word) && InLayout(codec, f)
    ensures InRange(word, f)
  {
    hide RegFits, ImmFits, ImmediateFits, Reg, Becomes, Receives, RdSpot, Rs1Spot, Rs2Spot, ImmSpot, IsParcelLayout;
    ExpansionHolds(codec, word);
    OnlySourcesTied(codec);
    SpotSuits(RdSpot(codec), f.rd);
    SpotSuits(Rs2Spot(codec), f.rs2);
    if Rs1Spot(codec) != SameAsRd {
      SpotSuits(Rs1Spot(codec), f.rs1);
    }
    ImmediateSuits(ImmSpot(codec), word, f.imm);
  }

  lemma LayoutFits(codec: Codec, word: Codec, inst: bv64)
    requires Becomes(codec, word)
    ensures InRange(word, OperandsOf(codec, inst))
  {
    hide OperandsOf, InLayout, InRange, EncodeParcel, ParcelBits, Part, Becomes, IsParcelLayout;
    ExpansionHolds(codec, word);
    TakenApart(codec, inst);
    HeldSuits(codec, word, OperandsOf(codec, inst));
  }

  lemma LoadsExpand(isa: Isa, c: ParcelOp, op: Op)
    requires c.CLoad?
    requires op == Expansion(isa, c) && op != Illegal
    ensures Target(op) && Becomes(ParcelCodec(c), CodecOf(op))
  {}

  lemma SpLoadsExpand(isa: Isa, c: ParcelOp, op: Op)
    requires c.CLoadSp?
    requires op == Expansion(isa, c) && op != Illegal
    ensures Target(op) && Becomes(ParcelCodec(c), CodecOf(op))
  {}

  lemma StoresExpand(isa: Isa, c: ParcelOp, op: Op)
    requires c.CStore?
    requires op == Expansion(isa, c) && op != Illegal
    ensures Target(op) && Becomes(ParcelCodec(c), CodecOf(op))
  {}

  lemma SpStoresExpand(isa: Isa, c: ParcelOp, op: Op)
    requires c.CStoreSp?
    requires op == Expansion(isa, c) && op != Illegal
    ensures Target(op) && Becomes(ParcelCodec(c), CodecOf(op))
  {}

  lemma ArithExpand(isa: Isa, c: ParcelOp, op: Op)
    requires c.CArith? || c.CAdd? || c.CShift? || c.CBranch?
    requires op == Expansion(isa, c) && op != Illegal
    ensures Target(op) && Becomes(ParcelCodec(c), CodecOf(op))
  {}

  lemma ImmediatesExpand(isa: Isa, c: ParcelOp, op: Op)
    requires c.CAddi4spn? || c.CNop? || c.CAddi? || c.CAddiw? || c.CLi? || c.CAddi16sp? || c.CLui? || c.CAndi? || c.CMv?
    requires op == Expansion(isa, c) && op != Illegal
    ensures Target(op) && Becomes(ParcelCodec(c), CodecOf(op))
  {}

  lemma JumpsExpand(isa: Isa, c: ParcelOp, op: Op)
    requires c.CJ? || c.CJal? || c.CJr? || c.CJalr? || c.CEbreak?
    requires op == Expansion(isa, c) && op != Illegal
    ensures Target(op) && Becomes(ParcelCodec(c), CodecOf(op))
  {}

  lemma ExpansionLayout(isa: Isa, c: ParcelOp, op: Op)
    requires op == Expansion(isa, c) && op != Illegal
    ensures Target(op) && Becomes(ParcelCodec(c), CodecOf(op))
  {
    if c.CLoad? {
      LoadsExpand(isa, c, op);
    } else if c.CLoadSp? {
      SpLoadsExpand(isa, c, op);
    } else if c.CStore? {
      StoresExpand(isa, c, op);
    } else if c.CStoreSp? {
      SpStoresExpand(isa, c, op);
    } else if c.CArith? || c.CAdd? || c.CShift? || c.CBranch? {
      ArithExpand(isa, c, op);
    } else if c.CAddi4spn? || c.CNop? || c.CAddi? || c.CAddiw? || c.CLi? || c.CAddi16sp? || c.CLui? || c.CAndi? ||
    c.CMv? {
      ImmediatesExpand(isa, c, op);
    } else {
      JumpsExpand(isa, c, op);
    }
  }

  function Expanded(isa: Isa, inst: bv64): Decoded
  {
    Decompress(isa, DecodeInst(isa, inst))
  }

  lemma DecompressParcel(isa: Isa, d: Decoded)
    requires d.op.Parcel? && Expansion(isa, d.op.c) != Illegal
    ensures var to := Expansion(isa, d.op.c);
      Decompress(isa, d) == d.(op := Illegal) || Decompress(isa, d) == Decoded(to, CodecOf(to), d.f)
  {}

  // The decoder's record of a compressed operation.
  function ParcelRecord(c: ParcelOp, inst: bv64): Decoded
  {
    Decoded(Parcel(c), ParcelCodec(c), OperandsOf(ParcelCodec(c), inst))
  }

  predicate IsExpansion(d: Decoded)
  {
    d.op == Illegal || (Target(d.op) && d.codec == CodecOf(d.op) && InRange(d.codec, d.f))
  }

  lemma ParcelExpansionFits(isa: Isa, c: ParcelOp, inst: bv64)
    requires Expansion(isa, c) != Illegal
    ensures IsExpansion(Decompress(isa, ParcelRecord(c, inst)))
  {
    var to := Expansion(isa, c);
    ExpansionLayout(isa, c, to);
    LayoutFits(ParcelCodec(c), CodecOf(to), inst);
    DecompressParcel(isa, ParcelRecord(c, inst));
  }

  // After decompression no compressed operation is left.
  lemma ExpandedIsPlain(isa: Isa, inst: bv64)
    requires Parcel16(inst)
    ensures IsExpansion(Expanded(isa, inst))
  {
    hide Opcode, OperandsOf, InRange, Target, Expansion, ParcelCodec;
    ParcelExpands(isa, inst);
    if Opcode(isa, inst).Parcel? {
      ParcelExpansionFits(isa, Opcode(isa, inst).c, inst);
    }
  }

  // What is left of a legal one is exactly what the decoder says of some 32-bit word.
  lemma ExpansionIsAnEncoding(isa: Isa, inst: bv64)
    requires Parcel16(inst)
    ensures var d := Expanded(isa, inst);
      && !d.op.Parcel?
      && (d.op != Illegal ==>
          var e := WordOf(d.op, d.f); Word(e) && DecodeInst(isa, e) == d && Expanded(isa, e) == d)
  {
    hide InRange, WordOf, Word, Opcode, OperandsOf;
    ExpandedIsPlain(isa, inst);
    var d := Expanded(isa, inst);
    if d.op != Illegal {
      TargetWord(isa, d.op, d.f);
    }
  }
}

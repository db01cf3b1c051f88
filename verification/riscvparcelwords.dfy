// The 16-bit words of RISC-V (chapter 16 of the Unprivileged ISA 20191213): the bits that make each
// compressed operation, and the 32-bit word that it abbreviates.
module RiscvParcelWords {
  import opened RiscvOps
  import opened RiscvOperands
  import opened RiscvWords
  import opened RiscvDecoder
  import opened RiscvParcels

  // A legal word is decoded to a compressed operation exactly if its low bits are not 11.
  lemma ParcelIffLowBits(isa: Isa, inst: bv64)
    ensures Opcode(isa, inst) != Illegal ==> (Opcode(isa, inst).Parcel? <==> Parcel16(inst))
  {
    LowBitsPlain(isa, inst);
  }

  // The bits under a mask that make a 16-bit word the operation (tables 16.5 to 16.7); no word has 1 under 0.

  function Pattern(c: ParcelOp): (bv64, bv64)
  {
    match c
    case CAddi4spn => (0xE003, 0x0000)
    case CLoad(Fld) | CLoad(Lq) => (0xE003, 0x2000)
    case CLoad(Lw) => (0xE003, 0x4000)
    case CLoad(Flw) | CLoad(Ld) => (0xE003, 0x6000)
    case CStore(Fsd) | CStore(Sq) => (0xE003, 0xA000)
    case CStore(Sw) => (0xE003, 0xC000)
    case CStore(Fsw) | CStore(Sd) => (0xE003, 0xE000)
    case CNop => (0xFFFF, 0x0001)
    case CAddi => (0xE003, 0x0001)
    case CJal | CAddiw => (0xE003, 0x2001)
    case CLi => (0xE003, 0x4001)
    case CAddi16sp => (0xEF83, 0x6101)
    case CLui => (0xE003, 0x6001)
    case CShift(Srli) => (0xEC03, 0x8001)
    case CShift(Srai) => (0xEC03, 0x8401)
    case CAndi => (0xEC03, 0x8801)
    case CArith(Sub, Xlen) => (0xFC63, 0x8C01)
    case CArith(Xor, Xlen) => (0xFC63, 0x8C21)
    case CArith(Or, Xlen) => (0xFC63, 0x8C41)
    case CArith(And, Xlen) => (0xFC63, 0x8C61)
    case CArith(Sub, Bits32) => (0xFC63, 0x9C01)
    case CArith(Add, Bits32) => (0xFC63, 0x9C21)
    case CJ => (0xE003, 0xA001)
    case CBranch(Beq) => (0xE003, 0xC001)
    case CBranch(Bne) => (0xE003, 0xE001)
    case CShift(Slli) => (0xE003, 0x0002)
    case CLoadSp(Fld) | CLoadSp(Lq) => (0xE003, 0x2002)
    case CLoadSp(Lw) => (0xE003, 0x4002)
    case CLoadSp(Flw) | CLoadSp(Ld) => (0xE003, 0x6002)
    case CJr => (0xF07F, 0x8002)
    case CMv => (0xF003, 0x8002)
    case CEbreak => (0xFFFF, 0x9002)
    case CJalr => (0xF07F, 0x9002)
    case CAdd => (0xF003, 0x9002)
    case CStoreSp(Fsd) | CStoreSp(Sq) => (0xE003, 0xA002)
    case CStoreSp(Sw) => (0xE003, 0xC002)
    case CStoreSp(Fsw) | CStoreSp(Sd) => (0xE003, 0xE002)
    case _ => (0, 1)
  }

  // Some rows mean something else on another width of registers, or with some operands.
  predicate NotOther(isa: Isa, c: ParcelOp, p: bv64)
  {
    match c
    case CLoad(Fld) | CStore(Fsd) | CLoadSp(Fld) | CStoreSp(Fsd) => !isa.Rv128?
    case CLoad(Lq) | CStore(Sq) | CLoadSp(Lq) | CStoreSp(Sq) => isa.Rv128?
    case CLoad(Flw) | CStore(Fsw) | CJal | CLoadSp(Flw) | CStoreSp(Fsw) => isa.Rv32?
    case CLoad(Ld) | CStore(Sd) | CAddiw | CLoadSp(Ld) | CStoreSp(Sd) => !isa.Rv32?
    case CAddi => Part(p, 0x1FFC) != 0x0000
    case CLui => Part(p, 0x0F80) != 0x0100
    case CMv | CAdd => Part(p, 0x007C) != 0x0000
    case CJalr => Part(p, 0x0F80) != 0x0000
    case _ => true
  }

  predicate Matches(isa: Isa, c: ParcelOp, p: bv64)
  {
    Part(p, Pattern(c).0) == Pattern(c).1 && NotOther(isa, c, p)
  }

  // The same in terms of the fields the decoder looks at.

  lemma RowKeys(p: bv64, q: bv64, f3: bv64)
    requires q < 4 && f3 < 8
    ensures Part(p, 0xE003) == (f3 << 13) | q <==> Quadrant(p) == q && CFunct3(p) == f3
  {}

  lemma FieldKeys(p: bv64)
    ensures Part(p, 0x1FFC) == 0 <==> CRest(p) == 0
    ensures Part(p, 0x007C) == 0 <==> Major(p) == 0
    ensures Part(p, 0x0F80) == 0 <==> RdField(p) == 0
    ensures Part(p, 0x0F80) == 0x0100 <==> RdField(p) == 2
    ensures Part(p, 0xFFFF) == 0x0001 <==> Quadrant(p) == 1 && CFunct3(p) == 0 && CRest(p) == 0
    ensures Part(p, 0xEF83) == 0x6101 <==> Quadrant(p) == 1 && CFunct3(p) == 3 && RdField(p) == 2
  {}

  lemma AluKeys(p: bv64)
    ensures Part(p, 0xEC03) == 0x8001 <==> Quadrant(p) == 1 && CFunct3(p) == 4 && CFunct2(p) == 0
    ensures Part(p, 0xEC03) == 0x8401 <==> Quadrant(p) == 1 && CFunct3(p) == 4 && CFunct2(p) == 1
    ensures Part(p, 0xEC03) == 0x8801 <==> Quadrant(p) == 1 && CFunct3(p) == 4 && CFunct2(p) == 2
  {}

  lemma ArithKeys(p: bv64)
    ensures Part(p, 0xFC63) == 0x8C01 <==> Quadrant(p) == 1 && CFunct3(p) == 4 && CFunct2(p) == 3 && CArithKey(p) == 0
    ensures Part(p, 0xFC63) == 0x8C21 <==> Quadrant(p) == 1 && CFunct3(p) == 4 && CFunct2(p) == 3 && CArithKey(p) == 1
    ensures Part(p, 0xFC63) == 0x8C41 <==> Quadrant(p) == 1 && CFunct3(p) == 4 && CFunct2(p) == 3 && CArithKey(p) == 2
    ensures Part(p, 0xFC63) == 0x8C61 <==> Quadrant(p) == 1 && CFunct3(p) == 4 && CFunct2(p) == 3 && CArithKey(p) == 3
    ensures Part(p, 0xFC63) == 0x9C01 <==> Quadrant(p) == 1 && CFunct3(p) == 4 && CFunct2(p) == 3 && CArithKey(p) == 4
    ensures Part(p, 0xFC63) == 0x9C21 <==> Quadrant(p) == 1 && CFunct3(p) == 4 && CFunct2(p) == 3 && CArithKey(p) == 5
  {}

  lemma MoveKeys(p: bv64)
    ensures Part(p, 0xF003) == 0x8002 <==> Quadrant(p) == 2 && CFunct3(p) == 4 && CBit12(p) == 0
    ensures Part(p, 0xF003) == 0x9002 <==> Quadrant(p) == 2 && CFunct3(p) == 4 && CBit12(p) == 1
    ensures Part(p, 0xF07F) == 0x8002 <==> Quadrant(p) == 2 && CFunct3(p) == 4 && CBit12(p) == 0 && Major(p) == 0
    ensures Part(p, 0xF07F) == 0x9002 <==> Quadrant(p) == 2 && CFunct3(p) == 4 && CBit12(p) == 1 && Major(p) == 0
    ensures Part(p, 0xFFFF) == 0x9002 <==>
      Quadrant(p) == 2 && CFunct3(p) == 4 && CBit12(p) == 1 && Major(p) == 0 && RdField(p) == 0
  {}

  // The quadrant of each compressed operation.

  predicate OfQuadrant0(c: ParcelOp) { c.CAddi4spn? || c.CLoad? || c.CStore? }

  predicate OfQuadrant2(c: ParcelOp)
  {
    c == CShift(Slli) || c.CLoadSp? || c.CStoreSp? || c.CJr? || c.CMv? || c.CEbreak? || c.CJalr? || c.CAdd?
  }

  lemma Quadrant0Has(isa: Isa, p: bv64)
    ensures Quadrant0(isa, p).Parcel? ==> OfQuadrant0(Quadrant0(isa, p).c)
  {}

  lemma Quadrant1Has(isa: Isa, p: bv64)
    ensures Quadrant1(isa, p).Parcel? ==> !OfQuadrant0(Quadrant1(isa, p).c) && !OfQuadrant2(Quadrant1(isa, p).c)
  {}

  lemma Quadrant2Has(isa: Isa, p: bv64)
    ensures Quadrant2(isa, p).Parcel? ==> OfQuadrant2(Quadrant2(isa, p).c)
  {}

  lemma HomeQuadrant(isa: Isa, p: bv64, c: ParcelOp)
    ensures OfQuadrant0(c) ==>
      (Opcode(isa, p) == Parcel(c) <==> Quadrant(p) == 0 && Quadrant0(isa, p) == Parcel(c))
    ensures OfQuadrant2(c) ==>
      (Opcode(isa, p) == Parcel(c) <==> Quadrant(p) == 2 && Quadrant2(isa, p) == Parcel(c))
    ensures !OfQuadrant0(c) && !OfQuadrant2(c) ==>
      (Opcode(isa, p) == Parcel(c) <==> Quadrant(p) == 1 && Quadrant1(isa, p) == Parcel(c))
  {
    hide Quadrant, Quadrant0, Quadrant1, Quadrant2, Quadrant3;
    LowBitsPlain(isa, p);
    Quadrant0Has(isa, p);
    Quadrant1Has(isa, p);
    Quadrant2Has(isa, p);
    QuadrantIsLow(p);
  }

  lemma QuadrantIsLow(p: bv64)
    ensures Quadrant(p) == p & 3
  {}

  lemma Loads0Table(isa: Isa, p: bv64)
    ensures Quadrant0(isa, p) == Parcel(CAddi4spn) <==> CFunct3(p) == 0
    ensures Quadrant0(isa, p) == Parcel(CLoad(Fld)) <==> !isa.Rv128? && CFunct3(p) == 1
    ensures Quadrant0(isa, p) == Parcel(CLoad(Lq)) <==> isa.Rv128? && CFunct3(p) == 1
    ensures Quadrant0(isa, p) == Parcel(CLoad(Lw)) <==> CFunct3(p) == 2
    ensures Quadrant0(isa, p) == Parcel(CLoad(Flw)) <==> isa.Rv32? && CFunct3(p) == 3
    ensures Quadrant0(isa, p) == Parcel(CLoad(Ld)) <==> !isa.Rv32? && CFunct3(p) == 3
  {
    hide Quadrant, CFunct3, CRest, RdField, CFunct2, CArithKey, CBit12, Major;
  }

  lemma Loads0Iff(isa: Isa, p: bv64)
    ensures Opcode(isa, p) == Parcel(CAddi4spn) <==> Part(p, 0xE003) == 0x0000
    ensures Opcode(isa, p) == Parcel(CLoad(Fld)) <==> !isa.Rv128? && Part(p, 0xE003) == 0x2000
    ensures Opcode(isa, p) == Parcel(CLoad(Lq)) <==> isa.Rv128? && Part(p, 0xE003) == 0x2000
    ensures Opcode(isa, p) == Parcel(CLoad(Lw)) <==> Part(p, 0xE003) == 0x4000
    ensures Opcode(isa, p) == Parcel(CLoad(Flw)) <==> isa.Rv32? && Part(p, 0xE003) == 0x6000
    ensures Opcode(isa, p) == Parcel(CLoad(Ld)) <==> !isa.Rv32? && Part(p, 0xE003) == 0x6000
  {
    hide Opcode, Part, Quadrant0, Quadrant, CFunct3, CRest, RdField, CFunct2, CArithKey, CBit12, Major;
    Loads0Table(isa, p);
    RowKeys(p, 0, 0);
    RowKeys(p, 0, 1);
    RowKeys(p, 0, 2);
    RowKeys(p, 0, 3);
    HomeQuadrant(isa, p, CAddi4spn);
    HomeQuadrant(isa, p, CLoad(Fld));
    HomeQuadrant(isa, p, CLoad(Lq));
    HomeQuadrant(isa, p, CLoad(Lw));
    HomeQuadrant(isa, p, CLoad(Flw));
    HomeQuadrant(isa, p, CLoad(Ld));
  }

  lemma Stores0Table(isa: Isa, p: bv64)
    ensures Quadrant0(isa, p) == Parcel(CStore(Fsd)) <==> !isa.Rv128? && CFunct3(p) == 5
    ensures Quadrant0(isa, p) == Parcel(CStore(Sq)) <==> isa.Rv128? && CFunct3(p) == 5
    ensures Quadrant0(isa, p) == Parcel(CStore(Sw)) <==> CFunct3(p) == 6
    ensures Quadrant0(isa, p) == Parcel(CStore(Fsw)) <==> isa.Rv32? && CFunct3(p) == 7
    ensures Quadrant0(isa, p) == Parcel(CStore(Sd)) <==> !isa.Rv32? && CFunct3(p) == 7
  {
    hide Quadrant, CFunct3, CRest, RdField, CFunct2, CArithKey, CBit12, Major;
  }

  lemma Stores0Iff(isa: Isa, p: bv64)
    ensures Opcode(isa, p) == Parcel(CStore(Fsd)) <==> !isa.Rv128? && Part(p, 0xE003) == 0xA000
    ensures Opcode(isa, p) == Parcel(CStore(Sq)) <==> isa.Rv128? && Part(p, 0xE003) == 0xA000
    ensures Opcode(isa, p) == Parcel(CStore(Sw)) <==> Part(p, 0xE003) == 0xC000
    ensures Opcode(isa, p) == Parcel(CStore(Fsw)) <==> isa.Rv32? && Part(p, 0xE003) == 0xE000
    ensures Opcode(isa, p) == Parcel(CStore(Sd)) <==> !isa.Rv32? && Part(p, 0xE003) == 0xE000
  {
    hide Opcode, Part, Quadrant0, Quadrant, CFunct3, CRest, RdField, CFunct2, CArithKey, CBit12, Major;
    Stores0Table(isa, p);
    RowKeys(p, 0, 5);
    RowKeys(p, 0, 6);
    RowKeys(p, 0, 7);
    HomeQuadrant(isa, p, CStore(Fsd));
    HomeQuadrant(isa, p, CStore(Sq));
    HomeQuadrant(isa, p, CStore(Sw));
    HomeQuadrant(isa, p, CStore(Fsw));
    HomeQuadrant(isa, p, CStore(Sd));
  }

  lemma Addi1Table(isa: Isa, p: bv64)
    ensures Quadrant1(isa, p) == Parcel(CNop) <==> CFunct3(p) == 0 && CRest(p) == 0
    ensures Quadrant1(isa, p) == Parcel(CAddi) <==> CFunct3(p) == 0 && CRest(p) != 0
    ensures Quadrant1(isa, p) == Parcel(CLi) <==> CFunct3(p) == 2
  {
    hide Quadrant, CFunct3, CRest, RdField, CFunct2, CArithKey, CBit12, Major;
  }

  lemma Addi1Iff(isa: Isa, p: bv64)
    ensures Opcode(isa, p) == Parcel(CNop) <==> Part(p, 0xFFFF) == 0x0001
    ensures Opcode(isa, p) == Parcel(CAddi) <==> Part(p, 0xE003) == 0x0001 && Part(p, 0x1FFC) != 0x0000
    ensures Opcode(isa, p) == Parcel(CLi) <==> Part(p, 0xE003) == 0x4001
  {
    hide Opcode, Part, Quadrant1, Quadrant, CFunct3, CRest, RdField, CFunct2, CArithKey, CBit12, Major;
    Addi1Table(isa, p);
    RowKeys(p, 1, 0);
    RowKeys(p, 1, 2);
    FieldKeys(p);
    HomeQuadrant(isa, p, CNop);
    HomeQuadrant(isa, p, CAddi);
    HomeQuadrant(isa, p, CLi);
  }

  lemma Upper1Table(isa: Isa, p: bv64)
    ensures Quadrant1(isa, p) == Parcel(CAddi16sp) <==> CFunct3(p) == 3 && RdField(p) == 2
    ensures Quadrant1(isa, p) == Parcel(CLui) <==> CFunct3(p) == 3 && RdField(p) != 2
  {
    hide Quadrant, CFunct3, CRest, RdField, CFunct2, CArithKey, CBit12, Major;
  }

  lemma Upper1Iff(isa: Isa, p: bv64)
    ensures Opcode(isa, p) == Parcel(CAddi16sp) <==> Part(p, 0xEF83) == 0x6101
    ensures Opcode(isa, p) == Parcel(CLui) <==> Part(p, 0xE003) == 0x6001 && Part(p, 0x0F80) != 0x0100
  {
    hide Opcode, Part, Quadrant1, Quadrant, CFunct3, CRest, RdField, CFunct2, CArithKey, CBit12, Major;
    Upper1Table(isa, p);
    RowKeys(p, 1, 3);
    FieldKeys(p);
    HomeQuadrant(isa, p, CAddi16sp);
    HomeQuadrant(isa, p, CLui);
  }

  lemma Jumps1Table(isa: Isa, p: bv64)
    ensures Quadrant1(isa, p) == Parcel(CJal) <==> isa.Rv32? && CFunct3(p) == 1
    ensures Quadrant1(isa, p) == Parcel(CAddiw) <==> !isa.Rv32? && CFunct3(p) == 1
    ensures Quadrant1(isa, p) == Parcel(CJ) <==> CFunct3(p) == 5
    ensures Quadrant1(isa, p) == Parcel(CBranch(Beq)) <==> CFunct3(p) == 6
    ensures Quadrant1(isa, p) == Parcel(CBranch(Bne)) <==> CFunct3(p) == 7
  {
    hide Quadrant, CFunct3, CRest, RdField, CFunct2, CArithKey, CBit12, Major;
  }

  lemma Jumps1Iff(isa: Isa, p: bv64)
    ensures Opcode(isa, p) == Parcel(CJal) <==> isa.Rv32? && Part(p, 0xE003) == 0x2001
    ensures Opcode(isa, p) == Parcel(CAddiw) <==> !isa.Rv32? && Part(p, 0xE003) == 0x2001
    ensures Opcode(isa, p) == Parcel(CJ) <==> Part(p, 0xE003) == 0xA001
    ensures Opcode(isa, p) == Parcel(CBranch(Beq)) <==> Part(p, 0xE003) == 0xC001
    ensures Opcode(isa, p) == Parcel(CBranch(Bne)) <==> Part(p, 0xE003) == 0xE001
  {
    hide Opcode, Part, Quadrant1, Quadrant, CFunct3, CRest, RdField, CFunct2, CArithKey, CBit12, Major;
    Jumps1Table(isa, p);
    RowKeys(p, 1, 1);
    RowKeys(p, 1, 5);
    RowKeys(p, 1, 6);
    RowKeys(p, 1, 7);
    HomeQuadrant(isa, p, CJal);
    HomeQuadrant(isa, p, CAddiw);
    HomeQuadrant(isa, p, CJ);
    HomeQuadrant(isa, p, CBranch(Beq));
    HomeQuadrant(isa, p, CBranch(Bne));
  }

  lemma Alu1Table(isa: Isa, p: bv64)
    ensures Quadrant1(isa, p) == Parcel(CShift(Srli)) <==> CFunct3(p) == 4 && CFunct2(p) == 0
    ensures Quadrant1(isa, p) == Parcel(CShift(Srai)) <==> CFunct3(p) == 4 && CFunct2(p) == 1
    ensures Quadrant1(isa, p) == Parcel(CAndi) <==> CFunct3(p) == 4 && CFunct2(p) == 2
  {
    hide Quadrant, CFunct3, CRest, RdField, CFunct2, CArithKey, CBit12, Major;
  }

  lemma Alu1Iff(isa: Isa, p: bv64)
    ensures Opcode(isa, p) == Parcel(CShift(Srli)) <==> Part(p, 0xEC03) == 0x8001
    ensures Opcode(isa, p) == Parcel(CShift(Srai)) <==> Part(p, 0xEC03) == 0x8401
    ensures Opcode(isa, p) == Parcel(CAndi) <==> Part(p, 0xEC03) == 0x8801
  {
    hide Opcode, Part, Quadrant1, Quadrant, CFunct3, CRest, RdField, CFunct2, CArithKey, CBit12, Major;
    Alu1Table(isa, p);
    AluKeys(p);
    HomeQuadrant(isa, p, CShift(Srli));
    HomeQuadrant(isa, p, CShift(Srai));
    HomeQuadrant(isa, p, CAndi);
  }

  lemma Arith1Table(isa: Isa, p: bv64)
    ensures Quadrant1(isa, p) == Parcel(CArith(Sub, Xlen)) <==> CFunct3(p) == 4 && CFunct2(p) == 3 && CArithKey(p) == 0
    ensures Quadrant1(isa, p) == Parcel(CArith(Xor, Xlen)) <==> CFunct3(p) == 4 && CFunct2(p) == 3 && CArithKey(p) == 1
    ensures Quadrant1(isa, p) == Parcel(CArith(Or, Xlen)) <==> CFunct3(p) == 4 && CFunct2(p) == 3 && CArithKey(p) == 2
    ensures Quadrant1(isa, p) == Parcel(CArith(And, Xlen)) <==> CFunct3(p) == 4 && CFunct2(p) == 3 && CArithKey(p) == 3
    ensures Quadrant1(isa, p) == Parcel(CArith(Sub, Bits32)) <==>
      CFunct3(p) == 4 && CFunct2(p) == 3 && CArithKey(p) == 4
    ensures Quadrant1(isa, p) == Parcel(CArith(Add, Bits32)) <==>
      CFunct3(p) == 4 && CFunct2(p) == 3 && CArithKey(p) == 5
  {
    hide Quadrant, CFunct3, CRest, RdField, CFunct2, CArithKey, CBit12, Major;
  }

  lemma Arith1Iff(isa: Isa, p: bv64)
    ensures Opcode(isa, p) == Parcel(CArith(Sub, Xlen)) <==> Part(p, 0xFC63) == 0x8C01
    ensures Opcode(isa, p) == Parcel(CArith(Xor, Xlen)) <==> Part(p, 0xFC63) == 0x8C21
    ensures Opcode(isa, p) == Parcel(CArith(Or, Xlen)) <==> Part(p, 0xFC63) == 0x8C41
    ensures Opcode(isa, p) == Parcel(CArith(And, Xlen)) <==> Part(p, 0xFC63) == 0x8C61
    ensures Opcode(isa, p) == Parcel(CArith(Sub, Bits32)) <==> Part(p, 0xFC63) == 0x9C01
    ensures Opcode(isa, p) == Parcel(CArith(Add, Bits32)) <==> Part(p, 0xFC63) == 0x9C21
  {
    hide Opcode, Part, Quadrant1, Quadrant, CFunct3, CRest, RdField, CFunct2, CArithKey, CBit12, Major;
    Arith1Table(isa, p);
    ArithKeys(p);
    HomeQuadrant(isa, p, CArith(Sub, Xlen));
    HomeQuadrant(isa, p, CArith(Xor, Xlen));
    HomeQuadrant(isa, p, CArith(Or, Xlen));
    HomeQuadrant(isa, p, CArith(And, Xlen));
    HomeQuadrant(isa, p, CArith(Sub, Bits32));
    HomeQuadrant(isa, p, CArith(Add, Bits32));
  }

  lemma Memory2Table(isa: Isa, p: bv64)
    ensures Quadrant2(isa, p) == Parcel(CShift(Slli)) <==> CFunct3(p) == 0
    ensures Quadrant2(isa, p) == Parcel(CLoadSp(Fld)) <==> !isa.Rv128? && CFunct3(p) == 1
    ensures Quadrant2(isa, p) == Parcel(CLoadSp(Lq)) <==> isa.Rv128? && CFunct3(p) == 1
    ensures Quadrant2(isa, p) == Parcel(CLoadSp(Lw)) <==> CFunct3(p) == 2
    ensures Quadrant2(isa, p) == Parcel(CLoadSp(Flw)) <==> isa.Rv32? && CFunct3(p) == 3
    ensures Quadrant2(isa, p) == Parcel(CLoadSp(Ld)) <==> !isa.Rv32? && CFunct3(p) == 3
    ensures Quadrant2(isa, p) == Parcel(CStoreSp(Fsd)) <==> !isa.Rv128? && CFunct3(p) == 5
    ensures Quadrant2(isa, p) == Parcel(CStoreSp(Sq)) <==> isa.Rv128? && CFunct3(p) == 5
    ensures Quadrant2(isa, p) == Parcel(CStoreSp(Sw)) <==> CFunct3(p) == 6
    ensures Quadrant2(isa, p) == Parcel(CStoreSp(Fsw)) <==> isa.Rv32? && CFunct3(p) == 7
    ensures Quadrant2(isa, p) == Parcel(CStoreSp(Sd)) <==> !isa.Rv32? && CFunct3(p) == 7
  {
    hide Quadrant, CFunct3, CRest, RdField, CFunct2, CArithKey, CBit12, Major;
  }

  lemma Memory2Iff(isa: Isa, p: bv64)
    ensures Opcode(isa, p) == Parcel(CShift(Slli)) <==> Part(p, 0xE003) == 0x0002
    ensures Opcode(isa, p) == Parcel(CLoadSp(Fld)) <==> !isa.Rv128? && Part(p, 0xE003) == 0x2002
    ensures Opcode(isa, p) == Parcel(CLoadSp(Lq)) <==> isa.Rv128? && Part(p, 0xE003) == 0x2002
    ensures Opcode(isa, p) == Parcel(CLoadSp(Lw)) <==> Part(p, 0xE003) == 0x4002
    ensures Opcode(isa, p) == Parcel(CLoadSp(Flw)) <==> isa.Rv32? && Part(p, 0xE003) == 0x6002
    ensures Opcode(isa, p) == Parcel(CLoadSp(Ld)) <==> !isa.Rv32? && Part(p, 0xE003) == 0x6002
    ensures Opcode(isa, p) == Parcel(CStoreSp(Fsd)) <==> !isa.Rv128? && Part(p, 0xE003) == 0xA002
    ensures Opcode(isa, p) == Parcel(CStoreSp(Sq)) <==> isa.Rv128? && Part(p, 0xE003) == 0xA002
    ensures Opcode(isa, p) == Parcel(CStoreSp(Sw)) <==> Part(p, 0xE003) == 0xC002
    ensures Opcode(isa, p) == Parcel(CStoreSp(Fsw)) <==> isa.Rv32? && Part(p, 0xE003) == 0xE002
    ensures Opcode(isa, p) == Parcel(CStoreSp(Sd)) <==> !isa.Rv32? && Part(p, 0xE003) == 0xE002
  {
    hide Opcode, Part, Quadrant2, Quadrant, CFunct3, CRest, RdField, CFunct2, CArithKey, CBit12, Major;
    Memory2Table(isa, p);
    RowKeys(p, 2, 0);
    RowKeys(p, 2, 1);
    RowKeys(p, 2, 2);
    RowKeys(p, 2, 3);
    RowKeys(p, 2, 5);
    RowKeys(p, 2, 6);
    RowKeys(p, 2, 7);
    HomeQuadrant(isa, p, CShift(Slli));
    HomeQuadrant(isa, p, CLoadSp(Fld));
    HomeQuadrant(isa, p, CLoadSp(Lq));
    HomeQuadrant(isa, p, CLoadSp(Lw));
    HomeQuadrant(isa, p, CLoadSp(Flw));
    HomeQuadrant(isa, p, CLoadSp(Ld));
    HomeQuadrant(isa, p, CStoreSp(Fsd));
    HomeQuadrant(isa, p, CStoreSp(Sq));
    HomeQuadrant(isa, p, CStoreSp(Sw));
    HomeQuadrant(isa, p, CStoreSp(Fsw));
    HomeQuadrant(isa, p, CStoreSp(Sd));
  }

  lemma Moves2Table(isa: Isa, p: bv64)
    ensures Quadrant2(isa, p) == Parcel(CJr) <==> CFunct3(p) == 4 && CBit12(p) == 0 && Major(p) == 0
    ensures Quadrant2(isa, p) == Parcel(CMv) <==> CFunct3(p) == 4 && CBit12(p) == 0 && Major(p) != 0
    ensures Quadrant2(isa, p) == Parcel(CEbreak) <==>
      CFunct3(p) == 4 && CBit12(p) == 1 && Major(p) == 0 && RdField(p) == 0
    ensures Quadrant2(isa, p) == Parcel(CJalr) <==>
      CFunct3(p) == 4 && CBit12(p) == 1 && Major(p) == 0 && RdField(p) != 0
    ensures Quadrant2(isa, p) == Parcel(CAdd) <==> CFunct3(p) == 4 && CBit12(p) == 1 && Major(p) != 0
  {
    hide Quadrant, CFunct3, CRest, RdField, CFunct2, CArithKey, CBit12, Major;
  }

  lemma Moves2Iff(isa: Isa, p: bv64)
    ensures Opcode(isa, p) == Parcel(CJr) <==> Part(p, 0xF07F) == 0x8002
    ensures Opcode(isa, p) == Parcel(CMv) <==> Part(p, 0xF003) == 0x8002 && Part(p, 0x007C) != 0x0000
    ensures Opcode(isa, p) == Parcel(CEbreak) <==> Part(p, 0xFFFF) == 0x9002
    ensures Opcode(isa, p) == Parcel(CJalr) <==> Part(p, 0xF07F) == 0x9002 && Part(p, 0x0F80) != 0x0000
    ensures Opcode(isa, p) == Parcel(CAdd) <==> Part(p, 0xF003) == 0x9002 && Part(p, 0x007C) != 0x0000
  {
    hide Opcode, Part, Quadrant2, Quadrant, CFunct3, CRest, RdField, CFunct2, CArithKey, CBit12, Major;
    Moves2Table(isa, p);
    FieldKeys(p);
    MoveKeys(p);
    HomeQuadrant(isa, p, CJr);
    HomeQuadrant(isa, p, CMv);
    HomeQuadrant(isa, p, CEbreak);
    HomeQuadrant(isa, p, CJalr);
    HomeQuadrant(isa, p, CAdd);
  }

  // No other operation, and no operation for the rest.

  lemma KnownPatterns(isa: Isa, c: ParcelOp)
    requires Expansion(isa, c) != Illegal
    ensures Pattern(c) != (0, 1)
  {}

  lemma UnknownNever(isa: Isa, p: bv64, c: ParcelOp)
    requires Pattern(c) == (0, 1)
    ensures Opcode(isa, p) != Parcel(c) && !Matches(isa, c, p)
  {
    hide Opcode, Pattern, NotOther;
    LowBitsPlain(isa, p);
    if Opcode(isa, p) == Parcel(c) {
      ParcelExpands(isa, p);
      KnownPatterns(isa, c);
    }
  }

  // The decoder comes up with a compressed operation exactly for the words with its pattern.
  lemma ParcelIff(isa: Isa, p: bv64, c: ParcelOp)
    ensures Opcode(isa, p) == Parcel(c) <==> Matches(isa, c, p)
  {
    hide Opcode, Part;
    match c
    case CAddi4spn => Loads0Iff(isa, p);
    case CLoad(Fld) => Loads0Iff(isa, p);
    case CLoad(Lq) => Loads0Iff(isa, p);
    case CLoad(Lw) => Loads0Iff(isa, p);
    case CLoad(Flw) => Loads0Iff(isa, p);
    case CLoad(Ld) => Loads0Iff(isa, p);
    case CStore(Fsd) => Stores0Iff(isa, p);
    case CStore(Sq) => Stores0Iff(isa, p);
    case CStore(Sw) => Stores0Iff(isa, p);
    case CStore(Fsw) => Stores0Iff(isa, p);
    case CStore(Sd) => Stores0Iff(isa, p);
    case CNop => Addi1Iff(isa, p);
    case CAddi => Addi1Iff(isa, p);
    case CLi => Addi1Iff(isa, p);
    case CAddi16sp => Upper1Iff(isa, p);
    case CLui => Upper1Iff(isa, p);
    case CJal => Jumps1Iff(isa, p);
    case CAddiw => Jumps1Iff(isa, p);
    case CJ => Jumps1Iff(isa, p);
    case CBranch(Beq) => Jumps1Iff(isa, p);
    case CBranch(Bne) => Jumps1Iff(isa, p);
    case CShift(Srli) => Alu1Iff(isa, p);
    case CShift(Srai) => Alu1Iff(isa, p);
    case CAndi => Alu1Iff(isa, p);
    case CArith(Sub, Xlen) => Arith1Iff(isa, p);
    case CArith(Xor, Xlen) => Arith1Iff(isa, p);
    case CArith(Or, Xlen) => Arith1Iff(isa, p);
    case CArith(And, Xlen) => Arith1Iff(isa, p);
    case CArith(Sub, Bits32) => Arith1Iff(isa, p);
    case CArith(Add, Bits32) => Arith1Iff(isa, p);
    case CShift(Slli) => Memory2Iff(isa, p);
    case CLoadSp(Fld) => Memory2Iff(isa, p);
    case CLoadSp(Lq) => Memory2Iff(isa, p);
    case CLoadSp(Lw) => Memory2Iff(isa, p);
    case CLoadSp(Flw) => Memory2Iff(isa, p);
    case CLoadSp(Ld) => Memory2Iff(isa, p);
    case CStoreSp(Fsd) => Memory2Iff(isa, p);
    case CStoreSp(Sq) => Memory2Iff(isa, p);
    case CStoreSp(Sw) => Memory2Iff(isa, p);
    case CStoreSp(Fsw) => Memory2Iff(isa, p);
    case CStoreSp(Sd) => Memory2Iff(isa, p);
    case CJr => Moves2Iff(isa, p);
    case CMv => Moves2Iff(isa, p);
    case CEbreak => Moves2Iff(isa, p);
    case CJalr => Moves2Iff(isa, p);
    case CAdd => Moves2Iff(isa, p);
    case _ => UnknownNever(isa, p, c);
  }

  lemma GapsKeys(p: bv64)
    ensures Part(p, 0xFC43) == 0x9C41 <==>
      Quadrant(p) == 1 && CFunct3(p) == 4 && CFunct2(p) == 3 && (CArithKey(p) == 6 || CArithKey(p) == 7)
    ensures CFunct3(p) < 8 && CFunct2(p) < 4 && CArithKey(p) < 8 && CBit12(p) < 2
  {}

  // The 16-bit words that no operation has.
  lemma IllegalIff(isa: Isa, p: bv64)
    requires Parcel16(p)
    ensures Opcode(isa, p) == Illegal <==> Part(p, 0xE003) == 0x8000 || Part(p, 0xFC43) == 0x9C41
  {
    hide Quadrant, CFunct3, CRest, RdField, CFunct2, CArithKey, CBit12, Major, Part;
    QuadrantIsLow(p);
    GapsKeys(p);
    RowKeys(p, 0, 4);
  }

  // Pattern and operands together take all 16 bits.

  lemma PlainShapes()
    ensures BitsOf(FiveAt7, FiveAt2, IsX0, NoImm) == 0x0FFC
    ensures BitsOf(FiveAt7, SameAsRd, FiveAt2, NoImm) == 0x0FFC
    ensures BitsOf(ThreeAt7, SameAsRd, ThreeAt2, NoImm) == 0x039C
    ensures BitsOf(IsX0, FiveAt7, IsX0, NoImm) == 0x0F80
    ensures BitsOf(IsX1, FiveAt7, IsX0, NoImm) == 0x0F80
    ensures BitsOf(IsX0, IsX0, IsX0, NoImm) == 0
  {}

  lemma StackShapes()
    ensures BitsOf(IsX2, IsX2, IsX0, Imm16sp) == 0x107C
    ensures BitsOf(ThreeAt2, IsX2, IsX0, Imm4spn) == 0x1FFC
  {}

  lemma JumpShapes()
    ensures BitsOf(IsX0, ThreeAt7, IsX0, ImmB) == 0x1FFC
    ensures BitsOf(IsX0, IsX0, IsX0, ImmJ) == 0x1FFC
    ensures BitsOf(IsX1, IsX0, IsX0, ImmJ) == 0x1FFC
  {}

  lemma FiveShapes(imm: Scatter)
    ensures imm.ImmI? || imm.ImmSh6? ==> BitsOf(FiveAt7, SameAsRd, IsX0, imm) == 0x1FFC
    ensures imm.ImmI? || imm.ImmUi? ==> BitsOf(FiveAt7, IsX0, IsX0, imm) == 0x1FFC
    ensures imm.ImmLwsp? || imm.ImmLdsp? || imm.ImmLqsp? ==> BitsOf(FiveAt7, IsX2, IsX0, imm) == 0x1FFC
    ensures imm.ImmSwsp? || imm.ImmSdsp? || imm.ImmSqsp? ==> BitsOf(IsX0, IsX2, FiveAt2, imm) == 0x1FFC
  {}

  lemma ThreeShapes(imm: Scatter)
    ensures imm.ImmI? || imm.ImmSh6? ==> BitsOf(ThreeAt7, SameAsRd, IsX0, imm) == 0x13FC
    ensures imm.ImmW? || imm.ImmD? || imm.ImmQ? ==> BitsOf(ThreeAt2, ThreeAt7, IsX0, imm) == 0x1FFC
    ensures imm.ImmW? || imm.ImmD? || imm.ImmQ? ==> BitsOf(IsX0, ThreeAt7, ThreeAt2, imm) == 0x1FFC
  {}

  // The bits the operands of a layout take.
  function Taken(codec: Codec): bv64
  {
    match codec
    case OfCiNone => 0
    case OfCi16sp => 0x107C
    case OfCbImm | OfCbSh6 => 0x13FC
    case OfCs => 0x039C
    case OfCrJr | OfCrJalr => 0x0F80
    case OfCrMv | OfCr => 0x0FFC
    case _ => 0x1FFC
  }

  lemma LayoutTaken(codec: Codec)
    requires IsParcelLayout(codec)
    ensures ParcelBits(codec) == Taken(codec)
  {
    hide BitsOf;
    PlainShapes();
    StackShapes();
    JumpShapes();
    FiveShapes(ImmSpot(codec));
    ThreeShapes(ImmSpot(codec));
  }

  predicate Leaves(taken: bv64, mask: bv64)
  {
    if mask == 0xE003 then taken == 0x1FFC
    else if mask == 0xFFFF then taken == 0
    else if mask == 0xEF83 then taken == 0x107C
    else if mask == 0xEC03 then taken == 0x13FC
    else if mask == 0xFC63 then taken == 0x039C
    else if mask == 0xF07F then taken == 0x0F80
    else mask == 0xF003 && taken == 0x0FFC
  }

  lemma LeftWhole(taken: bv64, mask: bv64)
    requires Leaves(taken, mask)
    ensures Beside(taken, mask) == 0xFFFF && Part(taken, mask) == 0
  {}

  lemma MemoryLeaves(c: ParcelOp)
    requires Pattern(c) != (0, 1) && (c.CLoad? || c.CLoadSp? || c.CStore? || c.CStoreSp?)
    ensures IsParcelLayout(ParcelCodec(c)) && Leaves(Taken(ParcelCodec(c)), Pattern(c).0)
  {}

  lemma TakenLeaves(c: ParcelOp)
    requires Pattern(c) != (0, 1)
    ensures IsParcelLayout(ParcelCodec(c)) && Leaves(Taken(ParcelCodec(c)), Pattern(c).0)
  {
    if c.CLoad? || c.CLoadSp? || c.CStore? || c.CStoreSp? {
      hide Leaves, Taken, Pattern, ParcelCodec, IsParcelLayout;
      MemoryLeaves(c);
    }
  }

  lemma TakenWhole(c: ParcelOp)
    requires Pattern(c) != (0, 1)
    ensures IsParcelLayout(ParcelCodec(c))
    ensures Beside(Taken(ParcelCodec(c)), Pattern(c).0) == 0xFFFF && Part(Taken(ParcelCodec(c)), Pattern(c).0) == 0
  {
    hide Pattern, Taken, ParcelCodec, IsParcelLayout;
    TakenLeaves(c);
    LeftWhole(Taken(ParcelCodec(c)), Pattern(c).0);
  }

  // A word decoded to a compressed operation is its pattern and its operands in their places ...
  lemma ParcelKept(isa: Isa, p: bv64)
    requires Opcode(isa, p).Parcel?
    ensures var c := Opcode(isa, p).c;
      var codec, f := ParcelCodec(c), OperandsOf(ParcelCodec(c), p);
      IsParcelLayout(codec) && InLayout(codec, f) && Part(p, 0xFFFF) == Beside(EncodeParcel(codec, f), Pattern(c).1)
  {
    hide Opcode, Pattern, NotOther, Part, Beside, EncodeParcel, OperandsOf, ParcelBits, Taken, IsParcelLayout, InLayout,
      ParcelCodec;
    var c := Opcode(isa, p).c;
    ParcelIff(isa, p, c);
    if Pattern(c) == (0, 1) {
      UnknownNever(isa, p, c);
    }
    TakenWhole(c);
    LayoutTaken(ParcelCodec(c));
    TakenApart(ParcelCodec(c), p);
    PartsJoin(p, Taken(ParcelCodec(c)), Pattern(c).0);
  }

  // ... so no two 16-bit words are decoded to the same compressed operation with the same operands ...
  lemma DecodedAlike(isa: Isa, x: bv64, y: bv64)
    ensures Opcode(isa, x).Parcel? && DecodeInst(isa, x) == DecodeInst(isa, y) ==> Part(x, 0xFFFF) == Part(y, 0xFFFF)
  {
    hide Opcode, Pattern, Part, Beside, EncodeParcel, OperandsOf, IsParcelLayout, InLayout, ParcelCodec;
    if Opcode(isa, x).Parcel? && DecodeInst(isa, x) == DecodeInst(isa, y) {
      ParcelKept(isa, x);
      ParcelKept(isa, y);
    }
  }

  lemma Quadrant0Within(c: ParcelOp)
    requires Pattern(c) != (0, 1) && OfQuadrant0(c)
    ensures Part(Pattern(c).1, Pattern(c).0) == Pattern(c).1
  {
    match c
    case CAddi4spn =>
    case CLoad(Fld) =>
    case CLoad(Lq) =>
    case CLoad(Lw) =>
    case CLoad(Flw) =>
    case CLoad(Ld) =>
    case CStore(Fsd) =>
    case CStore(Sq) =>
    case CStore(Sw) =>
    case CStore(Fsw) =>
    case CStore(Sd) =>
  }

  lemma Quadrant1Within(c: ParcelOp)
    requires Pattern(c) != (0, 1) && !OfQuadrant0(c) && !OfQuadrant2(c)
    ensures Part(Pattern(c).1, Pattern(c).0) == Pattern(c).1
  {
    match c
    case CNop =>
    case CAddi =>
    case CJal =>
    case CAddiw =>
    case CLi =>
    case CAddi16sp =>
    case CLui =>
    case CShift(Srli) =>
    case CShift(Srai) =>
    case CAndi =>
    case CArith(Sub, Xlen) =>
    case CArith(Xor, Xlen) =>
    case CArith(Or, Xlen) =>
    case CArith(And, Xlen) =>
    case CArith(Sub, Bits32) =>
    case CArith(Add, Bits32) =>
    case CJ =>
    case CBranch(Beq) =>
    case CBranch(Bne) =>
  }

  lemma Quadrant2Within(c: ParcelOp)
    requires Pattern(c) != (0, 1) && OfQuadrant2(c)
    ensures Part(Pattern(c).1, Pattern(c).0) == Pattern(c).1
  {
    match c
    case CShift(Slli) =>
    case CLoadSp(Fld) =>
    case CLoadSp(Lq) =>
    case CLoadSp(Lw) =>
    case CLoadSp(Flw) =>
    case CLoadSp(Ld) =>
    case CJr =>
    case CMv =>
    case CEbreak =>
    case CJalr =>
    case CAdd =>
    case CStoreSp(Fsd) =>
    case CStoreSp(Sq) =>
    case CStoreSp(Sw) =>
    case CStoreSp(Fsw) =>
    case CStoreSp(Sd) =>
  }

  lemma PatternWithin(c: ParcelOp)
    requires Pattern(c) != (0, 1)
    ensures Part(Pattern(c).1, Pattern(c).0) == Pattern(c).1
  {
    hide Pattern, Part;
    if OfQuadrant0(c) {
      Quadrant0Within(c);
    } else if OfQuadrant2(c) {
      Quadrant2Within(c);
    } else {
      Quadrant1Within(c);
    }
  }

  lemma PutWithin(codec: Codec, f: Fields)
    requires IsParcelLayout(codec) && InLayout(codec, f)
    ensures Part(EncodeParcel(codec, f), ParcelBits(codec)) == EncodeParcel(codec, f)
  {
    hide Part, Beside, EncodeParcel, OperandsOf, ParcelBits, IsParcelLayout, InLayout;
    NothingIn(ParcelBits(codec));
    BesideNothing(EncodeParcel(codec, f));
    PutTogether(codec, f, 0);
    TakenApart(codec, EncodeParcel(codec, f));
  }

  // ... and any operands of its layout put over its pattern are decoded to it, unless the word is another
  // operation's.
  lemma ParcelDecoded(isa: Isa, c: ParcelOp, f: Fields)
    requires Pattern(c) != (0, 1) && IsParcelLayout(ParcelCodec(c)) && InLayout(ParcelCodec(c), f)
    ensures var e := Beside(EncodeParcel(ParcelCodec(c), f), Pattern(c).1);
      DecodeInst(isa, e) == Decoded(Parcel(c), ParcelCodec(c), f) <==> NotOther(isa, c, e)
  {
    hide Opcode, Pattern, NotOther, Part, Beside, EncodeParcel, OperandsOf, ParcelBits, Taken, IsParcelLayout, InLayout,
      ParcelCodec;
    var codec, e := ParcelCodec(c), Beside(EncodeParcel(ParcelCodec(c), f), Pattern(c).1);
    TakenWhole(c);
    LayoutTaken(codec);
    PatternWithin(c);
    PutWithin(codec, f);
    HeldTogether(ParcelBits(codec), Pattern(c).0, EncodeParcel(codec, f), Pattern(c).1);
    PartSwap(ParcelBits(codec), Pattern(c).0);
    PieceClear(ParcelBits(codec), Pattern(c).1, Pattern(c).0);
    PutTogether(codec, f, Pattern(c).1);
    ParcelIff(isa, e, c);
  }

  // The 32-bit word that each compressed operation abbreviates (sections 16.3 to 16.5): its fixed bits and
  // where in the 16-bit word its operands come from.

  datatype Source =
    | NoFields
    | UFields(rd: Spot, imm: Scatter)
    | UjFields(rd: Spot, imm: Scatter)
    | IFields(rd: Spot, rs1: Spot, imm: Scatter)
    | SFields(rs1: Spot, rs2: Spot, imm: Scatter)
    | SbFields(rs1: Spot, rs2: Spot, imm: Scatter)
    | RFields(rd: Spot, rs1: Spot, rs2: Spot)

  function SourceOf(c: ParcelOp): Source
  {
    match c
    case CAddi4spn => IFields(ThreeAt2, IsX2, Imm4spn)
    case CLoad(Fld) | CLoad(Ld) => IFields(ThreeAt2, ThreeAt7, ImmD)
    case CLoad(Lq) => IFields(ThreeAt2, ThreeAt7, ImmQ)
    case CLoad(Lw) | CLoad(Flw) => IFields(ThreeAt2, ThreeAt7, ImmW)
    case CStore(Fsd) | CStore(Sd) => SFields(ThreeAt7, ThreeAt2, ImmD)
    case CStore(Sq) => SFields(ThreeAt7, ThreeAt2, ImmQ)
    case CStore(Sw) | CStore(Fsw) => SFields(ThreeAt7, ThreeAt2, ImmW)
    case CNop => IFields(IsX0, IsX0, NoImm)
    case CAddi | CAddiw => IFields(FiveAt7, FiveAt7, ImmI)
    case CJal => UjFields(IsX1, ImmJ)
    case CLi => IFields(FiveAt7, IsX0, ImmI)
    case CAddi16sp => IFields(IsX2, IsX2, Imm16sp)
    case CLui => UFields(FiveAt7, ImmUi)
    case CShift(Srli) | CShift(Srai) => IFields(ThreeAt7, ThreeAt7, ImmSh6)
    case CAndi => IFields(ThreeAt7, ThreeAt7, ImmI)
    case CArith(Sub, Xlen) | CArith(Xor, Xlen) | CArith(Or, Xlen) | CArith(And, Xlen) | CArith(Sub, Bits32)
    | CArith(Add, Bits32) => RFields(ThreeAt7, ThreeAt7, ThreeAt2)
    case CJ => UjFields(IsX0, ImmJ)
    case CBranch(Beq) | CBranch(Bne) => SbFields(ThreeAt7, IsX0, ImmB)
    case CShift(Slli) => IFields(FiveAt7, FiveAt7, ImmSh6)
    case CLoadSp(Fld) | CLoadSp(Ld) => IFields(FiveAt7, IsX2, ImmLdsp)
    case CLoadSp(Lq) => IFields(FiveAt7, IsX2, ImmLqsp)
    case CLoadSp(Lw) | CLoadSp(Flw) => IFields(FiveAt7, IsX2, ImmLwsp)
    case CJr => IFields(IsX0, FiveAt7, NoImm)
    case CMv => IFields(FiveAt7, FiveAt2, NoImm)
    case CEbreak => NoFields
    case CJalr => IFields(IsX1, FiveAt7, NoImm)
    case CAdd => RFields(FiveAt7, FiveAt7, FiveAt2)
    case CStoreSp(Fsd) | CStoreSp(Sd) => SFields(IsX2, FiveAt2, ImmSdsp)
    case CStoreSp(Sq) => SFields(IsX2, FiveAt2, ImmSqsp)
    case CStoreSp(Sw) | CStoreSp(Fsw) => SFields(IsX2, FiveAt2, ImmSwsp)
    case _ => NoFields
  }

  function LongBits(c: ParcelOp): bv64
  {
    match c
    case CLoad(l) => LoadBits(l)
    case CLoadSp(l) => LoadBits(l)
    case CStore(t) => StoreBits(t)
    case CStoreSp(t) => StoreBits(t)
    case CAddi4spn | CNop | CAddi | CLi | CAddi16sp | CMv => 0x13
    case CJal | CJ => 0x6F
    case CAddiw => 0x1B
    case CLui => 0x37
    case CShift(Srli) => 0x5013
    case CShift(Srai) => 0x4000_5013
    case CAndi => 0x7013
    case CArith(Sub, Xlen) => 0x4000_0033
    case CArith(Xor, Xlen) => 0x4033
    case CArith(Or, Xlen) => 0x6033
    case CArith(And, Xlen) => 0x7033
    case CArith(Sub, Bits32) => 0x4000_003B
    case CArith(Add, Bits32) => 0x3B
    case CBranch(Beq) => 0x63
    case CBranch(Bne) => 0x1063
    case CShift(Slli) => 0x1013
    case CJr | CJalr => 0x67
    case CEbreak => 0x0010_0073
    case CAdd => 0x33
    case _ => 0
  }

  function LoadBits(l: LoadOp): bv64
  {
    match l case Lw => 0x2003 case Ld => 0x3003 case Lq => 0x200F case Flw => 0x2007 case Fld => 0x3007 case _ => 0
  }

  function StoreBits(t: StoreOp): bv64
  {
    match t case Sw => 0x2023 case Sd => 0x3023 case Sq => 0x4023 case Fsw => 0x2027 case Fsd => 0x3027 case _ => 0
  }

  function Gathered(x: Source, p: bv64): bv64
  {
    match x
    case NoFields => 0
    case UFields(rd, imm) => EncodeU(RegAt(rd, p), ImmAt(imm, p))
    case UjFields(rd, imm) => EncodeUj(RegAt(rd, p), ImmAt(imm, p))
    case IFields(rd, rs1, imm) => EncodeI(RegAt(rd, p), RegAt(rs1, p), ImmAt(imm, p))
    case SFields(rs1, rs2, imm) => EncodeS(RegAt(rs1, p), RegAt(rs2, p), ImmAt(imm, p))
    case SbFields(rs1, rs2, imm) => EncodeSb(RegAt(rs1, p), RegAt(rs2, p), ImmAt(imm, p))
    case RFields(rd, rs1, rs2) => EncodeR(RegAt(rd, p), RegAt(rs1, p), RegAt(rs2, p))
  }

  function Abbreviated(c: ParcelOp, p: bv64): bv64
  {
    Beside(Gathered(SourceOf(c), p), LongBits(c))
  }

  // The words that are reserved, with an immediate of zero.
  predicate Reserved(c: ParcelOp, p: bv64)
  {
    match c
    case CAddi4spn => Part(p, 0x1FE0) == 0
    case CAddi16sp | CLui | CAndi | CShift(_) => Part(p, 0x107C) == 0
    case _ => false
  }

  lemma PlainExtra()
    ensures EncodeExtra(NoExtra()) == 0
  {}

  lemma WordBits()
    ensures Bits(ByOpcode(13)) == 0x37
    ensures Bits(ByOpcode(27)) == 0x6F
    ensures Bits(ByFunct3(25, 0)) == 0x67
    ensures Bits(ByFunct3(24, 0)) == 0x63
    ensures Bits(ByFunct3(24, 1)) == 0x1063
    ensures Bits(ByFunct3(4, 0)) == 0x13
    ensures Bits(ByFunct3(4, 7)) == 0x7013
    ensures Bits(ByFunct3(6, 0)) == 0x1B
    ensures Bits(ByFunct3(0, 2)) == 0x2003
    ensures Bits(ByFunct3(0, 3)) == 0x3003
    ensures Bits(ByFunct3(3, 2)) == 0x200F
    ensures Bits(ByFunct3(1, 2)) == 0x2007
    ensures Bits(ByFunct3(1, 3)) == 0x3007
    ensures Bits(ByFunct3(8, 2)) == 0x2023
    ensures Bits(ByFunct3(8, 3)) == 0x3023
    ensures Bits(ByFunct3(8, 4)) == 0x4023
    ensures Bits(ByFunct3(9, 2)) == 0x2027
    ensures Bits(ByFunct3(9, 3)) == 0x3027
    ensures Bits(ByFunct5(4, 1, 0)) == 0x1013
    ensures Bits(ByFunct5(4, 5, 0)) == 0x5013
    ensures Bits(ByFunct5(4, 5, 8)) == 0x4000_5013
    ensures Bits(ByFunct7(12, 0, 0)) == 0x33
    ensures Bits(ByFunct7(12, 0, 32)) == 0x4000_0033
    ensures Bits(ByFunct7(12, 4, 0)) == 0x4033
    ensures Bits(ByFunct7(12, 6, 0)) == 0x6033
    ensures Bits(ByFunct7(12, 7, 0)) == 0x7033
    ensures Bits(ByWord(0xFFFF_FFFF, 0x0010_0073)) == 0x0010_0073
    ensures Bits(ByFunct7(14, 0, 0)) == 0x3B
    ensures Bits(ByFunct7(14, 0, 32)) == 0x4000_003B
  {}

  lemma FieldsIn(codec: Codec, p: bv64)
    requires IsParcelLayout(codec)
    ensures OperandsOf(codec, p) ==
      Plain(RegAt(RdSpot(codec), p), RegAt(FirstSpot(codec), p), RegAt(Rs2Spot(codec), p), ImmAt(ImmSpot(codec), p))
  {
    hide RdIn, Rs1In, Rs2In, ImmIn, ExtraIn, RdSpot, Rs1Spot, Rs2Spot, ImmSpot, RegAt, ImmAt, IsParcelLayout;
    RdWhere(codec, p);
    Rs1Where(codec, p);
    Rs2Where(codec, p);
    ImmWhere(codec, p);
    NoExtraIn(codec, p);
  }

  // Where the first source is read, which may be the destination.
  function FirstSpot(codec: Codec): Spot
  {
    if Rs1Spot(codec) == SameAsRd then RdSpot(codec) else Rs1Spot(codec)
  }

  function TakenFrom(codec: Codec, word: Codec): Source
  {
    match word
    case OfU => UFields(RdSpot(codec), ImmSpot(codec))
    case OfUj => UjFields(RdSpot(codec), ImmSpot(codec))
    case OfI | OfISh7 => IFields(RdSpot(codec), FirstSpot(codec), ImmSpot(codec))
    case OfS => SFields(FirstSpot(codec), Rs2Spot(codec), ImmSpot(codec))
    case OfSb => SbFields(FirstSpot(codec), Rs2Spot(codec), ImmSpot(codec))
    case OfR => RFields(RdSpot(codec), FirstSpot(codec), Rs2Spot(codec))
    case _ => NoFields
  }

  lemma LoadSourceFits(isa: Isa, c: ParcelOp, op: Op)
    requires c.CLoad? || c.CLoadSp?
    requires op == Expansion(isa, c) && op != Illegal
    ensures SourceOf(c) == TakenFrom(ParcelCodec(c), CodecOf(op))
  {}

  lemma StoreSourceFits(isa: Isa, c: ParcelOp, op: Op)
    requires c.CStore? || c.CStoreSp?
    requires op == Expansion(isa, c) && op != Illegal
    ensures SourceOf(c) == TakenFrom(ParcelCodec(c), CodecOf(op))
  {}

  lemma ArithSourceFits(isa: Isa, c: ParcelOp, op: Op)
    requires c.CArith? || c.CShift? || c.CAdd? || c.CBranch? || c.CAndi?
    requires op == Expansion(isa, c) && op != Illegal
    ensures SourceOf(c) == TakenFrom(ParcelCodec(c), CodecOf(op))
  {}

  lemma SourceFits(isa: Isa, c: ParcelOp, op: Op)
    requires op == Expansion(isa, c) && op != Illegal
    ensures SourceOf(c) == TakenFrom(ParcelCodec(c), CodecOf(op))
  {
    if c.CLoad? || c.CLoadSp? {
      hide SourceOf, TakenFrom, ParcelCodec, CodecOf;
      LoadSourceFits(isa, c, op);
    } else if c.CStore? || c.CStoreSp? {
      hide SourceOf, TakenFrom, ParcelCodec, CodecOf;
      StoreSourceFits(isa, c, op);
    } else if c.CArith? || c.CShift? || c.CAdd? || c.CBranch? || c.CAndi? {
      hide SourceOf, TakenFrom, ParcelCodec, CodecOf;
      ArithSourceFits(isa, c, op);
    }
  }

  lemma LoadBitsFit(isa: Isa, c: ParcelOp, op: Op)
    requires c.CLoad? || c.CLoadSp?
    requires op == Expansion(isa, c) && op != Illegal
    ensures Bits(FixedOf(op)) == LongBits(c)
  {
    hide Bits, LoadFixed, StoreFixed, LoadBits, StoreBits;
    LoadBitsAre(c.l);
    LoadsThemselves(isa, c);
  }

  lemma LoadsThemselves(isa: Isa, c: ParcelOp)
    requires (c.CLoad? || c.CLoadSp?) && Expansion(isa, c) != Illegal
    ensures Expansion(isa, c) == Load(c.l) && IsLoad(c.l)
  {}

  predicate IsLoad(l: LoadOp) { l.Lw? || l.Ld? || l.Lq? || l.Flw? || l.Fld? }

  lemma LoadBitsAre(l: LoadOp)
    requires IsLoad(l)
    ensures Bits(LoadFixed(l)) == LoadBits(l)
  {
    hide Bits;
    WordBits();
    match l
    case Lw => case Ld => case Lq => case Flw => case Fld =>
  }

  lemma StoreBitsFit(isa: Isa, c: ParcelOp, op: Op)
    requires c.CStore? || c.CStoreSp?
    requires op == Expansion(isa, c) && op != Illegal
    ensures Bits(FixedOf(op)) == LongBits(c)
  {
    hide Bits, LoadFixed, StoreFixed, LoadBits, StoreBits;
    StoreBitsAre(c.s);
    StoresThemselves(isa, c);
  }

  lemma StoresThemselves(isa: Isa, c: ParcelOp)
    requires (c.CStore? || c.CStoreSp?) && Expansion(isa, c) != Illegal
    ensures Expansion(isa, c) == Store(c.s) && IsStore(c.s)
  {}

  predicate IsStore(s: StoreOp) { s.Sw? || s.Sd? || s.Sq? || s.Fsw? || s.Fsd? }

  lemma StoreBitsAre(s: StoreOp)
    requires IsStore(s)
    ensures Bits(StoreFixed(s)) == StoreBits(s)
  {
    hide Bits;
    WordBits();
    match s
    case Sw => case Sd => case Sq => case Fsw => case Fsd =>
  }

  lemma ArithBitsFit(isa: Isa, c: ParcelOp, op: Op)
    requires c.CArith? || c.CShift? || c.CAdd? || c.CBranch? || c.CAndi?
    requires op == Expansion(isa, c) && op != Illegal
    ensures Bits(FixedOf(op)) == LongBits(c)
  {
    hide Bits;
    WordBits();
  }

  lemma BitsFit(isa: Isa, c: ParcelOp, op: Op)
    requires op == Expansion(isa, c) && op != Illegal
    ensures Bits(FixedOf(op)) == LongBits(c)
  {
    hide Bits;
    if c.CLoad? || c.CLoadSp? {
      hide FixedOf, LongBits;
      LoadBitsFit(isa, c, op);
    } else if c.CStore? || c.CStoreSp? {
      hide FixedOf, LongBits;
      StoreBitsFit(isa, c, op);
    } else if c.CArith? || c.CShift? || c.CAdd? || c.CBranch? || c.CAndi? {
      hide FixedOf, LongBits;
      ArithBitsFit(isa, c, op);
    } else {
      WordBits();
    }
  }

  lemma X0Read(p: bv64)
    ensures EncodeR(RegAt(IsX0, p), RegAt(IsX0, p), RegAt(IsX0, p)) == 0
  {}

  lemma NothingGathered(codec: Codec, p: bv64)
    requires IsParcelLayout(codec) && Becomes(codec, OfNone)
    ensures EncodeLayout(OfNone, OperandsOf(codec, p)) == 0
  {
    hide OperandsOf, RdSpot, Rs1Spot, Rs2Spot, ImmSpot, RegAt, ImmAt, IsParcelLayout, EncodeU, EncodeUj, EncodeI,
    EncodeS,
      EncodeSb, EncodeR, EncodeExtra, Beside, Becomes;
    FieldsIn(codec, p);
    ExpansionHolds(codec, OfNone);
    PlainExtra();
    BesideNothing(0);
    X0Read(p);
  }

  lemma RegistersGathered(codec: Codec, p: bv64)
    requires IsParcelLayout(codec)
    ensures Gathered(TakenFrom(codec, OfR), p) == EncodeLayout(OfR, OperandsOf(codec, p))
  {
    hide OperandsOf, RdSpot, Rs1Spot, Rs2Spot, ImmSpot, FirstSpot, RegAt, ImmAt, IsParcelLayout, EncodeU, EncodeUj,
      EncodeI, EncodeS, EncodeSb, EncodeR, EncodeExtra, Beside;
    FieldsIn(codec, p);
    PlainExtra();
    var f := OperandsOf(codec, p);
    BesideNothing(EncodeR(f.rd, f.rs1, f.rs2));
  }

  lemma ImmediatesGathered(codec: Codec, word: Codec, p: bv64)
    requires IsParcelLayout(codec) && (word.OfI? || word.OfISh7?)
    ensures Gathered(TakenFrom(codec, word), p) == EncodeLayout(word, OperandsOf(codec, p))
  {
    hide OperandsOf, RdSpot, Rs1Spot, Rs2Spot, ImmSpot, FirstSpot, RegAt, ImmAt, IsParcelLayout, EncodeU, EncodeUj,
      EncodeI, EncodeS, EncodeSb, EncodeR, EncodeExtra, Beside;
    FieldsIn(codec, p);
  }

  lemma GatheredIs(codec: Codec, word: Codec, p: bv64)
    requires IsParcelLayout(codec) && Becomes(codec, word)
    ensures Gathered(TakenFrom(codec, word), p) == EncodeLayout(word, OperandsOf(codec, p))
  {
    hide OperandsOf, RdSpot, Rs1Spot, Rs2Spot, ImmSpot, FirstSpot, RegAt, ImmAt, IsParcelLayout, EncodeU, EncodeUj,
      EncodeI, EncodeS, EncodeSb, EncodeR, EncodeExtra, Beside, Becomes;
    if word.OfNone? {
      hide EncodeLayout;
      NothingGathered(codec, p);
    } else if word.OfR? {
      hide EncodeLayout;
      RegistersGathered(codec, p);
    } else if word.OfI? || word.OfISh7? {
      hide EncodeLayout;
      ImmediatesGathered(codec, word, p);
    } else {
      FieldsIn(codec, p);
      ExpansionHolds(codec, word);
    }
  }

  lemma AbbreviatedIs(isa: Isa, c: ParcelOp, p: bv64)
    requires Expansion(isa, c) != Illegal
    ensures Abbreviated(c, p) == WordOf(Expansion(isa, c), OperandsOf(ParcelCodec(c), p))
  {
    hide OperandsOf, Expansion, ParcelCodec, CodecOf, FormatOf, SourceOf, TakenFrom, LongBits, Gathered, EncodeLayout,
      FixedOf, Bits, Beside, Becomes, IsParcelLayout, Target, IsFree, IsWordOp;
    var op := Expansion(isa, c);
    ExpansionLayout(isa, c, op);
    ExpansionHolds(ParcelCodec(c), CodecOf(op));
    TargetIsFree(op);
    FreeIsWordOp(op);
    Formats(op);
    SourceFits(isa, c, op);
    BitsFit(isa, c, op);
    GatheredIs(ParcelCodec(c), CodecOf(op), p);
  }

  lemma FreeIsWordOp(op: Op)
    requires IsFree(op)
    ensures IsWordOp(op)
  {}

  lemma ZeroImmediates(p: bv64)
    ensures Cimm4spn(p) == 0 <==> Part(p, 0x1FE0) == 0
    ensures CimmI(p) == 0 <==> Part(p, 0x107C) == 0
    ensures CimmSh6(p) == 0 <==> Part(p, 0x107C) == 0
    ensures Cimm16sp(p) == 0 <==> Part(p, 0x107C) == 0
    ensures CimmUi(p) == 0 <==> Part(p, 0x107C) == 0
  {}

  lemma ReservedIff(c: ParcelOp, p: bv64)
    requires Pattern(c) != (0, 1)
    ensures Reserved(c, p) <==> NeedsImmediate(c) && ImmIn(ParcelCodec(c), p) == 0
  {
    if NeedsImmediate(c) {
      hide Part, Pattern, ImmIn, Cimm4spn, CimmI, CimmSh6, Cimm16sp, CimmUi, IsParcelLayout;
      ZeroImmediates(p);
      TakenWhole(c);
      ImmWhere(ParcelCodec(c), p);
    } else {
      hide Part, Pattern, ImmIn, ParcelCodec;
    }
  }

  // A 16-bit word with the pattern of an operation means what the 32-bit word does that it abbreviates;
  // with a reserved immediate it is illegal.
  lemma Abbreviation(isa: Isa, c: ParcelOp, p: bv64)
    requires Matches(isa, c, p)
    ensures if Reserved(c, p) then Expanded(isa, p).op == Illegal
            else Word(Abbreviated(c, p)) && Expanded(isa, p) == DecodeInst(isa, Abbreviated(c, p))
  {
    hide Opcode, OperandsOf, Expansion, ParcelCodec, NeedsImmediate, Reserved, Matches, WordOf, Word, Abbreviated,
      Target, InRange;
    ParcelIff(isa, p, c);
    LowBitsPlain(isa, p);
    ParcelExpands(isa, p);
    KnownPatterns(isa, c);
    ReservedIff(c, p);
    OperandsImm(ParcelCodec(c), p);
    AbbreviatedIs(isa, c, p);
    ParcelExpansionFits(isa, c, p);
    if !Reserved(c, p) {
      TargetWord(isa, Expansion(isa, c), OperandsOf(ParcelCodec(c), p));
    }
  }

  lemma OperandsImm(codec: Codec, p: bv64)
    ensures OperandsOf(codec, p).imm == ImmIn(codec, p)
  {}
}

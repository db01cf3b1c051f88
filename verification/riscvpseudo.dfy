// Showing an operation as a pseudo-instruction, and reading it back.
module RiscvPseudo {
  import opened RiscvOps
  import opened RiscvOperands
  import opened RiscvWords
  import opened RiscvDecoder

  predicate Satisfies(f: Fields, c: Constraint)
  {
    match c
    case RdIsRa => f.rd == 1
    case RdIsX0 => f.rd == 0
    case Rs1IsX0 => f.rs1 == 0
    case Rs2IsX0 => f.rs2 == 0
    case Rs2IsRs1 => f.rs2 == f.rs1
    case Rs1IsRa => f.rs1 == 1
    case ImmIs(v) => f.imm == v
  }

  predicate SatisfiesAll(f: Fields, cs: seq<Constraint>)
  {
    forall i :: 0 <= i < |cs| ==> Satisfies(f, cs[i])
  }

  // The row of an operation's table that is used: the first whose constraints all hold.
  function FirstRow(rows: seq<Row>, f: Fields, from: nat): (k: int)
    requires from <= |rows|
    ensures k < 0 ==> forall j :: from <= j < |rows| ==> !SatisfiesAll(f, rows[j].constraints)
    ensures k >= 0 ==> from <= k < |rows| && SatisfiesAll(f, rows[k].constraints)
    ensures k >= 0 ==> forall j :: from <= j < k ==> !SatisfiesAll(f, rows[j].constraints)
    decreases |rows| - from
  {
    if from == |rows| then -1
    else if SatisfiesAll(f, rows[from].constraints) then from
    else FirstRow(rows, f, from + 1)
  }

  // The row of a decoded instruction, or -1 if it is shown as it is.
  function RowOf(d: Decoded): int
  {
    FirstRow(PseudoRows(d.op), d.f, 0)
  }

  function Lift(d: Decoded): Decoded
  {
    var k := RowOf(d);
    if k < 0 then d
    else var op := PseudoRows(d.op)[k].op; d.(op := op, codec := CodecOf(op))
  }

  // What a pseudo-instruction stands for (chapter 25 of the RISC-V Unprivileged ISA 20191213): operands are
  // printed with it or have one value.

  datatype Given = Printed | Zero | Ra | AsRs1 | Is(value: bv64)

  datatype Standing = Standing(op: Op, rd: Given, rs1: Given, rs2: Given, imm: Given)

  // The register fflags is 1, frm is 2 and fcsr is 3; the counters start at 0xC00.
  function Alias(p: PseudoOp): Standing
  {
    match p
    case Nop => Standing(Immediate(Addi), Zero, Zero, Zero, Zero)
    case Mv => Standing(Immediate(Addi), Printed, Printed, Zero, Zero)
    case Not => Standing(Immediate(Xori), Printed, Printed, Zero, Is(0xFFFF_FFFF))
    case SextW => Standing(Immediate(Addiw), Printed, Printed, Zero, Zero)
    case Seqz => Standing(Immediate(Sltiu), Printed, Printed, Zero, Is(1))
    case Neg => Standing(Register(Sub, Xlen), Printed, Zero, Printed, Zero)
    case Negw => Standing(Register(Sub, Bits32), Printed, Zero, Printed, Zero)
    case Snez => Standing(Register(Sltu, Xlen), Printed, Zero, Printed, Zero)
    case Sltz => Standing(Register(Slt, Xlen), Printed, Printed, Zero, Zero)
    case Sgtz => Standing(Register(Slt, Xlen), Printed, Zero, Printed, Zero)
    case FmvS => Standing(Fp(Fsgnj, Single), Printed, Printed, AsRs1, Zero)
    case FnegS => Standing(Fp(Fsgnjn, Single), Printed, Printed, AsRs1, Zero)
    case FabsS => Standing(Fp(Fsgnjx, Single), Printed, Printed, AsRs1, Zero)
    case FmvD => Standing(Fp(Fsgnj, Double), Printed, Printed, AsRs1, Zero)
    case FnegD => Standing(Fp(Fsgnjn, Double), Printed, Printed, AsRs1, Zero)
    case FabsD => Standing(Fp(Fsgnjx, Double), Printed, Printed, AsRs1, Zero)
    case FmvQ => Standing(Fp(Fsgnj, Quad), Printed, Printed, AsRs1, Zero)
    case FnegQ => Standing(Fp(Fsgnjn, Quad), Printed, Printed, AsRs1, Zero)
    case FabsQ => Standing(Fp(Fsgnjx, Quad), Printed, Printed, AsRs1, Zero)
    case Beqz => Standing(Branch(Beq), Zero, Printed, Zero, Printed)
    case Bnez => Standing(Branch(Bne), Zero, Printed, Zero, Printed)
    case Blez => Standing(Branch(Bge), Zero, Zero, Printed, Printed)
    case Bgez => Standing(Branch(Bge), Zero, Printed, Zero, Printed)
    case Bltz => Standing(Branch(Blt), Zero, Printed, Zero, Printed)
    case Bgtz => Standing(Branch(Blt), Zero, Zero, Printed, Printed)
    case Ble => Standing(Branch(Bge), Zero, Printed, Printed, Printed)
    case Bleu => Standing(Branch(Bgeu), Zero, Printed, Printed, Printed)
    case Bgt => Standing(Branch(Blt), Zero, Printed, Printed, Printed)
    case Bgtu => Standing(Branch(Bltu), Zero, Printed, Printed, Printed)
    case J => Standing(Jal, Zero, Zero, Zero, Printed)
    case Ret => Standing(Jalr, Zero, Ra, Zero, Zero)
    case Jr => Standing(Jalr, Zero, Printed, Zero, Zero)
    case Rdcycle => Standing(Csr(Csrrs), Printed, Zero, Zero, Is(0xC00))
    case Rdtime => Standing(Csr(Csrrs), Printed, Zero, Zero, Is(0xC01))
    case Rdinstret => Standing(Csr(Csrrs), Printed, Zero, Zero, Is(0xC02))
    case Rdcycleh => Standing(Csr(Csrrs), Printed, Zero, Zero, Is(0xC80))
    case Rdtimeh => Standing(Csr(Csrrs), Printed, Zero, Zero, Is(0xC81))
    case Rdinstreth => Standing(Csr(Csrrs), Printed, Zero, Zero, Is(0xC82))
    case Frcsr => Standing(Csr(Csrrs), Printed, Zero, Zero, Is(3))
    case Frrm => Standing(Csr(Csrrs), Printed, Zero, Zero, Is(2))
    case Frflags => Standing(Csr(Csrrs), Printed, Zero, Zero, Is(1))
    case Fscsr => Standing(Csr(Csrrw), Printed, Printed, Zero, Is(3))
    case Fsrm => Standing(Csr(Csrrw), Printed, Printed, Zero, Is(2))
    case Fsflags => Standing(Csr(Csrrw), Printed, Printed, Zero, Is(1))
    case Fsrmi => Standing(Csr(Csrrwi), Printed, Printed, Zero, Is(2))
    case Fsflagsi => Standing(Csr(Csrrwi), Printed, Printed, Zero, Is(1))
  }

  // What makes an instruction particular enough to be shown in another way.
  predicate Particular(a: Standing)
  {
    match a.op
    case Jal => a.rd.Zero?
    case Jalr => a.rd.Zero? && (a.rs1.Ra? || a.imm.Zero?)
    case Branch(b) => b.Beq? || b.Bne? ==> a.rs2.Zero?
    case Immediate(i) =>
      ((i.Addi? || i.Addiw?) && a.imm.Zero?) || (i.Sltiu? && a.imm == Is(1)) || (i.Xori? && a.imm == Is(0xFFFF_FFFF))
    case Register(r, span) =>
      || (a.rs1.Zero? && ((r.Sub? && !span.Bits64?) || ((r.Slt? || r.Sltu?) && span.Xlen?)))
      || (a.rs2.Zero? && r.Slt? && span.Xlen?)
    case Csr(z) =>
      && a.imm.Is?
      && (if z.Csrrs? then a.rs1.Zero? && ShownRead(a.imm.value).Pseudo?
          else (z.Csrrw? || z.Csrrwi?) && 0 < a.imm.value < if z.Csrrw? then 4 else 3)
    case Fp(x, _) => (x.Fsgnj? || x.Fsgnjn? || x.Fsgnjx?) && a.rs1.Printed? && a.rs2.AsRs1?
    case _ => false
  }

  lemma SignStanding(p: PseudoOp)
    requires PseudoCodec(p) == OfR && Alias(p).op.Fp?
    ensures CodecOf(Alias(p).op) == OfR && Alias(p).op != Illegal && Particular(Alias(p))
  {}

  lemma RegisterStanding(p: PseudoOp)
    requires PseudoCodec(p) == OfR && !Alias(p).op.Fp?
    ensures CodecOf(Alias(p).op) == OfR && Alias(p).op != Illegal && Particular(Alias(p))
  {}

  lemma ReadStanding(p: PseudoOp)
    requires PseudoCodec(p) == OfICsr && Alias(p).op == Csr(Csrrs)
    ensures CodecOf(Alias(p).op) == OfICsr && Alias(p).op != Illegal && Particular(Alias(p))
  {}

  lemma WriteStanding(p: PseudoOp)
    requires PseudoCodec(p) == OfICsr && Alias(p).op != Csr(Csrrs)
    ensures CodecOf(Alias(p).op) == OfICsr && Alias(p).op != Illegal && Particular(Alias(p))
  {}

  lemma ImmediateStanding(p: PseudoOp)
    requires PseudoCodec(p) == OfI
    ensures CodecOf(Alias(p).op) == OfI && Alias(p).op != Illegal && Particular(Alias(p))
  {}

  lemma BranchStanding(p: PseudoOp)
    requires PseudoCodec(p) == OfSb || PseudoCodec(p) == OfUj
    ensures CodecOf(Alias(p).op) == PseudoCodec(p) && Alias(p).op != Illegal && Particular(Alias(p))
  {}

  // A pseudo-instruction has the layout of what it stands for.
  lemma AliasLayout(p: PseudoOp)
    ensures CodecOf(Alias(p).op) == PseudoCodec(p) && Alias(p).op != Illegal && Particular(Alias(p))
  {
    hide Alias, Particular, CodecOf;
    match PseudoCodec(p)
    case OfICsr =>
      if Alias(p).op == Csr(Csrrs) {
        ReadStanding(p);
      } else {
        WriteStanding(p);
      }
    case OfR =>
      if Alias(p).op.Fp? {
        SignStanding(p);
      } else {
        RegisterStanding(p);
      }
    case OfI => ImmediateStanding(p);
    case OfSb | OfUj => BranchStanding(p);
  }

  function Value(x: Given, printed: bv64, rs1: bv64): bv64
  {
    match x
    case Printed => printed
    case Zero => 0
    case Ra => 1
    case AsRs1 => rs1
    case Is(value) => value
  }

  function Operands(a: Standing, g: Fields): Fields
  {
    Plain(Value(a.rd, g.rd, g.rs1), Value(a.rs1, g.rs1, 0), Value(a.rs2, g.rs2, g.rs1), Value(a.imm, g.imm, 0))
  }

  // The instruction that is meant by an operation shown with some operands.
  function Meant(op: Op, g: Fields): (Op, Fields)
  {
    if op.Pseudo? then (Alias(op.shown).op, Operands(Alias(op.shown), g)) else (op, g)
  }

  // What is printed of the operands; a reader has zero for the others.
  function Listed(op: Op, f: Fields): Fields
  {
    if op.Pseudo? then
      Plain(if PseudoPrintsRd(op.shown) then f.rd else 0, if PseudoPrintsRs1(op.shown) then f.rs1 else 0,
            if PseudoPrintsRs2(op.shown) then f.rs2 else 0, if PseudoPrintsImm(op.shown) then f.imm else 0)
    else
      Plain(f.rd, f.rs1, f.rs2, f.imm)
  }

  // The most particular pseudo-instruction for an instruction, if there is one.

  function ShownJump(op: Op, f: Fields): Op
    requires op.Jal? || op.Jalr?
  {
    if f.rd != 0 then op
    else if op.Jal? then Pseudo(J)
    else if f.rs1 == 1 then Pseudo(Ret)
    else if f.imm == 0 then Pseudo(Jr)
    else op
  }

  function ShownBranch(b: BranchOp, f: Fields): Op
  {
    match b
    case Beq => if f.rs2 == 0 then Pseudo(Beqz) else Branch(b)
    case Bne => if f.rs2 == 0 then Pseudo(Bnez) else Branch(b)
    case Blt => Pseudo(if f.rs2 == 0 then Bltz else if f.rs1 == 0 then Bgtz else Bgt)
    case Bge => Pseudo(if f.rs1 == 0 then Blez else if f.rs2 == 0 then Bgez else Ble)
    case Bltu => Pseudo(Bgtu)
    case Bgeu => Pseudo(Bleu)
  }

  function ShownImmediate(i: ImmediateOp, f: Fields): Op
  {
    match i
    case Addi =>
      if f.imm != 0 then Immediate(i) else if f.rd == 0 && f.rs1 == 0 then Pseudo(Nop) else Pseudo(Mv)
    case Sltiu => if f.imm == 1 then Pseudo(Seqz) else Immediate(i)
    case Xori => if f.imm == 0xFFFF_FFFF then Pseudo(Not) else Immediate(i)
    case Addiw => if f.imm == 0 then Pseudo(SextW) else Immediate(i)
    case _ => Immediate(i)
  }

  function ShownRegister(r: RegisterOp, span: Span, f: Fields): Op
  {
    if r == Slt && span == Xlen && f.rs2 == 0 then Pseudo(Sltz)
    else if f.rs1 != 0 then Register(r, span)
    else if r == Sub && span == Xlen then Pseudo(Neg)
    else if r == Sub && span == Bits32 then Pseudo(Negw)
    else if r == Slt && span == Xlen then Pseudo(Sgtz)
    else if r == Sltu && span == Xlen then Pseudo(Snez)
    else Register(r, span)
  }

  function ShownCsr(z: CsrOp, f: Fields): Op
  {
    if z == Csrrw then
      if f.imm == 3 then Pseudo(Fscsr) else if f.imm == 2 then Pseudo(Fsrm) else if f.imm == 1 then Pseudo(Fsflags)
      else Csr(z)
    else if z == Csrrwi then
      if f.imm == 2 then Pseudo(Fsrmi) else if f.imm == 1 then Pseudo(Fsflagsi) else Csr(z)
    else if z == Csrrs && f.rs1 == 0 then ShownRead(f.imm)
    else Csr(z)
  }

  function ShownRead(csr: bv64): Op
  {
    if csr == 0xC00 then Pseudo(Rdcycle)
    else if csr == 0xC01 then Pseudo(Rdtime)
    else if csr == 0xC02 then Pseudo(Rdinstret)
    else if csr == 0xC80 then Pseudo(Rdcycleh)
    else if csr == 0xC81 then Pseudo(Rdtimeh)
    else if csr == 0xC82 then Pseudo(Rdinstreth)
    else if csr == 3 then Pseudo(Frcsr)
    else if csr == 2 then Pseudo(Frrm)
    else if csr == 1 then Pseudo(Frflags)
    else Csr(Csrrs)
  }

  function ShownFp(op: FpOp, p: Precision, f: Fields): Op
  {
    if f.rs1 != f.rs2 then Fp(op, p)
    else
      match (op, p)
      case (Fsgnj, Single) => Pseudo(FmvS)
      case (Fsgnj, Double) => Pseudo(FmvD)
      case (Fsgnj, Quad) => Pseudo(FmvQ)
      case (Fsgnjn, Single) => Pseudo(FnegS)
      case (Fsgnjn, Double) => Pseudo(FnegD)
      case (Fsgnjn, Quad) => Pseudo(FnegQ)
      case (Fsgnjx, Single) => Pseudo(FabsS)
      case (Fsgnjx, Double) => Pseudo(FabsD)
      case (Fsgnjx, Quad) => Pseudo(FabsQ)
      case _ => Fp(op, p)
  }

  function Shown(op: Op, f: Fields): Op
  {
    match op
    case Jal | Jalr => ShownJump(op, f)
    case Branch(b) => ShownBranch(b, f)
    case Immediate(i) => ShownImmediate(i, f)
    case Register(r, span) => ShownRegister(r, span, f)
    case Csr(z) => ShownCsr(z, f)
    case Fp(x, p) => ShownFp(x, p, f)
    case _ => op
  }

  // The tables come up with it.

  function Chosen(rows: seq<Row>, op: Op, f: Fields): Op
  {
    var k := FirstRow(rows, f, 0);
    if k < 0 then op else rows[k].op
  }

  lemma SatisfiesFew(f: Fields, cs: seq<Constraint>)
    requires |cs| <= 3
    ensures SatisfiesAll(f, cs) <==>
      (|cs| > 0 ==> Satisfies(f, cs[0])) && (|cs| > 1 ==> Satisfies(f, cs[1])) && (|cs| > 2 ==> Satisfies(f, cs[2]))
  {}

  lemma JalChosen(op: Op, f: Fields)
    requires op == Jal
    ensures Chosen(JalRows(op), op, f) == ShownJump(op, f)
  {
    var rows := JalRows(op);
    SatisfiesFew(f, rows[0].constraints);
    SatisfiesFew(f, rows[1].constraints);
  }

  lemma JalrChosen(op: Op, f: Fields)
    requires op == Jalr
    ensures Chosen(JalrRows(op), op, f) == ShownJump(op, f)
  {
    var rows := JalrRows(op);
    SatisfiesFew(f, rows[0].constraints);
    SatisfiesFew(f, rows[1].constraints);
    SatisfiesFew(f, rows[2].constraints);
  }

  lemma EqualityChosen(b: BranchOp, f: Fields)
    requires b != Blt && b != Bge
    ensures Chosen(BranchRows(b), Branch(b), f) == ShownBranch(b, f)
  {
    var rows := BranchRows(b);
    SatisfiesFew(f, rows[0].constraints);
  }

  lemma BltChosen(b: BranchOp, f: Fields)
    requires b == Blt
    ensures Chosen(BltRows(b), Branch(b), f) == ShownBranch(b, f)
  {
    var rows := BltRows(b);
    SatisfiesFew(f, rows[0].constraints);
    SatisfiesFew(f, rows[1].constraints);
    SatisfiesFew(f, rows[2].constraints);
  }

  lemma BgeChosen(b: BranchOp, f: Fields)
    requires b == Bge
    ensures Chosen(BgeRows(b), Branch(b), f) == ShownBranch(b, f)
  {
    var rows := BgeRows(b);
    SatisfiesFew(f, rows[0].constraints);
    SatisfiesFew(f, rows[1].constraints);
    SatisfiesFew(f, rows[2].constraints);
  }

  lemma ImmediateChosen(i: ImmediateOp, f: Fields)
    ensures Chosen(ImmediateRows(i), Immediate(i), f) == ShownImmediate(i, f)
  {
    var rows := ImmediateRows(i);
    if |rows| > 0 {
      SatisfiesFew(f, rows[0].constraints);
    }
    if |rows| > 1 {
      SatisfiesFew(f, rows[1].constraints);
    }
  }

  lemma RegisterChosen(r: RegisterOp, span: Span, f: Fields)
    ensures Chosen(RegisterRows(r, span), Register(r, span), f) == ShownRegister(r, span, f)
  {
    var rows := RegisterRows(r, span);
    if |rows| > 0 {
      SatisfiesFew(f, rows[0].constraints);
    }
    if |rows| > 1 {
      SatisfiesFew(f, rows[1].constraints);
    }
  }

  lemma CsrrwChosen(z: CsrOp, f: Fields)
    requires z == Csrrw
    ensures Chosen(CsrrwRows(z), Csr(z), f) == ShownCsr(z, f)
  {
    var rows := CsrrwRows(z);
    SatisfiesFew(f, rows[0].constraints);
    SatisfiesFew(f, rows[1].constraints);
    SatisfiesFew(f, rows[2].constraints);
  }

  lemma CsrrwiChosen(z: CsrOp, f: Fields)
    requires z == Csrrwi
    ensures Chosen(CsrrwiRows(z), Csr(z), f) == ShownCsr(z, f)
  {
    var rows := CsrrwiRows(z);
    SatisfiesFew(f, rows[0].constraints);
    SatisfiesFew(f, rows[1].constraints);
  }

  // The row of a register that is only read.
  lemma ReadRow(f: Fields, p: PseudoOp, csr: bv64)
    ensures SatisfiesAll(f, Row(Pseudo(p), [Rs1IsX0, ImmIs(csr)]).constraints) <==> f.rs1 == 0 && f.imm == csr
  {
    SatisfiesFew(f, Row(Pseudo(p), [Rs1IsX0, ImmIs(csr)]).constraints);
  }

  lemma CsrrsChosen(z: CsrOp, f: Fields)
    requires z == Csrrs
    ensures Chosen(CsrrsRows(z), Csr(z), f) == ShownCsr(z, f)
  {
    var rows := CsrrsRows(z);
    hide SatisfiesAll, Satisfies;
    ReadRow(f, Rdcycle, 0xC00);
    ReadRow(f, Rdtime, 0xC01);
    ReadRow(f, Rdinstret, 0xC02);
    ReadRow(f, Rdcycleh, 0xC80);
    ReadRow(f, Rdtimeh, 0xC81);
    ReadRow(f, Rdinstreth, 0xC82);
    ReadRow(f, Frcsr, 0x003);
    ReadRow(f, Frrm, 0x002);
    ReadRow(f, Frflags, 0x001);
  }

  lemma SignChosen(x: FpOp, p: Precision, f: Fields)
    ensures Chosen(FpRows(x, p), Fp(x, p), f) == ShownFp(x, p, f)
  {
    var rows := FpRows(x, p);
    if rows != [] {
      SatisfiesFew(f, rows[0].constraints);
    }
  }

  lemma CsrChosen(z: CsrOp, f: Fields)
    ensures Chosen(CsrRows(z), Csr(z), f) == ShownCsr(z, f)
  {
    hide CsrrwRows, CsrrsRows, CsrrwiRows, ShownCsr;
    match z
    case Csrrw => CsrrwChosen(z, f);
    case Csrrs => CsrrsChosen(z, f);
    case Csrrwi => CsrrwiChosen(z, f);
    case _ => NoRows(z, f);
  }

  lemma NoRows(z: CsrOp, f: Fields)
    requires CsrRows(z) == []
    ensures ShownCsr(z, f) == Csr(z)
  {}

  lemma TableChosen(op: Op, f: Fields)
    ensures Chosen(PseudoRows(op), op, f) == Shown(op, f)
  {
    hide Chosen, JalRows, JalrRows, BltRows, BgeRows, ImmediateRows, RegisterRows, CsrRows, FpRows, ShownJump,
    ShownBranch,
      ShownImmediate, ShownRegister, ShownCsr, ShownFp;
    match op
    case Jal => JalChosen(op, f);
    case Jalr => JalrChosen(op, f);
    case Branch(b) =>
      if b == Blt {
        BltChosen(b, f);
      } else if b == Bge {
        BgeChosen(b, f);
      } else {
        EqualityChosen(b, f);
      }
    case Immediate(i) => ImmediateChosen(i, f);
    case Register(r, span) => RegisterChosen(r, span, f);
    case Csr(z) => CsrChosen(z, f);
    case Fp(x, p) => SignChosen(x, p, f);
    case _ => NoneChosen(op, f);
  }

  lemma NoneChosen(op: Op, f: Fields)
    ensures Chosen([], op, f) == op
  {}

  // Operands a layout does not have are zero.
  predicate WellFormed(codec: Codec, f: Fields)
  {
    && f.extra == NoExtra()
    && (codec.OfSb? ==> f.rd == 0)
    && (codec.OfUj? ==> f.rs1 == 0)
    && (codec.OfUj? || codec.OfI? || codec.OfICsr? ==> f.rs2 == 0)
    && (codec.OfR? ==> f.imm == 0)
  }

  lemma FpHasRows(f: FpOp, p: Precision, k: nat)
    requires k < |FpRows(f, p)|
    ensures FpCodec(f) == OfR
  {}

  // What has to be known of an instruction to give it a pseudo-instruction.

  predicate Fits(x: Given, v: bv64, rs1: bv64)
  {
    match x
    case Printed => true
    case Zero => v == 0
    case Ra => v == 1
    case AsRs1 => v == rs1
    case Is(value) => v == value
  }

  predicate FitsAll(a: Standing, f: Fields)
  {
    Fits(a.rd, f.rd, f.rs1) && Fits(a.rs1, f.rs1, 0) && Fits(a.rs2, f.rs2, f.rs1) && Fits(a.imm, f.imm, 0)
  }

  predicate Instance(p: PseudoOp, op: Op, f: Fields)
  {
    op == Alias(p).op && f.extra == NoExtra() && FitsAll(Alias(p), f)
  }

  lemma PrintsGiven(p: PseudoOp)
    ensures PseudoPrintsRd(p) == Alias(p).rd.Printed? && PseudoPrintsRs1(p) == Alias(p).rs1.Printed?
    ensures PseudoPrintsRs2(p) == Alias(p).rs2.Printed? && PseudoPrintsImm(p) == Alias(p).imm.Printed?
    ensures Alias(p).rs2.AsRs1? ==> Alias(p).rs1.Printed?
    ensures !Alias(p).rd.AsRs1? && !Alias(p).rs1.AsRs1? && !Alias(p).imm.AsRs1?
  {}

  lemma ValueIff(x: Given, v: bv64, printed: bv64, rs1: bv64, r: bv64)
    requires printed == (if x.Printed? then v else 0) && (x.AsRs1? ==> rs1 == r)
    ensures Value(x, printed, rs1) == v <==> Fits(x, v, r)
  {}

  // What is printed of an instruction with a pseudo-instruction means the instruction exactly if it is an
  // instance.
  lemma InstanceIff(p: PseudoOp, op: Op, f: Fields)
    ensures Meant(Pseudo(p), Listed(Pseudo(p), f)) == (op, f) <==> Instance(p, op, f)
  {
    hide Alias, PseudoPrintsRd, PseudoPrintsRs1, PseudoPrintsRs2, PseudoPrintsImm, Value, Fits;
    PrintsGiven(p);
    var a, g := Alias(p), Listed(Pseudo(p), f);
    ValueIff(a.rd, f.rd, g.rd, g.rs1, f.rs1);
    ValueIff(a.rs1, f.rs1, g.rs1, 0, 0);
    ValueIff(a.rs2, f.rs2, g.rs2, g.rs1, f.rs1);
    ValueIff(a.imm, f.imm, g.imm, 0, 0);
  }

  lemma ReadRowIs(csr: bv64)
    ensures ShownRead(csr).Pseudo? ==>
      Alias(ShownRead(csr).shown) == Standing(Csr(Csrrs), Printed, Zero, Zero, Is(csr)) && ShownRead(csr).shown != Ret
    ensures !ShownRead(csr).Pseudo? ==> ShownRead(csr) == Csr(Csrrs)
  {}

  lemma WriteRowIs(f: Fields)
    ensures var shown := ShownCsr(Csrrw, f);
      if shown.Pseudo? then
        Alias(shown.shown) == Standing(Csr(Csrrw), Printed, Printed, Zero, Is(f.imm)) && shown.shown != Ret
      else shown == Csr(Csrrw)
  {
    hide ShownRead;
  }

  lemma CsrRow(z: CsrOp, f: Fields)
    ensures var shown := ShownCsr(z, f);
      if shown.Pseudo? then
        && Alias(shown.shown) == Standing(Csr(z), Printed, if z == Csrrs then Zero else Printed, Zero, Is(f.imm))
        && shown.shown != Ret && (z == Csrrs ==> f.rs1 == 0)
      else shown == Csr(z)
  {
    if z == Csrrs {
      hide Alias, ShownRead;
      ReadRowIs(f.imm);
    } else if z == Csrrw {
      hide Alias, ShownCsr;
      WriteRowIs(f);
    } else {
      hide ShownRead;
    }
  }

  lemma CsrFits(f: Fields)
    ensures Fits(Printed, f.rd, f.rs1) && Fits(Printed, f.rs1, 0) && Fits(Is(f.imm), f.imm, 0)
    ensures f.rs1 == 0 ==> Fits(Zero, f.rs1, 0)
    ensures f.rs2 == 0 ==> Fits(Zero, f.rs2, f.rs1)
  {}

  lemma SignRow(x: FpOp, p: Precision, f: Fields)
    ensures var shown := ShownFp(x, p, f);
      if shown.Pseudo? then
        && Alias(shown.shown) == Standing(Fp(x, p), Printed, Printed, AsRs1, Zero)
        && shown.shown != Ret && f.rs1 == f.rs2
      else shown == Fp(x, p)
  {}

  lemma SignFits(f: Fields)
    ensures Fits(Printed, f.rd, f.rs1) && Fits(Printed, f.rs1, 0)
    ensures f.rs1 == f.rs2 ==> Fits(AsRs1, f.rs2, f.rs1)
    ensures f.imm == 0 ==> Fits(Zero, f.imm, 0)
  {}

  lemma UnsignedInstance(b: BranchOp, f: Fields)
    requires (b == Bltu || b == Bgeu) && WellFormed(OfSb, f)
    ensures var shown := ShownBranch(b, f); shown.Pseudo? && shown.shown != Ret && Instance(shown.shown, Branch(b), f)
  {}

  lemma BltInstance(f: Fields)
    requires WellFormed(OfSb, f)
    ensures var shown := ShownBranch(Blt, f);
      if shown.Pseudo? then shown.shown != Ret && Instance(shown.shown, Branch(Blt), f) else shown == Branch(Blt)
  {}

  lemma BgeInstance(f: Fields)
    requires WellFormed(OfSb, f)
    ensures var shown := ShownBranch(Bge, f);
      if shown.Pseudo? then shown.shown != Ret && Instance(shown.shown, Branch(Bge), f) else shown == Branch(Bge)
  {}

  lemma SltInstance(span: Span, f: Fields)
    requires WellFormed(OfR, f)
    ensures var shown := ShownRegister(Slt, span, f);
      if shown.Pseudo? then shown.shown != Ret &&
      Instance(shown.shown, Register(Slt, span), f) else shown == Register(Slt, span)
  {}

  lemma SubInstance(span: Span, f: Fields)
    requires WellFormed(OfR, f)
    ensures var shown := ShownRegister(Sub, span, f);
      if shown.Pseudo? then shown.shown != Ret &&
      Instance(shown.shown, Register(Sub, span), f) else shown == Register(Sub, span)
  {}

  lemma ImmediateInstance(i: ImmediateOp, f: Fields)
    requires WellFormed(OfI, f)
    ensures var shown := ShownImmediate(i, f);
      if shown.Pseudo? then shown.shown != Ret && Instance(shown.shown, Immediate(i), f) else shown == Immediate(i)
  {
    match i
    case Addi => case Sltiu => case Xori => case Addiw => case _ =>
  }

  lemma BranchInstance(b: BranchOp, f: Fields)
    requires WellFormed(OfSb, f)
    ensures var shown := ShownBranch(b, f);
      if shown.Pseudo? then shown.shown != Ret && Instance(shown.shown, Branch(b), f) else shown == Branch(b)
  {
    if b == Blt {
      hide Alias, Fits, ShownBranch;
      BltInstance(f);
    } else if b == Bge {
      hide Alias, Fits, ShownBranch;
      BgeInstance(f);
    } else if b == Bltu || b == Bgeu {
      hide Alias, Fits, ShownBranch;
      UnsignedInstance(b, f);
    }
  }

  lemma RegisterInstance(r: RegisterOp, span: Span, f: Fields)
    requires WellFormed(OfR, f)
    ensures var shown := ShownRegister(r, span, f);
      if shown.Pseudo? then shown.shown != Ret &&
      Instance(shown.shown, Register(r, span), f) else shown == Register(r, span)
  {
    if r == Slt {
      hide Alias, Fits, ShownRegister;
      SltInstance(span, f);
    } else if r == Sub {
      hide Alias, Fits, ShownRegister;
      SubInstance(span, f);
    } else if r != Sltu {
      hide Alias, Fits;
    }
  }

  lemma CsrInstance(z: CsrOp, f: Fields)
    requires WellFormed(OfICsr, f)
    ensures var shown := ShownCsr(z, f);
      if shown.Pseudo? then shown.shown != Ret && Instance(shown.shown, Csr(z), f) else shown == Csr(z)
  {
    hide Fits;
    CsrRow(z, f);
    CsrFits(f);
    hide ShownCsr, Alias;
  }

  lemma SignInstance(x: FpOp, p: Precision, f: Fields)
    requires WellFormed(OfR, f)
    ensures var shown := ShownFp(x, p, f);
      if shown.Pseudo? then shown.shown != Ret && Instance(shown.shown, Fp(x, p), f) else shown == Fp(x, p)
  {
    hide Fits;
    SignRow(x, p, f);
    SignFits(f);
    hide ShownFp, Alias;
  }

  lemma JumpInstance(op: Op, f: Fields)
    requires (op.Jal? || op.Jalr?) && WellFormed(CodecOf(op), f)
    ensures var shown := ShownJump(op, f);
      if shown.Pseudo? then
        && Alias(shown.shown).op == op
        && (Instance(shown.shown, op, f) <==> !(shown.shown == Ret && f.imm != 0))
      else shown == op
  {}

  lemma ShownInstance(op: Op, f: Fields)
    requires PseudoRows(op) != [] && WellFormed(CodecOf(op), f)
    ensures var shown := Shown(op, f);
      if shown.Pseudo? then
        && Alias(shown.shown).op == op
        && (Instance(shown.shown, op, f) <==> !(shown.shown == Ret && f.imm != 0))
      else shown == op
  {
    hide Fits, Alias, WellFormed, ShownJump, ShownBranch, ShownImmediate, ShownRegister, ShownCsr, ShownFp;
    RowsLayout(op);
    match op
    case Jal | Jalr => JumpInstance(op, f);
    case Branch(b) => BranchInstance(b, f);
    case Immediate(i) => ImmediateInstance(i, f);
    case Register(r, span) => RegisterInstance(r, span, f);
    case Csr(z) => CsrInstance(z, f);
    case Fp(x, p) => SignInstance(x, p, f);
  }

  // What is shown means what was decoded, except that a return does not tell its offset.
  lemma ShownMeans(op: Op, f: Fields)
    requires PseudoRows(op) != [] && WellFormed(CodecOf(op), f)
    ensures var shown := Shown(op, f);
      Meant(shown, Listed(shown, f)) == (op, f) <==> !(shown == Pseudo(Ret) && f.imm != 0)
  {
    hide Shown, Instance, PseudoRows, CodecOf, Alias;
    ShownInstance(op, f);
    if Shown(op, f).Pseudo? {
      hide Meant, Listed;
      InstanceIff(Shown(op, f).shown, op, f);
    } else {
      PlainAgain(f);
    }
  }

  lemma PlainAgain(f: Fields)
    ensures f.extra == NoExtra() ==> Plain(f.rd, f.rs1, f.rs2, f.imm) == f
  {}

  // No instruction that some pseudo-instruction stands for is shown as it is.
  lemma NoneMissed(p: PseudoOp, op: Op, f: Fields)
    requires Meant(Pseudo(p), Listed(Pseudo(p), f)) == (op, f)
    ensures Shown(op, f).Pseudo?
  {
    hide Meant, Listed, Shown;
    InstanceIff(p, op, f);
    InstanceShown(p, op, f);
  }

  lemma CsrParticular(a: Standing, f: Fields)
    requires a.op.Csr? && Particular(a) && FitsAll(a, f)
    ensures ShownCsr(a.op.z, f).Pseudo?
  {
    hide ShownRead;
  }

  lemma ImmediateParticular(a: Standing, f: Fields)
    requires a.op.Immediate? && Particular(a) && FitsAll(a, f)
    ensures ShownImmediate(a.op.i, f).Pseudo?
  {}

  lemma RegisterParticular(a: Standing, f: Fields)
    requires a.op.Register? && Particular(a) && FitsAll(a, f)
    ensures ShownRegister(a.op.r, a.op.span, f).Pseudo?
  {}

  lemma JumpParticular(a: Standing, f: Fields)
    requires (a.op.Jal? || a.op.Jalr?) && Particular(a) && FitsAll(a, f)
    ensures ShownJump(a.op, f).Pseudo?
  {}

  lemma BranchParticular(a: Standing, f: Fields)
    requires a.op.Branch? && Particular(a) && FitsAll(a, f)
    ensures ShownBranch(a.op.b, f).Pseudo?
  {}

  lemma SignParticular(a: Standing, f: Fields)
    requires a.op.Fp? && Particular(a) && FitsAll(a, f)
    ensures ShownFp(a.op.f, a.op.p, f).Pseudo?
  {}

  lemma ParticularShown(a: Standing, f: Fields)
    requires Particular(a) && FitsAll(a, f)
    ensures Shown(a.op, f).Pseudo?
  {
    hide FitsAll, ShownCsr, ShownImmediate, ShownRegister, ShownJump, ShownBranch, ShownFp, ShownRead;
    match a.op
    case Csr(_) => CsrParticular(a, f);
    case Immediate(_) => ImmediateParticular(a, f);
    case Register(_, _) => RegisterParticular(a, f);
    case Jal | Jalr => JumpParticular(a, f);
    case Branch(_) => BranchParticular(a, f);
    case Fp(_, _) => SignParticular(a, f);
  }

  lemma InstanceShown(p: PseudoOp, op: Op, f: Fields)
    requires Instance(p, op, f)
    ensures Shown(op, f).Pseudo?
  {
    hide Alias, Particular, Shown, Fits;
    AliasLayout(p);
    ParticularShown(Alias(p), f);
  }

  // What the decoder and the decompressor leave has zeros in the operands a layout does not have.

  lemma WordWellFormed(codec: Codec, inst: bv64)
    requires codec.OfUj? || codec.OfI? || codec.OfSb? || codec.OfR? || codec.OfICsr?
    ensures WellFormed(codec, OperandsOf(codec, inst))
  {}

  lemma RowsLayout(op: Op)
    requires PseudoRows(op) != []
    ensures var codec := CodecOf(op); codec.OfUj? || codec.OfI? || codec.OfSb? || codec.OfR? || codec.OfICsr?
  {
    if op.Fp? {
      FpHasRows(op.f, op.p, 0);
    }
  }

  lemma RangeWellFormed(codec: Codec, f: Fields)
    requires codec.OfUj? || codec.OfI? || codec.OfSb? || codec.OfR? || codec.OfICsr?
    requires InRange(codec, f)
    ensures WellFormed(codec, f)
  {}

  lemma PlainWellFormed(isa: Isa, inst: bv64)
    ensures var op := Opcode(isa, inst);
      !(op.Parcel? && Expansion(isa, op.c) != Illegal) && PseudoRows(op) != [] ==>
        var d := Expanded(isa, inst); d.codec == CodecOf(d.op) && WellFormed(d.codec, d.f)
  {
    var op := Opcode(isa, inst);
    if !(op.Parcel? && Expansion(isa, op.c) != Illegal) && PseudoRows(op) != [] {
      RowsLayout(op);
      WordWellFormed(CodecOf(op), inst);
    }
  }

  lemma ExpandedWellFormed(isa: Isa, inst: bv64)
    ensures var d := Expanded(isa, inst);
      PseudoRows(d.op) != [] ==> d.codec == CodecOf(d.op) && WellFormed(d.codec, d.f)
  {
    hide Opcode, OperandsOf, InRange, Target, Expansion, ParcelCodec, WellFormed;
    var op := Opcode(isa, inst);
    var d := Expanded(isa, inst);
    if PseudoRows(d.op) == [] {
    } else if op.Parcel? && Expansion(isa, op.c) != Illegal {
      ParcelExpansionFits(isa, op.c, inst);
      assert d == Decompress(isa, ParcelRecord(op.c, inst));
      RowsLayout(d.op);
      RangeWellFormed(d.codec, d.f);
    } else {
      PlainWellFormed(isa, inst);
    }
  }

  // The lift shows the most particular pseudo-instruction and changes nothing else.
  lemma LiftIs(d: Decoded)
    ensures Lift(d).op == Shown(d.op, d.f)
    ensures d.codec == CodecOf(d.op) && WellFormed(d.codec, d.f) ==> Lift(d) == d.(op := Shown(d.op, d.f))
  {
    hide Shown, CodecOf, Alias, Instance, PseudoRows, WellFormed;
    TableChosen(d.op, d.f);
    if RowOf(d) >= 0 && d.codec == CodecOf(d.op) && WellFormed(d.codec, d.f) {
      ShownInstance(d.op, d.f);
      var shown := Shown(d.op, d.f);
      if shown.Pseudo? {
        AliasLayout(shown.shown);
        PseudoLayout(shown.shown);
      }
    }
  }

  lemma PseudoLayout(p: PseudoOp)
    ensures CodecOf(Pseudo(p)) == PseudoCodec(p)
  {}

  // For every word: what is shown means what was decoded, except for the offset of a return.
  lemma ShownReadsBack(isa: Isa, inst: bv64)
    ensures var d := Expanded(isa, inst);
      var shown := Lift(d).op;
      PseudoRows(d.op) != [] ==>
        && Lift(d) == d.(op := shown)
        && (Meant(shown, Listed(shown, d.f)) == (d.op, d.f) <==> !(shown == Pseudo(Ret) && d.f.imm != 0))
  {
    hide Expanded, PseudoRows, CodecOf, WellFormed, Shown, Meant, Listed, Lift;
    var d := Expanded(isa, inst);
    ExpandedWellFormed(isa, inst);
    LiftIs(d);
    if PseudoRows(d.op) != [] {
      ShownMeans(d.op, d.f);
    }
  }

  // Two words that are shown alike are decoded alike, unless they are shown as a return.
  lemma ShownAlike(isa: Isa, inst: bv64, isa': Isa, inst': bv64)
    ensures var d, d' := Expanded(isa, inst), Expanded(isa', inst');
      var shown := Lift(d).op;
      PseudoRows(d.op) != [] && PseudoRows(d'.op) != [] && Lift(d').op == shown && shown != Pseudo(Ret) ==>
        Listed(shown, d'.f) == Listed(shown, d.f) ==> d == d'
  {
    hide Expanded, PseudoRows, CodecOf, WellFormed, Meant, Listed, Lift;
    ShownReadsBack(isa, inst);
    ShownReadsBack(isa', inst');
    ExpandedWellFormed(isa, inst);
    ExpandedWellFormed(isa', inst');
  }

  // Showing an instruction differently neither makes nor breaks a legal one.
  lemma LiftKeepsLegality(d: Decoded)
    ensures Lift(d).op == Illegal <==> d.op == Illegal
  {
    hide Lift;
    LiftIs(d);
  }

  // Such a return: jalr x0, 4(x1) is shown as ret, just like jalr x0, 0(x1).
  lemma ReturnLosesOffset(isa: Isa)
    ensures var d, plain := Expanded(isa, 0x0040_8067), Expanded(isa, 0x0000_8067);
      && d.op == plain.op == Jalr && d.f.imm == 4 && plain.f.imm == 0
      && Lift(d).op == Lift(plain).op == Pseudo(Ret)
      && Listed(Pseudo(Ret), d.f) == Listed(Pseudo(Ret), plain.f)
  {
    hide Opcode, OperandsOf, Lift, PseudoPrintsRd, PseudoPrintsRs1, PseudoPrintsRs2, PseudoPrintsImm, Has;
    ReturnWords();
    DecodedIff(isa, 0x0040_8067, Jalr);
    DecodedIff(isa, 0x0000_8067, Jalr);
    LiftIs(Expanded(isa, 0x0040_8067));
    LiftIs(Expanded(isa, 0x0000_8067));
    PrintsNothing();
  }

  lemma ReturnWords()
    ensures Has(0x0040_8067, FixedOf(Jalr)) && Has(0x0000_8067, FixedOf(Jalr))
    ensures OperandsOf(OfI, 0x0040_8067) == Plain(0, 1, 0, 4) && OperandsOf(OfI, 0x0000_8067) == Plain(0, 1, 0, 0)
  {}

  lemma PrintsNothing()
    ensures !PseudoPrintsRd(Ret) && !PseudoPrintsRs1(Ret) && !PseudoPrintsRs2(Ret) && !PseudoPrintsImm(Ret)
  {}
}

// The disassembler's record, filled in pass by pass.
module RiscvDisassembler {
  import opened RiscvOps
  import opened RiscvOperands
  import opened RiscvWords
  import opened RiscvDecoder
  import opened RiscvPseudo

  method CheckConstraints(f: Fields, cs: seq<Constraint>) returns (ok: bool)
    ensures ok == SatisfiesAll(f, cs)
  {
    var k := 0;
    while k < |cs|
      invariant 0 <= k <= |cs| && forall i :: 0 <= i < k ==> Satisfies(f, cs[i])
    {
      if !Satisfies(f, cs[k]) {
        return false;
      }
      k := k + 1;
    }
    return true;
  }

  class Record {
    const inst: bv64
    var op: Op
    var codec: Codec
    var f: Fields

    constructor (inst: bv64)
      ensures this.inst == inst && State() == Decoded(Illegal, OfIllegal, Plain(0, 0, 0, 0))
    {
      this.inst, op, codec, f := inst, Illegal, OfIllegal, Plain(0, 0, 0, 0);
    }

    function State(): Decoded
      reads this
    {
      Decoded(op, codec, f)
    }

    method DecodeInstOpcode(isa: Isa)
      modifies this`op
      ensures op == Opcode(isa, inst)
    {
      op := Opcode(isa, inst);
    }

    method DecodeInstOperands()
      modifies this`codec, this`f
      ensures codec == CodecOf(op) && f == OperandsOf(codec, inst)
    {
      codec := CodecOf(op);
      f := OperandsOf(codec, inst);
    }

    method DecompressInst(isa: Isa)
      modifies this`op, this`codec
      ensures State() == Decompress(isa, old(State()))
    {
      var decompOp := if op.Parcel? then Expansion(isa, op.c) else Illegal;
      if decompOp != Illegal {
        if NeedsImmediate(op.c) && f.imm == 0 {
          op := Illegal;
        } else {
          op := decompOp;
          codec := CodecOf(decompOp);
        }
      }
    }

    method LiftPseudo()
      modifies this`op, this`codec
      ensures State() == Lift(old(State()))
    {
      var rows := PseudoRows(op);
      var k := 0;
      while k < |rows|
        invariant 0 <= k <= |rows| && State() == old(State())
        invariant RowOf(old(State())) == FirstRow(rows, f, k)
      {
        var ok := CheckConstraints(f, rows[k].constraints);
        if ok {
          op := rows[k].op;
          codec := CodecOf(op);
          return;
        }
        k := k + 1;
      }
    }
  }

  // The record that is left to print, and whether the word is legal.
  method DisasmInst(isa: Isa, inst: bv64) returns (legal: bool, shown: Decoded)
    ensures legal <==> Expanded(isa, inst).op != Illegal
    ensures shown == Lift(Expanded(isa, inst))
  {
    hide Opcode, OperandsOf, PseudoRows, CodecOf;
    var dec := new Record(inst);
    dec.DecodeInstOpcode(isa);
    dec.DecodeInstOperands();
    dec.DecompressInst(isa);
    LiftKeepsLegality(Expanded(isa, inst));
    dec.LiftPseudo();
    legal, shown := dec.op != Illegal, dec.State();
  }
}

// The opcode tables of the RISC-V disassembler: which operation a word stands for, how its
// operands are laid out, what a compressed operation expands to, and which pseudo-instruction
// an operation is shown as.
module RiscvOps {

  datatype Isa = Rv32 | Rv64 | Rv128

  // The width an integer operation works at, of an atomic access, and of a floating-point number.

  datatype Span = Xlen | Bits32 | Bits64

  datatype Width = W | D | Q

  datatype Precision = Single | Double | Quad

  datatype UpperOp = Lui | Auipc

  datatype BranchOp = Beq | Bne | Blt | Bge | Bltu | Bgeu

  datatype LoadOp = Lb | Lh | Lw | Ld | Lbu | Lhu | Lwu | Ldu | Lq | Flw | Fld | Flq

  datatype StoreOp = Sb | Sh | Sw | Sd | Sq | Fsw | Fsd | Fsq

  datatype ImmediateOp = Addi | Slti | Sltiu | Xori | Ori | Andi | Addiw | Addid

  datatype ShiftOp = Slli | Srli | Srai

  datatype RegisterOp =
    | Add | Sub | Sll | Slt | Sltu | Xor | Srl | Sra | Or | And | Mul | Mulh | Mulhsu | Mulhu | Div | Divu
    | Rem | Remu

  datatype SystemOp = FenceI | Ecall | Ebreak | Uret | Sret | Hret | Mret | Dret | Wfi

  datatype VmOp = SfenceVm | SfenceVma

  datatype CsrOp = Csrrw | Csrrs | Csrrc | Csrrwi | Csrrsi | Csrrci

  datatype AmoOp =
    | Lr | Sc | AmoSwap | AmoAdd | AmoXor | AmoOr | AmoAnd | AmoMin | AmoMax | AmoMinu | AmoMaxu

  datatype FpOp =
    | Fmadd | Fmsub | Fnmsub | Fnmadd | Fadd | Fsub | Fmul | Fdiv | Fsgnj | Fsgnjn | Fsgnjx | Fmin | Fmax
    | Fsqrt | Fle | Flt | Feq | FcvtToW | FcvtToWu | FcvtFromW | FcvtFromWu | FmvToX | Fclass | FmvFromX
    | FcvtToL | FcvtToLu | FcvtFromL | FcvtFromLu

  // The operations of 16-bit words.
  datatype ParcelOp =
    | CAddi4spn | CNop | CAddi | CAddiw | CLi | CAddi16sp | CLui | CAndi | CMv | CAdd
    | CShift(h: ShiftOp)
    | CArith(r: RegisterOp, span: Span)
    | CJ | CJal | CJr | CJalr | CEbreak
    | CBranch(b: BranchOp)
    | CLoad(l: LoadOp) | CLoadSp(l: LoadOp)
    | CStore(s: StoreOp) | CStoreSp(s: StoreOp)

  // The operations a disassembly shows instead of more general ones.
  datatype PseudoOp =
    | Nop | Mv | Not | Neg | Negw | SextW | Seqz | Snez | Sltz | Sgtz | FmvS | FabsS | FnegS | FmvD | FabsD
    | FnegD | FmvQ | FabsQ | FnegQ | Beqz | Bnez | Blez | Bgez | Bltz | Bgtz | Ble | Bleu | Bgt | Bgtu | J
    | Ret | Jr | Rdcycle | Rdtime | Rdinstret | Rdcycleh | Rdtimeh | Rdinstreth | Frcsr | Frrm | Frflags
    | Fscsr | Fsrm | Fsflags | Fsrmi | Fsflagsi

  datatype Op =
    | Illegal
    | Upper(u: UpperOp) | Jal | Jalr | Branch(b: BranchOp) | Load(l: LoadOp) | Store(s: StoreOp)
    | Immediate(i: ImmediateOp) | Shift(h: ShiftOp, span: Span) | Register(r: RegisterOp, span: Span)
    | Fence | System(y: SystemOp) | Vm(v: VmOp) | Csr(z: CsrOp)
    | Amo(a: AmoOp, w: Width) | Fp(f: FpOp, p: Precision) | Convert(to: Precision, from: Precision)
    | Parcel(c: ParcelOp)
    | Pseudo(shown: PseudoOp)

  datatype Codec =
    | OfIllegal | OfNone | OfU | OfUj | OfI | OfISh5 | OfISh6 | OfISh7 | OfICsr | OfS | OfSb | OfR | OfRM
    | OfR4M | OfRA | OfRL | OfRF | OfCb | OfCbImm | OfCbSh5 | OfCbSh6 | OfCi | OfCiSh5 | OfCiSh6 | OfCi16sp
    | OfCiLwsp | OfCiLdsp | OfCiLqsp | OfCiLi | OfCiLui | OfCiNone | OfCiw4spn | OfCj | OfCjJal | OfClLw
    | OfClLd | OfClLq | OfCr | OfCrMv | OfCrJalr | OfCrJr | OfCs | OfCsSw | OfCsSd | OfCsSq | OfCssSwsp
    | OfCssSdsp | OfCssSqsp

  // What a row of a pseudo-instruction table asks of the operands.
  datatype Constraint = RdIsRa | RdIsX0 | Rs1IsX0 | Rs2IsX0 | Rs2IsRs1 | Rs1IsRa | ImmIs(value: bv64)

  datatype Row = Row(op: Op, constraints: seq<Constraint>)

  // The fields the opcode switches look at.

  function Quadrant(inst: bv64): (q: bv64)
    ensures q == 0 || q == 1 || q == 2 || q == 3
  {
    inst & 3
  }

  function CFunct3(inst: bv64): bv64 { (inst >> 13) & 7 }

  function CRest(inst: bv64): bv64 { (inst >> 2) & 0x7FF }

  function RdField(inst: bv64): bv64 { (inst >> 7) & 0x1F }

  function CFunct2(inst: bv64): bv64 { (inst >> 10) & 3 }

  function CArithKey(inst: bv64): bv64 { ((inst >> 10) & 4) | ((inst >> 5) & 3) }

  function CBit12(inst: bv64): bv64 { (inst >> 12) & 1 }

  function Major(inst: bv64): bv64 { (inst >> 2) & 0x1F }

  function Funct3(inst: bv64): bv64 { (inst >> 12) & 7 }

  function Funct5(inst: bv64): bv64 { (inst >> 27) & 0x1F }

  function Funct7(inst: bv64): bv64 { (inst >> 25) & 0x7F }

  function Funct5And3(inst: bv64): bv64 { ((inst >> 24) & 0xF8) | ((inst >> 12) & 7) }

  function Rs2Field(inst: bv64): bv64 { (inst >> 20) & 0x1F }

  function Funct7And3(inst: bv64): bv64 { ((inst >> 22) & 0x3F8) | ((inst >> 12) & 7) }

  function FpFormat(inst: bv64): bv64 { (inst >> 25) & 3 }

  function Rs2And3(inst: bv64): bv64 { ((inst >> 17) & 0xF8) | ((inst >> 12) & 7) }

  function Funct6(inst: bv64): bv64 { (inst >> 26) & 0x3F }

  function SystemKey(inst: bv64): bv64 { ((inst >> 20) & 0xFE0) | ((inst >> 7) & 0x1F) }

  function Rs2AndRs1(inst: bv64): bv64 { (inst >> 15) & 0x3FF }

  function Rs1Field(inst: bv64): bv64 { (inst >> 15) & 0x1F }

  function Opcode(isa: Isa, inst: bv64): Op
  {
    match Quadrant(inst)
    case 0 => Quadrant0(isa, inst)
    case 1 => Quadrant1(isa, inst)
    case 2 => Quadrant2(isa, inst)
    case _ => Quadrant3(inst)
  }

  function Quadrant0(isa: Isa, inst: bv64): (op: Op)
    ensures op == Illegal || op.Parcel?
  {
    match CFunct3(inst)
    case 0 => Parcel(CAddi4spn)
    case 1 => if isa == Rv128 then Parcel(CLoad(Lq)) else Parcel(CLoad(Fld))
    case 2 => Parcel(CLoad(Lw))
    case 3 => if isa == Rv32 then Parcel(CLoad(Flw)) else Parcel(CLoad(Ld))
    case 5 => if isa == Rv128 then Parcel(CStore(Sq)) else Parcel(CStore(Fsd))
    case 6 => Parcel(CStore(Sw))
    case 7 => if isa == Rv32 then Parcel(CStore(Fsw)) else Parcel(CStore(Sd))
    case _ => Illegal
  }

  function Quadrant1(isa: Isa, inst: bv64): (op: Op)
    ensures op == Illegal || op.Parcel?
  {
    match CFunct3(inst)
    case 0 => (match CRest(inst) case 0 => Parcel(CNop) case _ => Parcel(CAddi))
    case 1 => if isa == Rv32 then Parcel(CJal) else Parcel(CAddiw)
    case 2 => Parcel(CLi)
    case 3 => (match RdField(inst) case 2 => Parcel(CAddi16sp) case _ => Parcel(CLui))
    case 4 =>
      (match CFunct2(inst)
      case 0 => Parcel(CShift(Srli)) case 1 => Parcel(CShift(Srai)) case 2 => Parcel(CAndi)
      case 3 =>
        (match CArithKey(inst)
        case 0 => Parcel(CArith(Sub, Xlen)) case 1 => Parcel(CArith(Xor, Xlen))
        case 2 => Parcel(CArith(Or, Xlen)) case 3 => Parcel(CArith(And, Xlen))
        case 4 => Parcel(CArith(Sub, Bits32)) case 5 => Parcel(CArith(Add, Bits32)) case _ => Illegal)
      case _ => Illegal)
    case 5 => Parcel(CJ) case 6 => Parcel(CBranch(Beq)) case 7 => Parcel(CBranch(Bne)) case _ => Illegal
  }

  function Quadrant2(isa: Isa, inst: bv64): (op: Op)
    ensures op == Illegal || op.Parcel?
  {
    match CFunct3(inst)
    case 0 => Parcel(CShift(Slli))
    case 1 => if isa == Rv128 then Parcel(CLoadSp(Lq)) else Parcel(CLoadSp(Fld))
    case 2 => Parcel(CLoadSp(Lw))
    case 3 => if isa == Rv32 then Parcel(CLoadSp(Flw)) else Parcel(CLoadSp(Ld))
    case 4 =>
      (match CBit12(inst)
      case 0 => (match Major(inst) case 0 => Parcel(CJr) case _ => Parcel(CMv))
      case 1 =>
        (match Major(inst)
        case 0 => (match RdField(inst) case 0 => Parcel(CEbreak) case _ => Parcel(CJalr))
        case _ => Parcel(CAdd))
      case _ => Illegal)
    case 5 => if isa == Rv128 then Parcel(CStoreSp(Sq)) else Parcel(CStoreSp(Fsd))
    case 6 => Parcel(CStoreSp(Sw))
    case 7 => if isa == Rv32 then Parcel(CStoreSp(Fsw)) else Parcel(CStoreSp(Sd))
    case _ => Illegal
  }

  function LoadOpcode(inst: bv64): (op: Op)
    ensures op == Illegal || op.Load?
  {
    match Funct3(inst)
    case 0 => Load(Lb) case 1 => Load(Lh) case 2 => Load(Lw) case 3 => Load(Ld) case 4 => Load(Lbu)
    case 5 => Load(Lhu) case 6 => Load(Lwu) case 7 => Load(Ldu) case _ => Illegal
  }

  function LoadFpOpcode(inst: bv64): (op: Op)
    ensures op == Illegal || op.Load?
  {
    match Funct3(inst)
    case 2 => Load(Flw) case 3 => Load(Fld) case 4 => Load(Flq) case _ => Illegal
  }

  function MiscMemOpcode(inst: bv64): (op: Op)
    ensures op == Illegal || op == Fence || op == System(FenceI) || op == Load(Lq)
  {
    match Funct3(inst)
    case 0 => Fence case 1 => System(FenceI) case 2 => Load(Lq) case _ => Illegal
  }

  function OpImmOpcode(inst: bv64): (op: Op)
    ensures op == Illegal || op.Immediate? || op.Shift?
  {
    match Funct3(inst)
    case 0 => Immediate(Addi)
    case 1 => if Funct5(inst) == 0 then Shift(Slli, Xlen) else Illegal
    case 2 => Immediate(Slti) case 3 => Immediate(Sltiu) case 4 => Immediate(Xori)
    case 5 => (match Funct5(inst) case 0 => Shift(Srli, Xlen) case 8 => Shift(Srai, Xlen) case _ => Illegal)
    case 6 => Immediate(Ori) case 7 => Immediate(Andi) case _ => Illegal
  }

  function OpImm32Opcode(inst: bv64): (op: Op)
    ensures op == Illegal || op.Immediate? || op.Shift?
  {
    match Funct3(inst)
    case 0 => Immediate(Addiw)
    case 1 => if Funct7(inst) == 0 then Shift(Slli, Bits32) else Illegal
    case 5 =>
      (match Funct7(inst)
      case 0 => Shift(Srli, Bits32) case 32 => Shift(Srai, Bits32) case _ => Illegal)
    case _ => Illegal
  }

  function StoreOpcode(inst: bv64): (op: Op)
    ensures op == Illegal || op.Store?
  {
    match Funct3(inst)
    case 0 => Store(Sb) case 1 => Store(Sh) case 2 => Store(Sw) case 3 => Store(Sd) case 4 => Store(Sq)
    case _ => Illegal
  }

  function StoreFpOpcode(inst: bv64): (op: Op)
    ensures op == Illegal || op.Store?
  {
    match Funct3(inst)
    case 2 => Store(Fsw) case 3 => Store(Fsd) case 4 => Store(Fsq) case _ => Illegal
  }

  function AtomicOpcode(inst: bv64): (op: Op)
    ensures op == Illegal || op.Amo?
  {
    match Funct5And3(inst)
    case 2 => Amo(AmoAdd, W) case 3 => Amo(AmoAdd, D) case 4 => Amo(AmoAdd, Q) case 10 => Amo(AmoSwap, W)
    case 11 => Amo(AmoSwap, D) case 12 => Amo(AmoSwap, Q)
    case 18 => if Rs2Field(inst) == 0 then Amo(Lr, W) else Illegal
    case 19 => if Rs2Field(inst) == 0 then Amo(Lr, D) else Illegal
    case 20 => if Rs2Field(inst) == 0 then Amo(Lr, Q) else Illegal
    case 26 => Amo(Sc, W) case 27 => Amo(Sc, D) case 28 => Amo(Sc, Q) case 34 => Amo(AmoXor, W)
    case 35 => Amo(AmoXor, D) case 36 => Amo(AmoXor, Q) case 66 => Amo(AmoOr, W) case 67 => Amo(AmoOr, D)
    case 68 => Amo(AmoOr, Q) case 98 => Amo(AmoAnd, W) case 99 => Amo(AmoAnd, D) case 100 => Amo(AmoAnd, Q)
    case 130 => Amo(AmoMin, W) case 131 => Amo(AmoMin, D) case 132 => Amo(AmoMin, Q) case 162 => Amo(AmoMax, W)
    case 163 => Amo(AmoMax, D) case 164 => Amo(AmoMax, Q) case 194 => Amo(AmoMinu, W)
    case 195 => Amo(AmoMinu, D) case 196 => Amo(AmoMinu, Q) case 226 => Amo(AmoMaxu, W)
    case 227 => Amo(AmoMaxu, D) case 228 => Amo(AmoMaxu, Q) case _ => Illegal
  }

  function OpRegOpcode(inst: bv64): (op: Op)
    ensures op == Illegal || op.Register?
  {
    match Funct7And3(inst)
    case 0 => Register(Add, Xlen) case 1 => Register(Sll, Xlen) case 2 => Register(Slt, Xlen)
    case 3 => Register(Sltu, Xlen) case 4 => Register(Xor, Xlen) case 5 => Register(Srl, Xlen)
    case 6 => Register(Or, Xlen) case 7 => Register(And, Xlen) case 8 => Register(Mul, Xlen)
    case 9 => Register(Mulh, Xlen) case 10 => Register(Mulhsu, Xlen) case 11 => Register(Mulhu, Xlen)
    case 12 => Register(Div, Xlen) case 13 => Register(Divu, Xlen) case 14 => Register(Rem, Xlen)
    case 15 => Register(Remu, Xlen) case 256 => Register(Sub, Xlen) case 261 => Register(Sra, Xlen)
    case _ => Illegal
  }

  function OpReg32Opcode(inst: bv64): (op: Op)
    ensures op == Illegal || op.Register?
  {
    match Funct7And3(inst)
    case 0 => Register(Add, Bits32) case 1 => Register(Sll, Bits32) case 5 => Register(Srl, Bits32)
    case 8 => Register(Mul, Bits32) case 12 => Register(Div, Bits32) case 13 => Register(Divu, Bits32)
    case 14 => Register(Rem, Bits32) case 15 => Register(Remu, Bits32) case 256 => Register(Sub, Bits32)
    case 261 => Register(Sra, Bits32) case _ => Illegal
  }

  // Multiply and add, with three sources.
  predicate IsFused(f: FpOp)
  {
    f.Fmadd? || f.Fmsub? || f.Fnmsub? || f.Fnmadd?
  }

  function MaddOpcode(inst: bv64): (op: Op)
    ensures op == Illegal || (op.Fp? && op.f == Fmadd)
  {
    match FpFormat(inst)
    case 0 => Fp(Fmadd, Single) case 1 => Fp(Fmadd, Double) case 3 => Fp(Fmadd, Quad) case _ => Illegal
  }

  function MsubOpcode(inst: bv64): (op: Op)
    ensures op == Illegal || (op.Fp? && op.f == Fmsub)
  {
    match FpFormat(inst)
    case 0 => Fp(Fmsub, Single) case 1 => Fp(Fmsub, Double) case 3 => Fp(Fmsub, Quad) case _ => Illegal
  }

  function NmsubOpcode(inst: bv64): (op: Op)
    ensures op == Illegal || (op.Fp? && op.f == Fnmsub)
  {
    match FpFormat(inst)
    case 0 => Fp(Fnmsub, Single) case 1 => Fp(Fnmsub, Double) case 3 => Fp(Fnmsub, Quad) case _ => Illegal
  }

  function NmaddOpcode(inst: bv64): (op: Op)
    ensures op == Illegal || (op.Fp? && op.f == Fnmadd)
  {
    match FpFormat(inst)
    case 0 => Fp(Fnmadd, Single) case 1 => Fp(Fnmadd, Double) case 3 => Fp(Fnmadd, Quad) case _ => Illegal
  }

  function SignOpcode(inst: bv64, p: Precision): (op: Op)
    ensures op == Illegal || (op.Fp? && op.p == p && (op.f.Fsgnj? || op.f.Fsgnjn? || op.f.Fsgnjx?))
  {
    match Funct3(inst)
    case 0 => Fp(Fsgnj, p) case 1 => Fp(Fsgnjn, p) case 2 => Fp(Fsgnjx, p) case _ => Illegal
  }

  function MinMaxOpcode(inst: bv64, p: Precision): (op: Op)
    ensures op == Illegal || (op.Fp? && op.p == p && (op.f.Fmin? || op.f.Fmax?))
  {
    match Funct3(inst) case 0 => Fp(Fmin, p) case 1 => Fp(Fmax, p) case _ => Illegal
  }

  function CompareOpcode(inst: bv64, p: Precision): (op: Op)
    ensures op == Illegal || (op.Fp? && op.p == p && (op.f.Fle? || op.f.Flt? || op.f.Feq?))
  {
    match Funct3(inst) case 0 => Fp(Fle, p) case 1 => Fp(Flt, p) case 2 => Fp(Feq, p) case _ => Illegal
  }

  function SqrtOpcode(inst: bv64, p: Precision): (op: Op)
    ensures op == Illegal || op == Fp(Fsqrt, p)
  {
    if Rs2Field(inst) == 0 then Fp(Fsqrt, p) else Illegal
  }

  function ToIntegerOpcode(inst: bv64, p: Precision): (op: Op)
    ensures op == Illegal || (op.Fp? && op.p == p && (op.f.FcvtToW? || op.f.FcvtToWu? || op.f.FcvtToL? || op.f.FcvtToLu?))
  {
    match Rs2Field(inst)
    case 0 => Fp(FcvtToW, p) case 1 => Fp(FcvtToWu, p) case 2 => Fp(FcvtToL, p) case 3 => Fp(FcvtToLu, p)
    case _ => Illegal
  }

  function FromIntegerOpcode(inst: bv64, p: Precision): (op: Op)
    ensures op == Illegal ||
      (op.Fp? && op.p == p && (op.f.FcvtFromW? || op.f.FcvtFromWu? || op.f.FcvtFromL? || op.f.FcvtFromLu?))
  {
    match Rs2Field(inst)
    case 0 => Fp(FcvtFromW, p) case 1 => Fp(FcvtFromWu, p) case 2 => Fp(FcvtFromL, p) case 3 => Fp(FcvtFromLu, p)
    case _ => Illegal
  }

  function MoveToOpcode(inst: bv64, p: Precision): (op: Op)
    ensures op == Illegal || op == Fp(FmvToX, p) || op == Fp(Fclass, p)
  {
    match Rs2And3(inst) case 0 => Fp(FmvToX, p) case 1 => Fp(Fclass, p) case _ => Illegal
  }

  function MoveFromOpcode(inst: bv64, p: Precision): (op: Op)
    ensures op == Illegal || op == Fp(FmvFromX, p)
  {
    if Rs2And3(inst) == 0 then Fp(FmvFromX, p) else Illegal
  }

  // Conversions between floating-point numbers.
  function ConvertOpcode(inst: bv64, to: Precision): (op: Op)
    ensures op == Illegal || (op.Convert? && op.to == to && op.from != to)
  {
    match to
    case Single => (match Rs2Field(inst) case 1 => Convert(to, Double) case 3 => Convert(to, Quad) case _ => Illegal)
    case Double => (match Rs2Field(inst) case 0 => Convert(to, Single) case 3 => Convert(to, Quad) case _ => Illegal)
    case Quad => (match Rs2Field(inst) case 0 => Convert(to, Single) case 1 => Convert(to, Double) case _ => Illegal)
  }

  function OpFpOpcode(inst: bv64): (op: Op)
    ensures op == Illegal || (op.Convert? && op.to != op.from) || (op.Fp? && !IsFused(op.f))
  {
    match Funct7(inst)
    case 0 => Fp(Fadd, Single) case 1 => Fp(Fadd, Double) case 3 => Fp(Fadd, Quad) case 4 => Fp(Fsub, Single)
    case 5 => Fp(Fsub, Double) case 7 => Fp(Fsub, Quad) case 8 => Fp(Fmul, Single) case 9 => Fp(Fmul, Double)
    case 11 => Fp(Fmul, Quad) case 12 => Fp(Fdiv, Single) case 13 => Fp(Fdiv, Double) case 15 => Fp(Fdiv, Quad)
    case 16 => SignOpcode(inst, Single) case 17 => SignOpcode(inst, Double) case 19 => SignOpcode(inst, Quad)
    case 20 => MinMaxOpcode(inst, Single) case 21 => MinMaxOpcode(inst, Double) case 23 => MinMaxOpcode(inst, Quad)
    case 32 => ConvertOpcode(inst, Single) case 33 => ConvertOpcode(inst, Double) case 35 => ConvertOpcode(inst, Quad)
    case 44 => SqrtOpcode(inst, Single) case 45 => SqrtOpcode(inst, Double) case 47 => SqrtOpcode(inst, Quad)
    case 80 => CompareOpcode(inst, Single) case 81 => CompareOpcode(inst, Double) case 83 => CompareOpcode(inst, Quad)
    case 96 => ToIntegerOpcode(inst, Single) case 97 => ToIntegerOpcode(inst, Double)
    case 99 => ToIntegerOpcode(inst, Quad) case 104 => FromIntegerOpcode(inst, Single)
    case 105 => FromIntegerOpcode(inst, Double) case 107 => FromIntegerOpcode(inst, Quad)
    case 112 => MoveToOpcode(inst, Single) case 113 => MoveToOpcode(inst, Double) case 115 => MoveToOpcode(inst, Quad)
    case 120 => MoveFromOpcode(inst, Single) case 121 => MoveFromOpcode(inst, Double)
    case 123 => MoveFromOpcode(inst, Quad) case _ => Illegal
  }

  function OpImm64Opcode(inst: bv64): (op: Op)
    ensures op == Illegal || op.Immediate? || op.Shift?
  {
    match Funct3(inst)
    case 0 => Immediate(Addid)
    case 1 => if Funct6(inst) == 0 then Shift(Slli, Bits64) else Illegal
    case 5 =>
      (match Funct6(inst)
      case 0 => Shift(Srli, Bits64) case 16 => Shift(Srai, Bits64) case _ => Illegal)
    case _ => Illegal
  }

  function BranchOpcode(inst: bv64): (op: Op)
    ensures op == Illegal || op.Branch?
  {
    match Funct3(inst)
    case 0 => Branch(Beq) case 1 => Branch(Bne) case 4 => Branch(Blt) case 5 => Branch(Bge)
    case 6 => Branch(Bltu) case 7 => Branch(Bgeu) case _ => Illegal
  }

  function JumpRegOpcode(inst: bv64): (op: Op)
    ensures op == Illegal || op.Jalr?
  {
    if Funct3(inst) == 0 then Jalr else Illegal
  }

  function SystemOpcode(inst: bv64): (op: Op)
    ensures op == Illegal || (op.System? && op != System(FenceI)) || op.Vm? || op.Csr?
  {
    match Funct3(inst)
    case 0 =>
      (match SystemKey(inst)
      case 0 =>
        (match Rs2AndRs1(inst)
        case 0 => System(Ecall) case 32 => System(Ebreak) case 64 => System(Uret) case _ => Illegal)
      case 256 =>
        (match Rs2Field(inst)
        case 2 => if Rs1Field(inst) == 0 then System(Sret) else Illegal
        case 4 => Vm(SfenceVm)
        case 5 => if Rs1Field(inst) == 0 then System(Wfi) else Illegal
        case _ => Illegal)
      case 288 => Vm(SfenceVma)
      case 512 => if Rs2AndRs1(inst) == 64 then System(Hret) else Illegal
      case 768 => if Rs2AndRs1(inst) == 64 then System(Mret) else Illegal
      case 1952 => if Rs2AndRs1(inst) == 576 then System(Dret) else Illegal
      case _ => Illegal)
    case 1 => Csr(Csrrw) case 2 => Csr(Csrrs) case 3 => Csr(Csrrc) case 5 => Csr(Csrrwi) case 6 => Csr(Csrrsi)
    case 7 => Csr(Csrrci) case _ => Illegal
  }

  function OpReg64Opcode(inst: bv64): (op: Op)
    ensures op == Illegal || op.Register?
  {
    match Funct7And3(inst)
    case 0 => Register(Add, Bits64) case 1 => Register(Sll, Bits64) case 5 => Register(Srl, Bits64)
    case 8 => Register(Mul, Bits64) case 12 => Register(Div, Bits64) case 13 => Register(Divu, Bits64)
    case 14 => Register(Rem, Bits64) case 15 => Register(Remu, Bits64) case 256 => Register(Sub, Bits64)
    case 261 => Register(Sra, Bits64) case _ => Illegal
  }

  function Quadrant3(inst: bv64): Op
  {
    match Major(inst)
    case 0 => LoadOpcode(inst) case 1 => LoadFpOpcode(inst) case 3 => MiscMemOpcode(inst)
    case 4 => OpImmOpcode(inst) case 5 => Upper(Auipc) case 6 => OpImm32Opcode(inst) case 8 => StoreOpcode(inst)
    case 9 => StoreFpOpcode(inst) case 11 => AtomicOpcode(inst) case 12 => OpRegOpcode(inst)
    case 13 => Upper(Lui) case 14 => OpReg32Opcode(inst) case 16 => MaddOpcode(inst) case 17 => MsubOpcode(inst)
    case 18 => NmsubOpcode(inst) case 19 => NmaddOpcode(inst) case 20 => OpFpOpcode(inst)
    case 22 => OpImm64Opcode(inst) case 24 => BranchOpcode(inst) case 25 => JumpRegOpcode(inst) case 27 => Jal
    case 28 => SystemOpcode(inst) case 30 => OpReg64Opcode(inst) case _ => Illegal
  }

  // How the operands of an operation are laid out.

  function CodecOf(op: Op): Codec
  {
    match op
    case Illegal => OfIllegal
    case Upper(_) => OfU
    case Jal => OfUj
    case Jalr | Load(_) | Immediate(_) => OfI
    case Branch(_) => OfSb
    case Store(_) => OfS
    case Shift(_, Xlen) => OfISh7
    case Shift(_, Bits32) => OfISh5
    case Shift(_, Bits64) => OfISh6
    case Register(_, _) | Vm(_) => OfR
    case Fence => OfRF
    case System(_) => OfNone
    case Csr(_) => OfICsr
    case Amo(a, _) => if a == Lr then OfRL else OfRA
    case Fp(f, _) => FpCodec(f)
    case Convert(_, _) => OfRM
    case Parcel(c) => ParcelCodec(c)
    case Pseudo(p) => PseudoCodec(p)
  }

  function FpCodec(f: FpOp): Codec
  {
    match f
    case Fmadd | Fmsub | Fnmsub | Fnmadd => OfR4M
    case Fadd | Fsub | Fmul | Fdiv | Fsqrt | FcvtToW | FcvtToWu | FcvtFromW | FcvtFromWu | FcvtToL
    | FcvtToLu | FcvtFromL | FcvtFromLu => OfRM
    case _ => OfR
  }

  function ParcelCodec(c: ParcelOp): Codec
  {
    match c
    case CAddi4spn => OfCiw4spn
    case CNop | CEbreak => OfCiNone
    case CAddi | CAddiw => OfCi
    case CLi => OfCiLi
    case CAddi16sp => OfCi16sp
    case CLui => OfCiLui
    case CAndi => OfCbImm
    case CShift(Srli) | CShift(Srai) => OfCbSh6
    case CShift(Slli) => OfCiSh6
    case CArith(Sub, Xlen) | CArith(Xor, Xlen) | CArith(Or, Xlen) | CArith(And, Xlen) | CArith(Sub, Bits32)
    | CArith(Add, Bits32) => OfCs
    case CAdd => OfCr
    case CMv => OfCrMv
    case CJ => OfCj
    case CJal => OfCjJal
    case CJr => OfCrJr
    case CJalr => OfCrJalr
    case CBranch(Beq) | CBranch(Bne) => OfCb
    case CLoad(Lw) | CLoad(Flw) => OfClLw
    case CLoadSp(Lw) | CLoadSp(Flw) => OfCiLwsp
    case CLoad(Ld) | CLoad(Fld) => OfClLd
    case CLoadSp(Ld) | CLoadSp(Fld) => OfCiLdsp
    case CLoad(Lq) => OfClLq
    case CLoadSp(Lq) => OfCiLqsp
    case CStore(Sw) | CStore(Fsw) => OfCsSw
    case CStoreSp(Sw) | CStoreSp(Fsw) => OfCssSwsp
    case CStore(Sd) | CStore(Fsd) => OfCsSd
    case CStoreSp(Sd) | CStoreSp(Fsd) => OfCssSdsp
    case CStore(Sq) => OfCsSq
    case CStoreSp(Sq) => OfCssSqsp
    case _ => OfIllegal
  }

  function PseudoCodec(p: PseudoOp): Codec
  {
    match p
    case Nop | Mv | Not | SextW | Seqz | Ret | Jr => OfI
    case Beqz | Bnez | Blez | Bgez | Bltz | Bgtz | Ble | Bleu | Bgt | Bgtu => OfSb
    case J => OfUj
    case Rdcycle | Rdtime | Rdinstret | Rdcycleh | Rdtimeh | Rdinstreth | Frcsr | Frrm | Frflags | Fscsr
    | Fsrm | Fsflags | Fsrmi | Fsflagsi => OfICsr
    case _ => OfR
  }

  function OnIsa(isa: Isa, on32: Op, on64: Op, on128: Op): Op
  {
    match isa
    case Rv32 => on32
    case Rv64 => on64
    case Rv128 => on128
  }

  // The operation a compressed one stands for, or Illegal if this instruction set has none.
  function Expansion(isa: Isa, c: ParcelOp): Op
  {
    match c
    case CAddi4spn | CNop | CAddi | CLi | CAddi16sp | CMv => Immediate(Addi)
    case CAddiw => OnIsa(isa, Illegal, Immediate(Addiw), Immediate(Addiw))
    case CLui => Upper(Lui)
    case CAndi => Immediate(Andi)
    case CShift(Srli) => Shift(Srli, Xlen)
    case CShift(Srai) => Shift(Srai, Xlen)
    case CShift(Slli) => Shift(Slli, Xlen)
    case CArith(Sub, Xlen) => Register(Sub, Xlen)
    case CArith(Xor, Xlen) => Register(Xor, Xlen)
    case CArith(Or, Xlen) => Register(Or, Xlen)
    case CArith(And, Xlen) => Register(And, Xlen)
    case CArith(Sub, Bits32) => Register(Sub, Bits32)
    case CArith(Add, Bits32) => Register(Add, Bits32)
    case CAdd => Register(Add, Xlen)
    case CJ => Jal
    case CJal => OnIsa(isa, Jal, Illegal, Illegal)
    case CJr | CJalr => Jalr
    case CBranch(Beq) => Branch(Beq)
    case CBranch(Bne) => Branch(Bne)
    case CEbreak => System(Ebreak)
    case CLoad(Lw) | CLoadSp(Lw) => Load(Lw)
    case CLoad(Ld) | CLoadSp(Ld) => OnIsa(isa, Illegal, Load(Ld), Load(Ld))
    case CLoad(Lq) | CLoadSp(Lq) => OnIsa(isa, Illegal, Illegal, Load(Lq))
    case CLoad(Flw) | CLoadSp(Flw) => OnIsa(isa, Load(Flw), Illegal, Illegal)
    case CLoad(Fld) => OnIsa(isa, Load(Fld), Load(Fld), Illegal)
    case CLoadSp(Fld) => Load(Fld)
    case CStore(Sw) | CStoreSp(Sw) => Store(Sw)
    case CStore(Sd) | CStoreSp(Sd) => OnIsa(isa, Illegal, Store(Sd), Store(Sd))
    case CStore(Sq) | CStoreSp(Sq) => OnIsa(isa, Illegal, Illegal, Store(Sq))
    case CStore(Fsw) | CStoreSp(Fsw) => OnIsa(isa, Store(Fsw), Illegal, Illegal)
    case CStore(Fsd) => OnIsa(isa, Store(Fsd), Store(Fsd), Illegal)
    case CStoreSp(Fsd) => Store(Fsd)
    case _ => Illegal
  }

  // Compressed operations that are reserved with a zero immediate.
  predicate NeedsImmediate(c: ParcelOp)
  {
    match c
    case CAddi4spn | CAddi16sp | CLui | CAndi | CShift(Srli) | CShift(Srai) | CShift(Slli) => true
    case _ => false
  }

  function OnPrecision(p: Precision, single: PseudoOp, double: PseudoOp, quad: PseudoOp): PseudoOp
  {
    match p
    case Single => single
    case Double => double
    case Quad => quad
  }

  // The rows of the pseudo-instruction tables, in the order in which they are tried.
  function PseudoRows(op: Op): seq<Row>
  {
    match op
    case Jal => JalRows(op)
    case Jalr => JalrRows(op)
    case Branch(b) => BranchRows(b)
    case Immediate(i) => ImmediateRows(i)
    case Register(r, span) => RegisterRows(r, span)
    case Csr(z) => CsrRows(z)
    case Fp(f, p) => FpRows(f, p)
    case _ => []
  }

  function JalRows(op: Op): seq<Row> { [Row(Pseudo(J), [RdIsX0]), Row(Jal, [RdIsRa])] }

  function JalrRows(op: Op): seq<Row>
  {
    [
      Row(Pseudo(Ret), [RdIsX0, Rs1IsRa]), Row(Pseudo(Jr), [RdIsX0, ImmIs(0)]),
      Row(Jalr, [RdIsRa, ImmIs(0)])]
  }

  function BranchRows(b: BranchOp): seq<Row>
  {
    match b
    case Beq => [Row(Pseudo(Beqz), [Rs2IsX0])]
    case Bne => [Row(Pseudo(Bnez), [Rs2IsX0])]
    case Blt => BltRows(b)
    case Bge => BgeRows(b)
    case Bltu => [Row(Pseudo(Bgtu), [])]
    case Bgeu => [Row(Pseudo(Bleu), [])]
  }

  function ImmediateRows(i: ImmediateOp): seq<Row>
  {
    match i
    case Addi => AddiRows(i)
    case Sltiu => [Row(Pseudo(Seqz), [ImmIs(1)])]
    case Xori => [Row(Pseudo(Not), [ImmIs(0xFFFF_FFFF)])]
    case Addiw => [Row(Pseudo(SextW), [ImmIs(0)])]
    case _ => []
  }

  function RegisterRows(r: RegisterOp, span: Span): seq<Row>
  {
    match (r, span)
    case (Sub, Xlen) => [Row(Pseudo(Neg), [Rs1IsX0])]
    case (Slt, Xlen) => [Row(Pseudo(Sltz), [Rs2IsX0]), Row(Pseudo(Sgtz), [Rs1IsX0])]
    case (Sltu, Xlen) => [Row(Pseudo(Snez), [Rs1IsX0])]
    case (Sub, Bits32) => [Row(Pseudo(Negw), [Rs1IsX0])]
    case _ => []
  }

  function CsrRows(z: CsrOp): seq<Row>
  {
    match z
    case Csrrw => CsrrwRows(z)
    case Csrrs => CsrrsRows(z)
    case Csrrwi => CsrrwiRows(z)
    case _ => []
  }

  function FpRows(f: FpOp, p: Precision): seq<Row>
  {
    match f
    case Fsgnj => [Row(Pseudo(OnPrecision(p, FmvS, FmvD, FmvQ)), [Rs2IsRs1])]
    case Fsgnjn => [Row(Pseudo(OnPrecision(p, FnegS, FnegD, FnegQ)), [Rs2IsRs1])]
    case Fsgnjx => [Row(Pseudo(OnPrecision(p, FabsS, FabsD, FabsQ)), [Rs2IsRs1])]
    case _ => []
  }

  function BltRows(b: BranchOp): seq<Row>
  {
    [Row(Pseudo(Bltz), [Rs2IsX0]), Row(Pseudo(Bgtz), [Rs1IsX0]), Row(Pseudo(Bgt), [])]
  }

  function BgeRows(b: BranchOp): seq<Row>
  {
    [Row(Pseudo(Blez), [Rs1IsX0]), Row(Pseudo(Bgez), [Rs2IsX0]), Row(Pseudo(Ble), [])]
  }

  function AddiRows(i: ImmediateOp): seq<Row>
  {
    [Row(Pseudo(Nop), [RdIsX0, Rs1IsX0, ImmIs(0)]), Row(Pseudo(Mv), [ImmIs(0)])]
  }

  function CsrrwRows(z: CsrOp): seq<Row>
  {
    [
      Row(Pseudo(Fscsr), [ImmIs(0x003)]), Row(Pseudo(Fsrm), [ImmIs(0x002)]),
      Row(Pseudo(Fsflags), [ImmIs(0x001)])]
  }

  function CsrrsRows(z: CsrOp): seq<Row>
  {
    [
      Row(Pseudo(Rdcycle), [Rs1IsX0, ImmIs(0xC00)]), Row(Pseudo(Rdtime), [Rs1IsX0, ImmIs(0xC01)]),
      Row(Pseudo(Rdinstret), [Rs1IsX0, ImmIs(0xC02)]), Row(Pseudo(Rdcycleh), [Rs1IsX0, ImmIs(0xC80)]),
      Row(Pseudo(Rdtimeh), [Rs1IsX0, ImmIs(0xC81)]), Row(Pseudo(Rdinstreth), [Rs1IsX0, ImmIs(0xC82)]),
      Row(Pseudo(Frcsr), [Rs1IsX0, ImmIs(0x003)]), Row(Pseudo(Frrm), [Rs1IsX0, ImmIs(0x002)]),
      Row(Pseudo(Frflags), [Rs1IsX0, ImmIs(0x001)])]
  }

  function CsrrwiRows(z: CsrOp): seq<Row>
  {
    [Row(Pseudo(Fsrmi), [ImmIs(0x002)]), Row(Pseudo(Fsflagsi), [ImmIs(0x001)])]
  }

  // The operands the format of a pseudo-instruction prints.
  predicate PseudoPrintsRd(p: PseudoOp)
  {
    match p
    case Mv | Not | Neg | Negw | SextW | Seqz | Snez | Sltz | Sgtz | FmvS | FabsS | FnegS | FmvD | FabsD
    | FnegD | FmvQ | FabsQ | FnegQ | Rdcycle | Rdtime | Rdinstret | Rdcycleh | Rdtimeh | Rdinstreth | Frcsr
    | Frrm | Frflags | Fscsr | Fsrm | Fsflags | Fsrmi | Fsflagsi => true
    case _ => false
  }

  predicate PseudoPrintsRs1(p: PseudoOp)
  {
    match p
    case Mv | Not | SextW | Seqz | Sltz | FmvS | FabsS | FnegS | FmvD | FabsD | FnegD | FmvQ | FabsQ
    | FnegQ | Beqz | Bnez | Bgez | Bltz | Ble | Bleu | Bgt | Bgtu | Jr | Fscsr | Fsrm | Fsflags | Fsrmi
    | Fsflagsi => true
    case _ => false
  }

  predicate PseudoPrintsRs2(p: PseudoOp)
  {
    match p
    case Neg | Negw | Snez | Sgtz | Blez | Bgtz | Ble | Bleu | Bgt | Bgtu => true
    case _ => false
  }

  predicate PseudoPrintsImm(p: PseudoOp)
  {
    match p
    case Beqz | Bnez | Blez | Bgez | Bltz | Bgtz | Ble | Bleu | Bgt | Bgtu | J => true
    case _ => false
  }
}

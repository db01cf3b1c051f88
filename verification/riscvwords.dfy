// The 32-bit words of the RISC-V Unprivileged ISA 20191213 (chapter 24) and of the privileged instructions
// the disassembler knows: the fixed bits of each operation, and where its operands go.
module RiscvWords {
  import opened RiscvOps
  import opened RiscvOperands

  datatype Decoded = Decoded(op: Op, codec: Codec, f: Fields)

  function DecodeInst(isa: Isa, inst: bv64): Decoded
  {
    var op := Opcode(isa, inst);
    Decoded(op, CodecOf(op), OperandsOf(CodecOf(op), inst))
  }

  // A word of 16 bits, by its two low bits, and a word of 32.
  predicate Parcel16(inst: bv64) { inst & 3 != 3 }

  predicate Word(e: bv64) { e & 3 == 3 && e <= 0xFFFF_FFFF }

  // The fields that are fixed: bits 2 to 6 are the opcode, 12 to 14 funct3, 25 to 31 funct7 (or 27 to 31
  // funct5, 26 to 31 funct6, 25 to 26 fmt) and 20 to 24 the second source.
  datatype Fixed =
    | NotAWord
    | ByOpcode(major: bv64)
    | ByFunct3(major: bv64, f3: bv64)
    | ByFunct5(major: bv64, f3: bv64, f5: bv64)
    | ByFunct6(major: bv64, f3: bv64, f6: bv64)
    | ByFunct7(major: bv64, f3: bv64, f7: bv64)
    | ByFormat(major: bv64, fmt: bv64)
    | ByFormat7(major: bv64, f7: bv64)
    | ByFormat7Rs2(major: bv64, f7: bv64, rs2: bv64)
    | ByFunct7Rs2(major: bv64, f3: bv64, f7: bv64, rs2: bv64)
    | ByFunct5NoRs2(major: bv64, f3: bv64, f5: bv64)
    | ByWord(mask: bv64, word: bv64)

  function Mask(x: Fixed): bv64
  {
    match x
    case NotAWord => 0
    case ByOpcode(_) => 0x0000_007F
    case ByFunct3(_, _) => 0x0000_707F
    case ByFunct5(_, _, _) => 0xF800_707F
    case ByFunct6(_, _, _) => 0xFC00_707F
    case ByFunct7(_, _, _) => 0xFE00_707F
    case ByFormat(_, _) => 0x0600_007F
    case ByFormat7(_, _) => 0xFE00_007F
    case ByFormat7Rs2(_, _, _) => 0xFFF0_007F
    case ByFunct7Rs2(_, _, _, _) => 0xFFF0_707F
    case ByFunct5NoRs2(_, _, _) => 0xF9F0_707F
    case ByWord(mask, _) => mask
  }

  // The opcode and funct3 of a word, and its higher fields.

  function Low(major: bv64, f3: bv64): bv64 { 3 | (major << 2) | (f3 << 12) }

  function At20(rs2: bv64): bv64 { rs2 << 20 }

  function At25(f7: bv64): bv64 { f7 << 25 }

  function At26(f6: bv64): bv64 { f6 << 26 }

  function At27(f5: bv64): bv64 { f5 << 27 }

  function Bits(x: Fixed): bv64
  {
    match x
    case NotAWord => 0
    case ByOpcode(major) => Low(major, 0)
    case ByFunct3(major, f3) => Low(major, f3)
    case ByFunct5(major, f3, f5) => Beside(Low(major, f3), At27(f5))
    case ByFunct6(major, f3, f6) => Beside(Low(major, f3), At26(f6))
    case ByFunct7(major, f3, f7) => Beside(Low(major, f3), At25(f7))
    case ByFormat(major, fmt) => Beside(Low(major, 0), At25(fmt))
    case ByFormat7(major, f7) => Beside(Low(major, 0), At25(f7))
    case ByFormat7Rs2(major, f7, rs2) => Beside(Low(major, 0), Beside(At25(f7), At20(rs2)))
    case ByFunct7Rs2(major, f3, f7, rs2) => Beside(Low(major, f3), Beside(At25(f7), At20(rs2)))
    case ByFunct5NoRs2(major, f3, f5) => Beside(Low(major, f3), At27(f5))
    case ByWord(_, word) => word
  }

  predicate Has(inst: bv64, x: Fixed)
  {
    Part(inst, Mask(x)) == Bits(x)
  }

  // The fields are as wide as their places.
  predicate Proper(x: Fixed)
  {
    match x
    case NotAWord => false
    case ByOpcode(major) => major < 32
    case ByFunct3(major, f3) => major < 32 && f3 < 8
    case ByFunct5(major, f3, f5) => major < 32 && f3 < 8 && f5 < 32
    case ByFunct6(major, f3, f6) => major < 32 && f3 < 8 && f6 < 64
    case ByFunct7(major, f3, f7) => major < 32 && f3 < 8 && f7 < 128
    case ByFormat(major, fmt) => major < 32 && fmt < 4
    case ByFormat7(major, f7) => major < 32 && f7 < 128
    case ByFormat7Rs2(major, f7, rs2) => major < 32 && f7 < 128 && rs2 < 32
    case ByFunct7Rs2(major, f3, f7, rs2) => major < 32 && f3 < 8 && f7 < 128 && rs2 < 32
    case ByFunct5NoRs2(major, f3, f5) => major < 32 && f3 < 8 && f5 < 32
    case ByWord(mask, word) => Part(word, mask) == word && word & 3 == 3 && mask <= 0xFFFF_FFFF
  }

  // The listings of instructions.

  function BranchFunct3(b: BranchOp): bv64
  {
    match b case Beq => 0 case Bne => 1 case Blt => 4 case Bge => 5 case Bltu => 6 case Bgeu => 7
  }

  function LoadFixed(l: LoadOp): Fixed
  {
    match l
    case Lb => ByFunct3(0, 0) case Lh => ByFunct3(0, 1) case Lw => ByFunct3(0, 2) case Ld => ByFunct3(0, 3)
    case Lbu => ByFunct3(0, 4) case Lhu => ByFunct3(0, 5) case Lwu => ByFunct3(0, 6) case Ldu => ByFunct3(0, 7)
    case Flw => ByFunct3(1, 2) case Fld => ByFunct3(1, 3) case Flq => ByFunct3(1, 4) case Lq => ByFunct3(3, 2)
  }

  function StoreFixed(s: StoreOp): Fixed
  {
    match s
    case Sb => ByFunct3(8, 0) case Sh => ByFunct3(8, 1) case Sw => ByFunct3(8, 2) case Sd => ByFunct3(8, 3)
    case Sq => ByFunct3(8, 4) case Fsw => ByFunct3(9, 2) case Fsd => ByFunct3(9, 3) case Fsq => ByFunct3(9, 4)
  }

  function ImmediateFixed(i: ImmediateOp): Fixed
  {
    match i
    case Addi => ByFunct3(4, 0) case Slti => ByFunct3(4, 2) case Sltiu => ByFunct3(4, 3)
    case Xori => ByFunct3(4, 4) case Ori => ByFunct3(4, 6) case Andi => ByFunct3(4, 7)
    case Addiw => ByFunct3(6, 0) case Addid => ByFunct3(22, 0)
  }

  // The amount of a shift has 7, 5 or 6 bits.
  function ShiftFixed(h: ShiftOp, span: Span): Fixed
  {
    match (span, h)
    case (Xlen, Slli) => ByFunct5(4, 1, 0) case (Xlen, Srli) => ByFunct5(4, 5, 0) case (Xlen, Srai) => ByFunct5(4, 5, 8)
    case (Bits32, Slli) => ByFunct7(6, 1, 0) case (Bits32, Srli) => ByFunct7(6, 5, 0)
    case (Bits32, Srai) => ByFunct7(6, 5, 32)
    case (Bits64, Slli) => ByFunct6(22, 1, 0) case (Bits64, Srli) => ByFunct6(22, 5, 0)
    case (Bits64, Srai) => ByFunct6(22, 5, 16)
  }

  function RegisterRow(major: bv64, r: RegisterOp): (x: Fixed)
    ensures x.ByFunct7? && x.major == major && x.f3 < 8 && x.f7 < 128
  {
    match r
    case Add => ByFunct7(major, 0, 0) case Sub => ByFunct7(major, 0, 32) case Sll => ByFunct7(major, 1, 0)
    case Slt => ByFunct7(major, 2, 0) case Sltu => ByFunct7(major, 3, 0) case Xor => ByFunct7(major, 4, 0)
    case Srl => ByFunct7(major, 5, 0) case Sra => ByFunct7(major, 5, 32) case Or => ByFunct7(major, 6, 0)
    case And => ByFunct7(major, 7, 0) case Mul => ByFunct7(major, 0, 1) case Mulh => ByFunct7(major, 1, 1)
    case Mulhsu => ByFunct7(major, 2, 1) case Mulhu => ByFunct7(major, 3, 1) case Div => ByFunct7(major, 4, 1)
    case Divu => ByFunct7(major, 5, 1) case Rem => ByFunct7(major, 6, 1) case Remu => ByFunct7(major, 7, 1)
  }

  // Those that exist for words and double words of a wider register too.
  predicate HasNarrow(r: RegisterOp)
  {
    match r
    case Add | Sub | Sll | Srl | Sra | Mul | Div | Divu | Rem | Remu => true
    case _ => false
  }

  function RegisterFixed(r: RegisterOp, span: Span): Fixed
  {
    match span
    case Xlen => RegisterRow(12, r)
    case Bits32 => if HasNarrow(r) then RegisterRow(14, r) else NotAWord
    case Bits64 => if HasNarrow(r) then RegisterRow(30, r) else NotAWord
  }

  function SystemFixed(y: SystemOp): Fixed
  {
    match y
    case FenceI => ByFunct3(3, 1)
    case Ecall => ByWord(0xFFFF_FFFF, 0x0000_0073) case Ebreak => ByWord(0xFFFF_FFFF, 0x0010_0073)
    case Uret => ByWord(0xFFFF_FFFF, 0x0020_0073) case Sret => ByWord(0xFFFF_FFFF, 0x1020_0073)
    case Hret => ByWord(0xFFFF_FFFF, 0x2020_0073) case Mret => ByWord(0xFFFF_FFFF, 0x3020_0073)
    case Dret => ByWord(0xFFFF_FFFF, 0x7B20_0073) case Wfi => ByWord(0xFFFF_FFFF, 0x1050_0073)
  }

  function VmFixed(v: VmOp): Fixed
  {
    match v
    case SfenceVm => ByWord(0xFFF0_7FFF, 0x1040_0073)
    case SfenceVma => ByWord(0xFE00_7FFF, 0x1200_0073)
  }

  function CsrFunct3(z: CsrOp): bv64
  {
    match z case Csrrw => 1 case Csrrs => 2 case Csrrc => 3 case Csrrwi => 5 case Csrrsi => 6 case Csrrci => 7
  }

  function AmoFunct5(a: AmoOp): bv64
  {
    match a
    case AmoAdd => 0 case AmoSwap => 1 case Lr => 2 case Sc => 3 case AmoXor => 4 case AmoOr => 8 case AmoAnd => 12
    case AmoMin => 16 case AmoMax => 20 case AmoMinu => 24 case AmoMaxu => 28
  }

  function AmoFixed(a: AmoOp, w: Width): Fixed
  {
    var width := match w case W => 2 case D => 3 case Q => 4;
    if a == Lr then ByFunct5NoRs2(11, width, 2) else ByFunct5(11, width, AmoFunct5(a))
  }

  function Format(p: Precision): (fmt: bv64)
    ensures fmt < 4
  {
    match p case Single => 0 case Double => 1 case Quad => 3
  }

  function Group(base: bv64, p: Precision): (f7: bv64)
    requires base <= 120
    ensures f7 < 128
  {
    base + Format(p)
  }

  // Operations whose funct3 is a rounding mode.
  predicate IsRounded(f: FpOp)
  {
    match f
    case Fsgnj | Fsgnjn | Fsgnjx | Fmin | Fmax | Fle | Flt | Feq | FmvToX | Fclass | FmvFromX => false
    case _ => true
  }

  function RoundedFixed(f: FpOp, p: Precision): (x: Fixed)
    requires IsRounded(f)
    ensures Proper(x) && (x.ByFormat? || x.ByFormat7? || x.ByFormat7Rs2?) && (x.ByFormat? <==> IsFused(f))
  {
    match f
    case Fmadd => ByFormat(16, Format(p)) case Fmsub => ByFormat(17, Format(p))
    case Fnmsub => ByFormat(18, Format(p)) case Fnmadd => ByFormat(19, Format(p))
    case Fadd => ByFormat7(20, Group(0, p)) case Fsub => ByFormat7(20, Group(4, p))
    case Fmul => ByFormat7(20, Group(8, p)) case Fdiv => ByFormat7(20, Group(12, p))
    case Fsqrt => ByFormat7Rs2(20, Group(44, p), 0) case FcvtToW => ByFormat7Rs2(20, Group(96, p), 0)
    case FcvtToWu => ByFormat7Rs2(20, Group(96, p), 1) case FcvtToL => ByFormat7Rs2(20, Group(96, p), 2)
    case FcvtToLu => ByFormat7Rs2(20, Group(96, p), 3) case FcvtFromW => ByFormat7Rs2(20, Group(104, p), 0)
    case FcvtFromWu => ByFormat7Rs2(20, Group(104, p), 1) case FcvtFromL => ByFormat7Rs2(20, Group(104, p), 2)
    case FcvtFromLu => ByFormat7Rs2(20, Group(104, p), 3)
  }

  function ExactFixed(f: FpOp, p: Precision): (x: Fixed)
    requires !IsRounded(f)
    ensures Proper(x) && (x.ByFunct7? || x.ByFunct7Rs2?)
  {
    match f
    case Fsgnj => ByFunct7(20, 0, Group(16, p)) case Fsgnjn => ByFunct7(20, 1, Group(16, p))
    case Fsgnjx => ByFunct7(20, 2, Group(16, p)) case Fmin => ByFunct7(20, 0, Group(20, p))
    case Fmax => ByFunct7(20, 1, Group(20, p)) case Fle => ByFunct7(20, 0, Group(80, p))
    case Flt => ByFunct7(20, 1, Group(80, p)) case Feq => ByFunct7(20, 2, Group(80, p))
    case FmvToX => ByFunct7Rs2(20, 0, Group(112, p), 0) case Fclass => ByFunct7Rs2(20, 1, Group(112, p), 0)
    case FmvFromX => ByFunct7Rs2(20, 0, Group(120, p), 0)
  }

  function FpFixed(f: FpOp, p: Precision): Fixed
  {
    if IsRounded(f) then RoundedFixed(f, p) else ExactFixed(f, p)
  }

  function FixedOf(op: Op): Fixed
  {
    match op
    case Upper(Lui) => ByOpcode(13)
    case Upper(Auipc) => ByOpcode(5)
    case Jal => ByOpcode(27)
    case Jalr => ByFunct3(25, 0)
    case Branch(b) => ByFunct3(24, BranchFunct3(b))
    case Load(l) => LoadFixed(l)
    case Store(s) => StoreFixed(s)
    case Immediate(i) => ImmediateFixed(i)
    case Shift(h, span) => ShiftFixed(h, span)
    case Register(r, span) => RegisterFixed(r, span)
    case Fence => ByFunct3(3, 0)
    case System(y) => SystemFixed(y)
    case Vm(v) => VmFixed(v)
    case Csr(z) => ByFunct3(28, CsrFunct3(z))
    case Amo(a, w) => AmoFixed(a, w)
    case Fp(f, p) => FpFixed(f, p)
    case Convert(to, from) => if to == from then NotAWord else ByFormat7Rs2(20, 32 + Format(to), Format(from))
    case _ => NotAWord
  }

  // The same in terms of the fields the decoder looks at.

  lemma LowKeys(inst: bv64, major: bv64, f3: bv64)
    requires major < 32 && f3 < 8
    ensures Part(inst, 0x7F) == Low(major, 0) <==> Quadrant(inst) == 3 && Major(inst) == major
    ensures Part(inst, 0x707F) == Low(major, f3) <==> Quadrant(inst) == 3 && Major(inst) == major && Funct3(inst) == f3
    ensures Part(Low(major, 0), 0x7F) == Low(major, 0) && Part(Low(major, f3), 0x707F) == Low(major, f3)
  {}

  lemma At20Keys(inst: bv64, k: bv64)
    requires k < 32
    ensures Part(inst, 0x01F0_0000) == At20(k) <==> Rs2Field(inst) == k
    ensures Part(At20(k), 0x01F0_0000) == At20(k)
  {}

  lemma At26Keys(inst: bv64, k: bv64)
    requires k < 64
    ensures Part(inst, 0xFC00_0000) == At26(k) <==> Funct6(inst) == k
    ensures Part(At26(k), 0xFC00_0000) == At26(k)
  {}

  lemma At27Keys(inst: bv64, k: bv64)
    requires k < 32
    ensures Part(inst, 0xF800_0000) == At27(k) <==> Funct5(inst) == k
    ensures Part(At27(k), 0xF800_0000) == At27(k)
  {}

  lemma At25Keys(inst: bv64, k: bv64)
    requires k < 128
    ensures Part(inst, 0xFE00_0000) == At25(k) <==> Funct7(inst) == k
    ensures Part(At25(k), 0xFE00_0000) == At25(k)
  {}

  lemma FmtKeys(inst: bv64, k: bv64)
    requires k < 4
    ensures Part(inst, 0x0600_0000) == At25(k) <==> FpFormat(inst) == k
    ensures Part(At25(k), 0x0600_0000) == At25(k)
  {}

  lemma FieldsJoin()
    ensures 0xFE00_707F == Beside(0x707F, 0xFE00_0000) && Part(0x707F, 0xFE00_0000) == 0
    ensures 0xFC00_707F == Beside(0x707F, 0xFC00_0000) && Part(0x707F, 0xFC00_0000) == 0
    ensures 0xF800_707F == Beside(0x707F, 0xF800_0000) && Part(0x707F, 0xF800_0000) == 0
    ensures 0x0600_007F == Beside(0x7F, 0x0600_0000) && Part(0x7F, 0x0600_0000) == 0
    ensures 0xFE00_007F == Beside(0x7F, 0xFE00_0000) && Part(0x7F, 0xFE00_0000) == 0
    ensures 0xFFF0_0000 == Beside(0xFE00_0000, 0x01F0_0000) && Part(0xFE00_0000, 0x01F0_0000) == 0
    ensures 0xFFF0_007F == Beside(0x7F, 0xFFF0_0000) && Part(0x7F, 0xFFF0_0000) == 0
    ensures 0xFFF0_707F == Beside(0x707F, 0xFFF0_0000) && Part(0x707F, 0xFFF0_0000) == 0
    ensures 0xF9F0_0000 == Beside(0xF800_0000, 0x01F0_0000) && Part(0xF800_0000, 0x01F0_0000) == 0
    ensures 0xF9F0_707F == Beside(0x707F, 0xF9F0_0000) && Part(0x707F, 0xF9F0_0000) == 0
  {}

  lemma OpcodeKeys(inst: bv64, major: bv64)
    requires major < 32
    ensures Has(inst, ByOpcode(major)) <==> Quadrant(inst) == 3 && Major(inst) == major
  {
    hide Part, Quadrant, Major, Funct3, Low;
    LowKeys(inst, major, 0);
  }

  lemma Funct3Keys(inst: bv64, major: bv64, f3: bv64)
    requires major < 32 && f3 < 8
    ensures Has(inst, ByFunct3(major, f3)) <==> Quadrant(inst) == 3 && Major(inst) == major && Funct3(inst) == f3
  {
    hide Part, Quadrant, Major, Funct3, Low;
    LowKeys(inst, major, f3);
  }

  lemma Funct5Keys(inst: bv64, major: bv64, f3: bv64, f5: bv64)
    requires major < 32 && f3 < 8 && f5 < 32
    ensures Has(inst, ByFunct5(major, f3, f5)) <==>
      Quadrant(inst) == 3 && Major(inst) == major && Funct3(inst) == f3 && Funct5(inst) == f5
  {
    hide Part, Beside, Quadrant, Major, Funct3, Funct5, Funct6, Funct7, FpFormat, Rs2Field, Low, At20, At25, At26, At27;
    LowKeys(inst, major, f3);
    At27Keys(inst, f5);
    FieldsJoin();
    JoinedParts(inst, 0x707F, 0xF800_0000, Low(major, f3), At27(f5));
  }

  lemma Funct6Keys(inst: bv64, major: bv64, f3: bv64, f6: bv64)
    requires major < 32 && f3 < 8 && f6 < 64
    ensures Has(inst, ByFunct6(major, f3, f6)) <==>
      Quadrant(inst) == 3 && Major(inst) == major && Funct3(inst) == f3 && Funct6(inst) == f6
  {
    hide Part, Beside, Quadrant, Major, Funct3, Funct5, Funct6, Funct7, FpFormat, Rs2Field, Low, At20, At25, At26, At27;
    LowKeys(inst, major, f3);
    At26Keys(inst, f6);
    FieldsJoin();
    JoinedParts(inst, 0x707F, 0xFC00_0000, Low(major, f3), At26(f6));
  }

  lemma Funct7Keys(inst: bv64, major: bv64, f3: bv64, f7: bv64)
    requires major < 32 && f3 < 8 && f7 < 128
    ensures Has(inst, ByFunct7(major, f3, f7)) <==>
      Quadrant(inst) == 3 && Major(inst) == major && Funct3(inst) == f3 && Funct7(inst) == f7
  {
    hide Part, Beside, Quadrant, Major, Funct3, Funct5, Funct6, Funct7, FpFormat, Rs2Field, Low, At20, At25, At26, At27;
    LowKeys(inst, major, f3);
    At25Keys(inst, f7);
    FieldsJoin();
    JoinedParts(inst, 0x707F, 0xFE00_0000, Low(major, f3), At25(f7));
  }

  lemma FormatKeys(inst: bv64, major: bv64, fmt: bv64)
    requires major < 32 && fmt < 4
    ensures Has(inst, ByFormat(major, fmt)) <==>
      Quadrant(inst) == 3 && Major(inst) == major && FpFormat(inst) == fmt
  {
    hide Part, Beside, Quadrant, Major, Funct3, Funct5, Funct6, Funct7, FpFormat, Rs2Field, Low, At20, At25, At26, At27;
    LowKeys(inst, major, 0);
    FmtKeys(inst, fmt);
    FieldsJoin();
    JoinedParts(inst, 0x7F, 0x0600_0000, Low(major, 0), At25(fmt));
  }

  lemma Format7Keys(inst: bv64, major: bv64, f7: bv64)
    requires major < 32 && f7 < 128
    ensures Has(inst, ByFormat7(major, f7)) <==>
      Quadrant(inst) == 3 && Major(inst) == major && Funct7(inst) == f7
  {
    hide Part, Beside, Quadrant, Major, Funct3, Funct5, Funct6, Funct7, FpFormat, Rs2Field, Low, At20, At25, At26, At27;
    LowKeys(inst, major, 0);
    At25Keys(inst, f7);
    FieldsJoin();
    JoinedParts(inst, 0x7F, 0xFE00_0000, Low(major, 0), At25(f7));
  }

  lemma Format7Rs2Keys(inst: bv64, major: bv64, f7: bv64, rs2: bv64)
    requires major < 32 && f7 < 128 && rs2 < 32
    ensures Has(inst, ByFormat7Rs2(major, f7, rs2)) <==>
      Quadrant(inst) == 3 && Major(inst) == major && Funct7(inst) == f7 && Rs2Field(inst) == rs2
  {
    hide Part, Beside, Quadrant, Major, Funct3, Funct5, Funct6, Funct7, FpFormat, Rs2Field, Low, At20, At25, At26, At27;
    LowKeys(inst, major, 0);
    At25Keys(inst, f7);
    At20Keys(inst, rs2);
    FieldsJoin();
    JoinedParts(inst, 0xFE00_0000, 0x01F0_0000, At25(f7), At20(rs2));
    HeldTogether(0xFE00_0000, 0x01F0_0000, At25(f7), At20(rs2));
    JoinedParts(inst, 0x7F, 0xFFF0_0000, Low(major, 0), Beside(At25(f7), At20(rs2)));
  }

  lemma Funct7Rs2Keys(inst: bv64, major: bv64, f3: bv64, f7: bv64, rs2: bv64)
    requires major < 32 && f3 < 8 && f7 < 128 && rs2 < 32
    ensures Has(inst, ByFunct7Rs2(major, f3, f7, rs2)) <==>
      Quadrant(inst) == 3 && Major(inst) == major && Funct3(inst) == f3 && Funct7(inst) == f7 && Rs2Field(inst) == rs2
  {
    hide Part, Beside, Quadrant, Major, Funct3, Funct5, Funct6, Funct7, FpFormat, Rs2Field, Low, At20, At25, At26, At27;
    LowKeys(inst, major, f3);
    At25Keys(inst, f7);
    At20Keys(inst, rs2);
    FieldsJoin();
    JoinedParts(inst, 0xFE00_0000, 0x01F0_0000, At25(f7), At20(rs2));
    HeldTogether(0xFE00_0000, 0x01F0_0000, At25(f7), At20(rs2));
    JoinedParts(inst, 0x707F, 0xFFF0_0000, Low(major, f3), Beside(At25(f7), At20(rs2)));
  }

  lemma Funct5NoRs2Keys(inst: bv64, major: bv64, f3: bv64, f5: bv64)
    requires major < 32 && f3 < 8 && f5 < 32
    ensures Has(inst, ByFunct5NoRs2(major, f3, f5)) <==>
      Quadrant(inst) == 3 && Major(inst) == major && Funct3(inst) == f3 && Funct5(inst) == f5 && Rs2Field(inst) == 0
  {
    hide Part, Beside, Quadrant, Major, Funct3, Funct5, Funct6, Funct7, FpFormat, Rs2Field, Low, At20, At25, At26, At27;
    LowKeys(inst, major, f3);
    At27Keys(inst, f5);
    At20Keys(inst, 0);
    NothingAt20();
    FieldsJoin();
    BesideNothing(At27(f5));
    JoinedParts(inst, 0xF800_0000, 0x01F0_0000, At27(f5), At20(0));
    HeldTogether(0xF800_0000, 0x01F0_0000, At27(f5), At20(0));
    JoinedParts(inst, 0x707F, 0xF9F0_0000, Low(major, f3), Beside(At27(f5), At20(0)));
  }

  lemma NothingAt20()
    ensures At20(0) == 0
  {}

  // Keys that join two fields.

  // The decoder comes up with an operation exactly for the words with its fixed bits.

  lemma PlainIff(isa: Isa, inst: bv64, op: Op)
    requires op != Illegal && !op.Parcel?
    ensures Opcode(isa, inst) == op <==> Quadrant(inst) == 3 && Quadrant3(inst) == op
  {
    hide Quadrant, Quadrant0, Quadrant1, Quadrant2, Quadrant3;
  }

  lemma JumpIff(isa: Isa, inst: bv64)
    ensures Opcode(isa, inst) == Upper(Lui) <==> Has(inst, ByOpcode(13))
    ensures Opcode(isa, inst) == Upper(Auipc) <==> Has(inst, ByOpcode(5))
    ensures Opcode(isa, inst) == Jal <==> Has(inst, ByOpcode(27))
    ensures Opcode(isa, inst) == Jalr <==> Has(inst, ByFunct3(25, 0))
  {
    hide Has, Opcode, Quadrant, Major, Funct3, LoadOpcode, LoadFpOpcode, MiscMemOpcode, OpImmOpcode, OpImm32Opcode,
      StoreOpcode, StoreFpOpcode, AtomicOpcode, OpRegOpcode, OpReg32Opcode, MaddOpcode, MsubOpcode, NmsubOpcode,
      NmaddOpcode, OpFpOpcode, OpImm64Opcode, BranchOpcode, SystemOpcode, OpReg64Opcode;
    PlainIff(isa, inst, Upper(Lui));
    PlainIff(isa, inst, Upper(Auipc));
    PlainIff(isa, inst, Jal);
    PlainIff(isa, inst, Jalr);
    OpcodeKeys(inst, 13);
    OpcodeKeys(inst, 5);
    OpcodeKeys(inst, 27);
    Funct3Keys(inst, 25, 0);
  }

  lemma BranchPlain(isa: Isa, inst: bv64, b: BranchOp)
    ensures Opcode(isa, inst) == Branch(b) <==>
      Quadrant(inst) == 3 && Major(inst) == 24 && BranchOpcode(inst) == Branch(b)
  {
    hide Opcode, Quadrant, Major, LoadOpcode, LoadFpOpcode, MiscMemOpcode, OpImmOpcode, OpImm32Opcode, StoreOpcode,
      StoreFpOpcode, AtomicOpcode, OpRegOpcode, OpReg32Opcode, MaddOpcode, MsubOpcode, NmsubOpcode, NmaddOpcode,
      OpFpOpcode, OpImm64Opcode, BranchOpcode, JumpRegOpcode, SystemOpcode, OpReg64Opcode;
    PlainIff(isa, inst, Branch(b));
  }

  lemma BranchIff(isa: Isa, inst: bv64)
    ensures Opcode(isa, inst) == Branch(Beq) <==> Has(inst, ByFunct3(24, 0))
    ensures Opcode(isa, inst) == Branch(Bne) <==> Has(inst, ByFunct3(24, 1))
    ensures Opcode(isa, inst) == Branch(Blt) <==> Has(inst, ByFunct3(24, 4))
    ensures Opcode(isa, inst) == Branch(Bge) <==> Has(inst, ByFunct3(24, 5))
    ensures Opcode(isa, inst) == Branch(Bltu) <==> Has(inst, ByFunct3(24, 6))
    ensures Opcode(isa, inst) == Branch(Bgeu) <==> Has(inst, ByFunct3(24, 7))
  {
    hide Has, Opcode, Quadrant, Quadrant3, Major, Funct3;
    BranchPlain(isa, inst, Beq);
    Funct3Keys(inst, 24, 0);
    BranchPlain(isa, inst, Bne);
    Funct3Keys(inst, 24, 1);
    BranchPlain(isa, inst, Blt);
    Funct3Keys(inst, 24, 4);
    BranchPlain(isa, inst, Bge);
    Funct3Keys(inst, 24, 5);
    BranchPlain(isa, inst, Bltu);
    Funct3Keys(inst, 24, 6);
    BranchPlain(isa, inst, Bgeu);
    Funct3Keys(inst, 24, 7);
  }

  lemma LoadPlain(isa: Isa, inst: bv64, l: LoadOp)
    ensures Opcode(isa, inst) == Load(l) <==>
      Quadrant(inst) == 3 && ((Major(inst) == 0 && LoadOpcode(inst) == Load(l)) ||
      (Major(inst) == 1 && LoadFpOpcode(inst) == Load(l)) || (Major(inst) == 3 && MiscMemOpcode(inst) == Load(l)))
  {
    hide Opcode, Quadrant, Major, LoadOpcode, LoadFpOpcode, MiscMemOpcode, OpImmOpcode, OpImm32Opcode, StoreOpcode,
      StoreFpOpcode, AtomicOpcode, OpRegOpcode, OpReg32Opcode, MaddOpcode, MsubOpcode, NmsubOpcode, NmaddOpcode,
      OpFpOpcode, OpImm64Opcode, BranchOpcode, JumpRegOpcode, SystemOpcode, OpReg64Opcode;
    PlainIff(isa, inst, Load(l));
  }

  lemma LoadIff(isa: Isa, inst: bv64)
    ensures Opcode(isa, inst) == Load(Lb) <==> Has(inst, ByFunct3(0, 0))
    ensures Opcode(isa, inst) == Load(Lh) <==> Has(inst, ByFunct3(0, 1))
    ensures Opcode(isa, inst) == Load(Lw) <==> Has(inst, ByFunct3(0, 2))
    ensures Opcode(isa, inst) == Load(Ld) <==> Has(inst, ByFunct3(0, 3))
    ensures Opcode(isa, inst) == Load(Lbu) <==> Has(inst, ByFunct3(0, 4))
    ensures Opcode(isa, inst) == Load(Lhu) <==> Has(inst, ByFunct3(0, 5))
    ensures Opcode(isa, inst) == Load(Lwu) <==> Has(inst, ByFunct3(0, 6))
    ensures Opcode(isa, inst) == Load(Ldu) <==> Has(inst, ByFunct3(0, 7))
    ensures Opcode(isa, inst) == Load(Flw) <==> Has(inst, ByFunct3(1, 2))
    ensures Opcode(isa, inst) == Load(Fld) <==> Has(inst, ByFunct3(1, 3))
    ensures Opcode(isa, inst) == Load(Flq) <==> Has(inst, ByFunct3(1, 4))
    ensures Opcode(isa, inst) == Load(Lq) <==> Has(inst, ByFunct3(3, 2))
  {
    hide Has, Opcode, Quadrant, Quadrant3, Major, Funct3;
    LoadPlain(isa, inst, Lb);
    Funct3Keys(inst, 0, 0);
    LoadPlain(isa, inst, Lh);
    Funct3Keys(inst, 0, 1);
    LoadPlain(isa, inst, Lw);
    Funct3Keys(inst, 0, 2);
    LoadPlain(isa, inst, Ld);
    Funct3Keys(inst, 0, 3);
    LoadPlain(isa, inst, Lbu);
    Funct3Keys(inst, 0, 4);
    LoadPlain(isa, inst, Lhu);
    Funct3Keys(inst, 0, 5);
    LoadPlain(isa, inst, Lwu);
    Funct3Keys(inst, 0, 6);
    LoadPlain(isa, inst, Ldu);
    Funct3Keys(inst, 0, 7);
    LoadPlain(isa, inst, Flw);
    Funct3Keys(inst, 1, 2);
    LoadPlain(isa, inst, Fld);
    Funct3Keys(inst, 1, 3);
    LoadPlain(isa, inst, Flq);
    Funct3Keys(inst, 1, 4);
    LoadPlain(isa, inst, Lq);
    Funct3Keys(inst, 3, 2);
  }

  lemma StorePlain(isa: Isa, inst: bv64, s: StoreOp)
    ensures Opcode(isa, inst) == Store(s) <==>
      Quadrant(inst) == 3 && ((Major(inst) == 8 && StoreOpcode(inst) == Store(s)) ||
      (Major(inst) == 9 && StoreFpOpcode(inst) == Store(s)))
  {
    hide Opcode, Quadrant, Major, LoadOpcode, LoadFpOpcode, MiscMemOpcode, OpImmOpcode, OpImm32Opcode, StoreOpcode,
      StoreFpOpcode, AtomicOpcode, OpRegOpcode, OpReg32Opcode, MaddOpcode, MsubOpcode, NmsubOpcode, NmaddOpcode,
      OpFpOpcode, OpImm64Opcode, BranchOpcode, JumpRegOpcode, SystemOpcode, OpReg64Opcode;
    PlainIff(isa, inst, Store(s));
  }

  lemma StoreIff(isa: Isa, inst: bv64)
    ensures Opcode(isa, inst) == Store(Sb) <==> Has(inst, ByFunct3(8, 0))
    ensures Opcode(isa, inst) == Store(Sh) <==> Has(inst, ByFunct3(8, 1))
    ensures Opcode(isa, inst) == Store(Sw) <==> Has(inst, ByFunct3(8, 2))
    ensures Opcode(isa, inst) == Store(Sd) <==> Has(inst, ByFunct3(8, 3))
    ensures Opcode(isa, inst) == Store(Sq) <==> Has(inst, ByFunct3(8, 4))
    ensures Opcode(isa, inst) == Store(Fsw) <==> Has(inst, ByFunct3(9, 2))
    ensures Opcode(isa, inst) == Store(Fsd) <==> Has(inst, ByFunct3(9, 3))
    ensures Opcode(isa, inst) == Store(Fsq) <==> Has(inst, ByFunct3(9, 4))
  {
    hide Has, Opcode, Quadrant, Quadrant3, Major, Funct3;
    StorePlain(isa, inst, Sb);
    Funct3Keys(inst, 8, 0);
    StorePlain(isa, inst, Sh);
    Funct3Keys(inst, 8, 1);
    StorePlain(isa, inst, Sw);
    Funct3Keys(inst, 8, 2);
    StorePlain(isa, inst, Sd);
    Funct3Keys(inst, 8, 3);
    StorePlain(isa, inst, Sq);
    Funct3Keys(inst, 8, 4);
    StorePlain(isa, inst, Fsw);
    Funct3Keys(inst, 9, 2);
    StorePlain(isa, inst, Fsd);
    Funct3Keys(inst, 9, 3);
    StorePlain(isa, inst, Fsq);
    Funct3Keys(inst, 9, 4);
  }

  lemma ImmediatePlain(isa: Isa, inst: bv64, i: ImmediateOp)
    ensures Opcode(isa, inst) == Immediate(i) <==>
      Quadrant(inst) == 3 && ((Major(inst) == 4 && OpImmOpcode(inst) == Immediate(i)) ||
      (Major(inst) == 6 && OpImm32Opcode(inst) == Immediate(i)) ||
      (Major(inst) == 22 && OpImm64Opcode(inst) == Immediate(i)))
  {
    hide Opcode, Quadrant, Major, LoadOpcode, LoadFpOpcode, MiscMemOpcode, OpImmOpcode, OpImm32Opcode, StoreOpcode,
      StoreFpOpcode, AtomicOpcode, OpRegOpcode, OpReg32Opcode, MaddOpcode, MsubOpcode, NmsubOpcode, NmaddOpcode,
      OpFpOpcode, OpImm64Opcode, BranchOpcode, JumpRegOpcode, SystemOpcode, OpReg64Opcode;
    PlainIff(isa, inst, Immediate(i));
  }

  lemma ImmediateIff(isa: Isa, inst: bv64)
    ensures Opcode(isa, inst) == Immediate(Addi) <==> Has(inst, ByFunct3(4, 0))
    ensures Opcode(isa, inst) == Immediate(Slti) <==> Has(inst, ByFunct3(4, 2))
    ensures Opcode(isa, inst) == Immediate(Sltiu) <==> Has(inst, ByFunct3(4, 3))
    ensures Opcode(isa, inst) == Immediate(Xori) <==> Has(inst, ByFunct3(4, 4))
    ensures Opcode(isa, inst) == Immediate(Ori) <==> Has(inst, ByFunct3(4, 6))
    ensures Opcode(isa, inst) == Immediate(Andi) <==> Has(inst, ByFunct3(4, 7))
    ensures Opcode(isa, inst) == Immediate(Addiw) <==> Has(inst, ByFunct3(6, 0))
    ensures Opcode(isa, inst) == Immediate(Addid) <==> Has(inst, ByFunct3(22, 0))
  {
    hide Has, Opcode, Quadrant, Quadrant3, Major, Funct3, Funct5, Funct6, Funct7;
    ImmediatePlain(isa, inst, Addi);
    Funct3Keys(inst, 4, 0);
    ImmediatePlain(isa, inst, Slti);
    Funct3Keys(inst, 4, 2);
    ImmediatePlain(isa, inst, Sltiu);
    Funct3Keys(inst, 4, 3);
    ImmediatePlain(isa, inst, Xori);
    Funct3Keys(inst, 4, 4);
    ImmediatePlain(isa, inst, Ori);
    Funct3Keys(inst, 4, 6);
    ImmediatePlain(isa, inst, Andi);
    Funct3Keys(inst, 4, 7);
    ImmediatePlain(isa, inst, Addiw);
    Funct3Keys(inst, 6, 0);
    ImmediatePlain(isa, inst, Addid);
    Funct3Keys(inst, 22, 0);
  }

  lemma CsrPlain(isa: Isa, inst: bv64, z: CsrOp)
    ensures Opcode(isa, inst) == Csr(z) <==> Quadrant(inst) == 3 && Major(inst) == 28 && SystemOpcode(inst) == Csr(z)
  {
    hide Opcode, Quadrant, Major, LoadOpcode, LoadFpOpcode, MiscMemOpcode, OpImmOpcode, OpImm32Opcode, StoreOpcode,
      StoreFpOpcode, AtomicOpcode, OpRegOpcode, OpReg32Opcode, MaddOpcode, MsubOpcode, NmsubOpcode, NmaddOpcode,
      OpFpOpcode, OpImm64Opcode, BranchOpcode, JumpRegOpcode, SystemOpcode, OpReg64Opcode;
    PlainIff(isa, inst, Csr(z));
  }

  lemma CsrIff(isa: Isa, inst: bv64)
    ensures Opcode(isa, inst) == Csr(Csrrw) <==> Has(inst, ByFunct3(28, 1))
    ensures Opcode(isa, inst) == Csr(Csrrs) <==> Has(inst, ByFunct3(28, 2))
    ensures Opcode(isa, inst) == Csr(Csrrc) <==> Has(inst, ByFunct3(28, 3))
    ensures Opcode(isa, inst) == Csr(Csrrwi) <==> Has(inst, ByFunct3(28, 5))
    ensures Opcode(isa, inst) == Csr(Csrrsi) <==> Has(inst, ByFunct3(28, 6))
    ensures Opcode(isa, inst) == Csr(Csrrci) <==> Has(inst, ByFunct3(28, 7))
  {
    hide Has, Opcode, Quadrant, Quadrant3, Major, Funct3, SystemKey, Rs2AndRs1, Rs2Field, Rs1Field;
    CsrPlain(isa, inst, Csrrw);
    Funct3Keys(inst, 28, 1);
    CsrPlain(isa, inst, Csrrs);
    Funct3Keys(inst, 28, 2);
    CsrPlain(isa, inst, Csrrc);
    Funct3Keys(inst, 28, 3);
    CsrPlain(isa, inst, Csrrwi);
    Funct3Keys(inst, 28, 5);
    CsrPlain(isa, inst, Csrrsi);
    Funct3Keys(inst, 28, 6);
    CsrPlain(isa, inst, Csrrci);
    Funct3Keys(inst, 28, 7);
  }

  lemma ShiftPlain(isa: Isa, inst: bv64, h: ShiftOp, span: Span)
    ensures Opcode(isa, inst) == Shift(h, span) <==>
      Quadrant(inst) == 3 && ((Major(inst) == 4 && OpImmOpcode(inst) == Shift(h, span)) ||
      (Major(inst) == 6 && OpImm32Opcode(inst) == Shift(h, span)) ||
      (Major(inst) == 22 && OpImm64Opcode(inst) == Shift(h, span)))
  {
    hide Opcode, Quadrant, Major, LoadOpcode, LoadFpOpcode, MiscMemOpcode, OpImmOpcode, OpImm32Opcode, StoreOpcode,
      StoreFpOpcode, AtomicOpcode, OpRegOpcode, OpReg32Opcode, MaddOpcode, MsubOpcode, NmsubOpcode, NmaddOpcode,
      OpFpOpcode, OpImm64Opcode, BranchOpcode, JumpRegOpcode, SystemOpcode, OpReg64Opcode;
    PlainIff(isa, inst, Shift(h, span));
  }

  lemma ShiftIff(isa: Isa, inst: bv64)
    ensures Opcode(isa, inst) == Shift(Slli, Xlen) <==> Has(inst, ByFunct5(4, 1, 0))
    ensures Opcode(isa, inst) == Shift(Srli, Xlen) <==> Has(inst, ByFunct5(4, 5, 0))
    ensures Opcode(isa, inst) == Shift(Srai, Xlen) <==> Has(inst, ByFunct5(4, 5, 8))
    ensures Opcode(isa, inst) == Shift(Slli, Bits32) <==> Has(inst, ByFunct7(6, 1, 0))
    ensures Opcode(isa, inst) == Shift(Srli, Bits32) <==> Has(inst, ByFunct7(6, 5, 0))
    ensures Opcode(isa, inst) == Shift(Srai, Bits32) <==> Has(inst, ByFunct7(6, 5, 32))
    ensures Opcode(isa, inst) == Shift(Slli, Bits64) <==> Has(inst, ByFunct6(22, 1, 0))
    ensures Opcode(isa, inst) == Shift(Srli, Bits64) <==> Has(inst, ByFunct6(22, 5, 0))
    ensures Opcode(isa, inst) == Shift(Srai, Bits64) <==> Has(inst, ByFunct6(22, 5, 16))
  {
    hide Has, Opcode, Quadrant, Quadrant3, Major, Funct3, Funct5, Funct6, Funct7;
    ShiftPlain(isa, inst, Slli, Xlen);
    Funct5Keys(inst, 4, 1, 0);
    ShiftPlain(isa, inst, Srli, Xlen);
    Funct5Keys(inst, 4, 5, 0);
    ShiftPlain(isa, inst, Srai, Xlen);
    Funct5Keys(inst, 4, 5, 8);
    ShiftPlain(isa, inst, Slli, Bits32);
    Funct7Keys(inst, 6, 1, 0);
    ShiftPlain(isa, inst, Srli, Bits32);
    Funct7Keys(inst, 6, 5, 0);
    ShiftPlain(isa, inst, Srai, Bits32);
    Funct7Keys(inst, 6, 5, 32);
    ShiftPlain(isa, inst, Slli, Bits64);
    Funct6Keys(inst, 22, 1, 0);
    ShiftPlain(isa, inst, Srli, Bits64);
    Funct6Keys(inst, 22, 5, 0);
    ShiftPlain(isa, inst, Srai, Bits64);
    Funct6Keys(inst, 22, 5, 16);
  }

  lemma JoinedFunct7(inst: bv64, f7: bv64, f3: bv64)
    requires f7 < 128 && f3 < 8
    ensures Funct7And3(inst) == (f7 << 3) | f3 <==> Funct7(inst) == f7 && Funct3(inst) == f3
  {}

  lemma JoinedFunct5(inst: bv64, f5: bv64, f3: bv64)
    requires f5 < 32 && f3 < 8
    ensures Funct5And3(inst) == (f5 << 3) | f3 <==> Funct5(inst) == f5 && Funct3(inst) == f3
  {}

  lemma RegisterPlain(isa: Isa, inst: bv64, r: RegisterOp, span: Span)
    ensures Opcode(isa, inst) == Register(r, span) <==>
      Quadrant(inst) == 3 && ((Major(inst) == 12 && OpRegOpcode(inst) == Register(r, span)) ||
      (Major(inst) == 14 && OpReg32Opcode(inst) == Register(r, span)) ||
      (Major(inst) == 30 && OpReg64Opcode(inst) == Register(r, span)))
  {
    hide Opcode, Quadrant, Major, LoadOpcode, LoadFpOpcode, MiscMemOpcode, OpImmOpcode, OpImm32Opcode, StoreOpcode,
      StoreFpOpcode, AtomicOpcode, OpRegOpcode, OpReg32Opcode, MaddOpcode, MsubOpcode, NmsubOpcode, NmaddOpcode,
      OpFpOpcode, OpImm64Opcode, BranchOpcode, JumpRegOpcode, SystemOpcode, OpReg64Opcode;
    PlainIff(isa, inst, Register(r, span));
  }

  lemma RegisterSpans(inst: bv64)
    ensures OpRegOpcode(inst).Register? ==> OpRegOpcode(inst).span == Xlen
    ensures OpReg32Opcode(inst).Register? ==> OpReg32Opcode(inst).span == Bits32 && HasNarrow(OpReg32Opcode(inst).r)
    ensures OpReg64Opcode(inst).Register? ==> OpReg64Opcode(inst).span == Bits64 && HasNarrow(OpReg64Opcode(inst).r)
  {
    hide Funct7And3;
  }

  lemma RegisterTable12(inst: bv64)
    ensures Funct7And3(inst) == 0 ==> OpRegOpcode(inst) == Register(Add, Xlen)
    ensures Funct7And3(inst) == 256 ==> OpRegOpcode(inst) == Register(Sub, Xlen)
    ensures Funct7And3(inst) == 1 ==> OpRegOpcode(inst) == Register(Sll, Xlen)
    ensures Funct7And3(inst) == 2 ==> OpRegOpcode(inst) == Register(Slt, Xlen)
    ensures Funct7And3(inst) == 3 ==> OpRegOpcode(inst) == Register(Sltu, Xlen)
    ensures Funct7And3(inst) == 4 ==> OpRegOpcode(inst) == Register(Xor, Xlen)
    ensures Funct7And3(inst) == 5 ==> OpRegOpcode(inst) == Register(Srl, Xlen)
    ensures Funct7And3(inst) == 261 ==> OpRegOpcode(inst) == Register(Sra, Xlen)
    ensures Funct7And3(inst) == 6 ==> OpRegOpcode(inst) == Register(Or, Xlen)
    ensures Funct7And3(inst) == 7 ==> OpRegOpcode(inst) == Register(And, Xlen)
    ensures Funct7And3(inst) == 8 ==> OpRegOpcode(inst) == Register(Mul, Xlen)
    ensures Funct7And3(inst) == 9 ==> OpRegOpcode(inst) == Register(Mulh, Xlen)
    ensures Funct7And3(inst) == 10 ==> OpRegOpcode(inst) == Register(Mulhsu, Xlen)
    ensures Funct7And3(inst) == 11 ==> OpRegOpcode(inst) == Register(Mulhu, Xlen)
    ensures Funct7And3(inst) == 12 ==> OpRegOpcode(inst) == Register(Div, Xlen)
    ensures Funct7And3(inst) == 13 ==> OpRegOpcode(inst) == Register(Divu, Xlen)
    ensures Funct7And3(inst) == 14 ==> OpRegOpcode(inst) == Register(Rem, Xlen)
    ensures Funct7And3(inst) == 15 ==> OpRegOpcode(inst) == Register(Remu, Xlen)
    ensures OpRegOpcode(inst) == Register(Add, Xlen) ==> Funct7And3(inst) == 0
    ensures OpRegOpcode(inst) == Register(Sub, Xlen) ==> Funct7And3(inst) == 256
    ensures OpRegOpcode(inst) == Register(Sll, Xlen) ==> Funct7And3(inst) == 1
    ensures OpRegOpcode(inst) == Register(Slt, Xlen) ==> Funct7And3(inst) == 2
    ensures OpRegOpcode(inst) == Register(Sltu, Xlen) ==> Funct7And3(inst) == 3
    ensures OpRegOpcode(inst) == Register(Xor, Xlen) ==> Funct7And3(inst) == 4
    ensures OpRegOpcode(inst) == Register(Srl, Xlen) ==> Funct7And3(inst) == 5
    ensures OpRegOpcode(inst) == Register(Sra, Xlen) ==> Funct7And3(inst) == 261
    ensures OpRegOpcode(inst) == Register(Or, Xlen) ==> Funct7And3(inst) == 6
    ensures OpRegOpcode(inst) == Register(And, Xlen) ==> Funct7And3(inst) == 7
    ensures OpRegOpcode(inst) == Register(Mul, Xlen) ==> Funct7And3(inst) == 8
    ensures OpRegOpcode(inst) == Register(Mulh, Xlen) ==> Funct7And3(inst) == 9
    ensures OpRegOpcode(inst) == Register(Mulhsu, Xlen) ==> Funct7And3(inst) == 10
    ensures OpRegOpcode(inst) == Register(Mulhu, Xlen) ==> Funct7And3(inst) == 11
    ensures OpRegOpcode(inst) == Register(Div, Xlen) ==> Funct7And3(inst) == 12
    ensures OpRegOpcode(inst) == Register(Divu, Xlen) ==> Funct7And3(inst) == 13
    ensures OpRegOpcode(inst) == Register(Rem, Xlen) ==> Funct7And3(inst) == 14
    ensures OpRegOpcode(inst) == Register(Remu, Xlen) ==> Funct7And3(inst) == 15
  {
    hide Funct7And3;
  }

  lemma BaseRegisterIff12(isa: Isa, inst: bv64)
    ensures Opcode(isa, inst) == Register(Add, Xlen) <==> Has(inst, ByFunct7(12, 0, 0))
    ensures Opcode(isa, inst) == Register(Sub, Xlen) <==> Has(inst, ByFunct7(12, 0, 32))
    ensures Opcode(isa, inst) == Register(Sll, Xlen) <==> Has(inst, ByFunct7(12, 1, 0))
    ensures Opcode(isa, inst) == Register(Slt, Xlen) <==> Has(inst, ByFunct7(12, 2, 0))
    ensures Opcode(isa, inst) == Register(Sltu, Xlen) <==> Has(inst, ByFunct7(12, 3, 0))
    ensures Opcode(isa, inst) == Register(Xor, Xlen) <==> Has(inst, ByFunct7(12, 4, 0))
    ensures Opcode(isa, inst) == Register(Srl, Xlen) <==> Has(inst, ByFunct7(12, 5, 0))
    ensures Opcode(isa, inst) == Register(Sra, Xlen) <==> Has(inst, ByFunct7(12, 5, 32))
    ensures Opcode(isa, inst) == Register(Or, Xlen) <==> Has(inst, ByFunct7(12, 6, 0))
    ensures Opcode(isa, inst) == Register(And, Xlen) <==> Has(inst, ByFunct7(12, 7, 0))
  {
    hide Has, Opcode, Quadrant, Quadrant3, Major, Funct3, Funct7, Funct7And3, OpRegOpcode, OpReg32Opcode,
      OpReg64Opcode;
    RegisterTable12(inst);
    RegisterSpans(inst);
    RegisterPlain(isa, inst, Add, Xlen);
    JoinedFunct7(inst, 0, 0);
    Funct7Keys(inst, 12, 0, 0);
    RegisterPlain(isa, inst, Sub, Xlen);
    JoinedFunct7(inst, 32, 0);
    Funct7Keys(inst, 12, 0, 32);
    RegisterPlain(isa, inst, Sll, Xlen);
    JoinedFunct7(inst, 0, 1);
    Funct7Keys(inst, 12, 1, 0);
    RegisterPlain(isa, inst, Slt, Xlen);
    JoinedFunct7(inst, 0, 2);
    Funct7Keys(inst, 12, 2, 0);
    RegisterPlain(isa, inst, Sltu, Xlen);
    JoinedFunct7(inst, 0, 3);
    Funct7Keys(inst, 12, 3, 0);
    RegisterPlain(isa, inst, Xor, Xlen);
    JoinedFunct7(inst, 0, 4);
    Funct7Keys(inst, 12, 4, 0);
    RegisterPlain(isa, inst, Srl, Xlen);
    JoinedFunct7(inst, 0, 5);
    Funct7Keys(inst, 12, 5, 0);
    RegisterPlain(isa, inst, Sra, Xlen);
    JoinedFunct7(inst, 32, 5);
    Funct7Keys(inst, 12, 5, 32);
    RegisterPlain(isa, inst, Or, Xlen);
    JoinedFunct7(inst, 0, 6);
    Funct7Keys(inst, 12, 6, 0);
    RegisterPlain(isa, inst, And, Xlen);
    JoinedFunct7(inst, 0, 7);
    Funct7Keys(inst, 12, 7, 0);
  }

  lemma MultiplyRegisterIff12(isa: Isa, inst: bv64)
    ensures Opcode(isa, inst) == Register(Mul, Xlen) <==> Has(inst, ByFunct7(12, 0, 1))
    ensures Opcode(isa, inst) == Register(Mulh, Xlen) <==> Has(inst, ByFunct7(12, 1, 1))
    ensures Opcode(isa, inst) == Register(Mulhsu, Xlen) <==> Has(inst, ByFunct7(12, 2, 1))
    ensures Opcode(isa, inst) == Register(Mulhu, Xlen) <==> Has(inst, ByFunct7(12, 3, 1))
    ensures Opcode(isa, inst) == Register(Div, Xlen) <==> Has(inst, ByFunct7(12, 4, 1))
    ensures Opcode(isa, inst) == Register(Divu, Xlen) <==> Has(inst, ByFunct7(12, 5, 1))
    ensures Opcode(isa, inst) == Register(Rem, Xlen) <==> Has(inst, ByFunct7(12, 6, 1))
    ensures Opcode(isa, inst) == Register(Remu, Xlen) <==> Has(inst, ByFunct7(12, 7, 1))
  {
    hide Has, Opcode, Quadrant, Quadrant3, Major, Funct3, Funct7, Funct7And3, OpRegOpcode, OpReg32Opcode,
      OpReg64Opcode;
    RegisterTable12(inst);
    RegisterSpans(inst);
    RegisterPlain(isa, inst, Mul, Xlen);
    JoinedFunct7(inst, 1, 0);
    Funct7Keys(inst, 12, 0, 1);
    RegisterPlain(isa, inst, Mulh, Xlen);
    JoinedFunct7(inst, 1, 1);
    Funct7Keys(inst, 12, 1, 1);
    RegisterPlain(isa, inst, Mulhsu, Xlen);
    JoinedFunct7(inst, 1, 2);
    Funct7Keys(inst, 12, 2, 1);
    RegisterPlain(isa, inst, Mulhu, Xlen);
    JoinedFunct7(inst, 1, 3);
    Funct7Keys(inst, 12, 3, 1);
    RegisterPlain(isa, inst, Div, Xlen);
    JoinedFunct7(inst, 1, 4);
    Funct7Keys(inst, 12, 4, 1);
    RegisterPlain(isa, inst, Divu, Xlen);
    JoinedFunct7(inst, 1, 5);
    Funct7Keys(inst, 12, 5, 1);
    RegisterPlain(isa, inst, Rem, Xlen);
    JoinedFunct7(inst, 1, 6);
    Funct7Keys(inst, 12, 6, 1);
    RegisterPlain(isa, inst, Remu, Xlen);
    JoinedFunct7(inst, 1, 7);
    Funct7Keys(inst, 12, 7, 1);
  }

  lemma RegisterTable14(inst: bv64)
    ensures Funct7And3(inst) == 0 ==> OpReg32Opcode(inst) == Register(Add, Bits32)
    ensures Funct7And3(inst) == 256 ==> OpReg32Opcode(inst) == Register(Sub, Bits32)
    ensures Funct7And3(inst) == 1 ==> OpReg32Opcode(inst) == Register(Sll, Bits32)
    ensures Funct7And3(inst) == 5 ==> OpReg32Opcode(inst) == Register(Srl, Bits32)
    ensures Funct7And3(inst) == 261 ==> OpReg32Opcode(inst) == Register(Sra, Bits32)
    ensures Funct7And3(inst) == 8 ==> OpReg32Opcode(inst) == Register(Mul, Bits32)
    ensures Funct7And3(inst) == 12 ==> OpReg32Opcode(inst) == Register(Div, Bits32)
    ensures Funct7And3(inst) == 13 ==> OpReg32Opcode(inst) == Register(Divu, Bits32)
    ensures Funct7And3(inst) == 14 ==> OpReg32Opcode(inst) == Register(Rem, Bits32)
    ensures Funct7And3(inst) == 15 ==> OpReg32Opcode(inst) == Register(Remu, Bits32)
    ensures OpReg32Opcode(inst) == Register(Add, Bits32) ==> Funct7And3(inst) == 0
    ensures OpReg32Opcode(inst) == Register(Sub, Bits32) ==> Funct7And3(inst) == 256
    ensures OpReg32Opcode(inst) == Register(Sll, Bits32) ==> Funct7And3(inst) == 1
    ensures OpReg32Opcode(inst) == Register(Srl, Bits32) ==> Funct7And3(inst) == 5
    ensures OpReg32Opcode(inst) == Register(Sra, Bits32) ==> Funct7And3(inst) == 261
    ensures OpReg32Opcode(inst) == Register(Mul, Bits32) ==> Funct7And3(inst) == 8
    ensures OpReg32Opcode(inst) == Register(Div, Bits32) ==> Funct7And3(inst) == 12
    ensures OpReg32Opcode(inst) == Register(Divu, Bits32) ==> Funct7And3(inst) == 13
    ensures OpReg32Opcode(inst) == Register(Rem, Bits32) ==> Funct7And3(inst) == 14
    ensures OpReg32Opcode(inst) == Register(Remu, Bits32) ==> Funct7And3(inst) == 15
  {
    hide Funct7And3;
  }

  lemma RegisterIff14(isa: Isa, inst: bv64)
    ensures Opcode(isa, inst) == Register(Add, Bits32) <==> Has(inst, ByFunct7(14, 0, 0))
    ensures Opcode(isa, inst) == Register(Sub, Bits32) <==> Has(inst, ByFunct7(14, 0, 32))
    ensures Opcode(isa, inst) == Register(Sll, Bits32) <==> Has(inst, ByFunct7(14, 1, 0))
    ensures Opcode(isa, inst) == Register(Srl, Bits32) <==> Has(inst, ByFunct7(14, 5, 0))
    ensures Opcode(isa, inst) == Register(Sra, Bits32) <==> Has(inst, ByFunct7(14, 5, 32))
    ensures Opcode(isa, inst) == Register(Mul, Bits32) <==> Has(inst, ByFunct7(14, 0, 1))
    ensures Opcode(isa, inst) == Register(Div, Bits32) <==> Has(inst, ByFunct7(14, 4, 1))
    ensures Opcode(isa, inst) == Register(Divu, Bits32) <==> Has(inst, ByFunct7(14, 5, 1))
    ensures Opcode(isa, inst) == Register(Rem, Bits32) <==> Has(inst, ByFunct7(14, 6, 1))
    ensures Opcode(isa, inst) == Register(Remu, Bits32) <==> Has(inst, ByFunct7(14, 7, 1))
  {
    hide Has, Opcode, Quadrant, Quadrant3, Major, Funct3, Funct7, Funct7And3, OpRegOpcode, OpReg32Opcode,
      OpReg64Opcode;
    RegisterTable14(inst);
    RegisterSpans(inst);
    RegisterPlain(isa, inst, Add, Bits32);
    JoinedFunct7(inst, 0, 0);
    Funct7Keys(inst, 14, 0, 0);
    RegisterPlain(isa, inst, Sub, Bits32);
    JoinedFunct7(inst, 32, 0);
    Funct7Keys(inst, 14, 0, 32);
    RegisterPlain(isa, inst, Sll, Bits32);
    JoinedFunct7(inst, 0, 1);
    Funct7Keys(inst, 14, 1, 0);
    RegisterPlain(isa, inst, Srl, Bits32);
    JoinedFunct7(inst, 0, 5);
    Funct7Keys(inst, 14, 5, 0);
    RegisterPlain(isa, inst, Sra, Bits32);
    JoinedFunct7(inst, 32, 5);
    Funct7Keys(inst, 14, 5, 32);
    RegisterPlain(isa, inst, Mul, Bits32);
    JoinedFunct7(inst, 1, 0);
    Funct7Keys(inst, 14, 0, 1);
    RegisterPlain(isa, inst, Div, Bits32);
    JoinedFunct7(inst, 1, 4);
    Funct7Keys(inst, 14, 4, 1);
    RegisterPlain(isa, inst, Divu, Bits32);
    JoinedFunct7(inst, 1, 5);
    Funct7Keys(inst, 14, 5, 1);
    RegisterPlain(isa, inst, Rem, Bits32);
    JoinedFunct7(inst, 1, 6);
    Funct7Keys(inst, 14, 6, 1);
    RegisterPlain(isa, inst, Remu, Bits32);
    JoinedFunct7(inst, 1, 7);
    Funct7Keys(inst, 14, 7, 1);
  }

  lemma RegisterTable30(inst: bv64)
    ensures Funct7And3(inst) == 0 ==> OpReg64Opcode(inst) == Register(Add, Bits64)
    ensures Funct7And3(inst) == 256 ==> OpReg64Opcode(inst) == Register(Sub, Bits64)
    ensures Funct7And3(inst) == 1 ==> OpReg64Opcode(inst) == Register(Sll, Bits64)
    ensures Funct7And3(inst) == 5 ==> OpReg64Opcode(inst) == Register(Srl, Bits64)
    ensures Funct7And3(inst) == 261 ==> OpReg64Opcode(inst) == Register(Sra, Bits64)
    ensures Funct7And3(inst) == 8 ==> OpReg64Opcode(inst) == Register(Mul, Bits64)
    ensures Funct7And3(inst) == 12 ==> OpReg64Opcode(inst) == Register(Div, Bits64)
    ensures Funct7And3(inst) == 13 ==> OpReg64Opcode(inst) == Register(Divu, Bits64)
    ensures Funct7And3(inst) == 14 ==> OpReg64Opcode(inst) == Register(Rem, Bits64)
    ensures Funct7And3(inst) == 15 ==> OpReg64Opcode(inst) == Register(Remu, Bits64)
    ensures OpReg64Opcode(inst) == Register(Add, Bits64) ==> Funct7And3(inst) == 0
    ensures OpReg64Opcode(inst) == Register(Sub, Bits64) ==> Funct7And3(inst) == 256
    ensures OpReg64Opcode(inst) == Register(Sll, Bits64) ==> Funct7And3(inst) == 1
    ensures OpReg64Opcode(inst) == Register(Srl, Bits64) ==> Funct7And3(inst) == 5
    ensures OpReg64Opcode(inst) == Register(Sra, Bits64) ==> Funct7And3(inst) == 261
    ensures OpReg64Opcode(inst) == Register(Mul, Bits64) ==> Funct7And3(inst) == 8
    ensures OpReg64Opcode(inst) == Register(Div, Bits64) ==> Funct7And3(inst) == 12
    ensures OpReg64Opcode(inst) == Register(Divu, Bits64) ==> Funct7And3(inst) == 13
    ensures OpReg64Opcode(inst) == Register(Rem, Bits64) ==> Funct7And3(inst) == 14
    ensures OpReg64Opcode(inst) == Register(Remu, Bits64) ==> Funct7And3(inst) == 15
  {
    hide Funct7And3;
  }

  lemma RegisterIff30(isa: Isa, inst: bv64)
    ensures Opcode(isa, inst) == Register(Add, Bits64) <==> Has(inst, ByFunct7(30, 0, 0))
    ensures Opcode(isa, inst) == Register(Sub, Bits64) <==> Has(inst, ByFunct7(30, 0, 32))
    ensures Opcode(isa, inst) == Register(Sll, Bits64) <==> Has(inst, ByFunct7(30, 1, 0))
    ensures Opcode(isa, inst) == Register(Srl, Bits64) <==> Has(inst, ByFunct7(30, 5, 0))
    ensures Opcode(isa, inst) == Register(Sra, Bits64) <==> Has(inst, ByFunct7(30, 5, 32))
    ensures Opcode(isa, inst) == Register(Mul, Bits64) <==> Has(inst, ByFunct7(30, 0, 1))
    ensures Opcode(isa, inst) == Register(Div, Bits64) <==> Has(inst, ByFunct7(30, 4, 1))
    ensures Opcode(isa, inst) == Register(Divu, Bits64) <==> Has(inst, ByFunct7(30, 5, 1))
    ensures Opcode(isa, inst) == Register(Rem, Bits64) <==> Has(inst, ByFunct7(30, 6, 1))
    ensures Opcode(isa, inst) == Register(Remu, Bits64) <==> Has(inst, ByFunct7(30, 7, 1))
  {
    hide Has, Opcode, Quadrant, Quadrant3, Major, Funct3, Funct7, Funct7And3, OpRegOpcode, OpReg32Opcode,
      OpReg64Opcode;
    RegisterTable30(inst);
    RegisterSpans(inst);
    RegisterPlain(isa, inst, Add, Bits64);
    JoinedFunct7(inst, 0, 0);
    Funct7Keys(inst, 30, 0, 0);
    RegisterPlain(isa, inst, Sub, Bits64);
    JoinedFunct7(inst, 32, 0);
    Funct7Keys(inst, 30, 0, 32);
    RegisterPlain(isa, inst, Sll, Bits64);
    JoinedFunct7(inst, 0, 1);
    Funct7Keys(inst, 30, 1, 0);
    RegisterPlain(isa, inst, Srl, Bits64);
    JoinedFunct7(inst, 0, 5);
    Funct7Keys(inst, 30, 5, 0);
    RegisterPlain(isa, inst, Sra, Bits64);
    JoinedFunct7(inst, 32, 5);
    Funct7Keys(inst, 30, 5, 32);
    RegisterPlain(isa, inst, Mul, Bits64);
    JoinedFunct7(inst, 1, 0);
    Funct7Keys(inst, 30, 0, 1);
    RegisterPlain(isa, inst, Div, Bits64);
    JoinedFunct7(inst, 1, 4);
    Funct7Keys(inst, 30, 4, 1);
    RegisterPlain(isa, inst, Divu, Bits64);
    JoinedFunct7(inst, 1, 5);
    Funct7Keys(inst, 30, 5, 1);
    RegisterPlain(isa, inst, Rem, Bits64);
    JoinedFunct7(inst, 1, 6);
    Funct7Keys(inst, 30, 6, 1);
    RegisterPlain(isa, inst, Remu, Bits64);
    JoinedFunct7(inst, 1, 7);
    Funct7Keys(inst, 30, 7, 1);
  }

  lemma FenceIff(isa: Isa, inst: bv64)
    ensures Opcode(isa, inst) == Fence <==> Has(inst, ByFunct3(3, 0))
    ensures Opcode(isa, inst) == System(FenceI) <==> Has(inst, ByFunct3(3, 1))
  {
    hide Has, Opcode, Quadrant, Major, Funct3, LoadOpcode, LoadFpOpcode, OpImmOpcode, OpImm32Opcode, StoreOpcode,
      StoreFpOpcode, AtomicOpcode, OpRegOpcode, OpReg32Opcode, MaddOpcode, MsubOpcode, NmsubOpcode, NmaddOpcode,
      OpFpOpcode, OpImm64Opcode, BranchOpcode, JumpRegOpcode, SystemOpcode, OpReg64Opcode;
    PlainIff(isa, inst, Fence);
    PlainIff(isa, inst, System(FenceI));
    Funct3Keys(inst, 3, 0);
    Funct3Keys(inst, 3, 1);
  }

  lemma SystemKeys(inst: bv64)
    ensures Part(inst, 0xFFFF_FFFF) == 0x0000_0073 <==>
      Quadrant(inst) == 3 && Major(inst) == 28 && Funct3(inst) == 0 && SystemKey(inst) == 0 &&
      Rs2Field(inst) == 0 && Rs1Field(inst) == 0
    ensures Part(inst, 0xFFFF_FFFF) == 0x0010_0073 <==>
      Quadrant(inst) == 3 && Major(inst) == 28 && Funct3(inst) == 0 && SystemKey(inst) == 0 &&
      Rs2Field(inst) == 1 && Rs1Field(inst) == 0
    ensures Part(inst, 0xFFFF_FFFF) == 0x0020_0073 <==>
      Quadrant(inst) == 3 && Major(inst) == 28 && Funct3(inst) == 0 && SystemKey(inst) == 0 &&
      Rs2Field(inst) == 2 && Rs1Field(inst) == 0
    ensures Part(inst, 0xFFFF_FFFF) == 0x1020_0073 <==>
      Quadrant(inst) == 3 && Major(inst) == 28 && Funct3(inst) == 0 && SystemKey(inst) == 256 &&
      Rs2Field(inst) == 2 && Rs1Field(inst) == 0
    ensures Part(inst, 0xFFFF_FFFF) == 0x1050_0073 <==>
      Quadrant(inst) == 3 && Major(inst) == 28 && Funct3(inst) == 0 && SystemKey(inst) == 256 &&
      Rs2Field(inst) == 5 && Rs1Field(inst) == 0
    ensures Part(inst, 0xFFFF_FFFF) == 0x2020_0073 <==>
      Quadrant(inst) == 3 && Major(inst) == 28 && Funct3(inst) == 0 && SystemKey(inst) == 512 &&
      Rs2Field(inst) == 2 && Rs1Field(inst) == 0
    ensures Part(inst, 0xFFFF_FFFF) == 0x3020_0073 <==>
      Quadrant(inst) == 3 && Major(inst) == 28 && Funct3(inst) == 0 && SystemKey(inst) == 768 &&
      Rs2Field(inst) == 2 && Rs1Field(inst) == 0
    ensures Part(inst, 0xFFFF_FFFF) == 0x7B20_0073 <==>
      Quadrant(inst) == 3 && Major(inst) == 28 && Funct3(inst) == 0 && SystemKey(inst) == 1952 &&
      Rs2Field(inst) == 18 && Rs1Field(inst) == 0
    ensures Part(inst, 0xFFF0_7FFF) == 0x1040_0073 <==>
      Quadrant(inst) == 3 && Major(inst) == 28 && Funct3(inst) == 0 && SystemKey(inst) == 256 && Rs2Field(inst) == 4
    ensures Part(inst, 0xFE00_7FFF) == 0x1200_0073 <==>
      Quadrant(inst) == 3 && Major(inst) == 28 && Funct3(inst) == 0 && SystemKey(inst) == 288
  {}

  lemma JoinedSources(inst: bv64, rs2: bv64)
    requires rs2 < 32
    ensures Rs2AndRs1(inst) == rs2 << 5 <==> Rs2Field(inst) == rs2 && Rs1Field(inst) == 0
  {}

  lemma SystemPlain(isa: Isa, inst: bv64, op: Op)
    requires op.Vm? || (op.System? && op != System(FenceI))
    ensures Opcode(isa, inst) == op <==> Quadrant(inst) == 3 && Major(inst) == 28 && SystemOpcode(inst) == op
  {
    hide Opcode, Quadrant, Major, LoadOpcode, LoadFpOpcode, MiscMemOpcode, OpImmOpcode, OpImm32Opcode, StoreOpcode,
      StoreFpOpcode, AtomicOpcode, OpRegOpcode, OpReg32Opcode, MaddOpcode, MsubOpcode, NmsubOpcode, NmaddOpcode,
      OpFpOpcode, OpImm64Opcode, BranchOpcode, JumpRegOpcode, SystemOpcode, OpReg64Opcode;
    PlainIff(isa, inst, op);
  }

  lemma SystemRows(inst: bv64)
    ensures SystemOpcode(inst) == System(Ecall) <==>
      Funct3(inst) == 0 && SystemKey(inst) == 0 && Rs2Field(inst) == 0 && Rs1Field(inst) == 0
    ensures SystemOpcode(inst) == System(Ebreak) <==>
      Funct3(inst) == 0 && SystemKey(inst) == 0 && Rs2Field(inst) == 1 && Rs1Field(inst) == 0
    ensures SystemOpcode(inst) == System(Uret) <==>
      Funct3(inst) == 0 && SystemKey(inst) == 0 && Rs2Field(inst) == 2 && Rs1Field(inst) == 0
    ensures SystemOpcode(inst) == System(Sret) <==>
      Funct3(inst) == 0 && SystemKey(inst) == 256 && Rs2Field(inst) == 2 && Rs1Field(inst) == 0
    ensures SystemOpcode(inst) == System(Wfi) <==>
      Funct3(inst) == 0 && SystemKey(inst) == 256 && Rs2Field(inst) == 5 && Rs1Field(inst) == 0
    ensures SystemOpcode(inst) == System(Hret) <==>
      Funct3(inst) == 0 && SystemKey(inst) == 512 && Rs2Field(inst) == 2 && Rs1Field(inst) == 0
    ensures SystemOpcode(inst) == System(Mret) <==>
      Funct3(inst) == 0 && SystemKey(inst) == 768 && Rs2Field(inst) == 2 && Rs1Field(inst) == 0
    ensures SystemOpcode(inst) == System(Dret) <==>
      Funct3(inst) == 0 && SystemKey(inst) == 1952 && Rs2Field(inst) == 18 && Rs1Field(inst) == 0
    ensures SystemOpcode(inst) == Vm(SfenceVm) <==> Funct3(inst) == 0 && SystemKey(inst) == 256 && Rs2Field(inst) == 4
    ensures SystemOpcode(inst) == Vm(SfenceVma) <==> Funct3(inst) == 0 && SystemKey(inst) == 288
  {
    hide Funct3, SystemKey, Rs2AndRs1, Rs2Field, Rs1Field;
    JoinedSources(inst, 0);
    JoinedSources(inst, 1);
    JoinedSources(inst, 2);
    JoinedSources(inst, 18);
  }

  lemma HasWord(inst: bv64, mask: bv64, word: bv64)
    ensures Has(inst, ByWord(mask, word)) <==> Part(inst, mask) == word
  {}

  lemma SystemIff(isa: Isa, inst: bv64)
    ensures Opcode(isa, inst) == System(Ecall) <==> Has(inst, ByWord(0xFFFF_FFFF, 0x0000_0073))
    ensures Opcode(isa, inst) == System(Ebreak) <==> Has(inst, ByWord(0xFFFF_FFFF, 0x0010_0073))
    ensures Opcode(isa, inst) == System(Uret) <==> Has(inst, ByWord(0xFFFF_FFFF, 0x0020_0073))
    ensures Opcode(isa, inst) == System(Sret) <==> Has(inst, ByWord(0xFFFF_FFFF, 0x1020_0073))
    ensures Opcode(isa, inst) == System(Wfi) <==> Has(inst, ByWord(0xFFFF_FFFF, 0x1050_0073))
    ensures Opcode(isa, inst) == System(Hret) <==> Has(inst, ByWord(0xFFFF_FFFF, 0x2020_0073))
    ensures Opcode(isa, inst) == System(Mret) <==> Has(inst, ByWord(0xFFFF_FFFF, 0x3020_0073))
    ensures Opcode(isa, inst) == System(Dret) <==> Has(inst, ByWord(0xFFFF_FFFF, 0x7B20_0073))
    ensures Opcode(isa, inst) == Vm(SfenceVm) <==> Has(inst, ByWord(0xFFF0_7FFF, 0x1040_0073))
    ensures Opcode(isa, inst) == Vm(SfenceVma) <==> Has(inst, ByWord(0xFE00_7FFF, 0x1200_0073))
  {
    hide Has, Part, Opcode, Quadrant, Quadrant3, Major, SystemOpcode, Funct3, SystemKey, Rs2AndRs1, Rs2Field,
      Rs1Field;
    SystemPlain(isa, inst, System(Ecall));
    HasWord(inst, 0xFFFF_FFFF, 0x0000_0073);
    SystemPlain(isa, inst, System(Ebreak));
    HasWord(inst, 0xFFFF_FFFF, 0x0010_0073);
    SystemPlain(isa, inst, System(Uret));
    HasWord(inst, 0xFFFF_FFFF, 0x0020_0073);
    SystemPlain(isa, inst, System(Sret));
    HasWord(inst, 0xFFFF_FFFF, 0x1020_0073);
    SystemPlain(isa, inst, System(Wfi));
    HasWord(inst, 0xFFFF_FFFF, 0x1050_0073);
    SystemPlain(isa, inst, System(Hret));
    HasWord(inst, 0xFFFF_FFFF, 0x2020_0073);
    SystemPlain(isa, inst, System(Mret));
    HasWord(inst, 0xFFFF_FFFF, 0x3020_0073);
    SystemPlain(isa, inst, System(Dret));
    HasWord(inst, 0xFFFF_FFFF, 0x7B20_0073);
    SystemPlain(isa, inst, Vm(SfenceVm));
    HasWord(inst, 0xFFF0_7FFF, 0x1040_0073);
    SystemPlain(isa, inst, Vm(SfenceVma));
    HasWord(inst, 0xFE00_7FFF, 0x1200_0073);
    SystemRows(inst);
    SystemKeys(inst);
  }

  lemma AmoPlain(isa: Isa, inst: bv64, a: AmoOp, w: Width)
    ensures Opcode(isa, inst) == Amo(a, w) <==>
      Quadrant(inst) == 3 && Major(inst) == 11 && AtomicOpcode(inst) == Amo(a, w)
  {
    hide Opcode, Quadrant, Major, LoadOpcode, LoadFpOpcode, MiscMemOpcode, OpImmOpcode, OpImm32Opcode, StoreOpcode,
      StoreFpOpcode, AtomicOpcode, OpRegOpcode, OpReg32Opcode, MaddOpcode, MsubOpcode, NmsubOpcode, NmaddOpcode,
      OpFpOpcode, OpImm64Opcode, BranchOpcode, JumpRegOpcode, SystemOpcode, OpReg64Opcode;
    PlainIff(isa, inst, Amo(a, w));
  }

  lemma AmoTableW(inst: bv64)
    ensures Funct5And3(inst) == 2 ==> AtomicOpcode(inst) == Amo(AmoAdd, W)
    ensures Funct5And3(inst) == 10 ==> AtomicOpcode(inst) == Amo(AmoSwap, W)
    ensures Funct5And3(inst) == 18 ==> AtomicOpcode(inst) == if Rs2Field(inst) == 0 then Amo(Lr, W) else Illegal
    ensures Funct5And3(inst) == 26 ==> AtomicOpcode(inst) == Amo(Sc, W)
    ensures Funct5And3(inst) == 34 ==> AtomicOpcode(inst) == Amo(AmoXor, W)
    ensures Funct5And3(inst) == 66 ==> AtomicOpcode(inst) == Amo(AmoOr, W)
    ensures Funct5And3(inst) == 98 ==> AtomicOpcode(inst) == Amo(AmoAnd, W)
    ensures Funct5And3(inst) == 130 ==> AtomicOpcode(inst) == Amo(AmoMin, W)
    ensures Funct5And3(inst) == 162 ==> AtomicOpcode(inst) == Amo(AmoMax, W)
    ensures Funct5And3(inst) == 194 ==> AtomicOpcode(inst) == Amo(AmoMinu, W)
    ensures Funct5And3(inst) == 226 ==> AtomicOpcode(inst) == Amo(AmoMaxu, W)
  {
    hide Funct5And3, Rs2Field;
  }

  lemma AmoBackW(inst: bv64)
    ensures AtomicOpcode(inst) == Amo(AmoAdd, W) ==> Funct5And3(inst) == 2
    ensures AtomicOpcode(inst) == Amo(AmoSwap, W) ==> Funct5And3(inst) == 10
    ensures AtomicOpcode(inst) == Amo(Lr, W) ==> Funct5And3(inst) == 18 && Rs2Field(inst) == 0
    ensures AtomicOpcode(inst) == Amo(Sc, W) ==> Funct5And3(inst) == 26
    ensures AtomicOpcode(inst) == Amo(AmoXor, W) ==> Funct5And3(inst) == 34
    ensures AtomicOpcode(inst) == Amo(AmoOr, W) ==> Funct5And3(inst) == 66
    ensures AtomicOpcode(inst) == Amo(AmoAnd, W) ==> Funct5And3(inst) == 98
    ensures AtomicOpcode(inst) == Amo(AmoMin, W) ==> Funct5And3(inst) == 130
    ensures AtomicOpcode(inst) == Amo(AmoMax, W) ==> Funct5And3(inst) == 162
    ensures AtomicOpcode(inst) == Amo(AmoMinu, W) ==> Funct5And3(inst) == 194
    ensures AtomicOpcode(inst) == Amo(AmoMaxu, W) ==> Funct5And3(inst) == 226
  {
    hide Funct5And3, Rs2Field;
  }

  lemma AmoIffW(isa: Isa, inst: bv64)
    ensures Opcode(isa, inst) == Amo(AmoAdd, W) <==> Has(inst, ByFunct5(11, 2, 0))
    ensures Opcode(isa, inst) == Amo(AmoSwap, W) <==> Has(inst, ByFunct5(11, 2, 1))
    ensures Opcode(isa, inst) == Amo(Lr, W) <==> Has(inst, ByFunct5NoRs2(11, 2, 2))
    ensures Opcode(isa, inst) == Amo(Sc, W) <==> Has(inst, ByFunct5(11, 2, 3))
    ensures Opcode(isa, inst) == Amo(AmoXor, W) <==> Has(inst, ByFunct5(11, 2, 4))
    ensures Opcode(isa, inst) == Amo(AmoOr, W) <==> Has(inst, ByFunct5(11, 2, 8))
    ensures Opcode(isa, inst) == Amo(AmoAnd, W) <==> Has(inst, ByFunct5(11, 2, 12))
    ensures Opcode(isa, inst) == Amo(AmoMin, W) <==> Has(inst, ByFunct5(11, 2, 16))
    ensures Opcode(isa, inst) == Amo(AmoMax, W) <==> Has(inst, ByFunct5(11, 2, 20))
    ensures Opcode(isa, inst) == Amo(AmoMinu, W) <==> Has(inst, ByFunct5(11, 2, 24))
    ensures Opcode(isa, inst) == Amo(AmoMaxu, W) <==> Has(inst, ByFunct5(11, 2, 28))
  {
    hide Has, Opcode, Quadrant, Quadrant3, Major, Funct3, Funct5, Funct5And3, Rs2Field, AtomicOpcode;
    AmoTableW(inst);
    AmoBackW(inst);
    AmoPlain(isa, inst, AmoAdd, W);
    JoinedFunct5(inst, 0, 2);
    Funct5Keys(inst, 11, 2, 0);
    AmoPlain(isa, inst, AmoSwap, W);
    JoinedFunct5(inst, 1, 2);
    Funct5Keys(inst, 11, 2, 1);
    AmoPlain(isa, inst, Lr, W);
    JoinedFunct5(inst, 2, 2);
    Funct5NoRs2Keys(inst, 11, 2, 2);
    AmoPlain(isa, inst, Sc, W);
    JoinedFunct5(inst, 3, 2);
    Funct5Keys(inst, 11, 2, 3);
    AmoPlain(isa, inst, AmoXor, W);
    JoinedFunct5(inst, 4, 2);
    Funct5Keys(inst, 11, 2, 4);
    AmoPlain(isa, inst, AmoOr, W);
    JoinedFunct5(inst, 8, 2);
    Funct5Keys(inst, 11, 2, 8);
    AmoPlain(isa, inst, AmoAnd, W);
    JoinedFunct5(inst, 12, 2);
    Funct5Keys(inst, 11, 2, 12);
    AmoPlain(isa, inst, AmoMin, W);
    JoinedFunct5(inst, 16, 2);
    Funct5Keys(inst, 11, 2, 16);
    AmoPlain(isa, inst, AmoMax, W);
    JoinedFunct5(inst, 20, 2);
    Funct5Keys(inst, 11, 2, 20);
    AmoPlain(isa, inst, AmoMinu, W);
    JoinedFunct5(inst, 24, 2);
    Funct5Keys(inst, 11, 2, 24);
    AmoPlain(isa, inst, AmoMaxu, W);
    JoinedFunct5(inst, 28, 2);
    Funct5Keys(inst, 11, 2, 28);
  }

  lemma AmoTableD(inst: bv64)
    ensures Funct5And3(inst) == 3 ==> AtomicOpcode(inst) == Amo(AmoAdd, D)
    ensures Funct5And3(inst) == 11 ==> AtomicOpcode(inst) == Amo(AmoSwap, D)
    ensures Funct5And3(inst) == 19 ==> AtomicOpcode(inst) == if Rs2Field(inst) == 0 then Amo(Lr, D) else Illegal
    ensures Funct5And3(inst) == 27 ==> AtomicOpcode(inst) == Amo(Sc, D)
    ensures Funct5And3(inst) == 35 ==> AtomicOpcode(inst) == Amo(AmoXor, D)
    ensures Funct5And3(inst) == 67 ==> AtomicOpcode(inst) == Amo(AmoOr, D)
    ensures Funct5And3(inst) == 99 ==> AtomicOpcode(inst) == Amo(AmoAnd, D)
    ensures Funct5And3(inst) == 131 ==> AtomicOpcode(inst) == Amo(AmoMin, D)
    ensures Funct5And3(inst) == 163 ==> AtomicOpcode(inst) == Amo(AmoMax, D)
    ensures Funct5And3(inst) == 195 ==> AtomicOpcode(inst) == Amo(AmoMinu, D)
    ensures Funct5And3(inst) == 227 ==> AtomicOpcode(inst) == Amo(AmoMaxu, D)
  {
    hide Funct5And3, Rs2Field;
  }

  lemma AmoBackD(inst: bv64)
    ensures AtomicOpcode(inst) == Amo(AmoAdd, D) ==> Funct5And3(inst) == 3
    ensures AtomicOpcode(inst) == Amo(AmoSwap, D) ==> Funct5And3(inst) == 11
    ensures AtomicOpcode(inst) == Amo(Lr, D) ==> Funct5And3(inst) == 19 && Rs2Field(inst) == 0
    ensures AtomicOpcode(inst) == Amo(Sc, D) ==> Funct5And3(inst) == 27
    ensures AtomicOpcode(inst) == Amo(AmoXor, D) ==> Funct5And3(inst) == 35
    ensures AtomicOpcode(inst) == Amo(AmoOr, D) ==> Funct5And3(inst) == 67
    ensures AtomicOpcode(inst) == Amo(AmoAnd, D) ==> Funct5And3(inst) == 99
    ensures AtomicOpcode(inst) == Amo(AmoMin, D) ==> Funct5And3(inst) == 131
    ensures AtomicOpcode(inst) == Amo(AmoMax, D) ==> Funct5And3(inst) == 163
    ensures AtomicOpcode(inst) == Amo(AmoMinu, D) ==> Funct5And3(inst) == 195
    ensures AtomicOpcode(inst) == Amo(AmoMaxu, D) ==> Funct5And3(inst) == 227
  {
    hide Funct5And3, Rs2Field;
  }

  lemma AmoIffD(isa: Isa, inst: bv64)
    ensures Opcode(isa, inst) == Amo(AmoAdd, D) <==> Has(inst, ByFunct5(11, 3, 0))
    ensures Opcode(isa, inst) == Amo(AmoSwap, D) <==> Has(inst, ByFunct5(11, 3, 1))
    ensures Opcode(isa, inst) == Amo(Lr, D) <==> Has(inst, ByFunct5NoRs2(11, 3, 2))
    ensures Opcode(isa, inst) == Amo(Sc, D) <==> Has(inst, ByFunct5(11, 3, 3))
    ensures Opcode(isa, inst) == Amo(AmoXor, D) <==> Has(inst, ByFunct5(11, 3, 4))
    ensures Opcode(isa, inst) == Amo(AmoOr, D) <==> Has(inst, ByFunct5(11, 3, 8))
    ensures Opcode(isa, inst) == Amo(AmoAnd, D) <==> Has(inst, ByFunct5(11, 3, 12))
    ensures Opcode(isa, inst) == Amo(AmoMin, D) <==> Has(inst, ByFunct5(11, 3, 16))
    ensures Opcode(isa, inst) == Amo(AmoMax, D) <==> Has(inst, ByFunct5(11, 3, 20))
    ensures Opcode(isa, inst) == Amo(AmoMinu, D) <==> Has(inst, ByFunct5(11, 3, 24))
    ensures Opcode(isa, inst) == Amo(AmoMaxu, D) <==> Has(inst, ByFunct5(11, 3, 28))
  {
    hide Has, Opcode, Quadrant, Quadrant3, Major, Funct3, Funct5, Funct5And3, Rs2Field, AtomicOpcode;
    AmoTableD(inst);
    AmoBackD(inst);
    AmoPlain(isa, inst, AmoAdd, D);
    JoinedFunct5(inst, 0, 3);
    Funct5Keys(inst, 11, 3, 0);
    AmoPlain(isa, inst, AmoSwap, D);
    JoinedFunct5(inst, 1, 3);
    Funct5Keys(inst, 11, 3, 1);
    AmoPlain(isa, inst, Lr, D);
    JoinedFunct5(inst, 2, 3);
    Funct5NoRs2Keys(inst, 11, 3, 2);
    AmoPlain(isa, inst, Sc, D);
    JoinedFunct5(inst, 3, 3);
    Funct5Keys(inst, 11, 3, 3);
    AmoPlain(isa, inst, AmoXor, D);
    JoinedFunct5(inst, 4, 3);
    Funct5Keys(inst, 11, 3, 4);
    AmoPlain(isa, inst, AmoOr, D);
    JoinedFunct5(inst, 8, 3);
    Funct5Keys(inst, 11, 3, 8);
    AmoPlain(isa, inst, AmoAnd, D);
    JoinedFunct5(inst, 12, 3);
    Funct5Keys(inst, 11, 3, 12);
    AmoPlain(isa, inst, AmoMin, D);
    JoinedFunct5(inst, 16, 3);
    Funct5Keys(inst, 11, 3, 16);
    AmoPlain(isa, inst, AmoMax, D);
    JoinedFunct5(inst, 20, 3);
    Funct5Keys(inst, 11, 3, 20);
    AmoPlain(isa, inst, AmoMinu, D);
    JoinedFunct5(inst, 24, 3);
    Funct5Keys(inst, 11, 3, 24);
    AmoPlain(isa, inst, AmoMaxu, D);
    JoinedFunct5(inst, 28, 3);
    Funct5Keys(inst, 11, 3, 28);
  }

  lemma AmoTableQ(inst: bv64)
    ensures Funct5And3(inst) == 4 ==> AtomicOpcode(inst) == Amo(AmoAdd, Q)
    ensures Funct5And3(inst) == 12 ==> AtomicOpcode(inst) == Amo(AmoSwap, Q)
    ensures Funct5And3(inst) == 20 ==> AtomicOpcode(inst) == if Rs2Field(inst) == 0 then Amo(Lr, Q) else Illegal
    ensures Funct5And3(inst) == 28 ==> AtomicOpcode(inst) == Amo(Sc, Q)
    ensures Funct5And3(inst) == 36 ==> AtomicOpcode(inst) == Amo(AmoXor, Q)
    ensures Funct5And3(inst) == 68 ==> AtomicOpcode(inst) == Amo(AmoOr, Q)
    ensures Funct5And3(inst) == 100 ==> AtomicOpcode(inst) == Amo(AmoAnd, Q)
    ensures Funct5And3(inst) == 132 ==> AtomicOpcode(inst) == Amo(AmoMin, Q)
    ensures Funct5And3(inst) == 164 ==> AtomicOpcode(inst) == Amo(AmoMax, Q)
    ensures Funct5And3(inst) == 196 ==> AtomicOpcode(inst) == Amo(AmoMinu, Q)
    ensures Funct5And3(inst) == 228 ==> AtomicOpcode(inst) == Amo(AmoMaxu, Q)
  {
    hide Funct5And3, Rs2Field;
  }

  lemma AmoBackQ(inst: bv64)
    ensures AtomicOpcode(inst) == Amo(AmoAdd, Q) ==> Funct5And3(inst) == 4
    ensures AtomicOpcode(inst) == Amo(AmoSwap, Q) ==> Funct5And3(inst) == 12
    ensures AtomicOpcode(inst) == Amo(Lr, Q) ==> Funct5And3(inst) == 20 && Rs2Field(inst) == 0
    ensures AtomicOpcode(inst) == Amo(Sc, Q) ==> Funct5And3(inst) == 28
    ensures AtomicOpcode(inst) == Amo(AmoXor, Q) ==> Funct5And3(inst) == 36
    ensures AtomicOpcode(inst) == Amo(AmoOr, Q) ==> Funct5And3(inst) == 68
    ensures AtomicOpcode(inst) == Amo(AmoAnd, Q) ==> Funct5And3(inst) == 100
    ensures AtomicOpcode(inst) == Amo(AmoMin, Q) ==> Funct5And3(inst) == 132
    ensures AtomicOpcode(inst) == Amo(AmoMax, Q) ==> Funct5And3(inst) == 164
    ensures AtomicOpcode(inst) == Amo(AmoMinu, Q) ==> Funct5And3(inst) == 196
    ensures AtomicOpcode(inst) == Amo(AmoMaxu, Q) ==> Funct5And3(inst) == 228
  {
    hide Funct5And3, Rs2Field;
  }

  lemma AmoIffQ(isa: Isa, inst: bv64)
    ensures Opcode(isa, inst) == Amo(AmoAdd, Q) <==> Has(inst, ByFunct5(11, 4, 0))
    ensures Opcode(isa, inst) == Amo(AmoSwap, Q) <==> Has(inst, ByFunct5(11, 4, 1))
    ensures Opcode(isa, inst) == Amo(Lr, Q) <==> Has(inst, ByFunct5NoRs2(11, 4, 2))
    ensures Opcode(isa, inst) == Amo(Sc, Q) <==> Has(inst, ByFunct5(11, 4, 3))
    ensures Opcode(isa, inst) == Amo(AmoXor, Q) <==> Has(inst, ByFunct5(11, 4, 4))
    ensures Opcode(isa, inst) == Amo(AmoOr, Q) <==> Has(inst, ByFunct5(11, 4, 8))
    ensures Opcode(isa, inst) == Amo(AmoAnd, Q) <==> Has(inst, ByFunct5(11, 4, 12))
    ensures Opcode(isa, inst) == Amo(AmoMin, Q) <==> Has(inst, ByFunct5(11, 4, 16))
    ensures Opcode(isa, inst) == Amo(AmoMax, Q) <==> Has(inst, ByFunct5(11, 4, 20))
    ensures Opcode(isa, inst) == Amo(AmoMinu, Q) <==> Has(inst, ByFunct5(11, 4, 24))
    ensures Opcode(isa, inst) == Amo(AmoMaxu, Q) <==> Has(inst, ByFunct5(11, 4, 28))
  {
    hide Has, Opcode, Quadrant, Quadrant3, Major, Funct3, Funct5, Funct5And3, Rs2Field, AtomicOpcode;
    AmoTableQ(inst);
    AmoBackQ(inst);
    AmoPlain(isa, inst, AmoAdd, Q);
    JoinedFunct5(inst, 0, 4);
    Funct5Keys(inst, 11, 4, 0);
    AmoPlain(isa, inst, AmoSwap, Q);
    JoinedFunct5(inst, 1, 4);
    Funct5Keys(inst, 11, 4, 1);
    AmoPlain(isa, inst, Lr, Q);
    JoinedFunct5(inst, 2, 4);
    Funct5NoRs2Keys(inst, 11, 4, 2);
    AmoPlain(isa, inst, Sc, Q);
    JoinedFunct5(inst, 3, 4);
    Funct5Keys(inst, 11, 4, 3);
    AmoPlain(isa, inst, AmoXor, Q);
    JoinedFunct5(inst, 4, 4);
    Funct5Keys(inst, 11, 4, 4);
    AmoPlain(isa, inst, AmoOr, Q);
    JoinedFunct5(inst, 8, 4);
    Funct5Keys(inst, 11, 4, 8);
    AmoPlain(isa, inst, AmoAnd, Q);
    JoinedFunct5(inst, 12, 4);
    Funct5Keys(inst, 11, 4, 12);
    AmoPlain(isa, inst, AmoMin, Q);
    JoinedFunct5(inst, 16, 4);
    Funct5Keys(inst, 11, 4, 16);
    AmoPlain(isa, inst, AmoMax, Q);
    JoinedFunct5(inst, 20, 4);
    Funct5Keys(inst, 11, 4, 20);
    AmoPlain(isa, inst, AmoMinu, Q);
    JoinedFunct5(inst, 24, 4);
    Funct5Keys(inst, 11, 4, 24);
    AmoPlain(isa, inst, AmoMaxu, Q);
    JoinedFunct5(inst, 28, 4);
    Funct5Keys(inst, 11, 4, 28);
  }

  lemma FusedPlain(isa: Isa, inst: bv64, f: FpOp, p: Precision)
    requires IsFused(f)
    ensures Opcode(isa, inst) == Fp(f, p) <==>
      Quadrant(inst) == 3 && ((Major(inst) == 16 && MaddOpcode(inst) == Fp(f, p)) ||
      (Major(inst) == 17 && MsubOpcode(inst) == Fp(f, p)) || (Major(inst) == 18 && NmsubOpcode(inst) == Fp(f, p)) ||
      (Major(inst) == 19 && NmaddOpcode(inst) == Fp(f, p)))
  {
    hide Opcode, Quadrant, Major, LoadOpcode, LoadFpOpcode, MiscMemOpcode, OpImmOpcode, OpImm32Opcode, StoreOpcode,
      StoreFpOpcode, AtomicOpcode, OpRegOpcode, OpReg32Opcode, MaddOpcode, MsubOpcode, NmsubOpcode, NmaddOpcode,
      OpFpOpcode, OpImm64Opcode, BranchOpcode, JumpRegOpcode, SystemOpcode, OpReg64Opcode;
    PlainIff(isa, inst, Fp(f, p));
  }

  lemma FpPlain(isa: Isa, inst: bv64, f: FpOp, p: Precision)
    requires !IsFused(f)
    ensures Opcode(isa, inst) == Fp(f, p) <==> Quadrant(inst) == 3 && Major(inst) == 20 && OpFpOpcode(inst) == Fp(f, p)
  {
    hide Opcode, Quadrant, Major, LoadOpcode, LoadFpOpcode, MiscMemOpcode, OpImmOpcode, OpImm32Opcode, StoreOpcode,
      StoreFpOpcode, AtomicOpcode, OpRegOpcode, OpReg32Opcode, MaddOpcode, MsubOpcode, NmsubOpcode, NmaddOpcode,
      OpFpOpcode, OpImm64Opcode, BranchOpcode, JumpRegOpcode, SystemOpcode, OpReg64Opcode;
    PlainIff(isa, inst, Fp(f, p));
  }

  lemma FusedIff(isa: Isa, inst: bv64)
    ensures Opcode(isa, inst) == Fp(Fmadd, Single) <==> Has(inst, ByFormat(16, 0))
    ensures Opcode(isa, inst) == Fp(Fmadd, Double) <==> Has(inst, ByFormat(16, 1))
    ensures Opcode(isa, inst) == Fp(Fmadd, Quad) <==> Has(inst, ByFormat(16, 3))
    ensures Opcode(isa, inst) == Fp(Fmsub, Single) <==> Has(inst, ByFormat(17, 0))
    ensures Opcode(isa, inst) == Fp(Fmsub, Double) <==> Has(inst, ByFormat(17, 1))
    ensures Opcode(isa, inst) == Fp(Fmsub, Quad) <==> Has(inst, ByFormat(17, 3))
    ensures Opcode(isa, inst) == Fp(Fnmsub, Single) <==> Has(inst, ByFormat(18, 0))
    ensures Opcode(isa, inst) == Fp(Fnmsub, Double) <==> Has(inst, ByFormat(18, 1))
    ensures Opcode(isa, inst) == Fp(Fnmsub, Quad) <==> Has(inst, ByFormat(18, 3))
    ensures Opcode(isa, inst) == Fp(Fnmadd, Single) <==> Has(inst, ByFormat(19, 0))
    ensures Opcode(isa, inst) == Fp(Fnmadd, Double) <==> Has(inst, ByFormat(19, 1))
    ensures Opcode(isa, inst) == Fp(Fnmadd, Quad) <==> Has(inst, ByFormat(19, 3))
  {
    hide Has, Opcode, Quadrant, Quadrant3, Major, FpFormat, OpFpOpcode;
    FusedPlain(isa, inst, Fmadd, Single);
    FormatKeys(inst, 16, 0);
    FusedPlain(isa, inst, Fmadd, Double);
    FormatKeys(inst, 16, 1);
    FusedPlain(isa, inst, Fmadd, Quad);
    FormatKeys(inst, 16, 3);
    FusedPlain(isa, inst, Fmsub, Single);
    FormatKeys(inst, 17, 0);
    FusedPlain(isa, inst, Fmsub, Double);
    FormatKeys(inst, 17, 1);
    FusedPlain(isa, inst, Fmsub, Quad);
    FormatKeys(inst, 17, 3);
    FusedPlain(isa, inst, Fnmsub, Single);
    FormatKeys(inst, 18, 0);
    FusedPlain(isa, inst, Fnmsub, Double);
    FormatKeys(inst, 18, 1);
    FusedPlain(isa, inst, Fnmsub, Quad);
    FormatKeys(inst, 18, 3);
    FusedPlain(isa, inst, Fnmadd, Single);
    FormatKeys(inst, 19, 0);
    FusedPlain(isa, inst, Fnmadd, Double);
    FormatKeys(inst, 19, 1);
    FusedPlain(isa, inst, Fnmadd, Quad);
    FormatKeys(inst, 19, 3);
  }

  lemma JoinedRs2(inst: bv64, rs2: bv64, f3: bv64)
    requires rs2 < 32 && f3 < 8
    ensures Rs2And3(inst) == (rs2 << 3) | f3 <==> Rs2Field(inst) == rs2 && Funct3(inst) == f3
  {}

  lemma OpFpTableSingle(inst: bv64)
    ensures Funct7(inst) == 0 ==> OpFpOpcode(inst) == Fp(Fadd, Single)
    ensures Funct7(inst) == 4 ==> OpFpOpcode(inst) == Fp(Fsub, Single)
    ensures Funct7(inst) == 8 ==> OpFpOpcode(inst) == Fp(Fmul, Single)
    ensures Funct7(inst) == 12 ==> OpFpOpcode(inst) == Fp(Fdiv, Single)
    ensures Funct7(inst) == 16 ==> OpFpOpcode(inst) == SignOpcode(inst, Single)
    ensures Funct7(inst) == 20 ==> OpFpOpcode(inst) == MinMaxOpcode(inst, Single)
    ensures Funct7(inst) == 32 ==> OpFpOpcode(inst) == ConvertOpcode(inst, Single)
    ensures Funct7(inst) == 44 ==> OpFpOpcode(inst) == SqrtOpcode(inst, Single)
    ensures Funct7(inst) == 80 ==> OpFpOpcode(inst) == CompareOpcode(inst, Single)
    ensures Funct7(inst) == 96 ==> OpFpOpcode(inst) == ToIntegerOpcode(inst, Single)
    ensures Funct7(inst) == 104 ==> OpFpOpcode(inst) == FromIntegerOpcode(inst, Single)
    ensures Funct7(inst) == 112 ==> OpFpOpcode(inst) == MoveToOpcode(inst, Single)
    ensures Funct7(inst) == 120 ==> OpFpOpcode(inst) == MoveFromOpcode(inst, Single)
  {
    hide Funct7, Funct3, Rs2Field, Rs2And3, SignOpcode, MinMaxOpcode, ConvertOpcode, SqrtOpcode, CompareOpcode,
      ToIntegerOpcode, FromIntegerOpcode, MoveToOpcode, MoveFromOpcode;
  }

  lemma OpFpTableDouble(inst: bv64)
    ensures Funct7(inst) == 1 ==> OpFpOpcode(inst) == Fp(Fadd, Double)
    ensures Funct7(inst) == 5 ==> OpFpOpcode(inst) == Fp(Fsub, Double)
    ensures Funct7(inst) == 9 ==> OpFpOpcode(inst) == Fp(Fmul, Double)
    ensures Funct7(inst) == 13 ==> OpFpOpcode(inst) == Fp(Fdiv, Double)
    ensures Funct7(inst) == 17 ==> OpFpOpcode(inst) == SignOpcode(inst, Double)
    ensures Funct7(inst) == 21 ==> OpFpOpcode(inst) == MinMaxOpcode(inst, Double)
    ensures Funct7(inst) == 33 ==> OpFpOpcode(inst) == ConvertOpcode(inst, Double)
    ensures Funct7(inst) == 45 ==> OpFpOpcode(inst) == SqrtOpcode(inst, Double)
    ensures Funct7(inst) == 81 ==> OpFpOpcode(inst) == CompareOpcode(inst, Double)
    ensures Funct7(inst) == 97 ==> OpFpOpcode(inst) == ToIntegerOpcode(inst, Double)
    ensures Funct7(inst) == 105 ==> OpFpOpcode(inst) == FromIntegerOpcode(inst, Double)
    ensures Funct7(inst) == 113 ==> OpFpOpcode(inst) == MoveToOpcode(inst, Double)
    ensures Funct7(inst) == 121 ==> OpFpOpcode(inst) == MoveFromOpcode(inst, Double)
  {
    hide Funct7, Funct3, Rs2Field, Rs2And3, SignOpcode, MinMaxOpcode, ConvertOpcode, SqrtOpcode, CompareOpcode,
      ToIntegerOpcode, FromIntegerOpcode, MoveToOpcode, MoveFromOpcode;
  }

  lemma OpFpTableQuad(inst: bv64)
    ensures Funct7(inst) == 3 ==> OpFpOpcode(inst) == Fp(Fadd, Quad)
    ensures Funct7(inst) == 7 ==> OpFpOpcode(inst) == Fp(Fsub, Quad)
    ensures Funct7(inst) == 11 ==> OpFpOpcode(inst) == Fp(Fmul, Quad)
    ensures Funct7(inst) == 15 ==> OpFpOpcode(inst) == Fp(Fdiv, Quad)
    ensures Funct7(inst) == 19 ==> OpFpOpcode(inst) == SignOpcode(inst, Quad)
    ensures Funct7(inst) == 23 ==> OpFpOpcode(inst) == MinMaxOpcode(inst, Quad)
    ensures Funct7(inst) == 35 ==> OpFpOpcode(inst) == ConvertOpcode(inst, Quad)
    ensures Funct7(inst) == 47 ==> OpFpOpcode(inst) == SqrtOpcode(inst, Quad)
    ensures Funct7(inst) == 83 ==> OpFpOpcode(inst) == CompareOpcode(inst, Quad)
    ensures Funct7(inst) == 99 ==> OpFpOpcode(inst) == ToIntegerOpcode(inst, Quad)
    ensures Funct7(inst) == 107 ==> OpFpOpcode(inst) == FromIntegerOpcode(inst, Quad)
    ensures Funct7(inst) == 115 ==> OpFpOpcode(inst) == MoveToOpcode(inst, Quad)
    ensures Funct7(inst) == 123 ==> OpFpOpcode(inst) == MoveFromOpcode(inst, Quad)
  {
    hide Funct7, Funct3, Rs2Field, Rs2And3, SignOpcode, MinMaxOpcode, ConvertOpcode, SqrtOpcode, CompareOpcode,
      ToIntegerOpcode, FromIntegerOpcode, MoveToOpcode, MoveFromOpcode;
  }

  lemma OpFpBackSingle(inst: bv64)
    requires OpFpOpcode(inst).Fp? && OpFpOpcode(inst).p == Single
    ensures var op := OpFpOpcode(inst); op.f.Fadd? ==> Funct7(inst) == 0
    ensures var op := OpFpOpcode(inst); op.f.Fsub? ==> Funct7(inst) == 4
    ensures var op := OpFpOpcode(inst); op.f.Fmul? ==> Funct7(inst) == 8
    ensures var op := OpFpOpcode(inst); op.f.Fdiv? ==> Funct7(inst) == 12
    ensures var op := OpFpOpcode(inst); (op.f.Fsgnj? || op.f.Fsgnjn? || op.f.Fsgnjx?) ==> Funct7(inst) == 16
    ensures var op := OpFpOpcode(inst); (op.f.Fmin? || op.f.Fmax?) ==> Funct7(inst) == 20
    ensures var op := OpFpOpcode(inst); op.f.Fsqrt? ==> Funct7(inst) == 44
    ensures var op := OpFpOpcode(inst); (op.f.Fle? || op.f.Flt? || op.f.Feq?) ==> Funct7(inst) == 80
    ensures var op := OpFpOpcode(inst);
      (op.f.FcvtToW? || op.f.FcvtToWu? || op.f.FcvtToL? || op.f.FcvtToLu?) ==> Funct7(inst) == 96
    ensures var op := OpFpOpcode(inst);
      (op.f.FcvtFromW? || op.f.FcvtFromWu? || op.f.FcvtFromL? || op.f.FcvtFromLu?) ==> Funct7(inst) == 104
    ensures var op := OpFpOpcode(inst); (op.f.FmvToX? || op.f.Fclass?) ==> Funct7(inst) == 112
    ensures var op := OpFpOpcode(inst); op.f.FmvFromX? ==> Funct7(inst) == 120
  {
    hide Funct7, Funct3, Rs2Field, Rs2And3, SignOpcode, MinMaxOpcode, ConvertOpcode, SqrtOpcode, CompareOpcode,
      ToIntegerOpcode, FromIntegerOpcode, MoveToOpcode, MoveFromOpcode;
    match Funct7(inst)
    case 0 => case 1 => case 3 => case 4 => case 5 => case 7 => case 8 => case 9 => case 11 => case 12 =>
    case 13 => case 15 => case 16 => case 17 => case 19 => case 20 => case 21 => case 23 => case 32 =>
    case 33 => case 35 => case 44 => case 45 => case 47 => case 80 => case 81 => case 83 => case 96 =>
    case 97 => case 99 => case 104 => case 105 => case 107 => case 112 => case 113 => case 115 => case 120 =>
    case 121 => case 123 => case _ =>
  }

  lemma OpFpBackDouble(inst: bv64)
    requires OpFpOpcode(inst).Fp? && OpFpOpcode(inst).p == Double
    ensures var op := OpFpOpcode(inst); op.f.Fadd? ==> Funct7(inst) == 1
    ensures var op := OpFpOpcode(inst); op.f.Fsub? ==> Funct7(inst) == 5
    ensures var op := OpFpOpcode(inst); op.f.Fmul? ==> Funct7(inst) == 9
    ensures var op := OpFpOpcode(inst); op.f.Fdiv? ==> Funct7(inst) == 13
    ensures var op := OpFpOpcode(inst); (op.f.Fsgnj? || op.f.Fsgnjn? || op.f.Fsgnjx?) ==> Funct7(inst) == 17
    ensures var op := OpFpOpcode(inst); (op.f.Fmin? || op.f.Fmax?) ==> Funct7(inst) == 21
    ensures var op := OpFpOpcode(inst); op.f.Fsqrt? ==> Funct7(inst) == 45
    ensures var op := OpFpOpcode(inst); (op.f.Fle? || op.f.Flt? || op.f.Feq?) ==> Funct7(inst) == 81
    ensures var op := OpFpOpcode(inst);
      (op.f.FcvtToW? || op.f.FcvtToWu? || op.f.FcvtToL? || op.f.FcvtToLu?) ==> Funct7(inst) == 97
    ensures var op := OpFpOpcode(inst);
      (op.f.FcvtFromW? || op.f.FcvtFromWu? || op.f.FcvtFromL? || op.f.FcvtFromLu?) ==> Funct7(inst) == 105
    ensures var op := OpFpOpcode(inst); (op.f.FmvToX? || op.f.Fclass?) ==> Funct7(inst) == 113
    ensures var op := OpFpOpcode(inst); op.f.FmvFromX? ==> Funct7(inst) == 121
  {
    hide Funct7, Funct3, Rs2Field, Rs2And3, SignOpcode, MinMaxOpcode, ConvertOpcode, SqrtOpcode, CompareOpcode,
      ToIntegerOpcode, FromIntegerOpcode, MoveToOpcode, MoveFromOpcode;
    match Funct7(inst)
    case 0 => case 1 => case 3 => case 4 => case 5 => case 7 => case 8 => case 9 => case 11 => case 12 =>
    case 13 => case 15 => case 16 => case 17 => case 19 => case 20 => case 21 => case 23 => case 32 =>
    case 33 => case 35 => case 44 => case 45 => case 47 => case 80 => case 81 => case 83 => case 96 =>
    case 97 => case 99 => case 104 => case 105 => case 107 => case 112 => case 113 => case 115 => case 120 =>
    case 121 => case 123 => case _ =>
  }

  lemma OpFpBackQuad(inst: bv64)
    requires OpFpOpcode(inst).Fp? && OpFpOpcode(inst).p == Quad
    ensures var op := OpFpOpcode(inst); op.f.Fadd? ==> Funct7(inst) == 3
    ensures var op := OpFpOpcode(inst); op.f.Fsub? ==> Funct7(inst) == 7
    ensures var op := OpFpOpcode(inst); op.f.Fmul? ==> Funct7(inst) == 11
    ensures var op := OpFpOpcode(inst); op.f.Fdiv? ==> Funct7(inst) == 15
    ensures var op := OpFpOpcode(inst); (op.f.Fsgnj? || op.f.Fsgnjn? || op.f.Fsgnjx?) ==> Funct7(inst) == 19
    ensures var op := OpFpOpcode(inst); (op.f.Fmin? || op.f.Fmax?) ==> Funct7(inst) == 23
    ensures var op := OpFpOpcode(inst); op.f.Fsqrt? ==> Funct7(inst) == 47
    ensures var op := OpFpOpcode(inst); (op.f.Fle? || op.f.Flt? || op.f.Feq?) ==> Funct7(inst) == 83
    ensures var op := OpFpOpcode(inst);
      (op.f.FcvtToW? || op.f.FcvtToWu? || op.f.FcvtToL? || op.f.FcvtToLu?) ==> Funct7(inst) == 99
    ensures var op := OpFpOpcode(inst);
      (op.f.FcvtFromW? || op.f.FcvtFromWu? || op.f.FcvtFromL? || op.f.FcvtFromLu?) ==> Funct7(inst) == 107
    ensures var op := OpFpOpcode(inst); (op.f.FmvToX? || op.f.Fclass?) ==> Funct7(inst) == 115
    ensures var op := OpFpOpcode(inst); op.f.FmvFromX? ==> Funct7(inst) == 123
  {
    hide Funct7, Funct3, Rs2Field, Rs2And3, SignOpcode, MinMaxOpcode, ConvertOpcode, SqrtOpcode, CompareOpcode,
      ToIntegerOpcode, FromIntegerOpcode, MoveToOpcode, MoveFromOpcode;
    match Funct7(inst)
    case 0 => case 1 => case 3 => case 4 => case 5 => case 7 => case 8 => case 9 => case 11 => case 12 =>
    case 13 => case 15 => case 16 => case 17 => case 19 => case 20 => case 21 => case 23 => case 32 =>
    case 33 => case 35 => case 44 => case 45 => case 47 => case 80 => case 81 => case 83 => case 96 =>
    case 97 => case 99 => case 104 => case 105 => case 107 => case 112 => case 113 => case 115 => case 120 =>
    case 121 => case 123 => case _ =>
  }

  lemma SignRows(inst: bv64, p: Precision)
    ensures SignOpcode(inst, p) == Fp(Fsgnj, p) <==> Funct3(inst) == 0
    ensures SignOpcode(inst, p) == Fp(Fsgnjn, p) <==> Funct3(inst) == 1
    ensures SignOpcode(inst, p) == Fp(Fsgnjx, p) <==> Funct3(inst) == 2
    ensures MinMaxOpcode(inst, p) == Fp(Fmin, p) <==> Funct3(inst) == 0
    ensures MinMaxOpcode(inst, p) == Fp(Fmax, p) <==> Funct3(inst) == 1
    ensures CompareOpcode(inst, p) == Fp(Fle, p) <==> Funct3(inst) == 0
    ensures CompareOpcode(inst, p) == Fp(Flt, p) <==> Funct3(inst) == 1
    ensures CompareOpcode(inst, p) == Fp(Feq, p) <==> Funct3(inst) == 2
  {
    hide Funct3;
  }

  lemma ConversionRows(inst: bv64, p: Precision)
    ensures SqrtOpcode(inst, p) == Fp(Fsqrt, p) <==> Rs2Field(inst) == 0
    ensures ToIntegerOpcode(inst, p) == Fp(FcvtToW, p) <==> Rs2Field(inst) == 0
    ensures ToIntegerOpcode(inst, p) == Fp(FcvtToWu, p) <==> Rs2Field(inst) == 1
    ensures ToIntegerOpcode(inst, p) == Fp(FcvtToL, p) <==> Rs2Field(inst) == 2
    ensures ToIntegerOpcode(inst, p) == Fp(FcvtToLu, p) <==> Rs2Field(inst) == 3
    ensures FromIntegerOpcode(inst, p) == Fp(FcvtFromW, p) <==> Rs2Field(inst) == 0
    ensures FromIntegerOpcode(inst, p) == Fp(FcvtFromWu, p) <==> Rs2Field(inst) == 1
    ensures FromIntegerOpcode(inst, p) == Fp(FcvtFromL, p) <==> Rs2Field(inst) == 2
    ensures FromIntegerOpcode(inst, p) == Fp(FcvtFromLu, p) <==> Rs2Field(inst) == 3
  {
    hide Rs2Field;
  }

  lemma MoveRows(inst: bv64, p: Precision)
    ensures MoveToOpcode(inst, p) == Fp(FmvToX, p) <==> Rs2Field(inst) == 0 && Funct3(inst) == 0
    ensures MoveToOpcode(inst, p) == Fp(Fclass, p) <==> Rs2Field(inst) == 0 && Funct3(inst) == 1
    ensures MoveFromOpcode(inst, p) == Fp(FmvFromX, p) <==> Rs2Field(inst) == 0 && Funct3(inst) == 0
  {
    hide Rs2And3, Rs2Field, Funct3;
    JoinedRs2(inst, 0, 0);
    JoinedRs2(inst, 0, 1);
  }

  lemma ArithmeticIffSingle(isa: Isa, inst: bv64)
    ensures Opcode(isa, inst) == Fp(Fadd, Single) <==> Has(inst, ByFormat7(20, 0))
    ensures Opcode(isa, inst) == Fp(Fsub, Single) <==> Has(inst, ByFormat7(20, 4))
    ensures Opcode(isa, inst) == Fp(Fmul, Single) <==> Has(inst, ByFormat7(20, 8))
    ensures Opcode(isa, inst) == Fp(Fdiv, Single) <==> Has(inst, ByFormat7(20, 12))
    ensures Opcode(isa, inst) == Fp(FmvToX, Single) <==> Has(inst, ByFunct7Rs2(20, 0, 112, 0))
    ensures Opcode(isa, inst) == Fp(Fclass, Single) <==> Has(inst, ByFunct7Rs2(20, 1, 112, 0))
    ensures Opcode(isa, inst) == Fp(FmvFromX, Single) <==> Has(inst, ByFunct7Rs2(20, 0, 120, 0))
  {
    hide Has, Opcode, Quadrant, Quadrant3, Major, Funct7, Funct3, Rs2Field, Rs2And3, SignOpcode, MinMaxOpcode,
      ConvertOpcode, SqrtOpcode, CompareOpcode, ToIntegerOpcode, FromIntegerOpcode, MoveToOpcode, MoveFromOpcode,
      OpFpOpcode, MaddOpcode, MsubOpcode, NmsubOpcode, NmaddOpcode;
    OpFpTableSingle(inst);
    if OpFpOpcode(inst).Fp? && OpFpOpcode(inst).p == Single {
      OpFpBackSingle(inst);
    }
    MoveRows(inst, Single);
    FpPlain(isa, inst, Fadd, Single);
    Format7Keys(inst, 20, 0);
    FpPlain(isa, inst, Fsub, Single);
    Format7Keys(inst, 20, 4);
    FpPlain(isa, inst, Fmul, Single);
    Format7Keys(inst, 20, 8);
    FpPlain(isa, inst, Fdiv, Single);
    Format7Keys(inst, 20, 12);
    FpPlain(isa, inst, FmvToX, Single);
    Funct7Rs2Keys(inst, 20, 0, 112, 0);
    FpPlain(isa, inst, Fclass, Single);
    Funct7Rs2Keys(inst, 20, 1, 112, 0);
    FpPlain(isa, inst, FmvFromX, Single);
    Funct7Rs2Keys(inst, 20, 0, 120, 0);
  }

  lemma SignIffSingle(isa: Isa, inst: bv64)
    ensures Opcode(isa, inst) == Fp(Fsgnj, Single) <==> Has(inst, ByFunct7(20, 0, 16))
    ensures Opcode(isa, inst) == Fp(Fsgnjn, Single) <==> Has(inst, ByFunct7(20, 1, 16))
    ensures Opcode(isa, inst) == Fp(Fsgnjx, Single) <==> Has(inst, ByFunct7(20, 2, 16))
    ensures Opcode(isa, inst) == Fp(Fmin, Single) <==> Has(inst, ByFunct7(20, 0, 20))
    ensures Opcode(isa, inst) == Fp(Fmax, Single) <==> Has(inst, ByFunct7(20, 1, 20))
    ensures Opcode(isa, inst) == Fp(Fle, Single) <==> Has(inst, ByFunct7(20, 0, 80))
    ensures Opcode(isa, inst) == Fp(Flt, Single) <==> Has(inst, ByFunct7(20, 1, 80))
    ensures Opcode(isa, inst) == Fp(Feq, Single) <==> Has(inst, ByFunct7(20, 2, 80))
  {
    hide Has, Opcode, Quadrant, Quadrant3, Major, Funct7, Funct3, Rs2Field, Rs2And3, SignOpcode, MinMaxOpcode,
      ConvertOpcode, SqrtOpcode, CompareOpcode, ToIntegerOpcode, FromIntegerOpcode, MoveToOpcode, MoveFromOpcode,
      OpFpOpcode, MaddOpcode, MsubOpcode, NmsubOpcode, NmaddOpcode;
    OpFpTableSingle(inst);
    if OpFpOpcode(inst).Fp? && OpFpOpcode(inst).p == Single {
      OpFpBackSingle(inst);
    }
    SignRows(inst, Single);
    FpPlain(isa, inst, Fsgnj, Single);
    Funct7Keys(inst, 20, 0, 16);
    FpPlain(isa, inst, Fsgnjn, Single);
    Funct7Keys(inst, 20, 1, 16);
    FpPlain(isa, inst, Fsgnjx, Single);
    Funct7Keys(inst, 20, 2, 16);
    FpPlain(isa, inst, Fmin, Single);
    Funct7Keys(inst, 20, 0, 20);
    FpPlain(isa, inst, Fmax, Single);
    Funct7Keys(inst, 20, 1, 20);
    FpPlain(isa, inst, Fle, Single);
    Funct7Keys(inst, 20, 0, 80);
    FpPlain(isa, inst, Flt, Single);
    Funct7Keys(inst, 20, 1, 80);
    FpPlain(isa, inst, Feq, Single);
    Funct7Keys(inst, 20, 2, 80);
  }

  lemma ConversionIffSingle(isa: Isa, inst: bv64)
    ensures Opcode(isa, inst) == Fp(Fsqrt, Single) <==> Has(inst, ByFormat7Rs2(20, 44, 0))
    ensures Opcode(isa, inst) == Fp(FcvtToW, Single) <==> Has(inst, ByFormat7Rs2(20, 96, 0))
    ensures Opcode(isa, inst) == Fp(FcvtToWu, Single) <==> Has(inst, ByFormat7Rs2(20, 96, 1))
    ensures Opcode(isa, inst) == Fp(FcvtToL, Single) <==> Has(inst, ByFormat7Rs2(20, 96, 2))
    ensures Opcode(isa, inst) == Fp(FcvtToLu, Single) <==> Has(inst, ByFormat7Rs2(20, 96, 3))
    ensures Opcode(isa, inst) == Fp(FcvtFromW, Single) <==> Has(inst, ByFormat7Rs2(20, 104, 0))
    ensures Opcode(isa, inst) == Fp(FcvtFromWu, Single) <==> Has(inst, ByFormat7Rs2(20, 104, 1))
    ensures Opcode(isa, inst) == Fp(FcvtFromL, Single) <==> Has(inst, ByFormat7Rs2(20, 104, 2))
    ensures Opcode(isa, inst) == Fp(FcvtFromLu, Single) <==> Has(inst, ByFormat7Rs2(20, 104, 3))
  {
    hide Has, Opcode, Quadrant, Quadrant3, Major, Funct7, Funct3, Rs2Field, Rs2And3, SignOpcode, MinMaxOpcode,
      ConvertOpcode, SqrtOpcode, CompareOpcode, ToIntegerOpcode, FromIntegerOpcode, MoveToOpcode, MoveFromOpcode,
      OpFpOpcode, MaddOpcode, MsubOpcode, NmsubOpcode, NmaddOpcode;
    OpFpTableSingle(inst);
    if OpFpOpcode(inst).Fp? && OpFpOpcode(inst).p == Single {
      OpFpBackSingle(inst);
    }
    ConversionRows(inst, Single);
    FpPlain(isa, inst, Fsqrt, Single);
    Format7Rs2Keys(inst, 20, 44, 0);
    FpPlain(isa, inst, FcvtToW, Single);
    Format7Rs2Keys(inst, 20, 96, 0);
    FpPlain(isa, inst, FcvtToWu, Single);
    Format7Rs2Keys(inst, 20, 96, 1);
    FpPlain(isa, inst, FcvtToL, Single);
    Format7Rs2Keys(inst, 20, 96, 2);
    FpPlain(isa, inst, FcvtToLu, Single);
    Format7Rs2Keys(inst, 20, 96, 3);
    FpPlain(isa, inst, FcvtFromW, Single);
    Format7Rs2Keys(inst, 20, 104, 0);
    FpPlain(isa, inst, FcvtFromWu, Single);
    Format7Rs2Keys(inst, 20, 104, 1);
    FpPlain(isa, inst, FcvtFromL, Single);
    Format7Rs2Keys(inst, 20, 104, 2);
    FpPlain(isa, inst, FcvtFromLu, Single);
    Format7Rs2Keys(inst, 20, 104, 3);
  }

  lemma ArithmeticIffDouble(isa: Isa, inst: bv64)
    ensures Opcode(isa, inst) == Fp(Fadd, Double) <==> Has(inst, ByFormat7(20, 1))
    ensures Opcode(isa, inst) == Fp(Fsub, Double) <==> Has(inst, ByFormat7(20, 5))
    ensures Opcode(isa, inst) == Fp(Fmul, Double) <==> Has(inst, ByFormat7(20, 9))
    ensures Opcode(isa, inst) == Fp(Fdiv, Double) <==> Has(inst, ByFormat7(20, 13))
    ensures Opcode(isa, inst) == Fp(FmvToX, Double) <==> Has(inst, ByFunct7Rs2(20, 0, 113, 0))
    ensures Opcode(isa, inst) == Fp(Fclass, Double) <==> Has(inst, ByFunct7Rs2(20, 1, 113, 0))
    ensures Opcode(isa, inst) == Fp(FmvFromX, Double) <==> Has(inst, ByFunct7Rs2(20, 0, 121, 0))
  {
    hide Has, Opcode, Quadrant, Quadrant3, Major, Funct7, Funct3, Rs2Field, Rs2And3, SignOpcode, MinMaxOpcode,
      ConvertOpcode, SqrtOpcode, CompareOpcode, ToIntegerOpcode, FromIntegerOpcode, MoveToOpcode, MoveFromOpcode,
      OpFpOpcode, MaddOpcode, MsubOpcode, NmsubOpcode, NmaddOpcode;
    OpFpTableDouble(inst);
    if OpFpOpcode(inst).Fp? && OpFpOpcode(inst).p == Double {
      OpFpBackDouble(inst);
    }
    MoveRows(inst, Double);
    FpPlain(isa, inst, Fadd, Double);
    Format7Keys(inst, 20, 1);
    FpPlain(isa, inst, Fsub, Double);
    Format7Keys(inst, 20, 5);
    FpPlain(isa, inst, Fmul, Double);
    Format7Keys(inst, 20, 9);
    FpPlain(isa, inst, Fdiv, Double);
    Format7Keys(inst, 20, 13);
    FpPlain(isa, inst, FmvToX, Double);
    Funct7Rs2Keys(inst, 20, 0, 113, 0);
    FpPlain(isa, inst, Fclass, Double);
    Funct7Rs2Keys(inst, 20, 1, 113, 0);
    FpPlain(isa, inst, FmvFromX, Double);
    Funct7Rs2Keys(inst, 20, 0, 121, 0);
  }

  lemma SignIffDouble(isa: Isa, inst: bv64)
    ensures Opcode(isa, inst) == Fp(Fsgnj, Double) <==> Has(inst, ByFunct7(20, 0, 17))
    ensures Opcode(isa, inst) == Fp(Fsgnjn, Double) <==> Has(inst, ByFunct7(20, 1, 17))
    ensures Opcode(isa, inst) == Fp(Fsgnjx, Double) <==> Has(inst, ByFunct7(20, 2, 17))
    ensures Opcode(isa, inst) == Fp(Fmin, Double) <==> Has(inst, ByFunct7(20, 0, 21))
    ensures Opcode(isa, inst) == Fp(Fmax, Double) <==> Has(inst, ByFunct7(20, 1, 21))
    ensures Opcode(isa, inst) == Fp(Fle, Double) <==> Has(inst, ByFunct7(20, 0, 81))
    ensures Opcode(isa, inst) == Fp(Flt, Double) <==> Has(inst, ByFunct7(20, 1, 81))
    ensures Opcode(isa, inst) == Fp(Feq, Double) <==> Has(inst, ByFunct7(20, 2, 81))
  {
    hide Has, Opcode, Quadrant, Quadrant3, Major, Funct7, Funct3, Rs2Field, Rs2And3, SignOpcode, MinMaxOpcode,
      ConvertOpcode, SqrtOpcode, CompareOpcode, ToIntegerOpcode, FromIntegerOpcode, MoveToOpcode, MoveFromOpcode,
      OpFpOpcode, MaddOpcode, MsubOpcode, NmsubOpcode, NmaddOpcode;
    OpFpTableDouble(inst);
    if OpFpOpcode(inst).Fp? && OpFpOpcode(inst).p == Double {
      OpFpBackDouble(inst);
    }
    SignRows(inst, Double);
    FpPlain(isa, inst, Fsgnj, Double);
    Funct7Keys(inst, 20, 0, 17);
    FpPlain(isa, inst, Fsgnjn, Double);
    Funct7Keys(inst, 20, 1, 17);
    FpPlain(isa, inst, Fsgnjx, Double);
    Funct7Keys(inst, 20, 2, 17);
    FpPlain(isa, inst, Fmin, Double);
    Funct7Keys(inst, 20, 0, 21);
    FpPlain(isa, inst, Fmax, Double);
    Funct7Keys(inst, 20, 1, 21);
    FpPlain(isa, inst, Fle, Double);
    Funct7Keys(inst, 20, 0, 81);
    FpPlain(isa, inst, Flt, Double);
    Funct7Keys(inst, 20, 1, 81);
    FpPlain(isa, inst, Feq, Double);
    Funct7Keys(inst, 20, 2, 81);
  }

  lemma ConversionIffDouble(isa: Isa, inst: bv64)
    ensures Opcode(isa, inst) == Fp(Fsqrt, Double) <==> Has(inst, ByFormat7Rs2(20, 45, 0))
    ensures Opcode(isa, inst) == Fp(FcvtToW, Double) <==> Has(inst, ByFormat7Rs2(20, 97, 0))
    ensures Opcode(isa, inst) == Fp(FcvtToWu, Double) <==> Has(inst, ByFormat7Rs2(20, 97, 1))
    ensures Opcode(isa, inst) == Fp(FcvtToL, Double) <==> Has(inst, ByFormat7Rs2(20, 97, 2))
    ensures Opcode(isa, inst) == Fp(FcvtToLu, Double) <==> Has(inst, ByFormat7Rs2(20, 97, 3))
    ensures Opcode(isa, inst) == Fp(FcvtFromW, Double) <==> Has(inst, ByFormat7Rs2(20, 105, 0))
    ensures Opcode(isa, inst) == Fp(FcvtFromWu, Double) <==> Has(inst, ByFormat7Rs2(20, 105, 1))
    ensures Opcode(isa, inst) == Fp(FcvtFromL, Double) <==> Has(inst, ByFormat7Rs2(20, 105, 2))
    ensures Opcode(isa, inst) == Fp(FcvtFromLu, Double) <==> Has(inst, ByFormat7Rs2(20, 105, 3))
  {
    hide Has, Opcode, Quadrant, Quadrant3, Major, Funct7, Funct3, Rs2Field, Rs2And3, SignOpcode, MinMaxOpcode,
      ConvertOpcode, SqrtOpcode, CompareOpcode, ToIntegerOpcode, FromIntegerOpcode, MoveToOpcode, MoveFromOpcode,
      OpFpOpcode, MaddOpcode, MsubOpcode, NmsubOpcode, NmaddOpcode;
    OpFpTableDouble(inst);
    if OpFpOpcode(inst).Fp? && OpFpOpcode(inst).p == Double {
      OpFpBackDouble(inst);
    }
    ConversionRows(inst, Double);
    FpPlain(isa, inst, Fsqrt, Double);
    Format7Rs2Keys(inst, 20, 45, 0);
    FpPlain(isa, inst, FcvtToW, Double);
    Format7Rs2Keys(inst, 20, 97, 0);
    FpPlain(isa, inst, FcvtToWu, Double);
    Format7Rs2Keys(inst, 20, 97, 1);
    FpPlain(isa, inst, FcvtToL, Double);
    Format7Rs2Keys(inst, 20, 97, 2);
    FpPlain(isa, inst, FcvtToLu, Double);
    Format7Rs2Keys(inst, 20, 97, 3);
    FpPlain(isa, inst, FcvtFromW, Double);
    Format7Rs2Keys(inst, 20, 105, 0);
    FpPlain(isa, inst, FcvtFromWu, Double);
    Format7Rs2Keys(inst, 20, 105, 1);
    FpPlain(isa, inst, FcvtFromL, Double);
    Format7Rs2Keys(inst, 20, 105, 2);
    FpPlain(isa, inst, FcvtFromLu, Double);
    Format7Rs2Keys(inst, 20, 105, 3);
  }

  lemma ArithmeticIffQuad(isa: Isa, inst: bv64)
    ensures Opcode(isa, inst) == Fp(Fadd, Quad) <==> Has(inst, ByFormat7(20, 3))
    ensures Opcode(isa, inst) == Fp(Fsub, Quad) <==> Has(inst, ByFormat7(20, 7))
    ensures Opcode(isa, inst) == Fp(Fmul, Quad) <==> Has(inst, ByFormat7(20, 11))
    ensures Opcode(isa, inst) == Fp(Fdiv, Quad) <==> Has(inst, ByFormat7(20, 15))
    ensures Opcode(isa, inst) == Fp(FmvToX, Quad) <==> Has(inst, ByFunct7Rs2(20, 0, 115, 0))
    ensures Opcode(isa, inst) == Fp(Fclass, Quad) <==> Has(inst, ByFunct7Rs2(20, 1, 115, 0))
    ensures Opcode(isa, inst) == Fp(FmvFromX, Quad) <==> Has(inst, ByFunct7Rs2(20, 0, 123, 0))
  {
    hide Has, Opcode, Quadrant, Quadrant3, Major, Funct7, Funct3, Rs2Field, Rs2And3, SignOpcode, MinMaxOpcode,
      ConvertOpcode, SqrtOpcode, CompareOpcode, ToIntegerOpcode, FromIntegerOpcode, MoveToOpcode, MoveFromOpcode,
      OpFpOpcode, MaddOpcode, MsubOpcode, NmsubOpcode, NmaddOpcode;
    OpFpTableQuad(inst);
    if OpFpOpcode(inst).Fp? && OpFpOpcode(inst).p == Quad {
      OpFpBackQuad(inst);
    }
    MoveRows(inst, Quad);
    FpPlain(isa, inst, Fadd, Quad);
    Format7Keys(inst, 20, 3);
    FpPlain(isa, inst, Fsub, Quad);
    Format7Keys(inst, 20, 7);
    FpPlain(isa, inst, Fmul, Quad);
    Format7Keys(inst, 20, 11);
    FpPlain(isa, inst, Fdiv, Quad);
    Format7Keys(inst, 20, 15);
    FpPlain(isa, inst, FmvToX, Quad);
    Funct7Rs2Keys(inst, 20, 0, 115, 0);
    FpPlain(isa, inst, Fclass, Quad);
    Funct7Rs2Keys(inst, 20, 1, 115, 0);
    FpPlain(isa, inst, FmvFromX, Quad);
    Funct7Rs2Keys(inst, 20, 0, 123, 0);
  }

  lemma SignIffQuad(isa: Isa, inst: bv64)
    ensures Opcode(isa, inst) == Fp(Fsgnj, Quad) <==> Has(inst, ByFunct7(20, 0, 19))
    ensures Opcode(isa, inst) == Fp(Fsgnjn, Quad) <==> Has(inst, ByFunct7(20, 1, 19))
    ensures Opcode(isa, inst) == Fp(Fsgnjx, Quad) <==> Has(inst, ByFunct7(20, 2, 19))
    ensures Opcode(isa, inst) == Fp(Fmin, Quad) <==> Has(inst, ByFunct7(20, 0, 23))
    ensures Opcode(isa, inst) == Fp(Fmax, Quad) <==> Has(inst, ByFunct7(20, 1, 23))
    ensures Opcode(isa, inst) == Fp(Fle, Quad) <==> Has(inst, ByFunct7(20, 0, 83))
    ensures Opcode(isa, inst) == Fp(Flt, Quad) <==> Has(inst, ByFunct7(20, 1, 83))
    ensures Opcode(isa, inst) == Fp(Feq, Quad) <==> Has(inst, ByFunct7(20, 2, 83))
  {
    hide Has, Opcode, Quadrant, Quadrant3, Major, Funct7, Funct3, Rs2Field, Rs2And3, SignOpcode, MinMaxOpcode,
      ConvertOpcode, SqrtOpcode, CompareOpcode, ToIntegerOpcode, FromIntegerOpcode, MoveToOpcode, MoveFromOpcode,
      OpFpOpcode, MaddOpcode, MsubOpcode, NmsubOpcode, NmaddOpcode;
    OpFpTableQuad(inst);
    if OpFpOpcode(inst).Fp? && OpFpOpcode(inst).p == Quad {
      OpFpBackQuad(inst);
    }
    SignRows(inst, Quad);
    FpPlain(isa, inst, Fsgnj, Quad);
    Funct7Keys(inst, 20, 0, 19);
    FpPlain(isa, inst, Fsgnjn, Quad);
    Funct7Keys(inst, 20, 1, 19);
    FpPlain(isa, inst, Fsgnjx, Quad);
    Funct7Keys(inst, 20, 2, 19);
    FpPlain(isa, inst, Fmin, Quad);
    Funct7Keys(inst, 20, 0, 23);
    FpPlain(isa, inst, Fmax, Quad);
    Funct7Keys(inst, 20, 1, 23);
    FpPlain(isa, inst, Fle, Quad);
    Funct7Keys(inst, 20, 0, 83);
    FpPlain(isa, inst, Flt, Quad);
    Funct7Keys(inst, 20, 1, 83);
    FpPlain(isa, inst, Feq, Quad);
    Funct7Keys(inst, 20, 2, 83);
  }

  lemma ConversionIffQuad(isa: Isa, inst: bv64)
    ensures Opcode(isa, inst) == Fp(Fsqrt, Quad) <==> Has(inst, ByFormat7Rs2(20, 47, 0))
    ensures Opcode(isa, inst) == Fp(FcvtToW, Quad) <==> Has(inst, ByFormat7Rs2(20, 99, 0))
    ensures Opcode(isa, inst) == Fp(FcvtToWu, Quad) <==> Has(inst, ByFormat7Rs2(20, 99, 1))
    ensures Opcode(isa, inst) == Fp(FcvtToL, Quad) <==> Has(inst, ByFormat7Rs2(20, 99, 2))
    ensures Opcode(isa, inst) == Fp(FcvtToLu, Quad) <==> Has(inst, ByFormat7Rs2(20, 99, 3))
    ensures Opcode(isa, inst) == Fp(FcvtFromW, Quad) <==> Has(inst, ByFormat7Rs2(20, 107, 0))
    ensures Opcode(isa, inst) == Fp(FcvtFromWu, Quad) <==> Has(inst, ByFormat7Rs2(20, 107, 1))
    ensures Opcode(isa, inst) == Fp(FcvtFromL, Quad) <==> Has(inst, ByFormat7Rs2(20, 107, 2))
    ensures Opcode(isa, inst) == Fp(FcvtFromLu, Quad) <==> Has(inst, ByFormat7Rs2(20, 107, 3))
  {
    hide Has, Opcode, Quadrant, Quadrant3, Major, Funct7, Funct3, Rs2Field, Rs2And3, SignOpcode, MinMaxOpcode,
      ConvertOpcode, SqrtOpcode, CompareOpcode, ToIntegerOpcode, FromIntegerOpcode, MoveToOpcode, MoveFromOpcode,
      OpFpOpcode, MaddOpcode, MsubOpcode, NmsubOpcode, NmaddOpcode;
    OpFpTableQuad(inst);
    if OpFpOpcode(inst).Fp? && OpFpOpcode(inst).p == Quad {
      OpFpBackQuad(inst);
    }
    ConversionRows(inst, Quad);
    FpPlain(isa, inst, Fsqrt, Quad);
    Format7Rs2Keys(inst, 20, 47, 0);
    FpPlain(isa, inst, FcvtToW, Quad);
    Format7Rs2Keys(inst, 20, 99, 0);
    FpPlain(isa, inst, FcvtToWu, Quad);
    Format7Rs2Keys(inst, 20, 99, 1);
    FpPlain(isa, inst, FcvtToL, Quad);
    Format7Rs2Keys(inst, 20, 99, 2);
    FpPlain(isa, inst, FcvtToLu, Quad);
    Format7Rs2Keys(inst, 20, 99, 3);
    FpPlain(isa, inst, FcvtFromW, Quad);
    Format7Rs2Keys(inst, 20, 107, 0);
    FpPlain(isa, inst, FcvtFromWu, Quad);
    Format7Rs2Keys(inst, 20, 107, 1);
    FpPlain(isa, inst, FcvtFromL, Quad);
    Format7Rs2Keys(inst, 20, 107, 2);
    FpPlain(isa, inst, FcvtFromLu, Quad);
    Format7Rs2Keys(inst, 20, 107, 3);
  }

  lemma ConvertRows(inst: bv64)
    ensures ConvertOpcode(inst, Single) == Convert(Single, Double) <==> Rs2Field(inst) == 1
    ensures ConvertOpcode(inst, Single) == Convert(Single, Quad) <==> Rs2Field(inst) == 3
    ensures ConvertOpcode(inst, Double) == Convert(Double, Single) <==> Rs2Field(inst) == 0
    ensures ConvertOpcode(inst, Double) == Convert(Double, Quad) <==> Rs2Field(inst) == 3
    ensures ConvertOpcode(inst, Quad) == Convert(Quad, Single) <==> Rs2Field(inst) == 0
    ensures ConvertOpcode(inst, Quad) == Convert(Quad, Double) <==> Rs2Field(inst) == 1
  {
    hide Rs2Field;
  }

  lemma ConvertBack(inst: bv64)
    requires OpFpOpcode(inst).Convert?
    ensures OpFpOpcode(inst).to == Single ==> Funct7(inst) == 32
    ensures OpFpOpcode(inst).to == Double ==> Funct7(inst) == 33
    ensures OpFpOpcode(inst).to == Quad ==> Funct7(inst) == 35
  {
    hide Funct7, Funct3, Rs2Field, Rs2And3, SignOpcode, MinMaxOpcode, ConvertOpcode, SqrtOpcode, CompareOpcode,
      ToIntegerOpcode, FromIntegerOpcode, MoveToOpcode, MoveFromOpcode;
  }

  lemma ConvertPlain(isa: Isa, inst: bv64, to: Precision, from: Precision)
    ensures Opcode(isa, inst) == Convert(to, from) <==>
      Quadrant(inst) == 3 && Major(inst) == 20 && OpFpOpcode(inst) == Convert(to, from)
  {
    hide Opcode, Quadrant, Major, LoadOpcode, LoadFpOpcode, MiscMemOpcode, OpImmOpcode, OpImm32Opcode, StoreOpcode,
      StoreFpOpcode, AtomicOpcode, OpRegOpcode, OpReg32Opcode, MaddOpcode, MsubOpcode, NmsubOpcode, NmaddOpcode,
      OpFpOpcode, OpImm64Opcode, BranchOpcode, JumpRegOpcode, SystemOpcode, OpReg64Opcode;
    PlainIff(isa, inst, Convert(to, from));
  }

  lemma ConvertIff(isa: Isa, inst: bv64)
    ensures Opcode(isa, inst) == Convert(Single, Double) <==> Has(inst, ByFormat7Rs2(20, 32, 1))
    ensures Opcode(isa, inst) == Convert(Single, Quad) <==> Has(inst, ByFormat7Rs2(20, 32, 3))
    ensures Opcode(isa, inst) == Convert(Double, Single) <==> Has(inst, ByFormat7Rs2(20, 33, 0))
    ensures Opcode(isa, inst) == Convert(Double, Quad) <==> Has(inst, ByFormat7Rs2(20, 33, 3))
    ensures Opcode(isa, inst) == Convert(Quad, Single) <==> Has(inst, ByFormat7Rs2(20, 35, 0))
    ensures Opcode(isa, inst) == Convert(Quad, Double) <==> Has(inst, ByFormat7Rs2(20, 35, 1))
  {
    hide Has, Opcode, Quadrant, Quadrant3, Major, Funct7, Funct3, Rs2Field, Rs2And3, SignOpcode, MinMaxOpcode,
      ConvertOpcode, SqrtOpcode, CompareOpcode, ToIntegerOpcode, FromIntegerOpcode, MoveToOpcode, MoveFromOpcode,
      OpFpOpcode;
    OpFpTableSingle(inst);
    OpFpTableDouble(inst);
    OpFpTableQuad(inst);
    ConvertRows(inst);
    if OpFpOpcode(inst).Convert? {
      ConvertBack(inst);
    }
    ConvertPlain(isa, inst, Single, Double);
    Format7Rs2Keys(inst, 20, 32, 1);
    ConvertPlain(isa, inst, Single, Quad);
    Format7Rs2Keys(inst, 20, 32, 3);
    ConvertPlain(isa, inst, Double, Single);
    Format7Rs2Keys(inst, 20, 33, 0);
    ConvertPlain(isa, inst, Double, Quad);
    Format7Rs2Keys(inst, 20, 33, 3);
    ConvertPlain(isa, inst, Quad, Single);
    Format7Rs2Keys(inst, 20, 35, 0);
    ConvertPlain(isa, inst, Quad, Double);
    Format7Rs2Keys(inst, 20, 35, 1);
  }

  lemma RoundedIffSingle(isa: Isa, inst: bv64, f: FpOp)
    requires IsRounded(f)
    ensures Opcode(isa, inst) == Fp(f, Single) <==> Has(inst, RoundedFixed(f, Single))
  {
    hide Has, Opcode;
    match f
    case Fmadd => FusedIff(isa, inst); case Fmsub => FusedIff(isa, inst); case Fnmsub => FusedIff(isa, inst);
    case Fnmadd => FusedIff(isa, inst); case Fadd => ArithmeticIffSingle(isa, inst);
    case Fsub => ArithmeticIffSingle(isa, inst); case Fmul => ArithmeticIffSingle(isa, inst);
    case Fdiv => ArithmeticIffSingle(isa, inst); case Fsqrt => ConversionIffSingle(isa, inst);
    case FcvtToW => ConversionIffSingle(isa, inst); case FcvtToWu => ConversionIffSingle(isa, inst);
    case FcvtToL => ConversionIffSingle(isa, inst); case FcvtToLu => ConversionIffSingle(isa, inst);
    case FcvtFromW => ConversionIffSingle(isa, inst); case FcvtFromWu => ConversionIffSingle(isa, inst);
    case FcvtFromL => ConversionIffSingle(isa, inst); case FcvtFromLu => ConversionIffSingle(isa, inst);
  }

  lemma ExactIffSingle(isa: Isa, inst: bv64, f: FpOp)
    requires !IsRounded(f)
    ensures Opcode(isa, inst) == Fp(f, Single) <==> Has(inst, ExactFixed(f, Single))
  {
    hide Has, Opcode;
    match f
    case Fsgnj => SignIffSingle(isa, inst); case Fsgnjn => SignIffSingle(isa, inst);
    case Fsgnjx => SignIffSingle(isa, inst); case Fmin => SignIffSingle(isa, inst);
    case Fmax => SignIffSingle(isa, inst); case Fle => SignIffSingle(isa, inst);
    case Flt => SignIffSingle(isa, inst); case Feq => SignIffSingle(isa, inst);
    case FmvToX => ArithmeticIffSingle(isa, inst); case Fclass => ArithmeticIffSingle(isa, inst);
    case FmvFromX => ArithmeticIffSingle(isa, inst);
  }

  lemma RoundedIffDouble(isa: Isa, inst: bv64, f: FpOp)
    requires IsRounded(f)
    ensures Opcode(isa, inst) == Fp(f, Double) <==> Has(inst, RoundedFixed(f, Double))
  {
    hide Has, Opcode;
    match f
    case Fmadd => FusedIff(isa, inst); case Fmsub => FusedIff(isa, inst); case Fnmsub => FusedIff(isa, inst);
    case Fnmadd => FusedIff(isa, inst); case Fadd => ArithmeticIffDouble(isa, inst);
    case Fsub => ArithmeticIffDouble(isa, inst); case Fmul => ArithmeticIffDouble(isa, inst);
    case Fdiv => ArithmeticIffDouble(isa, inst); case Fsqrt => ConversionIffDouble(isa, inst);
    case FcvtToW => ConversionIffDouble(isa, inst); case FcvtToWu => ConversionIffDouble(isa, inst);
    case FcvtToL => ConversionIffDouble(isa, inst); case FcvtToLu => ConversionIffDouble(isa, inst);
    case FcvtFromW => ConversionIffDouble(isa, inst); case FcvtFromWu => ConversionIffDouble(isa, inst);
    case FcvtFromL => ConversionIffDouble(isa, inst); case FcvtFromLu => ConversionIffDouble(isa, inst);
  }

  lemma ExactIffDouble(isa: Isa, inst: bv64, f: FpOp)
    requires !IsRounded(f)
    ensures Opcode(isa, inst) == Fp(f, Double) <==> Has(inst, ExactFixed(f, Double))
  {
    hide Has, Opcode;
    match f
    case Fsgnj => SignIffDouble(isa, inst); case Fsgnjn => SignIffDouble(isa, inst);
    case Fsgnjx => SignIffDouble(isa, inst); case Fmin => SignIffDouble(isa, inst);
    case Fmax => SignIffDouble(isa, inst); case Fle => SignIffDouble(isa, inst);
    case Flt => SignIffDouble(isa, inst); case Feq => SignIffDouble(isa, inst);
    case FmvToX => ArithmeticIffDouble(isa, inst); case Fclass => ArithmeticIffDouble(isa, inst);
    case FmvFromX => ArithmeticIffDouble(isa, inst);
  }

  lemma RoundedIffQuad(isa: Isa, inst: bv64, f: FpOp)
    requires IsRounded(f)
    ensures Opcode(isa, inst) == Fp(f, Quad) <==> Has(inst, RoundedFixed(f, Quad))
  {
    hide Has, Opcode;
    match f
    case Fmadd => FusedIff(isa, inst); case Fmsub => FusedIff(isa, inst); case Fnmsub => FusedIff(isa, inst);
    case Fnmadd => FusedIff(isa, inst); case Fadd => ArithmeticIffQuad(isa, inst);
    case Fsub => ArithmeticIffQuad(isa, inst); case Fmul => ArithmeticIffQuad(isa, inst);
    case Fdiv => ArithmeticIffQuad(isa, inst); case Fsqrt => ConversionIffQuad(isa, inst);
    case FcvtToW => ConversionIffQuad(isa, inst); case FcvtToWu => ConversionIffQuad(isa, inst);
    case FcvtToL => ConversionIffQuad(isa, inst); case FcvtToLu => ConversionIffQuad(isa, inst);
    case FcvtFromW => ConversionIffQuad(isa, inst); case FcvtFromWu => ConversionIffQuad(isa, inst);
    case FcvtFromL => ConversionIffQuad(isa, inst); case FcvtFromLu => ConversionIffQuad(isa, inst);
  }

  lemma ExactIffQuad(isa: Isa, inst: bv64, f: FpOp)
    requires !IsRounded(f)
    ensures Opcode(isa, inst) == Fp(f, Quad) <==> Has(inst, ExactFixed(f, Quad))
  {
    hide Has, Opcode;
    match f
    case Fsgnj => SignIffQuad(isa, inst); case Fsgnjn => SignIffQuad(isa, inst);
    case Fsgnjx => SignIffQuad(isa, inst); case Fmin => SignIffQuad(isa, inst);
    case Fmax => SignIffQuad(isa, inst); case Fle => SignIffQuad(isa, inst);
    case Flt => SignIffQuad(isa, inst); case Feq => SignIffQuad(isa, inst);
    case FmvToX => ArithmeticIffQuad(isa, inst); case Fclass => ArithmeticIffQuad(isa, inst);
    case FmvFromX => ArithmeticIffQuad(isa, inst);
  }

  lemma FloatingIff(isa: Isa, inst: bv64, f: FpOp, p: Precision)
    ensures Opcode(isa, inst) == Fp(f, p) <==> Has(inst, FpFixed(f, p))
  {
    hide Has, Opcode, RoundedFixed, ExactFixed, IsRounded;
    match p
    case Single =>
      if IsRounded(f) {
        RoundedIffSingle(isa, inst, f);
      } else {
        ExactIffSingle(isa, inst, f);
      }
    case Double =>
      if IsRounded(f) {
        RoundedIffDouble(isa, inst, f);
      } else {
        ExactIffDouble(isa, inst, f);
      }
    case Quad =>
      if IsRounded(f) {
        RoundedIffQuad(isa, inst, f);
      } else {
        ExactIffQuad(isa, inst, f);
      }
  }

  lemma AtomicIff(isa: Isa, inst: bv64, a: AmoOp, w: Width)
    ensures Opcode(isa, inst) == Amo(a, w) <==> Has(inst, AmoFixed(a, w))
  {
    hide Has, Opcode;
    match w
    case W => AmoIffW(isa, inst); case D => AmoIffD(isa, inst); case Q => AmoIffQ(isa, inst);
    match a
    case AmoAdd => case AmoSwap => case Lr => case Sc => case AmoXor => case AmoOr => case AmoAnd =>
    case AmoMin => case AmoMax => case AmoMinu => case AmoMaxu =>
  }

  lemma RegisterIff(isa: Isa, inst: bv64, r: RegisterOp, span: Span)
    requires RegisterFixed(r, span) != NotAWord
    ensures Opcode(isa, inst) == Register(r, span) <==> Has(inst, RegisterFixed(r, span))
  {
    hide Has, Opcode;
    match span
    case Xlen => BaseRegisterIff12(isa, inst); MultiplyRegisterIff12(isa, inst);
    case Bits32 => RegisterIff14(isa, inst); case Bits64 => RegisterIff30(isa, inst);
    match r
    case Add => case Sub => case Sll => case Slt => case Sltu => case Xor => case Srl => case Sra => case Or =>
    case And => case Mul => case Mulh => case Mulhsu => case Mulhu => case Div => case Divu => case Rem =>
    case Remu =>
  }

  lemma DecodedIff(isa: Isa, inst: bv64, op: Op)
    requires FixedOf(op) != NotAWord
    ensures Opcode(isa, inst) == op <==> Has(inst, FixedOf(op))
  {
    hide Has, Opcode, RegisterFixed, AmoFixed, FpFixed;
    match op
    case Upper(_) | Jal | Jalr => JumpIff(isa, inst);
    case Branch(b) =>
      BranchIff(isa, inst);
      match b {
        case Beq => case Bne => case Blt => case Bge => case Bltu => case Bgeu =>
      }
    case Load(l) =>
      LoadIff(isa, inst);
      match l {
        case Lb => case Lh => case Lw => case Ld => case Lbu => case Lhu => case Lwu => case Ldu => case Flw =>
        case Fld => case Flq => case Lq =>
      }
    case Store(s) =>
      StoreIff(isa, inst);
      match s {
        case Sb => case Sh => case Sw => case Sd => case Sq => case Fsw => case Fsd => case Fsq =>
      }
    case Immediate(i) =>
      ImmediateIff(isa, inst);
      match i {
        case Addi => case Slti => case Sltiu => case Xori => case Ori => case Andi => case Addiw => case Addid =>
      }
    case Shift(h, span) =>
      ShiftIff(isa, inst);
      match span {
        case Xlen => case Bits32 => case Bits64 =>
      }
      match h {
        case Slli => case Srli => case Srai =>
      }
    case Register(r, span) => RegisterIff(isa, inst, r, span);
    case Fence => FenceIff(isa, inst);
    case System(y) =>
      FenceIff(isa, inst);
      SystemIff(isa, inst);
      match y {
        case FenceI => case Ecall => case Ebreak => case Uret => case Sret => case Wfi => case Hret =>
        case Mret => case Dret =>
      }
    case Vm(_) => SystemIff(isa, inst);
    case Csr(z) =>
      CsrIff(isa, inst);
      match z {
        case Csrrw => case Csrrs => case Csrrc => case Csrrwi => case Csrrsi => case Csrrci =>
      }
    case Amo(a, w) => AtomicIff(isa, inst, a, w);
    case Fp(f, p) => FloatingIff(isa, inst, f, p);
    case Convert(to, from) =>
      ConvertIff(isa, inst);
      match to {
        case Single => case Double => case Quad =>
      }
      match from {
        case Single => case Double => case Quad =>
      }
  }

  // The operations of 32-bit words are those with fixed bits.
  predicate IsWordOp(op: Op)
  {
    match op
    case Illegal | Parcel(_) | Pseudo(_) => false
    case Register(r, span) => span == Xlen || HasNarrow(r)
    case Convert(to, from) => to != from
    case _ => true
  }

  lemma WordOpIsFixed(op: Op)
    ensures IsWordOp(op) <==> FixedOf(op) != NotAWord
  {}

  lemma LegalIsWordOp(isa: Isa, inst: bv64)
    ensures Opcode(isa, inst) == Illegal || Opcode(isa, inst).Parcel? || IsWordOp(Opcode(isa, inst))
  {
    hide LoadOpcode, LoadFpOpcode, MiscMemOpcode, OpImmOpcode, OpImm32Opcode, StoreOpcode, StoreFpOpcode,
      AtomicOpcode, OpRegOpcode, OpReg32Opcode, MaddOpcode, MsubOpcode, NmsubOpcode, NmaddOpcode, OpFpOpcode,
      OpImm64Opcode, BranchOpcode, JumpRegOpcode, SystemOpcode, OpReg64Opcode;
    RegisterSpans(inst);
  }

  // The formats of the standard (sections 2.2 and 2.3), by operation.
  function FormatOf(op: Op): Codec
  {
    match op
    case Upper(_) => OfU
    case Jal => OfUj
    case Branch(_) => OfSb
    case Store(_) => OfS
    case Load(_) | Immediate(_) | Jalr => OfI
    case Csr(_) => OfICsr
    case Shift(_, span) => (match span case Xlen => OfISh7 case Bits32 => OfISh5 case Bits64 => OfISh6)
    case Register(_, _) | Vm(_) => OfR
    case Amo(a, _) => if a.Lr? then OfRL else OfRA
    case Fence => OfRF
    case Convert(_, _) => OfRM
    case Fp(f, p) => FpLayout(FpFixed(f, p))
    case _ => OfNone
  }

  // Where funct3 is not fixed it is the rounding mode.
  function FpLayout(x: Fixed): Codec
  {
    if x.ByFormat? then OfR4M else if x.ByFormat7? || x.ByFormat7Rs2? then OfRM else OfR
  }

  // The operands an operation can have: where it fixes bits of an operand, the operand has them.
  predicate Held(op: Op, f: Fields)
  {
    && InRange(FormatOf(op), f)
    && Part(EncodeLayout(FormatOf(op), f), Mask(FixedOf(op))) == Part(Bits(FixedOf(op)), LayoutBits(FormatOf(op)))
  }

  // The word it makes with them.
  function WordOf(op: Op, f: Fields): bv64
  {
    Beside(EncodeLayout(FormatOf(op), f), Bits(FixedOf(op)))
  }

  // A fence leaves bits open that the decoder does not look at.
  function UsedBits(op: Op): bv64
  {
    if op == Fence then 0x0FF0_707F else if op == System(FenceI) then 0x707F else 0xFFFF_FFFF
  }

  lemma FpFormats(f: FpOp, p: Precision)
    ensures FpCodec(f) == FpLayout(FpFixed(f, p))
  {
    hide RoundedFixed, ExactFixed;
  }

  lemma Formats(op: Op)
    requires IsWordOp(op)
    ensures CodecOf(op) == FormatOf(op) && IsWordLayout(FormatOf(op))
  {
    hide FpFixed;
    if op.Fp? {
      hide FpCodec;
      FpFormats(op.f, op.p);
    }
  }

  // The fixed bits that go with a layout.
  predicate Fills(codec: Codec, mask: bv64)
  {
    if codec.OfU? || codec.OfUj? then mask == 0x0000_007F
    else if codec.OfI? || codec.OfICsr? || codec.OfS? || codec.OfSb? then mask == 0x0000_707F
    else if codec.OfISh5? then mask == 0xFE00_707F
    else if codec.OfISh6? then mask == 0xFC00_707F
    else if codec.OfISh7? || codec.OfRA? then mask == 0xF800_707F
    else if codec.OfR? then mask == 0xFE00_707F || mask == 0xFFF0_707F || mask == 0xFFF0_7FFF || mask == 0xFE00_7FFF
    else if codec.OfRM? then mask == 0xFE00_007F || mask == 0xFFF0_007F
    else if codec.OfR4M? then mask == 0x0600_007F
    else if codec.OfRL? then mask == 0xF9F0_707F
    else codec.OfNone? && mask == 0xFFFF_FFFF
  }

  lemma FpFills(f: FpOp, p: Precision)
    ensures Fills(FpLayout(FpFixed(f, p)), Mask(FpFixed(f, p)))
  {
    hide RoundedFixed, ExactFixed, IsFused, Proper, Fills;
    LayoutFills(FpFixed(f, p));
  }

  lemma LayoutFills(x: Fixed)
    requires x.ByFormat? || x.ByFormat7? || x.ByFormat7Rs2? || x.ByFunct7? || x.ByFunct7Rs2?
    ensures Fills(FpLayout(x), Mask(x))
  {}

  lemma TablesFill(op: Op)
    requires op.Load? || op.Store? || op.Immediate? || op.Shift? || op.System?
    ensures op != System(FenceI) ==> Fills(FormatOf(op), Mask(FixedOf(op)))
  {
    hide FpFixed, RegisterFixed, AmoFixed, FpLayout, Bits, Format, VmFixed;
  }

  lemma RegistersFill(op: Op)
    requires IsWordOp(op) && (op.Register? || op.Amo? || op.Vm? || op.Convert?)
    ensures Fills(FormatOf(op), Mask(FixedOf(op)))
  {
    hide FpFixed, FpLayout, Bits, Format, RegisterRow, AmoFunct5;
  }

  lemma OthersFill(op: Op)
    requires op.Upper? || op.Jal? || op.Jalr? || op.Branch? || op.Csr?
    ensures Fills(FormatOf(op), Mask(FixedOf(op)))
  {
    hide Bits, CsrFunct3, BranchFunct3;
  }

  lemma FixedFills(op: Op)
    requires IsWordOp(op) && op != Fence && op != System(FenceI)
    ensures Fills(FormatOf(op), Mask(FixedOf(op)))
  {
    hide Fills, FpFixed, FpLayout, Mask, Bits;
    match op
    case Fp(f, p) => FpFills(f, p);
    case Load(_) | Store(_) | Immediate(_) | Shift(_, _) | System(_) => TablesFill(op);
    case Register(_, _) | Amo(_, _) | Vm(_) | Convert(_, _) => RegistersFill(op);
    case _ => OthersFill(op);
  }

  lemma Filled(codec: Codec, mask: bv64)
    requires Fills(codec, mask)
    ensures Beside(LayoutBits(codec), mask) == 0xFFFF_FFFF
  {}

  lemma FencesCovered()
    ensures Beside(LayoutBits(OfRF), Mask(ByFunct3(3, 0))) == UsedBits(Fence)
    ensures Beside(LayoutBits(OfNone), Mask(ByFunct3(3, 1))) == UsedBits(System(FenceI))
  {}

  lemma Covered(op: Op)
    requires IsWordOp(op)
    ensures Beside(LayoutBits(FormatOf(op)), Mask(FixedOf(op))) == UsedBits(op)
  {
    hide Fills, LayoutBits, Mask, Beside;
    if op == Fence || op == System(FenceI) {
      FencesCovered();
    } else {
      hide FixedOf, FormatOf;
      FixedFills(op);
      Filled(FormatOf(op), Mask(FixedOf(op)));
    }
  }

  lemma ProperFits(x: Fixed)
    requires Proper(x)
    ensures Part(Bits(x), Mask(x)) == Bits(x) && Bits(x) & 3 == 3 && Mask(x) <= 0xFFFF_FFFF
  {}

  lemma MemoryProper(op: Op)
    requires op.Load? || op.Store?
    ensures Proper(FixedOf(op))
  {
    match op
    case Load(l) =>
      match l {
        case Lb => case Lh => case Lw => case Ld => case Lbu => case Lhu => case Lwu => case Ldu => case Flw =>
        case Fld => case Flq => case Lq =>
      }
    case Store(s) =>
      match s {
        case Sb => case Sh => case Sw => case Sd => case Sq => case Fsw => case Fsd => case Fsq =>
      }
  }

  lemma TablesProper(op: Op)
    requires op.Immediate? || op.Shift? || op.System?
    ensures Proper(FixedOf(op))
  {
    match op
    case Immediate(i) =>
      match i {
        case Addi => case Slti => case Sltiu => case Xori => case Ori => case Andi => case Addiw => case Addid =>
      }
    case Shift(h, span) =>
      match span {
        case Xlen => case Bits32 => case Bits64 =>
      }
      match h {
        case Slli => case Srli => case Srai =>
      }
    case System(y) =>
      match y {
        case FenceI => case Ecall => case Ebreak => case Uret => case Sret => case Wfi => case Hret =>
        case Mret => case Dret =>
      }
  }

  lemma OthersProper(op: Op)
    requires op.Branch? || op.Csr? || op.Amo? || op.Vm?
    ensures Proper(FixedOf(op))
  {
    hide FpFixed, LoadFixed, StoreFixed, ImmediateFixed, ShiftFixed, SystemFixed, RegisterFixed;
    match op
    case Branch(b) =>
      match b {
        case Beq => case Bne => case Blt => case Bge => case Bltu => case Bgeu =>
      }
    case Csr(z) =>
      match z {
        case Csrrw => case Csrrs => case Csrrc => case Csrrwi => case Csrrsi => case Csrrci =>
      }
    case Amo(a, w) =>
      match w {
        case W => case D => case Q =>
      }
      match a {
        case AmoAdd => case AmoSwap => case Lr => case Sc => case AmoXor => case AmoOr => case AmoAnd =>
        case AmoMin => case AmoMax => case AmoMinu => case AmoMaxu =>
      }
    case Vm(v) =>
      match v {
        case SfenceVm => case SfenceVma =>
      }
  }

  lemma ConvertProper(op: Op)
    requires op.Convert? && op.to != op.from
    ensures Proper(FixedOf(op))
  {
    hide Format;
  }

  lemma RegisterProper(op: Op)
    requires op.Register? && IsWordOp(op)
    ensures Proper(FixedOf(op))
  {
    hide RegisterRow;
  }

  lemma JumpsProper(op: Op)
    requires op.Upper? || op.Jal? || op.Jalr? || op.Fence?
    ensures Proper(FixedOf(op))
  {}

  lemma FpProper(f: FpOp, p: Precision)
    ensures Proper(FpFixed(f, p))
  {
    hide RoundedFixed, ExactFixed, Proper;
  }

  lemma FixedProper(op: Op)
    requires IsWordOp(op)
    ensures Proper(FixedOf(op))
  {
    hide Proper;
    match op
    case Fp(f, p) => FpProper(f, p);
    case Load(_) | Store(_) => MemoryProper(op);
    case Immediate(_) | Shift(_, _) | System(_) => TablesProper(op);
    case Branch(_) | Csr(_) | Amo(_, _) | Vm(_) => OthersProper(op);
    case Convert(_, _) => ConvertProper(op);
    case Register(_, _) => RegisterProper(op);
    case _ => JumpsProper(op);
  }

  lemma Overlaid(x: bv64, xBits: bv64, y: bv64, yBits: bv64)
    requires Part(x, xBits) == x && Part(y, yBits) == y && Part(x, yBits) == Part(y, xBits)
    ensures Part(Beside(x, y), yBits) == y
    ensures Beside(x, y) == Beside(x, Part(y, !xBits)) && Part(Part(y, !xBits), xBits) == 0
  {}

  lemma LowOverlaid(x: bv64, xBits: bv64, y: bv64, yBits: bv64)
    requires Part(x, xBits) == x && Part(y, yBits) == y && y & 3 == 3 && xBits <= 0xFFFF_FFFF && yBits <= 0xFFFF_FFFF
    ensures Word(Beside(x, y))
  {}

  lemma LayoutLow(codec: Codec)
    ensures LayoutBits(codec) <= 0xFFFF_FFFF
  {}

  // The encoded operands lie in the bits of their layout.
  lemma EncodedWithin(codec: Codec, f: Fields)
    requires IsWordLayout(codec) && InRange(codec, f)
    ensures Part(EncodeLayout(codec, f), LayoutBits(codec)) == EncodeLayout(codec, f)
  {
    hide InRange, EncodeLayout, LayoutBits, OperandsOf, Part, Beside;
    BesideNothing(EncodeLayout(codec, f));
    NothingIn(LayoutBits(codec));
    LayoutFound(codec, f, 0);
    LayoutKept(codec, EncodeLayout(codec, f));
  }

  lemma NothingIn(bits: bv64)
    ensures Part(0, bits) == 0
  {}

  // An operation with any operands it can have is decoded from the word it makes with them ...
  lemma WordDecoded(isa: Isa, op: Op, f: Fields)
    requires IsWordOp(op) && Held(op, f)
    ensures Word(WordOf(op, f)) && DecodeInst(isa, WordOf(op, f)) == Decoded(op, FormatOf(op), f)
  {
    hide IsWordOp, InRange, EncodeLayout, LayoutBits, OperandsOf, Part, Beside, FixedOf, FormatOf, Bits, Mask, Proper,
      Opcode, CodecOf, IsWordLayout, Word;
    var codec, x := FormatOf(op), FixedOf(op);
    var enc, y := EncodeLayout(codec, f), Bits(x);
    Formats(op);
    EncodedWithin(codec, f);
    FixedProper(op);
    ProperFits(x);
    Overlaid(enc, LayoutBits(codec), y, Mask(x));
    LayoutLow(codec);
    LowOverlaid(enc, LayoutBits(codec), y, Mask(x));
    LayoutFound(codec, f, Part(y, !LayoutBits(codec)));
    WordOpIsFixed(op);
    DecodedIff(isa, Beside(enc, y), op);
  }

  // ... and a legal word with low bits 11 is the word of what it is decoded to, in every bit the decoder
  // looks at.
  lemma WordKept(isa: Isa, inst: bv64)
    ensures var d := DecodeInst(isa, inst);
      inst & 3 == 3 && d.op != Illegal ==>
        && IsWordOp(d.op) && d.codec == FormatOf(d.op) && Held(d.op, d.f)
        && WordOf(d.op, d.f) == Part(inst, UsedBits(d.op))
  {
    hide IsWordOp, InRange, EncodeLayout, LayoutBits, OperandsOf, Part, Beside, FixedOf, FormatOf, Bits, Mask, Opcode,
      CodecOf, IsWordLayout, UsedBits;
    var op := Opcode(isa, inst);
    LowBitsPlain(isa, inst);
    LegalIsWordOp(isa, inst);
    if inst & 3 == 3 && op != Illegal {
      var codec, x := FormatOf(op), FixedOf(op);
      WordOpIsFixed(op);
      DecodedIff(isa, inst, op);
      Formats(op);
      LayoutKept(codec, inst);
      PartOfPart(inst, LayoutBits(codec), Mask(x));
      PartOfPart(inst, Mask(x), LayoutBits(codec));
      PartSwap(Mask(x), LayoutBits(codec));
      PartsJoin(inst, LayoutBits(codec), Mask(x));
      Covered(op);
    }
  }

  lemma LowBitsPlain(isa: Isa, inst: bv64)
    ensures inst & 3 == 3 ==> !Opcode(isa, inst).Parcel?
    ensures inst & 3 != 3 ==> Opcode(isa, inst) == Illegal || Opcode(isa, inst).Parcel?
  {
    hide Quadrant0, Quadrant1, Quadrant2, LoadOpcode, LoadFpOpcode, MiscMemOpcode, OpImmOpcode, OpImm32Opcode,
      StoreOpcode, StoreFpOpcode, AtomicOpcode, OpRegOpcode, OpReg32Opcode, MaddOpcode, MsubOpcode, NmsubOpcode,
      NmaddOpcode, OpFpOpcode, OpImm64Opcode, BranchOpcode, JumpRegOpcode, SystemOpcode, OpReg64Opcode;
  }
  // Apart from floating-point operations and fences of the virtual memory, no operation fixes a bit of an
  // operand, so it can have any operands its layout holds.

  predicate IsFree(op: Op)
  {
    IsWordOp(op) && !op.Fp? && !op.Convert? && !op.Vm?
  }

  lemma FilledApart(codec: Codec, mask: bv64)
    requires Fills(codec, mask) && !codec.OfRM? && (codec.OfR? ==> mask == 0xFE00_707F)
    ensures Part(LayoutBits(codec), mask) == 0
  {}

  lemma FencesApart()
    ensures Part(LayoutBits(OfRF), Mask(ByFunct3(3, 0))) == 0
    ensures Part(LayoutBits(OfNone), Mask(ByFunct3(3, 1))) == 0
  {}

  lemma FreeFormat(op: Op)
    requires IsFree(op)
    ensures !FormatOf(op).OfRM? && (FormatOf(op).OfR? ==> Mask(FixedOf(op)) == 0xFE00_707F)
  {
    hide Bits, LoadFixed, StoreFixed, ImmediateFixed, ShiftFixed, SystemFixed, RegisterRow, AmoFixed, BranchFunct3,
      CsrFunct3, FpLayout, FpFixed;
  }

  lemma FreeApart(op: Op)
    requires IsFree(op)
    ensures Part(LayoutBits(FormatOf(op)), Mask(FixedOf(op))) == 0
  {
    hide Part, Fills, LayoutBits, Mask;
    if op == Fence || op == System(FenceI) {
      FencesApart();
    } else {
      hide FixedOf, FormatOf;
      FreeFormat(op);
      FixedFills(op);
      FilledApart(FormatOf(op), Mask(FixedOf(op)));
    }
  }

  lemma AnyHeld(op: Op, f: Fields)
    requires IsFree(op) && InRange(FormatOf(op), f)
    ensures Held(op, f)
  {
    hide IsWordOp, InRange, EncodeLayout, LayoutBits, Part, FixedOf, FormatOf, Bits, Mask, Proper, CodecOf,
      IsWordLayout;
    var codec, x := FormatOf(op), FixedOf(op);
    Formats(op);
    FreeApart(op);
    EncodedWithin(codec, f);
    FixedProper(op);
    ProperFits(x);
    PartOfPart(EncodeLayout(codec, f), LayoutBits(codec), Mask(x));
    PartOfPart(Bits(x), Mask(x), LayoutBits(codec));
    PartSwap(Mask(x), LayoutBits(codec));
    PartSwap(EncodeLayout(codec, f), 0);
    PartSwap(Bits(x), 0);
    NothingIn(EncodeLayout(codec, f));
    NothingIn(Bits(x));
  }
}

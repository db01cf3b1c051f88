// The 16-bit words of RISC-V: where the standard puts each operand, and where the decoder finds it.
module RiscvParcels {
  import opened RiscvOps
  import opened RiscvOperands

  // Where a layout has a register: five bits from bit 7 or bit 2, or three bits there for x8 to x15;
  // or nowhere, as one of x0 to x2 or as the destination once more.
  datatype Spot = FiveAt7 | FiveAt2 | ThreeAt7 | ThreeAt2 | IsX0 | IsX1 | IsX2 | SameAsRd

  // How the bits of an immediate are scattered.
  datatype Scatter =
    | NoImm | ImmI | ImmSh6 | ImmUi | Imm16sp | ImmLwsp | ImmLdsp | ImmLqsp | ImmSwsp | ImmSdsp | ImmSqsp
    | Imm4spn | ImmW | ImmD | ImmQ | ImmB | ImmJ

  // The layouts of chapter 16 of the RISC-V Unprivileged ISA.

  predicate IsParcelLayout(codec: Codec)
  {
    match codec
    case OfCiw4spn | OfCiNone | OfCi | OfCiLi | OfCi16sp | OfCiLui | OfCbImm | OfCbSh6 | OfCiSh6 | OfCs | OfCr
    | OfCrMv | OfCj | OfCjJal | OfCrJr | OfCrJalr | OfCb | OfClLw | OfClLd | OfClLq | OfCiLwsp | OfCiLdsp
    | OfCiLqsp | OfCsSw | OfCsSd | OfCsSq | OfCssSwsp | OfCssSdsp | OfCssSqsp => true
    case _ => false
  }

  function RdSpot(codec: Codec): Spot
  {
    match codec
    case OfCi | OfCiSh6 | OfCiLi | OfCiLui | OfCiLwsp | OfCiLdsp | OfCiLqsp | OfCr | OfCrMv => FiveAt7
    case OfCbImm | OfCbSh6 | OfCs => ThreeAt7
    case OfCiw4spn | OfClLw | OfClLd | OfClLq => ThreeAt2
    case OfCjJal | OfCrJalr => IsX1
    case OfCi16sp => IsX2
    case _ => IsX0
  }

  function Rs1Spot(codec: Codec): Spot
  {
    match codec
    case OfCrJr | OfCrJalr => FiveAt7
    case OfCrMv => FiveAt2
    case OfCb | OfClLw | OfClLd | OfClLq | OfCsSw | OfCsSd | OfCsSq => ThreeAt7
    case OfCi16sp | OfCiw4spn | OfCiLwsp | OfCiLdsp | OfCiLqsp | OfCssSwsp | OfCssSdsp | OfCssSqsp => IsX2
    case OfCi | OfCiSh6 | OfCr | OfCbImm | OfCbSh6 | OfCs => SameAsRd
    case _ => IsX0
  }

  function Rs2Spot(codec: Codec): Spot
  {
    match codec
    case OfCr | OfCssSwsp | OfCssSdsp | OfCssSqsp => FiveAt2
    case OfCs | OfCsSw | OfCsSd | OfCsSq => ThreeAt2
    case _ => IsX0
  }

  function ImmSpot(codec: Codec): Scatter
  {
    match codec
    case OfCi | OfCiLi | OfCbImm => ImmI
    case OfCiSh6 | OfCbSh6 => ImmSh6
    case OfCiLui => ImmUi
    case OfCi16sp => Imm16sp
    case OfCiLwsp => ImmLwsp
    case OfCiLdsp => ImmLdsp
    case OfCiLqsp => ImmLqsp
    case OfCssSwsp => ImmSwsp
    case OfCssSdsp => ImmSdsp
    case OfCssSqsp => ImmSqsp
    case OfCiw4spn => Imm4spn
    case OfClLw | OfCsSw => ImmW
    case OfClLd | OfCsSd => ImmD
    case OfClLq | OfCsSq => ImmQ
    case OfCb => ImmB
    case OfCj | OfCjJal => ImmJ
    case _ => NoImm
  }

  // A register in its bits.

  function PutReg(spot: Spot, r: bv64): bv64
  {
    match spot
    case FiveAt7 => r << 7
    case FiveAt2 => r << 2
    case ThreeAt7 => (r - 8) << 7
    case ThreeAt2 => (r - 8) << 2
    case _ => 0
  }

  function RegAt(spot: Spot, inst: bv64): bv64
  {
    match spot
    case FiveAt7 => Crs1(inst)
    case FiveAt2 => Crs2(inst)
    case ThreeAt7 => Crs1Q(inst)
    case ThreeAt2 => CrdQ(inst)
    case IsX1 => 1
    case IsX2 => 2
    case _ => 0
  }

  function SpotBits(spot: Spot): bv64
  {
    match spot
    case FiveAt7 => 0x0F80
    case FiveAt2 => 0x007C
    case ThreeAt7 => 0x0380
    case ThreeAt2 => 0x001C
    case _ => 0
  }

  predicate RegFits(spot: Spot, r: bv64)
  {
    match spot
    case FiveAt7 | FiveAt2 => r < 32
    case ThreeAt7 | ThreeAt2 => 8 <= r < 16
    case IsX0 => r == 0
    case IsX1 => r == 1
    case IsX2 => r == 2
    case SameAsRd => true
  }

  // A register put in its bits is found there whatever the other bits are, and the one found, put
  // back, gives the bits again.

  lemma FiveAt7Found(r: bv64, rest: bv64)
    requires RegFits(FiveAt7, r) && Part(rest, SpotBits(FiveAt7)) == 0
    ensures Part(PutReg(FiveAt7, r), SpotBits(FiveAt7)) == PutReg(FiveAt7, r)
    ensures RegAt(FiveAt7, Beside(PutReg(FiveAt7, r), rest)) == r
  {}

  lemma FiveAt2Found(r: bv64, rest: bv64)
    requires RegFits(FiveAt2, r) && Part(rest, SpotBits(FiveAt2)) == 0
    ensures Part(PutReg(FiveAt2, r), SpotBits(FiveAt2)) == PutReg(FiveAt2, r)
    ensures RegAt(FiveAt2, Beside(PutReg(FiveAt2, r), rest)) == r
  {}

  lemma ThreeAt7Found(r: bv64, rest: bv64)
    requires RegFits(ThreeAt7, r) && Part(rest, SpotBits(ThreeAt7)) == 0
    ensures Part(PutReg(ThreeAt7, r), SpotBits(ThreeAt7)) == PutReg(ThreeAt7, r)
    ensures RegAt(ThreeAt7, Beside(PutReg(ThreeAt7, r), rest)) == r
  {}

  lemma ThreeAt2Found(r: bv64, rest: bv64)
    requires RegFits(ThreeAt2, r) && Part(rest, SpotBits(ThreeAt2)) == 0
    ensures Part(PutReg(ThreeAt2, r), SpotBits(ThreeAt2)) == PutReg(ThreeAt2, r)
    ensures RegAt(ThreeAt2, Beside(PutReg(ThreeAt2, r), rest)) == r
  {}

  lemma X0Found(r: bv64, rest: bv64)
    requires RegFits(IsX0, r)
    ensures Part(PutReg(IsX0, r), SpotBits(IsX0)) == PutReg(IsX0, r) && RegAt(IsX0, Beside(PutReg(IsX0, r), rest)) == r
  {}

  lemma X1Found(r: bv64, rest: bv64)
    requires RegFits(IsX1, r)
    ensures Part(PutReg(IsX1, r), SpotBits(IsX1)) == PutReg(IsX1, r) && RegAt(IsX1, Beside(PutReg(IsX1, r), rest)) == r
  {}

  lemma X2Found(r: bv64, rest: bv64)
    requires RegFits(IsX2, r)
    ensures Part(PutReg(IsX2, r), SpotBits(IsX2)) == PutReg(IsX2, r) && RegAt(IsX2, Beside(PutReg(IsX2, r), rest)) == r
  {}

  // What is read is something the place can hold, and put back is the bits it was read from.
  predicate RegKept(spot: Spot, inst: bv64)
  {
    PutReg(spot, RegAt(spot, inst)) == Part(inst, SpotBits(spot)) && RegFits(spot, RegAt(spot, inst))
  }

  lemma FiveTaken(inst: bv64)
    ensures RegKept(FiveAt7, inst) && RegKept(FiveAt2, inst)
  {}

  lemma ThreeTaken(inst: bv64)
    ensures RegKept(ThreeAt7, inst) && RegKept(ThreeAt2, inst)
  {}

  lemma FixedTaken(inst: bv64)
    ensures RegKept(IsX0, inst) && RegKept(IsX1, inst) && RegKept(IsX2, inst)
  {}

  lemma TiedTaken(r: bv64, inst: bv64)
    ensures PutReg(SameAsRd, r) == Part(inst, SpotBits(SameAsRd)) && RegFits(SameAsRd, r)
    ensures Part(PutReg(SameAsRd, r), SpotBits(SameAsRd)) == PutReg(SameAsRd, r)
  {}

  lemma RegisterFound(spot: Spot, r: bv64, rest: bv64)
    requires RegFits(spot, r) && Part(rest, SpotBits(spot)) == 0
    ensures Part(PutReg(spot, r), SpotBits(spot)) == PutReg(spot, r)
    ensures spot != SameAsRd ==> RegAt(spot, Beside(PutReg(spot, r), rest)) == r
  {
    hide PutReg, RegAt, SpotBits, RegFits, Part, Beside;
    match spot
    case FiveAt7 => FiveAt7Found(r, rest);
    case FiveAt2 => FiveAt2Found(r, rest);
    case ThreeAt7 => ThreeAt7Found(r, rest);
    case ThreeAt2 => ThreeAt2Found(r, rest);
    case IsX0 => X0Found(r, rest);
    case IsX1 => X1Found(r, rest);
    case IsX2 => X2Found(r, rest);
    case SameAsRd => TiedTaken(r, rest);
  }

  lemma RegisterTaken(spot: Spot, inst: bv64)
    ensures PutReg(spot, RegAt(spot, inst)) == Part(inst, SpotBits(spot)) && RegFits(spot, RegAt(spot, inst))
  {
    hide PutReg, RegAt, SpotBits, RegFits, Part;
    match spot
    case FiveAt7 | FiveAt2 => FiveTaken(inst);
    case ThreeAt7 | ThreeAt2 => ThreeTaken(inst);
    case IsX0 | IsX1 | IsX2 => FixedTaken(inst);
    case SameAsRd => TiedTaken(RegAt(spot, inst), inst);
  }

  // An immediate in its bits.

  function PlaceI(imm: bv64): bv64 { (((imm >> 5) & 1) << 12) | ((imm & 0x1F) << 2) }

  function PlaceUi(imm: bv64): bv64 { (((imm >> 17) & 1) << 12) | (((imm >> 12) & 0x1F) << 2) }

  function PlaceLwsp(imm: bv64): bv64 { (((imm >> 5) & 1) << 12) | (((imm >> 2) & 7) << 4) | (((imm >> 6) & 3) << 2) }

  function PlaceLdsp(imm: bv64): bv64 { (((imm >> 5) & 1) << 12) | (((imm >> 3) & 3) << 5) | (((imm >> 6) & 7) << 2) }

  function PlaceLqsp(imm: bv64): bv64
  {
    (((imm >> 5) & 1) << 12) | (((imm >> 4) & 1) << 6) | (((imm >> 6) & 0xF) << 2)
  }

  function PlaceAddi16sp(imm: bv64): bv64
  {
    (((imm >> 9) & 1) << 12) | (((imm >> 4) & 1) << 6) | (((imm >> 6) & 1) << 5) | (((imm >> 7) & 3) << 3) |
    (((imm >> 5) & 1) << 2)
  }

  function PlaceSwsp(imm: bv64): bv64 { (((imm >> 2) & 0xF) << 9) | (((imm >> 6) & 3) << 7) }

  function PlaceSdsp(imm: bv64): bv64 { (((imm >> 3) & 7) << 10) | (((imm >> 6) & 7) << 7) }

  function PlaceSqsp(imm: bv64): bv64 { (((imm >> 4) & 3) << 11) | (((imm >> 6) & 0xF) << 7) }

  function PlaceAddi4spn(imm: bv64): bv64
  {
    (((imm >> 4) & 3) << 11) | (((imm >> 6) & 0xF) << 7) | (((imm >> 2) & 1) << 6) | (((imm >> 3) & 1) << 5)
  }

  function PlaceW(imm: bv64): bv64 { (((imm >> 3) & 7) << 10) | (((imm >> 2) & 1) << 6) | (((imm >> 6) & 1) << 5) }

  function PlaceD(imm: bv64): bv64 { (((imm >> 3) & 7) << 10) | (((imm >> 6) & 3) << 5) }

  function PlaceQ(imm: bv64): bv64 { (((imm >> 4) & 3) << 11) | (((imm >> 8) & 1) << 10) | (((imm >> 6) & 3) << 5) }

  function PlaceB(imm: bv64): bv64
  {
    (((imm >> 8) & 1) << 12) | (((imm >> 3) & 3) << 10) | (((imm >> 6) & 3) << 5) | (((imm >> 1) & 3) << 3) |
    (((imm >> 5) & 1) << 2)
  }

  function PlaceJ(imm: bv64): bv64
  {
    (((imm >> 11) & 1) << 12) | (((imm >> 4) & 1) << 11) | (((imm >> 8) & 3) << 9) | (((imm >> 10) & 1) << 8) |
    (((imm >> 6) & 1) << 7) | (((imm >> 7) & 1) << 6) | (((imm >> 1) & 7) << 3) | (((imm >> 5) & 1) << 2)
  }

  function PutImm(kind: Scatter, imm: bv64): bv64
  {
    match kind
    case ImmI => PlaceI(imm)
    case ImmSh6 => PlaceI(imm)
    case ImmUi => PlaceUi(imm)
    case Imm16sp => PlaceAddi16sp(imm)
    case ImmLwsp => PlaceLwsp(imm)
    case ImmLdsp => PlaceLdsp(imm)
    case ImmLqsp => PlaceLqsp(imm)
    case ImmSwsp => PlaceSwsp(imm)
    case ImmSdsp => PlaceSdsp(imm)
    case ImmSqsp => PlaceSqsp(imm)
    case Imm4spn => PlaceAddi4spn(imm)
    case ImmW => PlaceW(imm)
    case ImmD => PlaceD(imm)
    case ImmQ => PlaceQ(imm)
    case ImmB => PlaceB(imm)
    case ImmJ => PlaceJ(imm)
    case _ => 0
  }

  function ImmAt(kind: Scatter, inst: bv64): bv64
  {
    match kind
    case ImmI => CimmI(inst)
    case ImmSh6 => CimmSh6(inst)
    case ImmUi => CimmUi(inst)
    case Imm16sp => Cimm16sp(inst)
    case ImmLwsp => CimmLwsp(inst)
    case ImmLdsp => CimmLdsp(inst)
    case ImmLqsp => CimmLqsp(inst)
    case ImmSwsp => CimmSwsp(inst)
    case ImmSdsp => CimmSdsp(inst)
    case ImmSqsp => CimmSqsp(inst)
    case Imm4spn => Cimm4spn(inst)
    case ImmW => CimmW(inst)
    case ImmD => CimmD(inst)
    case ImmQ => CimmQ(inst)
    case ImmB => CimmB(inst)
    case ImmJ => CimmJ(inst)
    case _ => 0
  }

  function ImmBits(kind: Scatter): bv64
  {
    match kind
    case ImmI | ImmSh6 | ImmUi | Imm16sp | ImmLwsp | ImmLdsp | ImmLqsp => 0x107C
    case ImmSwsp | ImmSdsp | ImmSqsp => 0x1F80
    case Imm4spn => 0x1FE0
    case ImmW | ImmD | ImmQ => 0x1C60
    case ImmB => 0x1C7C
    case ImmJ => 0x1FFC
    case _ => 0
  }

  predicate ImmFits(kind: Scatter, imm: bv64)
  {
    match kind
    case ImmI => imm >> 5 == 0 || imm >> 5 == 0x7FF_FFFF
    case ImmSh6 => imm < 0x40
    case ImmUi => imm & 0xFFF == 0 && (imm >> 17 == 0 || imm >> 17 == 0x7FFF)
    case Imm16sp => imm & 15 == 0 && (imm >> 9 == 0 || imm >> 9 == 0x7F_FFFF)
    case ImmLwsp => imm < 0x100 && imm & 3 == 0
    case ImmLdsp => imm < 0x200 && imm & 7 == 0
    case ImmLqsp => imm < 0x400 && imm & 15 == 0
    case ImmSwsp => imm < 0x100 && imm & 3 == 0
    case ImmSdsp => imm < 0x200 && imm & 7 == 0
    case ImmSqsp => imm < 0x400 && imm & 15 == 0
    case Imm4spn => imm < 0x400 && imm & 3 == 0
    case ImmW => imm < 0x80 && imm & 3 == 0
    case ImmD => imm < 0x100 && imm & 7 == 0
    case ImmQ => imm < 0x200 && imm & 15 == 0
    case ImmB => imm & 1 == 0 && (imm >> 8 == 0 || imm >> 8 == 0xFF_FFFF)
    case ImmJ => imm & 1 == 0 && (imm >> 11 == 0 || imm >> 11 == 0x1F_FFFF)
    case _ => imm == 0
  }

  // The same for each kind of immediate.

  lemma IFound(imm: bv64, rest: bv64)
    requires ImmFits(ImmI, imm) && Part(rest, ImmBits(ImmI)) == 0
    ensures Part(PutImm(ImmI, imm), ImmBits(ImmI)) == PutImm(ImmI, imm)
    ensures ImmAt(ImmI, Beside(PutImm(ImmI, imm), rest)) == imm
  {}

  lemma Sh6Found(imm: bv64, rest: bv64)
    requires ImmFits(ImmSh6, imm) && Part(rest, ImmBits(ImmSh6)) == 0
    ensures Part(PutImm(ImmSh6, imm), ImmBits(ImmSh6)) == PutImm(ImmSh6, imm)
    ensures ImmAt(ImmSh6, Beside(PutImm(ImmSh6, imm), rest)) == imm
  {}

  lemma UiFound(imm: bv64, rest: bv64)
    requires ImmFits(ImmUi, imm) && Part(rest, ImmBits(ImmUi)) == 0
    ensures Part(PutImm(ImmUi, imm), ImmBits(ImmUi)) == PutImm(ImmUi, imm)
    ensures ImmAt(ImmUi, Beside(PutImm(ImmUi, imm), rest)) == imm
  {}

  lemma Addi16spFound(imm: bv64, rest: bv64)
    requires ImmFits(Imm16sp, imm) && Part(rest, ImmBits(Imm16sp)) == 0
    ensures Part(PutImm(Imm16sp, imm), ImmBits(Imm16sp)) == PutImm(Imm16sp, imm)
    ensures ImmAt(Imm16sp, Beside(PutImm(Imm16sp, imm), rest)) == imm
  {}

  lemma Addi16spTaken(inst: bv64)
    ensures PutImm(Imm16sp, ImmAt(Imm16sp, inst)) == Part(inst, ImmBits(Imm16sp))
    ensures ImmFits(Imm16sp, ImmAt(Imm16sp, inst))
  {}

  lemma LwspFound(imm: bv64, rest: bv64)
    requires ImmFits(ImmLwsp, imm) && Part(rest, ImmBits(ImmLwsp)) == 0
    ensures Part(PutImm(ImmLwsp, imm), ImmBits(ImmLwsp)) == PutImm(ImmLwsp, imm)
    ensures ImmAt(ImmLwsp, Beside(PutImm(ImmLwsp, imm), rest)) == imm
  {}

  lemma LdspFound(imm: bv64, rest: bv64)
    requires ImmFits(ImmLdsp, imm) && Part(rest, ImmBits(ImmLdsp)) == 0
    ensures Part(PutImm(ImmLdsp, imm), ImmBits(ImmLdsp)) == PutImm(ImmLdsp, imm)
    ensures ImmAt(ImmLdsp, Beside(PutImm(ImmLdsp, imm), rest)) == imm
  {}

  lemma LqspFound(imm: bv64, rest: bv64)
    requires ImmFits(ImmLqsp, imm) && Part(rest, ImmBits(ImmLqsp)) == 0
    ensures Part(PutImm(ImmLqsp, imm), ImmBits(ImmLqsp)) == PutImm(ImmLqsp, imm)
    ensures ImmAt(ImmLqsp, Beside(PutImm(ImmLqsp, imm), rest)) == imm
  {}

  lemma SwspFound(imm: bv64, rest: bv64)
    requires ImmFits(ImmSwsp, imm) && Part(rest, ImmBits(ImmSwsp)) == 0
    ensures Part(PutImm(ImmSwsp, imm), ImmBits(ImmSwsp)) == PutImm(ImmSwsp, imm)
    ensures ImmAt(ImmSwsp, Beside(PutImm(ImmSwsp, imm), rest)) == imm
  {}

  lemma SdspFound(imm: bv64, rest: bv64)
    requires ImmFits(ImmSdsp, imm) && Part(rest, ImmBits(ImmSdsp)) == 0
    ensures Part(PutImm(ImmSdsp, imm), ImmBits(ImmSdsp)) == PutImm(ImmSdsp, imm)
    ensures ImmAt(ImmSdsp, Beside(PutImm(ImmSdsp, imm), rest)) == imm
  {}

  lemma SqspFound(imm: bv64, rest: bv64)
    requires ImmFits(ImmSqsp, imm) && Part(rest, ImmBits(ImmSqsp)) == 0
    ensures Part(PutImm(ImmSqsp, imm), ImmBits(ImmSqsp)) == PutImm(ImmSqsp, imm)
    ensures ImmAt(ImmSqsp, Beside(PutImm(ImmSqsp, imm), rest)) == imm
  {}

  lemma Addi4spnFound(imm: bv64, rest: bv64)
    requires ImmFits(Imm4spn, imm) && Part(rest, ImmBits(Imm4spn)) == 0
    ensures Part(PutImm(Imm4spn, imm), ImmBits(Imm4spn)) == PutImm(Imm4spn, imm)
    ensures ImmAt(Imm4spn, Beside(PutImm(Imm4spn, imm), rest)) == imm
  {}

  lemma Addi4spnTaken(inst: bv64)
    ensures PutImm(Imm4spn, ImmAt(Imm4spn, inst)) == Part(inst, ImmBits(Imm4spn))
    ensures ImmFits(Imm4spn, ImmAt(Imm4spn, inst))
  {}

  lemma WFound(imm: bv64, rest: bv64)
    requires ImmFits(ImmW, imm) && Part(rest, ImmBits(ImmW)) == 0
    ensures Part(PutImm(ImmW, imm), ImmBits(ImmW)) == PutImm(ImmW, imm)
    ensures ImmAt(ImmW, Beside(PutImm(ImmW, imm), rest)) == imm
  {}

  lemma DFound(imm: bv64, rest: bv64)
    requires ImmFits(ImmD, imm) && Part(rest, ImmBits(ImmD)) == 0
    ensures Part(PutImm(ImmD, imm), ImmBits(ImmD)) == PutImm(ImmD, imm)
    ensures ImmAt(ImmD, Beside(PutImm(ImmD, imm), rest)) == imm
  {}

  lemma QFound(imm: bv64, rest: bv64)
    requires ImmFits(ImmQ, imm) && Part(rest, ImmBits(ImmQ)) == 0
    ensures Part(PutImm(ImmQ, imm), ImmBits(ImmQ)) == PutImm(ImmQ, imm)
    ensures ImmAt(ImmQ, Beside(PutImm(ImmQ, imm), rest)) == imm
  {}

  lemma BFound(imm: bv64, rest: bv64)
    requires ImmFits(ImmB, imm) && Part(rest, ImmBits(ImmB)) == 0
    ensures Part(PutImm(ImmB, imm), ImmBits(ImmB)) == PutImm(ImmB, imm)
    ensures ImmAt(ImmB, Beside(PutImm(ImmB, imm), rest)) == imm
  {}

  lemma BTaken(inst: bv64)
    ensures PutImm(ImmB, ImmAt(ImmB, inst)) == Part(inst, ImmBits(ImmB)) && ImmFits(ImmB, ImmAt(ImmB, inst))
  {}

  lemma JFound(imm: bv64, rest: bv64)
    requires ImmFits(ImmJ, imm) && Part(rest, ImmBits(ImmJ)) == 0
    ensures Part(PutImm(ImmJ, imm), ImmBits(ImmJ)) == PutImm(ImmJ, imm)
    ensures ImmAt(ImmJ, Beside(PutImm(ImmJ, imm), rest)) == imm
  {}

  lemma JTaken(inst: bv64)
    ensures PutImm(ImmJ, ImmAt(ImmJ, inst)) == Part(inst, ImmBits(ImmJ)) && ImmFits(ImmJ, ImmAt(ImmJ, inst))
  {}

  lemma NoFound(imm: bv64, rest: bv64)
    requires ImmFits(NoImm, imm) && Part(rest, ImmBits(NoImm)) == 0
    ensures Part(PutImm(NoImm, imm), ImmBits(NoImm)) == PutImm(NoImm, imm)
    ensures ImmAt(NoImm, Beside(PutImm(NoImm, imm), rest)) == imm
  {}

  predicate ImmKept(kind: Scatter, inst: bv64)
  {
    PutImm(kind, ImmAt(kind, inst)) == Part(inst, ImmBits(kind)) && ImmFits(kind, ImmAt(kind, inst))
  }

  lemma SmallTaken(inst: bv64)
    ensures ImmKept(NoImm, inst) && ImmKept(ImmI, inst) && ImmKept(ImmSh6, inst) && ImmKept(ImmUi, inst)
  {}

  lemma SpLoadTaken(inst: bv64)
    ensures ImmKept(ImmLwsp, inst) && ImmKept(ImmLdsp, inst) && ImmKept(ImmLqsp, inst)
  {}

  lemma SpStoreTaken(inst: bv64)
    ensures ImmKept(ImmSwsp, inst) && ImmKept(ImmSdsp, inst) && ImmKept(ImmSqsp, inst)
  {}

  lemma OffsetTaken(inst: bv64)
    ensures ImmKept(ImmW, inst) && ImmKept(ImmD, inst) && ImmKept(ImmQ, inst)
  {}

  lemma ImmediateFound(kind: Scatter, imm: bv64, rest: bv64)
    requires ImmFits(kind, imm) && Part(rest, ImmBits(kind)) == 0
    ensures Part(PutImm(kind, imm), ImmBits(kind)) == PutImm(kind, imm)
    ensures ImmAt(kind, Beside(PutImm(kind, imm), rest)) == imm
  {
    hide PutImm, ImmAt, ImmBits, ImmFits, Part, Beside;
    match kind
    case ImmI => IFound(imm, rest);
    case ImmSh6 => Sh6Found(imm, rest);
    case ImmUi => UiFound(imm, rest);
    case Imm16sp => Addi16spFound(imm, rest);
    case ImmLwsp => LwspFound(imm, rest);
    case ImmLdsp => LdspFound(imm, rest);
    case ImmLqsp => LqspFound(imm, rest);
    case ImmSwsp => SwspFound(imm, rest);
    case ImmSdsp => SdspFound(imm, rest);
    case ImmSqsp => SqspFound(imm, rest);
    case Imm4spn => Addi4spnFound(imm, rest);
    case ImmW => WFound(imm, rest);
    case ImmD => DFound(imm, rest);
    case ImmQ => QFound(imm, rest);
    case ImmB => BFound(imm, rest);
    case ImmJ => JFound(imm, rest);
    case NoImm => NoFound(imm, rest);
  }

  lemma ImmediateTaken(kind: Scatter, inst: bv64)
    ensures PutImm(kind, ImmAt(kind, inst)) == Part(inst, ImmBits(kind)) && ImmFits(kind, ImmAt(kind, inst))
  {
    hide PutImm, ImmAt, ImmBits, ImmFits, Part;
    match kind
    case NoImm | ImmI | ImmSh6 | ImmUi => SmallTaken(inst);
    case ImmLwsp | ImmLdsp | ImmLqsp => SpLoadTaken(inst);
    case ImmSwsp | ImmSdsp | ImmSqsp => SpStoreTaken(inst);
    case ImmW | ImmD | ImmQ => OffsetTaken(inst);
    case Imm16sp => Addi16spTaken(inst);
    case Imm4spn => Addi4spnTaken(inst);
    case ImmB => BTaken(inst);
    case ImmJ => JTaken(inst);
  }

  // The decoder finds every operand where the layout has it.

  lemma RdWhere(codec: Codec, inst: bv64)
    requires IsParcelLayout(codec)
    ensures RdIn(codec, inst) == RegAt(RdSpot(codec), inst)
  {
    hide RdOf, Rs1Of, Rs2Of, Rs3Of, AqOf, RlOf, PredOf, SuccOf, RmOf, Shamt5, Shamt6, Shamt7, Csr12, CrdQ,
      Crs1Q, Crs1, Crs2, Imm12, Imm20, Jimm20, Simm12, Sbimm12, CimmSh5, CimmSh6, CimmI, CimmUi, CimmLwsp,
      CimmLdsp, CimmLqsp, Cimm16sp, CimmJ, CimmB, CimmSwsp, CimmSdsp, CimmSqsp, Cimm4spn, CimmW, CimmD, CimmQ;
  }

  lemma Rs1Where(codec: Codec, inst: bv64)
    requires IsParcelLayout(codec)
    ensures Rs1In(codec, inst) == if Rs1Spot(codec) == SameAsRd then RdIn(codec, inst) else RegAt(Rs1Spot(codec), inst)
  {
    hide RdOf, Rs1Of, Rs2Of, Rs3Of, AqOf, RlOf, PredOf, SuccOf, RmOf, Shamt5, Shamt6, Shamt7, Csr12, CrdQ,
      Crs1Q, Crs1, Crs2, Imm12, Imm20, Jimm20, Simm12, Sbimm12, CimmSh5, CimmSh6, CimmI, CimmUi, CimmLwsp,
      CimmLdsp, CimmLqsp, Cimm16sp, CimmJ, CimmB, CimmSwsp, CimmSdsp, CimmSqsp, Cimm4spn, CimmW, CimmD, CimmQ;
  }

  lemma Rs2Where(codec: Codec, inst: bv64)
    requires IsParcelLayout(codec)
    ensures Rs2In(codec, inst) == RegAt(Rs2Spot(codec), inst)
  {
    hide RdOf, Rs1Of, Rs2Of, Rs3Of, AqOf, RlOf, PredOf, SuccOf, RmOf, Shamt5, Shamt6, Shamt7, Csr12, CrdQ,
      Crs1Q, Crs1, Crs2, Imm12, Imm20, Jimm20, Simm12, Sbimm12, CimmSh5, CimmSh6, CimmI, CimmUi, CimmLwsp,
      CimmLdsp, CimmLqsp, Cimm16sp, CimmJ, CimmB, CimmSwsp, CimmSdsp, CimmSqsp, Cimm4spn, CimmW, CimmD, CimmQ;
  }

  lemma ImmWhere(codec: Codec, inst: bv64)
    requires IsParcelLayout(codec)
    ensures ImmIn(codec, inst) == ImmAt(ImmSpot(codec), inst)
  {
    hide RdOf, Rs1Of, Rs2Of, Rs3Of, AqOf, RlOf, PredOf, SuccOf, RmOf, Shamt5, Shamt6, Shamt7, Csr12, CrdQ,
      Crs1Q, Crs1, Crs2, Imm12, Imm20, Jimm20, Simm12, Sbimm12, CimmSh5, CimmSh6, CimmI, CimmUi, CimmLwsp,
      CimmLdsp, CimmLqsp, Cimm16sp, CimmJ, CimmB, CimmSwsp, CimmSdsp, CimmSqsp, Cimm4spn, CimmW, CimmD, CimmQ;
  }

  // A whole layout: a word from its operands, and the bits they take.

  function EncodeParcel(codec: Codec, f: Fields): bv64
  {
    Beside(PutReg(RdSpot(codec), f.rd),
           Beside(PutReg(Rs1Spot(codec), f.rs1), Beside(PutReg(Rs2Spot(codec), f.rs2), PutImm(ImmSpot(codec), f.imm))))
  }

  function BitsOf(rd: Spot, rs1: Spot, rs2: Spot, imm: Scatter): bv64
  {
    Beside(SpotBits(rd), Beside(SpotBits(rs1), Beside(SpotBits(rs2), ImmBits(imm))))
  }

  function ParcelBits(codec: Codec): bv64
  {
    BitsOf(RdSpot(codec), Rs1Spot(codec), Rs2Spot(codec), ImmSpot(codec))
  }

  predicate InLayout(codec: Codec, f: Fields)
  {
    && RegFits(RdSpot(codec), f.rd) && RegFits(Rs1Spot(codec), f.rs1) && RegFits(Rs2Spot(codec), f.rs2)
    && (Rs1Spot(codec) == SameAsRd ==> f.rs1 == f.rd)
    && ImmFits(ImmSpot(codec), f.imm) && f.extra == NoExtra()
  }

  lemma NoExtraIn(codec: Codec, inst: bv64)
    requires IsParcelLayout(codec)
    ensures ExtraIn(codec, inst) == NoExtra()
  {}

  lemma SourceTaken(codec: Codec, inst: bv64)
    requires IsParcelLayout(codec)
    ensures PutReg(Rs1Spot(codec), Rs1In(codec, inst)) == Part(inst, SpotBits(Rs1Spot(codec)))
    ensures RegFits(Rs1Spot(codec), Rs1In(codec, inst))
  {
    hide RdIn, Rs1In, RegAt, IsParcelLayout, Rs1Spot, Part;
    Rs1Where(codec, inst);
    if Rs1Spot(codec) == SameAsRd {
      TiedTaken(Rs1In(codec, inst), inst);
    } else {
      RegisterTaken(Rs1Spot(codec), inst);
    }
  }

  // The operands read from a word are in range, and put together they are the word again, as far as
  // the layout goes.
  lemma TakenApart(codec: Codec, inst: bv64)
    requires IsParcelLayout(codec)
    ensures var f := OperandsOf(codec, inst);
      InLayout(codec, f) && EncodeParcel(codec, f) == Part(inst, ParcelBits(codec))
  {
    hide RdIn, Rs1In, Rs2In, ImmIn, ExtraIn, RegAt, PutReg, SpotBits, RegFits, IsParcelLayout, RdSpot, Rs1Spot, Rs2Spot,
      ImmSpot, PutImm, ImmAt, ImmBits, ImmFits, Part, Beside;
    RdWhere(codec, inst);
    Rs1Where(codec, inst);
    Rs2Where(codec, inst);
    ImmWhere(codec, inst);
    NoExtraIn(codec, inst);
    RegisterTaken(RdSpot(codec), inst);
    SourceTaken(codec, inst);
    RegisterTaken(Rs2Spot(codec), inst);
    ImmediateTaken(ImmSpot(codec), inst);
    var (rd, rs1, rs2, imm) :=
      (SpotBits(RdSpot(codec)), SpotBits(Rs1Spot(codec)), SpotBits(Rs2Spot(codec)), ImmBits(ImmSpot(codec)));
    PartsJoin(inst, rs2, imm);
    PartsJoin(inst, rs1, Beside(rs2, imm));
    PartsJoin(inst, rd, Beside(rs1, Beside(rs2, imm)));
  }

  // No two operands share a bit.

  lemma RdAndRs1Apart(codec: Codec)
    ensures Part(SpotBits(RdSpot(codec)), SpotBits(Rs1Spot(codec))) == 0
  {}

  lemma RdAndRs2Apart(codec: Codec)
    ensures Part(SpotBits(RdSpot(codec)), SpotBits(Rs2Spot(codec))) == 0
  {}

  lemma SourcesApart(codec: Codec)
    ensures Part(SpotBits(Rs1Spot(codec)), SpotBits(Rs2Spot(codec))) == 0
  {}

  lemma RdApart(codec: Codec)
    ensures Part(SpotBits(RdSpot(codec)), ImmBits(ImmSpot(codec))) == 0
  {}

  lemma Rs1Apart(codec: Codec)
    ensures Part(SpotBits(Rs1Spot(codec)), ImmBits(ImmSpot(codec))) == 0
  {}

  lemma Rs2Apart(codec: Codec)
    ensures Part(SpotBits(Rs2Spot(codec)), ImmBits(ImmSpot(codec))) == 0
  {}

  // The rest of a word is clear of an operand's bits if every piece of it is.

  lemma ClearOf(bits: bv64, x: bv64, y: bv64)
    requires Part(x, bits) == 0 && Part(y, bits) == 0
    ensures Part(Beside(x, y), bits) == 0
  {}

  lemma FixedClear(fixed: bv64, x: bv64, y: bv64)
    requires Part(fixed, Beside(x, y)) == 0
    ensures Part(fixed, x) == 0 && Part(fixed, y) == 0
  {}

  lemma SwapFirst(x: bv64, y: bv64, z: bv64)
    ensures Beside(x, Beside(y, z)) == Beside(y, Beside(x, z))
  {}

  lemma Regroup(x: bv64, y: bv64, z: bv64)
    ensures Beside(Beside(x, y), z) == Beside(x, Beside(y, z))
  {}

  // The register at one spot of a word, the other pieces being x, y and z.
  lemma RegisterAmong(spot: Spot, r: bv64, x: bv64, xBits: bv64, y: bv64, yBits: bv64, z: bv64,
      zBits: bv64, fixed: bv64)
    requires RegFits(spot, r) && spot != SameAsRd
    requires Part(x, xBits) == x && Part(y, yBits) == y && Part(z, zBits) == z
    requires Part(SpotBits(spot), xBits) == 0 && Part(SpotBits(spot), yBits) == 0 && Part(SpotBits(spot), zBits) == 0
    requires Part(fixed, SpotBits(spot)) == 0
    ensures RegAt(spot, Beside(PutReg(spot, r), Beside(x, Beside(y, Beside(z, fixed))))) == r
  {
    hide Part, Beside, SpotBits, PutReg, RegAt, RegFits;
    PieceClear(SpotBits(spot), x, xBits);
    PieceClear(SpotBits(spot), y, yBits);
    PieceClear(SpotBits(spot), z, zBits);
    ClearOf(SpotBits(spot), z, fixed);
    ClearOf(SpotBits(spot), y, Beside(z, fixed));
    ClearOf(SpotBits(spot), x, Beside(y, Beside(z, fixed)));
    RegisterFound(spot, r, Beside(x, Beside(y, Beside(z, fixed))));
  }

  lemma ImmediateAmong(kind: Scatter, imm: bv64, x: bv64, xBits: bv64, y: bv64, yBits: bv64, z: bv64,
      zBits: bv64, fixed: bv64)
    requires ImmFits(kind, imm)
    requires Part(x, xBits) == x && Part(y, yBits) == y && Part(z, zBits) == z
    requires Part(ImmBits(kind), xBits) == 0 && Part(ImmBits(kind), yBits) == 0 && Part(ImmBits(kind), zBits) == 0
    requires Part(fixed, ImmBits(kind)) == 0
    ensures ImmAt(kind, Beside(PutImm(kind, imm), Beside(x, Beside(y, Beside(z, fixed))))) == imm
  {
    hide Part, Beside, ImmBits, PutImm, ImmAt, ImmFits;
    PieceClear(ImmBits(kind), x, xBits);
    PieceClear(ImmBits(kind), y, yBits);
    PieceClear(ImmBits(kind), z, zBits);
    ClearOf(ImmBits(kind), z, fixed);
    ClearOf(ImmBits(kind), y, Beside(z, fixed));
    ClearOf(ImmBits(kind), x, Beside(y, Beside(z, fixed)));
    ImmediateFound(kind, imm, Beside(x, Beside(y, Beside(z, fixed))));
  }

  // The pieces in any order.
  lemma Rotated(a: bv64, b: bv64, c: bv64, d: bv64, fixed: bv64)
    ensures var word := Beside(Beside(a, Beside(b, Beside(c, d))), fixed);
      && word == Beside(a, Beside(b, Beside(c, Beside(d, fixed))))
      && word == Beside(b, Beside(a, Beside(c, Beside(d, fixed))))
      && word == Beside(c, Beside(a, Beside(b, Beside(d, fixed))))
      && word == Beside(d, Beside(a, Beside(b, Beside(c, fixed))))
  {
    hide Beside;
    Regroup(a, Beside(b, Beside(c, d)), fixed);
    Regroup(b, Beside(c, d), fixed);
    Regroup(c, d, fixed);
    SwapFirst(a, b, Beside(c, Beside(d, fixed)));
    SwapFirst(b, c, Beside(d, fixed));
    SwapFirst(a, c, Beside(b, Beside(d, fixed)));
    SwapFirst(c, d, fixed);
    SwapFirst(b, d, Beside(c, fixed));
    SwapFirst(a, d, Beside(b, Beside(c, fixed)));
  }

  lemma AllApart(codec: Codec)
    ensures var (rd, rs1, rs2, imm) :=
        (SpotBits(RdSpot(codec)), SpotBits(Rs1Spot(codec)), SpotBits(Rs2Spot(codec)), ImmBits(ImmSpot(codec)));
      && Part(rd, rs1) == Part(rd, rs2) == Part(rd, imm) == 0
      && Part(rs1, rd) == Part(rs1, rs2) == Part(rs1, imm) == 0
      && Part(rs2, rd) == Part(rs2, rs1) == Part(rs2, imm) == 0
      && Part(imm, rd) == Part(imm, rs1) == Part(imm, rs2) == 0
  {
    hide Part, SpotBits, ImmBits, RdSpot, Rs1Spot, Rs2Spot, ImmSpot;
    var (rd, rs1, rs2, imm) :=
      (SpotBits(RdSpot(codec)), SpotBits(Rs1Spot(codec)), SpotBits(Rs2Spot(codec)), ImmBits(ImmSpot(codec)));
    RdAndRs1Apart(codec); RdAndRs2Apart(codec); SourcesApart(codec);
    RdApart(codec); Rs1Apart(codec); Rs2Apart(codec);
    PartSwap(rd, rs1); PartSwap(rd, rs2); PartSwap(rs1, rs2);
    PartSwap(rd, imm); PartSwap(rs1, imm); PartSwap(rs2, imm);
  }

  lemma DestinationRead(codec: Codec, f: Fields, fixed: bv64)
    requires InLayout(codec, f) && Part(fixed, ParcelBits(codec)) == 0
    ensures RdSpot(codec) != SameAsRd ==> RegAt(RdSpot(codec), Beside(EncodeParcel(codec, f), fixed)) == f.rd
  {
    hide RegAt, PutReg, SpotBits, RegFits, RdSpot, Rs1Spot, Rs2Spot, ImmSpot, PutImm, ImmAt, ImmBits, ImmFits, Part,
      Beside;
    var (rd, rs1, rs2, imm) :=
      (SpotBits(RdSpot(codec)), SpotBits(Rs1Spot(codec)), SpotBits(Rs2Spot(codec)), ImmBits(ImmSpot(codec)));
    var (a, b, c, d) := (PutReg(RdSpot(codec), f.rd), PutReg(Rs1Spot(codec), f.rs1), PutReg(Rs2Spot(codec), f.rs2),
      PutImm(ImmSpot(codec), f.imm));
    AllApart(codec);
    FixedClear(fixed, rd, Beside(rs1, Beside(rs2, imm)));
    FixedClear(fixed, rs1, Beside(rs2, imm));
    FixedClear(fixed, rs2, imm);
    RegisterWithin(Rs1Spot(codec), f.rs1);
    RegisterWithin(Rs2Spot(codec), f.rs2);
    ImmediateWithin(ImmSpot(codec), f.imm);
    Rotated(a, b, c, d, fixed);
    if RdSpot(codec) != SameAsRd {
      RegisterAmong(RdSpot(codec), f.rd, b, rs1, c, rs2, d, imm, fixed);
    }
  }

  lemma FirstSourceRead(codec: Codec, f: Fields, fixed: bv64)
    requires InLayout(codec, f) && Part(fixed, ParcelBits(codec)) == 0
    ensures Rs1Spot(codec) != SameAsRd ==> RegAt(Rs1Spot(codec), Beside(EncodeParcel(codec, f), fixed)) == f.rs1
  {
    hide RegAt, PutReg, SpotBits, RegFits, RdSpot, Rs1Spot, Rs2Spot, ImmSpot, PutImm, ImmAt, ImmBits, ImmFits, Part,
      Beside;
    var (rd, rs1, rs2, imm) :=
      (SpotBits(RdSpot(codec)), SpotBits(Rs1Spot(codec)), SpotBits(Rs2Spot(codec)), ImmBits(ImmSpot(codec)));
    var (a, b, c, d) := (PutReg(RdSpot(codec), f.rd), PutReg(Rs1Spot(codec), f.rs1), PutReg(Rs2Spot(codec), f.rs2),
      PutImm(ImmSpot(codec), f.imm));
    AllApart(codec);
    FixedClear(fixed, rd, Beside(rs1, Beside(rs2, imm)));
    FixedClear(fixed, rs1, Beside(rs2, imm));
    FixedClear(fixed, rs2, imm);
    RegisterWithin(RdSpot(codec), f.rd);
    RegisterWithin(Rs2Spot(codec), f.rs2);
    ImmediateWithin(ImmSpot(codec), f.imm);
    Rotated(a, b, c, d, fixed);
    if Rs1Spot(codec) != SameAsRd {
      RegisterAmong(Rs1Spot(codec), f.rs1, a, rd, c, rs2, d, imm, fixed);
    }
  }

  lemma SecondSourceRead(codec: Codec, f: Fields, fixed: bv64)
    requires InLayout(codec, f) && Part(fixed, ParcelBits(codec)) == 0
    ensures Rs2Spot(codec) != SameAsRd ==> RegAt(Rs2Spot(codec), Beside(EncodeParcel(codec, f), fixed)) == f.rs2
  {
    hide RegAt, PutReg, SpotBits, RegFits, RdSpot, Rs1Spot, Rs2Spot, ImmSpot, PutImm, ImmAt, ImmBits, ImmFits, Part,
      Beside;
    var (rd, rs1, rs2, imm) :=
      (SpotBits(RdSpot(codec)), SpotBits(Rs1Spot(codec)), SpotBits(Rs2Spot(codec)), ImmBits(ImmSpot(codec)));
    var (a, b, c, d) := (PutReg(RdSpot(codec), f.rd), PutReg(Rs1Spot(codec), f.rs1), PutReg(Rs2Spot(codec), f.rs2),
      PutImm(ImmSpot(codec), f.imm));
    AllApart(codec);
    FixedClear(fixed, rd, Beside(rs1, Beside(rs2, imm)));
    FixedClear(fixed, rs1, Beside(rs2, imm));
    FixedClear(fixed, rs2, imm);
    RegisterWithin(RdSpot(codec), f.rd);
    RegisterWithin(Rs1Spot(codec), f.rs1);
    ImmediateWithin(ImmSpot(codec), f.imm);
    Rotated(a, b, c, d, fixed);
    if Rs2Spot(codec) != SameAsRd {
      RegisterAmong(Rs2Spot(codec), f.rs2, a, rd, b, rs1, d, imm, fixed);
    }
  }

  lemma ImmediateRead(codec: Codec, f: Fields, fixed: bv64)
    requires InLayout(codec, f) && Part(fixed, ParcelBits(codec)) == 0
    ensures ImmAt(ImmSpot(codec), Beside(EncodeParcel(codec, f), fixed)) == f.imm
  {
    hide RegAt, PutReg, SpotBits, RegFits, RdSpot, Rs1Spot, Rs2Spot, ImmSpot, PutImm, ImmAt, ImmBits, ImmFits, Part,
      Beside;
    var (rd, rs1, rs2, imm) :=
      (SpotBits(RdSpot(codec)), SpotBits(Rs1Spot(codec)), SpotBits(Rs2Spot(codec)), ImmBits(ImmSpot(codec)));
    var (a, b, c, d) := (PutReg(RdSpot(codec), f.rd), PutReg(Rs1Spot(codec), f.rs1), PutReg(Rs2Spot(codec), f.rs2),
      PutImm(ImmSpot(codec), f.imm));
    AllApart(codec);
    FixedClear(fixed, rd, Beside(rs1, Beside(rs2, imm)));
    FixedClear(fixed, rs1, Beside(rs2, imm));
    FixedClear(fixed, rs2, imm);
    RegisterWithin(RdSpot(codec), f.rd);
    RegisterWithin(Rs1Spot(codec), f.rs1);
    RegisterWithin(Rs2Spot(codec), f.rs2);
    Rotated(a, b, c, d, fixed);
    ImmediateAmong(ImmSpot(codec), f.imm, a, rd, b, rs1, c, rs2, fixed);
  }

  // Operands in range are read back from the word they are put in, whatever its fixed bits are.
  lemma PutTogether(codec: Codec, f: Fields, fixed: bv64)
    requires IsParcelLayout(codec) && InLayout(codec, f) && Part(fixed, ParcelBits(codec)) == 0
    ensures OperandsOf(codec, Beside(EncodeParcel(codec, f), fixed)) == f
  {
    hide RdIn, Rs1In, Rs2In, ImmIn, ExtraIn, RegAt, PutReg, SpotBits, RegFits, IsParcelLayout, RdSpot, Rs1Spot, Rs2Spot,
      ImmSpot, PutImm, ImmAt, ImmBits, ImmFits, Part, Beside, EncodeParcel, BitsOf;
    var inst := Beside(EncodeParcel(codec, f), fixed);
    RdWhere(codec, inst);
    Rs1Where(codec, inst);
    Rs2Where(codec, inst);
    ImmWhere(codec, inst);
    NoExtraIn(codec, inst);
    OnlySourcesTied(codec);
    DestinationRead(codec, f, fixed);
    FirstSourceRead(codec, f, fixed);
    SecondSourceRead(codec, f, fixed);
    ImmediateRead(codec, f, fixed);
  }

  lemma RegisterWithin(spot: Spot, r: bv64)
    requires RegFits(spot, r)
    ensures Part(PutReg(spot, r), SpotBits(spot)) == PutReg(spot, r)
  {
    hide PutReg, RegAt, SpotBits, RegFits, Beside;
    RegisterFound(spot, r, 0);
  }

  lemma ImmediateWithin(kind: Scatter, imm: bv64)
    requires ImmFits(kind, imm)
    ensures Part(PutImm(kind, imm), ImmBits(kind)) == PutImm(kind, imm)
  {
    hide PutImm, ImmAt, ImmBits, ImmFits, Beside;
    ImmediateFound(kind, imm, 0);
  }

  lemma OnlySourcesTied(codec: Codec)
    ensures RdSpot(codec) != SameAsRd && Rs2Spot(codec) != SameAsRd
  {}
}

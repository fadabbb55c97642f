/** The encoders the trampolines are built from and the decoder the rewriter
    reads the program with (src/stub.rs, src/decode.rs).  Words are bv32 and
    addresses bv64, so every mask, truncation and wrap-around is the machine's.

    The lemmas say that encoder and decoder are inverse: an encoder succeeds for
    exactly the targets some word of its form can name, and the decoder reads
    its word back, operands and target. */
module Arm {
  import opened Wrappers

  /** wrapping_add and wrapping_sub */
  function Add(a: bv64, b: bv64): bv64 {
    a + b
  }

  function Sub(a: bv64, b: bv64): bv64 {
    a - b
  }

  /** The two's-complement order of the source's i64. */
  predicate Less(a: bv64, b: bv64) {
    (a ^ 0x8000_0000_0000_0000) < (b ^ 0x8000_0000_0000_0000)
  }

  /** i64 division by four, which truncates towards zero. */
  function Quarter(off: bv64): bv64 {
    if off >> 63 == 0 then off >> 2 else 0 - ((0 - off) >> 2)
  }

  function Low32(v: bv64): bv32 {
    (v & 0xFFFF_FFFF) as bv32
  }

  /** A byte offset is a multiple of four inside the reach of a field of 26, 19
      or 14 bits counting words. */
  predicate Fits26(off: bv64) {
    off & 3 == 0 && !Less(off, 0 - 0x800_0000) && Less(off, 0x800_0000)
  }

  predicate Fits19(off: bv64) {
    off & 3 == 0 && !Less(off, 0 - 0x10_0000) && Less(off, 0x10_0000)
  }

  predicate Fits14(off: bv64) {
    off & 3 == 0 && !Less(off, 0 - 0x8000) && Less(off, 0x8000)
  }

  // ----- Encoders -----

  /** The words, from the operands and the low half of the word offset. */
  function WordB(offset: bv32): bv32 {
    0x1400_0000 | (offset & 0x03FF_FFFF)
  }

  function WordBCond(cond: bv8, offset: bv32): bv32 {
    0x5400_0000 | ((offset & 0x7FFFF) << 5) | (cond as bv32)
  }

  function Flag(b: bool): bv32 {
    if b then 1 else 0
  }

  function WordCbz(sf: bool, rt: bv8, nonzero: bool, offset: bv32): bv32 {
    0x3400_0000 | (Flag(sf) << 31) | (Flag(nonzero) << 24) | ((offset & 0x7FFFF) << 5) | (rt as bv32)
  }

  function WordTbz(rt: bv8, bit: bv8, nonzero: bool, offset: bv32): bv32 {
    0x3600_0000 | (((bit >> 5) as bv32) << 31) | (Flag(nonzero) << 24) | (((bit & 31) as bv32) << 19)
    | ((offset & 0x3FFF) << 5) | (rt as bv32)
  }

  function WordAdrp(rd: bv8, pages: bv32): bv32 {
    0x9000_0000 | ((pages & 3) << 29) | (((pages >> 2) & 0x7_FFFF) << 5) | (rd as bv32)
  }

  function EncB(pc: bv64, target: bv64): Option<bv32> {
    var off := Sub(target, pc);
    if Fits26(off) then Some(WordB(Low32(Quarter(off)))) else None
  }

  function EncBl(pc: bv64, target: bv64): Option<bv32> {
    match EncB(pc, target)
    case None => None
    case Some(w) => Some(w | 0x8000_0000)
  }

  function EncBCond(cond: bv8, pc: bv64, target: bv64): Option<bv32> {
    var off := Sub(target, pc);
    if Fits19(off) then Some(WordBCond(cond, Low32(Quarter(off)))) else None
  }

  function EncCbz(sf: bool, rt: bv8, nonzero: bool, pc: bv64, target: bv64): Option<bv32> {
    var off := Sub(target, pc);
    if Fits19(off) then Some(WordCbz(sf, rt, nonzero, Low32(Quarter(off)))) else None
  }

  function EncTbz(rt: bv8, bit: bv8, nonzero: bool, pc: bv64, target: bv64): Option<bv32> {
    var off := Sub(target, pc);
    if Fits14(off) then Some(WordTbz(rt, bit, nonzero, Low32(Quarter(off)))) else None
  }

  function EncBr(rn: bv8): bv32 {
    0xD61F_0000 | ((rn as bv32) << 5)
  }

  /** Loads the address of target's page, which must lie within 4 GB of pc's. */
  function EncAdrp(rd: bv8, pc: bv64, target: bv64): Option<bv32> {
    var pages := (target >> 12) - (pc >> 12);
    if Less(pages, 0 - 0x10_0000) || !Less(pages, 0x10_0000) then
      None
    else
      Some(WordAdrp(rd, Low32(pages)))
  }

  function EncAddImm(rd: bv8, rn: bv8, imm: bv32): bv32 {
    0x9100_0000 | (imm << 10) | ((rn as bv32) << 5) | (rd as bv32)
  }

  /** `movz xd, #imm16, lsl #shift`: the lowest non-zero 16-bit chunk must be
      the only one. */
  function EncMovz(rd: bv8, value: bv64): Option<bv32> {
    if value & 0xFFFF != 0 || value == 0 then Movz(rd, value, 0)
    else if value & 0xFFFF_0000 != 0 then Movz(rd, value >> 16, 1)
    else if value & 0xFFFF_0000_0000 != 0 then Movz(rd, value >> 32, 2)
    else Movz(rd, value >> 48, 3)
  }

  function Movz(rd: bv8, imm: bv64, shift: bv32): Option<bv32> {
    if imm <= 0xFFFF then Some(0xD280_0000 | (shift << 21) | (Low32(imm) << 5) | (rd as bv32)) else None
  }

  /** A doubleword load or store at an offset from xn: a multiple of eight, below 32 KB. */
  function EncLdr(rt: bv8, rn: bv8, imm: bv32): bv32 {
    0xF940_0000 | ((imm >> 3) << 10) | ((rn as bv32) << 5) | (rt as bv32)
  }

  function EncStr(rt: bv8, rn: bv8, imm: bv32): bv32 {
    0xF900_0000 | ((imm >> 3) << 10) | ((rn as bv32) << 5) | (rt as bv32)
  }

  // ----- Decoder -----

  datatype Class =
    | B(target: bv64)
    | Bl(target: bv64)
    | BCond(cond: bv8, target: bv64)
    | Cbz(sf: bool, rt: bv8, nonzero: bool, target: bv64)
    | Tbz(rt: bv8, bit: bv8, nonzero: bool, target: bv64)
    | Br(rn: bv8)
    | Blr(rn: bv8)
    | Ret
    | Counter(rt: bv8)
    | Mem(base: bv8)
    | ExclusiveLoad
    | ExclusiveStore
    | StackAddr
    | Svc
    | Other

  const SP: bv8 := 31
  const FP: bv8 := 29

  /** Sign extension of the three immediate widths: up against the sign bit,
      then an arithmetic shift down. */
  function Sext26(v: bv64): bv64 {
    var top := v << 38;
    if top & 0x8000_0000_0000_0000 == 0 then top >> 38 else (top >> 38) | !(0xFFFF_FFFF_FFFF_FFFF >> 38)
  }

  function Sext19(v: bv64): bv64 {
    var top := v << 45;
    if top & 0x8000_0000_0000_0000 == 0 then top >> 45 else (top >> 45) | !(0xFFFF_FFFF_FFFF_FFFF >> 45)
  }

  function Sext14(v: bv64): bv64 {
    var top := v << 50;
    if top & 0x8000_0000_0000_0000 == 0 then top >> 50 else (top >> 50) | !(0xFFFF_FFFF_FFFF_FFFF >> 50)
  }

  function Imm26(w: bv32): bv64 { (w & 0x03FF_FFFF) as bv64 }

  function Imm19(w: bv32): bv64 { ((w >> 5) & 0x7FFFF) as bv64 }

  function Imm14(w: bv32): bv64 { ((w >> 5) & 0x3FFF) as bv64 }

  function Rel26(pc: bv64, w: bv32): bv64 { Add(pc, Sext26(Imm26(w)) * 4) }

  function Rel19(pc: bv64, w: bv32): bv64 { Add(pc, Sext19(Imm19(w)) * 4) }

  function Rel14(pc: bv64, w: bv32): bv64 { Add(pc, Sext14(Imm14(w)) * 4) }

  /** Register and bit-number fields. */
  function Rt(w: bv32): bv8 { (w & 0x1F) as bv8 }

  function Rn(w: bv32): bv8 { ((w >> 5) & 0x1F) as bv8 }

  function BitNumber(w: bv32): bv8 { (((w >> 31) << 5) | ((w >> 19) & 0x1F)) as bv8 }

  function Decode(w: bv32, pc: bv64): Class {
    if w & 0xFFFF_FFE0 == 0xD53B_E040 || w & 0xFFFF_FFE0 == 0xD53B_E020 then
      Counter(Rt(w))
    else if w & 0xFC00_0000 == 0x1400_0000 then
      B(Rel26(pc, w))
    else if w & 0xFC00_0000 == 0x9400_0000 then
      Bl(Rel26(pc, w))
    else if w & 0xFF00_0000 == 0x5400_0000 then
      if (w & 0xF) as bv8 >= 14 then B(Rel19(pc, w)) else BCond((w & 0xF) as bv8, Rel19(pc, w))
    else if w & 0x7E00_0000 == 0x3400_0000 then
      Cbz(w >> 31 != 0, Rt(w), w & 0x0100_0000 != 0, Rel19(pc, w))
    else if w & 0x7E00_0000 == 0x3600_0000 then
      Tbz(Rt(w), BitNumber(w), w & 0x0100_0000 != 0, Rel14(pc, w))
    else if w & 0xFFFF_FC1F == 0xD61F_0000 then
      Br(Rn(w))
    else if w & 0xFFFF_FC1F == 0xD63F_0000 then
      Blr(Rn(w))
    else if w & 0xFFFF_FC1F == 0xD65F_0000 then
      Ret
    else if w & 0xFFE0_001F == 0xD400_0001 then
      Svc
    else if w & 0x0A00_0000 == 0x0800_0000 then
      DecodeMem(w)
    else if w & 0x1F80_0000 == 0x1100_0000 && w >> 31 != 0 && Rt(w) != SP && (Rn(w) == SP || Rn(w) == FP)
            && !(Rn(w) == SP && Rt(w) == FP) then
      StackAddr
    else if w & 0x1FE0_03E0 == 0x0B20_03E0 && w >> 31 != 0 && Rt(w) != SP then
      StackAddr
    else
      Other
  }

  function DecodeMem(w: bv32): (c: Class)
    ensures c.Mem? || c.ExclusiveLoad? || c.ExclusiveStore? || c.Other?
  {
    if w & 0x3B00_0000 == 0x1800_0000 then
      Other
    else if w & 0x3F00_0000 == 0x0800_0000 then
      if w & 0x0080_0000 == 0 then
        if w >> 31 == 0 && w & 0x0020_0000 != 0 then Mem(Rn(w))
        else if w & 0x0040_0000 != 0 then ExclusiveLoad
        else ExclusiveStore
      else
        Mem(Rn(w))
    else if w & 0xBF00_0000 == 0x0C00_0000 then
      Mem(Rn(w))
    else if w & 0x3B00_0000 == 0x3900_0000 then
      if w & 0xFFC0_0000 == 0xF980_0000 then Other else Mem(Rn(w))
    else if w & 0x3B00_0000 == 0x3800_0000 then
      if w & 0x0020_0000 == 0 then
        if (w >> 10) & 3 == 2 || w & 0xFFE0_0C00 == 0xF880_0000 then Other else Mem(Rn(w))
      else if (w >> 10) & 3 == 2 then
        if w & 0xFFE0_0C00 == 0xF8A0_0800 then Other else Mem(Rn(w))
      else if (w >> 10) & 3 == 0 then
        Mem(Rn(w))
      else
        Other
    else if w & 0x3A00_0000 == 0x2800_0000 then
      Mem(Rn(w))
    else
      Other
  }

  function InvertCond(cond: bv8): bv8 {
    cond ^ 1
  }

  // ----- Offsets as words -----

  /** Division by four of a multiple of four is an arithmetic shift. */
  lemma QuarterShifts(off: bv64)
    requires off & 3 == 0
    ensures Quarter(off) == (off >> 2) | ((0 - (off >> 63)) << 62)
  {
    if off >> 63 == 0 {
      QuarterUp(off);
    } else {
      QuarterDown(off);
    }
  }

  lemma QuarterUp(off: bv64)
    requires off >> 63 == 0
    ensures off >> 2 == (off >> 2) | ((0 - (off >> 63)) << 62)
  {}

  lemma QuarterDown(off: bv64)
    requires off >> 63 != 0 && off & 3 == 0
    ensures 0 - ((0 - off) >> 2) == (off >> 2) | ((0 - (off >> 63)) << 62)
  {}

  lemma Sext26Is(v: bv64)
    requires v <= 0x3FF_FFFF
    ensures v & 0x200_0000 == 0 ==> Sext26(v) == v
    ensures v & 0x200_0000 != 0 ==> Sext26(v) == v | 0xFFFF_FFFF_FC00_0000
  {}

  lemma Extend26(q: bv64, v: bv64)
    requires q + 0x200_0000 < 0x400_0000 && v == q & 0x3FF_FFFF
    ensures Sext26(v) == q
  {
    hide Sext26;
    Sext26Is(v);
    assert v & 0x200_0000 == 0 ==> v == q;
    assert v & 0x200_0000 != 0 ==> v | 0xFFFF_FFFF_FC00_0000 == q;
  }

  lemma Quotient26(off: bv64, q: bv64)
    requires off & 3 == 0 && q == (off >> 2) | ((0 - (off >> 63)) << 62)
    ensures q * 4 == off && (Fits26(off) <==> q + 0x200_0000 < 0x400_0000)
  {}

  lemma Product26(q: bv64)
    requires q + 0x200_0000 < 0x400_0000
    ensures (q * 4) & 3 == 0 && Fits26(q * 4)
    ensures q == ((q * 4) >> 2) | ((0 - ((q * 4) >> 63)) << 62)
  {}

  /** An offset in reach comes back from its field. */
  lemma Offset26(off: bv64, q: bv64, v: bv64)
    requires Fits26(off) && q == Quarter(off) && v == q & 0x3FF_FFFF
    ensures v <= 0x3FF_FFFF && Sext26(v) == q && q * 4 == off
  {
    hide Sext26, Quarter;
    QuarterShifts(off);
    Quotient26(off, q);
    Extend26(q, v);
  }

  lemma InReach26(q: bv64, off: bv64)
    requires q + 0x200_0000 < 0x400_0000 && off == q * 4
    ensures off & 3 == 0 && Fits26(off) && q == (off >> 2) | ((0 - (off >> 63)) << 62)
  {
    Product26(q);
  }

  /** Every value of the field is the offset of some target in reach. */
  lemma Field26(v: bv64, q: bv64, off: bv64)
    requires v <= 0x3FF_FFFF && q == Sext26(v) && off == q * 4
    ensures Fits26(off) && Quarter(off) == q && q & 0x3FF_FFFF == v
  {
    hide Sext26, Fits26, Quarter;
    Sext26Is(v);
    Masked26(v, q);
    InReach26(q, off);
    QuarterShifts(off);
  }

  lemma Masked26(v: bv64, q: bv64)
    requires v <= 0x3FF_FFFF
    requires v & 0x200_0000 == 0 ==> q == v
    requires v & 0x200_0000 != 0 ==> q == v | 0xFFFF_FFFF_FC00_0000
    ensures q + 0x200_0000 < 0x400_0000 && q & 0x3FF_FFFF == v
  {
    if v & 0x200_0000 == 0 {
      Positive26(v, q);
    } else {
      Negative26(v, q);
    }
  }

  lemma Positive26(v: bv64, q: bv64)
    requires v <= 0x3FF_FFFF && v & 0x200_0000 == 0 && q == v
    ensures q + 0x200_0000 < 0x400_0000 && q & 0x3FF_FFFF == v
  {}

  lemma Negative26(v: bv64, q: bv64)
    requires v <= 0x3FF_FFFF && v & 0x200_0000 != 0 && q == v | 0xFFFF_FFFF_FC00_0000
    ensures q + 0x200_0000 < 0x400_0000 && q & 0x3FF_FFFF == v
  {}

  lemma Sext19Is(v: bv64)
    requires v <= 0x7_FFFF
    ensures v & 0x4_0000 == 0 ==> Sext19(v) == v
    ensures v & 0x4_0000 != 0 ==> Sext19(v) == v | 0xFFFF_FFFF_FFF8_0000
  {}

  lemma Extend19(q: bv64, v: bv64)
    requires q + 0x4_0000 < 0x8_0000 && v == q & 0x7_FFFF
    ensures Sext19(v) == q
  {
    hide Sext19;
    Sext19Is(v);
    assert v & 0x4_0000 == 0 ==> v == q;
    assert v & 0x4_0000 != 0 ==> v | 0xFFFF_FFFF_FFF8_0000 == q;
  }

  lemma Quotient19(off: bv64, q: bv64)
    requires off & 3 == 0 && q == (off >> 2) | ((0 - (off >> 63)) << 62)
    ensures q * 4 == off && (Fits19(off) <==> q + 0x4_0000 < 0x8_0000)
  {}

  lemma Product19(q: bv64)
    requires q + 0x4_0000 < 0x8_0000
    ensures (q * 4) & 3 == 0 && Fits19(q * 4)
    ensures q == ((q * 4) >> 2) | ((0 - ((q * 4) >> 63)) << 62)
  {}

  /** An offset in reach comes back from its field. */
  lemma Offset19(off: bv64, q: bv64, v: bv64)
    requires Fits19(off) && q == Quarter(off) && v == q & 0x7_FFFF
    ensures v <= 0x7_FFFF && Sext19(v) == q && q * 4 == off
  {
    hide Sext19, Quarter;
    QuarterShifts(off);
    Quotient19(off, q);
    Extend19(q, v);
  }

  lemma InReach19(q: bv64, off: bv64)
    requires q + 0x4_0000 < 0x8_0000 && off == q * 4
    ensures off & 3 == 0 && Fits19(off) && q == (off >> 2) | ((0 - (off >> 63)) << 62)
  {
    Product19(q);
  }

  /** Every value of the field is the offset of some target in reach. */
  lemma Field19(v: bv64, q: bv64, off: bv64)
    requires v <= 0x7_FFFF && q == Sext19(v) && off == q * 4
    ensures Fits19(off) && Quarter(off) == q && q & 0x7_FFFF == v
  {
    hide Sext19, Fits19, Quarter;
    Sext19Is(v);
    Masked19(v, q);
    InReach19(q, off);
    QuarterShifts(off);
  }

  lemma Masked19(v: bv64, q: bv64)
    requires v <= 0x7_FFFF
    requires v & 0x4_0000 == 0 ==> q == v
    requires v & 0x4_0000 != 0 ==> q == v | 0xFFFF_FFFF_FFF8_0000
    ensures q + 0x4_0000 < 0x8_0000 && q & 0x7_FFFF == v
  {
    if v & 0x4_0000 == 0 {
      Positive19(v, q);
    } else {
      Negative19(v, q);
    }
  }

  lemma Positive19(v: bv64, q: bv64)
    requires v <= 0x7_FFFF && v & 0x4_0000 == 0 && q == v
    ensures q + 0x4_0000 < 0x8_0000 && q & 0x7_FFFF == v
  {}

  lemma Negative19(v: bv64, q: bv64)
    requires v <= 0x7_FFFF && v & 0x4_0000 != 0 && q == v | 0xFFFF_FFFF_FFF8_0000
    ensures q + 0x4_0000 < 0x8_0000 && q & 0x7_FFFF == v
  {}

  lemma Sext14Is(v: bv64)
    requires v <= 0x3FFF
    ensures v & 0x2000 == 0 ==> Sext14(v) == v
    ensures v & 0x2000 != 0 ==> Sext14(v) == v | 0xFFFF_FFFF_FFFF_C000
  {}

  lemma Extend14(q: bv64, v: bv64)
    requires q + 0x2000 < 0x4000 && v == q & 0x3FFF
    ensures Sext14(v) == q
  {
    hide Sext14;
    Sext14Is(v);
    assert v & 0x2000 == 0 ==> v == q;
    assert v & 0x2000 != 0 ==> v | 0xFFFF_FFFF_FFFF_C000 == q;
  }

  lemma Quotient14(off: bv64, q: bv64)
    requires off & 3 == 0 && q == (off >> 2) | ((0 - (off >> 63)) << 62)
    ensures q * 4 == off && (Fits14(off) <==> q + 0x2000 < 0x4000)
  {}

  lemma Product14(q: bv64)
    requires q + 0x2000 < 0x4000
    ensures (q * 4) & 3 == 0 && Fits14(q * 4)
    ensures q == ((q * 4) >> 2) | ((0 - ((q * 4) >> 63)) << 62)
  {}

  /** An offset in reach comes back from its field. */
  lemma Offset14(off: bv64, q: bv64, v: bv64)
    requires Fits14(off) && q == Quarter(off) && v == q & 0x3FFF
    ensures v <= 0x3FFF && Sext14(v) == q && q * 4 == off
  {
    hide Sext14, Quarter;
    QuarterShifts(off);
    Quotient14(off, q);
    Extend14(q, v);
  }

  lemma InReach14(q: bv64, off: bv64)
    requires q + 0x2000 < 0x4000 && off == q * 4
    ensures off & 3 == 0 && Fits14(off) && q == (off >> 2) | ((0 - (off >> 63)) << 62)
  {
    Product14(q);
  }

  /** Every value of the field is the offset of some target in reach. */
  lemma Field14(v: bv64, q: bv64, off: bv64)
    requires v <= 0x3FFF && q == Sext14(v) && off == q * 4
    ensures Fits14(off) && Quarter(off) == q && q & 0x3FFF == v
  {
    hide Sext14, Fits14, Quarter;
    Sext14Is(v);
    Masked14(v, q);
    InReach14(q, off);
    QuarterShifts(off);
  }

  lemma Masked14(v: bv64, q: bv64)
    requires v <= 0x3FFF
    requires v & 0x2000 == 0 ==> q == v
    requires v & 0x2000 != 0 ==> q == v | 0xFFFF_FFFF_FFFF_C000
    ensures q + 0x2000 < 0x4000 && q & 0x3FFF == v
  {
    if v & 0x2000 == 0 {
      Positive14(v, q);
    } else {
      Negative14(v, q);
    }
  }

  lemma Positive14(v: bv64, q: bv64)
    requires v <= 0x3FFF && v & 0x2000 == 0 && q == v
    ensures q + 0x2000 < 0x4000 && q & 0x3FFF == v
  {}

  lemma Negative14(v: bv64, q: bv64)
    requires v <= 0x3FFF && v & 0x2000 != 0 && q == v | 0xFFFF_FFFF_FFFF_C000
    ensures q + 0x2000 < 0x4000 && q & 0x3FFF == v
  {}

  lemma Added(a: bv64, b: bv64, c: bv64)
    requires b == c - a
    ensures Add(a, b) == c
  {}

  lemma Subtracted(a: bv64, b: bv64, c: bv64)
    requires c == a + b
    ensures Sub(c, a) == b
  {}

  /** The offset to a target is what must be added to get there. */
  lemma AddSub(a: bv64, b: bv64, c: bv64)
    ensures Add(a, b) == c <==> Sub(c, a) == b
  {
    if Sub(c, a) == b {
      assert b == c - a;
      hide Sub;
      Added(a, b, c);
    } else if Add(a, b) == c {
      assert c == a + b;
      hide Add;
      Subtracted(a, b, c);
    }
  }

  // ----- Words -----

  lemma Low26(q: bv64, v: bv64, l: bv32)
    requires v == q & 0x3FF_FFFF && l == Low32(q)
    ensures (l & 0x3FF_FFFF) as bv64 == v
  {}

  lemma ImmBound26(w: bv32, v: bv64)
    requires v == Imm26(w)
    ensures v <= 0x3FF_FFFF
  {}

  lemma Low19(q: bv64, v: bv64, l: bv32)
    requires v == q & 0x7_FFFF && l == Low32(q)
    ensures (l & 0x7_FFFF) as bv64 == v
  {}

  lemma ImmBound19(w: bv32, v: bv64)
    requires v == Imm19(w)
    ensures v <= 0x7_FFFF
  {}

  lemma Low14(q: bv64, v: bv64, l: bv32)
    requires v == q & 0x3FFF && l == Low32(q)
    ensures (l & 0x3FFF) as bv64 == v
  {}

  lemma ImmBound14(w: bv32, v: bv64)
    requires v == Imm14(w)
    ensures v <= 0x3FFF
  {}

  // ----- Each encoder against its form -----

  lemma RelIs26(pc: bv64, w: bv32, imm: bv64, s: bv64, far: bv64)
    requires imm == Imm26(w) && s == Sext26(imm) && far == s * 4
    ensures Rel26(pc, w) == Add(pc, far)
  {
    hide Add, Sext26, Imm26;
  }

  lemma Reaches26(pc: bv64, target: bv64, w: bv32, off: bv64, q: bv64, v: bv64)
    requires off == Sub(target, pc) && q == Quarter(off) && v == q & 0x3FF_FFFF
    requires Fits26(off) && Imm26(w) == v
    ensures Rel26(pc, w) == target
  {
    hide *;
    Offset26(off, q, v);
    RelIs26(pc, w, v, q, off);
    AddSub(pc, off, target);
  }

  lemma Reached26(pc: bv64, target: bv64, w: bv32, imm: bv64, s: bv64, far: bv64)
    requires imm == Imm26(w) && s == Sext26(imm) && far == s * 4
    requires Rel26(pc, w) == target
    ensures Sub(target, pc) == far && Fits26(far) && Quarter(far) == s && s & 0x3FF_FFFF == imm
  {
    hide *;
    RelIs26(pc, w, imm, s, far);
    AddSub(pc, far, target);
    ImmBound26(w, imm);
    Field26(imm, s, far);
  }

  /** A word aims at a target exactly when its field holds the offset, and some
      field does exactly when the offset fits. */
  lemma Aimed26(pc: bv64, target: bv64, w: bv32, off: bv64, q: bv64, v: bv64)
    requires off == Sub(target, pc) && q == Quarter(off) && v == q & 0x3FF_FFFF
    ensures Rel26(pc, w) == target <==> Fits26(off) && Imm26(w) == v
  {
    hide *;
    if Rel26(pc, w) == target {
      var s := Sext26(Imm26(w));
      Reached26(pc, target, w, Imm26(w), s, s * 4);
      SameField26(s, q, Imm26(w), v);
    } else if Fits26(off) && Imm26(w) == v {
      Reaches26(pc, target, w, off, q, v);
    }
  }

  lemma SameField26(s: bv64, q: bv64, imm: bv64, v: bv64)
    requires s == q && imm == s & 0x3FF_FFFF && v == q & 0x3FF_FFFF
    ensures imm == v
  {}

  lemma RelIs19(pc: bv64, w: bv32, imm: bv64, s: bv64, far: bv64)
    requires imm == Imm19(w) && s == Sext19(imm) && far == s * 4
    ensures Rel19(pc, w) == Add(pc, far)
  {
    hide Add, Sext19, Imm19;
  }

  lemma Reaches19(pc: bv64, target: bv64, w: bv32, off: bv64, q: bv64, v: bv64)
    requires off == Sub(target, pc) && q == Quarter(off) && v == q & 0x7_FFFF
    requires Fits19(off) && Imm19(w) == v
    ensures Rel19(pc, w) == target
  {
    hide *;
    Offset19(off, q, v);
    RelIs19(pc, w, v, q, off);
    AddSub(pc, off, target);
  }

  lemma Reached19(pc: bv64, target: bv64, w: bv32, imm: bv64, s: bv64, far: bv64)
    requires imm == Imm19(w) && s == Sext19(imm) && far == s * 4
    requires Rel19(pc, w) == target
    ensures Sub(target, pc) == far && Fits19(far) && Quarter(far) == s && s & 0x7_FFFF == imm
  {
    hide *;
    RelIs19(pc, w, imm, s, far);
    AddSub(pc, far, target);
    ImmBound19(w, imm);
    Field19(imm, s, far);
  }

  /** A word aims at a target exactly when its field holds the offset, and some
      field does exactly when the offset fits. */
  lemma Aimed19(pc: bv64, target: bv64, w: bv32, off: bv64, q: bv64, v: bv64)
    requires off == Sub(target, pc) && q == Quarter(off) && v == q & 0x7_FFFF
    ensures Rel19(pc, w) == target <==> Fits19(off) && Imm19(w) == v
  {
    hide *;
    if Rel19(pc, w) == target {
      var s := Sext19(Imm19(w));
      Reached19(pc, target, w, Imm19(w), s, s * 4);
      SameField19(s, q, Imm19(w), v);
    } else if Fits19(off) && Imm19(w) == v {
      Reaches19(pc, target, w, off, q, v);
    }
  }

  lemma SameField19(s: bv64, q: bv64, imm: bv64, v: bv64)
    requires s == q && imm == s & 0x7_FFFF && v == q & 0x7_FFFF
    ensures imm == v
  {}

  lemma RelIs14(pc: bv64, w: bv32, imm: bv64, s: bv64, far: bv64)
    requires imm == Imm14(w) && s == Sext14(imm) && far == s * 4
    ensures Rel14(pc, w) == Add(pc, far)
  {
    hide Add, Sext14, Imm14;
  }

  lemma Reaches14(pc: bv64, target: bv64, w: bv32, off: bv64, q: bv64, v: bv64)
    requires off == Sub(target, pc) && q == Quarter(off) && v == q & 0x3FFF
    requires Fits14(off) && Imm14(w) == v
    ensures Rel14(pc, w) == target
  {
    hide *;
    Offset14(off, q, v);
    RelIs14(pc, w, v, q, off);
    AddSub(pc, off, target);
  }

  lemma Reached14(pc: bv64, target: bv64, w: bv32, imm: bv64, s: bv64, far: bv64)
    requires imm == Imm14(w) && s == Sext14(imm) && far == s * 4
    requires Rel14(pc, w) == target
    ensures Sub(target, pc) == far && Fits14(far) && Quarter(far) == s && s & 0x3FFF == imm
  {
    hide *;
    RelIs14(pc, w, imm, s, far);
    AddSub(pc, far, target);
    ImmBound14(w, imm);
    Field14(imm, s, far);
  }

  /** A word aims at a target exactly when its field holds the offset, and some
      field does exactly when the offset fits. */
  lemma Aimed14(pc: bv64, target: bv64, w: bv32, off: bv64, q: bv64, v: bv64)
    requires off == Sub(target, pc) && q == Quarter(off) && v == q & 0x3FFF
    ensures Rel14(pc, w) == target <==> Fits14(off) && Imm14(w) == v
  {
    hide *;
    if Rel14(pc, w) == target {
      var s := Sext14(Imm14(w));
      Reached14(pc, target, w, Imm14(w), s, s * 4);
      SameField14(s, q, Imm14(w), v);
    } else if Fits14(off) && Imm14(w) == v {
      Reaches14(pc, target, w, off, q, v);
    }
  }

  lemma SameField14(s: bv64, q: bv64, imm: bv64, v: bv64)
    requires s == q && imm == s & 0x3FFF && v == q & 0x3FFF
    ensures imm == v
  {}

  /** `b`: 000101 imm26 */
  predicate IsB(w: bv32) {
    w & 0xFC00_0000 == 0x1400_0000
  }

  lemma BPacks(l: bv32, v: bv64, w: bv32)
    requires (l & 0x3FF_FFFF) as bv64 == v
    ensures w == WordB(l) ==> IsB(w) && Imm26(w) == v
  {}

  lemma BUnpacks(l: bv32, v: bv64, w: bv32)
    requires (l & 0x3FF_FFFF) as bv64 == v
    ensures IsB(w) && Imm26(w) == v ==> w == WordB(l)
  {}

  /** A signed offset that is a multiple of four, from -r up to r */
  predicate WithinReach(off: bv64, r: bv64) { off % 4 == 0 && (off < r || off >= 0 - r) }

  /** The encoders answer exactly for offsets that are multiples of four in
      range: 128 MB, 1 MB and 32 KB either way. */
  lemma ReachExact(pc: bv64, target: bv64, cond: bv8, sf: bool, rt: bv8, bit: bv8, nonzero: bool)
    ensures EncB(pc, target).Some? <==> WithinReach(Sub(target, pc), 0x800_0000)
    ensures EncBl(pc, target).Some? <==> WithinReach(Sub(target, pc), 0x800_0000)
    ensures EncBCond(cond, pc, target).Some? <==> WithinReach(Sub(target, pc), 0x10_0000)
    ensures EncCbz(sf, rt, nonzero, pc, target).Some? <==> WithinReach(Sub(target, pc), 0x10_0000)
    ensures EncTbz(rt, bit, nonzero, pc, target).Some? <==> WithinReach(Sub(target, pc), 0x8000)
  {
    FitsExact(Sub(target, pc));
    hide Fits26, Fits19, Fits14, WithinReach, Sub, Quarter, Low32, WordB, WordBCond, WordCbz, WordTbz;
  }

  lemma FitsExact(off: bv64)
    ensures Fits26(off) <==> WithinReach(off, 0x800_0000)
    ensures Fits19(off) <==> WithinReach(off, 0x10_0000)
    ensures Fits14(off) <==> WithinReach(off, 0x8000)
  {
  }

  /** The encoder gives w exactly when w is of its form, with these operands,
      and aims at the target. */
  lemma BExact(pc: bv64, target: bv64, w: bv32)
    ensures EncB(pc, target) == Some(w) <==> IsB(w) && Rel26(pc, w) == target
  {
    hide Quarter, Low32, Fits26, Sub, IsB, Imm26, Rel26, WordB;
    var off := Sub(target, pc);
    var q := Quarter(off);
    var v := q & 0x3FF_FFFF;
    var l := Low32(q);
    assert EncB(pc, target) == Some(w) <==> Fits26(off) && w == WordB(l);
    hide EncB;
    Low26(q, v, l);
    BPacks(l, v, w);
    BUnpacks(l, v, w);
    Aimed26(pc, target, w, off, q, v);
  }

  /** `b.cond`: 01010100 imm19 0 cond */
  predicate IsBCond(cond: bv8, w: bv32) {
    w & 0xFF00_0010 == 0x5400_0000 && (w & 0xF) as bv8 == cond
  }

  lemma BCondPacks(cond: bv8, l: bv32, v: bv64, w: bv32)
    requires cond < 16
    requires (l & 0x7_FFFF) as bv64 == v
    ensures w == WordBCond(cond, l) ==> IsBCond(cond, w) && Imm19(w) == v
  {}

  lemma BCondUnpacks(cond: bv8, l: bv32, v: bv64, w: bv32)
    requires cond < 16
    requires (l & 0x7_FFFF) as bv64 == v
    ensures IsBCond(cond, w) && Imm19(w) == v ==> w == WordBCond(cond, l)
  {}

  /** The encoder gives w exactly when w is of its form, with these operands,
      and aims at the target. */
  lemma BCondExact(cond: bv8, pc: bv64, target: bv64, w: bv32)
    requires cond < 16
    ensures EncBCond(cond, pc, target) == Some(w) <==> IsBCond(cond, w) && Rel19(pc, w) == target
  {
    hide Quarter, Low32, Fits19, Sub, IsBCond, Imm19, Rel19, WordBCond;
    var off := Sub(target, pc);
    var q := Quarter(off);
    var v := q & 0x7_FFFF;
    var l := Low32(q);
    assert EncBCond(cond, pc, target) == Some(w) <==> Fits19(off) && w == WordBCond(cond, l);
    hide EncBCond;
    Low19(q, v, l);
    BCondPacks(cond, l, v, w);
    BCondUnpacks(cond, l, v, w);
    Aimed19(pc, target, w, off, q, v);
  }

  /** `cbz`/`cbnz`: sf 011010 op imm19 Rt */
  predicate IsCbz(sf: bool, rt: bv8, nonzero: bool, w: bv32) {
    w & 0x7E00_0000 == 0x3400_0000 && (w >> 31 != 0) == sf && (w & 0x0100_0000 != 0) == nonzero && Rt(w) == rt
  }

  lemma FlagIs(b: bool, f: bv32)
    requires f == Flag(b)
    ensures f <= 1 && (f == 1 <==> b) && (f != 0 <==> b)
  {}

  lemma CbzFields(a: bv32, b: bv32, rt: bv8, l: bv32, v: bv64, w: bv32)
    requires rt < 32 && a <= 1 && b <= 1
    requires (l & 0x7_FFFF) as bv64 == v
    requires w == 0x3400_0000 | (a << 31) | (b << 24) | ((l & 0x7FFFF) << 5) | (rt as bv32)
    ensures w & 0x7E00_0000 == 0x3400_0000 && Imm19(w) == v && Rt(w) == rt
    ensures w >> 31 == a && (w & 0x0100_0000 != 0 <==> b == 1)
  {}

  lemma CbzPacks(sf: bool, rt: bv8, nonzero: bool, l: bv32, v: bv64, w: bv32)
    requires rt < 32
    requires (l & 0x7_FFFF) as bv64 == v
    ensures w == WordCbz(sf, rt, nonzero, l) ==> IsCbz(sf, rt, nonzero, w) && Imm19(w) == v
  {
    hide Flag;
    var a, b := Flag(sf), Flag(nonzero);
    FlagIs(sf, a);
    FlagIs(nonzero, b);
    if w == WordCbz(sf, rt, nonzero, l) {
      CbzFields(a, b, rt, l, v, w);
      assert w >> 31 == a;
    }
  }

  lemma CbzUnpacks(sf: bool, rt: bv8, nonzero: bool, l: bv32, v: bv64, w: bv32)
    requires rt < 32
    requires (l & 0x7_FFFF) as bv64 == v
    ensures IsCbz(sf, rt, nonzero, w) && Imm19(w) == v ==> w == WordCbz(sf, rt, nonzero, l)
  {}

  /** The encoder gives w exactly when w is of its form, with these operands,
      and aims at the target. */
  lemma CbzExact(sf: bool, rt: bv8, nonzero: bool, pc: bv64, target: bv64, w: bv32)
    requires rt < 32
    ensures EncCbz(sf, rt, nonzero, pc, target) == Some(w) <==> IsCbz(sf, rt, nonzero, w) && Rel19(pc, w) == target
  {
    hide Quarter, Low32, Fits19, Sub, IsCbz, Imm19, Rel19, WordCbz;
    var off := Sub(target, pc);
    var q := Quarter(off);
    var v := q & 0x7_FFFF;
    var l := Low32(q);
    assert EncCbz(sf, rt, nonzero, pc, target) == Some(w) <==> Fits19(off) && w == WordCbz(sf, rt, nonzero, l);
    hide EncCbz;
    Low19(q, v, l);
    CbzPacks(sf, rt, nonzero, l, v, w);
    CbzUnpacks(sf, rt, nonzero, l, v, w);
    Aimed19(pc, target, w, off, q, v);
  }

  /** `tbz`/`tbnz`: b5 011011 op b40 imm14 Rt */
  predicate IsTbz(rt: bv8, bit: bv8, nonzero: bool, w: bv32) {
    w & 0x7E00_0000 == 0x3600_0000 && Rt(w) == rt && BitNumber(w) == bit && (w & 0x0100_0000 != 0) == nonzero
  }

  lemma TbzFields(a: bv32, b: bv32, rt: bv8, c: bv32, l: bv32, v: bv64, w: bv32)
    requires rt < 32 && a <= 1 && b <= 1 && c < 32
    requires (l & 0x3FFF) as bv64 == v
    requires w == 0x3600_0000 | (a << 31) | (b << 24) | (c << 19) | ((l & 0x3FFF) << 5) | (rt as bv32)
    ensures w & 0x7E00_0000 == 0x3600_0000 && Imm14(w) == v && Rt(w) == rt
    ensures w >> 31 == a && (w & 0x0100_0000 != 0 <==> b == 1) && (w >> 19) & 0x1F == c
  {}

  lemma BitFields(bit: bv8, w: bv32, a: bv32, c: bv32)
    requires bit < 64 && a == (bit >> 5) as bv32 && c == (bit & 31) as bv32
    requires w >> 31 == a && (w >> 19) & 0x1F == c
    ensures a <= 1 && c < 32 && BitNumber(w) == bit
  {}

  lemma TbzParts(rt: bv8, bit: bv8, nonzero: bool, l: bv32, a: bv32, b: bv32, c: bv32)
    requires a == (bit >> 5) as bv32 && b == Flag(nonzero) && c == (bit & 31) as bv32
    ensures WordTbz(rt, bit, nonzero, l)
         == 0x3600_0000 | (a << 31) | (b << 24) | (c << 19) | ((l & 0x3FFF) << 5) | (rt as bv32)
  {
    hide Flag;
  }

  lemma TbzPacks(rt: bv8, bit: bv8, nonzero: bool, l: bv32, v: bv64, w: bv32)
    requires rt < 32 && bit < 64
    requires (l & 0x3FFF) as bv64 == v
    ensures w == WordTbz(rt, bit, nonzero, l) ==> IsTbz(rt, bit, nonzero, w) && Imm14(w) == v
  {
    hide Flag, BitNumber, WordTbz, Rt, Imm14;
    if w == WordTbz(rt, bit, nonzero, l) {
      var a, b, c := (bit >> 5) as bv32, Flag(nonzero), (bit & 31) as bv32;
      FlagIs(nonzero, b);
      TbzParts(rt, bit, nonzero, l, a, b, c);
      TbzFields(a, b, rt, c, l, v, w);
      BitFields(bit, w, a, c);
    }
  }

  lemma TbzUnpacks(rt: bv8, bit: bv8, nonzero: bool, l: bv32, v: bv64, w: bv32)
    requires rt < 32 && bit < 64
    requires (l & 0x3FFF) as bv64 == v
    ensures IsTbz(rt, bit, nonzero, w) && Imm14(w) == v ==> w == WordTbz(rt, bit, nonzero, l)
  {}

  /** The encoder gives w exactly when w is of its form, with these operands,
      and aims at the target. */
  lemma TbzExact(rt: bv8, bit: bv8, nonzero: bool, pc: bv64, target: bv64, w: bv32)
    requires rt < 32 && bit < 64
    ensures EncTbz(rt, bit, nonzero, pc, target) == Some(w) <==> IsTbz(rt, bit, nonzero, w) && Rel14(pc, w) == target
  {
    hide Quarter, Low32, Fits14, Sub, IsTbz, Imm14, Rel14, WordTbz;
    var off := Sub(target, pc);
    var q := Quarter(off);
    var v := q & 0x3FFF;
    var l := Low32(q);
    assert EncTbz(rt, bit, nonzero, pc, target) == Some(w) <==> Fits14(off) && w == WordTbz(rt, bit, nonzero, l);
    hide EncTbz;
    Low14(q, v, l);
    TbzPacks(rt, bit, nonzero, l, v, w);
    TbzUnpacks(rt, bit, nonzero, l, v, w);
    Aimed14(pc, target, w, off, q, v);
  }

  /** `bl`: 100101 imm26 */
  predicate IsBl(w: bv32) {
    w & 0xFC00_0000 == 0x9400_0000
  }

  lemma BlFromB(b: bv32, w: bv32)
    requires w == b | 0x8000_0000
    ensures IsB(b) ==> IsBl(w) && Imm26(w) == Imm26(b)
  {}

  lemma BFromBl(b: bv32, w: bv32)
    requires b == w ^ 0x8000_0000
    ensures IsBl(w) ==> IsB(b) && Imm26(w) == Imm26(b) && w == b | 0x8000_0000
  {}

  lemma Flipped(w: bv32, b: bv32)
    requires b == w ^ 0x8000_0000
    ensures IsB(b) ==> w == b | 0x8000_0000
  {}

  lemma SameAim(pc: bv64, w: bv32, b: bv32)
    requires Imm26(w) == Imm26(b)
    ensures Rel26(pc, w) == Rel26(pc, b)
  {
    hide Imm26, Sext26, Add;
  }

  lemma BlIs(pc: bv64, target: bv64, w: bv32, b: bv32)
    requires b == w ^ 0x8000_0000
    ensures EncBl(pc, target) == Some(w) && IsB(EncB(pc, target).value) ==> EncB(pc, target) == Some(b)
    ensures EncB(pc, target) == Some(b) && w == b | 0x8000_0000 ==> EncBl(pc, target) == Some(w)
  {
    hide EncB;
  }

  lemma BlExact(pc: bv64, target: bv64, w: bv32)
    ensures EncBl(pc, target) == Some(w) <==> IsBl(w) && Rel26(pc, w) == target
  {
    var b := w ^ 0x8000_0000;
    if EncBl(pc, target) == Some(w) {
      assert EncB(pc, target).Some?;
      hide *;
      BExact(pc, target, EncB(pc, target).value);
      BlIs(pc, target, w, b);
      Flipped(w, b);
      BlFromB(b, w);
      SameAim(pc, w, b);
    } else if IsBl(w) && Rel26(pc, w) == target {
      hide *;
      BFromBl(b, w);
      SameAim(pc, w, b);
      BExact(pc, target, b);
      BlIs(pc, target, w, b);
    }
  }

  // ----- Encoders and decoder undo each other -----

  lemma BDecodes(w: bv32, pc: bv64)
    requires IsB(w)
    ensures Decode(w, pc) == B(Rel26(pc, w))
  {
    hide Rel26;
  }

  lemma BlDecodes(w: bv32, pc: bv64)
    requires IsBl(w)
    ensures Decode(w, pc) == Bl(Rel26(pc, w))
  {
    hide Rel26;
  }

  lemma BCondDecodes(cond: bv8, w: bv32, pc: bv64)
    requires cond < 14 && IsBCond(cond, w)
    ensures Decode(w, pc) == BCond(cond, Rel19(pc, w))
  {
    hide Rel19;
  }

  lemma CbzDecodes(sf: bool, rt: bv8, nonzero: bool, w: bv32, pc: bv64)
    requires IsCbz(sf, rt, nonzero, w)
    ensures Decode(w, pc) == Cbz(sf, rt, nonzero, Rel19(pc, w))
  {
    hide Rel19, Rt;
  }

  lemma TbzDecodes(rt: bv8, bit: bv8, nonzero: bool, w: bv32, pc: bv64)
    requires IsTbz(rt, bit, nonzero, w)
    ensures Decode(w, pc) == Tbz(rt, bit, nonzero, Rel14(pc, w))
  {
    hide Rel14, Rt, BitNumber;
  }

  /** What an encoder writes, the decoder reads. */
  lemma DecodeInvertsEncode(pc: bv64, target: bv64, cond: bv8, sf: bool, rt: bv8, bit: bv8, nonzero: bool, w: bv32)
    requires cond < 14 && rt < 32 && bit < 64
    ensures EncB(pc, target) == Some(w) ==> Decode(w, pc) == B(target)
    ensures EncBl(pc, target) == Some(w) ==> Decode(w, pc) == Bl(target)
    ensures EncBCond(cond, pc, target) == Some(w) ==> Decode(w, pc) == BCond(cond, target)
    ensures EncCbz(sf, rt, nonzero, pc, target) == Some(w) ==> Decode(w, pc) == Cbz(sf, rt, nonzero, target)
    ensures EncTbz(rt, bit, nonzero, pc, target) == Some(w) ==> Decode(w, pc) == Tbz(rt, bit, nonzero, target)
  {
    hide *;
    BExact(pc, target, w);
    BlExact(pc, target, w);
    BCondExact(cond, pc, target, w);
    CbzExact(sf, rt, nonzero, pc, target, w);
    TbzExact(rt, bit, nonzero, pc, target, w);
    if IsB(w) { BDecodes(w, pc); }
    if IsBl(w) { BlDecodes(w, pc); }
    if IsBCond(cond, w) { BCondDecodes(cond, w, pc); }
    if IsCbz(sf, rt, nonzero, w) { CbzDecodes(sf, rt, nonzero, w, pc); }
    if IsTbz(rt, bit, nonzero, w) { TbzDecodes(rt, bit, nonzero, w, pc); }
  }

  /** The form behind each class the decoder reports. */
  lemma BReads(w: bv32, pc: bv64)
    requires Decode(w, pc).B?
    ensures var target := Decode(w, pc).target;
            || (IsB(w) && target == Rel26(pc, w))
            || (w & 0xFF00_0000 == 0x5400_0000 && (w & 0xF) as bv8 >= 14 && target == Rel19(pc, w))
  {
    hide Rel26, Rel19, Rel14, BitNumber, Rt, Rn, DecodeMem;
    if IsB(w) {
      BDecodes(w, pc);
    } else {
      assert w & 0xFF00_0000 == 0x5400_0000;
      AlwaysDecodes(w, pc);
    }
  }

  /** `b.al` and `b.nv` are branches. */
  lemma AlwaysDecodes(w: bv32, pc: bv64)
    requires w & 0xFF00_0000 == 0x5400_0000
    ensures var cond := (w & 0xF) as bv8;
            Decode(w, pc) == if cond >= 14 then B(Rel19(pc, w)) else BCond(cond, Rel19(pc, w))
  {
    hide Rel19;
  }

  lemma BlReads(w: bv32, pc: bv64)
    requires Decode(w, pc).Bl?
    ensures IsBl(w) && Decode(w, pc).target == Rel26(pc, w)
  {
    hide Rel26, Rel19, Rel14, BitNumber, Rt, Rn, DecodeMem;
  }

  lemma BCondReads(w: bv32, pc: bv64)
    requires Decode(w, pc).BCond?
    ensures var c := Decode(w, pc);
            w & 0xFF00_0000 == 0x5400_0000 && c.cond == (w & 0xF) as bv8 && c.cond < 14 && c.target == Rel19(pc, w)
  {
    hide Rel26, Rel19, Rel14, BitNumber, Rt, Rn, DecodeMem;
  }

  lemma CbzReads(w: bv32, pc: bv64)
    requires Decode(w, pc).Cbz?
    ensures var c := Decode(w, pc); IsCbz(c.sf, c.rt, c.nonzero, w) && c.target == Rel19(pc, w)
  {
    hide Rel26, Rel19, Rel14, BitNumber, Rt, Rn, DecodeMem;
  }

  lemma TbzReads(w: bv32, pc: bv64)
    requires Decode(w, pc).Tbz?
    ensures var c := Decode(w, pc); IsTbz(c.rt, c.bit, c.nonzero, w) && c.target == Rel14(pc, w)
  {
    hide Rel26, Rel19, Rel14, BitNumber, Rt, Rn, DecodeMem;
  }

  /** What the decoder reads as a branch, the encoder writes: except that the
      decoder also reads `b.al`, `b.nv` and the hinted `bc.cond`, for which
      there is no encoder. */
  lemma EncodeInvertsDecode(w: bv32, pc: bv64)
    ensures match Decode(w, pc)
            case B(target) => EncB(pc, target) == Some(w) <==> w & 0xFF00_0000 != 0x5400_0000
            case Bl(target) => EncBl(pc, target) == Some(w)
            case BCond(cond, target) => EncBCond(cond, pc, target) == Some(w) <==> w & 0x10 == 0
            case Cbz(sf, rt, nonzero, target) => EncCbz(sf, rt, nonzero, pc, target) == Some(w)
            case Tbz(rt, bit, nonzero, target) => EncTbz(rt, bit, nonzero, pc, target) == Some(w)
            case _ => true
  {
    hide *;
    match Decode(w, pc) {
      case B(target) =>
        BReads(w, pc);
        BExact(pc, target, w);
        Apart(w);
      case Bl(target) =>
        BlReads(w, pc);
        BlExact(pc, target, w);
      case BCond(cond, target) =>
        BCondReads(w, pc);
        BCondExact(cond, pc, target, w);
        Hinted(cond, w);
      case Cbz(sf, rt, nonzero, target) =>
        CbzReads(w, pc);
        CbzOperands(sf, rt, nonzero, w);
        CbzExact(sf, rt, nonzero, pc, target, w);
      case Tbz(rt, bit, nonzero, target) =>
        TbzReads(w, pc);
        TbzOperands(rt, bit, nonzero, w);
        TbzExact(rt, bit, nonzero, pc, target, w);
      case _ =>
    }
  }

  lemma Apart(w: bv32)
    ensures IsB(w) ==> w & 0xFF00_0000 != 0x5400_0000
  {}

  lemma Hinted(cond: bv8, w: bv32)
    requires w & 0xFF00_0000 == 0x5400_0000 && cond == (w & 0xF) as bv8
    ensures cond < 16 && (IsBCond(cond, w) <==> w & 0x10 == 0)
  {}

  lemma CbzOperands(sf: bool, rt: bv8, nonzero: bool, w: bv32)
    requires IsCbz(sf, rt, nonzero, w)
    ensures rt < 32
  {}

  lemma TbzOperands(rt: bv8, bit: bv8, nonzero: bool, w: bv32)
    requires IsTbz(rt, bit, nonzero, w)
    ensures rt < 32 && bit < 64
  {}

  /** Exactly the targets some word can name are encoded. */
  lemma EncodesWhatCanBeNamed(pc: bv64, target: bv64)
    ensures EncB(pc, target).Some? <==> exists w: bv32 :: IsB(w) && Decode(w, pc) == B(target)
    ensures EncBl(pc, target).Some? <==> exists w: bv32 :: Decode(w, pc) == Bl(target)
  {
    hide *;
    if EncB(pc, target).Some? {
      var w := EncB(pc, target).value;
      BExact(pc, target, w);
      BDecodes(w, pc);
    }
    forall w: bv32 | IsB(w) && Decode(w, pc) == B(target) ensures EncB(pc, target).Some? {
      BDecodes(w, pc);
      BExact(pc, target, w);
    }
    if EncBl(pc, target).Some? {
      var w := EncBl(pc, target).value;
      BlExact(pc, target, w);
      BlDecodes(w, pc);
    }
    forall w: bv32 | Decode(w, pc) == Bl(target) ensures EncBl(pc, target).Some? {
      EncodeInvertsDecode(w, pc);
    }
  }

  // Flipping the low bit flips the condition for all but the two codes that
  // always hold.
}

/** Which words are which instructions (src/decode.rs), by their encodings, and
    which of them are hooked (src/rewrite.rs). */
module Forms {
  import opened Arm
  import opened Simulation

  // ----- Loads and stores -----

  /** Load and store exclusive, single and pair: section C4.1 of the Arm
      Architecture Reference Manual */
  predicate IsLdxr(w: bv32) { w & 0x3FE0_0000 == 0x0840_0000 }
  predicate IsLdxp(w: bv32) { w & 0xBFE0_0000 == 0x8860_0000 }
  predicate IsStxr(w: bv32) { w & 0x3FE0_0000 == 0x0800_0000 }
  predicate IsStxp(w: bv32) { w & 0xBFE0_0000 == 0x8820_0000 }

  /** The words that open an exclusive span, and those that close it */
  lemma Exclusives(w: bv32, pc: bv64)
    ensures Decode(w, pc).ExclusiveLoad? <==> IsLdxr(w) || IsLdxp(w)
    ensures Decode(w, pc).ExclusiveStore? <==> IsStxr(w) || IsStxp(w)
  {
    hide Rel26, Rel19, Rel14, BitNumber, Rt, Rn;
  }

  /** Loads and stores that may be hooked: ordered ones and compare-and-swap,
      pairs of the latter, SIMD structures, those at an immediate offset, an
      unscaled or indexed one or a register, atomics, and pairs; prefetches and
      unprivileged ones are not. */
  predicate IsAccess(w: bv32) {
    || w & 0x3F80_0000 == 0x0880_0000
    || w & 0xBFA0_0000 == 0x0820_0000
    || w & 0xBF00_0000 == 0x0C00_0000
    || (w & 0x3B00_0000 == 0x3900_0000 && w & 0xFFC0_0000 != 0xF980_0000)
    || (w & 0x3B20_0000 == 0x3800_0000 && w & 0xC00 != 0x800 && w & 0xFFE0_0C00 != 0xF880_0000)
    || (w & 0x3B20_0C00 == 0x3820_0800 && w & 0xFFE0_0C00 != 0xF8A0_0800)
    || w & 0x3B20_0C00 == 0x3820_0000
    || w & 0x3A00_0000 == 0x2800_0000
  }

  lemma Accesses(w: bv32, pc: bv64)
    ensures Decode(w, pc).Mem? <==> IsAccess(w)
    ensures Decode(w, pc).Mem? ==> Decode(w, pc).base == ((w >> 5) & 0x1F) as bv8
  {
    hide Rel26, Rel19, Rel14, BitNumber, Rt;
  }

  /** Loads and stores of SIMD structures, multiple and single */
  predicate IsStructure(w: bv32) { w & 0xBE00_0000 == 0x0C00_0000 }

  /** Of these the decoder takes the multiple ones, bit 24 being clear; the
      single ones are left, as if they were no loads and stores. */
  lemma StructuresTaken(w: bv32, pc: bv64)
    requires IsStructure(w)
    ensures Decode(w, pc).Mem? <==> w & 0x0100_0000 == 0
    ensures w & 0x0100_0000 != 0 ==> Decode(w, pc) == Other
  {
    hide Rel26, Rel19, Rel14, BitNumber, Rt;
  }

  /** `ld1r {v0.8b}, [x0]` is one. */
  lemma SingleStructureIsLeft(pc: bv64)
    ensures IsStructure(0x0D40_C000) && Decode(0x0D40_C000, pc) == Other
  {
    StructuresTaken(0x0D40_C000, pc);
    hide Decode;
  }

  /** mrs of either counter register */
  predicate IsCounterRead(w: bv32) { w & 0xFFFF_FFE0 == 0xD53B_E040 || w & 0xFFFF_FFE0 == 0xD53B_E020 }

  lemma CounterReadIs(w: bv32, pc: bv64)
    ensures Decode(w, pc).Counter? <==> IsCounterRead(w)
    ensures Decode(w, pc).Counter? ==> Decode(w, pc).rt == (w & 0x1F) as bv8
  {
    hide Rel26, Rel19, Rel14, BitNumber, Rn, DecodeMem;
  }

  /** 64-bit add and sub that put an address in the frame anywhere but in sp:
      of an immediate to sp or the frame pointer, setting the latter up apart,
      or of an extended register to sp */
  predicate TakesStackAddr(w: bv32) {
    || (w & 0x9F80_0000 == 0x9100_0000 && w & 0x1F != 31 && (w & 0x3E0 == 0x3E0 || w & 0x3E0 == 0x3A0)
        && w & 0x3FF != 0x3FD)
    || (w & 0x9FE0_03E0 == 0x8B20_03E0 && w & 0x1F != 31)
  }

  lemma StackAddrs(w: bv32, pc: bv64)
    ensures Decode(w, pc).StackAddr? <==> TakesStackAddr(w)
  {
    hide Rel26, Rel19, Rel14, BitNumber, DecodeMem;
  }

  // ----- Branches -----

  predicate IsBr(w: bv32) { w & 0xFFFF_FC1F == 0xD61F_0000 }
  predicate IsBlr(w: bv32) { w & 0xFFFF_FC1F == 0xD63F_0000 }
  predicate IsRet(w: bv32) { w & 0xFFFF_FC1F == 0xD65F_0000 }

  lemma BrDecodes(w: bv32, pc: bv64)
    requires IsBr(w)
    ensures Decode(w, pc) == Br(((w >> 5) & 0x1F) as bv8)
  {
    hide Rel26, Rel19, Rel14, BitNumber, Rt;
  }

  lemma BlrDecodes(w: bv32, pc: bv64)
    requires IsBlr(w)
    ensures Decode(w, pc) == Blr(((w >> 5) & 0x1F) as bv8)
  {
    hide Rel26, Rel19, Rel14, BitNumber, Rt;
  }

  predicate IsCondB(w: bv32) { w & 0xFF00_0000 == 0x5400_0000 }
  predicate IsCbzB(w: bv32) { w & 0x7E00_0000 == 0x3400_0000 }
  predicate IsTbzB(w: bv32) { w & 0x7E00_0000 == 0x3600_0000 }

  predicate Back(target: bv64, pc: bv64) { target <= pc }

  /** A branch that does not go forward: what may close a loop */
  predicate GoesBack(w: bv32, pc: bv64) {
    || (IsB(w) && Back(Rel26(pc, w), pc))
    || (IsCondB(w) && Back(Rel19(pc, w), pc))
    || (IsCbzB(w) && Back(Rel19(pc, w), pc))
    || (IsTbzB(w) && Back(Rel14(pc, w), pc))
  }

  /** Every branch back, call and indirect branch is hooked, but for the call
      through x30 and returns; and beside them only loads and stores are. */
  lemma WhatIsHooked(w: bv32, pc: bv64)
    ensures HookFor(w, pc).Some?
            <==> GoesBack(w, pc) || IsBl(w) || IsBr(w) || (IsBlr(w) && (w >> 5) & 0x1F != 30) || IsAccess(w)
  {
    hide *;
    HookedClass(w, pc);
    if HookFor(w, pc).Some? { HookedForm(w, pc); }
    if IsAccess(w) { Accesses(w, pc); }
    if IsBl(w) { BlDecodes(w, pc); }
    if IsBr(w) { BrDecodes(w, pc); }
    if IsBlr(w) { BlrDecodes(w, pc); ThroughX30(w); }
    if GoesBack(w, pc) { BackDecodes(w, pc); }
  }

  lemma HookedClass(w: bv32, pc: bv64)
    ensures HookFor(w, pc).Some?
            <==> match Decode(w, pc)
                 case B(target) => Back(target, pc)
                 case BCond(_, target) => Back(target, pc)
                 case Cbz(_, _, _, target) => Back(target, pc)
                 case Tbz(_, _, _, target) => Back(target, pc)
                 case Bl(_) => true
                 case Br(_) => true
                 case Blr(rn) => rn != 30
                 case Mem(_) => true
                 case _ => false
  {
    hide Decode;
  }

  /** The forms behind the classes that branch */
  lemma BranchForms(w: bv32, pc: bv64)
    ensures match Decode(w, pc)
            case B(target) => (IsB(w) && target == Rel26(pc, w)) || (IsCondB(w) && target == Rel19(pc, w))
            case BCond(_, target) => IsCondB(w) && target == Rel19(pc, w)
            case Cbz(_, _, _, target) => IsCbzB(w) && target == Rel19(pc, w)
            case Tbz(_, _, _, target) => IsTbzB(w) && target == Rel14(pc, w)
            case Bl(_) => IsBl(w)
            case Br(_) => IsBr(w)
            case Blr(rn) => IsBlr(w) && rn == Rn(w)
            case _ => true
  {
    hide Decode, Rel26, Rel19, Rel14, Rn, Rt, BitNumber;
    if Decode(w, pc).B? { BReads(w, pc); }
    if Decode(w, pc).BCond? { BCondReads(w, pc); }
    if Decode(w, pc).Cbz? { CbzReads(w, pc); }
    if Decode(w, pc).Tbz? { TbzReads(w, pc); }
    if Decode(w, pc).Bl? { BlReads(w, pc); }
    if Decode(w, pc).Br? { BrReads(w, pc); }
    if Decode(w, pc).Blr? { BlrReads(w, pc); }
  }

  lemma HookedForm(w: bv32, pc: bv64)
    requires HookFor(w, pc).Some?
    ensures GoesBack(w, pc) || IsBl(w) || IsBr(w) || (IsBlr(w) && (w >> 5) & 0x1F != 30) || IsAccess(w)
  {
    HookedClass(w, pc);
    BranchForms(w, pc);
    ThroughX30(w);
    hide HookFor, Decode, Back, IsAccess, Rel26, Rel19, Rel14, Rn, IsB, IsBl, IsBr, IsBlr, IsCondB, IsCbzB, IsTbzB;
    if Decode(w, pc).Mem? { Accesses(w, pc); }
  }

  lemma FormsDecode(w: bv32, pc: bv64)
    ensures IsB(w) ==> Decode(w, pc) == B(Rel26(pc, w))
    ensures IsCondB(w) ==> (Decode(w, pc).B? || Decode(w, pc).BCond?) && Decode(w, pc).target == Rel19(pc, w)
    ensures IsCbzB(w) ==> Decode(w, pc).Cbz? && Decode(w, pc).target == Rel19(pc, w)
    ensures IsTbzB(w) ==> Decode(w, pc).Tbz? && Decode(w, pc).target == Rel14(pc, w)
  {
    hide Decode, Rel26, Rel19, Rel14, Rn, Rt, BitNumber;
    if IsB(w) { BDecodes(w, pc); }
    if IsCondB(w) { AlwaysDecodes(w, pc); }
    if IsCbzB(w) { CbzDecodes(w >> 31 != 0, Rt(w), w & 0x0100_0000 != 0, w, pc); }
    if IsTbzB(w) { TbzDecodes(Rt(w), BitNumber(w), w & 0x0100_0000 != 0, w, pc); }
  }

  lemma BackDecodes(w: bv32, pc: bv64)
    requires GoesBack(w, pc)
    ensures match Decode(w, pc)
            case B(target) => Back(target, pc)
            case BCond(_, target) => Back(target, pc)
            case Cbz(_, _, _, target) => Back(target, pc)
            case Tbz(_, _, _, target) => Back(target, pc)
            case _ => false
  {
    FormsDecode(w, pc);
    hide Decode, Back, Rel26, Rel19, Rel14, IsB, IsCondB, IsCbzB, IsTbzB;
  }

  lemma ThroughX30(w: bv32)
    ensures Rn(w) == 30 <==> (w >> 5) & 0x1F == 30
    ensures Rn(w) == ((w >> 5) & 0x1F) as bv8
  {
  }
}

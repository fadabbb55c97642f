/** The machine against the encoders: what executing each encoded word does.
    This ties the rewriter's encodings to the architecture, not to the
    rewriter's own decoder; DecodeMeans does the same for the decoder. */
module ArmSteps {
  import opened Wrappers
  import opened Arm
  import opened ArmMachine

  lemma Signed26(v: bv64, far: bv64, s: bv64)
    requires v <= 0x3FF_FFFF && far == ((v << 2) ^ 0x800_0000) - 0x800_0000
    requires v & 0x200_0000 == 0 ==> s == v
    requires v & 0x200_0000 != 0 ==> s == v | 0xFFFF_FFFF_FC00_0000
    ensures far == s * 4
  {
    if v & 0x200_0000 == 0 {
      Forward26(v);
    } else {
      Backward26(v);
    }
  }

  lemma Forward26(v: bv64)
    requires v <= 0x3FF_FFFF && v & 0x200_0000 == 0
    ensures ((v << 2) ^ 0x800_0000) - 0x800_0000 == v * 4
  {}

  lemma Backward26(v: bv64)
    requires v <= 0x3FF_FFFF && v & 0x200_0000 != 0
    ensures ((v << 2) ^ 0x800_0000) - 0x800_0000 == (v | 0xFFFF_FFFF_FC00_0000) * 4
  {}

  lemma Far26Is(w: bv32, v: bv64, far: bv64, s: bv64)
    requires v == Imm26(w) && far == Extend28(v) && s == Sext26(v)
    ensures far == s * 4
  {
    hide *;
    ImmBound26(w, v);
    Sext26Is(v);
    Extend28Is(v, far);
    Signed26(v, far, s);
  }

  lemma Extend28Is(v: bv64, far: bv64)
    requires far == Extend28(v)
    ensures far == ((v << 2) ^ 0x800_0000) - 0x800_0000
  {}

  lemma Signed19(v: bv64, far: bv64, s: bv64)
    requires v <= 0x7_FFFF && far == ((v << 2) ^ 0x10_0000) - 0x10_0000
    requires v & 0x4_0000 == 0 ==> s == v
    requires v & 0x4_0000 != 0 ==> s == v | 0xFFFF_FFFF_FFF8_0000
    ensures far == s * 4
  {
    if v & 0x4_0000 == 0 {
      Forward19(v);
    } else {
      Backward19(v);
    }
  }

  lemma Forward19(v: bv64)
    requires v <= 0x7_FFFF && v & 0x4_0000 == 0
    ensures ((v << 2) ^ 0x10_0000) - 0x10_0000 == v * 4
  {}

  lemma Backward19(v: bv64)
    requires v <= 0x7_FFFF && v & 0x4_0000 != 0
    ensures ((v << 2) ^ 0x10_0000) - 0x10_0000 == (v | 0xFFFF_FFFF_FFF8_0000) * 4
  {}

  lemma Far19Is(w: bv32, v: bv64, far: bv64, s: bv64)
    requires v == Imm19(w) && far == Extend21(v) && s == Sext19(v)
    ensures far == s * 4
  {
    hide *;
    ImmBound19(w, v);
    Sext19Is(v);
    Extend21Is(v, far);
    Signed19(v, far, s);
  }

  lemma Extend21Is(v: bv64, far: bv64)
    requires far == Extend21(v)
    ensures far == ((v << 2) ^ 0x10_0000) - 0x10_0000
  {}

  lemma Signed14(v: bv64, far: bv64, s: bv64)
    requires v <= 0x3FFF && far == ((v << 2) ^ 0x8000) - 0x8000
    requires v & 0x2000 == 0 ==> s == v
    requires v & 0x2000 != 0 ==> s == v | 0xFFFF_FFFF_FFFF_C000
    ensures far == s * 4
  {
    if v & 0x2000 == 0 {
      Forward14(v);
    } else {
      Backward14(v);
    }
  }

  lemma Forward14(v: bv64)
    requires v <= 0x3FFF && v & 0x2000 == 0
    ensures ((v << 2) ^ 0x8000) - 0x8000 == v * 4
  {}

  lemma Backward14(v: bv64)
    requires v <= 0x3FFF && v & 0x2000 != 0
    ensures ((v << 2) ^ 0x8000) - 0x8000 == (v | 0xFFFF_FFFF_FFFF_C000) * 4
  {}

  lemma Far14Is(w: bv32, v: bv64, far: bv64, s: bv64)
    requires v == Imm14(w) && far == Extend16(v) && s == Sext14(v)
    ensures far == s * 4
  {
    hide *;
    ImmBound14(w, v);
    Sext14Is(v);
    Extend16Is(v, far);
    Signed14(v, far, s);
  }

  lemma Extend16Is(v: bv64, far: bv64)
    requires far == Extend16(v)
    ensures far == ((v << 2) ^ 0x8000) - 0x8000
  {}

  lemma AimIs26(pc: bv64, w: bv32)
    ensures Add(pc, Far26(w)) == Rel26(pc, w)
  {
    var v := Imm26(w);
    var s := Sext26(v);
    var far := Extend28(v);
    assert Far26(w) == far by { hide Imm26, Extend28; }
    hide *;
    Far26Is(w, v, far, s);
    RelIs26(pc, w, v, s, far);
  }

  lemma AimIs19(pc: bv64, w: bv32)
    ensures Add(pc, Far19(w)) == Rel19(pc, w)
  {
    var v := Imm19(w);
    var s := Sext19(v);
    var far := Extend21(v);
    assert Far19(w) == far by { hide Imm19, Extend21; }
    hide *;
    Far19Is(w, v, far, s);
    RelIs19(pc, w, v, s, far);
  }

  lemma AimIs14(pc: bv64, w: bv32)
    ensures Add(pc, Far14(w)) == Rel14(pc, w)
  {
    var v := Imm14(w);
    var s := Sext14(v);
    var far := Extend16(v);
    assert Far14(w) == far by { hide Imm14, Extend16; }
    hide *;
    Far14Is(w, v, far, s);
    RelIs14(pc, w, v, s, far);
  }

  // ----- Executing each form -----

  lemma ExecB(env: Env, w: bv32, s: State)
    requires IsB(w)
    ensures Exec(env, w, s) == s.(pc := Rel26(s.pc, w))
  {
    AimIs26(s.pc, w);
    hide Rel26, Far26, Add;
  }

  lemma ExecBl(env: Env, w: bv32, s: State)
    requires IsBl(w)
    ensures Exec(env, w, s) == s.(pc := Rel26(s.pc, w), x := Put(s.x, 30, Add(s.pc, 4)))
  {
    AimIs26(s.pc, w);
    hide Rel26, Far26, Add, Put;
  }

  lemma ExecBCond(env: Env, w: bv32, s: State)
    requires w & 0xFF00_0000 == 0x5400_0000
    ensures Exec(env, w, s) ==
            s.(pc := if Holds((w & 0xF) as bv8, s.flags) then Rel19(s.pc, w) else Add(s.pc, 4))
  {
    AimIs19(s.pc, w);
    hide Rel19, Far19, Add, Put, Holds;
  }

  lemma ExecCbz(env: Env, w: bv32, s: State, sf: bool, rt: bv8, nonzero: bool)
    requires IsCbz(sf, rt, nonzero, w)
    ensures Exec(env, w, s) ==
            s.(pc := if Zero(Get(s.x, rt), sf) != nonzero then Rel19(s.pc, w) else Add(s.pc, 4))
  {
    AimIs19(s.pc, w);
    hide Rel19, Far19, Add, Put, Get, Zero, Rt;
  }

  lemma ExecTbz(env: Env, w: bv32, s: State, rt: bv8, bit: bv8, nonzero: bool)
    requires bit < 64 && IsTbz(rt, bit, nonzero, w)
    ensures Exec(env, w, s) ==
            s.(pc := if BitSet(Get(s.x, rt), bit) == nonzero then Rel14(s.pc, w) else Add(s.pc, 4))
  {
    AimIs14(s.pc, w);
    hide Rel14, Far14, Add, Put, Get, BitSet, Rt, BitNumber;
  }

  lemma ExecBr(env: Env, w: bv32, s: State)
    requires w & 0xFFFF_FC1F == 0xD61F_0000 || w & 0xFFFF_FC1F == 0xD65F_0000
    ensures Exec(env, w, s) == s.(pc := Get(s.x, Rn(w)))
  {
    hide Get, Rn, Add, Put;
  }

  lemma ExecBlr(env: Env, w: bv32, s: State)
    requires w & 0xFFFF_FC1F == 0xD63F_0000
    ensures Exec(env, w, s) == s.(pc := Get(s.x, Rn(w)), x := Put(s.x, 30, Add(s.pc, 4)))
  {
    hide Get, Rn, Add, Put;
  }

  lemma BrIs(rn: bv8, w: bv32)
    requires rn < 32 && w == EncBr(rn)
    ensures w & 0xFFFF_FC1F == 0xD61F_0000 && Rn(w) == rn
  {}

  // ----- adrp and add reach any page in 4 GB -----

  predicate IsAdrp(w: bv32) {
    w & 0x9F00_0000 == 0x9000_0000
  }

  lemma ExecAdrp(env: Env, w: bv32, s: State)
    requires IsAdrp(w)
    ensures Exec(env, w, s) == Next(s).(x := Put(s.x, Rt(w), Adrp(s.pc, Pages(w))))
  {
    hide Get, Rt, Add, Put, Pages, Next, Adrp;
  }

  lemma AdrpFields(rd: bv8, imm: bv32, w: bv32)
    requires rd < 32 && w == 0x9000_0000 | ((imm & 3) << 29) | (((imm >> 2) & 0x7_FFFF) << 5) | (rd as bv32)
    ensures IsAdrp(w) && Rt(w) == rd && AdrpImm(w) == (imm & 0x1F_FFFF) as bv64
  {}

  lemma AdrpPacked(rd: bv8, imm: bv32, w: bv32)
    requires rd < 32 && w == WordAdrp(rd, imm)
    ensures IsAdrp(w) && Rt(w) == rd && AdrpImm(w) == (imm & 0x1F_FFFF) as bv64
  {
    assert w == 0x9000_0000 | ((imm & 3) << 29) | (((imm >> 2) & 0x7_FFFF) << 5) | (rd as bv32);
    hide *;
    AdrpFields(rd, imm, w);
  }

  lemma AdrpUnpacked(rd: bv8, imm: bv32, w: bv32)
    requires IsAdrp(w) && Rt(w) == rd && AdrpImm(w) == (imm & 0x1F_FFFF) as bv64
    ensures w == WordAdrp(rd, imm)
  {}

  lemma PagesIn(p: bv64, v: bv64)
    requires v == p & 0x1F_FFFF
    ensures p + 0x10_0000 < 0x20_0000 ==> SignedPages(v) == p
  {}

  lemma PagesOut(p: bv64, v: bv64)
    requires v == p & 0x1F_FFFF
    ensures SignedPages(v) == p ==> p + 0x10_0000 < 0x20_0000
  {}

  lemma PagesLow(p: bv64, v: bv64, imm: bv32)
    requires imm == Low32(p) && v == (imm & 0x1F_FFFF) as bv64
    ensures v == p & 0x1F_FFFF
  {}

  lemma AnyPages(v: bv64, p: bv64)
    requires v <= 0x1F_FFFF && p == SignedPages(v)
    ensures v == p & 0x1F_FFFF
  {}

  lemma PagesInRange(p: bv64)
    ensures p + 0x10_0000 < 0x20_0000 <==> !Less(p, 0 - 0x10_0000) && Less(p, 0x10_0000)
  {}

  lemma AdrpImmBound(w: bv32)
    ensures AdrpImm(w) <= 0x1F_FFFF
  {}

  lemma AdrpIs(rd: bv8, pc: bv64, target: bv64, p: bv64, w: bv32)
    requires p == (target >> 12) - (pc >> 12)
    ensures EncAdrp(rd, pc, target) == Some(w) <==>
            !Less(p, 0 - 0x10_0000) && Less(p, 0x10_0000) && w == WordAdrp(rd, Low32(p))
  {
    hide Less, Low32, WordAdrp;
  }

  /** adrp is encoded exactly when the page of the target lies 21 signed bits
      of pages from the page of pc, and then the word holds that distance. */
  lemma AdrpExact(rd: bv8, pc: bv64, target: bv64, p: bv64, w: bv32)
    requires rd < 32 && p == (target >> 12) - (pc >> 12)
    ensures EncAdrp(rd, pc, target) == Some(w) <==> IsAdrp(w) && Rt(w) == rd && Pages(w) == p
  {
    AdrpIs(rd, pc, target, p, w);
    hide EncAdrp, Less, Low32, WordAdrp, IsAdrp, Rt, SignedPages, AdrpImm;
    PagesInRange(p);
    var imm := Low32(p);
    var v := (imm & 0x1F_FFFF) as bv64;
    PagesLow(p, v, imm);
    AdrpHolds(rd, p, imm, v, AdrpImm(w), w);
  }

  lemma AdrpHolds(rd: bv8, p: bv64, imm: bv32, v: bv64, a: bv64, w: bv32)
    requires rd < 32 && imm == Low32(p) && v == (imm & 0x1F_FFFF) as bv64 && v == p & 0x1F_FFFF && a == AdrpImm(w)
    ensures p + 0x10_0000 < 0x20_0000 && w == WordAdrp(rd, imm) <==> IsAdrp(w) && Rt(w) == rd && SignedPages(a) == p
  {
    hide *;
    if IsAdrp(w) && Rt(w) == rd && SignedPages(a) == p {
      AdrpHeld(rd, p, imm, v, a, w);
    } else if p + 0x10_0000 < 0x20_0000 && w == WordAdrp(rd, imm) {
      PagesIn(p, v);
      AdrpPacked(rd, imm, w);
    }
  }

  lemma AdrpHeld(rd: bv8, p: bv64, imm: bv32, v: bv64, a: bv64, w: bv32)
    requires imm == Low32(p) && v == (imm & 0x1F_FFFF) as bv64 && v == p & 0x1F_FFFF && a == AdrpImm(w)
    requires IsAdrp(w) && Rt(w) == rd && SignedPages(a) == p
    ensures p + 0x10_0000 < 0x20_0000 && w == WordAdrp(rd, imm)
  {
    hide *;
    AdrpImmBound(w);
    AnyPages(a, p);
    SameImm(p, a, v);
    PagesOut(p, v);
    AdrpUnpacked(rd, imm, w);
  }

  lemma SameImm(p: bv64, a: bv64, v: bv64)
    requires p & 0x1F_FFFF == a && v == p & 0x1F_FFFF
    ensures a == v
  {}

  lemma Paged(a: bv64, shifted: bv64, masked: bv64)
    requires shifted == (a >> 12) << 12 && masked == a & !0xFFF
    ensures shifted == masked
  {}

  lemma PageShift(a: bv64, b: bv64)
    ensures Sub(a << 12, b << 12) == (a - b) << 12
  {}

  lemma Joined(a: bv64, d: bv64, c: bv64, from: bv64, to: bv64)
    requires from == a && to == c && Sub(to, from) == d
    ensures Add(a, d) == c
  {
    hide *;
    AddSub(a, d, c);
  }

  lemma AdrpIsSum(pc: bv64, p: bv64, d: bv64, a: bv64)
    requires d == p << 12 && a == pc & !0xFFF
    ensures Adrp(pc, p) == Add(a, d)
  {
    hide Add;
  }

  lemma PageDistance(pc: bv64, target: bv64, p: bv64)
    requires p == (target >> 12) - (pc >> 12)
    ensures Sub((target >> 12) << 12, (pc >> 12) << 12) == p << 12
  {
    PageShift(target >> 12, pc >> 12);
  }

  /** The page distance the encoder stores takes adrp to the target's page. */
  lemma AdrpReaches(pc: bv64, target: bv64, p: bv64)
    requires p == (target >> 12) - (pc >> 12)
    ensures Adrp(pc, p) == target & !0xFFF
  {
    hide *;
    PageDistance(pc, target, p);
    var from, to := (pc >> 12) << 12, (target >> 12) << 12;
    var a, c, d := pc & !0xFFF, target & !0xFFF, p << 12;
    Paged(pc, from, a);
    Paged(target, to, c);
    AdrpIsSum(pc, p, d, a);
    Joined(a, d, c, from, to);
  }

  lemma AddFields(rd: bv8, imm: bv32, w: bv32)
    requires rd < 31 && imm < 0x1000 && w == EncAddImm(rd, rd, imm)
    ensures w & 0xFFC0_0000 == 0x9100_0000 && Rt(w) == rd && Rn(w) == rd && Imm12(w) == imm as bv64
  {}

  lemma ExecAddImm(env: Env, w: bv32, s: State)
    requires w & 0xFFC0_0000 == 0x9100_0000
    ensures Exec(env, w, s) == PutSp(Next(s), Rt(w), Add(GetSp(s, Rn(w)), Imm12(w)))
  {
    hide Get, Rt, Rn, Imm12, Add, Sub, Put, PutSp, GetSp, Pages, Next, Adrp;
  }

  lemma PageAndOffset(target: bv64, page: bv64, low: bv64)
    requires page == target & !0xFFF && low == target & 0xFFF
    ensures Add(page, low) == target
  {}

  lemma LowPart(target: bv64, imm: bv32)
    requires imm == Low32(target & 0xFFF)
    ensures imm < 0x1000 && imm as bv64 == target & 0xFFF
  {}

  lemma AdrpRuns(env: Env, s: State, rd: bv8, target: bv64, page: bv64, p: bv64, w: bv32)
    requires rd < 31 && IsAdrp(w) && Rt(w) == rd && Pages(w) == p && Adrp(s.pc, p) == page
    ensures Exec(env, w, s) == Next(s).(x := Put(s.x, rd, page))
  {
    hide *;
    ExecAdrp(env, w, s);
  }

  lemma AdrpGoes(pc: bv64, rd: bv8, target: bv64, page: bv64, p: bv64, w: bv32)
    requires rd < 31 && EncAdrp(rd, pc, target) == Some(w) && page == target & !0xFFF
    requires p == (target >> 12) - (pc >> 12)
    ensures IsAdrp(w) && Rt(w) == rd && Pages(w) == p && Adrp(pc, p) == page
  {
    hide *;
    AdrpExact(rd, pc, target, p, w);
    AdrpReaches(pc, target, p);
  }

  lemma NotSp(s: State, r: bv8, v: bv64)
    requires r < 31
    ensures GetSp(s, r) == Get(s.x, r) && PutSp(Next(s), r, v) == Next(s).(x := Put(s.x, r, v))
  {
    hide Get, Put, Add;
  }

  lemma AddRuns(env: Env, s: State, rd: bv8, target: bv64, page: bv64, v: bv32)
    requires rd < 31 && page == target & !0xFFF && Get(s.x, rd) == page
    requires v == EncAddImm(rd, rd, Low32(target & 0xFFF))
    ensures Exec(env, v, s) == Next(s).(x := Put(s.x, rd, target))
  {
    hide *;
    var imm := Low32(target & 0xFFF);
    LowPart(target, imm);
    AddFields(rd, imm, v);
    ExecAddImm(env, v, s);
    PageAndOffset(target, page, imm as bv64);
    NotSp(s, rd, target);
  }

  lemma TwoWrites(s: State, rd: bv8, page: bv64, target: bv64)
    requires rd < 31
    ensures var t := Next(s).(x := Put(s.x, rd, page));
            Get(t.x, rd) == page
            && Next(t).(x := Put(t.x, rd, target)) == Next(Next(s)).(x := Put(s.x, rd, target))
  {
    PutTwice(s.x, rd, page, target);
    hide Put, Get;
  }

  /** `adrp xd, target; add xd, xd, #lo12` leaves exactly the target in xd. */
  lemma AdrpAddReaches(env: Env, s: State, rd: bv8, target: bv64, w: bv32, v: bv32)
    requires rd < 31
    requires EncAdrp(rd, s.pc, target) == Some(w)
    requires v == EncAddImm(rd, rd, Low32(target & 0xFFF))
    ensures Exec(env, v, Exec(env, w, s)) == Next(Next(s)).(x := Put(s.x, rd, target))
    ensures Exec(env, w, s).pc == Add(s.pc, 4)
  {
    hide *;
    AdrpThenAdd(env, s, rd, target, target & !0xFFF, (target >> 12) - (s.pc >> 12), w, v);
  }

  lemma AdrpThenAdd(env: Env, s: State, rd: bv8, target: bv64, page: bv64, p: bv64, w: bv32, v: bv32)
    requires rd < 31 && EncAdrp(rd, s.pc, target) == Some(w) && v == EncAddImm(rd, rd, Low32(target & 0xFFF))
    requires page == target & !0xFFF && p == (target >> 12) - (s.pc >> 12)
    ensures Exec(env, v, Exec(env, w, s)) == Next(Next(s)).(x := Put(s.x, rd, target))
    ensures Exec(env, w, s).pc == Add(s.pc, 4)
  {
    hide *;
    AdrpGoes(s.pc, rd, target, page, p, w);
    AdrpRuns(env, s, rd, target, page, p, w);
    var t := Next(s).(x := Put(s.x, rd, page));
    TwoWrites(s, rd, page, target);
    AddRuns(env, t, rd, target, page, v);
    NextPc(s, t.x);
  }

  lemma NextPc(s: State, x: Regs)
    ensures Next(s).(x := x).pc == Add(s.pc, 4)
  {}

  lemma PutTwice(x: Regs, r: bv8, a: bv64, b: bv64)
    ensures Get(Put(x, r, a), r) == if r < 31 then a else 0
    ensures Put(Put(x, r, a), r, b) == Put(x, r, b)
  {}

  // ----- The words of the trampolines -----

  lemma MovzFields(rd: bv8, imm: bv64, shift: bv32, w: bv32)
    requires rd < 31 && shift < 4 && Movz(rd, imm, shift) == Some(w)
    ensures w & 0xFF80_0000 == 0xD280_0000 && Rt(w) == rd
    ensures ((w >> 5) & 0xFFFF) as bv64 == imm && (w >> 21) & 3 == shift
  {}

  lemma ExecMovz(env: Env, w: bv32, s: State)
    requires w & 0xFF80_0000 == 0xD280_0000
    ensures Exec(env, w, s) ==
            Next(s).(x := Put(s.x, Rt(w), Wide(((w >> 5) & 0xFFFF) as bv64, (w >> 21) & 3)))
  {
    hide Get, Rt, Rn, Imm12, Add, Sub, Put, PutSp, GetSp, Pages, Next, Adrp, Wide;
  }

  lemma LdrFields(rt: bv8, rn: bv8, imm: bv32, w: bv32)
    requires rt < 31 && rn < 31 && imm & 7 == 0 && imm < 0x8000 && w == EncLdr(rt, rn, imm)
    ensures w & 0xFFC0_0000 == 0xF940_0000 && Rt(w) == rt && Rn(w) == rn && Imm12(w) * 8 == imm as bv64
  {}

  lemma StrFields(rt: bv8, rn: bv8, imm: bv32, w: bv32)
    requires rt < 31 && rn < 31 && imm & 7 == 0 && imm < 0x8000 && w == EncStr(rt, rn, imm)
    ensures w & 0xFFC0_0000 == 0xF900_0000 && Rt(w) == rt && Rn(w) == rn && Imm12(w) * 8 == imm as bv64
  {}

  lemma ExecLoadStore(env: Env, w: bv32, s: State)
    requires LoadOrStore(w)
    ensures Exec(env, w, s) == LoadStore(env, w, s)
  {
    hide LoadStore, Get, Rt, Rn, Imm12, Add, Sub, Put, PutSp, GetSp, Pages, Next, Adrp, Wide;
  }

  /** A read of the virtual count, and what it gives */
  predicate IsCounter(w: bv32) { w & 0xFFFF_FFE0 == 0xD53B_E040 || w & 0xFFFF_FFE0 == 0xD53B_E020 }

  lemma ExecCounter(env: Env, w: bv32, s: State)
    requires IsCounter(w)
    ensures Exec(env, w, s) == Next(s).(x := Put(s.x, Rt(w), env.clock(s)))
  {
    hide LoadStore, Get, Rt, Rn, Imm12, Add, Sub, Put, PutSp, GetSp, Pages, Next, Adrp, Wide;
  }
}

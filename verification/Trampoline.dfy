/** The trampolines (src/rewrite.rs) and what running them does. */
module Trampoline {
  import opened Wrappers
  import opened Arm
  import opened ArmMachine
  import opened ArmSteps

  /** Where the fixed region keeps the scheduler's entry, the counter reads'
      entry and the quantum counter. */
  const STUB_BASE: bv64 := 0x78_0000_0000
  const SLOT_OFFSET: bv32 := 0
  const COUNTER_ENTRY_OFFSET: bv32 := 8
  const COUNTER_OFFSET: bv32 := 0x4010
  const SLOT: bv64 := 0x78_0000_0000
  const COUNTER_ENTRY: bv64 := 0x78_0000_0008
  const COUNTER: bv64 := 0x78_0000_4010

  // ----- Each word of the shared body -----

  lemma RunsStp(env: Env, s: State)
    ensures var a := Sub(s.sp, 16);
            Exec(env, STP_X0_X1_PRE, s) ==
            Next(s).(sp := a, mem := Write(Write(s.mem, a, s.x[0]), Add(a, 8), s.x[1]))
  {
    assert LoadOrStore(STP_X0_X1_PRE);
    ExecLoadStore(env, STP_X0_X1_PRE, s);
    hide Exec, Next, Add, Sub, Get, Put, Write;
  }

  lemma RunsLdp(env: Env, s: State)
    ensures Exec(env, LDP_X0_X1_POST, s) ==
            Next(s).(sp := Add(s.sp, 16), x := s.x[0 := Read(s.mem, s.sp)][1 := Read(s.mem, Add(s.sp, 8))])
  {
    assert LoadOrStore(LDP_X0_X1_POST);
    ExecLoadStore(env, LDP_X0_X1_POST, s);
    hide Exec, Next, Add, Sub, Get, Put, Read, Write;
  }

  lemma RunsPush(env: Env, s: State)
    ensures var a := Sub(s.sp, 16);
            Exec(env, STR_X30_PRE, s) == Next(s).(sp := a, mem := Write(s.mem, a, s.x[30]))
  {
    assert LoadOrStore(STR_X30_PRE);
    ExecLoadStore(env, STR_X30_PRE, s);
    hide Exec, Next, Add, Sub, Get, Put, Write;
  }

  lemma RunsPop(env: Env, s: State)
    ensures Exec(env, LDR_X30_POST, s) ==
            Next(s).(sp := Add(s.sp, 16), x := s.x[30 := Read(s.mem, s.sp)])
  {
    assert LoadOrStore(LDR_X30_POST);
    ExecLoadStore(env, LDR_X30_POST, s);
    hide Exec, Next, Add, Sub, Get, Put, Read, Write;
  }

  lemma RunsMovz(env: Env, w: bv32, s: State)
    requires EncMovz(0, STUB_BASE) == Some(w)
    ensures Exec(env, w, s) == Next(s).(x := s.x[0 := STUB_BASE])
  {
    MovzIsBase(w);
    MovzFields(0, 0x78, 2, w);
    ExecMovz(env, w, s);
    hide Exec, Next, EncMovz, Rt;
    assert Wide(0x78, 2) == STUB_BASE;
  }

  lemma MovzIsBase(w: bv32)
    requires EncMovz(0, STUB_BASE) == Some(w)
    ensures Movz(0, 0x78, 2) == Some(w)
  {}

  lemma MovzBaseFits()
    ensures EncMovz(0, STUB_BASE).Some?
  {}

  lemma RunsLdr(env: Env, s: State, rt: bv8, imm: bv32, a: bv64, w: bv32)
    requires rt < 31 && imm & 7 == 0 && imm < 0x8000 && w == EncLdr(rt, 0, imm) && Add(s.x[0], imm as bv64) == a
    ensures Exec(env, w, s) == Next(s).(x := Put(s.x, rt, Read(s.mem, a)))
  {
    hide *;
    LdrFields(rt, 0, imm, w);
    LdrGroup(w);
    ExecLoadStore(env, w, s);
    LdrDoes(env, w, s);
    FromX0(s);
  }

  lemma LdrGroup(w: bv32)
    requires w & 0xFFC0_0000 == 0xF940_0000 || w & 0xFFC0_0000 == 0xF900_0000
    ensures LoadOrStore(w)
    ensures w != STP_X0_X1_PRE && w != LDP_X0_X1_POST && w != STR_X30_PRE && w != LDR_X30_POST
  {}

  lemma LdrDoes(env: Env, w: bv32, s: State)
    requires LoadOrStore(w) && w & 0xFFC0_0000 == 0xF940_0000
    ensures LoadStore(env, w, s) == Next(s).(x := Put(s.x, Rt(w), Read(s.mem, Add(GetSp(s, Rn(w)), Imm12(w) * 8))))
  {
    LdrGroup(w);
    hide Next, Add, Sub, Get, Put, Read, Write, GetSp, Rn, Rt, Imm12;
  }

  lemma StrDoes(env: Env, w: bv32, s: State)
    requires LoadOrStore(w) && w & 0xFFC0_0000 == 0xF900_0000
    ensures LoadStore(env, w, s) == Next(s).(mem := Write(s.mem, Add(GetSp(s, Rn(w)), Imm12(w) * 8), Get(s.x, Rt(w))))
  {
    LdrGroup(w);
    assert w & 0xFFC0_0000 != 0xF940_0000;
    hide Next, Add, Sub, Get, Put, Read, Write, GetSp, Rn, Rt, Imm12;
  }

  lemma FromX0(s: State)
    ensures GetSp(s, 0) == s.x[0] && Get(s.x, 0) == s.x[0] && Get(s.x, 1) == s.x[1] && Get(s.x, 30) == s.x[30]
  {}

  lemma RunsStr(env: Env, s: State, imm: bv32, a: bv64, w: bv32)
    requires imm & 7 == 0 && imm < 0x8000 && w == EncStr(1, 0, imm) && Add(s.x[0], imm as bv64) == a
    ensures Exec(env, w, s) == Next(s).(mem := Write(s.mem, a, s.x[1]))
  {
    hide *;
    StrFields(1, 0, imm, w);
    LdrGroup(w);
    ExecLoadStore(env, w, s);
    StrDoes(env, w, s);
    FromX0(s);
  }

  lemma RunsSub(env: Env, s: State)
    ensures Exec(env, SUB_X1_X1_1, s) == Next(s).(x := s.x[1 := Sub(s.x[1], 1)])
  {
    FromX0(s);
    hide Add, Sub, Get;
    assert Imm12(SUB_X1_X1_1) == 1 && Rt(SUB_X1_X1_1) == 1 && Rn(SUB_X1_X1_1) == 1;
  }

  lemma RunsBlr(env: Env, s: State)
    ensures Exec(env, BLR_X0, s) == s.(pc := s.x[0], x := s.x[30 := Add(s.pc, 4)])
    ensures Exec(env, BLR_X1, s) == s.(pc := s.x[1], x := s.x[30 := Add(s.pc, 4)])
  {
    ExecBlr(env, BLR_X0, s);
    ExecBlr(env, BLR_X1, s);
    FromX0(s);
    assert Rn(BLR_X0) == 0 && Rn(BLR_X1) == 1;
    hide Exec, Add, Get;
  }

  lemma RunsRet(env: Env, s: State)
    ensures Exec(env, RET, s) == s.(pc := s.x[30])
  {
    ExecBr(env, RET, s);
    FromX0(s);
    assert Rn(RET) == 30;
    hide Exec, Add, Get;
  }

  /** A branch encoded at pc goes where it was aimed. */
  lemma RunsB(env: Env, s: State, target: bv64, w: bv32)
    requires EncB(s.pc, target) == Some(w)
    ensures Exec(env, w, s) == s.(pc := target)
  {
    hide *;
    BExact(s.pc, target, w);
    ExecB(env, w, s);
  }

  lemma RunsBl(env: Env, s: State, target: bv64, w: bv32)
    requires EncBl(s.pc, target) == Some(w)
    ensures Exec(env, w, s) == s.(pc := target, x := Put(s.x, 30, Add(s.pc, 4)))
  {
    hide *;
    BlExact(s.pc, target, w);
    ExecBl(env, w, s);
  }

  lemma RunsBCond(env: Env, s: State, cond: bv8, target: bv64, w: bv32)
    requires cond < 16 && EncBCond(cond, s.pc, target) == Some(w)
    ensures Exec(env, w, s) == s.(pc := if Holds(cond, s.flags) then target else Add(s.pc, 4))
  {
    hide *;
    BCondExact(cond, s.pc, target, w);
    CondField(cond, w);
    ExecBCond(env, w, s);
  }

  lemma CondField(cond: bv8, w: bv32)
    requires IsBCond(cond, w)
    ensures w & 0xFF00_0000 == 0x5400_0000 && (w & 0xF) as bv8 == cond
  {}

  lemma RunsCbz(env: Env, s: State, sf: bool, rt: bv8, nonzero: bool, target: bv64, w: bv32)
    requires rt < 32 && EncCbz(sf, rt, nonzero, s.pc, target) == Some(w)
    ensures Exec(env, w, s) == s.(pc := if Zero(Get(s.x, rt), sf) != nonzero then target else Add(s.pc, 4))
  {
    hide *;
    CbzExact(sf, rt, nonzero, s.pc, target, w);
    ExecCbz(env, w, s, sf, rt, nonzero);
  }

  lemma RunsTbz(env: Env, s: State, rt: bv8, bit: bv8, nonzero: bool, target: bv64, w: bv32)
    requires rt < 32 && bit < 64 && EncTbz(rt, bit, nonzero, s.pc, target) == Some(w)
    ensures Exec(env, w, s) == s.(pc := if BitSet(Get(s.x, rt), bit) == nonzero then target else Add(s.pc, 4))
  {
    hide *;
    TbzExact(rt, bit, nonzero, s.pc, target, w);
    ExecTbz(env, w, s, rt, bit, nonzero);
  }

  lemma RunsBr(env: Env, s: State, rn: bv8)
    requires rn < 32
    ensures Exec(env, EncBr(rn), s) == s.(pc := Get(s.x, rn))
  {
    hide *;
    BrIs(rn, EncBr(rn));
    ExecBr(env, EncBr(rn), s);
  }

  // ----- Runs -----

  /** The address of word i of an area. */
  function Addr(base: bv64, i: nat): bv64 {
    if i == 0 then base else Add(Addr(base, i - 1), 4)
  }

  predicate WordAt(text: Text, a: bv64, w: bv32) {
    At(a) in text && text[At(a)] == w
  }

  /** The text holds these words of the area at base, from word `from` on. */
  ghost predicate Placed(text: Text, base: bv64, from: nat, ws: seq<bv32>) {
    forall i: nat {:trigger ws[i]} :: i < |ws| ==> WordAt(text, Addr(base, from + i), ws[i])
  }

  function Run(env: Env, text: Text, s: State, n: nat): State
    decreases n
  {
    if n == 0 then s else Run(env, text, Step(env, text, s), n - 1)
  }

  ghost predicate Reaches(env: Env, text: Text, s: State, t: State) {
    exists n: nat :: Run(env, text, s, n) == t
  }

  lemma {:induction false} RunAdd(env: Env, text: Text, s: State, m: nat, n: nat)
    ensures Run(env, text, Run(env, text, s, m), n) == Run(env, text, s, m + n)
    decreases m
  {
    hide Step;
    if m > 0 {
      RunAdd(env, text, Step(env, text, s), m - 1, n);
    }
  }

  lemma ReachesTrans(env: Env, text: Text, s: State, t: State, u: State)
    requires Reaches(env, text, s, t) && Reaches(env, text, t, u)
    ensures Reaches(env, text, s, u)
  {
    hide Run;
    var m: nat :| Run(env, text, s, m) == t;
    var n: nat :| Run(env, text, t, n) == u;
    RunAdd(env, text, s, m, n);
    assert Run(env, text, s, m + n) == u;
  }

  lemma ReachesSelf(env: Env, text: Text, s: State)
    ensures Reaches(env, text, s, s)
  {
    hide Step;
    assert Run(env, text, s, 0) == s;
  }

  /** One placed word is executed. */
  lemma One(env: Env, text: Text, base: bv64, from: nat, ws: seq<bv32>, i: nat, s: State, t: State)
    requires Placed(text, base, from, ws) && i < |ws| && s.pc == Addr(base, from + i)
    requires Exec(env, ws[i], s) == t
    ensures Reaches(env, text, s, t)
  {
    hide Exec, Addr;
    assert WordAt(text, s.pc, ws[i]);
    Once(env, text, s, t);
  }

  lemma Once(env: Env, text: Text, s: State, t: State)
    requires Step(env, text, s) == t
    ensures Reaches(env, text, s, t)
  {
    hide Step;
    assert Run(env, text, s, 1) == t;
  }

  /** One more placed word. */
  lemma More(env: Env, text: Text, base: bv64, from: nat, ws: seq<bv32>, i: nat, s: State, t: State, u: State)
    requires Reaches(env, text, s, t)
    requires Placed(text, base, from, ws) && i < |ws| && t.pc == Addr(base, from + i)
    requires Exec(env, ws[i], t) == u
    ensures Reaches(env, text, s, u)
  {
    hide Exec, Addr, Placed, Reaches;
    One(env, text, base, from, ws, i, t, u);
    ReachesTrans(env, text, s, t, u);
  }

  lemma Follows(base: bv64, i: nat)
    ensures Addr(base, i + 1) == Add(Addr(base, i), 4)
  {}

  // ----- The shared body -----

  /** emit_common, at word c of its area. */
  ghost predicate IsCommon(base: bv64, c: nat, ws: seq<bv32>) {
    && |ws| == 14
    && ws[0] == STP_X0_X1_PRE
    && EncMovz(0, STUB_BASE) == Some(ws[1])
    && ws[2] == EncLdr(1, 0, COUNTER_OFFSET)
    && ws[3] == SUB_X1_X1_1
    && ws[4] == EncStr(1, 0, COUNTER_OFFSET)
    && EncCbz(true, 1, false, Addr(base, c + 5), Addr(base, c + 8)) == Some(ws[5])
    && ws[6] == LDP_X0_X1_POST
    && ws[7] == RET
    && ws[8] == STR_X30_PRE
    && ws[9] == EncLdr(0, 0, SLOT_OFFSET)
    && EncCbz(true, 0, false, Addr(base, c + 10), Addr(base, c + 12)) == Some(ws[10])
    && ws[11] == BLR_X0
    && ws[12] == LDR_X30_POST
    && EncB(Addr(base, c + 13), Addr(base, c + 6)) == Some(ws[13])
  }

  /** x0 and x1 overwritten. */
  function Scratch(x: Regs, a: bv64, b: bv64): Regs {
    x[0 := a][1 := b]
  }

  lemma ScratchIs(x: Regs, a: bv64, b: bv64)
    ensures var y := Scratch(x, a, b);
            && y[0] == a && y[1] == b && Get(y, 0) == a && Get(y, 1) == b
            && (forall i :: 2 <= i < 31 ==> y[i] == x[i])
    ensures forall v :: Scratch(x, a, b)[0 := v] == Scratch(x, v, b) && Scratch(x, a, b)[1 := v] == Scratch(x, a, v)
  {}

  /** What the body pushes below sp, first the pair x0, x1 and then x30. */
  function Pair(sp: bv64): bv64 { Sub(sp, 16) }

  function Pair1(sp: bv64): bv64 { Add(Sub(sp, 16), 8) }

  function Inner(sp: bv64): bv64 { Sub(Sub(sp, 16), 16) }

  predicate Region(a: bv64) {
    a == COUNTER || a == SLOT || a == COUNTER_ENTRY
  }

  /** The stack is not in the fixed region. */
  predicate Clear(sp: bv64) {
    !Region(Pair(sp)) && !Region(Pair1(sp)) && !Region(Inner(sp))
  }

  function Left(s: State): bv64 {
    Sub(Read(s.mem, COUNTER), 1)
  }

  /** The pair on the stack. */
  function Pushed(s: State): Memory {
    Write(Write(s.mem, Pair(s.sp), s.x[0]), Pair1(s.sp), s.x[1])
  }

  /** Memory once the event is counted. */
  function Counted(s: State): Memory {
    Write(Pushed(s), COUNTER, Left(s))
  }

  /** When the quantum is out: the site's return address is saved too. */
  function Expired(s: State): Memory {
    Write(Counted(s), Inner(s.sp), s.x[30])
  }

  /** The scheduler's entry, called from word c + 11. */
  function Entered(s: State, base: bv64, c: nat): State {
    s.(pc := Read(s.mem, SLOT), sp := Inner(s.sp), mem := Expired(s),
       x := Scratch(s.x, Read(s.mem, SLOT), 0)[30 := Addr(base, c + 12)])
  }

  /** What the scheduler's entry keeps: it returns, with every register but x0
      and x1, which the body saved, with what the body saved and with the word
      the trampoline saved at the top. */
  predicate Kept(e: State, r: State, top: bv64) {
    && r.pc == e.x[30] && r.sp == e.sp && r.flags == e.flags && r.vectors == e.vectors
    && (forall i :: 2 <= i < 31 ==> r.x[i] == e.x[i])
    && Read(r.mem, Inner(top)) == Read(e.mem, Inner(top))
    && Read(r.mem, Pair(top)) == Read(e.mem, Pair(top))
    && Read(r.mem, Pair1(top)) == Read(e.mem, Pair1(top))
    && Read(r.mem, top) == Read(e.mem, top)
  }

  ghost predicate EntryReturns(env: Env, text: Text, s: State, base: bv64, c: nat) {
    var e := Entered(s, base, c);
    Left(s) == 0 && e.pc != 0 ==>
      At(e.pc) !in text && Kept(e, env.outside(e), s.sp)
  }

  /** Memory when the body is done. */
  function After(env: Env, s: State, base: bv64, c: nat): Memory {
    if Left(s) != 0 then Counted(s)
    else if Read(s.mem, SLOT) == 0 then Expired(s)
    else env.outside(Entered(s, base, c)).mem
  }

  lemma Stack(sp: bv64)
    ensures Add(Pair(sp), 16) == sp && Add(Inner(sp), 16) == Pair(sp) && Add(Pair(sp), 8) == Pair1(sp)
    ensures Sub(Pair(sp), 16) == Inner(sp) && Sub(sp, 16) == Pair(sp)
  {
    hide Add, Sub;
    UnSub(sp);
    UnSub(Sub(sp, 16));
  }

  lemma UnSub(a: bv64)
    ensures Add(Sub(a, 16), 16) == a
  {
    Added(16, a - 16, a);
  }

  lemma Distinct(sp: bv64)
    ensures Pair(sp) != Pair1(sp) && Pair(sp) != Inner(sp) && Pair1(sp) != Inner(sp)
  {}

  lemma Places()
    ensures Add(STUB_BASE, COUNTER_OFFSET as bv64) == COUNTER
    ensures Add(STUB_BASE, SLOT_OFFSET as bv64) == SLOT
    ensures Add(STUB_BASE, COUNTER_ENTRY_OFFSET as bv64) == COUNTER_ENTRY
    ensures COUNTER != SLOT && COUNTER != COUNTER_ENTRY && SLOT != COUNTER_ENTRY
  {}

  lemma PushedKeeps(s: State, a: bv64)
    requires Clear(s.sp) && Region(a)
    ensures Read(Pushed(s), a) == Read(s.mem, a)
  {}

  /** The first two words. */
  lemma CommonPushes(env: Env, text: Text, base: bv64, c: nat, ws: seq<bv32>, s: State)
    requires IsCommon(base, c, ws) && Placed(text, base, c, ws) && s.pc == Addr(base, c)
    ensures Reaches(env, text, s, s.(pc := Addr(base, c + 2), sp := Pair(s.sp), mem := Pushed(s),
                                    x := s.x[0 := STUB_BASE]))
  {
    Stack(s.sp);
    hide Exec, Addr, Placed, Reaches, EncMovz, EncLdr, EncStr, EncCbz, EncB, Add, Sub, Write, Read, Pair, Pair1,
         Inner;
    var s1 := s.(pc := Addr(base, c + 1), sp := Pair(s.sp), mem := Pushed(s));
    RunsStp(env, s);
    Follows(base, c);
    One(env, text, base, c, ws, 0, s, s1);
    hide Pushed;
    RunsMovz(env, ws[1], s1);
    Follows(base, c + 1);
    More(env, text, base, c, ws, 1, s, s1, s1.(pc := Addr(base, c + 2), x := s.x[0 := STUB_BASE]));
  }

  lemma CommonFetches(env: Env, text: Text, base: bv64, c: nat, ws: seq<bv32>, s: State, t: State)
    requires IsCommon(base, c, ws) && Placed(text, base, c, ws)
    requires t == s.(pc := Addr(base, c + 2), sp := Pair(s.sp), mem := Pushed(s), x := s.x[0 := STUB_BASE])
    requires Read(Pushed(s), COUNTER) == Read(s.mem, COUNTER)
    ensures Reaches(env, text, t, t.(pc := Addr(base, c + 3), x := Scratch(s.x, STUB_BASE, Read(s.mem, COUNTER))))
  {
    Places();
    hide Exec, Addr, Placed, Reaches, EncMovz, EncLdr, EncStr, EncCbz, EncB, Add, Sub, Write, Read, Pair, Pair1,
         Inner;
    hide Clear, Pushed;
    RunsLdr(env, t, 1, COUNTER_OFFSET, COUNTER, ws[2]);
    Follows(base, c + 2);
    One(env, text, base, c, ws, 2, t, t.(pc := Addr(base, c + 3), x := Scratch(s.x, STUB_BASE, Read(s.mem, COUNTER))));
  }

  lemma CommonLoads(env: Env, text: Text, base: bv64, c: nat, ws: seq<bv32>, s: State)
    requires IsCommon(base, c, ws) && Placed(text, base, c, ws) && s.pc == Addr(base, c) && Clear(s.sp)
    ensures Reaches(env, text, s, s.(pc := Addr(base, c + 3), sp := Pair(s.sp), mem := Pushed(s),
                                    x := Scratch(s.x, STUB_BASE, Read(s.mem, COUNTER))))
  {
    PushedKeeps(s, COUNTER) by {
      assert Region(COUNTER);
    }
    CommonPushes(env, text, base, c, ws, s);
    hide IsCommon, Placed, Reaches, Addr, Pair, Pushed, Scratch, Read;
    var t := s.(pc := Addr(base, c + 2), sp := Pair(s.sp), mem := Pushed(s), x := s.x[0 := STUB_BASE]);
    CommonFetches(env, text, base, c, ws, s, t);
    ReachesTrans(env, text, s, t, t.(pc := Addr(base, c + 3), x := Scratch(s.x, STUB_BASE, Read(s.mem, COUNTER))));
  }

  lemma CommonDecrements(env: Env, text: Text, base: bv64, c: nat, ws: seq<bv32>, s: State, t: State)
    requires IsCommon(base, c, ws) && Placed(text, base, c, ws)
    requires t == s.(pc := Addr(base, c + 3), sp := Pair(s.sp), mem := Pushed(s),
                     x := Scratch(s.x, STUB_BASE, Read(s.mem, COUNTER)))
    ensures Reaches(env, text, t, t.(pc := Addr(base, c + 4), x := Scratch(s.x, STUB_BASE, Left(s))))
  {
    ScratchIs(s.x, STUB_BASE, Read(s.mem, COUNTER));
    hide Scratch, Exec, Addr, Placed, Reaches, EncMovz, EncLdr, EncStr, EncCbz, EncB, Add, Sub, Write, Read, Pair,
         Pair1;
    hide Inner, Pushed, Clear;
    RunsSub(env, t);
    Follows(base, c + 3);
    One(env, text, base, c, ws, 3, t, t.(pc := Addr(base, c + 4), x := Scratch(s.x, STUB_BASE, Left(s))));
  }

  lemma CommonStores(env: Env, text: Text, base: bv64, c: nat, ws: seq<bv32>, s: State, t: State)
    requires IsCommon(base, c, ws) && Placed(text, base, c, ws)
    requires t == s.(pc := Addr(base, c + 4), sp := Pair(s.sp), mem := Pushed(s), x := Scratch(s.x, STUB_BASE, Left(s)))
    ensures Reaches(env, text, t, t.(pc := Addr(base, c + 5), mem := Counted(s)))
  {
    ScratchIs(s.x, STUB_BASE, Left(s));
    Places();
    hide Scratch, Exec, Addr, Placed, Reaches, EncMovz, EncLdr, EncStr, EncCbz, EncB, Add, Sub, Write, Read, Pair,
         Pair1;
    hide Inner, Pushed, Clear;
    hide Left;
    RunsStr(env, t, COUNTER_OFFSET, COUNTER, ws[4]);
    Follows(base, c + 4);
    One(env, text, base, c, ws, 4, t, t.(pc := Addr(base, c + 5), mem := Counted(s)));
  }

  /** Up to the check: the pair is pushed and the event counted. */
  lemma CommonCounts(env: Env, text: Text, base: bv64, c: nat, ws: seq<bv32>, s: State)
    requires IsCommon(base, c, ws) && Placed(text, base, c, ws) && s.pc == Addr(base, c) && Clear(s.sp)
    ensures Reaches(env, text, s, s.(pc := Addr(base, c + 5), sp := Pair(s.sp), mem := Counted(s),
                                    x := Scratch(s.x, STUB_BASE, Left(s))))
  {
    hide *;
    CommonLoads(env, text, base, c, ws, s);
    var t := s.(pc := Addr(base, c + 3), sp := Pair(s.sp), mem := Pushed(s),
                x := Scratch(s.x, STUB_BASE, Read(s.mem, COUNTER)));
    CommonDecrements(env, text, base, c, ws, s, t);
    var u := t.(pc := Addr(base, c + 4), x := Scratch(s.x, STUB_BASE, Left(s)));
    ReachesTrans(env, text, s, t, u);
    CommonStores(env, text, base, c, ws, s, u);
    ReachesTrans(env, text, s, u, u.(pc := Addr(base, c + 5), mem := Counted(s)));
  }

  /** From word 6 the pair is popped and the body returns. */
  lemma CommonResumes(env: Env, text: Text, base: bv64, c: nat, ws: seq<bv32>, s: State, t: State)
    requires IsCommon(base, c, ws) && Placed(text, base, c, ws) && t.pc == Addr(base, c + 6)
    requires t.sp == Pair(s.sp) && Read(t.mem, Pair(s.sp)) == s.x[0] && Read(t.mem, Pair1(s.sp)) == s.x[1]
    requires t.flags == s.flags && t.vectors == s.vectors && forall i :: 2 <= i < 31 ==> t.x[i] == s.x[i]
    ensures Reaches(env, text, t, s.(pc := s.x[30], mem := t.mem))
  {
    hide Scratch;
    hide Exec, Addr, Placed, Reaches, EncMovz, EncLdr, EncStr, EncCbz, EncB, Add, Sub, Write;
    Stack(s.sp);
    var t1 := t.(pc := Addr(base, c + 7), sp := s.sp, x := t.x[0 := s.x[0]][1 := s.x[1]]);
    RunsLdp(env, t);
    Follows(base, c + 6);
    One(env, text, base, c, ws, 6, t, t1);
    assert t1.x == s.x;
    RunsRet(env, t1);
    More(env, text, base, c, ws, 7, t, t1, t1.(pc := s.x[30]));
  }

  /** What was pushed is still there. */
  lemma Saved(s: State)
    requires Clear(s.sp)
    ensures Read(Counted(s), Pair(s.sp)) == s.x[0] && Read(Counted(s), Pair1(s.sp)) == s.x[1]
    ensures Read(Expired(s), Pair(s.sp)) == s.x[0] && Read(Expired(s), Pair1(s.sp)) == s.x[1]
    ensures Read(Expired(s), Inner(s.sp)) == s.x[30]
    ensures Read(Expired(s), SLOT) == Read(s.mem, SLOT)
  {
    Distinct(s.sp);
    Places();
    hide Pair, Pair1, Inner, Left;
  }

  /** The expired path up to the call: x30 is saved and the entry loaded. */
  lemma CommonSaves(env: Env, text: Text, base: bv64, c: nat, ws: seq<bv32>, s: State, t: State)
    requires IsCommon(base, c, ws) && Placed(text, base, c, ws)
    requires t == s.(pc := Addr(base, c + 8), sp := Pair(s.sp), mem := Counted(s), x := Scratch(s.x, STUB_BASE, 0))
    ensures Reaches(env, text, t, t.(pc := Addr(base, c + 9), sp := Inner(s.sp), mem := Expired(s)))
  {
    ScratchIs(s.x, STUB_BASE, 0);
    Stack(s.sp);
    hide Scratch, Exec, Addr, Placed, Reaches, EncMovz, EncLdr, EncStr, EncCbz, EncB, Add, Sub, Write, Read, Pair,
         Pair1;
    hide Inner, Clear, Counted;
    RunsPush(env, t);
    Follows(base, c + 8);
    One(env, text, base, c, ws, 8, t, t.(pc := Addr(base, c + 9), sp := Inner(s.sp), mem := Expired(s)));
  }

  lemma CommonSlot(env: Env, text: Text, base: bv64, c: nat, ws: seq<bv32>, s: State, t: State)
    requires IsCommon(base, c, ws) && Placed(text, base, c, ws)
    requires t == s.(pc := Addr(base, c + 9), sp := Inner(s.sp), mem := Expired(s), x := Scratch(s.x, STUB_BASE, 0))
    requires Read(Expired(s), SLOT) == Read(s.mem, SLOT)
    ensures Reaches(env, text, t, t.(pc := Addr(base, c + 10), x := Scratch(s.x, Read(s.mem, SLOT), 0)))
  {
    ScratchIs(s.x, STUB_BASE, 0);
    Places();
    hide Scratch, Exec, Addr, Placed, Reaches, EncMovz, EncLdr, EncStr, EncCbz, EncB, Add, Sub, Write, Read, Pair,
         Pair1;
    hide Inner, Expired;
    RunsLdr(env, t, 0, SLOT_OFFSET, SLOT, ws[9]);
    Follows(base, c + 9);
    One(env, text, base, c, ws, 9, t, t.(pc := Addr(base, c + 10), x := Scratch(s.x, Read(s.mem, SLOT), 0)));
  }

  lemma CommonExpires(env: Env, text: Text, base: bv64, c: nat, ws: seq<bv32>, s: State, t: State)
    requires IsCommon(base, c, ws) && Placed(text, base, c, ws) && Clear(s.sp)
    requires t == s.(pc := Addr(base, c + 8), sp := Pair(s.sp), mem := Counted(s), x := Scratch(s.x, STUB_BASE, 0))
    ensures Reaches(env, text, t, s.(pc := Addr(base, c + 10), sp := Inner(s.sp), mem := Expired(s),
                                    x := Scratch(s.x, Read(s.mem, SLOT), 0)))
  {
    Saved(s);
    hide *;
    var t1 := t.(pc := Addr(base, c + 9), sp := Inner(s.sp), mem := Expired(s));
    CommonSaves(env, text, base, c, ws, s, t);
    CommonSlot(env, text, base, c, ws, s, t1);
    ReachesTrans(env, text, t, t1, t1.(pc := Addr(base, c + 10), x := Scratch(s.x, Read(s.mem, SLOT), 0)));
  }

  /** From word 12: x30 is popped and the body resumes. */
  lemma CommonReturns(env: Env, text: Text, base: bv64, c: nat, ws: seq<bv32>, s: State, t: State)
    requires IsCommon(base, c, ws) && Placed(text, base, c, ws) && t.pc == Addr(base, c + 12)
    requires t.sp == Inner(s.sp) && Read(t.mem, Inner(s.sp)) == s.x[30]
    requires Read(t.mem, Pair(s.sp)) == s.x[0] && Read(t.mem, Pair1(s.sp)) == s.x[1]
    requires t.flags == s.flags && t.vectors == s.vectors && forall i :: 2 <= i < 30 ==> t.x[i] == s.x[i]
    ensures Reaches(env, text, t, s.(pc := s.x[30], mem := t.mem))
  {
    hide Scratch;
    hide Exec, Addr, Placed, Reaches, EncMovz, EncLdr, EncStr, EncCbz, EncB, Add, Sub, Write, Read;
    Stack(s.sp);
    var t1 := t.(pc := Addr(base, c + 13), sp := Pair(s.sp), x := t.x[30 := s.x[30]]);
    RunsPop(env, t);
    Follows(base, c + 12);
    One(env, text, base, c, ws, 12, t, t1);
    var t2 := t1.(pc := Addr(base, c + 6));
    RunsB(env, t1, Addr(base, c + 6), ws[13]);
    More(env, text, base, c, ws, 13, t, t1, t2);
    CommonResumes(env, text, base, c, ws, s, t2);
    ReachesTrans(env, text, t, t2, s.(pc := s.x[30], mem := t.mem));
  }

  /** cbz x1 and cbz x0 in the body test the full register against zero. */
  lemma RunsCheck(env: Env, s: State, rt: bv8, target: bv64, w: bv32)
    requires rt < 31 && EncCbz(true, rt, false, s.pc, target) == Some(w)
    ensures Exec(env, w, s) == s.(pc := if Get(s.x, rt) == 0 then target else Add(s.pc, 4))
  {
    hide Exec, EncCbz, Get, Add;
    RunsCbz(env, s, true, rt, false, target, w);
  }

  lemma CommonChecks(env: Env, text: Text, base: bv64, c: nat, ws: seq<bv32>, s: State, t: State)
    requires IsCommon(base, c, ws) && Placed(text, base, c, ws)
    requires t
      == s.(pc := Addr(base, c + 5), sp := Pair(s.sp), mem := Counted(s), x := Scratch(s.x, STUB_BASE, Left(s)))
    ensures Reaches(env, text, t, t.(pc := if Left(s) == 0 then Addr(base, c + 8) else Addr(base, c + 6)))
  {
    hide Exec, Addr, Placed, Reaches, EncMovz, EncLdr, EncStr, EncCbz, EncB, Add, Sub, Write, Read, Pair, Pair1,
         Inner;
    hide Counted, Expired, Clear, Get, Scratch, Left;
    ScratchIs(s.x, STUB_BASE, Left(s));
    RunsCheck(env, t, 1, Addr(base, c + 8), ws[5]);
    Follows(base, c + 5);
    One(env, text, base, c, ws, 5, t, t.(pc := if Left(s) == 0 then Addr(base, c + 8) else Addr(base, c + 6)));
  }

  /** The body returns to its caller with every register as it was, having
      counted the event and, the quantum out, entered the scheduler. */
  lemma CommonRuns(env: Env, text: Text, base: bv64, c: nat, ws: seq<bv32>, s: State)
    requires IsCommon(base, c, ws) && Placed(text, base, c, ws) && s.pc == Addr(base, c) && Clear(s.sp)
    requires EntryReturns(env, text, s, base, c)
    ensures Reaches(env, text, s, s.(pc := s.x[30], mem := After(env, s, base, c)))
  {
    CommonCounts(env, text, base, c, ws, s);
    ScratchIs(s.x, STUB_BASE, Left(s));
    Saved(s);
    var k := s.(pc := Addr(base, c + 5), sp := Pair(s.sp), mem := Counted(s), x := Scratch(s.x, STUB_BASE, Left(s)));
    CommonChecks(env, text, base, c, ws, s, k);
    hide IsCommon, Placed, Clear, Reaches, Addr, Counted, Pair, Pair1, Inner, Read, Scratch;
    var end := s.(pc := s.x[30], mem := After(env, s, base, c));
    if Left(s) != 0 {
      var t := s.(pc := Addr(base, c + 6), sp := Pair(s.sp), mem := Counted(s), x := Scratch(s.x, STUB_BASE, Left(s)));
      ReachesTrans(env, text, s, k, t);
      CommonResumes(env, text, base, c, ws, s, t);
      ReachesTrans(env, text, s, t, end);
    } else {
      var t := s.(pc := Addr(base, c + 8), sp := Pair(s.sp), mem := Counted(s), x := Scratch(s.x, STUB_BASE, 0));
      ReachesTrans(env, text, s, k, t);
      CommonExpires(env, text, base, c, ws, s, t);
      var u :=
        s.(pc := Addr(base, c + 10), sp := Inner(s.sp), mem := Expired(s), x := Scratch(s.x, Read(s.mem, SLOT), 0));
      ReachesTrans(env, text, s, t, u);
      CommonEnters(env, text, base, c, ws, s, u);
      ReachesTrans(env, text, s, u, end);
    }
  }

  lemma CommonLooks(env: Env, text: Text, base: bv64, c: nat, ws: seq<bv32>, s: State, u: State)
    requires IsCommon(base, c, ws) && Placed(text, base, c, ws)
    requires u == s.(pc := Addr(base, c + 10), sp := Inner(s.sp), mem := Expired(s),
                     x := Scratch(s.x, Read(s.mem, SLOT), 0))
    ensures Reaches(env, text, u, u.(pc := if Read(s.mem, SLOT) == 0 then Addr(base, c + 12) else Addr(base, c + 11)))
  {
    hide Exec, Addr, Placed, Reaches, EncMovz, EncLdr, EncStr, EncCbz, EncB, Add, Sub, Write, Read, Pair, Pair1,
         Inner;
    hide Counted, Expired, Clear, Get, Left, Scratch;
    ScratchIs(s.x, Read(s.mem, SLOT), 0);
    RunsCheck(env, u, 0, Addr(base, c + 12), ws[10]);
    Follows(base, c + 10);
    One(env, text, base, c, ws, 10, u,
        u.(pc := if Read(s.mem, SLOT) == 0 then Addr(base, c + 12) else Addr(base, c + 11)));
  }

  lemma CommonEnters(env: Env, text: Text, base: bv64, c: nat, ws: seq<bv32>, s: State, u: State)
    requires IsCommon(base, c, ws) && Placed(text, base, c, ws) && Clear(s.sp) && Left(s) == 0
    requires EntryReturns(env, text, s, base, c)
    requires u == s.(pc := Addr(base, c + 10), sp := Inner(s.sp), mem := Expired(s),
                     x := Scratch(s.x, Read(s.mem, SLOT), 0))
    ensures Reaches(env, text, u, s.(pc := s.x[30], mem := After(env, s, base, c)))
  {
    Saved(s);
    ScratchIs(s.x, Read(s.mem, SLOT), 0);
    CommonLooks(env, text, base, c, ws, s, u);
    hide IsCommon, Addr, Placed, Reaches, Pair, Pair1, Inner, Read, EntryReturns;
    hide Counted, Expired, Clear, Left, Scratch, Entered;
    if Read(s.mem, SLOT) == 0 {
      var v := u.(pc := Addr(base, c + 12));
      CommonReturns(env, text, base, c, ws, s, v);
      ReachesTrans(env, text, u, v, s.(pc := s.x[30], mem := v.mem));
    } else {
      CommonCalls(env, text, base, c, ws, s, u, u.(pc := Addr(base, c + 11)));
    }
  }

  lemma CommonCalls(env: Env, text: Text, base: bv64, c: nat, ws: seq<bv32>, s: State, u: State, v: State)
    requires IsCommon(base, c, ws) && Placed(text, base, c, ws) && Left(s) == 0 && Read(s.mem, SLOT) != 0
    requires EntryReturns(env, text, s, base, c) && Reaches(env, text, u, v)
    requires v == s.(pc := Addr(base, c + 11), sp := Inner(s.sp), mem := Expired(s),
                     x := Scratch(s.x, Read(s.mem, SLOT), 0))
    requires Read(Expired(s), Pair(s.sp)) == s.x[0] && Read(Expired(s), Pair1(s.sp)) == s.x[1]
    requires Read(Expired(s), Inner(s.sp)) == s.x[30]
    ensures Reaches(env, text, u, s.(pc := s.x[30], mem := After(env, s, base, c)))
  {
    ScratchIs(s.x, Read(s.mem, SLOT), 0);
    var e := Entered(s, base, c);
    hide Scratch;
    hide Exec, Addr, Placed, Reaches, EncMovz, EncLdr, EncStr, EncCbz, EncB, Add, Sub, Write, Read, Pair, Pair1,
         Inner;
    hide Counted, Expired, Clear, Get, Left;
    RunsBlr(env, v);
    Follows(base, c + 11);
    More(env, text, base, c, ws, 11, u, v, e);
    var r := env.outside(e);
    Once(env, text, e, r);
    ReachesTrans(env, text, u, e, r);
    CommonReturns(env, text, base, c, ws, s, r);
    ReachesTrans(env, text, u, r, s.(pc := s.x[30], mem := r.mem));
  }
}

/** A small A64 machine, from sections C4.1 (encoding) and C6.2 (base
    instructions) of the Arm Architecture Reference Manual, DDI 0487, and
    independent of the rewriter's own decoder.  It executes branches and the
    handful of instructions the trampolines are made of; a load or store is an
    unknown function of everything but the program counter, any other
    instruction an unknown function of everything, and so is whatever runs
    outside the text. */
module ArmMachine {
  import opened Arm

  type Regs = s: seq<bv64> | |s| == 31 witness seq(31, i => 0)

  lemma RegBound(r: bv8)
    requires r < 31
    ensures r as nat < 31
  {}

  /** Register 31 reads as zero and discards what is written. */
  function Get(x: Regs, r: bv8): bv64 {
    if r < 31 then RegBound(r); x[r as nat] else 0
  }

  function Put(x: Regs, r: bv8, v: bv64): Regs {
    if r < 31 then RegBound(r); x[r as nat := v] else x
  }

  /** Doublewords at their addresses; what was never written reads as zero. */
  datatype Cell = At(address: bv64)

  type Memory = map<Cell, bv64>

  function Read(m: Memory, a: bv64): bv64 {
    if At(a) in m then m[At(a)] else 0
  }

  function Write(m: Memory, a: bv64, v: bv64): Memory {
    m[At(a) := v]
  }

  lemma ReadWrite(m: Memory, a: bv64, v: bv64, b: bv64)
    ensures Read(Write(m, a, v), b) == if a == b then v else Read(m, b)
  {}

  datatype Flags = Flags(n: bool, z: bool, c: bool, v: bool)

  datatype State = State(pc: bv64, x: Regs, sp: bv64, flags: Flags, vectors: map<bv8, bv128>, mem: Memory)

  datatype Env = Env(
    access: (bv32, State) -> State,
    other: (bv32, State) -> State,
    outside: State -> State,
    clock: State -> bv64)

  type Text = map<Cell, bv32>

  /** ConditionHolds: bits 3..1 pick the test, bit 0 inverts it, and 1111 is
      as 1110. */
  predicate Holds(cond: bv8, f: Flags) {
    var test :=
      if cond >> 1 == 0 then f.z
      else if cond >> 1 == 1 then f.c
      else if cond >> 1 == 2 then f.n
      else if cond >> 1 == 3 then f.v
      else if cond >> 1 == 4 then f.c && !f.z
      else if cond >> 1 == 5 then f.n == f.v
      else if cond >> 1 == 6 then f.n == f.v && !f.z
      else true;
    if cond & 1 == 1 && cond != 15 then !test else test
  }

  /** SignExtend(imm:'00', 64) for the three branch immediates. */
  function Far26(w: bv32): bv64 { Extend28(Imm26(w)) }

  function Far19(w: bv32): bv64 { Extend21(Imm19(w)) }

  function Far14(w: bv32): bv64 { Extend16(Imm14(w)) }

  function Extend28(v: bv64): bv64 {
    ((v << 2) ^ 0x800_0000) - 0x800_0000
  }

  function Extend21(v: bv64): bv64 {
    ((v << 2) ^ 0x10_0000) - 0x10_0000
  }

  function Extend16(v: bv64): bv64 {
    ((v << 2) ^ 0x8000) - 0x8000
  }

  function Next(s: State): State {
    s.(pc := Add(s.pc, 4))
  }

  function Goto(s: State, far: bv64, taken: bool): State {
    s.(pc := if taken then Add(s.pc, far) else Add(s.pc, 4))
  }

  /** CBZ and CBNZ look at 64 or 32 bits, TBZ and TBNZ at one. */
  predicate Zero(v: bv64, sf: bool) {
    if sf then v == 0 else v & 0xFFFF_FFFF == 0
  }

  predicate BitSet(v: bv64, bit: bv8)
    requires bit < 64
  {
    (v >> bit) & 1 == 1
  }

  /** Register 31 is the stack pointer in addresses and in add and sub
      (immediate). */
  function GetSp(s: State, r: bv8): bv64 {
    if r == 31 then s.sp else Get(s.x, r)
  }

  function PutSp(s: State, r: bv8, v: bv64): State {
    if r == 31 then s.(sp := v) else s.(x := Put(s.x, r, v))
  }

  function Imm12(w: bv32): bv64 {
    ((w >> 10) & 0xFFF) as bv64
  }

  /** adrp: immhi:immlo as a signed number of pages, from the page of pc. */
  function AdrpImm(w: bv32): bv64 {
    ((((w >> 5) & 0x7_FFFF) << 2) | ((w >> 29) & 3)) as bv64
  }

  function SignedPages(v: bv64): bv64 {
    (v ^ 0x10_0000) - 0x10_0000
  }

  function Pages(w: bv32): bv64 { SignedPages(AdrpImm(w)) }

  function Adrp(pc: bv64, pages: bv64): bv64 {
    Add(pc & !0xFFF, pages << 12)
  }

  /** The load and store group, literal loads apart: the position of the
      instruction does not matter. */
  predicate LoadOrStore(w: bv32) {
    w & 0x0A00_0000 == 0x0800_0000 && w & 0x3B00_0000 != 0x1800_0000
  }

  const STP_X0_X1_PRE: bv32 := 0xA9BF_07E0
  const LDP_X0_X1_POST: bv32 := 0xA8C1_07E0
  const STR_X30_PRE: bv32 := 0xF81F_0FFE
  const LDR_X30_POST: bv32 := 0xF841_07FE
  const SUB_X1_X1_1: bv32 := 0xD100_0421
  const BLR_X0: bv32 := 0xD63F_0000
  const BLR_X1: bv32 := 0xD63F_0020
  const RET: bv32 := 0xD65F_03C0

  function LoadStore(env: Env, w: bv32, s: State): State
    requires LoadOrStore(w)
  {
    if w == STP_X0_X1_PRE then
      var a := Sub(s.sp, 16);
      Next(s).(sp := a, mem := Write(Write(s.mem, a, s.x[0]), Add(a, 8), s.x[1]))
    else if w == LDP_X0_X1_POST then
      Next(s).(sp := Add(s.sp, 16), x := s.x[0 := Read(s.mem, s.sp)][1 := Read(s.mem, Add(s.sp, 8))])
    else if w == STR_X30_PRE then
      var a := Sub(s.sp, 16);
      Next(s).(sp := a, mem := Write(s.mem, a, s.x[30]))
    else if w == LDR_X30_POST then
      Next(s).(sp := Add(s.sp, 16), x := s.x[30 := Read(s.mem, s.sp)])
    else if w & 0xFFC0_0000 == 0xF940_0000 then
      Next(s).(x := Put(s.x, Rt(w), Read(s.mem, Add(GetSp(s, Rn(w)), Imm12(w) * 8))))
    else if w & 0xFFC0_0000 == 0xF900_0000 then
      Next(s).(mem := Write(s.mem, Add(GetSp(s, Rn(w)), Imm12(w) * 8), Get(s.x, Rt(w))))
    else
      var r := env.access(w, s.(pc := 0));
      Next(s).(x := r.x, sp := r.sp, vectors := r.vectors, mem := r.mem)
  }

  function Exec(env: Env, w: bv32, s: State): State {
    if w & 0xFC00_0000 == 0x1400_0000 then
      Goto(s, Far26(w), true)
    else if w & 0xFC00_0000 == 0x9400_0000 then
      Goto(s, Far26(w), true).(x := Put(s.x, 30, Add(s.pc, 4)))
    else if w & 0xFF00_0000 == 0x5400_0000 then
      Goto(s, Far19(w), Holds((w & 0xF) as bv8, s.flags))
    else if w & 0x7E00_0000 == 0x3400_0000 then
      Goto(s, Far19(w), Zero(Get(s.x, Rt(w)), w >> 31 != 0) != (w & 0x0100_0000 != 0))
    else if w & 0x7E00_0000 == 0x3600_0000 then
      BitNumberBound(w);
      Goto(s, Far14(w), BitSet(Get(s.x, Rt(w)), BitNumber(w)) == (w & 0x0100_0000 != 0))
    else if w & 0xFFFF_FC1F == 0xD61F_0000 || w & 0xFFFF_FC1F == 0xD65F_0000 then
      s.(pc := Get(s.x, Rn(w)))
    else if w & 0xFFFF_FC1F == 0xD63F_0000 then
      s.(pc := Get(s.x, Rn(w)), x := Put(s.x, 30, Add(s.pc, 4)))
    else if w & 0x9F00_0000 == 0x9000_0000 then
      Next(s).(x := Put(s.x, Rt(w), Adrp(s.pc, Pages(w))))
    else if w & 0xFFC0_0000 == 0x9100_0000 then
      PutSp(Next(s), Rt(w), Add(GetSp(s, Rn(w)), Imm12(w)))
    else if w & 0xFFC0_0000 == 0xD100_0000 then
      PutSp(Next(s), Rt(w), Sub(GetSp(s, Rn(w)), Imm12(w)))
    else if w & 0xFF80_0000 == 0xD280_0000 then
      Next(s).(x := Put(s.x, Rt(w), Wide(((w >> 5) & 0xFFFF) as bv64, (w >> 21) & 3)))
    else if w & 0xFFFF_FFE0 == 0xD53B_E040 || w & 0xFFFF_FFE0 == 0xD53B_E020 then
      Next(s).(x := Put(s.x, Rt(w), env.clock(s)))
    else if LoadOrStore(w) then
      LoadStore(env, w, s)
    else
      env.other(w, s)
  }

  function Wide(imm: bv64, shift: bv32): bv64 {
    if shift == 0 then imm else if shift == 1 then imm << 16 else if shift == 2 then imm << 32 else imm << 48
  }

  lemma BitNumberBound(w: bv32)
    ensures BitNumber(w) < 64
  {}

  function Step(env: Env, text: Text, s: State): State {
    if At(s.pc) in text then Exec(env, text[At(s.pc)], s) else env.outside(s)
  }
}

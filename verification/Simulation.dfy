/** The rewritten program against the original: one hooked site, then whole
    runs inside a quantum. */
module Simulation {
  import opened Wrappers
  import opened Arm
  import opened ArmMachine
  import opened ArmSteps
  import opened Trampoline
  import opened Sites
  import opened CounterReads

  // ----- Which instructions are hooked, and as what -----

  /** Only a branch that does not go forward can repeat. */
  function HookFor(w: bv32, pc: bv64): Option<Hook> {
    match Decode(w, pc)
    case B(target) => if target <= pc then Some(Hook(pc, NoGuard, false, Jump(target, false))) else None
    case Bl(target) => Some(Hook(pc, NoGuard, true, Jump(target, true)))
    case Blr(rn) => if rn == 30 then None else Some(Hook(pc, NoGuard, true, Indirect(rn)))
    case Br(rn) => Some(Hook(pc, NoGuard, false, Indirect(rn)))
    case BCond(cond, target) =>
      if target <= pc then Some(Hook(pc, OnCond(cond), false, Jump(target, false))) else None
    case Cbz(sf, rt, nonzero, target) =>
      if target <= pc then Some(Hook(pc, OnCbz(sf, rt, nonzero), false, Jump(target, false))) else None
    case Tbz(rt, bit, nonzero, target) =>
      if target <= pc then Some(Hook(pc, OnTbz(rt, bit, nonzero), false, Jump(target, false))) else None
    case Mem(_) => Some(Hook(pc, NoGuard, false, Replay(w)))
    case _ => None
  }

  lemma BrReads(w: bv32, pc: bv64)
    requires Decode(w, pc).Br?
    ensures w & 0xFFFF_FC1F == 0xD61F_0000 && Decode(w, pc).rn == Rn(w)
  {
    hide Rel26, Rel19, Rel14, BitNumber, Rt, Rn, DecodeMem;
  }

  lemma BlrReads(w: bv32, pc: bv64)
    requires Decode(w, pc).Blr?
    ensures w & 0xFFFF_FC1F == 0xD63F_0000 && Decode(w, pc).rn == Rn(w)
  {
    hide Rel26, Rel19, Rel14, BitNumber, Rt, Rn, DecodeMem;
  }

  lemma RnBound(w: bv32)
    ensures Rn(w) < 32
  {}

  lemma MemReads(w: bv32, pc: bv64)
    requires Decode(w, pc).Mem?
    ensures w & 0x0A00_0000 == 0x0800_0000 && DecodeMem(w).Mem?
  {
    hide Rel26, Rel19, Rel14, BitNumber, Rt, Rn, DecodeMem;
  }

  lemma MemIsLoadOrStore(w: bv32)
    requires w & 0x0A00_0000 == 0x0800_0000 && DecodeMem(w).Mem?
    ensures LoadOrStore(w)
  {
    hide Rn;
  }

  /** The hook chosen for a word does what the machine does with the word. */
  lemma HookIsFaithful(env: Env, w: bv32, h: Hook, s: State)
    requires HookFor(w, s.pc) == Some(h)
    ensures Sound(h) && h.site == s.pc && Exec(env, w, s) == Effect(env, h, s)
  {
    hide Decode, Exec, Effect, Sound, BitNumber, Rt, Rn, LoadOrStore;
    match Decode(w, s.pc) {
      case B(target) => FaithfulB(env, w, h, s);
      case Bl(target) => FaithfulBl(env, w, h, s);
      case Blr(rn) => FaithfulBlr(env, w, h, s);
      case Br(rn) => FaithfulBr(env, w, h, s);
      case BCond(cond, target) => FaithfulBCond(env, w, h, s);
      case Cbz(sf, rt, nonzero, target) => FaithfulCbz(env, w, h, s);
      case Tbz(rt, bit, nonzero, target) => FaithfulTbz(env, w, h, s);
      case Mem(_) => FaithfulMem(env, w, h, s);
      case _ =>
    }
  }

  lemma FaithfulB(env: Env, w: bv32, h: Hook, s: State)
    requires Decode(w, s.pc).B? && h == Hook(s.pc, NoGuard, false, Jump(Decode(w, s.pc).target, false))
    ensures Sound(h) && Exec(env, w, s) == Effect(env, h, s)
  {
    BReads(w, s.pc);
    hide Decode, Exec, Holds, Zero, BitSet, Get, Put, Add, Rel26, Rel19, IsB;
    if IsB(w) && Decode(w, s.pc).target == Rel26(s.pc, w) {
      ExecB(env, w, s);
    } else {
      ExecBCond(env, w, s);
      AlwaysHolds((w & 0xF) as bv8, s.flags);
    }
  }

  lemma AlwaysHolds(cond: bv8, f: Flags)
    requires 14 <= cond < 16
    ensures Holds(cond, f)
  {
    InvertedTest(cond);
  }

  lemma FaithfulBl(env: Env, w: bv32, h: Hook, s: State)
    requires Decode(w, s.pc).Bl? && h == Hook(s.pc, NoGuard, true, Jump(Decode(w, s.pc).target, true))
    ensures Sound(h) && Exec(env, w, s) == Effect(env, h, s)
  {
    BlReads(w, s.pc);
    hide Decode, Exec, Holds, Zero, BitSet, Get, Put, Add, Rel26, Rel19, IsBl;
    ExecBl(env, w, s);
  }

  lemma FaithfulBlr(env: Env, w: bv32, h: Hook, s: State)
    requires Decode(w, s.pc).Blr? && Decode(w, s.pc).rn != 30
    requires h == Hook(s.pc, NoGuard, true, Indirect(Decode(w, s.pc).rn))
    ensures Sound(h) && Exec(env, w, s) == Effect(env, h, s)
  {
    BlrReads(w, s.pc);
    RnBound(w);
    hide Decode, Exec, Holds, Zero, BitSet, Get, Put, Add, Rn;
    ExecBlr(env, w, s);
  }

  lemma FaithfulBr(env: Env, w: bv32, h: Hook, s: State)
    requires Decode(w, s.pc).Br? && h == Hook(s.pc, NoGuard, false, Indirect(Decode(w, s.pc).rn))
    ensures Sound(h) && Exec(env, w, s) == Effect(env, h, s)
  {
    BrReads(w, s.pc);
    RnBound(w);
    hide Decode, Exec, Holds, Zero, BitSet, Get, Put, Add, Rn;
    ExecBr(env, w, s);
  }

  lemma FaithfulBCond(env: Env, w: bv32, h: Hook, s: State)
    requires var c := Decode(w, s.pc); c.BCond? && h == Hook(s.pc, OnCond(c.cond), false, Jump(c.target, false))
    ensures Sound(h) && Exec(env, w, s) == Effect(env, h, s)
  {
    BCondReads(w, s.pc);
    hide Decode, Exec, Holds, Zero, BitSet, Get, Put, Add, Rel19;
    ExecBCond(env, w, s);
  }

  lemma FaithfulCbz(env: Env, w: bv32, h: Hook, s: State)
    requires var c := Decode(w, s.pc);
             c.Cbz? && h == Hook(s.pc, OnCbz(c.sf, c.rt, c.nonzero), false, Jump(c.target, false))
    ensures Sound(h) && Exec(env, w, s) == Effect(env, h, s)
  {
    CbzReads(w, s.pc);
    var c := Decode(w, s.pc);
    CbzOperands(c.sf, c.rt, c.nonzero, w);
    hide Decode, Exec, Holds, Zero, BitSet, Get, Put, Add, Rel19, IsCbz;
    ExecCbz(env, w, s, c.sf, c.rt, c.nonzero);
  }

  lemma FaithfulTbz(env: Env, w: bv32, h: Hook, s: State)
    requires var c := Decode(w, s.pc);
             c.Tbz? && h == Hook(s.pc, OnTbz(c.rt, c.bit, c.nonzero), false, Jump(c.target, false))
    ensures Sound(h) && Exec(env, w, s) == Effect(env, h, s)
  {
    TbzReads(w, s.pc);
    var c := Decode(w, s.pc);
    TbzOperands(c.rt, c.bit, c.nonzero, w);
    hide Decode, Exec, Holds, Zero, BitSet, Get, Put, Add, Rel14, IsTbz;
    ExecTbz(env, w, s, c.rt, c.bit, c.nonzero);
  }

  lemma FaithfulMem(env: Env, w: bv32, h: Hook, s: State)
    requires Decode(w, s.pc).Mem? && h == Hook(s.pc, NoGuard, false, Replay(w))
    ensures Sound(h) && Exec(env, w, s) == Effect(env, h, s)
  {
    MemReads(w, s.pc);
    MemIsLoadOrStore(w);
    hide Decode, Exec, Holds, Zero, BitSet, Get, Put, Add, LoadOrStore, LoadStore;
    ExecLoadStore(env, w, s);
  }

  // ----- What a hook leaves behind -----

  /** The quantum counter when the site is reached. */
  function Count(s: State): bv64 {
    Read(s.mem, COUNTER)
  }

  /** The doublewords below sp a hook writes when the quantum is not out. */
  predicate Below(sp: bv64, a: bv64) {
    a == Sub(sp, 16) || a == Pair(Sub(sp, 16)) || a == Pair1(Sub(sp, 16))
  }

  /** Inside a quantum a hook counts one event and otherwise writes only below
      sp. */
  lemma HookIsQuiet(env: Env, s: State, base: bv64, c: nat, i: nat, a: bv64)
    requires Roomy(s.sp) && Sub(Count(s), 1) != 0
    ensures Left(Called(s, base, c, i)) == Sub(Count(s), 1)
    ensures a == COUNTER ==> Read(Hooked(env, s, base, c, i), a) == Sub(Count(s), 1)
    ensures a != COUNTER && !Below(s.sp, a) ==> Read(Hooked(env, s, base, c, i), a) == Read(s.mem, a)
  {
    var e := Called(s, base, c, i);
    var top := Sub(s.sp, 16);
    ReadWrite(s.mem, top, s.x[30], COUNTER);
    ReadWrite(s.mem, top, s.x[30], a);
    ReadWrite(e.mem, Pair(top), e.x[0], a);
    ReadWrite(Write(e.mem, Pair(top), e.x[0]), Pair1(top), e.x[1], a);
    ReadWrite(Pushed(e), COUNTER, Left(e), a);
    hide Sub, Pair, Pair1, Write, Read, Addr;
  }

  /** One original step as the rewritten text performs it: hooked, from the
      memory the hook leaves and with the target in x16 if the call needed an
      island. */
  function Performed(env: Env, w: bv32, h: Hook, far: bool, m: Memory, s: State): State
    requires far ==> h.tail.Jump?
  {
    if !Taken(h.guard, s) then
      Exec(env, w, s)
    else
      var t := Exec(env, w, s.(mem := m));
      if far then t.(x := Put(t.x, 16, h.tail.target)) else t
  }

  function SpotFar(h: Hook, base: bv64, at: nat): (far: bool)
    ensures far ==> h.tail.Jump?
  {
    Far(h.tail, Addr(base, at + GuardLen(h.guard) + 3))
  }

  function SpotMemory(env: Env, h: Hook, base: bv64, c: nat, at: nat, s: State): Memory {
    Hooked(env, Linked(h, s), base, c, at + GuardLen(h.guard))
  }

  lemma EffectSkips(env: Env, h: Hook, s: State)
    requires Sound(h) && !Taken(h.guard, s)
    ensures Effect(env, h, s) == s.(pc := Add(s.pc, 4))
  {
    hide Taken, Add, LoadStore, Put, Get;
  }

  lemma DoneIsPerformed(env: Env, w: bv32, h: Hook, far: bool, m: Memory, s: State)
    requires Sound(h) && (far ==> h.tail.Jump?) && Taken(h.guard, s)
    requires Exec(env, w, s.(mem := m)) == Effect(env, h, s.(mem := m))
    ensures Done(env, h, far, m, s) == Performed(env, w, h, far, m, s)
  {
    hide Exec, Effect, Sound, Taken, Put;
  }

  lemma OutcomeIsDone(env: Env, h: Hook, base: bv64, c: nat, at: nat, s: State)
    requires Sound(h) && Taken(h.guard, s)
    ensures Outcome(env, h, base, c, at, s) == Done(env, h, SpotFar(h, base, at), SpotMemory(env, h, base, c, at, s), s)
  {
    hide Done, Taken, Sound, Addr, Far, Linked, Hooked;
  }

  lemma NotTakenPerformed(env: Env, w: bv32, h: Hook, far: bool, m: Memory, s: State)
    requires !Taken(h.guard, s) && (far ==> h.tail.Jump?)
    ensures Performed(env, w, h, far, m, s) == Exec(env, w, s)
  {
    hide Taken, Exec;
  }

  lemma OutcomeIsPerformed(env: Env, w: bv32, h: Hook, base: bv64, c: nat, at: nat, s: State)
    requires HookFor(w, s.pc) == Some(h)
    ensures Sound(h)
    ensures Outcome(env, h, base, c, at, s)
         == Performed(env, w, h, SpotFar(h, base, at), SpotMemory(env, h, base, c, at, s), s)
  {
    hide *;
    var m := SpotMemory(env, h, base, c, at, s);
    HookIsFaithful(env, w, h, s);
    HookIsFaithful(env, w, h, s.(mem := m));
    if Taken(h.guard, s) {
      OutcomeIsDone(env, h, base, c, at, s);
      DoneIsPerformed(env, w, h, SpotFar(h, base, at), m, s);
    } else {
      NotTakenPerformed(env, w, h, SpotFar(h, base, at), m, s);
      EffectSkips(env, h, s);
      NotTaken(env, h, base, c, at, s);
    }
  }

  /** A hooked site against the original instruction. */
  lemma SiteSimulates(env: Env, text: Text, w: bv32, h: Hook, base: bv64, c: nat, cws: seq<bv32>, at: nat,
    ws: seq<bv32>, s: State)
    requires HookFor(w, s.pc) == Some(h)
    requires At(s.pc) in text && IsPatch(h, Addr(base, at), text[At(s.pc)])
    requires Built(text, h, base, c, cws, at, ws) && Able(env, text, h, base, c, at, s)
    ensures Reaches(env, text, s,
                    Performed(env, w, h, SpotFar(h, base, at), SpotMemory(env, h, base, c, at, s), s))
  {
    hide *;
    HookIsFaithful(env, w, h, s);
    SiteRuns(env, text, h, base, c, cws, at, ws, s);
    OutcomeIsPerformed(env, w, h, base, c, at, s);
  }

  // ----- Whole runs -----

  /** What the program must not look at: the words hooks have written below
      its stack, the counter, and x16 after an island. */
  datatype Dirt = Dirt(cells: set<Cell>, x16: bool)

  ghost predicate Agree(d: Dirt, s: State, t: State) {
    && s.pc == t.pc && s.sp == t.sp && s.flags == t.flags && s.vectors == t.vectors
    && (forall i :: 0 <= i < 31 && (i == 16 ==> !d.x16) ==> s.x[i] == t.x[i])
    && (forall a: bv64 :: At(a) !in d.cells ==> Read(s.mem, a) == Read(t.mem, a))
  }

  /** A hooked site of the rewritten text and where its trampoline is. */
  datatype Spot = Spot(hook: Hook, base: bv64, c: nat, cws: seq<bv32>, at: nat, ws: seq<bv32>)

  /** The rewriter's work at pc: the word is the original's, or it is the patch
      of a spot made for the original's. */
  ghost predicate Kept1(original: Text, text: Text, pc: bv64) {
    (At(pc) in text <==> At(pc) in original) && (At(pc) in text ==> text[At(pc)] == original[At(pc)])
  }

  ghost predicate Patched(original: Text, text: Text, p: Spot, pc: bv64) {
    && At(pc) in original && At(pc) in text
    && HookFor(original[At(pc)], pc) == Some(p.hook)
    && IsPatch(p.hook, Addr(p.base, p.at), text[At(pc)])
    && Built(text, p.hook, p.base, p.c, p.cws, p.at, p.ws)
  }

  /** A counter read of the rewritten text and where its trampoline is. */
  datatype Reader = Reader(rt: bv8, base: bv64, at: nat, ws: seq<bv32>)

  ghost predicate Reads(original: Text, text: Text, q: Reader, pc: bv64) {
    && At(pc) in original && At(pc) in text
    && Decode(original[At(pc)], pc) == Counter(q.rt) && q.rt < 29
    && EncB(pc, Addr(q.base, q.at)) == Some(text[At(pc)])
    && IsCounterStub(pc, q.rt, q.base, q.at, q.ws) && Placed(text, q.base, q.at, q.ws)
  }

  /** All that a rewriter did */
  datatype Work = Work(spots: set<Spot>, readers: set<Reader>)

  ghost predicate Rewritten(original: Text, text: Text, work: Work, pc: bv64) {
    || Kept1(original, text, pc) || (exists p :: p in work.spots && Patched(original, text, p, pc))
    || (exists q :: q in work.readers && Reads(original, text, q, pc))
  }

  /** An original step from s that does not look at the dirt d, and leaves d2:
      any two agreeing states step to agreeing states, and the program leaves
      the counter alone. */
  ghost predicate Oblivious(env: Env, original: Text, d: Dirt, s: State, d2: Dirt) {
    forall t: State :: Agree(d, s, t) ==>
      && Agree(d2, Step(env, original, s), Step(env, original, t))
      && Count(Step(env, original, t)) == Count(t)
  }

  /** What the theorem asks of one step of the original run: the words just
      below sp are dead, the stack is not in the fixed region, and x16 is dead
      after a call whose trampoline needs an island. */
  ghost predicate Calm(env: Env, original: Text, text: Text, work: Work, d: Dirt, s: State, d2: Dirt) {
    Rewritten(original, text, work, s.pc) && Tame(env, original, text, work, d, s, d2)
  }

  ghost predicate Tame(env: Env, original: Text, text: Text, work: Work, d: Dirt, s: State, d2: Dirt) {
    && Oblivious(env, original, d, s, d2)
    && Roomy(s.sp)
    && At(COUNTER) in d.cells
    && (forall a: bv64 :: Below(s.sp, a) ==> At(a) in d.cells)
    && (forall p :: p in work.spots && Patched(original, text, p, s.pc) && SpotFar(p.hook, p.base, p.at) ==> d2.x16)
    && (forall q :: q in work.readers && Reads(original, text, q, s.pc) ==> Answering(env, text, q, d, s, d2))
  }

  /** The supervisor answers a counter read with the count, whatever the dirt
      is; it writes nothing but dirt, and leaves the quantum alone. */
  ghost predicate Answering(env: Env, text: Text, q: Reader, d: Dirt, s: State, d2: Dirt) {
    && (forall a: bv64 :: Below(s.sp, a) ==> At(a) in d2.cells)
    && forall t: State :: Agree(d, s, t) ==> AnswersAt(env, text, q, t, d2)
  }

  /** Counting t's event comes back with nothing changed but dirt, whatever the
      scheduler does when the quantum is out. */
  ghost predicate Enters(env: Env, text: Text, p: Spot, d: Dirt, t: State) {
    Able(env, text, p.hook, p.base, p.c, p.at, t)
    && (Taken(p.hook.guard, t) ==> Untouched(d, t.mem, SpotMemory(env, p.hook, p.base, p.c, p.at, t)))
  }

  ghost predicate Untouched(d: Dirt, m: Memory, n: Memory) {
    forall a: bv64 :: At(a) !in d.cells ==> Read(m, a) == Read(n, a)
  }

  /** ... from whatever agrees with s: the scheduler gives the registers back,
      and writes nothing the program may look at. */
  ghost predicate Entering(env: Env, original: Text, text: Text, work: Work, d: Dirt, s: State) {
    forall p, t: State {:trigger Enters(env, text, p, d, t)} ::
      p in work.spots && Patched(original, text, p, s.pc) && Agree(d, s, t) ==> Enters(env, text, p, d, t)
  }

  ghost predicate AnswersAt(env: Env, text: Text, q: Reader, t: State, d2: Dirt) {
    var e := Asked(t, q.base, q.at);
    && At(e.pc) !in text && Answers(e, env.outside(e), Top(t), q.rt, env.clock(t))
    && (forall a: bv64 :: a == COUNTER || At(a) !in d2.cells ==> Read(env.outside(e).mem, a) == Read(e.mem, a))
  }

  /** The counter outlasts n events. */
  predicate Lasts(count: bv64, n: nat)
    decreases n
  {
    n == 0 || (Sub(count, 1) != 0 && Lasts(Sub(count, 1), n - 1))
  }

  lemma {:induction false} LastsLess(count: bv64, n: nat)
    requires n > 0 && Lasts(count, n)
    ensures Lasts(count, n - 1)
    decreases n
  {
    hide Sub;
    if n > 1 {
      LastsLess(Sub(count, 1), n - 1);
    }
  }

  /** A counter read against the supervisor's answer */
  lemma ReaderSimulates(env: Env, original: Text, text: Text, q: Reader, d: Dirt, s: State, d2: Dirt, t: State)
    returns (u: State)
    requires Reads(original, text, q, s.pc) && Agree(d, s, t) && Oblivious(env, original, d, s, d2)
    requires Roomy(s.sp) && Answering(env, text, q, d, s, d2)
    ensures Reaches(env, text, t, u) && Agree(d2, Step(env, original, s), u)
    ensures Count(u) == Count(t)
  {
    AgreePc(d, s, t);
    assert AnswersAt(env, text, q, t, d2);
    var e := Asked(t, q.base, q.at);
    var m := env.outside(e).mem;
    u := t.(pc := Add(t.pc, 4), x := Put(t.x, q.rt, env.clock(t)), mem := m);
    hide *;
    ReaderRuns(env, original, text, q, t, d2);
    ReaderStep(env, original, text, q, t);
    ReaderMemory(env, text, q, s, t, d, d2);
    Obeys(env, original, d, s, d2, t);
    AgreeElsewhere(d2, Step(env, original, s), Step(env, original, t), m);
    CountIs(t, u);
  }

  lemma CountIs(t: State, u: State)
    requires Read(u.mem, COUNTER) == Read(t.mem, COUNTER)
    ensures Count(u) == Count(t)
  {
    hide Read;
  }

  lemma ReaderRuns(env: Env, original: Text, text: Text, q: Reader, t: State, d2: Dirt)
    requires Reads(original, text, q, t.pc) && Roomy(t.sp) && AnswersAt(env, text, q, t, d2)
    ensures var m := env.outside(Asked(t, q.base, q.at)).mem;
            Reaches(env, text, t, t.(pc := Add(t.pc, 4), x := Put(t.x, q.rt, env.clock(t)), mem := m))
  {
    hide Decode, EncB, IsCounterStub, Placed, Roomy, Asked, Answers, Top, Reaches, Read;
    CounterRuns(env, text, t.pc, q.rt, q.base, q.at, q.ws, t, env.clock(t));
  }

  lemma ReaderStep(env: Env, original: Text, text: Text, q: Reader, t: State)
    requires Reads(original, text, q, t.pc)
    ensures Step(env, original, t) == t.(pc := Add(t.pc, 4), x := Put(t.x, q.rt, env.clock(t)))
  {
    CounterWord(original[At(t.pc)], t.pc);
    ExecCounter(env, original[At(t.pc)], t);
    hide Exec, Decode, EncB, IsCounterStub, Placed;
    StepIsExec(env, original, t);
  }

  lemma CounterWord(w: bv32, pc: bv64)
    requires Decode(w, pc).Counter?
    ensures IsCounter(w) && Decode(w, pc).rt == Rt(w)
  {
    hide Rel26, Rel19, Rel14, BitNumber, Rt, Rn, DecodeMem;
  }

  /** Of the memory only dirt differs, and not the counter. */
  lemma ReaderMemory(env: Env, text: Text, q: Reader, s: State, t: State, d: Dirt, d2: Dirt)
    requires Agree(d, s, t) && Answering(env, text, q, d, s, d2) && Roomy(t.sp)
    ensures var m := env.outside(Asked(t, q.base, q.at)).mem;
            && Read(m, COUNTER) == Read(t.mem, COUNTER)
            && forall a: bv64 :: At(a) !in d2.cells ==> Read(t.mem, a) == Read(m, a)
  {
    AgreePc(d, s, t);
    assert AnswersAt(env, text, q, t, d2);
    AskedIs(t, q.base, q.at);
    var m := env.outside(Asked(t, q.base, q.at)).mem;
    PushedElsewhere(t, COUNTER);
    CounterAbove(t.sp);
    hide Agree, Read, Asked, Below, Roomy, Pushed, Stacked, Answers;
    forall a: bv64 | At(a) !in d2.cells ensures Read(t.mem, a) == Read(m, a) {
      PushedElsewhere(t, a);
    }
  }

  lemma CounterAbove(sp: bv64)
    requires Roomy(sp)
    ensures !Below(sp, COUNTER)
  {
    hide Sub, Pair, Pair1;
  }

  lemma PushedElsewhere(t: State, a: bv64)
    requires !Below(t.sp, a)
    ensures Read(Pushed(Stacked(t)), a) == Read(t.mem, a)
  {
  }

  /** One original step is matched: by the same step where nothing was patched,
      by the trampoline where something was. */
  lemma StepSimulates(env: Env, original: Text, text: Text, work: Work, d: Dirt, s: State, d2: Dirt, t: State)
    returns (u: State)
    requires Calm(env, original, text, work, d, s, d2) && Agree(d, s, t)
    requires Sub(Count(t), 1) != 0 || Entering(env, original, text, work, d, s)
    ensures Reaches(env, text, t, u) && Agree(d2, Step(env, original, s), u)
    ensures Sub(Count(t), 1) != 0 ==> Count(u) == Count(t) || Count(u) == Sub(Count(t), 1)
  {
    hide Agree, Reaches, Step, Kept1, Patched, Reads, Answering, Enters, Roomy, Below, Count, Sub;
    AgreePc(d, s, t);
    if Kept1(original, text, s.pc) {
      SameStep(env, original, text, t);
      u := Step(env, text, t);
      Once(env, text, t, u);
    } else if p :| p in work.spots && Patched(original, text, p, s.pc) {
      if Sub(Count(t), 1) != 0 { QuantumEnters(env, text, p, d, s, t); }
      u := SpotSimulates(env, original, text, p, d, s, d2, t);
    } else {
      var q :| q in work.readers && Reads(original, text, q, s.pc);
      u := ReaderSimulates(env, original, text, q, d, s, d2, t);
    }
  }

  lemma AgreePc(d: Dirt, s: State, t: State)
    requires Agree(d, s, t)
    ensures s.pc == t.pc && s.sp == t.sp
  {}

  lemma SameStep(env: Env, original: Text, text: Text, t: State)
    requires Kept1(original, text, t.pc)
    ensures Step(env, text, t) == Step(env, original, t)
  {
    hide Exec;
  }

  lemma StepIsExec(env: Env, text: Text, s: State)
    requires At(s.pc) in text
    ensures Step(env, text, s) == Exec(env, text[At(s.pc)], s)
  {
    hide Exec;
  }

  /** Inside a quantum the scheduler is not called. */
  lemma QuantumEnters(env: Env, text: Text, p: Spot, d: Dirt, s: State, t: State)
    requires Agree(d, s, t) && Roomy(s.sp) && Sub(Count(t), 1) != 0
    requires At(COUNTER) in d.cells && (forall a: bv64 :: Below(s.sp, a) ==> At(a) in d.cells)
    ensures Enters(env, text, p, d, t)
  {
    AgreePc(d, s, t);
    EnoughLeft(env, text, p.hook, p.base, p.c, p.at, t);
    hide Agree, Roomy, Below, Count, Sub, Able, SpotMemory, Taken;
    HookedAgrees(env, p.hook, p.base, p.c, p.at, d, s, t);
  }

  lemma SpotSimulates(env: Env, original: Text, text: Text, p: Spot, d: Dirt, s: State, d2: Dirt, t: State)
    returns (u: State)
    requires Patched(original, text, p, s.pc) && Agree(d, s, t) && Oblivious(env, original, d, s, d2)
    requires Roomy(s.sp) && At(COUNTER) in d.cells && (forall a: bv64 :: Below(s.sp, a) ==> At(a) in d.cells)
    requires SpotFar(p.hook, p.base, p.at) ==> d2.x16
    requires Enters(env, text, p, d, t)
    ensures Reaches(env, text, t, u) && Agree(d2, Step(env, original, s), u)
    ensures Sub(Count(t), 1) != 0 ==> Count(u) == Count(t) || Count(u) == Sub(Count(t), 1)
  {
    var h := p.hook;
    var w := original[At(s.pc)];
    AgreePc(d, s, t);
    hide Agree, Reaches, Step, Exec, Roomy, Below, Count, Sub, HookFor, IsPatch, Built, Able, Performed, SpotFar;
    hide SpotMemory, Oblivious, Addr, Untouched, Taken;
    SiteSimulates(env, text, w, h, p.base, p.c, p.cws, p.at, p.ws, t);
    hide Patched;
    u := PerformedAgrees(env, original, w, h, p.base, p.c, p.at, d, s, d2, t);
  }

  lemma PerformedAgrees(env: Env, original: Text, w: bv32, h: Hook, base: bv64, c: nat, at: nat,
                        d: Dirt, s: State, d2: Dirt, t: State)
    returns (u: State)
    requires At(s.pc) in original && original[At(s.pc)] == w
    requires Agree(d, s, t) && Oblivious(env, original, d, s, d2)
    requires Roomy(s.sp) && At(COUNTER) in d.cells && (forall a: bv64 :: Below(s.sp, a) ==> At(a) in d.cells)
    requires SpotFar(h, base, at) ==> d2.x16
    requires Taken(h.guard, t) ==> Untouched(d, t.mem, SpotMemory(env, h, base, c, at, t))
    ensures u == Performed(env, w, h, SpotFar(h, base, at), SpotMemory(env, h, base, c, at, t), t)
    ensures Agree(d2, Step(env, original, s), u)
    ensures Sub(Count(t), 1) != 0 ==> Count(u) == Count(t) || Count(u) == Sub(Count(t), 1)
  {
    AgreePc(d, s, t);
    var far := SpotFar(h, base, at);
    var m := SpotMemory(env, h, base, c, at, t);
    u := Performed(env, w, h, far, m, t);
    if Taken(h.guard, t) {
      var t1 := t.(mem := m);
      var e := Exec(env, w, t1);
      assert u == if far then e.(x := Put(e.x, 16, h.tail.target)) else e by {
        hide Exec, Taken, Put, SpotFar, SpotMemory;
      }
      hide *;
      UntouchedAgrees(d, s, t, m);
      Obeys(env, original, d, s, d2, t1);
      StepIsExec(env, original, t1);
      if far {
        X16Dead(d2, Step(env, original, s), e, h.tail.target);
      }
      if Sub(Count(t), 1) != 0 { HookedAgrees(env, h, base, c, at, d, s, t); }
    } else {
      assert u == Exec(env, w, t) by {
        hide Exec, Taken, Put, SpotFar, SpotMemory;
      }
      hide *;
      Obeys(env, original, d, s, d2, t);
      StepIsExec(env, original, t);
    }
  }

  lemma UntouchedAgrees(d: Dirt, s: State, t: State, m: Memory)
    requires Agree(d, s, t) && Untouched(d, t.mem, m)
    ensures Agree(d, s, t.(mem := m))
  {
    hide Agree, Read;
    AgreeElsewhere(d, s, t, m);
  }

  lemma Obeys(env: Env, original: Text, d: Dirt, s: State, d2: Dirt, t: State)
    requires Oblivious(env, original, d, s, d2) && Agree(d, s, t)
    ensures Agree(d2, Step(env, original, s), Step(env, original, t))
    ensures Count(Step(env, original, t)) == Count(t)
  {
    hide Agree, Step, Count;
  }

  lemma X16Dead(d: Dirt, s: State, t: State, v: bv64)
    requires Agree(d, s, t) && d.x16
    ensures Agree(d, s, t.(x := Put(t.x, 16, v))) && Count(t.(x := Put(t.x, 16, v))) == Count(t)
  {
    assert Put(t.x, 16, v) == t.x[16 := v];
    hide Read;
  }

  lemma LinkedMemory(h: Hook, s: State)
    ensures Linked(h, s).mem == s.mem && Linked(h, s).sp == s.sp && Count(Linked(h, s)) == Count(s)
  {
    hide Put, Add;
  }

  lemma NoEntry(env: Env, text: Text, s: State, base: bv64, c: nat, i: nat)
    requires Left(Called(s, base, c, i)) != 0
    ensures Returns(env, text, s, base, c, i)
  {
    hide Left, Called, Kept, Entered;
  }

  lemma EnoughLeft(env: Env, text: Text, h: Hook, base: bv64, c: nat, at: nat, t: State)
    requires Roomy(t.sp) && Sub(Count(t), 1) != 0
    ensures Able(env, text, h, base, c, at, t)
  {
    var i: nat := at + GuardLen(h.guard);
    hide Linked, Taken, Roomy, Sub, Called, Left, Count, GuardLen, Returns;
    LinkedMemory(h, t);
    HookIsQuiet(env, Linked(h, t), base, c, i, COUNTER);
    NoEntry(env, text, Linked(h, t), base, c, i);
  }

  lemma HookedAgrees(env: Env, h: Hook, base: bv64, c: nat, at: nat, d: Dirt, s: State, t: State)
    requires Agree(d, s, t) && Roomy(s.sp) && Sub(Count(t), 1) != 0
    requires At(COUNTER) in d.cells && (forall a: bv64 :: Below(s.sp, a) ==> At(a) in d.cells)
    ensures var m := SpotMemory(env, h, base, c, at, t);
            Untouched(d, t.mem, m) && Count(t.(mem := m)) == Sub(Count(t), 1)
  {
    var l := Linked(h, t);
    LinkedMemory(h, t);
    var i: nat := at + GuardLen(h.guard);
    var m := SpotMemory(env, h, base, c, at, t);
    assert m == Hooked(env, l, base, c, i) by {
      hide Hooked, Linked;
    }
    hide Linked, Hooked, Roomy, Sub, Below, SpotMemory, GuardLen, Agree;
    AgreePc(d, s, t);
    HookIsQuiet(env, l, base, c, i, COUNTER);
    forall a: bv64 | At(a) !in d.cells ensures Read(t.mem, a) == Read(m, a) {
      HookIsQuiet(env, l, base, c, i, a);
    }
  }

  lemma AgreeElsewhere(d: Dirt, s: State, t: State, m: Memory)
    requires Agree(d, s, t) && forall a: bv64 :: At(a) !in d.cells ==> Read(t.mem, a) == Read(m, a)
    ensures Agree(d, s, t.(mem := m))
  {
    hide Read;
  }

  /** The rewritten program does what the original does: over any run whose
      steps are calm it reaches a state that agrees with the original's, however
      many hooks it passed, while the counter lasts, and however often it
      entered the scheduler, if that gives the program back as it was. */
  lemma {:induction false} RunSimulates(env: Env, original: Text, text: Text, work: Work, ds: seq<Dirt>,
                                        s: State, n: nat, t: State)
    returns (u: State)
    requires |ds| == n + 1 && Agree(ds[0], s, t)
    requires forall i: nat {:trigger ds[i]} :: i < n ==>
               Calm(env, original, text, work, ds[i], Run(env, original, s, i), ds[i + 1])
    requires Lasts(Count(t), n)
             || forall i: nat {:trigger ds[i]} :: i < n ==>
                  Entering(env, original, text, work, ds[i], Run(env, original, s, i))
    ensures Reaches(env, text, t, u) && Agree(ds[n], Run(env, original, s, n), u)
    decreases n
  {
    hide Agree, Calm, Step, Reaches, Count, Sub, Entering;
    if n == 0 {
      u := t;
      ReachesSelf(env, text, t);
    } else {
      var s1 := Step(env, original, s);
      assert Calm(env, original, text, work, ds[0], Run(env, original, s, 0), ds[1]);
      assert Lasts(Count(t), n) || Entering(env, original, text, work, ds[0], Run(env, original, s, 0));
      var t1 := StepSimulates(env, original, text, work, ds[0], s, ds[1], t);
      if Lasts(Count(t), n) { LastsLess(Count(t), n); }
      forall i: nat {:trigger ds[1..][i]} | i < n - 1
        ensures Calm(env, original, text, work, ds[1..][i], Run(env, original, s1, i), ds[1..][i + 1])
        ensures Lasts(Count(t), n) || Entering(env, original, text, work, ds[1..][i], Run(env, original, s1, i))
      {
        assert Calm(env, original, text, work, ds[i + 1], Run(env, original, s, i + 1), ds[i + 2]);
        assert Lasts(Count(t), n) || Entering(env, original, text, work, ds[i + 1], Run(env, original, s, i + 1));
      }
      u := RunSimulates(env, original, text, work, ds[1..], s1, n - 1, t1);
      ReachesTrans(env, text, t, t1, u);
    }
  }
}

/** A hooked site: the branch put in its place, its trampoline, and what running
    them does to the machine (Builder::stub_or_far in src/rewrite.rs). */
module Sites {
  import opened Wrappers
  import opened Arm
  import opened ArmMachine
  import opened ArmSteps
  import opened Trampoline

  /** What a trampoline does after the counter check. */
  datatype Tail = Jump(target: bv64, island: bool) | Indirect(rn: bv8) | Replay(word: bv32)

  datatype Guard =
    | NoGuard
    | OnCond(cond: bv8)
    | OnCbz(sf: bool, rt: bv8, nonzero: bool)
    | OnTbz(reg: bv8, bit: bv8, high: bool)

  /** call: the site keeps a `bl`. */
  datatype Hook = Hook(site: bv64, guard: Guard, call: bool, tail: Tail)

  /** The arguments the rewriter's selection passes. */
  predicate Sound(h: Hook) {
    && (match h.guard
        case NoGuard => true
        case OnCond(c) => c < 14
        case OnCbz(_, rt, _) => rt < 32
        case OnTbz(rt, bit, _) => rt < 32 && bit < 64)
    && (match h.tail
        case Jump(_, island) => h.call == island
        case Indirect(rn) => rn < 32 && (h.call ==> rn != 30)
        case Replay(w) => LoadOrStore(w) && !h.call)
    && (h.guard.NoGuard? || (h.tail.Jump? && !h.tail.island))
  }

  predicate Taken(g: Guard, s: State) {
    match g
    case NoGuard => true
    case OnCond(c) => Holds(c, s.flags)
    case OnCbz(sf, rt, nonzero) => Zero(Get(s.x, rt), sf) != nonzero
    case OnTbz(rt, bit, nonzero) => bit < 64 && BitSet(Get(s.x, rt), bit) == nonzero
  }

  /** The site's instruction, as the hook describes it. */
  function Effect(env: Env, h: Hook, s: State): State
    requires Sound(h)
  {
    var linked := if h.call then s.(x := Put(s.x, 30, Add(s.pc, 4))) else s;
    if !Taken(h.guard, s) then
      Next(s)
    else
      match h.tail
      case Jump(target, _) => linked.(pc := target)
      case Indirect(rn) => linked.(pc := Get(s.x, rn))
      case Replay(w) => LoadStore(env, w, s)
  }

  // ----- The words -----

  function GuardLen(g: Guard): nat { if g.NoGuard? then 0 else 1 }

  /** The guard branches past the trampoline when the site's condition fails. */
  ghost predicate IsGuard(g: Guard, pc: bv64, past: bv64, w: bv32) {
    match g
    case NoGuard => true
    case OnCond(c) => EncBCond(InvertCond(c), pc, past) == Some(w)
    case OnCbz(sf, rt, nonzero) => EncCbz(sf, rt, !nonzero, pc, past) == Some(w)
    case OnTbz(rt, bit, nonzero) => EncTbz(rt, bit, !nonzero, pc, past) == Some(w)
  }

  /** The tail, from word i of its area. */
  ghost predicate IsTail(t: Tail, site: bv64, base: bv64, i: nat, ws: seq<bv32>) {
    match t
    case Jump(target, island) =>
      if EncB(Addr(base, i), target).Some? then
        |ws| == 1 && EncB(Addr(base, i), target) == Some(ws[0])
      else
        && island && |ws| == 3
        && EncAdrp(16, Addr(base, i), target) == Some(ws[0])
        && ws[1] == EncAddImm(16, 16, Low32(target & 0xFFF))
        && ws[2] == EncBr(16)
    case Indirect(rn) => ws == [EncBr(rn)]
    case Replay(w) => |ws| == 2 && ws[0] == w && EncB(Addr(base, i + 1), Add(site, 4)) == Some(ws[1])
  }

  /** The trampoline of a hook, from word `at` of its area, calling the shared
      body at word c. */
  ghost predicate IsTrampoline(h: Hook, base: bv64, c: nat, at: nat, ws: seq<bv32>) {
    var g := GuardLen(h.guard);
    && |ws| >= 2 * g + 4
    && (g == 1 ==> IsGuard(h.guard, Addr(base, at), Addr(base, at + |ws| - 1), ws[0])
                   && EncB(Addr(base, at + |ws| - 1), Add(h.site, 4)) == Some(ws[|ws| - 1]))
    && ws[g] == STR_X30_PRE
    && EncBl(Addr(base, at + g + 1), Addr(base, c)) == Some(ws[g + 1])
    && ws[g + 2] == LDR_X30_POST
    && IsTail(h.tail, h.site, base, at + g + 3, ws[g + 3..|ws| - g])
  }

  ghost predicate IsPatch(h: Hook, start: bv64, w: bv32) {
    if h.call then EncBl(h.site, start) == Some(w) else EncB(h.site, start) == Some(w)
  }

  // ----- Counting the event -----

  /** The state the shared body is called in, from word i of the area. */
  function Called(s: State, base: bv64, c: nat, i: nat): State {
    s.(pc := Addr(base, c), sp := Sub(s.sp, 16), mem := Write(s.mem, Sub(s.sp, 16), s.x[30]),
       x := s.x[30 := Addr(base, i + 2)])
  }

  /** Memory once the body has returned. */
  function Hooked(env: Env, s: State, base: bv64, c: nat, i: nat): Memory {
    After(env, Called(s, base, c, i), base, c)
  }

  /** The stack below sp is not in the fixed region. */
  predicate Roomy(sp: bv64) {
    !Region(Sub(sp, 16)) && Clear(Sub(sp, 16))
  }

  /** The scheduler's entry, if this hook enters it, returns. */
  ghost predicate Returns(env: Env, text: Text, s: State, base: bv64, c: nat, i: nat) {
    EntryReturns(env, text, Called(s, base, c, i), base, c)
  }

  lemma TopDistinct(sp: bv64)
    ensures sp != Pair(sp) && sp != Pair1(sp) && sp != Inner(sp)
  {}

  /** The word saved at the top survives the body. */
  lemma TopKept(env: Env, text: Text, s: State, base: bv64, c: nat)
    requires Clear(s.sp) && !Region(s.sp) && EntryReturns(env, text, s, base, c)
    ensures Read(After(env, s, base, c), s.sp) == Read(s.mem, s.sp)
  {
    TopDistinct(s.sp);
    hide Pair, Pair1, Inner, Left;
    assert Read(Expired(s), s.sp) == Read(s.mem, s.sp);
    assert Read(Counted(s), s.sp) == Read(s.mem, s.sp);
    hide Read, Expired, Counted;
  }

  lemma CalledIs(env: Env, text: Text, s: State, base: bv64, c: nat, i: nat)
    requires Roomy(s.sp) && Returns(env, text, s, base, c, i)
    ensures var e := Called(s, base, c, i);
            && e.pc == Addr(base, c) && e.sp == Sub(s.sp, 16) && e.x[30] == Addr(base, i + 2)
            && e.x == s.x[30 := Addr(base, i + 2)] && e.flags == s.flags && e.vectors == s.vectors
            && Read(e.mem, Sub(s.sp, 16)) == s.x[30]
            && Clear(e.sp) && !Region(e.sp) && EntryReturns(env, text, e, base, c)
            && After(env, e, base, c) == Hooked(env, s, base, c, i)
  {
    ReadWrite(s.mem, Sub(s.sp, 16), s.x[30], Sub(s.sp, 16));
    hide Addr, Sub, Write, Read, After, Clear, Region, EntryReturns;
  }

  /** From the push to the pop: the event is counted and nothing else is left
      changed but memory. */
  lemma CountsEvent(env: Env, text: Text, h: Hook, base: bv64, c: nat, cws: seq<bv32>, at: nat, ws: seq<bv32>, s: State)
    requires IsTrampoline(h, base, c, at, ws) && Placed(text, base, at, ws)
    requires IsCommon(base, c, cws) && Placed(text, base, c, cws)
    requires s.pc == Addr(base, at + GuardLen(h.guard))
    requires Roomy(s.sp) && Returns(env, text, s, base, c, at + GuardLen(h.guard))
    ensures Reaches(env, text, s, s.(pc := Addr(base, at + GuardLen(h.guard) + 3),
                                    mem := Hooked(env, s, base, c, at + GuardLen(h.guard))))
  {
    hide *;
    var i := at + GuardLen(h.guard);
    var e := Called(s, base, c, i);
    CallsBody(env, text, h, base, c, at, ws, s);
    CalledIs(env, text, s, base, c, i);
    CommonRuns(env, text, base, c, cws, e);
    TopKept(env, text, e, base, c);
    var t := e.(pc := e.x[30], mem := After(env, e, base, c));
    ReachesTrans(env, text, s, e, t);
    var u := s.(pc := Addr(base, i + 3), mem := t.mem);
    Restores(env, text, h, base, c, at, ws, s, t, u);
    ReachesTrans(env, text, s, t, u);
  }

  lemma CallsBody(env: Env, text: Text, h: Hook, base: bv64, c: nat, at: nat, ws: seq<bv32>, s: State)
    requires IsTrampoline(h, base, c, at, ws) && Placed(text, base, at, ws)
    requires s.pc == Addr(base, at + GuardLen(h.guard))
    ensures Reaches(env, text, s, Called(s, base, c, at + GuardLen(h.guard)))
  {
    var g := GuardLen(h.guard);
    var i := at + g;
    FromX0(s);
    hide IsTail, IsGuard, Exec, Addr, Placed, Reaches, EncB, EncBl, Add, Sub, Write;
    var s1 := s.(pc := Addr(base, i + 1), sp := Sub(s.sp, 16), mem := Write(s.mem, Sub(s.sp, 16), s.x[30]));
    RunsPush(env, s);
    Follows(base, i);
    One(env, text, base, at, ws, g, s, s1);
    RunsBl(env, s1, Addr(base, c), ws[g + 1]);
    Follows(base, i + 1);
    More(env, text, base, at, ws, g + 1, s, s1, Called(s, base, c, i));
  }

  lemma Restores(env: Env, text: Text, h: Hook, base: bv64, c: nat, at: nat, ws: seq<bv32>, s: State, t: State,
    u: State)
    requires IsTrampoline(h, base, c, at, ws) && Placed(text, base, at, ws)
    requires t.pc == Addr(base, at + GuardLen(h.guard) + 2) && t.sp == Sub(s.sp, 16)
    requires t.x == s.x[30 := t.pc] && t.flags == s.flags && t.vectors == s.vectors
    requires Read(t.mem, t.sp) == s.x[30]
    requires u == s.(pc := Addr(base, at + GuardLen(h.guard) + 3), mem := t.mem)
    ensures Reaches(env, text, t, u)
  {
    UnSub(s.sp);
    hide IsTail, IsGuard, Exec, Addr, Placed, Reaches, EncB, EncBl, Add, Sub, Read;
    RunsPop(env, t);
    Follows(base, at + GuardLen(h.guard) + 2);
    assert t.x[30 := s.x[30]] == s.x;
    One(env, text, base, at, ws, GuardLen(h.guard) + 2, t, u);
  }

  // ----- Guards -----

  /** Flipping the low bit of a condition code flips the condition for every
      code but the two that always hold. */
  lemma InvertCondFlips(cond: bv8, f: Flags)
    requires cond < 16
    ensures Holds(InvertCond(cond), f) == !Holds(cond, f) <==> cond < 14
    ensures InvertCond(cond) < 16 && InvertCond(InvertCond(cond)) == cond
  {
    InvertedTest(cond);
  }

  lemma InvertedTest(cond: bv8)
    requires cond < 16
    ensures InvertCond(cond) >> 1 == cond >> 1 && (InvertCond(cond) & 1 == 1) != (cond & 1 == 1)
    ensures (InvertCond(cond) == 15) == (cond == 14) && (InvertCond(cond) == 14) == (cond == 15)
    ensures cond >> 1 == 7 <==> cond >= 14
    ensures cond == 14 ==> cond & 1 == 0
  {}

  /** The guard stays in the trampoline exactly when the site's condition
      holds. */
  lemma RunsGuard(env: Env, g: Guard, s: State, past: bv64, w: bv32)
    requires !g.NoGuard? && IsGuard(g, s.pc, past, w)
    requires match g case OnCond(c) => c < 14 case OnCbz(_, rt, _) => rt < 32 case OnTbz(rt, bit, _) => rt < 32
      && bit < 64 case _ => true
    ensures Exec(env, w, s) == s.(pc := if Taken(g, s) then Add(s.pc, 4) else past)
  {
    hide Exec, Add, Holds, Zero, BitSet, Get, InvertCond;
    match g {
      case OnCond(c) =>
        InvertCondFlips(c, s.flags);
        RunsBCond(env, s, InvertCond(c), past, w);
      case OnCbz(sf, rt, nonzero) =>
        RunsCbz(env, s, sf, rt, !nonzero, past, w);
      case OnTbz(rt, bit, nonzero) =>
        RunsTbz(env, s, rt, bit, !nonzero, past, w);
    }
  }

  // ----- Tails -----

  /** A load or store is the same instruction wherever it stands. */
  lemma Displaced(env: Env, w: bv32, s: State, p: bv64)
    requires LoadOrStore(w)
    ensures LoadStore(env, w, s.(pc := p)) == LoadStore(env, w, s).(pc := Add(p, 4))
  {
    hide Add, Sub, Get, Put, Read, Write, LoadOrStore;
  }

  /** Where the tail leaves the machine. */
  function Landed(env: Env, t: Tail, far: bool, site: bv64, s: State): State
    requires t.Replay? ==> LoadOrStore(t.word)
  {
    match t
    case Jump(target, _) => if far then s.(pc := target, x := Put(s.x, 16, target)) else s.(pc := target)
    case Indirect(rn) => s.(pc := Get(s.x, rn))
    case Replay(w) => LoadStore(env, w, s).(pc := Add(site, 4))
  }

  predicate Far(t: Tail, pc: bv64) {
    t.Jump? && EncB(pc, t.target).None?
  }

  lemma RunsNear(env: Env, text: Text, base: bv64, i: nat, ws: seq<bv32>, s: State, target: bv64)
    requires |ws| == 1 && EncB(Addr(base, i), target) == Some(ws[0])
    requires Placed(text, base, i, ws) && s.pc == Addr(base, i)
    ensures Reaches(env, text, s, s.(pc := target))
  {
    hide Exec, Addr, Placed, Reaches, EncB;
    RunsB(env, s, target, ws[0]);
    One(env, text, base, i, ws, 0, s, s.(pc := target));
  }

  lemma RunsIsland(env: Env, text: Text, base: bv64, i: nat, ws: seq<bv32>, s: State, target: bv64)
    requires |ws| == 3 && EncAdrp(16, Addr(base, i), target) == Some(ws[0])
    requires ws[1] == EncAddImm(16, 16, Low32(target & 0xFFF)) && ws[2] == EncBr(16)
    requires Placed(text, base, i, ws) && s.pc == Addr(base, i)
    ensures Reaches(env, text, s, s.(pc := target, x := Put(s.x, 16, target)))
  {
    var s1 := Exec(env, ws[0], s);
    var s2 := Exec(env, ws[1], s1);
    AdrpAddReaches(env, s, 16, target, ws[0], ws[1]);
    PutTwice(s.x, 16, target, target);
    hide Exec, Addr, Placed, Reaches, EncB, EncBr, EncAdrp, EncAddImm, Put, Get, Low32, Add;
    Follows(base, i);
    Follows(base, i + 1);
    One(env, text, base, i, ws, 0, s, s1);
    More(env, text, base, i, ws, 1, s, s1, s2);
    RunsBr(env, s2, 16);
    More(env, text, base, i, ws, 2, s, s2, s.(pc := target, x := Put(s.x, 16, target)));
  }

  lemma RunsReplay(env: Env, text: Text, base: bv64, i: nat, ws: seq<bv32>, s: State, site: bv64, w: bv32)
    requires |ws| == 2 && ws[0] == w && EncB(Addr(base, i + 1), Add(site, 4)) == Some(ws[1]) && LoadOrStore(w)
    requires Placed(text, base, i, ws) && s.pc == Addr(base, i)
    ensures Reaches(env, text, s, LoadStore(env, w, s).(pc := Add(site, 4)))
  {
    ExecLoadStore(env, w, s);
    Displaced(env, w, s, s.pc);
    hide Exec, Addr, Placed, Reaches, EncB, LoadStore, LoadOrStore, Add;
    Follows(base, i);
    var t := LoadStore(env, w, s);
    One(env, text, base, i, ws, 0, s, t);
    RunsB(env, t, Add(site, 4), ws[1]);
    More(env, text, base, i, ws, 1, s, t, t.(pc := Add(site, 4)));
  }

  lemma RunsTail(env: Env, text: Text, base: bv64, i: nat, ws: seq<bv32>, s: State, t: Tail, site: bv64)
    requires IsTail(t, site, base, i, ws) && Placed(text, base, i, ws) && s.pc == Addr(base, i)
    requires match t case Indirect(rn) => rn < 32 case Replay(w) => LoadOrStore(w) case _ => true
    ensures Reaches(env, text, s, Landed(env, t, Far(t, s.pc), site, s))
  {
    hide Exec, Addr, Placed, Reaches, EncB, EncBr, EncAdrp, EncAddImm, Put, Get, Low32, Add, LoadStore, LoadOrStore;
    match t {
      case Jump(target, _) =>
        if EncB(s.pc, target).Some? {
          RunsNear(env, text, base, i, ws, s, target);
        } else {
          RunsIsland(env, text, base, i, ws, s, target);
        }
      case Indirect(rn) =>
        RunsBr(env, s, rn);
        One(env, text, base, i, ws, 0, s, s.(pc := Get(s.x, rn)));
      case Replay(w) =>
        RunsReplay(env, text, base, i, ws, s, site, w);
    }
  }

  /** Part of what is placed. */
  lemma PlacedPart(text: Text, base: bv64, at: nat, ws: seq<bv32>, lo: nat, part: seq<bv32>)
    requires Placed(text, base, at, ws) && lo + |part| <= |ws| && part == ws[lo..lo + |part|]
    ensures Placed(text, base, at + lo, part)
  {
    forall k: nat {:trigger part[k]} | k < |part|
      ensures WordAt(text, Addr(base, (at + lo) + k), part[k])
    {
      PartAt(ws, lo, part, k);
      assert WordAt(text, Addr(base, at + (lo + k)), ws[lo + k]);
    }
  }

  lemma PartAt(ws: seq<bv32>, lo: nat, part: seq<bv32>, k: nat)
    requires lo + |part| <= |ws| && part == ws[lo..lo + |part|] && k < |part|
    ensures ws[lo + k] == part[k]
  {}

  // ----- A hooked site -----

  function Linked(h: Hook, s: State): State {
    if h.call then s.(x := Put(s.x, 30, Add(s.pc, 4))) else s
  }

  /** A hooked step, from memory as the hook left it; an island leaves the
      target in x16. */
  function Done(env: Env, h: Hook, far: bool, m: Memory, s: State): State
    requires Sound(h) && (far ==> h.tail.Jump?)
  {
    var t := Effect(env, h, s.(mem := m));
    if far then t.(x := Put(t.x, 16, h.tail.target)) else t
  }

  /** Where running the site's patch ends: one step of the original, after the
      hook's effect on memory if the step is one that is hooked. */
  function Outcome(env: Env, h: Hook, base: bv64, c: nat, at: nat, s: State): State
    requires Sound(h)
  {
    if !Taken(h.guard, s) then
      Next(s)
    else
      var i := at + GuardLen(h.guard);
      Done(env, h, Far(h.tail, Addr(base, i + 3)), Hooked(env, Linked(h, s), base, c, i), s)
  }

  lemma CalledAnywhere(env: Env, text: Text, s: State, p: bv64, base: bv64, c: nat, i: nat)
    ensures Called(s.(pc := p), base, c, i) == Called(s, base, c, i)
    ensures Hooked(env, s.(pc := p), base, c, i) == Hooked(env, s, base, c, i)
    ensures Returns(env, text, s.(pc := p), base, c, i) <==> Returns(env, text, s, base, c, i)
  {
    hide Addr, Sub, Write, After, EntryReturns;
  }

  lemma PutOther(x: Regs, r: bv8, v: bv64, q: bv8)
    requires r < 31 && q != r
    ensures Get(Put(x, r, v), q) == Get(x, q)
  {
    if q < 31 {
      assert q as nat != r as nat;
    }
  }

  /** The tail finishes what the site was to do. */
  lemma LandedIsEffect(env: Env, h: Hook, far: bool, p: bv64, m: Memory, s: State)
    requires Sound(h) && Taken(h.guard, s) && s.pc == h.site && (far ==> h.tail.Jump?)
    ensures Landed(env, h.tail, far, h.site, Linked(h, s).(pc := p, mem := m)) == Done(env, h, far, m, s)
  {
    hide Add, Put, Get, LoadStore, LoadOrStore, Holds, Zero, BitSet;
    match h.tail {
      case Jump(target, _) =>
      case Indirect(rn) =>
        if h.call {
          PutOther(s.x, 30, Add(s.pc, 4), rn);
        }
      case Replay(w) =>
        Displaced(env, w, s.(mem := m), p);
        Displaced(env, w, s.(mem := m), s.pc);
    }
  }

  lemma Enters(env: Env, text: Text, h: Hook, base: bv64, at: nat, s: State)
    requires s.pc == h.site && At(h.site) in text && IsPatch(h, Addr(base, at), text[At(h.site)])
    ensures Reaches(env, text, s, Linked(h, s).(pc := Addr(base, at)))
  {
    hide Exec, Addr, Reaches, EncB, EncBl, Put, Add;
    var w := text[At(h.site)];
    if h.call {
      RunsBl(env, s, Addr(base, at), w);
    } else {
      RunsB(env, s, Addr(base, at), w);
    }
    Once(env, text, s, Linked(h, s).(pc := Addr(base, at)));
  }

  lemma GuardWords(h: Hook, base: bv64, c: nat, at: nat, ws: seq<bv32>)
    requires IsTrampoline(h, base, c, at, ws) && !h.guard.NoGuard?
    ensures |ws| > 0 && IsGuard(h.guard, Addr(base, at), Addr(base, at + |ws| - 1), ws[0])
    ensures EncB(Addr(base, at + |ws| - 1), Add(h.site, 4)) == Some(ws[|ws| - 1])
  {
    hide IsGuard, IsTail, EncB, EncBl, Addr, Add;
  }

  lemma TailWords(h: Hook, base: bv64, c: nat, at: nat, ws: seq<bv32>)
    requires IsTrampoline(h, base, c, at, ws)
    ensures var g := GuardLen(h.guard);
            |ws| >= 2 * g + 4 && IsTail(h.tail, h.site, base, at + g + 3, ws[g + 3..|ws| - g])
  {
    hide IsGuard, IsTail, EncB, EncBl, Addr, Add;
  }

  lemma SoundParts(h: Hook)
    requires Sound(h)
    ensures match h.guard case OnCond(c) => c < 14 case OnCbz(_, rt, _) => rt < 32 case OnTbz(rt, bit, _) => rt < 32
      && bit < 64 case _ => true
    ensures match h.tail case Indirect(rn) => rn < 32 case Replay(w) => LoadOrStore(w) case _ => true
    ensures !h.guard.NoGuard? ==> !h.call
  {
    hide LoadOrStore;
  }

  lemma Decides(env: Env, text: Text, h: Hook, base: bv64, c: nat, at: nat, ws: seq<bv32>, s: State, t: State)
    requires Sound(h) && !h.guard.NoGuard?
    requires IsTrampoline(h, base, c, at, ws) && Placed(text, base, at, ws) && s.pc == Addr(base, at)
    requires t == s.(pc := if Taken(h.guard, s) then Addr(base, at + 1) else Addr(base, at + |ws| - 1))
    ensures Reaches(env, text, s, t)
  {
    hide *;
    SoundParts(h);
    GuardWords(h, base, c, at, ws);
    RunsGuard(env, h.guard, s, Addr(base, at + |ws| - 1), ws[0]);
    Follows(base, at);
    One(env, text, base, at, ws, 0, s, t);
  }

  /** A guard decides as the site's own condition does. */
  lemma Passes(env: Env, text: Text, h: Hook, base: bv64, c: nat, at: nat, ws: seq<bv32>, s: State)
    requires Sound(h) && !h.guard.NoGuard?
    requires IsTrampoline(h, base, c, at, ws) && Placed(text, base, at, ws) && s.pc == Addr(base, at)
    ensures Reaches(env, text, s, s.(pc := if Taken(h.guard, s) then Addr(base, at + 1) else Add(h.site, 4)))
  {
    hide *;
    GuardWords(h, base, c, at, ws);
    var last: nat := |ws| - 1;
    var t := s.(pc := if Taken(h.guard, s) then Addr(base, at + 1) else Addr(base, at + last));
    Decides(env, text, h, base, c, at, ws, s, t);
    if !Taken(h.guard, s) {
      RunsB(env, t, Add(h.site, 4), ws[last]);
      More(env, text, base, at, ws, last, s, t, s.(pc := Add(h.site, 4)));
    }
  }

  lemma OutcomeIs(env: Env, h: Hook, base: bv64, c: nat, at: nat, s: State, p: bv64)
    requires Sound(h) && Taken(h.guard, s) && s.pc == h.site
    ensures var i := at + GuardLen(h.guard);
            var m := Hooked(env, Linked(h, s), base, c, i);
            var far := Far(h.tail, Addr(base, i + 3));
            (h.tail.Replay? ==> LoadOrStore(h.tail.word))
            && Outcome(env, h, base, c, at, s) == Landed(env, h.tail, far, h.site, Linked(h, s).(pc := p, mem := m))
  {
    hide Effect, Landed, Linked, Hooked, Addr, Taken, Put, LoadOrStore, EncB, Far, Done, Sound;
    SoundParts(h);
    var i: nat := at + GuardLen(h.guard);
    var m := Hooked(env, Linked(h, s), base, c, i);
    var far := Far(h.tail, Addr(base, i + 3));
    FarJumps(h.tail, Addr(base, i + 3));
    LandedIsEffect(env, h, far, p, m, s);
  }

  lemma FarJumps(t: Tail, pc: bv64)
    ensures Far(t, pc) ==> t.Jump?
  {
    hide EncB;
  }

  lemma LinkedKeeps(h: Hook, s: State)
    ensures Linked(h, s).sp == s.sp && Linked(h, s).pc == s.pc
    ensures forall r: State :: r == Linked(h, s) ==> r.sp == s.sp
    ensures !h.call ==> Linked(h, s) == s
  {}

  /** The trampoline and the body it calls stand in the text. */
  ghost predicate Built(text: Text, h: Hook, base: bv64, c: nat, cws: seq<bv32>, at: nat, ws: seq<bv32>) {
    && Sound(h)
    && IsTrampoline(h, base, c, at, ws) && Placed(text, base, at, ws)
    && IsCommon(base, c, cws) && Placed(text, base, c, cws)
  }

  /** A hooked step has room on the stack and, the quantum out, a scheduler
      that returns. */
  ghost predicate Able(env: Env, text: Text, h: Hook, base: bv64, c: nat, at: nat, s: State) {
    Taken(h.guard, s) ==> Roomy(s.sp) && Returns(env, text, Linked(h, s), base, c, at + GuardLen(h.guard))
  }

  lemma BuiltParts(text: Text, h: Hook, base: bv64, c: nat, cws: seq<bv32>, at: nat, ws: seq<bv32>)
    requires Built(text, h, base, c, cws, at, ws)
    ensures Sound(h)
    ensures IsTrampoline(h, base, c, at, ws) && Placed(text, base, at, ws)
    ensures IsCommon(base, c, cws) && Placed(text, base, c, cws)
  {
    hide Sound, IsTrampoline, Placed, IsCommon;
  }

  /** A site that passes its guard: counted, then done. */
  lemma Performs(env: Env, text: Text, h: Hook, base: bv64, c: nat, cws: seq<bv32>, at: nat, ws: seq<bv32>,
                 s: State, t: State)
    requires Built(text, h, base, c, cws, at, ws) && Able(env, text, h, base, c, at, s)
    requires Sound(h) && Taken(h.guard, s) && s.pc == h.site
    requires t == Linked(h, s).(pc := Addr(base, at + GuardLen(h.guard)))
    ensures Reaches(env, text, t, Outcome(env, h, base, c, at, s))
  {
    assert Roomy(s.sp) && Returns(env, text, Linked(h, s), base, c, at + GuardLen(h.guard)) by {
      hide Taken, Roomy, Returns, Linked, GuardLen;
    }
    hide *;
    BuiltParts(text, h, base, c, cws, at, ws);
    var g: nat := GuardLen(h.guard);
    var i: nat := at + g;
    LinkedKeeps(h, s);
    CalledAnywhere(env, text, Linked(h, s), t.pc, base, c, i);
    CountsEvent(env, text, h, base, c, cws, at, ws, t);
    var u := t.(pc := Addr(base, i + 3), mem := Hooked(env, Linked(h, s), base, c, i));
    Finishes(env, text, h, base, c, at, ws, s, u);
    ReachesTrans(env, text, t, u, Outcome(env, h, base, c, at, s));
  }

  lemma Finishes(env: Env, text: Text, h: Hook, base: bv64, c: nat, at: nat, ws: seq<bv32>, s: State, u: State)
    requires Sound(h) && Taken(h.guard, s) && s.pc == h.site
    requires IsTrampoline(h, base, c, at, ws) && Placed(text, base, at, ws)
    requires var i := at + GuardLen(h.guard);
             u == Linked(h, s).(pc := Addr(base, i + 3), mem := Hooked(env, Linked(h, s), base, c, i))
    ensures Reaches(env, text, u, Outcome(env, h, base, c, at, s))
  {
    hide *;
    SoundParts(h);
    var g: nat := GuardLen(h.guard);
    TailWords(h, base, c, at, ws);
    var tail := ws[g + 3..|ws| - g];
    PlacedPart(text, base, at, ws, g + 3, tail);
    RunsTail(env, text, base, at + g + 3, tail, u, h.tail, h.site);
    OutcomeIs(env, h, base, c, at, s, u.pc);
  }

  lemma NotTaken(env: Env, h: Hook, base: bv64, c: nat, at: nat, s: State)
    requires Sound(h) && !Taken(h.guard, s)
    ensures Outcome(env, h, base, c, at, s) == s.(pc := Add(s.pc, 4))
  {
    hide Add, Taken;
  }

  lemma TakenAnywhere(g: Guard, s: State, p: bv64)
    ensures Taken(g, s.(pc := p)) <==> Taken(g, s)
  {
    hide Holds, Zero, BitSet, Get;
  }

  /** Running the rewritten text from a site reaches exactly the state of one
      original step: counted when the step is a hooked one, with memory as the
      hook left it, and with x16 holding the target when an island was needed. */
  lemma SiteRuns(env: Env, text: Text, h: Hook, base: bv64, c: nat, cws: seq<bv32>, at: nat, ws: seq<bv32>, s: State)
    requires s.pc == h.site && At(h.site) in text && IsPatch(h, Addr(base, at), text[At(h.site)])
    requires Sound(h) && Built(text, h, base, c, cws, at, ws) && Able(env, text, h, base, c, at, s)
    ensures Reaches(env, text, s, Outcome(env, h, base, c, at, s))
  {
    hide *;
    SoundParts(h);
    BuiltParts(text, h, base, c, cws, at, ws);
    var end := Outcome(env, h, base, c, at, s);
    var s0 := Linked(h, s).(pc := Addr(base, at));
    Enters(env, text, h, base, at, s);
    Unguarded(h.guard, s);
    if h.guard.NoGuard? {
      Performs(env, text, h, base, c, cws, at, ws, s, s0);
      ReachesTrans(env, text, s, s0, end);
    } else {
      LinkedKeeps(h, s);
      TakenAnywhere(h.guard, s, Addr(base, at));
      Passes(env, text, h, base, c, at, ws, s0);
      var s1 := s.(pc := if Taken(h.guard, s) then Addr(base, at + 1) else Add(h.site, 4));
      ReachesTrans(env, text, s, s0, s1);
      if Taken(h.guard, s) {
        Performs(env, text, h, base, c, cws, at, ws, s, s1);
        ReachesTrans(env, text, s, s1, end);
      } else {
        NotTaken(env, h, base, c, at, s);
      }
    }
  }

  lemma Unguarded(g: Guard, s: State)
    ensures GuardLen(g) == if g.NoGuard? then 0 else 1
    ensures g.NoGuard? ==> Taken(g, s)
  {}
}

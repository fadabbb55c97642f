/** No loop of the program escapes the rewriter (src/rewrite.rs): whoever comes
    back to where it was has passed a hooked site, where the quantum is counted
    down and the baton can be handed on. */
module Loops {
  import opened Arm
  import opened ArmMachine
  import opened ArmSteps
  import opened Trampoline
  import opened Sites
  import opened Simulation
  import opened Rewriter
  import opened Selection
  import opened Forms

  /** What the machine does not know of goes on to the next word. */
  ghost predicate Plain(env: Env) { forall w: bv32, s: State :: env.other(w, s).pc == Add(s.pc, 4) }

  predicate Branches(w: bv32) {
    IsB(w) || IsBl(w) || IsCondB(w) || IsCbzB(w) || IsTbzB(w) || IsBr(w) || IsBlr(w) || IsRet(w)
  }

  /** The last word of the address space */
  predicate AtTheEnd(pc: bv64) { pc >= 0xFFFF_FFFF_FFFF_FFFC }

  function Following(pc: bv64): bv64 { Add(pc, 4) }

  lemma StoreGoesOn(env: Env, w: bv32, s: State)
    requires LoadOrStore(w)
    ensures LoadStore(env, w, s).pc == Following(s.pc)
  {
    hide Add, Write, Read, Put, Get, Rt, Rn, Imm12;
  }

  lemma GoesOn(env: Env, w: bv32, s: State)
    requires Plain(env) && !Branches(w)
    ensures Exec(env, w, s).pc == Following(s.pc)
  {
    if LoadOrStore(w) { StoreGoesOn(env, w, s); }
    hide Add, LoadStore, LoadOrStore, Put, Get, Rt, Rn, Imm12, Adrp, Pages, Wide, Sub;
  }

  /** Only a branch back, a call or an indirect branch does not go forward. */
  lemma OnlyTheseGoBack(env: Env, w: bv32, s: State)
    requires Plain(env) && Back(Exec(env, w, s).pc, s.pc) && !AtTheEnd(s.pc)
    ensures GoesBack(w, s.pc) || IsBl(w) || IsBr(w) || IsBlr(w) || IsRet(w)
  {
    hide *;
    NextIs(env, w, s);
    if !IsBl(w) && !IsBr(w) && !IsBlr(w) && !IsRet(w) { BackIs(w, s.pc, Exec(env, w, s).pc); }
  }

  /** Where a word that is no call and no indirect branch leads */
  predicate Leads(w: bv32, pc: bv64, to: bv64) {
    || to == Following(pc) || (IsB(w) && to == Rel26(pc, w)) || (IsCondB(w) && to == Rel19(pc, w))
    || (IsCbzB(w) && to == Rel19(pc, w)) || (IsTbzB(w) && to == Rel14(pc, w))
  }

  lemma NextIs(env: Env, w: bv32, s: State)
    requires Plain(env)
    ensures IsBl(w) || IsBr(w) || IsBlr(w) || IsRet(w) || Leads(w, s.pc, Exec(env, w, s).pc)
  {
    hide Plain, Exec, Following, Rel26, Rel19, Rel14, IsB, IsBl, IsCondB, IsCbzB, IsTbzB, IsBr, IsBlr, IsRet;
    if !Branches(w) { GoesOn(env, w, s); }
    if IsB(w) { ExecB(env, w, s); }
    if IsCondB(w) { CondStep(env, w, s); }
    if IsCbzB(w) { CbzStep(env, w, s); }
    if IsTbzB(w) { TbzStep(env, w, s); }
  }

  lemma BackIs(w: bv32, pc: bv64, to: bv64)
    requires Leads(w, pc, to) && Back(to, pc) && !AtTheEnd(pc)
    ensures GoesBack(w, pc)
  {
    Forward(pc);
    hide Back, AtTheEnd, Following, Rel26, Rel19, Rel14, IsB, IsCondB, IsCbzB, IsTbzB;
  }

  lemma Forward(pc: bv64)
    requires !AtTheEnd(pc)
    ensures !Back(Following(pc), pc)
  {
  }

  lemma CondStep(env: Env, w: bv32, s: State)
    requires IsCondB(w)
    ensures Exec(env, w, s).pc == Rel19(s.pc, w) || Exec(env, w, s).pc == Following(s.pc)
  {
    hide Exec, Add, Rel19, Holds;
    ExecBCond(env, w, s);
  }

  lemma CbzStep(env: Env, w: bv32, s: State)
    requires IsCbzB(w)
    ensures Exec(env, w, s).pc == Rel19(s.pc, w) || Exec(env, w, s).pc == Following(s.pc)
  {
    hide Exec, Add, Rel19, Zero, Get, Rt;
    ExecCbz(env, w, s, w >> 31 != 0, Rt(w), w & 0x0100_0000 != 0);
  }

  lemma TbzStep(env: Env, w: bv32, s: State)
    requires IsTbzB(w)
    ensures Exec(env, w, s).pc == Rel14(s.pc, w) || Exec(env, w, s).pc == Following(s.pc)
  {
    BitNumberBound(w);
    hide Exec, Add, Rel14, BitSet, Get, Rt, BitNumber;
    ExecTbz(env, w, s, Rt(w), BitNumber(w), w & 0x0100_0000 != 0);
  }

  // ----- Addresses in order, byte by byte -----

  predicate Under(a: bv64, b: bv64) { a < b }

  function Top(a: bv64): bv8 { (a >> 56) as bv8 }

  predicate Lower(x: bv8, y: bv8) { x < y }

  lemma TopDecides(a: bv64, b: bv64)
    ensures Lower(Top(a), Top(b)) ==> Under(a, b)
    ensures Under(a, b) ==> Lower(Top(a), Top(b)) || Top(a) == Top(b)
  {
  }

  lemma RestDecides(a: bv64, b: bv64)
    requires Top(a) == Top(b)
    ensures Under(a, b) <==> Under(a << 8, b << 8)
  {
  }

  lemma LowerTrans(x: bv8, y: bv8, z: bv8)
    requires (Lower(x, y) || x == y) && (Lower(y, z) || y == z)
    ensures Lower(x, z) || (x == y && y == z)
  {
  }

  /** The bytes below the topmost ones are zero. */
  predicate Bytes(a: bv64, n: nat)
    decreases n
  {
    if n == 0 then a == 0 else Bytes(a << 8, n - 1)
  }

  lemma BytesLess(a: bv64, n: nat)
    ensures n > 0 ==> Bytes(a, n) == Bytes(a << 8, n - 1)
    ensures n == 0 ==> Bytes(a, n) == (a == 0)
  {
  }

  lemma EightBytes(a: bv64)
    ensures Bytes(a, 8)
  {
    var b := a << 8;
    var c := b << 8;
    var d := c << 8;
    var e := d << 8;
    var f := e << 8;
    var g := f << 8;
    var h := g << 8;
    assert h << 8 == 0;
    hide Bytes;
    BytesLess(a, 8);
    BytesLess(b, 7);
    BytesLess(c, 6);
    BytesLess(d, 5);
    BytesLess(e, 4);
    BytesLess(f, 3);
    BytesLess(g, 2);
    BytesLess(h, 1);
    BytesLess(h << 8, 0);
  }

  lemma NotBelow(a: bv64)
    ensures !Under(a, a)
  {
  }

  lemma {:induction false} BelowTrans(a: bv64, b: bv64, c: bv64, n: nat)
    requires Bytes(a, n) && Bytes(b, n) && Bytes(c, n) && Under(a, b) && Under(b, c)
    ensures Under(a, c)
    decreases n
  {
    hide *;
    BytesLess(a, n);
    BytesLess(b, n);
    BytesLess(c, n);
    if n == 0 {
      NotBelow(a);
    } else {
      TopDecides(a, b);
      TopDecides(b, c);
      TopDecides(a, c);
      LowerTrans(Top(a), Top(b), Top(c));
      if Top(a) == Top(b) && Top(b) == Top(c) {
        RestDecides(a, b);
        RestDecides(b, c);
        RestDecides(a, c);
        BelowTrans(a << 8, b << 8, c << 8, n - 1);
      }
    }
  }

  lemma Higher(a: bv64, b: bv64, c: bv64)
    requires !Back(b, a) && !Back(c, b)
    ensures !Back(c, a)
  {
    BackIsNot(b, a);
    BackIsNot(c, b);
    BackIsNot(c, a);
    EightBytes(a);
    EightBytes(b);
    EightBytes(c);
    hide *;
    BelowTrans(a, b, c, 8);
  }

  lemma BackIsNot(b: bv64, a: bv64)
    ensures Back(b, a) <==> !Under(a, b)
  {
  }

  // ----- Runs -----

  /** A run that only goes forward does not come back. */
  lemma {:induction false} Climbs(env: Env, text: Text, s: State, n: nat)
    requires n > 0
    requires forall i: nat {:trigger Run(env, text, s, i)} :: i < n ==>
               !Back(Run(env, text, s, i + 1).pc, Run(env, text, s, i).pc)
    ensures !Back(Run(env, text, s, n).pc, s.pc)
    decreases n
  {
    hide Back, Step;
    var t := Step(env, text, s);
    assert Run(env, text, s, 1) == Run(env, text, t, 0) == t;
    assert !Back(Run(env, text, s, 0 + 1).pc, Run(env, text, s, 0).pc);
    if n > 1 {
      forall i: nat {:trigger Run(env, text, t, i)} | i < n - 1
        ensures !Back(Run(env, text, t, i + 1).pc, Run(env, text, t, i).pc)
      {
        assert Run(env, text, s, i + 1) == Run(env, text, t, i);
        assert Run(env, text, s, i + 2) == Run(env, text, t, i + 1);
      }
      Climbs(env, text, t, n - 1);
      Higher(s.pc, t.pc, Run(env, text, t, n - 1).pc);
    }
  }

  lemma {:induction false} RunStep(env: Env, text: Text, s: State, i: nat)
    ensures Run(env, text, s, i + 1) == Step(env, text, Run(env, text, s, i))
    decreases i
  {
    hide Step;
    if i > 0 { RunStep(env, text, Step(env, text, s), i - 1); }
  }

  /** A word of one of the functions, neither data nor in an exclusive span, nor
      one that was given up as out of reach */
  ghost predicate Within(fs: seq<Fn>, lefts: seq<seq<nat>>, n: nat, j: nat, pc: bv64) {
    && n < |fs| == |lefts| && j < |fs[n].words| == |fs[n].drawn| && pc == Addr(fs[n].start, j)
    && !InData(fs[n].dic, pc) && !Spanned(Classes(fs[n]), fs[n].start, j) && j !in lefts[n]
         && pc < 0xFFFF_FFFF_FFFF_FFFC
  }

  ghost predicate InText(fs: seq<Fn>, lefts: seq<seq<nat>>, pc: bv64) {
    exists n: nat, j: nat :: Within(fs, lefts, n, j, pc)
  }

  /** Returns, and calls through x30, are left as they are. */
  predicate LeftAsIs(w: bv32) { IsRet(w) || (IsBlr(w) && (w >> 5) & 0x1F == 30) }

  /** A hook of the rewriter stands at pc. */
  ghost predicate HookedAt(recs: seq<Rec>, pc: bv64) {
    exists k: nat {:trigger recs[k]} :: k < |recs| && recs[k].HookRec? && recs[k].hook.site == pc
  }

  /** A run of the program outside data, exclusive spans and what is out of
      reach that comes back to where it was, or further back, passes a hooked
      site, unless it goes through a return or a call through x30. */
  lemma LoopsAreHooked(env: Env, original: Text, fs: seq<Fn>, recs: seq<Rec>, lefts: seq<seq<nat>>, s: State, n: nat)
    requires Plain(env) && Source(original, fs) && AllServed(recs, fs, lefts) && n > 0
    requires forall i: nat {:trigger Run(env, original, s, i)} :: i < n ==>
               var pc := Run(env, original, s, i).pc;
               InText(fs, lefts, pc) && (At(pc) in original ==> !LeftAsIs(original[At(pc)]))
    requires Run(env, original, s, n).pc <= s.pc
    ensures exists i: nat :: i < n && HookedAt(recs, Run(env, original, s, i).pc)
  {
    hide InText, LeftAsIs, Source, AllServed, HookedAt, Step;
    if forall i: nat {:trigger Run(env, original, s, i)} :: i < n ==>
         !Back(Run(env, original, s, i + 1).pc, Run(env, original, s, i).pc) {
      Climbs(env, original, s, n);
    } else {
      var i: nat :| i < n && Back(Run(env, original, s, i + 1).pc, Run(env, original, s, i).pc);
      RunStep(env, original, s, i);
      var t := Run(env, original, s, i);
      assert InText(fs, lefts, t.pc);
      BackIsHooked(env, original, fs, recs, lefts, t);
    }
  }

  lemma BackIsHooked(env: Env, original: Text, fs: seq<Fn>, recs: seq<Rec>, lefts: seq<seq<nat>>, t: State)
    requires Plain(env) && Source(original, fs) && AllServed(recs, fs, lefts) && InText(fs, lefts, t.pc)
    requires At(t.pc) in original ==> !LeftAsIs(original[At(t.pc)])
    requires Back(Step(env, original, t).pc, t.pc)
    ensures HookedAt(recs, t.pc)
  {
    hide *;
    var n: nat, j: nat := Found(fs, lefts, t.pc);
    var w := fs[n].words[j];
    WordIs(original, fs, n, j, t.pc);
    StepIsExec(env, original, t);
    NotTheEnd(fs, lefts, n, j, t.pc);
    OnlyTheseGoBack(env, w, t);
    ThenHooked(w, t.pc);
    IsWanted(fs, lefts, n, j, t.pc);
    IsServed(fs, recs, lefts, n, j, t.pc);
  }

  lemma Found(fs: seq<Fn>, lefts: seq<seq<nat>>, pc: bv64) returns (n: nat, j: nat)
    requires InText(fs, lefts, pc)
    ensures n < |fs| && j < |fs[n].words| && pc == Addr(fs[n].start, j) && Within(fs, lefts, n, j, pc)
  {
    hide Spanned, Addr;
    n, j :| Within(fs, lefts, n, j, pc);
  }

  lemma WordIs(original: Text, fs: seq<Fn>, n: nat, j: nat, pc: bv64)
    requires Source(original, fs) && n < |fs| && j < |fs[n].words| && pc == Addr(fs[n].start, j)
    ensures At(pc) in original && original[At(pc)] == fs[n].words[j]
  {
    hide Addr;
    assert Placed(original, fs[n].start, 0, fs[n].words);
    assert WordAt(original, Addr(fs[n].start, 0 + j), fs[n].words[j]);
  }

  lemma NotTheEnd(fs: seq<Fn>, lefts: seq<seq<nat>>, n: nat, j: nat, pc: bv64)
    requires Within(fs, lefts, n, j, pc)
    ensures !AtTheEnd(pc)
  {
    hide Spanned, Addr;
  }

  /** What goes back is hooked, and neither a load or store nor a counter read. */
  lemma ThenHooked(w: bv32, pc: bv64)
    requires GoesBack(w, pc) || IsBl(w) || IsBr(w) || IsBlr(w) || IsRet(w)
    requires !LeftAsIs(w)
    ensures HookFor(w, pc).Some? && !Decode(w, pc).Mem? && !Decode(w, pc).Counter?
  {
    NotX30(w);
    hide *;
    WhatIsHooked(w, pc);
    ClassOf(w, pc);
  }

  lemma NotX30(w: bv32)
    requires !LeftAsIs(w)
    ensures !IsRet(w) && (IsBlr(w) ==> (w >> 5) & 0x1F != 30)
  {
  }

  lemma ClassOf(w: bv32, pc: bv64)
    ensures GoesBack(w, pc) || IsBl(w) || IsBr(w) || IsBlr(w) ==> !Decode(w, pc).Mem? && !Decode(w, pc).Counter?
  {
    hide Decode, Back, Rel26, Rel19, Rel14, IsB, IsBl, IsBr, IsBlr, IsCondB, IsCbzB, IsTbzB;
    FormsDecode(w, pc);
    if IsBl(w) { BlDecodes(w, pc); }
    if IsBr(w) { BrDecodes(w, pc); }
    if IsBlr(w) { BlrDecodes(w, pc); }
  }

  lemma IsWanted(fs: seq<Fn>, lefts: seq<seq<nat>>, n: nat, j: nat, pc: bv64)
    requires Within(fs, lefts, n, j, pc)
    requires var w := fs[n].words[j]; HookFor(w, pc).Some? && !Decode(w, pc).Mem? && !Decode(w, pc).Counter?
    ensures var want := WantAt(fs[n], j); want.WantHook? && want.hook.site == pc
  {
    var f := fs[n];
    NotData(fs, lefts, n, j, pc);
    hide *;
    WantIs(f, j, false, Tainted(Classes(f)));
    HookIsWanted(f.words[j], pc, Tainted(Classes(f)), f.drawn[j]);
    WantIsHook(f.words[j], pc, Tainted(Classes(f)), f.drawn[j]);
  }

  /** Data is what lies between the ends of a range that the linker marked. */
  lemma DataIs(dic: seq<(bv64, bv64)>, pc: bv64)
    ensures InData(dic, pc) <==> exists k :: 0 <= k < |dic| && Back(dic[k].0, pc) && Under(pc, dic[k].1)
  {
    forall k | 0 <= k < |dic| ensures dic[k].0 <= pc < dic[k].1 <==> Back(dic[k].0, pc) && Under(pc, dic[k].1) {
      RangeIs(dic[k].0, dic[k].1, pc);
    }
  }

  lemma RangeIs(lo: bv64, hi: bv64, pc: bv64)
    ensures lo <= pc < hi <==> Back(lo, pc) && Under(pc, hi)
  {
  }

  lemma NotData(fs: seq<Fn>, lefts: seq<seq<nat>>, n: nat, j: nat, pc: bv64)
    requires Within(fs, lefts, n, j, pc)
    ensures !InData(fs[n].dic, pc) && !Spanned(Classes(fs[n]), fs[n].start, j) && pc == Addr(fs[n].start, j)
  {
    hide Spanned, Addr, Classes, InData;
  }

  lemma HookIsWanted(w: bv32, pc: bv64, tainted: bool, drawn: bool)
    requires HookFor(w, pc).Some? && !Decode(w, pc).Mem? && !Decode(w, pc).Counter?
    ensures Wants(w, pc, tainted, drawn) == WantHook(HookFor(w, pc).value)
  {
    hide Decode, HookFor;
  }

  lemma IsServed(fs: seq<Fn>, recs: seq<Rec>, lefts: seq<seq<nat>>, n: nat, j: nat, pc: bv64)
    requires AllServed(recs, fs, lefts) && Within(fs, lefts, n, j, pc)
    requires var want := WantAt(fs[n], j); want.WantHook? && want.hook.site == pc
    ensures HookedAt(recs, pc)
  {
    hide Spanned, Addr, WantAt;
    var k :| 0 <= k < |recs| && RecFor(recs[k], fs[n], j);
  }

  // ----- What else is hooked -----

  /** A load or store is hooked if it is drawn, but in the function's own frame
      only if an address in it is taken; a counter read if the register it goes
      to is below x29; any other word as its form says. */
  lemma WantsRule(w: bv32, pc: bv64, tainted: bool, drawn: bool)
    ensures IsAccess(w) ==>
              Wants(w, pc, tainted, drawn)
              == if drawn && (tainted || (Rn(w) != 31 && Rn(w) != 29))
                then WantHook(Hook(pc, NoGuard, false, Replay(w)))
                 else Skip
    ensures IsCounterRead(w) ==> Wants(w, pc, tainted, drawn) == if Rt(w) < 29 then WantCounter(Rt(w)) else Skip
    ensures !IsAccess(w) && !IsCounterRead(w) ==>
              Wants(w, pc, tainted, drawn)
              == match HookFor(w, pc) case Some(h) => WantHook(h) case None => Skip
  {
    Accesses(w, pc);
    CounterReadIs(w, pc);
    RegisterFields(w);
    hide Decode, IsAccess, IsCounterRead, HookFor, Rn, Rt;
  }

  lemma RegisterFields(w: bv32)
    ensures Rn(w) == ((w >> 5) & 0x1F) as bv8 && Rt(w) == (w & 0x1F) as bv8
  {
  }

  /** The store and what retries it: a conditional branch right behind it, to it
      or further back */
  lemma RetryIs(cs: seq<Class>, start: bv64, i: nat)
    requires i < |cs|
    ensures RetryAt(cs, start, i)
            <==> i > 0 && cs[i - 1].ExclusiveStore? && (cs[i].Cbz? || cs[i].BCond?)
                 && Back(cs[i].target, Addr(start, i - 1))
  {
    hide Addr;
  }

  /** A span goes from an exclusive load to the next exclusive store, both
      included, or to the end of the function if there is none. */
  lemma SpanIs(cs: seq<Class>, start: bv64, i: nat)
    requires i < |cs|
    ensures Spanned(cs, start, i)
            <==> || cs[i].ExclusiveStore? || RetryAt(cs, start, i)
                 || exists j: nat :: j <= i && cs[j].ExclusiveLoad?
                                     && forall k: nat :: j < k <= i ==> !cs[k].ExclusiveStore?
  {
    SpannedIs(cs, start, i);
    hide Spanned, RetryAt;
    if Held(cs, i) {
      var j: nat :| j <= i && cs[j].ExclusiveLoad? && Unanswered(cs, j, i);
      assert forall k: nat :: j < k <= i ==> !cs[k].ExclusiveStore?;
    }
    if j: nat :| j <= i && cs[j].ExclusiveLoad? && forall k: nat :: j < k <= i ==> !cs[k].ExclusiveStore? {
      assert Unanswered(cs, j, i);
    }
  }

  lemma TaintIs(f: Fn)
    ensures Tainted(Classes(f)) <==> exists i :: 0 <= i < |f.words| && TakesStackAddr(f.words[i])
  {
    hide Decode, TakesStackAddr, Addr;
    forall i | 0 <= i < |f.words| ensures Classes(f)[i].StackAddr? <==> TakesStackAddr(f.words[i]) {
      StackAddrs(f.words[i], Addr(f.start, i));
    }
  }
}

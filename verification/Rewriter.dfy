/** The rewriter's builder: trampolines are written area by area, with
    backtracking (Builder in src/rewrite.rs), and the choice of sites. */
module Rewriter {
  import opened Wrappers
  import opened Arm
  import opened ArmMachine
  import opened Trampoline
  import opened Sites
  import opened CounterReads

  datatype Kind = Branch | Call | Load | Store | CounterRead

  datatype Site = Site(yieldPc: bv64, addr: bv64, kind: Kind)

  /** An area without a capacity grows as needed. */
  datatype Area = Area(base: bv64, capacity: Option<nat>, common: bv64, code: seq<bv32>)

  /** In most load and store encodings bit 22 says whether the instruction
      reads; the integer register forms have a two-bit opc. */
  predicate IsLoad(w: bv32) {
    if (w >> 27) & 7 == 7 && w & 0x0400_0000 == 0 then (w >> 22) & 3 != 0 else w & 0x0040_0000 != 0
  }

  function KindOf(h: Hook): Kind {
    match h.tail
    case Replay(w) => if IsLoad(w) then Load else Store
    case _ => if h.call then Call else Branch
  }

  // ----- Reach -----

  function TailLen(t: Tail, pc: bv64): nat {
    match t
    case Jump(target, _) => if EncB(pc, target).Some? then 1 else 3
    case Indirect(_) => 1
    case Replay(_) => 2
  }

  function StubLen(h: Hook, base: bv64, at: nat): nat {
    var g := GuardLen(h.guard);
    2 * g + 3 + TailLen(h.tail, Addr(base, at + g + 3))
  }

  predicate PatchReaches(h: Hook, start: bv64) {
    if h.call then EncBl(h.site, start).Some? else EncB(h.site, start).Some?
  }

  predicate TailReaches(t: Tail, site: bv64, base: bv64, i: nat) {
    match t
    case Jump(target, island) =>
      EncB(Addr(base, i), target).Some? || (island && EncAdrp(16, Addr(base, i), target).Some?)
    case Indirect(_) => true
    case Replay(_) => EncB(Addr(base, i + 1), Add(site, 4)).Some?
  }

  /** Every branch of the trampoline reaches, from word `at` of an area whose
      body is at word 0. */
  predicate InReach(h: Hook, base: bv64, at: nat) {
    var g := GuardLen(h.guard);
    && PatchReaches(h, Addr(base, at))
    && EncBl(Addr(base, at + g + 1), base).Some?
    && TailReaches(h.tail, h.site, base, at + g + 3)
    && (g == 1 ==> EncB(Addr(base, at + StubLen(h, base, at) - 1), Add(h.site, 4)).Some?)
  }

  predicate FitsIn(h: Hook, a: Area) {
    && InReach(h, a.base, |a.code|)
    && (a.capacity.Some? ==> (|a.code| + StubLen(h, a.base, |a.code|)) * 4 <= a.capacity.value)
  }

  lemma TailIsExact(t: Tail, site: bv64, base: bv64, i: nat, ws: seq<bv32>)
    requires IsTail(t, site, base, i, ws)
    ensures |ws| == TailLen(t, Addr(base, i)) && TailReaches(t, site, base, i)
  {
    hide EncB, EncAdrp, EncAddImm, EncBr, Low32, Add, Addr;
  }

  lemma CallWord(h: Hook, base: bv64, at: nat, ws: seq<bv32>)
    requires IsTrampoline(h, base, 0, at, ws)
    ensures EncBl(Addr(base, at + GuardLen(h.guard) + 1), base).Some?
  {
    assert Addr(base, 0) == base;
    hide IsGuard, IsTail, EncB, EncBl, Addr, Add;
  }

  lemma PatchWord(h: Hook, start: bv64, w: bv32)
    requires IsPatch(h, start, w)
    ensures PatchReaches(h, start)
  {
    hide EncB, EncBl;
  }

  lemma StubLenIs(h: Hook, base: bv64, at: nat, ws: seq<bv32>)
    requires IsTrampoline(h, base, 0, at, ws)
    ensures |ws| == StubLen(h, base, at) && TailReaches(h.tail, h.site, base, at + GuardLen(h.guard) + 3)
  {
    TailWords(h, base, 0, at, ws);
    hide IsTrampoline, IsTail, Addr, TailLen, EncB, EncAdrp, Add, TailReaches;
    var g: nat := GuardLen(h.guard);
    TailIsExact(h.tail, h.site, base, at + g + 3, ws[g + 3..|ws| - g]);
  }

  lemma InReachIs(h: Hook, base: bv64, at: nat, n: nat)
    requires n == StubLen(h, base, at) && n > 0
    requires PatchReaches(h, Addr(base, at)) && EncBl(Addr(base, at + GuardLen(h.guard) + 1), base).Some?
    requires TailReaches(h.tail, h.site, base, at + GuardLen(h.guard) + 3)
    requires !h.guard.NoGuard? ==> EncB(Addr(base, at + n - 1), Add(h.site, 4)).Some?
    ensures InReach(h, base, at)
  {
    hide StubLen, Addr, Add, EncB, EncBl, TailReaches, PatchReaches;
  }

  /** No trampoline exists where InReach fails, and all have the same length. */
  lemma ReachIsExact(h: Hook, base: bv64, at: nat, ws: seq<bv32>, w: bv32)
    requires IsTrampoline(h, base, 0, at, ws) && IsPatch(h, Addr(base, at), w)
    ensures InReach(h, base, at) && |ws| == StubLen(h, base, at)
  {
    hide *;
    StubLenIs(h, base, at, ws);
    CallWord(h, base, at, ws);
    PatchWord(h, Addr(base, at), w);
    TailWords(h, base, 0, at, ws);
    if !h.guard.NoGuard? {
      GuardWords(h, base, 0, at, ws);
    }
    InReachIs(h, base, at, |ws|);
  }

  /** A counter read's trampoline. */
  predicate CounterInReach(site: bv64, base: bv64, at: nat) {
    EncB(site, Addr(base, at)).Some? && EncB(Addr(base, at + 7), Add(site, 4)).Some?
  }

  predicate CounterFitsIn(site: bv64, a: Area) {
    && CounterInReach(site, a.base, |a.code|)
    && (a.capacity.Some? ==> (|a.code| + 8) * 4 <= a.capacity.value)
  }

  // ----- Short branches always encode -----

  lemma AddrPlus(base: bv64, at: nat, k: nat)
    ensures Addr(base, at + k) == Addr(Addr(base, at), k)
    decreases k
  {
    hide Add;
    if k > 0 {
      AddrPlus(base, at, k - 1);
    }
  }

  function Offset(k: nat): bv64 {
    if k == 0 then 0 else Offset(k - 1) + 4
  }

  lemma AddZero(a: bv64)
    ensures Add(a, 0) == a
  {}

  lemma AddMore(a: bv64, b: bv64, c: bv64)
    requires c == Add(a, b)
    ensures Add(c, 4) == Add(a, b + 4)
  {}

  lemma {:induction false} AddrIsOffset(a: bv64, k: nat)
    ensures Addr(a, k) == Add(a, Offset(k))
    decreases k
  {
    if k == 0 {
      AddZero(a);
    } else {
      AddrIsOffset(a, k - 1);
      var o := Offset(k - 1);
      assert Offset(k) == o + 4;
      assert Addr(a, k) == Add(Addr(a, k - 1), 4) by {
        hide Add;
      }
      hide *;
      AddMore(a, o, Addr(a, k - 1));
    }
  }

  lemma SmallOffsets()
    ensures Offset(2) == 8 && Offset(3) == 12 && Offset(5) == 20 && Offset(6) == 24 && Offset(7) == 28
  {
    assert Offset(1) == 4 && Offset(4) == 16;
  }

  /** The distance between two nearby words. */
  lemma Distance(base: bv64, at: nat, k: nat)
    ensures Sub(Addr(base, at + k), Addr(base, at)) == Offset(k)
  {
    AddrPlus(base, at, k);
    AddrIsOffset(Addr(base, at), k);
    hide Add, Sub, Addr, Offset;
    AddSub(Addr(base, at), Offset(k), Addr(base, at + k));
  }

  lemma NearFits(off: bv64)
    requires off == 8 || off == 12 || off == 20 || off == 24 || off == 28
    ensures Fits14(off) && Fits19(off)
  {}

  /** A guard's branch over its own trampoline and the branches inside the
      shared body always encode. */
  lemma ShortBranches(base: bv64, at: nat, k: nat, cond: bv8, sf: bool, rt: bv8, bit: bv8, nonzero: bool)
    requires k in {2, 3, 5, 6, 7}
    ensures EncBCond(cond, Addr(base, at), Addr(base, at + k)).Some?
    ensures EncCbz(sf, rt, nonzero, Addr(base, at), Addr(base, at + k)).Some?
    ensures EncTbz(rt, bit, nonzero, Addr(base, at), Addr(base, at + k)).Some?
  {
    Distance(base, at, k);
    SmallOffsets();
    NearFits(Offset(k));
    hide Addr, Offset, Sub, Fits14, Fits19, Fits26, Quarter, Low32, WordBCond, WordCbz, WordTbz;
  }

  lemma Backwards(a: bv64)
    ensures Add(Add(a, 28), 0 - 28) == a
  {}

  lemma BackFits()
    ensures Fits26(0 - 28)
  {}

  lemma LoopBack(base: bv64)
    ensures EncB(Addr(base, 13), Addr(base, 6)).Some?
  {
    AddrPlus(base, 6, 7);
    AddrIsOffset(Addr(base, 6), 7);
    SmallOffsets();
    Backwards(Addr(base, 6));
    BackFits();
    hide Add, Addr, Offset, Sub, Fits26, Quarter, Low32, WordB;
    AddSub(Addr(base, 13), 0 - 28, Addr(base, 6));
  }

  // ----- The builder -----

  /** What stands behind a patch: the hook, or the counter read, with the
      area and the words of its trampoline. */
  datatype Rec =
    | HookRec(hook: Hook, area: nat, from: nat, ws: seq<bv32>)
    | CounterRec(site: bv64, rt: bv8, area: nat, from: nat, ws: seq<bv32>)

  ghost predicate AreaOk(a: Area) {
    a.common == a.base && |a.code| >= 14 && IsCommon(a.base, 0, a.code[..14])
  }

  ghost predicate AreasOk(areas: seq<Area>) {
    forall i {:trigger areas[i]} :: 0 <= i < |areas| ==> AreaOk(areas[i])
  }

  /** The trampoline stands in its area, and the patch and the site entry are
      the ones it was made for. */
  ghost predicate RecOk(r: Rec, areas: seq<Area>, patch: (bv64, bv32), site: Site) {
    && r.area < |areas|
    && var a := areas[r.area];
    && r.from + |r.ws| <= |a.code| && a.code[r.from..r.from + |r.ws|] == r.ws
    && match r
       case HookRec(h, _, from, ws) =>
         && IsTrampoline(h, a.base, 0, from, ws)
         && patch.0 == h.site && IsPatch(h, Addr(a.base, from), patch.1)
         && site == Site(Addr(a.base, from + GuardLen(h.guard) + 2), h.site, KindOf(h))
       case CounterRec(s, rt, _, from, ws) =>
         && IsCounterStub(s, rt, a.base, from, ws)
         && patch.0 == s && EncB(s, Addr(a.base, from)) == Some(patch.1)
         && site == Site(Addr(a.base, from + 5), s, CounterRead)
  }

  ghost predicate RecsOk(recs: seq<Rec>, areas: seq<Area>, patches: seq<(bv64, bv32)>, sites: seq<Site>) {
    && |recs| == |patches| == |sites|
    && forall k {:trigger recs[k]} :: 0 <= k < |recs| ==> RecOk(recs[k], areas, patches[k], sites[k])
  }

  /** Area i with more words. */
  function Extended(areas: seq<Area>, i: nat, ws: seq<bv32>): seq<Area>
    requires i < |areas|
  {
    areas[i := areas[i].(code := areas[i].code + ws)]
  }

  lemma ExtendedIs(areas: seq<Area>, i: nat, ws: seq<bv32>)
    requires i < |areas|
    ensures var now := Extended(areas, i, ws);
            && |now| == |areas| && now[i] == areas[i].(code := areas[i].code + ws)
            && |now[i].code| == |areas[i].code| + |ws| && now[i].base == areas[i].base
            && now[i].common == areas[i].common && now[i].capacity == areas[i].capacity
  {}

  lemma ExtendedMore(areas: seq<Area>, i: nat, ws: seq<bv32>, more: seq<bv32>)
    requires i < |areas|
    ensures i < |Extended(areas, i, ws)|
    ensures Extended(Extended(areas, i, ws), i, more) == Extended(areas, i, ws + more)
  {
    assert areas[i].code + ws + more == areas[i].code + (ws + more);
  }

  lemma ExtendedNone(areas: seq<Area>, i: nat)
    requires i < |areas|
    ensures Extended(areas, i, []) == areas
  {
    assert areas[i].code + [] == areas[i].code;
  }

  lemma ExtendedPut(areas: seq<Area>, i: nat, ws: seq<bv32>, k: nat, w: bv32)
    requires i < |areas| && |areas[i].code| <= k < |areas[i].code| + |ws|
    ensures var now := Extended(areas, i, ws);
            i < |now| && k < |now[i].code|
            && now[i := now[i].(code := now[i].code[k := w])] == Extended(areas, i, ws[k - |areas[i].code| := w])
  {
    assert (areas[i].code + ws)[k := w] == areas[i].code + ws[k - |areas[i].code| := w];
  }

  /** ws has been written to area i, and nothing else. */
  ghost predicate Wrote(was: seq<Area>, i: nat, now: seq<Area>, ws: seq<bv32>) {
    i < |was| && now == Extended(was, i, ws)
  }

  lemma WroteNone(was: seq<Area>, i: nat)
    requires i < |was|
    ensures Wrote(was, i, was, [])
  {
    ExtendedNone(was, i);
  }

  lemma WroteAt(was: seq<Area>, i: nat, now: seq<Area>, ws: seq<bv32>)
    requires Wrote(was, i, now, ws)
    ensures i < |was| && i < |now| && now[i].base == was[i].base && now[i].common == was[i].common
    ensures now[i].capacity == was[i].capacity && |now[i].code| == |was[i].code| + |ws|
  {
    ExtendedIs(was, i, ws);
  }

  lemma WroteMore(was: seq<Area>, i: nat, mid: seq<Area>, ws: seq<bv32>, now: seq<Area>, more: seq<bv32>)
    requires Wrote(was, i, mid, ws) && Wrote(mid, i, now, more)
    ensures Wrote(was, i, now, ws + more)
  {
    ExtendedMore(was, i, ws, more);
  }

  lemma WrotePut(was: seq<Area>, i: nat, now: seq<Area>, ws: seq<bv32>, k: nat, w: bv32)
    requires Wrote(was, i, now, ws) && k == |was[i].code| && |ws| > 0
    ensures i < |now| && k < |now[i].code|
    ensures Wrote(was, i, now[i := now[i].(code := now[i].code[k := w])], ws[0 := w])
  {
    ExtendedPut(was, i, ws, k, w);
  }

  /** Taking back what was written. */
  lemma ExtendedBack(areas: seq<Area>, i: nat, ws: seq<bv32>)
    requires i < |areas|
    ensures var now := Extended(areas, i, ws);
            i < |now| && |areas[i].code| <= |now[i].code|
            && now[i := now[i].(code := now[i].code[..|areas[i].code|])] == areas
  {
    assert (areas[i].code + ws)[..|areas[i].code|] == areas[i].code;
  }

  lemma ExtendedGrew(areas: seq<Area>, i: nat, ws: seq<bv32>)
    requires i < |areas|
    ensures OnlyGrew(areas, Extended(areas, i, ws), i)
    ensures Extended(areas, i, ws)[i].code[|areas[i].code|..|areas[i].code| + |ws|] == ws
  {}

  /** b is a with more words at the end of its code. */
  ghost predicate Grew(a: Area, b: Area) {
    b == a.(code := b.code) && |a.code| <= |b.code| && forall k {:trigger b.code[k]} :: 0 <= k < |a.code| ==>
      b.code[k] == a.code[k]
  }

  /** Only area i may differ, and only by having grown. */
  ghost predicate OnlyGrew(as0: seq<Area>, as1: seq<Area>, i: nat) {
    && |as0| == |as1| && i < |as0| && Grew(as0[i], as1[i])
    && forall k {:trigger as1[k]} :: 0 <= k < |as0| && k != i ==> as1[k] == as0[k]
  }

  lemma GrewSlice(a: Area, b: Area, lo: nat, hi: nat)
    requires Grew(a, b) && lo <= hi <= |a.code|
    ensures b.code[lo..hi] == a.code[lo..hi]
  {}

  /** Appending to an area disturbs nothing that stands. */
  lemma AreasStand(as0: seq<Area>, as1: seq<Area>, i: nat)
    requires OnlyGrew(as0, as1, i) && AreasOk(as0)
    ensures AreasOk(as1)
  {
    hide IsCommon;
    forall j {:trigger as1[j]} | 0 <= j < |as1| ensures AreaOk(as1[j]) {
      assert AreaOk(as0[j]);
      if j == i {
        GrewSlice(as0[j], as1[j], 0, 14);
      }
    }
  }

  lemma RecStands(r: Rec, as0: seq<Area>, as1: seq<Area>, i: nat, patch: (bv64, bv32), site: Site)
    requires OnlyGrew(as0, as1, i) && RecOk(r, as0, patch, site)
    ensures RecOk(r, as1, patch, site)
  {
    hide IsTrampoline, IsPatch, IsCounterStub, Addr, EncB, Grew;
    if r.area == i {
      GrewSlice(as0[i], as1[i], r.from, r.from + |r.ws|);
      GrewBase(as0[i], as1[i]);
    }
  }

  lemma GrewBase(a: Area, b: Area)
    requires Grew(a, b)
    ensures b.base == a.base && b.common == a.common && b.capacity == a.capacity && |a.code| <= |b.code|
  {}

  lemma RecsStand(recs: seq<Rec>, as0: seq<Area>, as1: seq<Area>, patches: seq<(bv64, bv32)>, sites: seq<Site>, i: nat)
    requires OnlyGrew(as0, as1, i) && RecsOk(recs, as0, patches, sites)
    ensures RecsOk(recs, as1, patches, sites)
  {
    hide RecOk, OnlyGrew;
    forall k {:trigger recs[k]} | 0 <= k < |recs| ensures RecOk(recs[k], as1, patches[k], sites[k]) {
      RecStands(recs[k], as0, as1, i, patches[k], sites[k]);
    }
  }

  lemma RecsGrow(recs: seq<Rec>, areas: seq<Area>, patches: seq<(bv64, bv32)>, sites: seq<Site>,
                 r: Rec, p: (bv64, bv32), s: Site)
    requires RecsOk(recs, areas, patches, sites) && RecOk(r, areas, p, s)
    ensures RecsOk(recs + [r], areas, patches + [p], sites + [s])
  {
    hide RecOk;
  }

  /** The areas before anything is written: the segment, then the rooms. */
  function Blank(segment: bv64, rooms: seq<(bv64, nat)>): seq<Area> {
    [Area(segment, None, 0, [])] + seq(|rooms|,
      i requires 0 <= i < |rooms| => Area(rooms[i].0, Some(rooms[i].1), 0, []))
  }

  lemma BlankIs(segment: bv64, rooms: seq<(bv64, nat)>)
    ensures |Blank(segment, rooms)| == 1 + |rooms|
    ensures forall j {:trigger Blank(segment, rooms)[j]} :: 0 <= j <= |rooms| ==> Blank(segment, rooms)[j].code == []
  {}

  /** The areas with nothing in them but the shared body. */
  ghost predicate Started(areas: seq<Area>, segment: bv64, rooms: seq<(bv64, nat)>) {
    && |areas| == 1 + |rooms| && areas[0].base == segment && areas[0].capacity == None
    && (forall i :: 0 <= i < |rooms| ==> areas[i + 1].base == rooms[i].0 && areas[i + 1].capacity == Some(rooms[i].1))
    && (forall i :: 0 <= i < |areas| ==> |areas[i].code| == 14)
  }

  /** The shared body stands in the first n areas; the rest are as they were. */
  ghost predicate Begun(was: seq<Area>, now: seq<Area>, n: nat) {
    && |was| == |now|
    && (forall j {:trigger now[j]} :: 0 <= j < |now| ==>
         now[j].base == was[j].base && now[j].capacity == was[j].capacity)
    && (forall j {:trigger now[j]} :: 0 <= j < |now| && j < n ==> AreaOk(now[j]) && |now[j].code| == 14)
    && (forall j {:trigger now[j]} :: n <= j < |now| ==> now[j] == was[j])
  }

  lemma StartedOk(was: seq<Area>, now: seq<Area>, segment: bv64, rooms: seq<(bv64, nat)>)
    requires was == Blank(segment, rooms) && Begun(was, now, |now|)
    ensures Started(now, segment, rooms) && BooksOk(Books(now, [], [], [])) && |now| > 0
  {
    hide AreaOk, RecOk;
    assert |was| == 1 + |rooms|;
    forall i | 0 <= i < |rooms| ensures now[i + 1].base == rooms[i].0 && now[i + 1].capacity == Some(rooms[i].1) {
      assert was[i + 1] == Area(rooms[i].0, Some(rooms[i].1), 0, []);
    }
  }

  class Builder {
    /** In the order they are filled. */
    var areas: seq<Area>
    /** The area being written. */
    var at: nat
    /** How many sites had every area out of reach. */
    var unreachable: nat
    var patches: seq<(bv64, bv32)>
    var sites: seq<Site>
    ghost var recs: seq<Rec>

    ghost predicate Valid()
      reads this
    {
      |areas| > 0 && at == 0 && BooksOk(Shown())
    }

    /** Every area starts with its own copy of the shared body. */
    constructor (segment: bv64, rooms: seq<(bv64, nat)>)
      ensures Valid() && Started(areas, segment, rooms) && recs == [] && unreachable == 0
    {
      hide *;
      areas := Blank(segment, rooms);
      at, unreachable := 0, 0;
      patches, sites, recs := [], [], [];
      new;
      Start(segment, rooms);
    }

    method Start(segment: bv64, rooms: seq<(bv64, nat)>)
      requires areas == Blank(segment, rooms) && patches == [] && sites == [] && recs == []
      modifies this`areas, this`at
      ensures Valid() && Started(areas, segment, rooms)
    {
      hide *;
      BlankIs(segment, rooms);
      EmitCommons();
      StartedOk(Blank(segment, rooms), areas, segment, rooms);
      ValidIs();
    }

    method EmitCommons()
      requires |areas| > 0 && forall j {:trigger areas[j]} :: 0 <= j < |areas| ==> areas[j].code == []
      modifies this`areas, this`at
      ensures at == 0 && Begun(old(areas), areas, |areas|)
    {
      hide AreaOk;
      ghost var was := areas;
      for i := 0 to |areas|
        invariant |areas| == |was| && Begun(was, areas, i)
      {
        at := i;
        EmitCommon();
      }
      at := 0;
    }

    function Pc(): bv64
      requires at < |areas|
      reads this
    {
      Addr(areas[at].base, |areas[at].code|)
    }

    method Emit(w: bv32)
      requires at < |areas|
      modifies this`areas
      ensures |areas| == |old(areas)| && forall i :: 0 <= i < |areas| && i != at ==> areas[i] == old(areas[i])
      ensures areas[at] == old(areas[at]).(code := areas[at].code) && |areas[at].code| == |old(areas[at].code)| + 1
      ensures areas[at].code[|old(areas[at].code)|] == w
      ensures forall k :: 0 <= k < |old(areas[at].code)| ==> areas[at].code[k] == old(areas[at].code)[k]
    {
      areas := areas[at := areas[at].(code := areas[at].code + [w])];
    }

    /** Several words in a row. */
    method EmitAll(ws: seq<bv32>)
      requires at < |areas|
      modifies this`areas
      ensures |areas| == |old(areas)| && forall i :: 0 <= i < |areas| && i != at ==> areas[i] == old(areas[i])
      ensures areas[at] == old(areas[at]).(code := old(areas[at].code) + ws)
      ensures Wrote(old(areas), at, areas, ws)
    {
      for i := 0 to |ws|
        invariant |areas| == |old(areas)| && at < |areas| && forall j :: 0 <= j < |areas| && j != at ==>
          areas[j] == old(areas[j])
        invariant areas[at] == old(areas[at]).(code := old(areas[at].code) + ws[..i])
      {
        Emit(ws[i]);
        assert areas[at].code == old(areas[at].code) + ws[..i + 1];
      }
      assert ws[..|ws|] == ws;
    }

    method Put(i: nat, w: bv32)
      requires at < |areas| && i < |areas[at].code|
      modifies this`areas
      ensures |areas| == |old(areas)| && forall k :: 0 <= k < |areas| && k != at ==> areas[k] == old(areas[k])
      ensures areas[at] == old(areas[at]).(code := old(areas[at].code)[i := w])
    {
      areas := areas[at := areas[at].(code := areas[at].code[i := w])];
    }

    /** The shared body, written at the start of an area. */
    method EmitCommon()
      requires at < |areas| && areas[at].code == []
      modifies this`areas
      ensures |areas| == |old(areas)| && forall i :: 0 <= i < |areas| && i != at ==> areas[i] == old(areas[i])
      ensures areas[at].base == old(areas[at].base) && areas[at].capacity == old(areas[at].capacity)
      ensures AreaOk(areas[at]) && |areas[at].code| == 14
    {
      AddrZero(areas[at].base);
      assert Pc() == areas[at].base;
      areas := areas[at := areas[at].(common := Pc())];
      hide *;
      EmitBody();
    }

    method EmitBody()
      requires at < |areas| && areas[at].code == [] && areas[at].common == areas[at].base
      modifies this`areas
      ensures |areas| == |old(areas)| && forall i :: 0 <= i < |areas| && i != at ==> areas[i] == old(areas[i])
      ensures areas[at] == old(areas[at]).(code := areas[at].code) && AreaOk(areas[at]) && |areas[at].code| == 14
    {
      hide *;
      ghost var base := areas[at].base;
      var count := EmitCount();
      assert |count| == 5 && areas[at].base == base;
      var check := EmitCheck(count, 5);
      ghost var head := count + [check, LDP_X0_X1_POST, RET];
      assert areas[at].code == head && areas[at].base == base;
      var look := EmitLook(head);
      ghost var front := head + [STR_X30_PRE, EncLdr(0, 0, SLOT_OFFSET), look, BLR_X0];
      assert areas[at].code == front && areas[at].base == base;
      var back := EmitBack(front, Addr(areas[at].base, 6));
      assert areas[at].code == front + [LDR_X30_POST, back] && areas[at].base == base;
      CommonOk(base, areas[at], count, check, look, back);
    }

    /** Counting the event. */
    method EmitCount() returns (count: seq<bv32>)
      requires at < |areas| && areas[at].code == []
      modifies this`areas
      ensures |areas| == |old(areas)| && forall i :: 0 <= i < |areas| && i != at ==> areas[i] == old(areas[i])
      ensures areas[at] == old(areas[at]).(code := count)
      ensures EncMovz(0, STUB_BASE).Some?
      ensures count == [STP_X0_X1_PRE, EncMovz(0, STUB_BASE).value, EncLdr(1, 0, COUNTER_OFFSET), SUB_X1_X1_1,
                        EncStr(1, 0, COUNTER_OFFSET)]
    {
      MovzBaseFits();
      hide *;
      count := [STP_X0_X1_PRE, EncMovz(0, STUB_BASE).value, EncLdr(1, 0, COUNTER_OFFSET), SUB_X1_X1_1,
                EncStr(1, 0, COUNTER_OFFSET)];
      EmitAll(count);
      assert areas[at].code == count;
    }

    /** The check, filled in once the way out is written. */
    method EmitCheck(count: seq<bv32>, cbzAt: nat) returns (check: bv32)
      requires at < |areas| && areas[at].code == count && |count| == 5 && cbzAt == 5
      modifies this`areas
      ensures |areas| == |old(areas)| && forall i :: 0 <= i < |areas| && i != at ==> areas[i] == old(areas[i])
      ensures EncCbz(true, 1, false, Addr(areas[at].base, 5), Addr(areas[at].base, 8)) == Some(check)
      ensures areas[at] == old(areas[at]).(code := count + [check, LDP_X0_X1_POST, RET])
    {
      hide *;
      ghost var base := areas[at].base;
      EmitAll([0]);
      EmitAll([LDP_X0_X1_POST, RET]);
      var expired := Addr(areas[at].base, |areas[at].code|);
      assert expired == Addr(base, 5 + 3);
      assert count + [0] + [LDP_X0_X1_POST, RET] == count + [0, LDP_X0_X1_POST, RET];
      ShortBranches(base, 5, 3, 0, true, 1, 0, false);
      check := EncCbz(true, 1, false, Addr(areas[at].base, cbzAt), expired).value;
      Put(cbzAt, check);
      assert (count + [0, LDP_X0_X1_POST, RET])[5 := check] == count + [check, LDP_X0_X1_POST, RET];
    }

    /** The expired path, up to the call. */
    method EmitLook(ghost head: seq<bv32>) returns (look: bv32)
      requires at < |areas| && areas[at].code == head && |head| == 8
      modifies this`areas
      ensures |areas| == |old(areas)| && forall i :: 0 <= i < |areas| && i != at ==> areas[i] == old(areas[i])
      ensures EncCbz(true, 0, false, Addr(areas[at].base, 10), Addr(areas[at].base, 12)) == Some(look)
      ensures areas[at] == old(areas[at]).(code := head + [STR_X30_PRE, EncLdr(0, 0, SLOT_OFFSET), look, BLR_X0])
    {
      hide *;
      ghost var base := areas[at].base;
      EmitAll([STR_X30_PRE, EncLdr(0, 0, SLOT_OFFSET)]);
      var skipAt := |areas[at].code|;
      EmitAll([0, BLR_X0]);
      ghost var push, load := STR_X30_PRE, EncLdr(0, 0, SLOT_OFFSET);
      assert head + [push, load] + [0, BLR_X0] == head + [push, load, 0, BLR_X0];
      var skip := Addr(areas[at].base, |areas[at].code|);
      assert skipAt == 10 && skip == Addr(base, 10 + 2);
      ShortBranches(base, 10, 2, 0, true, 0, 0, false);
      look := EncCbz(true, 0, false, Addr(areas[at].base, skipAt), skip).value;
      Put(skipAt, look);
      assert (head + [push, load, 0, BLR_X0])[10 := look] == head + [push, load, look, BLR_X0];
    }

    /** And back to the way out. */
    method EmitBack(ghost front: seq<bv32>, resume: bv64) returns (back: bv32)
      requires at < |areas| && areas[at].code == front && |front| == 12 && resume == Addr(areas[at].base, 6)
      modifies this`areas
      ensures |areas| == |old(areas)| && forall i :: 0 <= i < |areas| && i != at ==> areas[i] == old(areas[i])
      ensures EncB(Addr(areas[at].base, 13), Addr(areas[at].base, 6)) == Some(back)
      ensures areas[at] == old(areas[at]).(code := front + [LDR_X30_POST, back])
    {
      hide *;
      ghost var base := areas[at].base;
      EmitAll([LDR_X30_POST]);
      var pc := Addr(areas[at].base, |areas[at].code|);
      assert pc == Addr(base, 13);
      LoopBack(base);
      back := EncB(pc, resume).value;
      EmitAll([back]);
      assert front + [LDR_X30_POST] + [back] == front + [LDR_X30_POST, back];
    }

    /** The tail, after the word at the end of the code; false when it does not
        reach. */
    method EmitTail(t: Tail, site: bv64) returns (ok: bool, ghost ws: seq<bv32>)
      requires at < |areas|
      modifies this`areas
      ensures Wrote(old(areas), at, areas, ws)
      ensures TailDone(t, site, old(areas[at].base), |old(areas[at].code)|, ok, ws)
    {
      ghost var was := areas;
      ghost var base, i := areas[at].base, |areas[at].code|;
      WroteNone(was, at);
      hide Wrote, Addr, EncB, EncAdrp, EncAddImm, EncBr, Low32, Add;
      match t {
        case Jump(target, island) =>
          var near := EncB(Pc(), target);
          if near.Some? {
            ws := [near.value];
            EmitAll([near.value]);
            return true, ws;
          }
          if !island {
            return false, [];
          }
          var page := EncAdrp(16, Pc(), target);
          if page.None? {
            return false, [];
          }
          var words := [page.value, EncAddImm(16, 16, Low32(target & 0xFFF)), EncBr(16)];
          ws := words;
          EmitAll(words);
          return true, ws;
        case Indirect(rn) =>
          ws := [EncBr(rn)];
          EmitAll([EncBr(rn)]);
          return true, ws;
        case Replay(word) =>
          ok, ws := EmitReplay(word, site);
      }
    }

    method EmitReplay(word: bv32, site: bv64) returns (ok: bool, ghost ws: seq<bv32>)
      requires at < |areas|
      modifies this`areas
      ensures Wrote(old(areas), at, areas, ws)
      ensures TailDone(Replay(word), site, old(areas[at].base), |old(areas[at].code)|, ok, ws)
    {
      ghost var was := areas;
      ghost var base, i := areas[at].base, |areas[at].code|;
      hide *;
      EmitAll([word]);
      ghost var mid := areas;
      WroteAt(was, at, mid, [word]);
      var back := EncB(Addr(areas[at].base, |areas[at].code|), Add(site, 4));
      ReplayDone(word, site, base, i, back);
      if back.None? {
        return false, [word];
      }
      EmitAll([back.value]);
      WroteMore(was, at, mid, [word], areas, [back.value]);
      ws := [word] + [back.value];
      ok := true;
    }

    /** The guard's place, the push, the call of the shared body and the pop;
        false when the body is out of reach. */
    method EmitHead(h: Hook) returns (ok: bool, yieldPc: bv64, ghost call: bv32, ghost ws: seq<bv32>)
      requires at < |areas| && areas[at].common == areas[at].base
      modifies this`areas
      ensures Wrote(old(areas), at, areas, ws)
      ensures HeadDone(h, old(areas[at].base), |old(areas[at].code)|, ok, yieldPc, call, ws)
    {
      ghost var was := areas;
      ghost var base, from: nat := areas[at].base, |areas[at].code|;
      hide *;
      ws := EmitPush(h.guard);
      ghost var mid := areas;
      WroteAt(was, at, mid, ws);
      var w := EncBl(Addr(areas[at].base, |areas[at].code|), areas[at].common);
      HeadFails(h, base, from, w, ws);
      if w.None? {
        return false, 0, 0, ws;
      }
      yieldPc := Addr(areas[at].base, |areas[at].code| + 1);
      call := w.value;
      EmitAll([w.value, LDR_X30_POST]);
      WroteMore(was, at, mid, ws, areas, [call, LDR_X30_POST]);
      HeadIs(h, base, from, call, yieldPc, ws);
      ws := ws + [call, LDR_X30_POST];
      ok := true;
    }

    method EmitPush(g: Guard) returns (ghost ws: seq<bv32>)
      requires at < |areas|
      modifies this`areas
      ensures Wrote(old(areas), at, areas, ws) && ws == Place(g) + [STR_X30_PRE]
    {
      ghost var was := areas;
      hide Wrote;
      WroteNone(was, at);
      if !g.NoGuard? {
        EmitAll([0]);
      }
      ghost var mid := areas;
      WroteAt(was, at, mid, Place(g));
      EmitAll([STR_X30_PRE]);
      WroteMore(was, at, mid, Place(g), areas, [STR_X30_PRE]);
      ws := Place(g) + [STR_X30_PRE];
    }

    /** The guard, filled in, and the branch past the site for the way it does
        not take; false when that does not reach. */
    method EmitGuard(h: Hook, guardAt: nat, ghost was: seq<Area>, ghost now: seq<bv32>)
      returns (ok: bool, ghost w: bv32, ghost back: bv32, ghost ws: seq<bv32>)
      requires Wrote(was, at, areas, now) && guardAt == |was[at].code|
      requires !h.guard.NoGuard? && |now| in {5, 6, 7}
      modifies this`areas
      ensures Wrote(was, at, areas, ws)
      ensures GuardDone(h, was[at].base, guardAt, now, ok, w, back, ws)
    {
      ghost var base := was[at].base;
      ghost var len: nat := |now|;
      hide *;
      WroteAt(was, at, areas, now);
      var past := Addr(areas[at].base, |areas[at].code|);
      var word := GuardWord(h.guard, base, guardAt, len, Addr(areas[at].base, guardAt), past);
      w := word;
      WrotePut(was, at, areas, now, guardAt, w);
      areas := areas[at := areas[at].(code := areas[at].code[guardAt := word])];
      ws := now[0 := w];
      ghost var mid := areas;
      WroteAt(was, at, mid, ws);
      var b := EncB(past, Add(h.site, 4));
      GuardIs(h, base, guardAt, now, past, w, b);
      if b.None? {
        return false, w, 0, ws;
      }
      back := b.value;
      EmitAll([b.value]);
      WroteMore(was, at, mid, ws, areas, [back]);
      ws := ws + [back];
      ok := true;
    }

    /** The tail and the guard; false when either does not reach. */
    method Finish(h: Hook, from: nat, yieldPc: bv64, ghost was: seq<Area>, ghost call: bv32, ghost head: seq<bv32>)
      returns (ok: bool, ghost ws: seq<bv32>)
      requires Wrote(was, at, areas, head) && from == |was[at].code|
      requires HeadDone(h, was[at].base, from, true, yieldPc, call, head)
      modifies this`areas, this`sites
      ensures Wrote(was, at, areas, ws)
      ensures FinishDone(h, was[at].base, from, ok, ws, old(sites), sites)
    {
      ghost var base := was[at].base;
      hide *;
      HeadParts(h, base, from, yieldPc, call, head);
      WroteAt(was, at, areas, head);
      ghost var mid := areas;
      ghost var tail;
      ok, tail := EmitTail(h.tail, h.site);
      WroteMore(was, at, mid, head, areas, tail);
      ws := head + tail;
      if !ok {
        TailFailed(h, base, from, tail, ws, sites);
        return;
      }
      sites := sites + [Site(yieldPc, h.site, KindOf(h))];
      TailWorked(h, base, from, yieldPc, call, head, tail, old(sites));
      if !h.guard.NoGuard? {
        ghost var gw, back, now := 0, 0, ws;
        ok, gw, back, ws := EmitGuard(h, from, was, ws);
        GuardWorked(h, base, from, yieldPc, call, head, tail, old(sites), ok, gw, back, ws);
      }
    }

    /** One trampoline in the current area, with its patch and its site entry;
        false, possibly having written part of it, when it does not reach. */
    method StubOrFar(h: Hook) returns (ok: bool, ghost ws: seq<bv32>, ghost patch: bv32)
      requires at < |areas| && areas[at].common == areas[at].base
      modifies this`areas, this`patches, this`sites
      ensures Wrote(old(areas), at, areas, ws)
      ensures StubDone(h, old(areas[at].base), |old(areas[at].code)|, ok, ws, patch, old(patches), patches, old(sites),
        sites)
    {
      ghost var was := areas;
      ghost var base := areas[at].base;
      var from := |areas[at].code|;
      var start := Addr(areas[at].base, |areas[at].code|);
      WroteNone(was, at);
      hide *;
      var word := if h.call then EncBl(h.site, start) else EncB(h.site, start);
      PatchFails(h, base, from, start, word, patches, sites);
      if word.None? {
        return false, [], 0;
      }
      patch := word.value;
      patches := patches + [(h.site, word.value)];
      var yieldPc;
      ghost var call, head;
      ok, yieldPc, call, head := EmitHead(h);
      ws := head;
      if ok {
        ok, ws := Finish(h, from, yieldPc, was, call, head);
        StubIs(h, base, from, word, call, yieldPc, head, ok, ws, old(patches), old(sites), sites);
      } else {
        HeadFailed(h, base, from, word, call, yieldPc, head, old(patches), old(sites));
      }
    }

    ghost function Shown(): Books
      reads this
    {
      Books(areas, recs, patches, sites)
    }

    /** One attempt in area `area`: all or nothing. */
    method TryStub(h: Hook, area: nat) returns (ok: bool, ghost ws: seq<bv32>)
      requires BooksOk(Shown()) && area < |areas|
      modifies this
      ensures Tried(h, area, old(Shown()), ok, ws, Shown())
      ensures at == area && unreachable == old(unreachable)
    {
      hide *;
      ghost var b0 := Books(areas, recs, patches, sites);
      ShownIs();
      CommonAtBase(b0, area);
      at := area;
      var mark, patchMark, siteMark := |areas[at].code|, |patches|, |sites|;
      ghost var patch;
      ok, ws, patch := StubOrFar(h);
      ghost var reached := ok;
      WroteAt(b0.areas, area, areas, ws);
      ok := ok && (areas[at].capacity.None? || |areas[at].code| * 4 <= areas[at].capacity.value);
      Settle(h, b0, reached, ok, mark, patchMark, siteMark, ws, patch);
    }

    /** What an attempt leaves: a record, or nothing. */
    method Settle(h: Hook, ghost b0: Books, ghost reached: bool, ok: bool, mark: nat, patchMark: nat, siteMark: nat,
                  ghost ws: seq<bv32>, ghost patch: bv32)
      requires at < |b0.areas| && BooksOk(b0) && Wrote(b0.areas, at, areas, ws) && recs == b0.recs
      requires mark == |b0.areas[at].code| && patchMark == |b0.patches| && siteMark == |b0.sites|
      requires var a := b0.areas[at];
               StubDone(h, a.base, |a.code|, reached, ws, patch, b0.patches, patches, b0.sites, sites)
               && ok == (reached && (a.capacity.None? || (|a.code| + |ws|) * 4 <= a.capacity.value))
      modifies this`areas, this`patches, this`sites, this`recs
      ensures Tried(h, at, b0, ok, ws, Shown())
    {
      hide *;
      TakenBack(h, at, b0, areas, reached, ok, ws, patch, patches, sites);
      if ok {
        WellTried(h, at, b0, areas, ws, patch, patches, sites);
        recs := recs + [HookRec(h, at, mark, ws)];
      } else {
        NotTried(h, at, b0, ws);
        areas := areas[at := areas[at].(code := areas[at].code[..mark])];
        patches := patches[..patchMark];
        sites := sites[..siteMark];
      }
      ShownIs();
    }

    lemma ValidIs()
      requires |areas| > 0 && at == 0 && BooksOk(Books(areas, recs, patches, sites))
      ensures Valid()
    {
      hide BooksOk;
    }

    lemma ShownIs()
      ensures Shown() == Books(areas, recs, patches, sites)
    {}

    /** The first area that takes the trampoline gets it; when none does, the
        site is left alone and nothing is changed but the count of such sites. */
    method Stub(h: Hook) returns (ok: bool, ghost where: nat, ghost ws: seq<bv32>)
      requires Valid()
      modifies this
      ensures Valid()
      ensures ok <==> exists a :: 0 <= a < |old(areas)| && FitsIn(h, old(areas)[a])
      ensures ok ==> where < |old(areas)| && FitsIn(h, old(areas)[where])
                     && (forall b :: 0 <= b < where ==> !FitsIn(h, old(areas)[b]))
                     && areas == Extended(old(areas), where, ws)
                     && recs == old(recs) + [HookRec(h, where, |old(areas)[where].code|, ws)]
                     && unreachable == old(unreachable)
      ensures !ok ==> Shown() == old(Shown()) && unreachable == old(unreachable) + 1
    {
      hide FitsIn, BooksOk, Extended;
      var area := 0;
      ghost var b0 := Shown();
      while area < |areas|
        invariant area <= |areas| && Shown() == b0 && BooksOk(b0) && unreachable == old(unreachable)
        invariant forall b :: 0 <= b < area ==> !FitsIn(h, areas[b])
      {
        ok, ws := TryStub(h, area);
        if ok {
          where := area;
          at := 0;
          ExtendedIs(old(areas), area, ws);
          return;
        }
        area := area + 1;
      }
      at := 0;
      unreachable := unreachable + 1;
      ok, where, ws := false, 0, [];
    }

    /** A counter read's trampoline in the current area. */
    method CounterOrFar(site: bv64, rt: bv8) returns (ok: bool, ghost ws: seq<bv32>, ghost patch: bv32)
      requires at < |areas|
      modifies this`areas, this`patches, this`sites
      ensures Wrote(old(areas), at, areas, ws)
      ensures CounterDone(site, rt, old(areas[at].base), |old(areas[at].code)|, ok, ws, patch,
                          old(patches), patches, old(sites), sites)
    {
      ghost var was := areas;
      ghost var base := areas[at].base;
      ghost var from: nat := |areas[at].code|;
      var start := Addr(areas[at].base, |areas[at].code|);
      WroteNone(was, at);
      MovzBaseFits();
      hide *;
      var word := EncB(site, start);
      CounterFails(site, rt, base, from, word, patches, sites);
      if word.None? {
        return false, [], 0;
      }
      patch := word.value;
      patches := patches + [(site, word.value)];
      var yieldPc := Addr(areas[at].base, |areas[at].code| + 5);
      var movz := EncMovz(0, STUB_BASE).value;
      var words :=
        [STR_X30_PRE, STP_X0_X1_PRE, movz, EncLdr(1, 0, COUNTER_ENTRY_OFFSET), BLR_X1, rt as bv32, LDR_X30_POST];
      EmitAll(words);
      ws := words;
      ghost var mid := areas;
      WroteAt(was, at, mid, ws);
      var back := EncB(Addr(areas[at].base, |areas[at].code|), Add(site, 4));
      CounterEnds(site, rt, base, from, word.value, movz, back, old(patches), sites);
      if back.None? {
        return false, ws, patch;
      }
      EmitAll([back.value]);
      WroteMore(was, at, mid, ws, areas, [back.value]);
      ws := words + [back.value];
      sites := sites + [Site(yieldPc, site, CounterRead)];
      ok := true;
    }

    method TryCounter(site: bv64, rt: bv8, area: nat) returns (ok: bool, ghost ws: seq<bv32>)
      requires BooksOk(Shown()) && area < |areas|
      modifies this
      ensures CounterTried(site, rt, area, old(Shown()), ok, ws, Shown())
      ensures at == area && unreachable == old(unreachable)
    {
      hide *;
      ghost var b0 := Books(areas, recs, patches, sites);
      ShownIs();
      at := area;
      var mark, patchMark, siteMark := |areas[at].code|, |patches|, |sites|;
      ghost var patch;
      ok, ws, patch := CounterOrFar(site, rt);
      ghost var reached := ok;
      WroteAt(b0.areas, area, areas, ws);
      ok := ok && (areas[at].capacity.None? || |areas[at].code| * 4 <= areas[at].capacity.value);
      SettleCounter(site, rt, b0, reached, ok, mark, patchMark, siteMark, ws, patch);
    }

    method SettleCounter(site: bv64, rt: bv8, ghost b0: Books, ghost reached: bool, ok: bool,
                         mark: nat, patchMark: nat, siteMark: nat, ghost ws: seq<bv32>, ghost patch: bv32)
      requires at < |b0.areas| && BooksOk(b0) && Wrote(b0.areas, at, areas, ws) && recs == b0.recs
      requires mark == |b0.areas[at].code| && patchMark == |b0.patches| && siteMark == |b0.sites|
      requires var a := b0.areas[at];
               CounterDone(site, rt, a.base, |a.code|, reached, ws, patch, b0.patches, patches, b0.sites, sites)
               && ok == (reached && (a.capacity.None? || (|a.code| + |ws|) * 4 <= a.capacity.value))
      modifies this`areas, this`patches, this`sites, this`recs
      ensures CounterTried(site, rt, at, b0, ok, ws, Shown())
    {
      hide *;
      CounterTakenBack(site, rt, at, b0, areas, reached, ok, ws, patch, patches, sites);
      if ok {
        CounterWellTried(site, rt, at, b0, areas, ws, patch, patches, sites);
        recs := recs + [CounterRec(site, rt, at, mark, ws)];
      } else {
        CounterNotTried(site, rt, at, b0, ws);
        areas := areas[at := areas[at].(code := areas[at].code[..mark])];
        patches := patches[..patchMark];
        sites := sites[..siteMark];
      }
      ShownIs();
    }

    /** The same for a counter read. */
    method CounterStub(site: bv64, rt: bv8) returns (ok: bool, ghost where: nat, ghost ws: seq<bv32>)
      requires Valid()
      modifies this
      ensures Valid()
      ensures ok <==> exists a :: 0 <= a < |old(areas)| && CounterFitsIn(site, old(areas)[a])
      ensures ok ==> where < |old(areas)| && CounterFitsIn(site, old(areas)[where])
                     && (forall b :: 0 <= b < where ==> !CounterFitsIn(site, old(areas)[b]))
                     && areas == Extended(old(areas), where, ws)
                     && recs == old(recs) + [CounterRec(site, rt, where, |old(areas)[where].code|, ws)]
                     && unreachable == old(unreachable)
      ensures !ok ==> Shown() == old(Shown()) && unreachable == old(unreachable) + 1
    {
      hide CounterFitsIn, BooksOk, Extended;
      var area := 0;
      ghost var b0 := Shown();
      while area < |areas|
        invariant area <= |areas| && Shown() == b0 && BooksOk(b0) && unreachable == old(unreachable)
        invariant forall b :: 0 <= b < area ==> !CounterFitsIn(site, areas[b])
      {
        ok, ws := TryCounter(site, rt, area);
        if ok {
          where := area;
          at := 0;
          ExtendedIs(old(areas), area, ws);
          return;
        }
        area := area + 1;
      }
      at := 0;
      unreachable := unreachable + 1;
      ok, where, ws := false, 0, [];
    }
  }

  // ----- The same for counter reads -----

  ghost predicate CounterDone(site: bv64, rt: bv8, base: bv64, from: nat, ok: bool, ws: seq<bv32>, patch: bv32,
                              patches0: seq<(bv64, bv32)>, patches1: seq<(bv64, bv32)>, sites0: seq<Site>,
                                sites1: seq<Site>) {
    && (ok <==> CounterInReach(site, base, from))
    && patches0 <= patches1 && sites0 <= sites1
    && (ok ==> && IsCounterStub(site, rt, base, from, ws) && EncB(site, Addr(base, from)) == Some(patch)
               && patches1 == patches0 + [(site, patch)]
               && sites1 == sites0 + [Site(Addr(base, from + 5), site, CounterRead)])
  }

  lemma CounterFails(site: bv64, rt: bv8, base: bv64, from: nat, w: Option<bv32>,
                     patches: seq<(bv64, bv32)>, sites: seq<Site>)
    requires w == EncB(site, Addr(base, from))
    ensures w.None? ==> CounterDone(site, rt, base, from, false, [], 0, patches, patches, sites, sites)
  {
    hide IsCounterStub, EncB, Addr, Add;
  }

  lemma CounterEnds(site: bv64, rt: bv8, base: bv64, from: nat, w: bv32, movz: bv32, back: Option<bv32>,
                    patches: seq<(bv64, bv32)>, sites: seq<Site>)
    requires EncB(site, Addr(base, from)) == Some(w) && EncMovz(0, STUB_BASE) == Some(movz)
    requires back == EncB(Addr(base, from + 7), Add(site, 4))
    ensures var words :=
      [STR_X30_PRE, STP_X0_X1_PRE, movz, EncLdr(1, 0, COUNTER_ENTRY_OFFSET), BLR_X1, rt as bv32, LDR_X30_POST];
            && (back.None? ==>
                 CounterDone(site, rt, base, from, false, words, w, patches, patches + [(site, w)], sites, sites))
            && (back.Some? ==>
                 CounterDone(site, rt, base, from, true, words + [back.value], w, patches, patches + [(site, w)],
                                           sites, sites + [Site(Addr(base, from + 5), site, CounterRead)]))
  {
    hide EncB, EncMovz, EncLdr, Addr, Add;
  }

  ghost predicate CounterTried(site: bv64, rt: bv8, area: nat, b0: Books, ok: bool, ws: seq<bv32>, b1: Books) {
    && area < |b0.areas| && BooksOk(b1)
    && (ok <==> CounterFitsIn(site, b0.areas[area]))
    && (!ok ==> b1 == b0)
    && (ok ==> && b1.areas == Extended(b0.areas, area, ws)
               && b1.recs == b0.recs + [CounterRec(site, rt, area, |b0.areas[area].code|, ws)])
  }

  lemma CounterTakenBack(site: bv64, rt: bv8, area: nat, b0: Books, now: seq<Area>, reached: bool, ok: bool,
    ws: seq<bv32>,
                         patch: bv32, patches1: seq<(bv64, bv32)>, sites1: seq<Site>)
    requires area < |b0.areas| && Wrote(b0.areas, area, now, ws)
    requires var a := b0.areas[area];
             CounterDone(site, rt, a.base, |a.code|, reached, ws, patch, b0.patches, patches1, b0.sites, sites1)
             && ok == (reached && (a.capacity.None? || (|a.code| + |ws|) * 4 <= a.capacity.value))
    ensures ok <==> CounterFitsIn(site, b0.areas[area])
    ensures area < |now| && |b0.areas[area].code| <= |now[area].code| && |b0.patches| <= |patches1|
      && |b0.sites| <= |sites1|
    ensures now[area := now[area].(code := now[area].code[..|b0.areas[area].code|])] == b0.areas
    ensures patches1[..|b0.patches|] == b0.patches && sites1[..|b0.sites|] == b0.sites
  {
    hide CounterInReach, Addr, EncB, EncMovz, EncLdr;
    ExtendedIs(b0.areas, area, ws);
    ExtendedBack(b0.areas, area, ws);
  }

  lemma CounterNotTried(site: bv64, rt: bv8, area: nat, b0: Books, ws: seq<bv32>)
    requires area < |b0.areas| && BooksOk(b0) && !CounterFitsIn(site, b0.areas[area])
    ensures CounterTried(site, rt, area, b0, false, ws, b0)
  {
    hide BooksOk, CounterFitsIn;
  }

  lemma CounterRecOk(r: Rec, areas: seq<Area>, patch: (bv64, bv32), site: Site)
    requires r.CounterRec? && r.area < |areas|
    requires var a := areas[r.area];
             && r.from + |r.ws| <= |a.code| && a.code[r.from..r.from + |r.ws|] == r.ws
             && IsCounterStub(r.site, r.rt, a.base, r.from, r.ws)
             && patch.0 == r.site && EncB(r.site, Addr(a.base, r.from)) == Some(patch.1)
             && site == Site(Addr(a.base, r.from + 5), r.site, CounterRead)
    ensures RecOk(r, areas, patch, site)
  {
    hide IsCounterStub, EncB, Addr;
  }

  lemma CounterWellTried(site: bv64, rt: bv8, area: nat, b0: Books, now: seq<Area>, ws: seq<bv32>, patch: bv32,
                         patches1: seq<(bv64, bv32)>, sites1: seq<Site>)
    requires area < |b0.areas| && BooksOk(b0) && CounterFitsIn(site, b0.areas[area]) && Wrote(b0.areas, area, now, ws)
    requires var a := b0.areas[area];
             CounterDone(site, rt, a.base, |a.code|, true, ws, patch, b0.patches, patches1, b0.sites, sites1)
    ensures CounterTried(site, rt, area, b0, true, ws,
                         Books(now, b0.recs + [CounterRec(site, rt, area, |b0.areas[area].code|, ws)], patches1,
                           sites1))
  {
    hide AreasOk, RecsOk, RecOk, IsCounterStub, CounterFitsIn, CounterInReach, EncB, Addr, Extended;
    var from: nat := |b0.areas[area].code|;
    var r := CounterRec(site, rt, area, from, ws);
    var s := Site(Addr(b0.areas[area].base, from + 5), site, CounterRead);
    ExtendedIs(b0.areas, area, ws);
    ExtendedGrew(b0.areas, area, ws);
    AreasStand(b0.areas, now, area);
    RecsStand(b0.recs, b0.areas, now, b0.patches, b0.sites, area);
    CounterRecOk(r, now, (site, patch), s);
    RecsGrow(b0.recs, now, b0.patches, b0.sites, r, (site, patch), s);
  }

  // ----- What each step of the builder leaves -----

  ghost predicate TailDone(t: Tail, site: bv64, base: bv64, i: nat, ok: bool, ws: seq<bv32>) {
    (ok <==> TailReaches(t, site, base, i)) && (ok ==> IsTail(t, site, base, i, ws))
  }

  ghost predicate HeadDone(h: Hook, base: bv64, from: nat, ok: bool, yieldPc: bv64, call: bv32, ws: seq<bv32>) {
    var g := GuardLen(h.guard);
    && (ok <==> EncBl(Addr(base, from + g + 1), base).Some?)
    && (ok ==> && EncBl(Addr(base, from + g + 1), base) == Some(call)
               && yieldPc == Addr(base, from + g + 2)
               && ws == Place(h.guard) + [STR_X30_PRE, call, LDR_X30_POST])
  }

  ghost predicate GuardDone(h: Hook, base: bv64, from: nat, now: seq<bv32>, ok: bool, w: bv32, back: bv32,
    ws: seq<bv32>) {
    var past := Addr(base, from + |now|);
    && (ok <==> EncB(past, Add(h.site, 4)).Some?)
    && (ok ==> && |now| > 0 && ws == now[0 := w] + [back]
               && IsGuard(h.guard, Addr(base, from), past, w)
               && EncB(past, Add(h.site, 4)) == Some(back))
  }

  /** The tail and the guard's own branch reach. */
  predicate RestReaches(h: Hook, base: bv64, from: nat) {
    var i := from + GuardLen(h.guard) + 3;
    && TailReaches(h.tail, h.site, base, i)
    && (!h.guard.NoGuard? ==> EncB(Addr(base, i + TailLen(h.tail, Addr(base, i))), Add(h.site, 4)).Some?)
  }

  ghost predicate FinishDone(h: Hook, base: bv64, from: nat, ok: bool, ws: seq<bv32>, sites0: seq<Site>,
    sites1: seq<Site>) {
    && (ok <==> RestReaches(h, base, from))
    && sites0 <= sites1
    && (ok ==> IsTrampoline(h, base, 0, from, ws) && sites1 == sites0 + [SiteOf(h, base, from)])
  }

  ghost predicate StubDone(h: Hook, base: bv64, from: nat, ok: bool, ws: seq<bv32>, patch: bv32,
                           patches0: seq<(bv64, bv32)>, patches1: seq<(bv64, bv32)>, sites0: seq<Site>,
                             sites1: seq<Site>) {
    && (ok <==> InReach(h, base, from))
    && patches0 <= patches1 && sites0 <= sites1
    && (ok ==> && IsTrampoline(h, base, 0, from, ws) && IsPatch(h, Addr(base, from), patch)
               && patches1 == patches0 + [(h.site, patch)]
               && sites1 == sites0 + [SiteOf(h, base, from)])
  }

  lemma ReplayDone(w: bv32, site: bv64, base: bv64, i: nat, back: Option<bv32>)
    requires back == EncB(Addr(base, i + 1), Add(site, 4))
    ensures back.None? ==> TailDone(Replay(w), site, base, i, false, [w])
    ensures back.Some? ==> TailDone(Replay(w), site, base, i, true, [w] + [back.value])
  {
    hide Addr, Add, EncB, EncAdrp;
  }

  lemma HeadFails(h: Hook, base: bv64, from: nat, w: Option<bv32>, ws: seq<bv32>)
    requires ws == Place(h.guard) + [STR_X30_PRE] && w == EncBl(Addr(base, from + |ws|), base)
    ensures w == EncBl(Addr(base, from + GuardLen(h.guard) + 1), base) && |ws| == GuardLen(h.guard) + 1
    ensures w.None? ==> HeadDone(h, base, from, false, 0, 0, ws)
  {
    hide Addr, EncBl;
    PlaceLen(h.guard);
    assert from + |ws| == from + GuardLen(h.guard) + 1;
  }

  lemma HeadIs(h: Hook, base: bv64, from: nat, call: bv32, yieldPc: bv64, ws: seq<bv32>)
    requires ws == Place(h.guard) + [STR_X30_PRE] && yieldPc == Addr(base, from + |ws| + 1)
    requires EncBl(Addr(base, from + GuardLen(h.guard) + 1), base) == Some(call)
    ensures HeadDone(h, base, from, true, yieldPc, call, ws + [call, LDR_X30_POST])
  {
    hide Addr, EncBl;
    PlaceLen(h.guard);
    assert from + |ws| + 1 == from + GuardLen(h.guard) + 2;
    assert ws + [call, LDR_X30_POST] == Place(h.guard) + [STR_X30_PRE, call, LDR_X30_POST];
  }

  lemma HeadParts(h: Hook, base: bv64, from: nat, yieldPc: bv64, call: bv32, head: seq<bv32>)
    requires HeadDone(h, base, from, true, yieldPc, call, head)
    ensures |head| == GuardLen(h.guard) + 3
  {
    hide Addr, EncBl;
    PlaceLen(h.guard);
  }

  lemma GuardIs(h: Hook, base: bv64, from: nat, now: seq<bv32>, past: bv64, w: bv32, b: Option<bv32>)
    requires past == Addr(base, from + |now|) && |now| > 0 && b == EncB(past, Add(h.site, 4))
    requires IsGuard(h.guard, Addr(base, from), past, w)
    ensures b.None? ==> GuardDone(h, base, from, now, false, w, 0, now[0 := w])
    ensures b.Some? ==> GuardDone(h, base, from, now, true, w, b.value, now[0 := w] + [b.value])
  {
    hide Addr, Add, EncB, IsGuard;
  }

  lemma TailFailed(h: Hook, base: bv64, from: nat, tail: seq<bv32>, ws: seq<bv32>, sites: seq<Site>)
    requires TailDone(h.tail, h.site, base, from + GuardLen(h.guard) + 3, false, tail)
    ensures FinishDone(h, base, from, false, ws, sites, sites)
  {
    hide TailReaches, IsTail, IsTrampoline, Addr, Add, EncB;
  }

  lemma HeadGives(h: Hook, base: bv64, from: nat, yieldPc: bv64, call: bv32, head: seq<bv32>)
    requires HeadDone(h, base, from, true, yieldPc, call, head)
    ensures EncBl(Addr(base, from + GuardLen(h.guard) + 1), base) == Some(call)
    ensures yieldPc == Addr(base, from + GuardLen(h.guard) + 2)
    ensures head == Place(h.guard) + [STR_X30_PRE, call, LDR_X30_POST] && |head| == GuardLen(h.guard) + 3
  {
    hide Addr, EncBl;
    PlaceLen(h.guard);
  }

  lemma TailGives(t: Tail, site: bv64, base: bv64, i: nat, tail: seq<bv32>)
    requires TailDone(t, site, base, i, true, tail)
    ensures TailReaches(t, site, base, i) && IsTail(t, site, base, i, tail)
    ensures |tail| == TailLen(t, Addr(base, i)) && 1 <= |tail| <= 3
  {
    hide *;
    assert TailReaches(t, site, base, i) && IsTail(t, site, base, i, tail) by {
      TailUnfolds(t, site, base, i, tail);
    }
    TailIsExact(t, site, base, i, tail);
    TailIsSome(t, Addr(base, i));
  }

  lemma TailUnfolds(t: Tail, site: bv64, base: bv64, i: nat, tail: seq<bv32>)
    requires TailDone(t, site, base, i, true, tail)
    ensures TailReaches(t, site, base, i) && IsTail(t, site, base, i, tail)
  {
    hide TailReaches, IsTail;
  }

  lemma Finished(h: Hook, base: bv64, from: nat, ws: seq<bv32>, yieldPc: bv64, sites: seq<Site>)
    requires RestReaches(h, base, from) && IsTrampoline(h, base, 0, from, ws)
    requires yieldPc == Addr(base, from + GuardLen(h.guard) + 2)
    ensures FinishDone(h, base, from, true, ws, sites, sites + [Site(yieldPc, h.site, KindOf(h))])
  {
    SiteIs(h, base, from, yieldPc);
    hide RestReaches, IsTrampoline, Addr, KindOf, SiteOf;
  }

  lemma RestIs(h: Hook, base: bv64, from: nat, i: nat)
    requires i == from + GuardLen(h.guard) + 3
    ensures RestReaches(h, base, from) <==>
            TailReaches(h.tail, h.site, base, i)
            && (!h.guard.NoGuard? ==> EncB(Addr(base, i + TailLen(h.tail, Addr(base, i))), Add(h.site, 4)).Some?)
  {
    hide TailReaches, TailLen, Addr, Add, EncB;
  }

  lemma TailWorked(h: Hook, base: bv64, from: nat, yieldPc: bv64, call: bv32, head: seq<bv32>, tail: seq<bv32>,
                   sites: seq<Site>)
    requires HeadDone(h, base, from, true, yieldPc, call, head)
    requires TailDone(h.tail, h.site, base, from + GuardLen(h.guard) + 3, true, tail)
    ensures !h.guard.NoGuard? ==> |head + tail| in {5, 6, 7}
    ensures h.guard.NoGuard? ==>
            FinishDone(h, base, from, true, head + tail, sites, sites + [Site(yieldPc, h.site, KindOf(h))])
  {
    hide *;
    var i: nat := from + GuardLen(h.guard) + 3;
    HeadGives(h, base, from, yieldPc, call, head);
    TailGives(h.tail, h.site, base, i, tail);
    Unguarded0(h.guard);
    if h.guard.NoGuard? {
      Assembled(h.guard, 0, call, tail, 0, head + tail);
      TrampolineIs(h, base, from, 0, call, tail, 0);
      RestIs(h, base, from, i);
      Finished(h, base, from, head + tail, yieldPc, sites);
    } else {
      assert |head + tail| == 4 + |tail|;
    }
  }

  lemma GuardGives(h: Hook, base: bv64, from: nat, now: seq<bv32>, ok: bool, w: bv32, back: bv32, ws: seq<bv32>)
    requires GuardDone(h, base, from, now, ok, w, back, ws)
    ensures ok <==> EncB(Addr(base, from + |now|), Add(h.site, 4)).Some?
    ensures ok ==> && |now| > 0 && ws == now[0 := w] + [back]
                   && IsGuard(h.guard, Addr(base, from), Addr(base, from + |now|), w)
                   && EncB(Addr(base, from + |now|), Add(h.site, 4)) == Some(back)
  {
    hide Addr, Add, EncB, IsGuard;
  }

  lemma NotFinished(h: Hook, base: bv64, from: nat, ws: seq<bv32>, sites: seq<Site>, more: Site)
    requires !RestReaches(h, base, from)
    ensures FinishDone(h, base, from, false, ws, sites, sites + [more])
  {
    hide RestReaches, IsTrampoline, SiteOf;
  }

  lemma GuardWorked(h: Hook, base: bv64, from: nat, yieldPc: bv64, call: bv32, head: seq<bv32>, tail: seq<bv32>,
                    sites: seq<Site>, ok: bool, gw: bv32, back: bv32, ws: seq<bv32>)
    requires HeadDone(h, base, from, true, yieldPc, call, head) && !h.guard.NoGuard?
    requires TailDone(h.tail, h.site, base, from + GuardLen(h.guard) + 3, true, tail)
    requires GuardDone(h, base, from, head + tail, ok, gw, back, ws)
    ensures FinishDone(h, base, from, ok, ws, sites, sites + [Site(yieldPc, h.site, KindOf(h))])
  {
    hide *;
    var i: nat := from + GuardLen(h.guard) + 3;
    HeadGives(h, base, from, yieldPc, call, head);
    TailGives(h.tail, h.site, base, i, tail);
    assert from + |head + tail| == i + |tail|;
    GuardGives(h, base, from, head + tail, ok, gw, back, ws);
    RestIs(h, base, from, i);
    if ok {
      Assembled(h.guard, gw, call, tail, back, ws);
      TrampolineIs(h, base, from, gw, call, tail, back);
      Finished(h, base, from, ws, yieldPc, sites);
    } else {
      NotFinished(h, base, from, ws, sites, Site(yieldPc, h.site, KindOf(h)));
    }
  }

  lemma PatchFails(h: Hook, base: bv64, from: nat, start: bv64, w: Option<bv32>, patches: seq<(bv64, bv32)>,
    sites: seq<Site>)
    requires start == Addr(base, from) && w == if h.call then EncBl(h.site, start) else EncB(h.site, start)
    ensures w.None? ==> StubDone(h, base, from, false, [], 0, patches, patches, sites, sites)
  {
    InReachParts(h, base, from);
    PatchParts(h, start, w);
    hide InReach, IsTrampoline, IsPatch, Addr, EncB, EncBl;
  }

  lemma Reaching(h: Hook, base: bv64, from: nat)
    ensures InReach(h, base, from) <==>
            && PatchReaches(h, Addr(base, from))
            && EncBl(Addr(base, from + GuardLen(h.guard) + 1), base).Some?
            && RestReaches(h, base, from)
  {
    InReachParts(h, base, from);
    RestIs(h, base, from, from + GuardLen(h.guard) + 3);
    hide InReach, RestReaches, PatchReaches, TailReaches, TailLen, Addr, Add, EncB, EncBl;
  }

  lemma HeadFailed(h: Hook, base: bv64, from: nat, w: Option<bv32>, call: bv32, yieldPc: bv64, ws: seq<bv32>,
                   patches: seq<(bv64, bv32)>, sites: seq<Site>)
    requires w.Some? && HeadDone(h, base, from, false, yieldPc, call, ws)
    ensures StubDone(h, base, from, false, ws, w.value, patches, patches + [(h.site, w.value)], sites, sites)
  {
    Reaching(h, base, from);
    assert EncBl(Addr(base, from + GuardLen(h.guard) + 1), base).None? by {
      hide EncBl, Addr, Place;
    }
    hide HeadDone, InReach, IsTrampoline, IsPatch, Addr, EncBl, RestReaches, PatchReaches, SiteOf;
  }

  lemma StubIs(h: Hook, base: bv64, from: nat, w: Option<bv32>, call: bv32, yieldPc: bv64, head: seq<bv32>, ok: bool,
               ws: seq<bv32>, patches: seq<(bv64, bv32)>, sites0: seq<Site>, sites1: seq<Site>)
    requires w == (if h.call then EncBl(h.site, Addr(base, from)) else EncB(h.site, Addr(base, from))) && w.Some?
    requires HeadDone(h, base, from, true, yieldPc, call, head) && FinishDone(h, base, from, ok, ws, sites0, sites1)
    ensures StubDone(h, base, from, ok, ws, w.value, patches, patches + [(h.site, w.value)], sites0, sites1)
  {
    hide *;
    Reaching(h, base, from);
    PatchParts(h, Addr(base, from), w);
    HeadGives(h, base, from, yieldPc, call, head);
    StubFrom(h, base, from, ok, ws, w.value, patches, sites0, sites1);
  }

  lemma StubFrom(h: Hook, base: bv64, from: nat, ok: bool, ws: seq<bv32>, patch: bv32, patches: seq<(bv64, bv32)>,
                 sites0: seq<Site>, sites1: seq<Site>)
    requires FinishDone(h, base, from, ok, ws, sites0, sites1) && IsPatch(h, Addr(base, from), patch)
    requires InReach(h, base, from) <==> RestReaches(h, base, from)
    ensures StubDone(h, base, from, ok, ws, patch, patches, patches + [(h.site, patch)], sites0, sites1)
  {
    hide InReach, RestReaches, IsTrampoline, IsPatch, SiteOf, Addr;
  }

  /** The areas, records, patches and sites of a builder. */
  datatype Books = Books(areas: seq<Area>, recs: seq<Rec>, patches: seq<(bv64, bv32)>, sites: seq<Site>)

  ghost predicate BooksOk(b: Books) {
    AreasOk(b.areas) && RecsOk(b.recs, b.areas, b.patches, b.sites)
  }

  /** An attempt that did not fit is taken back; one that did is recorded. */
  ghost predicate Tried(h: Hook, area: nat, b0: Books, ok: bool, ws: seq<bv32>, b1: Books) {
    && area < |b0.areas| && BooksOk(b1)
    && (ok <==> FitsIn(h, b0.areas[area]))
    && (!ok ==> b1 == b0)
    && (ok ==> && b1.areas == Extended(b0.areas, area, ws)
               && b1.recs == b0.recs + [HookRec(h, area, |b0.areas[area].code|, ws)])
  }

  lemma TakenBack(h: Hook, area: nat, b0: Books, now: seq<Area>, reached: bool, ok: bool, ws: seq<bv32>, patch: bv32,
                  patches1: seq<(bv64, bv32)>, sites1: seq<Site>)
    requires area < |b0.areas| && Wrote(b0.areas, area, now, ws)
    requires var a := b0.areas[area];
             StubDone(h, a.base, |a.code|, reached, ws, patch, b0.patches, patches1, b0.sites, sites1)
             && ok == (reached && (a.capacity.None? || (|a.code| + |ws|) * 4 <= a.capacity.value))
    ensures ok <==> FitsIn(h, b0.areas[area])
    ensures area < |now| && |b0.areas[area].code| <= |now[area].code| && |b0.patches| <= |patches1|
      && |b0.sites| <= |sites1|
    ensures now[area := now[area].(code := now[area].code[..|b0.areas[area].code|])] == b0.areas
    ensures patches1[..|b0.patches|] == b0.patches && sites1[..|b0.sites|] == b0.sites
  {
    hide IsTrampoline, IsPatch, FitsIn, InReach, Addr, SiteOf, StubLen;
    var a := b0.areas[area];
    ExtendedIs(b0.areas, area, ws);
    ExtendedBack(b0.areas, area, ws);
    FitsIs(h, a, ws);
    if reached {
      ReachIsExact(h, a.base, |a.code|, ws, patch);
      assert |a.code + ws| == |a.code| + |ws|;
    }
  }

  lemma NotTried(h: Hook, area: nat, b0: Books, ws: seq<bv32>)
    requires area < |b0.areas| && BooksOk(b0) && !FitsIn(h, b0.areas[area])
    ensures Tried(h, area, b0, false, ws, b0)
  {
    hide BooksOk, FitsIn;
  }

  lemma WellTried(h: Hook, area: nat, b0: Books, now: seq<Area>, ws: seq<bv32>, patch: bv32,
                  patches1: seq<(bv64, bv32)>, sites1: seq<Site>)
    requires area < |b0.areas| && BooksOk(b0) && FitsIn(h, b0.areas[area]) && Wrote(b0.areas, area, now, ws)
    requires var a := b0.areas[area];
             StubDone(h, a.base, |a.code|, true, ws, patch, b0.patches, patches1, b0.sites, sites1)
    ensures Tried(h, area, b0, true, ws,
                  Books(now, b0.recs + [HookRec(h, area, |b0.areas[area].code|, ws)], patches1, sites1))
  {
    hide AreasOk, RecsOk, IsTrampoline, IsPatch, FitsIn, InReach, Addr, SiteOf, Extended;
    Recorded(h, area, ws, patch, b0.areas, b0.recs, b0.patches, b0.sites);
  }

  /** The guard's place, before its branch is known. */
  function Place(g: Guard): seq<bv32> {
    if g.NoGuard? then [] else [0]
  }

  lemma PlaceLen(g: Guard)
    ensures |Place(g)| == GuardLen(g) && Place(g) == if g.NoGuard? then [] else [0]
  {}

  lemma CommonAtBase(b: Books, i: nat)
    requires BooksOk(b) && i < |b.areas|
    ensures b.areas[i].common == b.areas[i].base
  {
    hide IsCommon, RecsOk;
    assert AreaOk(b.areas[i]);
  }

  lemma FitsIs(h: Hook, a: Area, ws: seq<bv32>)
    ensures FitsIn(h, a) ==> InReach(h, a.base, |a.code|)
    ensures InReach(h, a.base, |a.code|) && |ws| == StubLen(h, a.base, |a.code|) ==>
            (FitsIn(h, a) <==> a.capacity.None? || |a.code + ws| * 4 <= a.capacity.value)
  {
    hide InReach, StubLen;
  }

  lemma Recorded(h: Hook, area: nat, ws: seq<bv32>, patch: bv32, was: seq<Area>,
                 recs: seq<Rec>, patches: seq<(bv64, bv32)>, sites: seq<Site>)
    requires AreasOk(was) && RecsOk(recs, was, patches, sites) && area < |was|
    requires var from := |was[area].code|;
             IsTrampoline(h, was[area].base, 0, from, ws) && IsPatch(h, Addr(was[area].base, from), patch)
    ensures AreasOk(Extended(was, area, ws))
    ensures var from := |was[area].code|;
            RecsOk(recs + [HookRec(h, area, from, ws)], Extended(was, area, ws), patches + [(h.site, patch)],
                   sites + [SiteOf(h, was[area].base, from)])
  {
    hide *;
    var from: nat := |was[area].code|;
    var now := Extended(was, area, ws);
    var r := HookRec(h, area, from, ws);
    ExtendedIs(was, area, ws);
    ExtendedGrew(was, area, ws);
    AreasStand(was, now, area);
    RecsStand(recs, was, now, patches, sites, area);
    HookRecOk(r, now, (h.site, patch), SiteOf(h, was[area].base, from));
    RecsGrow(recs, now, patches, sites, r, (h.site, patch), SiteOf(h, was[area].base, from));
  }

  lemma HookRecOk(r: Rec, areas: seq<Area>, patch: (bv64, bv32), site: Site)
    requires r.HookRec? && r.area < |areas|
    requires var a := areas[r.area];
             && r.from + |r.ws| <= |a.code| && a.code[r.from..r.from + |r.ws|] == r.ws
             && IsTrampoline(r.hook, a.base, 0, r.from, r.ws)
             && patch.0 == r.hook.site && IsPatch(r.hook, Addr(a.base, r.from), patch.1)
             && site == SiteOf(r.hook, a.base, r.from)
    ensures RecOk(r, areas, patch, site)
  {
    hide IsTrampoline, IsPatch, Addr, KindOf, GuardLen;
  }

  lemma TailIsSome(t: Tail, pc: bv64)
    ensures 1 <= TailLen(t, pc) <= 3
  {
    hide EncB;
  }

  /** The words of a trampoline, part by part. */
  function StubWords(g: Guard, gw: bv32, call: bv32, tail: seq<bv32>, back: bv32): seq<bv32> {
    if g.NoGuard? then [STR_X30_PRE, call, LDR_X30_POST] + tail
    else [gw, STR_X30_PRE, call, LDR_X30_POST] + tail + [back]
  }

  lemma SiteIs(h: Hook, base: bv64, from: nat, yieldPc: bv64)
    requires yieldPc == Addr(base, from + GuardLen(h.guard) + 2)
    ensures Site(yieldPc, h.site, KindOf(h)) == SiteOf(h, base, from)
  {
    hide Addr, KindOf;
  }

  lemma Assembled(g: Guard, gw: bv32, call: bv32, tail: seq<bv32>, back: bv32, ws: seq<bv32>)
    requires g.NoGuard? ==> ws == Place(g) + [STR_X30_PRE, call, LDR_X30_POST] + tail
    requires !g.NoGuard? ==> ws == (Place(g) + [STR_X30_PRE, call, LDR_X30_POST] + tail)[0 := gw] + [back]
    ensures ws == StubWords(g, gw, call, tail, back)
  {}

  lemma StubWordsAre(g: Guard, gw: bv32, call: bv32, tail: seq<bv32>, back: bv32)
    ensures var ws, n := StubWords(g, gw, call, tail, back), GuardLen(g);
            && |ws| == 2 * n + 3 + |tail|
            && ws[n] == STR_X30_PRE && ws[n + 1] == call && ws[n + 2] == LDR_X30_POST
            && ws[n + 3..|ws| - n] == tail
            && (n == 1 ==> ws[0] == gw && ws[|ws| - 1] == back)
  {}

  lemma TrampolineIs(h: Hook, base: bv64, from: nat, gw: bv32, call: bv32, tail: seq<bv32>, back: bv32)
    requires var g := GuardLen(h.guard); var i := from + g + 3;
             && EncBl(Addr(base, from + g + 1), base) == Some(call)
             && IsTail(h.tail, h.site, base, i, tail) && |tail| >= 1
             && (!h.guard.NoGuard? ==>
                   IsGuard(h.guard, Addr(base, from), Addr(base, i + |tail|), gw)
                   && EncB(Addr(base, i + |tail|), Add(h.site, 4)) == Some(back))
    ensures IsTrampoline(h, base, 0, from, StubWords(h.guard, gw, call, tail, back))
  {
    hide *;
    var ws := StubWords(h.guard, gw, call, tail, back);
    var g: nat := GuardLen(h.guard);
    StubWordsAre(h.guard, gw, call, tail, back);
    Unguarded0(h.guard);
    AddrZero(base);
    assert g == 1 ==> from + |ws| - 1 == from + g + 3 + |tail|;
    TrampolineFrom(h, base, from, ws, tail, g);
  }

  lemma Unguarded0(g: Guard)
    ensures GuardLen(g) == if g.NoGuard? then 0 else 1
  {}

  lemma TrampolineFrom(h: Hook, base: bv64, at: nat, ws: seq<bv32>, tail: seq<bv32>, g: nat)
    requires g == GuardLen(h.guard) && |ws| >= 2 * g + 4 && Addr(base, 0) == base
    requires g == 1 ==> IsGuard(h.guard, Addr(base, at), Addr(base, at + |ws| - 1), ws[0])
                        && EncB(Addr(base, at + |ws| - 1), Add(h.site, 4)) == Some(ws[|ws| - 1])
    requires ws[g] == STR_X30_PRE && EncBl(Addr(base, at + g + 1), base) == Some(ws[g + 1]) && ws[g + 2] == LDR_X30_POST
    requires tail == ws[g + 3..|ws| - g] && IsTail(h.tail, h.site, base, at + g + 3, tail)
    ensures IsTrampoline(h, base, 0, at, ws)
  {
    hide Addr, Add, EncB, EncBl, IsGuard, IsTail;
  }

  function SiteOf(h: Hook, base: bv64, from: nat): Site {
    Site(Addr(base, from + GuardLen(h.guard) + 2), h.site, KindOf(h))
  }

  lemma InReachParts(h: Hook, base: bv64, from: nat)
    ensures var g := GuardLen(h.guard);
            InReach(h, base, from) <==>
            && PatchReaches(h, Addr(base, from))
            && EncBl(Addr(base, from + g + 1), base).Some?
            && TailReaches(h.tail, h.site, base, from + g + 3)
            && (!h.guard.NoGuard? ==>
                 EncB(Addr(base, from + g + 3 + TailLen(h.tail, Addr(base, from + g + 3))), Add(h.site, 4)).Some?)
  {
    hide PatchReaches, TailReaches, TailLen, Addr, Add, EncB, EncBl;
  }

  lemma PatchParts(h: Hook, start: bv64, w: Option<bv32>)
    requires w == if h.call then EncBl(h.site, start) else EncB(h.site, start)
    ensures PatchReaches(h, start) <==> w.Some?
    ensures w.Some? ==> IsPatch(h, start, w.value)
  {
    hide EncB, EncBl;
  }

  /** The guard's branch past the trampoline: short, so it always encodes. */
  method GuardWord(g: Guard, ghost base: bv64, ghost from: nat, ghost k: nat, pc: bv64, past: bv64) returns (w: bv32)
    requires !g.NoGuard? && k in {5, 6, 7} && pc == Addr(base, from) && past == Addr(base, from + k)
    ensures IsGuard(g, pc, past, w)
  {
    hide Addr, EncBCond, EncCbz, EncTbz, InvertCond;
    match g {
      case OnCond(c) =>
        ShortBranches(base, from, k, InvertCond(c), true, 0, 0, true);
        w := EncBCond(InvertCond(c), pc, past).value;
      case OnCbz(sf, rt, nonzero) =>
        ShortBranches(base, from, k, 0, sf, rt, 0, !nonzero);
        w := EncCbz(sf, rt, !nonzero, pc, past).value;
      case OnTbz(rt, bit, nonzero) =>
        ShortBranches(base, from, k, 0, true, rt, bit, !nonzero);
        w := EncTbz(rt, bit, !nonzero, pc, past).value;
    }
  }

  lemma AddrZero(base: bv64)
    ensures Addr(base, 0) == base
  {}

  lemma CommonOk(base: bv64, a: Area, count: seq<bv32>, check: bv32, look: bv32, back: bv32)
    requires EncMovz(0, STUB_BASE).Some?
    requires count == [STP_X0_X1_PRE, EncMovz(0, STUB_BASE).value, EncLdr(1, 0, COUNTER_OFFSET), SUB_X1_X1_1,
                       EncStr(1, 0, COUNTER_OFFSET)]
    requires EncCbz(true, 1, false, Addr(base, 5), Addr(base, 8)) == Some(check)
    requires EncCbz(true, 0, false, Addr(base, 10), Addr(base, 12)) == Some(look)
    requires EncB(Addr(base, 13), Addr(base, 6)) == Some(back)
    requires a.base == base && a.common == base
    requires a.code == count + [check, LDP_X0_X1_POST, RET]
                       + [STR_X30_PRE, EncLdr(0, 0, SLOT_OFFSET), look, BLR_X0] + [LDR_X30_POST, back]
    ensures AreaOk(a) && |a.code| == 14
  {
    hide Addr, EncMovz, EncLdr, EncStr, EncCbz, EncB;
    assert a.code[..14] == a.code;
  }
}

/** Whole slabs and runs come and go, and blocks get their headers. */
module HeapSlabs {
  import opened HeapSizes
  import opened HeapLayout
  import opened HeapSpec
  import opened HeapSteps

  // ---- a slab of the window is cut, or given back ---------------------------------

  function AllLoose(c: nat): Slab
    requires c < N_POOLED
  {
    Cut(c, seq(Slots(c), i => Loose))
  }

  function WithSlab(v: View, s: nat, slab: Slab): View
    requires s < |v.tab| && v.wFirst + s < |v.taken|
  {
    v.(tab := v.tab[s := slab], taken := v.taken[v.wFirst + s := slab.Cut?])
  }

  /** Nothing in the slab is live, a candidate or listed. */
  predicate Idle(slab: Slab) {
    slab.Cut? ==> forall k :: 0 <= k < |slab.st| ==> slab.st[k].Loose?
  }

  predicate WellCut(slab: Slab) { slab.Cut? ==> slab.c < N_POOLED && |slab.st| == Slots(slab.c) }

  /** What is said of the blocks of other slabs stays. */
  lemma OtherSlots(v: View, s: nat, slab: Slab, x: Slot)
    requires TabOk(v.tab) && s < |v.tab| && x.s != s && WellCut(slab) && v.wFirst + s < |v.taken|
    ensures var t := WithSlab(v, s, slab);
            && TabOk(t.tab) && (SlotIn(t.tab, x) <==> SlotIn(v.tab, x))
            && (SlotIn(v.tab, x) ==>
                  At(t.tab, x) == At(v.tab, x) && t.tab[x.s].c == v.tab[x.s].c && SizeAt(t.tab, x) == SizeAt(v.tab, x)
                  && AddrOf(WindowBase(t), t.tab, x) == AddrOf(WindowBase(v), v.tab, x))
  {
  }

  lemma RecutMembers(v: View, s: nat, slab: Slab, c: nat, w: Where, q: seq<Slot>)
    requires TabOk(v.tab) && s < |v.tab| && WellCut(slab) && v.wFirst + s < |v.taken|
    requires Idle(v.tab[s]) && Idle(slab) && Members(v.tab, c, w, q) && !w.Loose?
    ensures var t := WithSlab(v, s, slab);
            && TabOk(t.tab) && Members(t.tab, c, w, q) && AllIn(v.tab, q) && AllIn(t.tab, q)
            && Addrs(WindowBase(v), t.tab, q) == Addrs(WindowBase(v), v.tab, q)
            && forall i :: 0 <= i < |q| ==> q[i].s != s
  {
    hide AddrOf, SizeAt;
    var t := WithSlab(v, s, slab);
    forall i | 0 <= i < |q|
      ensures q[i].s != s && SlotIn(v.tab, q[i]) && Holds(t.tab, q[i], c, w)
              && AddrOf(WindowBase(v), t.tab, q[i]) == AddrOf(WindowBase(v), v.tab, q[i])
    {
      assert Holds(v.tab, q[i], c, w);
      OtherSlots(v, s, slab, q[i]);
    }
    forall x: Slot | Holds(t.tab, x, c, w) ensures x in q {
      if x.s != s {
        OtherSlots(v, s, slab, x);
        assert Holds(v.tab, x, c, w);
      }
    }
  }

  lemma RecutClass(v: View, s: nat, slab: Slab, c: nat)
    requires Core(v) && s < v.wLen && WellCut(slab) && Idle(v.tab[s]) && Idle(slab) && c < N_POOLED
    requires Shape(WithSlab(v, s, slab))
    ensures ClassOk(WithSlab(v, s, slab), c)
  {
    hide AddrOf, Members, Links, Marked, HeadersOk, RunsOk, TakenOk, TabOk;
    assert ClassOk(v, c);
    RecutMembers(v, s, slab, c, Pooled, v.pool[c]);
    RecutMembers(v, s, slab, c, Listed, v.ov[c]);
    RecutEntries(v, s, slab, c);
  }

  lemma RecutEntries(v: View, s: nat, slab: Slab, c: nat)
    requires TabOk(v.tab) && s < |v.tab| && WellCut(slab) && v.wFirst + s < |v.taken|
    requires c < |v.pools| && c < |v.pool| && Entries(v, c) && forall i :: 0 <= i < |v.pool[c]| ==> v.pool[c][i].s != s
    requires TabOk(WithSlab(v, s, slab).tab)
    ensures Entries(WithSlab(v, s, slab), c)
  {
    hide AddrOf;
    forall i | 0 <= i < |v.pool[c]|
      ensures SlotIn(WithSlab(v, s, slab).tab, v.pool[c][i])
              && AddrOf(WindowBase(v), WithSlab(v, s, slab).tab, v.pool[c][i])
                   == AddrOf(WindowBase(v), v.tab, v.pool[c][i])
    {
      OtherSlots(v, s, slab, v.pool[c][i]);
    }
  }

  /** A slab with nothing in it is cut for a class, or back to nobody's. */
  lemma RecutOk(v: View, s: nat, slab: Slab)
    requires Core(v) && s < v.wLen && WellCut(slab) && Idle(v.tab[s]) && Idle(slab)
    ensures Core(WithSlab(v, s, slab))
  {
    hide AddrOf, ClassOk, HeadersOk, RunsOk, TakenOk;
    var t := WithSlab(v, s, slab);
    RecutShape(v, s, slab);
    forall c | 0 <= c < N_POOLED ensures ClassOk(t, c) { RecutClass(v, s, slab, c); }
    RecutHeaders(v, s, slab);
    RecutTaken(v, s, slab);
    RecutRuns(v, s, slab);
  }

  lemma RecutShape(v: View, s: nat, slab: Slab)
    requires Shape(v) && s < v.wLen && WellCut(slab)
    ensures Shape(WithSlab(v, s, slab))
  {
    var t := WithSlab(v, s, slab);
    forall a: nat | InRegion(t, a) ensures a in t.mem { assert InRegion(v, a); }
  }

  lemma RecutHeaders(v: View, s: nat, slab: Slab)
    requires TabOk(v.tab) && HeadersOk(v) && s < |v.tab| && WellCut(slab) && Idle(slab) && v.wFirst + s < |v.taken|
    ensures TabOk(WithSlab(v, s, slab).tab) && HeadersOk(WithSlab(v, s, slab))
  {
    hide AddrOf, SizeAt;
    var t := WithSlab(v, s, slab);
    forall x: Slot | SlotIn(t.tab, x)
      ensures HeaderOk(t.mem, AddrOf(WindowBase(t), t.tab, x), SizeAt(t.tab, x), At(t.tab, x))
    {
      if x.s != s { OtherSlots(v, s, slab, x); }
    }
  }

  lemma RecutTaken(v: View, s: nat, slab: Slab)
    requires TakenOk(v) && s < v.wLen
    ensures TakenOk(WithSlab(v, s, slab))
  {
  }

  lemma RecutRuns(v: View, s: nat, slab: Slab)
    requires RunsOk(v) && s < v.wLen && |v.tab| == v.wLen && v.wFirst + v.wLen <= v.nSlabs
    ensures RunsOk(WithSlab(v, s, slab))
  {
    var t := WithSlab(v, s, slab);
    forall i: nat | i < t.nSlabs && !InWindow(t, i) ensures t.taken[i] <==> exists f :: f in t.runs && InRun(t, f, i) {
      assert !InWindow(v, i) && t.taken[i] == v.taken[i];
      if t.taken[i] { var f :| f in v.runs && InRun(v, f, i); assert InRun(t, f, i); }
      if f :| f in t.runs && InRun(t, f, i) { assert InRun(v, f, i); }
    }
  }

  // ---- runs outside the window ------------------------------------------------------

  function Marks(taken: seq<bool>, first: nat, n: nat, b: bool): (t: seq<bool>)
    ensures |t| == |taken|
  {
    seq(|taken|, i requires 0 <= i < |taken| => if first <= i < first + n then b else taken[i])
  }

  predicate FreeRun(v: View, at: nat, n: nat) {
    at + n <= |v.taken| && forall i :: at <= i < at + n ==> !v.taken[i]
  }

  function RunTaken(v: View, at: nat, r: Run): View {
    v.(taken := Marks(v.taken, at, r.n, true), runs := v.runs[at := r])
  }

  /** Where a run finds room no other run is. */
  lemma RoomIsNobodys(v: View, at: nat, n: nat, f: nat)
    requires RunsOk(v) && FreeRun(v, at, n) && n >= 1 && f in v.runs
    requires at + n <= v.wFirst || at >= v.wFirst + v.wLen
    ensures f + v.runs[f].n <= at || at + n <= f
  {
    var i := if f < at then at else f;
    assert i < v.nSlabs && !InWindow(v, i) && InRun(v, f, i) ==> v.taken[i];
  }

  lemma RunTakenCovers(v: View, at: nat, r: Run, i: nat)
    requires RunsOk(v) && FreeRun(v, at, r.n) && at !in v.runs && i < v.nSlabs && !InWindow(v, i)
    ensures var t := RunTaken(v, at, r); t.taken[i] <==> exists f :: f in t.runs && InRun(t, f, i)
  {
    hide IsBig;
    var t := RunTaken(v, at, r);
    if t.taken[i] {
      if at <= i < at + r.n { assert InRun(t, at, i); }
      else { var f :| f in v.runs && InRun(v, f, i); assert f in t.runs && InRun(t, f, i); }
    }
    if f :| f in t.runs && InRun(t, f, i) {
      if f != at { assert f in v.runs && InRun(v, f, i); }
    }
  }

  lemma RunTakenRuns(v: View, at: nat, r: Run)
    requires RunsOk(v) && FreeRun(v, at, r.n) && r.n >= 1 && r.size <= r.n * SLAB < r.size + SLAB && r.w.Drawn?
      && IsBig(r.size)
    requires at + r.n <= v.wFirst || at >= v.wFirst + v.wLen
    requires v.wFirst + v.wLen <= v.nSlabs
    ensures at !in v.runs && RunsOk(RunTaken(v, at, r))
  {
    hide Marks, IsBig;
    var t := RunTaken(v, at, r);
    forall f | f in v.runs ensures f + v.runs[f].n <= at || at + r.n <= f { RoomIsNobodys(v, at, r.n, f); }
    forall i: nat | i < t.nSlabs && !InWindow(t, i) ensures t.taken[i] <==> exists f :: f in t.runs && InRun(t, f, i) {
      assert !InWindow(v, i);
      RunTakenCovers(v, at, r, i);
    }
  }

  lemma RunTakenOk(v: View, at: nat, r: Run)
    requires Core(v) && FreeRun(v, at, r.n) && r.n >= 1 && r.size <= r.n * SLAB < r.size + SLAB && r.w.Drawn?
      && IsBig(r.size)
    requires at + r.n <= v.wFirst || at >= v.wFirst + v.wLen
    ensures at !in v.runs && Core(RunTaken(v, at, r))
  {
    hide AddrOf, ClassOk, RunsOk, TabOk, Marks, HeadersOk, TakenOk;
    RunTakenRuns(v, at, r);
    SameWindow(v, RunTaken(v, at, r));
    RunTakenRest(v, at, r);
  }

  lemma RunTakenRest(v: View, at: nat, r: Run)
    requires Shape(v) && TakenOk(v) && HeadersOk(v) && r.w.Drawn?
    requires at + r.n <= v.wFirst || at >= v.wFirst + v.wLen
    ensures TakenOk(RunTaken(v, at, r)) && HeadersOk(RunTaken(v, at, r))
  {
    hide AddrOf, SizeAt, TabOk;
  }

  /** Nothing of the window or the memory differs. */
  lemma SameWindow(v: View, t: View)
    requires Core(v) && t == v.(taken := t.taken, runs := t.runs) && |t.taken| == v.nSlabs
    ensures Shape(t) && forall c :: 0 <= c < N_POOLED ==> ClassOk(t, c)
  {
    hide AddrOf, RunsOk, HeadersOk, TakenOk, Members, Links, Marked, TabOk;
    forall a: nat | InRegion(t, a) ensures a in t.mem { assert InRegion(v, a); }
    forall c | 0 <= c < N_POOLED ensures ClassOk(t, c) { assert ClassOk(v, c); }
  }

  function RunDropped(v: View, at: nat): View
    requires at in v.runs
  {
    v.(taken := Marks(v.taken, at, v.runs[at].n, false), runs := v.runs - {at})
  }

  lemma RunDroppedOk(v: View, at: nat)
    requires Core(v) && at in v.runs
    ensures Core(RunDropped(v, at))
  {
    hide AddrOf, ClassOk, RunsOk, TabOk, Marks, HeadersOk, TakenOk;
    RunDroppedRuns(v, at);
    SameWindow(v, RunDropped(v, at));
    RunDroppedRest(v, at);
  }

  lemma RunDroppedRest(v: View, at: nat)
    requires Shape(v) && TakenOk(v) && HeadersOk(v) && RunsOk(v) && at in v.runs
    ensures TakenOk(RunDropped(v, at)) && HeadersOk(RunDropped(v, at)) && |RunDropped(v, at).taken| == v.nSlabs
  {
    hide AddrOf, SizeAt, TabOk, IsBig, HeaderOk;
  }

  lemma RunDroppedRuns(v: View, at: nat)
    requires RunsOk(v) && at in v.runs
    ensures RunsOk(RunDropped(v, at)) && |RunDropped(v, at).taken| == v.nSlabs
  {
    hide IsBig;
    var t, n := RunDropped(v, at), v.runs[at].n;
    forall i: nat | i < t.nSlabs && !InWindow(t, i) ensures t.taken[i] <==> exists f :: f in t.runs && InRun(t, f, i) {
      assert !InWindow(v, i);
      if t.taken[i] {
        var f :| f in v.runs && InRun(v, f, i);
        assert f in t.runs && InRun(t, f, i);
      }
      if f :| f in t.runs && InRun(t, f, i) {
        assert f in v.runs && f != at && InRun(v, f, i);
        assert !(at <= i < at + n);
      }
    }
  }

  // ---- a header is written ------------------------------------------------------------

  function Headed(mem: Memory, raw: nat, size: nat, p: nat): Memory
    requires p >= 16
  {
    mem[(p - 16) as nat := raw][(p - 8) as nat := size]
  }

  /** A payload that fits its raw block behind a header */
  predicate Fits(raw: nat, size: nat, p: nat, n: nat) { raw + HEADER <= p && p + n <= raw + size && p % 16 == 0 }

  function SlotHeaded(v: View, x: Slot, p: nat, n: nat): View
    requires TabOk(v.tab) && SlotIn(v.tab, x) && p >= 16
  {
    v.(mem := Headed(v.mem, AddrOf(WindowBase(v), v.tab, x), SizeAt(v.tab, x), p), tab := SetAt(v.tab, x, Live(p, n)))
  }

  lemma HeaderTouches(v: View, x: Slot, p: nat, n: nat)
    requires Shape(v) && SlotIn(v.tab, x) && Fits(AddrOf(WindowBase(v), v.tab, x), SizeAt(v.tab, x), p, n)
    ensures Touches(v, Headed(v.mem, AddrOf(WindowBase(v), v.tab, x), SizeAt(v.tab, x), p), [x])
    ensures HeaderOk(Headed(v.mem, AddrOf(WindowBase(v), v.tab, x), SizeAt(v.tab, x), p),
                     AddrOf(WindowBase(v), v.tab, x), SizeAt(v.tab, x), Live(p, n))
  {
    hide AddrOf, SizeAt, TabOk;
    assert x in [x];
    assert InBlock(v, x, p - 16) && InBlock(v, x, p - 8);
  }

  lemma SlotHeadedOk(v: View, x: Slot, p: nat, n: nat)
    requires Core(v) && SlotIn(v.tab, x) && At(v.tab, x).Drawn?
    requires Fits(AddrOf(WindowBase(v), v.tab, x), SizeAt(v.tab, x), p, n)
    ensures Core(SlotHeaded(v, x, p, n))
  {
    hide AddrOf, RunsOk, HeadersOk, TakenOk, TabOk, ClassOk;
    var t, c := SlotHeaded(v, x, p, n), v.tab[x.s].c;
    ClassIn(v, x);
    HeaderTouches(v, x, p, n);
    RetabShape(v, t, x, Live(p, n));
    HandedClass(v, t, x, Live(p, n));
    StepCore(v, t, c, x, Live(p, n), [x]);
  }

  lemma ClassIn(v: View, x: Slot)
    requires TabOk(v.tab) && SlotIn(v.tab, x)
    ensures v.tab[x.s].c < N_POOLED
  {
  }

  /** Writing in a block that is out of the allocator's hands does not reach
      its class's candidates or list. */
  lemma HandedClass(v: View, t: View, x: Slot, w: Where)
    requires Core(v) && SlotIn(v.tab, x) && IsUsed(At(v.tab, x)) && IsUsed(w) && v.tab[x.s].c < N_POOLED
    requires t == v.(mem := t.mem, tab := SetAt(v.tab, x, w)) && Shape(t) && Touches(v, t.mem, [x])
    ensures ClassOk(t, v.tab[x.s].c)
  {
    hide AddrOf, RunsOk, HeadersOk, TakenOk, TabOk, Members, Links, Marked, Touches;
    var c, wb := v.tab[x.s].c, WindowBase(v);
    assert ClassOk(v, c);
    OffMembers(v, c, x);
    MembersSame(v.tab, x, w, c, Pooled, v.pool[c]);
    MembersSame(v.tab, x, w, c, Listed, v.ov[c]);
    AddrsSame(wb, v.tab, x, w, v.pool[c]);
    AddrsSame(wb, v.tab, x, w, v.ov[c]);
    MarkedKept(v, t.mem, [x], v.pool[c]);
    LinksKept(v, t.mem, [x], v.heads[c], v.ov[c]);
    EntriesSame(v, t, c, x, w);
  }

  function RunHeaded(v: View, f: nat, p: nat, n: nat): View
    requires f in v.runs && p >= 16
  {
    v.(mem := Headed(v.mem, v.base + f * SLAB, v.runs[f].size, p), runs := v.runs[f := v.runs[f].(w := Live(p, n))])
  }

  /** Words inside a run are nobody else's. */
  lemma InsideRun(v: View, f: nat, a: nat)
    requires Core(v) && f in v.runs && v.base + f * SLAB <= a < v.base + f * SLAB + v.runs[f].size
    ensures forall x: Slot :: !InBlock(v, x, a)
    ensures forall g :: g in v.runs && g != f ==> !(v.base + g * SLAB <= a < v.base + g * SLAB + v.runs[g].size)
    ensures a < v.base + v.nSlabs * SLAB
  {
    hide AddrOf, Core, RunsOk, TabOk, SizeAt;
    CoreFacts(v);
    RunFacts(v, f);
    forall x: Slot | InBlock(v, x, a) ensures false { RunClear(v, x, f); }
    forall g | g in v.runs && g != f ensures !(v.base + g * SLAB <= a < v.base + g * SLAB + v.runs[g].size) {
      RunsApart(v, f, g);
    }
  }

  /** No block of the window has a word changed. */
  ghost predicate WindowWords(v: View, m: Memory) {
    forall x: Slot, a :: a in v.mem && InBlock(v, x, a) ==> a in m && m[a] == v.mem[a]
  }

  lemma WindowClass(v: View, t: View, c: nat)
    requires Shape(v) && Shape(t) && c < N_POOLED && ClassOk(v, c) && WindowWords(v, t.mem)
    requires t == v.(mem := t.mem, runs := t.runs)
    ensures ClassOk(t, c)
  {
    hide AddrOf, Members, TabOk, SizeAt;
    var wb, q, o := WindowBase(v), v.pool[c], v.ov[c];
    forall i | 0 <= i < |q| ensures Word(t.mem, Addrs(wb, v.tab, q)[i] + 8, IN_POOL) {
      AddrIn(v, q[i]);
      assert Word(v.mem, Addrs(wb, v.tab, q)[i] + 8, IN_POOL);
    }
    forall i | 0 <= i < |o| ensures LinkAt(t.mem, Addrs(wb, v.tab, o), i) {
      AddrIn(v, o[i]);
      assert LinkAt(v.mem, Addrs(wb, v.tab, o), i);
    }
  }

  lemma RunHeadedOk(v: View, f: nat, p: nat, n: nat)
    requires Core(v) && f in v.runs && v.runs[f].w.Drawn? && Fits(v.base + f * SLAB, v.runs[f].size, p, n)
    ensures Core(RunHeaded(v, f, p, n))
  {
    hide AddrOf, ClassOk, RunsOk, TabOk, HeadersOk, TakenOk, InBlock;
    var t := RunHeaded(v, f, p, n);
    InsideRun(v, f, p - 16);
    InsideRun(v, f, p - 8);
    forall a: nat | InRegion(t, a) ensures a in t.mem { assert InRegion(v, a); }
    forall c | 0 <= c < N_POOLED ensures ClassOk(t, c) { WindowClass(v, t, c); }
    RunHeadedHeaders(v, f, p, n);
    RunHeadedRuns(v, f, p, n);
    TakenSame(v, t);
  }

  lemma TakenSame(v: View, t: View)
    requires TakenOk(v) && t == v.(mem := t.mem, runs := t.runs)
    ensures TakenOk(t)
  {
  }

  lemma RunHeadedHeaders(v: View, f: nat, p: nat, n: nat)
    requires Core(v) && f in v.runs && v.runs[f].w.Drawn? && Fits(v.base + f * SLAB, v.runs[f].size, p, n)
    ensures HeadersOk(RunHeaded(v, f, p, n))
  {
    hide AddrOf, ClassOk, RunsOk, TabOk, TakenOk, SizeAt, InBlock, HeaderOk;
    var t := RunHeaded(v, f, p, n);
    CoreFacts(v);
    InsideRun(v, f, p - 16);
    InsideRun(v, f, p - 8);
    forall x: Slot | SlotIn(t.tab, x)
      ensures HeaderOk(t.mem, AddrOf(WindowBase(t), t.tab, x), SizeAt(t.tab, x), At(t.tab, x))
    {
      assert HeaderOk(v.mem, AddrOf(WindowBase(v), v.tab, x), SizeAt(v.tab, x), At(v.tab, x));
      BlockHeaderStays(v, t.mem, v.base + f * SLAB, v.runs[f].size, p, x);
    }
    forall g | g in t.runs ensures HeaderOk(t.mem, t.base + g * SLAB, t.runs[g].size, t.runs[g].w) {
      if g != f {
        assert HeaderOk(v.mem, v.base + g * SLAB, v.runs[g].size, v.runs[g].w);
        HeaderStays(v.mem, t.mem, v.base + f * SLAB, v.runs[f].size, p, v.base + g * SLAB, v.runs[g].size, v.runs[g].w);
      } else {
        NewHeader(v.mem, v.base + f * SLAB, v.runs[f].size, p, n);
      }
    }
  }

  /** A header elsewhere than where one is written stays. */
  lemma HeaderStays(m: Memory, k: Memory, at: nat, size: nat, p: nat, raw: nat, len: nat, w: Where)
    requires p >= 16 && k == Headed(m, at, size, p) && HeaderOk(m, raw, len, w)
    requires !(raw <= p - 16 < raw + len) && !(raw <= p - 8 < raw + len)
    ensures HeaderOk(k, raw, len, w)
  {
  }

  lemma BlockHeaderStays(v: View, k: Memory, at: nat, size: nat, p: nat, x: Slot)
    requires TabOk(v.tab) && SlotIn(v.tab, x) && p >= 16 && k == Headed(v.mem, at, size, p)
    requires HeaderOk(v.mem, AddrOf(WindowBase(v), v.tab, x), SizeAt(v.tab, x), At(v.tab, x))
    requires !InBlock(v, x, p - 16) && !InBlock(v, x, p - 8)
    ensures HeaderOk(k, AddrOf(WindowBase(v), v.tab, x), SizeAt(v.tab, x), At(v.tab, x))
  {
    hide AddrOf, SizeAt, TabOk, Headed, HeaderOk;
    HeaderStays(v.mem, k, at, size, p, AddrOf(WindowBase(v), v.tab, x), SizeAt(v.tab, x), At(v.tab, x));
  }

  lemma NewHeader(m: Memory, at: nat, size: nat, p: nat, n: nat)
    requires p >= 16 && Fits(at, size, p, n)
    ensures HeaderOk(Headed(m, at, size, p), at, size, Live(p, n))
  {
  }

  lemma RunHeadedRuns(v: View, f: nat, p: nat, n: nat)
    requires RunsOk(v) && f in v.runs && p >= 16
    ensures RunsOk(RunHeaded(v, f, p, n))
  {
    hide IsBig;
    var t := RunHeaded(v, f, p, n);
    forall i: nat | i < t.nSlabs && !InWindow(t, i) ensures t.taken[i] <==> exists g :: g in t.runs && InRun(t, g, i) {
      assert !InWindow(v, i);
      if t.taken[i] { var g :| g in v.runs && InRun(v, g, i); assert g in t.runs && InRun(t, g, i); }
      if g :| g in t.runs && InRun(t, g, i) { assert g in v.runs && InRun(v, g, i); }
    }
  }

  // ---- what callers write -------------------------------------------------------------

  /** A word inside the payload the caller was given */
  predicate Inside(b: Block, a: nat) { b.p <= a && a + 8 <= b.p + b.n }

  /** A caller that keeps to its payloads cannot harm the heap: not its lists,
      which run through free blocks, and not the headers. */
  lemma StoreOk(v: View, b: Block, a: nat, val: nat)
    requires Core(v) && IsLive(v, b) && Inside(b, a)
    ensures Core(v.(mem := v.mem[a := val]))
  {
    hide Core, IsLive;
    LiveIsInside(v, b);
    SlotOrRun(v, b);
    if x: Slot :| LiveIn(v, b, x) {
      StoreInSlot(v, b, x, a, val);
    } else {
      var f: nat :| LiveRun(v, b, f);
      StoreInRun(v, b, f, a, val);
    }
  }

  lemma SlotOrRun(v: View, b: Block)
    requires Core(v) && IsLive(v, b)
    ensures TabOk(v.tab) && ((exists x: Slot :: LiveIn(v, b, x)) || (exists f: nat :: LiveRun(v, b, f)))
  {
  }

  lemma StoreInSlot(v: View, b: Block, x: Slot, a: nat, val: nat)
    requires Core(v) && LiveIn(v, b, x) && Inside(b, a) && Fits(b.raw, b.size, b.p, b.n)
    requires Word(v.mem, b.p - 16, b.raw) && Word(v.mem, b.p - 8, b.size)
    ensures Core(v.(mem := v.mem[a := val]))
  {
    hide AddrOf, RunsOk, HeadersOk, TakenOk, TabOk, ClassOk, SizeAt;
    var t, w, c := v.(mem := v.mem[a := val]), At(v.tab, x), v.tab[x.s].c;
    assert v.tab[x.s].st[x.k := w] == v.tab[x.s].st;
    assert SetAt(v.tab, x, w) == v.tab;
    ClassIn(v, x);
    assert x in [x] && InBlock(v, x, a);
    assert Touches(v, t.mem, [x]);
    RetabShape(v, t, x, w);
    HandedClass(v, t, x, w);
    StepCore(v, t, c, x, w, [x]);
  }

  lemma StoreInRun(v: View, b: Block, f: nat, a: nat, val: nat)
    requires Core(v) && LiveRun(v, b, f) && Inside(b, a) && Fits(b.raw, b.size, b.p, b.n)
    ensures Core(v.(mem := v.mem[a := val]))
  {
    hide AddrOf, ClassOk, RunsOk, TabOk, HeadersOk, TakenOk, InBlock;
    var t := v.(mem := v.mem[a := val]);
    InsideRun(v, f, a);
    forall d: nat | InRegion(t, d) ensures d in t.mem { assert InRegion(v, d); }
    forall c | 0 <= c < N_POOLED ensures ClassOk(t, c) { WindowClass(v, t, c); }
    StoreHeaders(v, b, f, a, val);
    StepRuns(v, t);
    TakenSame(v, t);
  }

  lemma StoreHeaders(v: View, b: Block, f: nat, a: nat, val: nat)
    requires Core(v) && LiveRun(v, b, f) && Inside(b, a) && Fits(b.raw, b.size, b.p, b.n)
    ensures HeadersOk(v.(mem := v.mem[a := val]))
  {
    hide AddrOf, ClassOk, RunsOk, TabOk, TakenOk, SizeAt;
    var t := v.(mem := v.mem[a := val]);
    InsideRun(v, f, a);
    forall x: Slot | SlotIn(t.tab, x)
      ensures HeaderOk(t.mem, AddrOf(WindowBase(t), t.tab, x), SizeAt(t.tab, x), At(t.tab, x))
    {
      var w := At(v.tab, x);
      assert HeaderOk(v.mem, AddrOf(WindowBase(v), v.tab, x), SizeAt(v.tab, x), w);
      if w.Live? { assert InBlock(v, x, w.p - 16) && InBlock(v, x, w.p - 8); }
    }
    forall g | g in t.runs ensures HeaderOk(t.mem, t.base + g * SLAB, t.runs[g].size, t.runs[g].w) {
      assert HeaderOk(v.mem, v.base + g * SLAB, v.runs[g].size, v.runs[g].w);
    }
  }

  // ---- the account of live blocks --------------------------------------------------------

  /** One block changes hands and its slab's count moves with it. */
  lemma LiveMoves(v: View, t: View, x: Slot, w: Where)
    requires LiveOk(v) && SlotIn(v.tab, x) && t.tab == SetAt(v.tab, x, w) && |t.live| == |v.live|
    requires t.live == v.live[x.s := t.live[x.s]]
    requires t.live[x.s] + (if IsUsed(At(v.tab, x)) then 1 else 0) == v.live[x.s] + (if IsUsed(w) then 1 else 0)
    ensures LiveOk(t)
  {
    UsedSet(v.tab[x.s].st, x.k, w);
  }

  lemma LiveCounts(v: View, x: Slot)
    requires LiveOk(v) && SlotIn(v.tab, x) && TabOk(v.tab)
    ensures v.live[x.s] <= 4096 && (IsUsed(At(v.tab, x)) ==> v.live[x.s] > 0)
  {
    UsedSet(v.tab[x.s].st, x.k, At(v.tab, x));
  }

  lemma RecutLive(v: View, s: nat, slab: Slab)
    requires LiveOk(v) && s < |v.tab| && v.wFirst + s < |v.taken| && Idle(v.tab[s]) && Idle(slab)
    ensures LiveOk(WithSlab(v, s, slab))
  {
    if v.tab[s].Cut? { NoneUsed(v.tab[s].st); }
    if slab.Cut? { NoneUsed(slab.st); }
  }

  // ---- live allocations --------------------------------------------------------------------

  /** A live allocation: its raw block, and the payload and size the caller has */
  datatype Block = Block(raw: nat, size: nat, p: nat, n: nat)

  ghost predicate LiveIn(v: View, b: Block, x: Slot)
    requires TabOk(v.tab)
  {
    SlotIn(v.tab, x) && At(v.tab, x) == Live(b.p, b.n)
    && b.raw == AddrOf(WindowBase(v), v.tab, x) && b.size == SizeAt(v.tab, x)
  }

  predicate LiveRun(v: View, b: Block, f: nat) {
    f in v.runs && v.runs[f].w == Live(b.p, b.n) && b.raw == v.base + f * SLAB && b.size == v.runs[f].size
  }

  ghost predicate IsLive(v: View, b: Block)
    requires TabOk(v.tab)
  {
    (exists x: Slot :: LiveIn(v, b, x)) || (exists f: nat :: LiveRun(v, b, f))
  }

  /** A live block lies in the region; its payload lies in it behind a header
      that names it, at a multiple of 16. */
  lemma LiveIsInside(v: View, b: Block)
    requires Core(v) && IsLive(v, b)
    ensures v.base <= b.raw && b.raw + b.size <= v.base + v.nSlabs * SLAB && b.size >= 16
    ensures Fits(b.raw, b.size, b.p, b.n) && Word(v.mem, b.p - 16, b.raw) && Word(v.mem, b.p - 8, b.size)
  {
    hide AddrOf, ClassOk, TakenOk, TabOk;
    if x: Slot :| LiveIn(v, b, x) {
      AddrIn(v, x);
      assert HeaderOk(v.mem, b.raw, b.size, At(v.tab, x));
    } else {
      var f: nat :| LiveRun(v, b, f);
      assert HeaderOk(v.mem, b.raw, b.size, v.runs[f].w);
    }
  }

  /** Two live blocks share no byte, and so do their payloads. */
  lemma LiveBlocksApart(v: View, a: Block, b: Block)
    requires Core(v) && IsLive(v, a) && IsLive(v, b) && a != b
    ensures a.raw + a.size <= b.raw || b.raw + b.size <= a.raw
    ensures a.p + a.n <= b.p || b.p + b.n <= a.p
  {
    hide AddrOf, SizeAt, TabOk, RunsOk, Core, Shape, HeaderOk;
    LiveIsInside(v, a);
    LiveIsInside(v, b);
    CoreFacts(v);
    if x: Slot :| LiveIn(v, a, x) {
      if y: Slot :| LiveIn(v, b, y) {
        Apart(WindowBase(v), v.tab, x, y);
      } else {
        var g: nat :| LiveRun(v, b, g);
        RunClear(v, x, g);
      }
    } else {
      var f: nat :| LiveRun(v, a, f);
      if y: Slot :| LiveIn(v, b, y) {
        RunClear(v, y, f);
      } else {
        var g: nat :| LiveRun(v, b, g);
        RunsApart(v, f, g);
      }
    }
  }

  lemma RunsApart(v: View, f: nat, g: nat)
    requires RunsOk(v) && f in v.runs && g in v.runs && f != g
    ensures v.base + f * SLAB + v.runs[f].size <= v.base + g * SLAB
      || v.base + g * SLAB + v.runs[g].size <= v.base + f * SLAB
  {
    if f < g { assert f + v.runs[f].n <= g; } else { assert g + v.runs[g].n <= f; }
  }
}

/** What a seeded heap's tables, lists and memory say about each other, and
    that each small step on them keeps it. */
module HeapSpec {
  import opened HeapSizes
  import opened HeapLayout

  /** A run of slabs outside the window */
  datatype Run = Run(n: nat, size: nat, w: Where)

  /** The heap: its region and bitmap, its tables, its memory, and what they
      stand for */
  datatype View = View(
    base: nat, nSlabs: nat, wFirst: nat, wLen: nat,
    taken: seq<bool>, pools: seq<seq<nat>>, poolLen: seq<nat>, free: seq<nat>, live: seq<nat>,
    heads: seq<nat>, mem: Memory,
    tab: seq<Slab>, pool: seq<seq<Slot>>, ov: seq<seq<Slot>>, runs: map<nat, Run>)

  function WindowBase(v: View): nat { v.base + v.wFirst * SLAB }

  predicate InRegion(v: View, a: nat) { v.base <= a < v.base + v.nSlabs * SLAB && a % 8 == 0 }

  ghost predicate Shape(v: View) {
    && v.base > 0 && v.base % 16 == 0 && |v.taken| == v.nSlabs
    && v.wFirst + v.wLen <= v.nSlabs && (v.wFirst == 0 || v.wFirst + v.wLen == v.nSlabs) && v.wLen <= WINDOW_SLABS
    && |v.pools| == |v.poolLen| == |v.free| == |v.heads| == |v.pool| == |v.ov| == N_POOLED
    && |v.live| == |v.tab| == v.wLen && TabOk(v.tab)
    && forall a: nat :: InRegion(v, a) ==> a in v.mem
  }

  predicate Entries(v: View, c: nat)
    requires c < |v.pools| && c < |v.pool| && TabOk(v.tab)
  {
    && AllIn(v.tab, v.pool[c]) && |v.pool[c]| <= POOL == |v.pools[c]|
    && forall i :: 0 <= i < |v.pool[c]| ==>
         WindowBase(v) + v.pools[c][i] * 16 == AddrOf(WindowBase(v), v.tab, v.pool[c][i])
  }

  /** A class's candidates and list are exactly its free blocks, each once; the
      table's offsets, the marks and the links say so. */
  ghost predicate ClassOk(v: View, c: nat)
    requires Shape(v) && c < N_POOLED
  {
    && Members(v.tab, c, Pooled, v.pool[c]) && Members(v.tab, c, Listed, v.ov[c])
    && v.poolLen[c] == |v.pool[c]| && Entries(v, c)
    && AllIn(v.tab, v.ov[c])
    && Marked(v.mem, Addrs(WindowBase(v), v.tab, v.pool[c]))
    && Links(v.mem, v.heads[c], Addrs(WindowBase(v), v.tab, v.ov[c]))
  }

  predicate TakenOk(v: View) {
    v.wFirst + v.wLen <= |v.taken| && |v.tab| == v.wLen
    && forall s :: 0 <= s < v.wLen ==> (v.taken[v.wFirst + s] <==> v.tab[s].Cut?)
  }

  /** The two words in front of a live block point back at its storage and
      give that storage's size, which the block fits in. */
  predicate HeaderOk(mem: Memory, raw: nat, size: nat, w: Where) {
    w.Live? ==>
      raw + HEADER <= w.p && w.p + w.n <= raw + size && w.p % 16 == 0
      && Word(mem, w.p - 16, raw) && Word(mem, w.p - 8, size)
  }

  ghost predicate HeadersOk(v: View)
    requires TabOk(v.tab)
  {
    && (forall x: Slot {:trigger At(v.tab, x)} :: SlotIn(v.tab, x) ==>
          HeaderOk(v.mem, AddrOf(WindowBase(v), v.tab, x), SizeAt(v.tab, x), At(v.tab, x)))
    && (forall f :: f in v.runs ==> HeaderOk(v.mem, v.base + f * SLAB, v.runs[f].size, v.runs[f].w))
  }

  predicate InRun(v: View, f: nat, i: nat)
    requires f in v.runs
  {
    f <= i < f + v.runs[f].n
  }

  predicate InWindow(v: View, i: nat) { v.wFirst <= i < v.wFirst + v.wLen }

  /** A block size of no pooled class */
  predicate IsBig(size: nat) {
    var f := ClassFor(size);
    f.Some? && f.value.size == size && (f.value.class_.None? || f.value.class_.value >= N_POOLED)
  }

  /** Runs are apart, lie outside the window, and are exactly what is taken
      there. */
  predicate RunsOk(v: View) {
    && |v.taken| == v.nSlabs
    && (forall f :: f in v.runs ==>
          v.runs[f].n >= 1 && f + v.runs[f].n <= v.nSlabs
            && v.runs[f].size <= v.runs[f].n * SLAB < v.runs[f].size + SLAB
          && (v.runs[f].w.Live? || v.runs[f].w.Drawn?) && IsBig(v.runs[f].size)
          && (f + v.runs[f].n <= v.wFirst || f >= v.wFirst + v.wLen))
    && (forall f, g :: f in v.runs && g in v.runs && f < g ==> f + v.runs[f].n <= g)
    && (forall i: nat :: i < v.nSlabs && !InWindow(v, i) ==>
         (v.taken[i] <==> exists f :: f in v.runs && InRun(v, f, i)))
  }

  ghost predicate Core(v: View) {
    && Shape(v) && (forall c :: 0 <= c < N_POOLED ==> ClassOk(v, c))
    && TakenOk(v) && RunsOk(v) && HeadersOk(v)
  }

  predicate LiveOk(v: View) {
    |v.live| == |v.tab|
    && forall s :: 0 <= s < |v.tab| ==> v.live[s] == if v.tab[s].Cut? then Used(v.tab[s].st) else 0
  }

  predicate FreeOk(v: View) {
    |v.free| == |v.pool| == |v.ov| && forall c :: 0 <= c < |v.free| ==> v.free[c] == |v.pool[c]| + |v.ov[c]|
  }

  predicate Settled(w: Where) { w.Live? || w.Pooled? || w.Listed? }

  /** Between calls no block is on its way: each is one of live, candidate or
      listed. */
  ghost predicate Quiet(v: View) {
    && (forall x: Slot {:trigger At(v.tab, x)} :: SlotIn(v.tab, x) ==> Settled(At(v.tab, x)))
    && (forall f :: f in v.runs ==> v.runs[f].w.Live?)
  }

  /** What holds between calls */
  ghost predicate Ok(v: View) { Core(v) && LiveOk(v) && FreeOk(v) && Quiet(v) }

  // ---- writing memory ------------------------------------------------------------

  predicate InBlock(v: View, x: Slot, a: nat) {
    TabOk(v.tab) && SlotIn(v.tab, x)
    && AddrOf(WindowBase(v), v.tab, x) <= a < AddrOf(WindowBase(v), v.tab, x) + SizeAt(v.tab, x)
  }

  /** Only words of the blocks in `z` may have changed. */
  predicate Touches(v: View, m: Memory, z: seq<Slot>) {
    forall a :: a in v.mem ==> a in m && (m[a] == v.mem[a] || exists x :: x in z && InBlock(v, x, a))
  }

  lemma CoreFacts(v: View)
    requires Core(v)
    ensures Shape(v) && TabOk(v.tab) && RunsOk(v) && v.base % 16 == 0 && WindowBase(v) % 16 == 0
    ensures |v.tab| == v.wLen && v.wFirst + v.wLen <= v.nSlabs
  {
    hide TabOk, ClassOk, RunsOk, HeadersOk, TakenOk;
    WindowAligned(v.base, v.wFirst);
  }

  lemma WindowAligned(base: nat, first: nat)
    requires base % 16 == 0
    ensures (base + first * SLAB) % 16 == 0
  {
  }

  lemma RunFacts(v: View, f: nat)
    requires RunsOk(v) && f in v.runs
    ensures var r := v.runs[f];
            && 1 <= r.n && f + r.n <= v.nSlabs && r.size <= r.n * SLAB < r.size + SLAB
            && (f + r.n <= v.wFirst || f >= v.wFirst + v.wLen)
  {
    hide IsBig, InRun, InWindow;
  }

  /** A block of the window and a run share no byte. */
  lemma RunClear(v: View, x: Slot, f: nat)
    requires Shape(v) && RunsOk(v) && SlotIn(v.tab, x) && f in v.runs
    ensures var a, at := AddrOf(WindowBase(v), v.tab, x), v.base + f * SLAB;
            && SizeAt(v.tab, x) >= 16 && a % 16 == 0
            && (a + SizeAt(v.tab, x) <= at || at + v.runs[f].size <= a) && a != at
  {
    hide TabOk, RunsOk, AddrOf, SizeAt;
    RunFacts(v, f);
    AddrBounds(WindowBase(v), v.tab, x);
    SizePositive(v.tab, x);
    SlabOrder(v.wFirst, v.wLen, f, v.runs[f].n);
  }

  lemma SlabOrder(first: nat, len: nat, f: nat, n: nat)
    requires f + n <= first || f >= first + len
    ensures f * SLAB + n * SLAB <= first * SLAB || f * SLAB >= first * SLAB + len * SLAB
  {
  }

  lemma OneBlockEach(v: View, x: Slot, y: Slot, a: nat)
    requires v.base % 16 == 0 && InBlock(v, x, a) && InBlock(v, y, a)
    ensures x == y
  {
    hide AddrOf, TabOk;
    if x != y { Apart(WindowBase(v), v.tab, x, y); }
  }

  lemma Untouched(v: View, m: Memory, z: seq<Slot>, y: Slot, a: nat)
    requires Shape(v) && Touches(v, m, z) && y !in z && InBlock(v, y, a) && a in v.mem
    ensures a in m && m[a] == v.mem[a]
  {
    hide InBlock, TabOk;
    if m[a] != v.mem[a] {
      var x :| x in z && InBlock(v, x, a);
      OneBlockEach(v, x, y, a);
    }
  }

  /** A header of a block that was not written is as it was. */
  lemma HeaderKept(v: View, m: Memory, z: seq<Slot>, y: Slot)
    requires Core(v) && Touches(v, m, z) && SlotIn(v.tab, y) && y !in z
    ensures HeaderOk(m, AddrOf(WindowBase(v), v.tab, y), SizeAt(v.tab, y), At(v.tab, y))
  {
    hide AddrOf, ClassOk, RunsOk;
    var w, raw, size := At(v.tab, y), AddrOf(WindowBase(v), v.tab, y), SizeAt(v.tab, y);
    assert HeaderOk(v.mem, raw, size, w);
    if w.Live? {
      Untouched(v, m, z, y, w.p - 16);
      Untouched(v, m, z, y, w.p - 8);
    }
  }

  /** Blocks of the window are not in any run. */
  lemma RunKept(v: View, m: Memory, z: seq<Slot>, f: nat)
    requires Core(v) && Touches(v, m, z) && f in v.runs
    ensures HeaderOk(m, v.base + f * SLAB, v.runs[f].size, v.runs[f].w)
  {
    hide AddrOf, ClassOk;
    var r := v.runs[f];
    assert HeaderOk(v.mem, v.base + f * SLAB, r.size, r.w);
    if r.w.Live? {
      OutsideWindow(v, m, z, f, r.w.p - 16);
      OutsideWindow(v, m, z, f, r.w.p - 8);
    }
  }

  lemma OutsideWindow(v: View, m: Memory, z: seq<Slot>, f: nat, a: nat)
    requires Shape(v) && RunsOk(v) && Touches(v, m, z) && f in v.runs && a in v.mem
    requires v.base + f * SLAB <= a < v.base + f * SLAB + v.runs[f].size
    ensures a in m && m[a] == v.mem[a]
  {
    hide AddrOf, RunsOk, TabOk;
    if m[a] != v.mem[a] {
      var x :| x in z && InBlock(v, x, a);
      RunClear(v, x, f);
    }
  }

  lemma WordsKept(v: View, m: Memory, z: seq<Slot>, y: Slot)
    requires Shape(v) && Touches(v, m, z) && SlotIn(v.tab, y) && y !in z
    ensures var a := AddrOf(WindowBase(v), v.tab, y);
            (a in v.mem ==> a in m && m[a] == v.mem[a]) && (a + 8 in v.mem ==> a + 8 in m && m[a + 8] == v.mem[a + 8])
  {
    var a := AddrOf(WindowBase(v), v.tab, y);
    SizePositive(v.tab, y);
    if a in v.mem { Untouched(v, m, z, y, a); }
    if a + 8 in v.mem { Untouched(v, m, z, y, a + 8); }
  }

  lemma MarkedKept(v: View, m: Memory, z: seq<Slot>, q: seq<Slot>)
    requires Shape(v) && Touches(v, m, z) && AllIn(v.tab, q) && Marked(v.mem, Addrs(WindowBase(v), v.tab, q))
    requires forall i :: 0 <= i < |q| ==> q[i] !in z
    ensures Marked(m, Addrs(WindowBase(v), v.tab, q))
  {
    hide AddrOf;
    var a := Addrs(WindowBase(v), v.tab, q);
    forall i | 0 <= i < |a| ensures Word(m, a[i] + 8, IN_POOL) {
      assert Word(v.mem, a[i] + 8, IN_POOL);
      WordsKept(v, m, z, q[i]);
    }
  }

  lemma LinksKept(v: View, m: Memory, z: seq<Slot>, head: nat, q: seq<Slot>)
    requires Shape(v) && Touches(v, m, z) && AllIn(v.tab, q) && Links(v.mem, head, Addrs(WindowBase(v), v.tab, q))
    requires forall i :: 0 <= i < |q| ==> q[i] !in z
    ensures Links(m, head, Addrs(WindowBase(v), v.tab, q))
  {
    hide AddrOf;
    var a := Addrs(WindowBase(v), v.tab, q);
    forall i | 0 <= i < |a| ensures LinkAt(m, a, i) {
      assert LinkAt(v.mem, a, i);
      WordsKept(v, m, z, q[i]);
    }
  }

  // ---- one block of one class changes hands ------------------------------------------

  /** Everything of other classes is as it was. */
  predicate OnlyClass(v: View, t: View, c: nat)
    requires Shape(v) && c < N_POOLED
  {
    && t == v.(pools := t.pools, poolLen := t.poolLen, free := t.free, live := t.live, heads := t.heads, mem := t.mem,
               tab := t.tab, pool := t.pool, ov := t.ov)
    && |t.pools| == |t.poolLen| == |t.free| == |t.heads| == |t.pool| == |t.ov| == N_POOLED && |t.live| == v.wLen
    && forall d :: 0 <= d < N_POOLED && d != c ==>
         t.pools[d] == v.pools[d] && t.poolLen[d] == v.poolLen[d] && t.heads[d] == v.heads[d]
         && t.pool[d] == v.pool[d] && t.ov[d] == v.ov[d]
  }

  /** The blocks that were written are of class `c` and, but for `x`, free. */
  predicate FreeOf(v: View, z: seq<Slot>, c: nat, x: Slot) {
    forall i :: 0 <= i < |z| ==> SlotIn(v.tab, z[i]) && v.tab[z[i].s].c == c && (z[i] != x ==> !At(v.tab, z[i]).Live?)
  }

  lemma OtherClass(v: View, t: View, c: nat, x: Slot, w: Where, z: seq<Slot>, d: nat)
    requires Core(v) && c < N_POOLED && OnlyClass(v, t, c) && SlotIn(v.tab, x) && v.tab[x.s].c == c
    requires t.tab == SetAt(v.tab, x, w) && Shape(t) && Touches(v, t.mem, z) && FreeOf(v, z, c, x)
    requires d < N_POOLED && d != c
    ensures ClassOk(t, d)
  {
    hide AddrOf, RunsOk, HeadersOk, TakenOk, TabOk, Members, Links, Marked;
    assert ClassOk(v, d);
    MembersSame(v.tab, x, w, d, Pooled, v.pool[d]);
    MembersSame(v.tab, x, w, d, Listed, v.ov[d]);
    AddrsSame(WindowBase(v), v.tab, x, w, v.pool[d]);
    AddrsSame(WindowBase(v), v.tab, x, w, v.ov[d]);
    ClassApart(v, d, Pooled, v.pool[d], z, c, x);
    ClassApart(v, d, Listed, v.ov[d], z, c, x);
    MarkedKept(v, t.mem, z, v.pool[d]);
    LinksKept(v, t.mem, z, v.heads[d], v.ov[d]);
    EntriesSame(v, t, d, x, w);
  }

  lemma ClassApart(v: View, d: nat, w: Where, q: seq<Slot>, z: seq<Slot>, c: nat, x: Slot)
    requires Members(v.tab, d, w, q) && FreeOf(v, z, c, x) && d != c
    ensures forall i :: 0 <= i < |q| ==> q[i] !in z
  {
    forall i | 0 <= i < |q| ensures q[i] !in z { assert Holds(v.tab, q[i], d, w); }
  }

  lemma EntriesSame(v: View, t: View, d: nat, x: Slot, w: Where)
    requires TabOk(v.tab) && SlotIn(v.tab, x) && t.tab == SetAt(v.tab, x, w) && TabOk(t.tab)
    requires d < |v.pools| == |t.pools| && d < |v.pool| == |t.pool| && Entries(v, d)
    requires t.pools[d] == v.pools[d] && t.pool[d] == v.pool[d] && WindowBase(t) == WindowBase(v)
    ensures Entries(t, d)
  {
    SetAtOk(v.tab, x, w);
  }

  /** A step within one class keeps everything else: it is enough to look at
      that class, at the memory it wrote, and at the block's own header. */
  lemma StepCore(v: View, t: View, c: nat, x: Slot, w: Where, z: seq<Slot>)
    requires Core(v) && c < N_POOLED && OnlyClass(v, t, c) && SlotIn(v.tab, x) && v.tab[x.s].c == c
    requires t.tab == SetAt(v.tab, x, w) && Shape(t) && Touches(v, t.mem, z) && FreeOf(v, z, c, x)
    requires ClassOk(t, c)
    requires HeaderOk(t.mem, AddrOf(WindowBase(v), v.tab, x), SizeAt(v.tab, x), w)
    ensures Core(t)
  {
    hide AddrOf, ClassOk, TabOk;
    forall d | 0 <= d < N_POOLED ensures ClassOk(t, d) {
      if d != c { OtherClass(v, t, c, x, w, z, d); }
    }
    StepHeaders(v, t, c, x, w, z);
    StepTaken(v, t, x, w);
    StepRuns(v, t);
  }

  lemma StepRuns(v: View, t: View)
    requires RunsOk(v)
      && t == v.(pools := t.pools, poolLen := t.poolLen, free := t.free, live := t.live, heads := t.heads,
                                  mem := t.mem, tab := t.tab, pool := t.pool, ov := t.ov)
    ensures RunsOk(t)
  {
    hide IsBig;
    forall i: nat | i < t.nSlabs && !InWindow(t, i) ensures t.taken[i] <==> exists f :: f in t.runs && InRun(t, f, i) {
      assert !InWindow(v, i);
      if t.taken[i] { var f :| f in v.runs && InRun(v, f, i); assert InRun(t, f, i); }
      if f :| f in t.runs && InRun(t, f, i) { assert InRun(v, f, i); }
    }
  }

  lemma StepTaken(v: View, t: View, x: Slot, w: Where)
    requires TakenOk(v) && SlotIn(v.tab, x) && t.tab == SetAt(v.tab, x, w)
    requires t.taken == v.taken && t.wFirst == v.wFirst && t.wLen == v.wLen
    ensures TakenOk(t)
  {
  }

  lemma StepHeaders(v: View, t: View, c: nat, x: Slot, w: Where, z: seq<Slot>)
    requires Core(v) && c < N_POOLED && OnlyClass(v, t, c) && SlotIn(v.tab, x)
    requires t.tab == SetAt(v.tab, x, w) && TabOk(t.tab) && Touches(v, t.mem, z) && FreeOf(v, z, c, x)
    requires HeaderOk(t.mem, AddrOf(WindowBase(v), v.tab, x), SizeAt(v.tab, x), w)
    ensures HeadersOk(t)
  {
    hide AddrOf, ClassOk, RunsOk, Touches, SizeAt;
    SetAtOk(v.tab, x, w);
    forall y: Slot | SlotIn(t.tab, y)
      ensures HeaderOk(t.mem, AddrOf(WindowBase(t), t.tab, y), SizeAt(t.tab, y), At(t.tab, y))
    {
      if y != x {
        if y in z {
          assert !At(v.tab, y).Live?;
        } else {
          HeaderKept(v, t.mem, z, y);
        }
      }
    }
    forall f | f in t.runs ensures HeaderOk(t.mem, t.base + f * SLAB, t.runs[f].size, t.runs[f].w) {
      RunKept(v, t.mem, z, f);
    }
  }
}

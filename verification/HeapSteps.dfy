/** The steps `alloc` and `free` are made of: a block joins or leaves its
    class's candidates or list. */
module HeapSteps {
  import opened HeapSizes
  import opened HeapLayout
  import opened HeapSpec

  predicate OfClass(v: View, c: nat, x: Slot) {
    c < N_POOLED && SlotIn(v.tab, x) && v.tab[x.s].c == c
  }

  /** A block of class `c` that is neither a candidate nor listed */
  predicate OffLists(v: View, c: nat, x: Slot) {
    OfClass(v, c, x) && !At(v.tab, x).Pooled? && !At(v.tab, x).Listed?
  }

  lemma SlabsAre16(base: nat, n: nat)
    requires base % 16 == 0
    ensures (base + n * SLAB) % 16 == 0
  {
    assert n * SLAB == 16 * (n * (SLAB / 16));
  }

  lemma WindowIn(v: View)
    requires Shape(v)
    ensures WindowBase(v) % 16 == 0 && 0 < v.base <= WindowBase(v) && |v.tab| == v.wLen
    ensures WindowBase(v) + v.wLen * SLAB <= v.base + v.nSlabs * SLAB
  {
    hide TabOk;
    SlabsAre16(v.base, v.wFirst);
    assert (v.wFirst + v.wLen) * SLAB <= v.nSlabs * SLAB;
  }

  lemma Aligned8(a: nat)
    requires a % 16 == 0
    ensures a % 8 == 0 && (a + 8) % 8 == 0
  {}

  /** The first two words of an aligned block are in the region. */
  lemma WordsIn(v: View, a: nat, size: nat)
    requires Shape(v) && v.base <= a && a % 16 == 0 && size >= 16 && a + size <= v.base + v.nSlabs * SLAB
    ensures a in v.mem && a + 8 in v.mem
  {
    hide TabOk;
    Aligned8(a);
    assert InRegion(v, a) && InRegion(v, a + 8);
  }

  lemma SizeIs16(tab: seq<Slab>, x: Slot)
    requires TabOk(tab) && SlotIn(tab, x)
    ensures SizeAt(tab, x) >= 16
  {
  }

  lemma BlockWords(v: View, x: Slot, a: nat)
    requires TabOk(v.tab) && SlotIn(v.tab, x) && a == AddrOf(WindowBase(v), v.tab, x) && SizeAt(v.tab, x) >= 16
    ensures InBlock(v, x, a) && InBlock(v, x, a + 8)
  {
    hide TabOk, AddrOf, SizeAt, WindowBase;
  }

  lemma AddrIn(v: View, x: Slot)
    requires Shape(v) && SlotIn(v.tab, x)
    ensures var a := AddrOf(WindowBase(v), v.tab, x);
            && a in v.mem && a + 8 in v.mem && a % 16 == 0 && a > 0 && InBlock(v, x, a) && InBlock(v, x, a + 8)
            && a >= WindowBase(v) && (a - WindowBase(v)) % 16 == 0 && (a - WindowBase(v)) / SLAB == x.s
            && a + SizeAt(v.tab, x) <= v.base + v.nSlabs * SLAB && SizeAt(v.tab, x) >= 16
  {
    WindowIn(v);
    SizeIs16(v.tab, x);
    hide Shape, TabOk, AddrOf, SizeAt, WindowBase, InRegion, InBlock;
    AddrBounds(WindowBase(v), v.tab, x);
    var a: nat := AddrOf(WindowBase(v), v.tab, x);
    WordsIn(v, a, SizeAt(v.tab, x));
    BlockWords(v, x, a);
  }

  lemma RetabShape(v: View, t: View, x: Slot, w: Where)
    requires Shape(v) && SlotIn(v.tab, x) && t.tab == SetAt(v.tab, x, w)
    requires t
      == v.(pools := t.pools, poolLen := t.poolLen, free := t.free, live := t.live, heads := t.heads, mem := t.mem,
                     tab := t.tab, pool := t.pool, ov := t.ov)
    requires |t.pools| == |t.poolLen| == |t.free| == |t.heads| == |t.pool| == |t.ov| == N_POOLED && |t.live| == v.wLen
    requires forall a :: a in v.mem ==> a in t.mem
    ensures Shape(t)
  {
    SetAtOk(v.tab, x, w);
    forall a: nat | InRegion(t, a) ensures a in t.mem { assert InRegion(v, a); }
  }

  // ---- a block joins the candidates ------------------------------------------------

  /** An address as a table entry: its distance in units of 16 bytes */
  function Entry(wb: nat, a: nat): nat
    requires a >= wb
  {
    (a - wb) / 16
  }

  function Put(t: seq<nat>, i: nat, e: nat): seq<nat>
    requires i < |t|
  {
    t[i := e]
  }

  function Offered(v: View, c: nat, x: Slot): View
    requires TabOk(v.tab) && OfClass(v, c, x) && c < |v.pools| == |v.poolLen| == |v.pool|
    requires v.poolLen[c] < |v.pools[c]| && AddrOf(WindowBase(v), v.tab, x) >= WindowBase(v)
  {
    var a := AddrOf(WindowBase(v), v.tab, x);
    v.(mem := v.mem[a + 8 := IN_POOL],
       pools := v.pools[c := Put(v.pools[c], v.poolLen[c], Entry(WindowBase(v), a))],
       poolLen := v.poolLen[c := v.poolLen[c] + 1],
       tab := SetAt(v.tab, x, Pooled), pool := v.pool[c := v.pool[c] + [x]])
  }

  lemma OfferedOk(v: View, c: nat, x: Slot)
    requires Core(v) && OffLists(v, c, x) && v.poolLen[c] < POOL
    ensures |v.pools[c]| == POOL && AddrOf(WindowBase(v), v.tab, x) >= WindowBase(v)
    ensures Core(Offered(v, c, x))
  {
    hide AddrOf, RunsOk, HeadersOk, TakenOk, TabOk, Members, Links, Marked, At;
    AddrIn(v, x);
    assert ClassOk(v, c);
    var t := Offered(v, c, x);
    RetabShape(v, t, x, Pooled);
    MarkTouches(v, x);
    OfferedClass(v, c, x);
    StepCore(v, t, c, x, Pooled, [x]);
  }

  lemma MarkTouches(v: View, x: Slot)
    requires Shape(v) && SlotIn(v.tab, x)
    ensures Touches(v, v.mem[AddrOf(WindowBase(v), v.tab, x) + 8 := IN_POOL], [x])
  {
    AddrIn(v, x);
    assert x in [x];
  }

  lemma OfferedClass(v: View, c: nat, x: Slot)
    requires Core(v) && OffLists(v, c, x) && v.poolLen[c] < POOL
    requires |v.pools[c]| == POOL && AddrOf(WindowBase(v), v.tab, x) >= WindowBase(v) && Shape(Offered(v, c, x))
    ensures ClassOk(Offered(v, c, x), c)
  {
    hide AddrOf, RunsOk, HeadersOk, TakenOk, TabOk, Members, Links, Touches;
    var t, wb, q := Offered(v, c, x), WindowBase(v), v.pool[c];
    assert ClassOk(v, c);
    AddrIn(v, x);
    OffMembers(v, c, x);
    MembersGain(v.tab, x, Pooled, q);
    MembersSame(v.tab, x, Pooled, c, Listed, v.ov[c]);
    AddrsSame(wb, v.tab, x, Pooled, q);
    AddrsSame(wb, v.tab, x, Pooled, v.ov[c]);
    AddrsSame(wb, v.tab, x, Pooled, q + [x]);
    MarkTouches(v, x);
    MarkedKept(v, t.mem, [x], q);
    LinksKept(v, t.mem, [x], v.heads[c], v.ov[c]);
    OfferedEntries(v, c, x);
    var a := Addrs(wb, t.tab, q + [x]);
    forall i | 0 <= i < |a| ensures Word(t.mem, a[i] + 8, IN_POOL) {
      if i < |q| { assert a[i] == Addrs(wb, v.tab, q)[i]; }
    }
  }

  /** A block off the lists is on neither. */
  lemma OffMembers(v: View, c: nat, x: Slot)
    requires OffLists(v, c, x) && c < |v.pool| == |v.ov|
    requires Members(v.tab, c, Pooled, v.pool[c]) && Members(v.tab, c, Listed, v.ov[c])
    ensures x !in v.pool[c] && x !in v.ov[c]
    ensures forall i :: 0 <= i < |v.pool[c]| ==> v.pool[c][i] !in [x]
    ensures forall i :: 0 <= i < |v.ov[c]| ==> v.ov[c][i] !in [x]
  {
  }

  lemma OfferedEntries(v: View, c: nat, x: Slot)
    requires Shape(v) && OffLists(v, c, x) && v.poolLen[c] == |v.pool[c]| < POOL && Entries(v, c)
    requires AddrOf(WindowBase(v), v.tab, x) >= WindowBase(v) && TabOk(Offered(v, c, x).tab)
    ensures Entries(Offered(v, c, x), c)
  {
    hide AddrOf;
    AddrIn(v, x);
    SetAtOk(v.tab, x, Pooled);
  }

  // ---- a block leaves the candidates ------------------------------------------------

  /** The candidate at `i` goes, the last one taking its place. */
  function Picked(v: View, c: nat, i: nat, w: Where): View
    requires c < N_POOLED && c < |v.pools| == |v.poolLen| == |v.pool| && i < |v.pool[c]| == v.poolLen[c] <= |v.pools[c]|
    requires SlotIn(v.tab, v.pool[c][i])
  {
    var n := v.poolLen[c];
    v.(pools := v.pools[c := Put(v.pools[c], i, v.pools[c][n - 1])], poolLen := v.poolLen[c := n - 1],
       tab := SetAt(v.tab, v.pool[c][i], w), pool := v.pool[c := v.pool[c][i := v.pool[c][n - 1]][..n - 1]])
  }

  lemma PickedOk(v: View, c: nat, i: nat, w: Where)
    requires Core(v) && c < N_POOLED && i < |v.pool[c]| && (w.Drawn? || w.Loose?)
    ensures OfClass(v, c, v.pool[c][i]) && v.poolLen[c] == |v.pool[c]| <= |v.pools[c]| == POOL
      && At(v.tab, v.pool[c][i]) == Pooled
    ensures Core(Picked(v, c, i, w))
  {
    hide AddrOf, RunsOk, HeadersOk, TakenOk, TabOk, Members, Links, Marked, At;
    assert ClassOk(v, c);
    IsMember(v, c, Pooled, v.pool[c], i);
    var x, t := v.pool[c][i], Picked(v, c, i, w);
    RetabShape(v, t, x, w);
    PickedClass(v, c, i, w);
    StepCore(v, t, c, x, w, []);
  }

  lemma IsMember(v: View, c: nat, w: Where, q: seq<Slot>, i: nat)
    requires Members(v.tab, c, w, q) && i < |q|
    ensures SlotIn(v.tab, q[i]) && v.tab[q[i].s].c == c && At(v.tab, q[i]) == w
  {
    assert Holds(v.tab, q[i], c, w);
  }

  lemma PickedClass(v: View, c: nat, i: nat, w: Where)
    requires Core(v) && c < N_POOLED && i < |v.pool[c]| && (w.Drawn? || w.Loose?)
    requires OfClass(v, c, v.pool[c][i]) && v.poolLen[c] == |v.pool[c]| <= |v.pools[c]|
    requires Shape(Picked(v, c, i, w))
    ensures ClassOk(Picked(v, c, i, w), c)
  {
    hide AddrOf, RunsOk, HeadersOk, TakenOk, TabOk, Members, Links, Marked;
    var x, t, wb := v.pool[c][i], Picked(v, c, i, w), WindowBase(v);
    assert ClassOk(v, c);
    IsMember(v, c, Pooled, v.pool[c], i);
    MembersLose(v.tab, Pooled, w, v.pool[c], i);
    MembersSame(v.tab, x, w, c, Listed, v.ov[c]);
    AddrsSame(wb, v.tab, x, w, v.ov[c]);
    PickedEntries(v, c, i, w);
    PickedMarks(v, c, i, w);
  }

  lemma PickedMarks(v: View, c: nat, i: nat, w: Where)
    requires Shape(v) && c < N_POOLED && i < |v.pool[c]| && v.poolLen[c] == |v.pool[c]| <= |v.pools[c]|
    requires AllIn(v.tab, v.pool[c]) && Marked(v.mem, Addrs(WindowBase(v), v.tab, v.pool[c]))
    requires var t := Picked(v, c, i, w); TabOk(t.tab) && AllIn(t.tab, t.pool[c])
    ensures var t := Picked(v, c, i, w); Marked(t.mem, Addrs(WindowBase(t), t.tab, t.pool[c]))
  {
    hide AddrOf;
    var t, wb, q := Picked(v, c, i, w), WindowBase(v), v.pool[c];
    var a := Addrs(wb, t.tab, t.pool[c]);
    SetAtOk(v.tab, q[i], w);
    forall j | 0 <= j < |a| ensures Word(t.mem, a[j] + 8, IN_POOL) {
      var o := if j == i then |q| - 1 else j;
      assert t.pool[c][j] == q[o];
      assert Word(v.mem, Addrs(wb, v.tab, q)[o] + 8, IN_POOL);
    }
  }

  lemma PickedEntries(v: View, c: nat, i: nat, w: Where)
    requires Shape(v) && c < N_POOLED && i < |v.pool[c]| && v.poolLen[c] == |v.pool[c]| && Entries(v, c)
    requires SlotIn(v.tab, v.pool[c][i]) && TabOk(Picked(v, c, i, w).tab)
    ensures Entries(Picked(v, c, i, w), c)
  {
    hide AddrOf;
    SetAtOk(v.tab, v.pool[c][i], w);
    var t, q := Picked(v, c, i, w), v.pool[c];
    forall j | 0 <= j < |t.pool[c]|
      ensures SlotIn(t.tab, t.pool[c][j])
              && WindowBase(t) + t.pools[c][j] * 16 == AddrOf(WindowBase(t), t.tab, t.pool[c][j])
    {
      assert t.pool[c][j] == q[if j == i then |q| - 1 else j];
    }
  }

  // ---- a block joins the list ---------------------------------------------------------

  function Listing(v: View, c: nat, x: Slot): View
    requires TabOk(v.tab) && OfClass(v, c, x) && c < |v.heads| == |v.ov|
  {
    var a := AddrOf(WindowBase(v), v.tab, x);
    v.(mem := Pushed(v.mem, v.heads[c], a), heads := v.heads[c := a],
       tab := SetAt(v.tab, x, Listed), ov := v.ov[c := [x] + v.ov[c]])
  }

  lemma ListingOk(v: View, c: nat, x: Slot)
    requires Core(v) && OffLists(v, c, x)
    ensures Core(Listing(v, c, x))
  {
    hide AddrOf, RunsOk, HeadersOk, TakenOk, TabOk, Members, Links, Marked, At, Pushed;
    AddrIn(v, x);
    assert ClassOk(v, c);
    var t, z := Listing(v, c, x), [x] + v.ov[c];
    HeadIs(v, c);
    PushTouches(v, c, x);
    RetabShape(v, t, x, Listed);
    ListingClass(v, c, x);
    ListFree(v, c, x);
    StepCore(v, t, c, x, Listed, z);
  }

  lemma HeadIs(v: View, c: nat)
    requires Shape(v) && c < N_POOLED && ClassOk(v, c)
    ensures v.heads[c] == if v.ov[c] == [] then 0 else AddrOf(WindowBase(v), v.tab, v.ov[c][0])
  {
  }

  /** The blocks a list operation may write are free, but for the one it is about. */
  lemma ListFree(v: View, c: nat, x: Slot)
    requires Core(v) && OfClass(v, c, x)
    ensures FreeOf(v, [x] + v.ov[c], c, x) && FreeOf(v, v.ov[c], c, x)
  {
    assert ClassOk(v, c);
    forall i | 0 <= i < |v.ov[c]|
      ensures SlotIn(v.tab, v.ov[c][i]) && v.tab[v.ov[c][i].s].c == c && !At(v.tab, v.ov[c][i]).Live?
    {
      assert Holds(v.tab, v.ov[c][i], c, Listed);
    }
  }

  lemma PushTouches(v: View, c: nat, x: Slot)
    requires Shape(v) && OfClass(v, c, x) && AllIn(v.tab, v.ov[c])
    requires v.heads[c] == if v.ov[c] == [] then 0 else AddrOf(WindowBase(v), v.tab, v.ov[c][0])
    ensures Touches(v, Pushed(v.mem, v.heads[c], AddrOf(WindowBase(v), v.tab, x)), [x] + v.ov[c])
  {
    hide AddrOf, SizeAt, TabOk, InBlock;
    var z := [x] + v.ov[c];
    AddrIn(v, x);
    assert z[0] == x && x in z;
    if v.ov[c] != [] {
      AddrIn(v, v.ov[c][0]);
      assert z[1] == v.ov[c][0] && v.ov[c][0] in z;
    }
  }

  lemma ListingClass(v: View, c: nat, x: Slot)
    requires Core(v) && OffLists(v, c, x) && Shape(Listing(v, c, x))
    requires Touches(v, Listing(v, c, x).mem, [x] + v.ov[c])
    ensures ClassOk(Listing(v, c, x), c)
  {
    hide AddrOf, RunsOk, HeadersOk, TakenOk, TabOk, Members, Links, Touches, Marked, Pushed;
    var t, wb, q := Listing(v, c, x), WindowBase(v), v.ov[c];
    assert ClassOk(v, c);
    AddrIn(v, x);
    OffMembers(v, c, x);
    MembersGain(v.tab, x, Listed, q);
    MembersSame(v.tab, x, Listed, c, Pooled, v.pool[c]);
    AddrsSame(wb, v.tab, x, Listed, v.pool[c]);
    AddrsSame(wb, v.tab, x, Listed, [x] + q);
    PoolApart(v, c, x);
    MarkedKept(v, t.mem, [x] + q, v.pool[c]);
    EntriesSame(v, t, c, x, Listed);
    JoinedSpaced(v, c, x);
    PushOk(v.mem, v.heads[c], Addrs(wb, v.tab, q), AddrOf(wb, v.tab, x));
    assert Addrs(wb, t.tab, [x] + q) == [AddrOf(wb, v.tab, x)] + Addrs(wb, v.tab, q);
  }

  lemma PrependNoDup(tab: seq<Slab>, c: nat, w: Where, q: seq<Slot>, x: Slot)
    requires Members(tab, c, w, q) && x !in q && SlotIn(tab, x)
    ensures NoDup(q) && NoDup([x] + q) && AllIn(tab, [x] + q)
  {
    var z := [x] + q;
    assert forall i :: 0 < i < |z| ==> z[i] == q[i - 1];
    forall i | 0 <= i < |z| ensures SlotIn(tab, z[i]) { if i > 0 { assert Holds(tab, q[i - 1], c, w); } }
  }

  lemma BaseOk(v: View)
    requires Shape(v)
    ensures TabOk(v.tab) && WindowBase(v) > 0 && WindowBase(v) % 16 == 0 && |v.pool| == |v.ov| == N_POOLED
  {
    hide TabOk;
    SlabsSixteen(v.base, v.wFirst);
  }

  lemma SlabsSixteen(b: nat, n: nat)
    requires b % 16 == 0
    ensures (b + n * SLAB) % 16 == 0
  {
  }

  lemma JoinedSpaced(v: View, c: nat, x: Slot)
    requires Shape(v) && OfClass(v, c, x) && AllIn(v.tab, v.ov[c]) && Members(v.tab, c, Listed, v.ov[c])
      && x !in v.ov[c]
    ensures AllIn(v.tab, [x] + v.ov[c])
    ensures Spaced([AddrOf(WindowBase(v), v.tab, x)] + Addrs(WindowBase(v), v.tab, v.ov[c]))
  {
    hide AddrOf, TabOk, Members, Shape, Spaced;
    BaseOk(v);
    var z := [x] + v.ov[c];
    PrependNoDup(v.tab, c, Listed, v.ov[c], x);
    AddrsSpaced(WindowBase(v), v.tab, z);
    assert Addrs(WindowBase(v), v.tab, z) == [AddrOf(WindowBase(v), v.tab, x)] + Addrs(WindowBase(v), v.tab, v.ov[c]);
  }

  /** A class's candidates are none of the blocks on its list. */
  lemma PoolApart(v: View, c: nat, x: Slot)
    requires c < |v.pool| == |v.ov| && Members(v.tab, c, Pooled, v.pool[c]) && Members(v.tab, c, Listed, v.ov[c])
    requires SlotIn(v.tab, x) && !At(v.tab, x).Pooled?
    ensures forall i :: 0 <= i < |v.pool[c]| ==> v.pool[c][i] !in [x] + v.ov[c] && v.pool[c][i] !in v.ov[c]
  {
    forall i | 0 <= i < |v.pool[c]| ensures v.pool[c][i] !in [x] + v.ov[c] && v.pool[c][i] !in v.ov[c] {
      assert Holds(v.tab, v.pool[c][i], c, Pooled);
    }
  }

  // ---- a block leaves the list -----------------------------------------------------------

  /** The block at `i` of the list goes; its neighbours meet. */
  function Delisted(v: View, c: nat, i: nat): View
    requires TabOk(v.tab) && c < N_POOLED && c < |v.heads| == |v.ov| && i < |v.ov[c]| && SlotIn(v.tab, v.ov[c][i])
    requires var a := AddrOf(WindowBase(v), v.tab, v.ov[c][i]); a in v.mem && a + 8 in v.mem
  {
    var x := v.ov[c][i];
    var (m, h) := Unlinked(v.mem, v.heads[c], AddrOf(WindowBase(v), v.tab, x));
    v.(mem := m, heads := v.heads[c := h], tab := SetAt(v.tab, x, Loose),
      ov := v.ov[c := v.ov[c][..i] + v.ov[c][i + 1..]])
  }

  lemma DelistedOk(v: View, c: nat, i: nat)
    requires Core(v) && c < N_POOLED && i < |v.ov[c]|
    ensures OfClass(v, c, v.ov[c][i]) && At(v.tab, v.ov[c][i]) == Listed
    ensures var a := AddrOf(WindowBase(v), v.tab, v.ov[c][i]); a in v.mem && a + 8 in v.mem
    ensures Core(Delisted(v, c, i))
  {
    hide AddrOf, RunsOk, HeadersOk, TakenOk, TabOk, Members, Links, Marked, At, Unlinked;
    assert ClassOk(v, c);
    IsMember(v, c, Listed, v.ov[c], i);
    var x := v.ov[c][i];
    AddrIn(v, x);
    var t := Delisted(v, c, i);
    UnlinkTouches(v, c, i);
    RetabShape(v, t, x, Loose);
    DelistedClass(v, c, i);
    ListFree(v, c, x);
    StepCore(v, t, c, x, Loose, v.ov[c]);
  }

  lemma ListSpaced(v: View, c: nat)
    requires Shape(v) && c < N_POOLED && AllIn(v.tab, v.ov[c]) && Members(v.tab, c, Listed, v.ov[c])
    ensures Spaced(Addrs(WindowBase(v), v.tab, v.ov[c]))
  {
    hide AddrOf, TabOk, Shape, Spaced;
    BaseOk(v);
    AddrsSpaced(WindowBase(v), v.tab, v.ov[c]);
  }

  lemma UnlinkTouches(v: View, c: nat, i: nat)
    requires Core(v) && c < N_POOLED && i < |v.ov[c]| && SlotIn(v.tab, v.ov[c][i])
    requires var a := AddrOf(WindowBase(v), v.tab, v.ov[c][i]); a in v.mem && a + 8 in v.mem
    ensures Touches(v, Unlinked(v.mem, v.heads[c], AddrOf(WindowBase(v), v.tab, v.ov[c][i])).0, v.ov[c])
  {
    hide AddrOf, SizeAt, TabOk, InBlock, Members, HeadersOk, RunsOk, TakenOk;
    assert ClassOk(v, c);
    var q, a := v.ov[c], Addrs(WindowBase(v), v.tab, v.ov[c]);
    assert LinkAt(v.mem, a, i);
    if i > 0 { AddrIn(v, q[i - 1]); assert q[i - 1] in q; }
    if i + 1 < |q| { AddrIn(v, q[i + 1]); assert q[i + 1] in q; }
  }

  lemma DelistedClass(v: View, c: nat, i: nat)
    requires Core(v) && c < N_POOLED && i < |v.ov[c]| && OfClass(v, c, v.ov[c][i])
    requires var a := AddrOf(WindowBase(v), v.tab, v.ov[c][i]); a in v.mem && a + 8 in v.mem
    requires Shape(Delisted(v, c, i)) && Touches(v, Delisted(v, c, i).mem, v.ov[c])
    ensures ClassOk(Delisted(v, c, i), c)
  {
    hide AddrOf, RunsOk, HeadersOk, TakenOk, TabOk, Members, Links, Touches, Marked, Unlinked;
    var x, t, wb, q := v.ov[c][i], Delisted(v, c, i), WindowBase(v), v.ov[c];
    assert ClassOk(v, c);
    IsMember(v, c, Listed, q, i);
    MembersLose(v.tab, Listed, Loose, q, i);
    MembersSame(v.tab, x, Loose, c, Pooled, v.pool[c]);
    AddrsSame(wb, v.tab, x, Loose, v.pool[c]);
    PoolApart(v, c, x);
    MarkedKept(v, t.mem, q, v.pool[c]);
    EntriesSame(v, t, c, x, Loose);
    ListSpaced(v, c);
    UnlinkOk(v.mem, v.heads[c], Addrs(wb, v.tab, q), i);
    AddrsWithout(v, c, i);
  }

  lemma AddrsWithout(v: View, c: nat, i: nat)
    requires Shape(v) && c < N_POOLED && i < |v.ov[c]| && AllIn(v.tab, v.ov[c])
    ensures var q := v.ov[c]; var p := q[..i] + q[i + 1..]; var t := SetAt(v.tab, q[i], Loose);
            && AllIn(t, p) && TabOk(t)
            && Addrs(WindowBase(v), t, p)
                 == Addrs(WindowBase(v), v.tab, q)[..i] + Addrs(WindowBase(v), v.tab, q)[i + 1..]
  {
    hide AddrOf;
    var q := v.ov[c];
    var p := q[..i] + q[i + 1..];
    SetAtOk(v.tab, q[i], Loose);
    var t := SetAt(v.tab, q[i], Loose);
    forall j | 0 <= j < |p|
      ensures SlotIn(t, p[j])
        && AddrOf(WindowBase(v), t, p[j]) == AddrOf(WindowBase(v), v.tab, q[if j < i then j else j + 1])
    {
      assert p[j] == q[if j < i then j else j + 1];
    }
  }
}

/** The seeded heap of `alloc.rs`: what `malloc` and `free` do to its tables,
    lists and memory. */
module Heap {
  import opened Wrappers
  import opened HeapSizes
  import opened HeapLayout
  import opened HeapSpec
  import opened HeapSteps
  import opened HeapSlabs
  import opened HeapSearch
  import R = Rng

  /** The same allocations are live in both. */
  ghost predicate SameLive(v: View, t: View) {
    TabOk(v.tab) && TabOk(t.tab) && forall b: Block :: IsLive(t, b) <==> IsLive(v, b)
  }

  /** Moving a block that is live neither before nor after */
  lemma StepSameLive(v: View, t: View, x: Slot, w: Where)
    requires TabOk(v.tab) && SlotIn(v.tab, x) && t.tab == SetAt(v.tab, x, w) && !At(v.tab, x).Live? && !w.Live?
    requires t.base == v.base && t.wFirst == v.wFirst && t.runs == v.runs
    ensures SameLive(v, t)
  {
    hide AddrOf, SizeAt;
    SetAtOk(v.tab, x, w);
    forall b: Block ensures IsLive(t, b) <==> IsLive(v, b) {
      forall y: Slot ensures LiveIn(v, b, y) <==> LiveIn(t, b, y) { }
      forall f: nat ensures LiveRun(v, b, f) <==> LiveRun(t, b, f) { }
    }
  }

  lemma RecutSameLive(v: View, s: nat, slab: Slab)
    requires TabOk(v.tab) && s < |v.tab| && v.wFirst + s < |v.taken| && WellCut(slab) && Idle(v.tab[s]) && Idle(slab)
    ensures SameLive(v, WithSlab(v, s, slab))
  {
    hide AddrOf, SizeAt;
    var t := WithSlab(v, s, slab);
    forall b: Block ensures IsLive(t, b) <==> IsLive(v, b) {
      forall y: Slot ensures LiveIn(v, b, y) <==> LiveIn(t, b, y) {
        if y.s != s { OtherSlots(v, s, slab, y); }
      }
      forall f: nat ensures LiveRun(v, b, f) <==> LiveRun(t, b, f) { }
    }
  }

  /** Nothing in class `c` is free, and no slab of the window is. */
  predicate Exhausted(v: View, c: nat) {
    c < |v.pool| == |v.ov| && v.pool[c] == [] && v.ov[c] == [] && v.wFirst + v.wLen <= |v.taken|
    && forall i :: v.wFirst <= i < v.wFirst + v.wLen ==> v.taken[i]
  }

  /** A pool without its `i`th candidate, the last in its place */
  predicate Without(q: seq<Slot>, i: nat, r: seq<Slot>) {
    && i < |q| && |r| == |q| - 1
    && forall j :: 0 <= j < |r| ==> r[j] == if j == i then q[|q| - 1] else q[j]
  }

  /** The place of the candidate that the next output stands for: any of them,
      or the newest, which has half of all outputs to itself. */
  function DrawnAt(q: seq<Slot>, s: R.State): (i: nat)
    requires q != []
    ensures i < |q|
  {
    var draw := R.Scaled(R.Next(s).0, 2 * |q|);
    if draw < |q| then draw else |q| - 1
  }

  predicate IsDrawn(q: seq<Slot>, s: R.State, pool: seq<seq<Slot>>, c: nat, x: Slot)
    requires q != [] && c < |pool|
  {
    x == q[DrawnAt(q, s)] && Without(q, DrawnAt(q, s), pool[c])
  }

  /** A freed block becomes a candidate, or is listed if there are 32; but if it
      was the last live one of its slab, and the class keeps as much as it gives
      away, the slab goes back to the window. */
  ghost predicate FreedTo(v: View, t: View, x: Slot)
    requires SlotIn(v.tab, x) && TabOk(v.tab)
  {
    var c := v.tab[x.s].c;
    && |v.pool| == |v.ov| == |t.pool| == |t.ov| == N_POOLED && x.s < |v.live| && v.wFirst + x.s < |v.taken|
    && x.s < |t.tab|
    && if v.live[x.s] == 1 && |v.pool[c]| + |v.ov[c]| + 1 >= 2 * Slots(c) then
         && t.taken == v.taken[v.wFirst + x.s := false] && t.tab[x.s].Open?
         && |t.pool[c]| + |t.ov[c]| + Slots(c) == |v.pool[c]| + |v.ov[c]| + 1
       else
         && t.taken == v.taken && t.tab[x.s].Cut?
         && if |v.pool[c]| < 32 then t.pool[c] == v.pool[c] + [x] && t.ov[c] == v.ov[c]
            else t.pool[c] == v.pool[c] && t.ov[c] == [x] + v.ov[c]
  }

  /** Where a live block was, it is now free: its slot, or its row of slabs. */
  ghost predicate FreedAs(v: View, t: View, b: Block)
    requires TabOk(v.tab)
  {
    && (forall x: Slot {:trigger LiveIn(v, b, x)} :: LiveIn(v, b, x) ==> FreedTo(v, t, x))
    && (forall f: nat {:trigger LiveRun(v, b, f)} :: LiveRun(v, b, f) ==>
          t.taken == Marks(v.taken, f, SlabsFor(b.size), false))
  }

  ghost predicate DrawnFrom(v: View, s: R.State, c: nat, x: Slot)
    requires c < N_POOLED && c < |v.pool| == |v.ov|
  {
    exists q: seq<Slot>, t: R.State {:trigger DrawnAt(q, t)} ::
      q != [] && x == q[DrawnAt(q, t)]
      && if v.pool[c] != [] then q == v.pool[c] && t == s else Refilled(v, s, c, q, t)
  }

  /** Where the draws lead that storage for `raw` bytes is taken from: of the
      candidates of its class, refilled if there were none, or of the rows of
      slabs long enough */
  ghost predicate LedTo(v: View, s: R.State, raw: nat, at: Home)
    requires v.wLen <= v.nSlabs
  {
    ClassFor(raw).Some? && var fit := ClassFor(raw).value;
    match at
    case ASlot(x) =>
      && fit.class_.Some? && fit.class_.value < N_POOLED && fit.class_.value < |v.pool| == |v.ov|
      && DrawnFrom(v, s, fit.class_.value, x)
    case ARun(f) =>
      && (fit.class_.None? || fit.class_.value >= N_POOLED)
      && var first, len, n := RestFirst(v.wFirst, v.wLen), RestLen(v.nSlabs, v.wFirst, v.wLen), SlabsFor(fit.size);
         n <= len && IsFound(s, v.taken, first, first + len - n, n, f)
  }

  /** The address of what was found */
  function AddrAt(v: View, at: Home): nat
    requires at.ASlot? ==> TabOk(v.tab) && SlotIn(v.tab, at.x)
  {
    match at
    case ASlot(x) => AddrOf(WindowBase(v), v.tab, x)
    case ARun(f) => v.base + f * SLAB
  }

  /** The pool topped up from the head of the list, as far as there is room */
  predicate Topped(p: seq<Slot>, l: seq<Slot>, q: seq<Slot>, m: seq<Slot>) {
    |p| <= 32 && var n := if |l| < 32 - |p| then |l| else 32 - |p|; q == p + l[..n] && m == l[n..]
  }

  /** The first `k` slots of slab `s` as they were dealt: the first 32 are
      candidates, the others listed, the last in front. */
  predicate Dealing(q: seq<Slot>, l: seq<Slot>, s: nat, order: seq<nat>, k: nat) {
    && k <= |order| && |q| == (if k < 32 then k else 32) && |q| + |l| == k
    && (forall j :: 0 <= j < |q| ==> q[j] == Slot(s, order[j]))
    && forall j :: 0 <= j < |l| ==> l[j] == Slot(s, order[k - 1 - j])
  }

  /** What an empty pool is filled with, and the stream afterwards: the head of
      the list, or where that is empty the slots of the slab that the draws
      lead to, as they are dealt. */
  ghost predicate Refilled(v: View, s: R.State, c: nat, q: seq<Slot>, t: R.State)
    requires c < N_POOLED && c < |v.ov|
  {
    if v.ov[c] != [] then q == v.ov[c][..if |v.ov[c]| < 32 then |v.ov[c]| else 32] && t == s
    else
      var n, s1 := Slots(c), StateAt(s, 17);
      && v.wLen >= 1 && t == StateAfter(s1, n, 1)
      && exists slab: nat, l: seq<Slot> ::
           && IsFound(s, v.taken, v.wFirst, v.wFirst + v.wLen - 1, 1, v.wFirst + slab)
           && Dealing(q, l, slab, Dealt(Numbers(n), Draws(s1, n)), n)
  }

  class Heap {
    const base: nat
    const nSlabs: nat
    const wFirst: nat
    const wLen: nat
    var rng: R.State
    var taken: seq<bool>
    var order: seq<nat>
    var pools: seq<seq<nat>>
    var poolLen: seq<nat>
    var freeBlocks: seq<nat>
    var live: seq<nat>
    var heads: seq<nat>
    var mem: Memory
    ghost var tab: seq<Slab>
    ghost var pool: seq<seq<Slot>>
    ghost var ov: seq<seq<Slot>>
    ghost var runs: map<nat, Run>

    ghost function Now(): View
      reads this
    {
      View(base, nSlabs, wFirst, wLen, taken, pools, poolLen, freeBlocks, live, heads, mem, tab, pool, ov, runs)
    }

    function WBase(): nat { base + wFirst * SLAB }

    // ---- candidates and lists --------------------------------------------------

    method Offer(c: nat, p: nat, ghost x: Slot)
      requires Core(Now()) && OffLists(Now(), c, x) && p == AddrOf(WBase(), tab, x) && poolLen[c] < POOL
      modifies this
      ensures |old(pools)[c]| == POOL && p >= WBase()
      ensures Now() == Offered(old(Now()), c, x) && Core(Now()) && rng == old(rng) && order == old(order)
    {
      hide AddrOf, ClassOk;
      OfferedOk(Now(), c, x);
      mem := mem[p + 8 := IN_POOL];
      pools := pools[c := Put(pools[c], poolLen[c], Entry(WBase(), p))];
      poolLen := poolLen[c := poolLen[c] + 1];
      tab, pool := SetAt(tab, x, Pooled), pool[c := pool[c] + [x]];
    }

    method OvPush(c: nat, raw: nat, ghost x: Slot)
      requires Core(Now()) && OffLists(Now(), c, x) && raw == AddrOf(WBase(), tab, x)
      modifies this
      ensures Now() == Listing(old(Now()), c, x) && Core(Now()) && rng == old(rng) && order == old(order)
    {
      hide AddrOf, ClassOk, SizeAt, RunsOk, HeadersOk, TakenOk;
      ListingOk(Now(), c, x);
      var head := heads[c];
      mem := mem[raw := head][raw + 8 := 0];
      if head != 0 {
        mem := mem[head + 8 := raw];
      }
      heads := heads[c := raw];
      tab, ov := SetAt(tab, x, Listed), ov[c := [x] + ov[c]];
    }

    method OvUnlink(c: nat, raw: nat, ghost i: nat)
      requires Core(Now()) && c < N_POOLED && i < |ov[c]| && SlotIn(tab, ov[c][i])
        && raw == AddrOf(WBase(), tab, ov[c][i])
      modifies this
      ensures raw in old(mem) && raw + 8 in old(mem)
      ensures Now() == Delisted(old(Now()), c, i) && Core(Now()) && rng == old(rng) && order == old(order)
    {
      hide AddrOf, ClassOk;
      DelistedOk(Now(), c, i);
      var next, prev := mem[raw], mem[raw + 8];
      if prev == 0 {
        heads := heads[c := next];
      } else {
        mem := mem[prev := next];
      }
      if next != 0 {
        mem := mem[next + 8 := prev];
      }
      tab, ov := SetAt(tab, ov[c][i], Loose), ov[c := ov[c][..i] + ov[c][i + 1..]];
    }

    /** The head of the list, if there is one */
    method OvPop(c: nat) returns (p: Option<nat>)
      requires Core(Now()) && c < N_POOLED
      modifies this
      ensures p.None? <==> old(ov)[c] == []
      ensures p.None? ==> Now() == old(Now())
      ensures p.Some? ==>
                && SlotIn(old(tab), old(ov)[c][0]) && p.value == AddrOf(WBase(), old(tab), old(ov)[c][0])
                && p.value in old(mem) && p.value + 8 in old(mem)
                && Now() == Delisted(old(Now()), c, 0) && Core(Now())
      ensures rng == old(rng) && order == old(order)
    {
      hide AddrOf, ClassOk;
      ListHead(Now(), c);
      var head := heads[c];
      if head == 0 { return None; }
      OvUnlink(c, head, 0);
      return Some(head);
    }

    // ---- new candidates ---------------------------------------------------------

    /** The slots of a new slab in drawn order: every one of them, once */
    method Shuffle(n: nat) returns (ghost inv: seq<nat>)
      requires n <= |order|
      modifies `rng, `order
      ensures |order| == |old(order)| && IsPerm(order, inv, n)
      ensures order[..n] == Dealt(Numbers(n), Draws(old(rng), n)) && rng == StateAfter(old(rng), n, 1)
    {
      hide R.Next, R.Scaled, Dealt, Draws, StateAfter;
      for i := 0 to n
        invariant |order| == |old(order)| && rng == old(rng) && forall j :: 0 <= j < i ==> order[j] == j
      {
        order := order[i := i];
      }
      inv := seq(n, j => j);
      assert IsPerm(order, inv, n);
      assert order[..n] == Numbers(n);
      hide IsPerm, Numbers;
      DealStart(rng, n);
      var i: nat := n;
      while i > 1
        invariant i <= n && |order| == |old(order)| && IsPerm(order, inv, n) && rng == StateAfter(old(rng), n, i)
          && (i == n || i >= 1)
        invariant Dealt(Numbers(n), Draws(old(rng), n)) == Dealt(order[..n], Draws(rng, i))
      {
        i := i - 1;
        inv := Deal(n, i, inv, old(rng));
      }
      DealEnd(order[..n], rng, i);
      SameAfter(old(rng), n, i);
    }

    /** The slot for the `i`th place is drawn. */
    method Deal(n: nat, i: nat, ghost inv: seq<nat>, ghost s: R.State) returns (ghost inv2: seq<nat>)
      requires 0 < i < n <= |order| && IsPerm(order, inv, n) && rng == StateAfter(s, n, i + 1)
      modifies `rng, `order
      ensures |order| == |old(order)| && IsPerm(order, inv2, n) && rng == StateAfter(s, n, i)
      ensures Dealt(old(order)[..n], Draws(old(rng), i + 1)) == Dealt(order[..n], Draws(rng, i))
    {
      hide IsPerm, R.Next, R.Scaled, Dealt, Draws, StateAfter;
      var x, next := R.Next(rng).0, R.Next(rng).1;
      R.ScaledBound(x, i + 1);
      var j := R.Scaled(x, i + 1);
      DealtStep(order[..n], rng, i, j);
      StateNext(s, n, i + 1);
      rng := next;
      PermSwap(order, inv, n, i, j);
      inv2 := inv[order[j] := i][order[i] := j];
      ghost var was := order;
      order := order[i := order[j]][j := order[i]];
      assert order[..n] == was[..n][i := was[..n][j]][j := was[..n][i]];
    }

    /** Listed blocks move to the candidates while there is room. */
    method Replenish(c: nat)
      requires Ok(Now()) && c < N_POOLED
      modifies this
      ensures Ok(Now()) && SameLive(old(Now()), Now()) && rng == old(rng) && order == old(order) && taken == old(taken)
      ensures |pool[c]| + |ov[c]| == |old(pool)[c]| + |old(ov)[c]| && (pool[c] == [] ==> ov[c] == [])
      ensures pool[c] == [] ==> Now() == old(Now())
      // in the order of the list
      ensures Topped(old(pool)[c], old(ov)[c], pool[c], ov[c])
    {
      hide ClassOk, AddrOf, Core, LiveOk, FreeOk, Quiet, IsLive;
      Lengths(Now(), c);
      ghost var k := 0;
      while poolLen[c] < POOL
        invariant Ok(Now()) && SameLive(old(Now()), Now()) && rng == old(rng) && order == old(order)
          && taken == old(taken)
        invariant |pool| == |ov| == |poolLen| == N_POOLED && poolLen[c] == |pool[c]|
        invariant |pool[c]| + |ov[c]| == |old(pool)[c]| + |old(ov)[c]|
        invariant Now() == old(Now()) || pool[c] != []
        invariant k <= |old(ov)[c]| && |pool[c]| <= POOL
        invariant pool[c] == old(pool)[c] + old(ov)[c][..k] && ov[c] == old(ov)[c][k..]
        decreases |ov[c]|
      {
        ghost var v := Now();
        OkCore(v);
        var p := OvPop(c);
        if p.None? { break; }
        MoveOver(v, c);
        Offer(c, p.value, v.ov[c][0]);
        Lengths(Now(), c);
        assert old(ov)[c][..k] + [v.ov[c][0]] == old(ov)[c][..k + 1];
        k := k + 1;
      }
    }

    /** One slot of a new slab goes to the candidates, or to the list. */
    method Place(c: nat, p: nat, ghost x: Slot)
      requires Core(Now()) && OffLists(Now(), c, x) && p == AddrOf(WBase(), tab, x)
      modifies this
      ensures Core(Now()) && rng == old(rng) && order == old(order) && Placed(old(Now()), Now(), c, x)
    {
      hide ClassOk, AddrOf;
      CoreLengths(Now(), c);
      if poolLen[c] < POOL {
        Offer(c, p, x);
      } else {
        OvPush(c, p, x);
      }
    }

    /** A slab of the window, if one is free, cut for class `c` */
    method CutSlab(c: nat) returns (s: Option<nat>)
      requires Ok(Now()) && c < N_POOLED
      modifies this
      ensures order == old(order)
      ensures s.None? ==> Now() == old(Now()) && forall i :: wFirst <= i < wFirst + wLen ==> old(taken)[i]
      ensures s.Some? ==> s.value < |old(tab)| && wFirst + s.value < |old(taken)| && old(tab)[s.value].Open?
                          && Now() == WithSlab(old(Now()), s.value, AllLoose(c))
      // of the slabs the one drawn
      ensures s.Some? ==> wLen >= 1 && rng == StateAt(old(rng), 17)
                          && IsFound(old(rng), old(taken), wFirst, wFirst + wLen - 1, 1, wFirst + s.value)
    {
      hide ClassOk, AddrOf, IsFound, StateAt, HeadersOk, RunsOk, LiveOk, FreeOk, Quiet;
      Lengths(Now(), c);
      var at, next := FindRun(rng, taken, wFirst, wLen, 1);
      rng := next;
      if at.None? {
        forall i: nat | wFirst <= i < wFirst + wLen ensures taken[i] { assert RunFree(taken, i, 1) == !taken[i]; }
        return None;
      }
      taken := taken[at.value := true];
      tab := tab[at.value - wFirst := AllLoose(c)];
      return Some(at.value - wFirst);
    }

    /** Fills the empty pool of class `c`, from its overflow list if that has
        blocks, else from a slab taken for it and shuffled. */
    method Refill(c: nat, size: nat) returns (ok: bool)
      requires Ok(Now()) && c < N_POOLED && size == ClassSize(c) && poolLen[c] == 0 && |order| == 4096
      modifies this
      ensures Ok(Now()) && SameLive(old(Now()), Now()) && |order| == 4096
      ensures ok <==> !Exhausted(old(Now()), c)
      ensures ok ==> pool[c] != []
      ensures ok ==> Refilled(old(Now()), old(rng), c, pool[c], rng)
    {
      hide ClassOk, AddrOf, Core, LiveOk, FreeOk, Quiet, IsLive, StateAt, StateAfter, Draws, Dealt, IsFound, Dealing,
           Refilled, Topped, SameLive;
      Lengths(Now(), c);
      Replenish(c);
      Lengths(Now(), c);
      ghost var v0 := old(Now());
      if poolLen[c] > 0 {
        FromList(v0, rng, c, pool[c], ov[c]);
        return true;
      }
      NoList(v0, c, pool[c], ov[c]);
      ghost var v, s0 := Now(), rng;
      var s := CutSlab(c);
      if s.None? { return false; }
      NotExhausted(v, s.value, c);
      PoolSlab(c, size, s.value, v);
      FromSlab(v0, s0, c, pool[c], ov[c], s.value, rng);
      return true;
    }

    /** The blocks of a new slab become free, in drawn order. */
    method PoolSlab(c: nat, size: nat, s: nat, ghost v: View)
      requires Ok(v) && c < N_POOLED && size == ClassSize(c) && |order| == 4096
      requires s < v.wLen && s < |v.tab| && v.tab[s].Open? && v.wFirst + s < |v.taken|
        && Now() == WithSlab(v, s, AllLoose(c))
      requires |v.pool| == |v.ov| == N_POOLED && v.pool[c] == [] && v.ov[c] == []
      modifies this
      ensures Ok(Now()) && SameLive(v, Now()) && |order| == 4096 && |pool| == N_POOLED && pool[c] != []
      ensures |ov| == N_POOLED && rng == StateAfter(old(rng), Slots(c), 1)
      ensures Dealing(pool[c], ov[c], s, Dealt(Numbers(Slots(c)), Draws(old(rng), Slots(c))), Slots(c))
    {
      hide ClassOk, AddrOf, Core, LiveOk, FreeOk, Quiet, IsLive, IsPerm, Placing, AllLoose, Placed, Dealing, Dealt,
           Draws, StateAfter;
      CutOk(v, s, c);
      var slab := base + (wFirst + s) * SLAB;
      var n := SLAB / size;
      ghost var inv := Shuffle(n);
      ghost var dealt := order[..n];
      StartPlacing(v, Now(), c, s, order, inv);
      DealtNone(s, order);
      for k := 0 to n
        invariant |order| == 4096 && n == Slots(c) && IsPerm(order, inv, n)
        invariant Placing(Now(), c, s, order, k) && SameLive(v, Now())
        invariant |pool| == |ov| == N_POOLED && Dealing(pool[c], ov[c], s, order, k)
        invariant order[..n] == dealt && rng == StateAfter(old(rng), n, 1)
      {
        PlacingSlot(Now(), c, s, order, k);
        ghost var w := Now();
        Place(c, slab + order[k] * size, Slot(s, order[k]));
        PlaceStep(w, Now(), c, s, order, inv, k);
        PlacedNext(w, Now(), c, s, order, k);
      }
      DealtAll(pool[c], ov[c], s, order, n);
      DonePlacing(Now(), c, s, order, inv);
      freeBlocks := freeBlocks[c := freeBlocks[c] + n];
    }

    /** Hands out one of the blocks pooled for class `c`, after a refill if
        there is none */
    method Draw(c: nat, size: nat)
      returns (p: Option<nat>, ghost x: Slot, ghost q: seq<Slot>, ghost s: R.State)
      requires Ok(Now()) && c < N_POOLED && size == ClassSize(c) && |order| == 4096
      modifies this
      ensures |order| == 4096 && TabOk(tab) && SameLive(old(Now()), Now())
      ensures p.None? <==> Exhausted(old(Now()), c)
      ensures p.None? ==> Ok(Now())
      ensures p.Some? ==> OkBut(Now(), x) && OfClass(Now(), c, x) && p.value == AddrOf(WBase(), tab, x)
      // of the candidates, refilled if there were none, the one drawn
      ensures |old(pool)| == |old(ov)| == N_POOLED
      ensures if old(pool)[c] != [] then q == old(pool)[c] && s == old(rng)
              else p.Some? ==> Refilled(old(Now()), old(rng), c, q, s)
      ensures p.Some? ==> q != [] && IsDrawn(q, s, pool, c, x) && rng == R.Next(s).1
    {
      hide ClassOk, AddrOf, Core, LiveOk, FreeOk, Quiet, IsLive, R.Next, R.Scaled, Without, Refilled;
      ghost var v0 := Now();
      Lengths(v0, c);
      x, q, s := Slot(0, 0), pool[c], rng;
      SameLiveRefl(v0);
      if poolLen[c] == 0 {
        var ok := Refill(c, size);
        if !ok { return None, x, q, s; }
        Lengths(Now(), c);
        q, s := pool[c], rng;
      }
      var out, next := R.Next(rng).0, R.Next(rng).1;
      var len := poolLen[c];
      R.ScaledBound(out, 2 * len);
      var draw := R.Scaled(out, 2 * len);
      rng := next;
      var at;
      at, x := DrawAt(c, if draw < len then draw else len - 1);
      return Some(at), x, q, s;
    }

    /** The candidate at `i` is handed out. */
    method DrawAt(c: nat, i: nat) returns (p: nat, ghost x: Slot)
      requires Ok(Now()) && c < N_POOLED && i < |pool[c]|
      modifies this
      ensures order == old(order) && TabOk(tab) && SameLive(old(Now()), Now())
      ensures x == old(pool)[c][i] && OkBut(Now(), x) && OfClass(Now(), c, x) && p == AddrOf(WBase(), tab, x)
      ensures rng == old(rng) && |pool| == N_POOLED && Without(old(pool)[c], i, pool[c])
    {
      hide ClassOk, AddrOf, Core, LiveOk, FreeOk, Quiet, IsLive, SameLive, OkBut;
      DrawOk(Now(), c, i);
      x := pool[c][i];
      p := WBase() + pools[c][i] * 16;
      var len := poolLen[c];
      pools := pools[c := Put(pools[c], i, pools[c][len - 1])];
      poolLen := poolLen[c := len - 1];
      tab, pool := SetAt(tab, x, Drawn), pool[c := pool[c][i := pool[c][len - 1]][..len - 1]];
      freeBlocks := freeBlocks[c := freeBlocks[c] - 1];
      var slab := (p - WBase()) / SLAB;
      live := live[slab := live[slab] + 1];
    }

    // ---- a slab goes back ------------------------------------------------------------

    /** Where the pool of `c` has the entry `off` */
    method FindEntry(c: nat, off: nat, len: nat) returns (i: nat)
      requires c < |pools| && len <= |pools[c]|
      ensures i <= len && (i < len ==> pools[c][i] == off) && forall j :: 0 <= j < i ==> pools[c][j] != off
    {
      i := 0;
      while i < len && pools[c][i] != off
        invariant i <= len && forall j :: 0 <= j < i ==> pools[c][j] != off
      {
        i := i + 1;
      }
    }

    /** One free block of a slab that is going leaves the candidates or the
        list; the mark in its second word tells which. */
    method Clear(c: nat, p: nat, ghost slab: nat, ghost k: nat)
      requires Clearing(Now(), c, slab, k) && k < Slots(c) && p == base + (wFirst + slab) * SLAB + Off(c, k)
      modifies this
      ensures Clearing(Now(), c, slab, k + 1) && SameLive(old(Now()), Now())
      ensures rng == old(rng) && order == old(order) && freeBlocks == old(freeBlocks) && taken == old(taken)
    {
      hide ClassOk, AddrOf, Core, LiveOk, IsLive, Off;
      ghost var v, x := Now(), Slot(slab, k);
      ClearingSlot(v, c, slab, k);
      if mem[p + 8] == IN_POOL {
        var len := poolLen[c];
        var i := FindEntry(c, Entry(WBase(), p), len);
        EntryFound(v, c, x, i);
        if i < len {
          PickedOk(v, c, i, Loose);
          pools := pools[c := Put(pools[c], i, pools[c][len - 1])];
          poolLen := poolLen[c := len - 1];
          tab, pool := SetAt(tab, x, Loose), pool[c := pool[c][i := pool[c][len - 1]][..len - 1]];
        }
      } else {
        ghost var i := ListIndex(v, c, x);
        OvUnlink(c, p, i);
      }
      ClearStep(v, Now(), c, slab, k);
    }

    /** Gives an empty slab's memory back: its blocks leave pool and list. Kept
        when the class would be left with less free than it gives away. */
    method Release(c: nat, size: nat, slab: nat)
      requires Ok(Now()) && c < N_POOLED && size == ClassSize(c)
      requires slab < wLen && tab[slab].Cut? && tab[slab].c == c && live[slab] == 0
      modifies this
      ensures Ok(Now()) && SameLive(old(Now()), Now()) && rng == old(rng) && order == old(order)
      ensures if |old(pool)[c]| + |old(ov)[c]| < 2 * Slots(c) then Now() == old(Now())
              else slab < |tab| && tab[slab].Open? && wFirst + slab < |taken|
                   && taken == old(taken)[wFirst + slab := false]
                   && |pool[c]| + |ov[c]| + Slots(c) == |old(pool)[c]| + |old(ov)[c]|
    {
      hide ClassOk, AddrOf, Core, LiveOk, FreeOk, Quiet, IsLive, Off;
      ghost var v0 := Now();
      Lengths(v0, c);
      SameLiveRefl(v0);
      var n := SLAB / size;
      if freeBlocks[c] < 2 * n { return; }
      StartClearing(v0, c, slab);
      ClearSlab(c, size, slab);
      DoneClearing(Now(), c, slab);
      freeBlocks := freeBlocks[c := freeBlocks[c] - n];
      taken := taken[wFirst + slab := false];
      tab := tab[slab := Open];
      Lengths(Now(), c);
    }

    method ClearSlab(c: nat, size: nat, slab: nat)
      requires c < N_POOLED && size == ClassSize(c) && Clearing(Now(), c, slab, 0)
      modifies this
      ensures Clearing(Now(), c, slab, Slots(c)) && SameLive(old(Now()), Now())
      ensures rng == old(rng) && order == old(order) && freeBlocks == old(freeBlocks) && taken == old(taken)
    {
      hide Clearing, IsLive, Off;
      ghost var v0 := Now();
      ClearingTab(v0, c, slab);
      SameLiveRefl(v0);
      var n := SLAB / size;
      var first := base + (wFirst + slab) * SLAB;
      for k := 0 to n
        invariant n == Slots(c) && Clearing(Now(), c, slab, k) && SameLive(v0, Now())
        invariant rng == old(rng) && order == old(order) && freeBlocks == v0.free && taken == v0.taken
      {
        OffIs(c, k, size);
        Clear(c, first + k * size, slab, k);
      }
    }

    // ---- runs --------------------------------------------------------------------------

    method MarkSlabs(first: nat, n: nat, b: bool)
      requires first + n <= |taken|
      modifies `taken
      ensures taken == Marks(old(taken), first, n, b)
    {
      for i := first to first + n
        invariant taken == Marks(old(taken), first, i - first, b)
      {
        taken := taken[i := b];
      }
    }

    /** A run of `n` slabs outside the window */
    method TakeRun(n: nat, size: nat) returns (p: Option<nat>, ghost f: nat)
      requires Ok(Now()) && n > 0 && size <= n * SLAB < size + SLAB && IsBig(size)
      modifies this
      ensures order == old(order) && TabOk(tab) && SameLive(old(Now()), Now())
      ensures wLen <= nSlabs && (p.Some? <==> ZoneHolds(old(Now()), n))
      ensures p.None? ==> Ok(Now()) && taken == old(taken)
      // nothing but the run's own slabs is taken
      ensures p.Some? ==> f + n <= |old(taken)| && RunFree(old(taken), f, n) && taken == Marks(old(taken), f, n, true)
      ensures p.Some? ==> OkButRun(Now(), f) && runs[f] == Run(n, size, Drawn) && p.value == base + f * SLAB
      // of the places for it the one drawn
      ensures p.Some? ==> n <= RestLen(nSlabs, wFirst, wLen) && rng == StateAt(old(rng), 17)
                          && IsFound(old(rng), old(taken), RestFirst(wFirst, wLen),
                                     RestFirst(wFirst, wLen) + RestLen(nSlabs, wFirst, wLen) - n, n, f)
    {
      hide ClassOk, AddrOf, LiveOk, FreeOk, Quiet, IsLive, IsFound, StateAt, HeadersOk;
      Lengths(Now(), 0);
      OkShape(Now());
      SameLiveRefl(Now());
      f := 0;
      var first, len := RestFirst(wFirst, wLen), RestLen(nSlabs, wFirst, wLen);
      var at, next := FindRun(rng, taken, first, len, n);
      rng := next;
      if at.None? { return None, f; }
      f := at.value;
      ghost var v := Now();
      RunTakenIsOk(v, f, Run(n, size, Drawn));
      MarkSlabs(at.value, n, true);
      runs := runs[f := Run(n, size, Drawn)];
      return Some(base + at.value * SLAB), f;
    }

    method GiveRun(raw: nat, size: nat, ghost f: nat, ghost b: Block)
      requires Ok(Now()) && LiveRun(Now(), b, f) && raw == b.raw && size == b.size
      modifies this
      ensures Ok(Now()) && Died(old(Now()), Now(), b) && order == old(order)
      ensures taken == Marks(old(taken), f, SlabsFor(size), false)
    {
      hide ClassOk, AddrOf, IsLive;
      RunDroppedIsOk(Now(), f, b);
      RunPlace(Now(), f);
      var n := (size + SLAB - 1) / SLAB;
      MarkSlabs((raw - base) / SLAB, n, false);
      runs := runs - {f};
    }

    // ---- raw blocks -------------------------------------------------------------------

    /** Storage for `rawSize` bytes, from a pool if the class has one and from
        a run of slabs otherwise. It fails only when class or zone is full. */
    method AllocRaw(rawSize: nat) returns (r: Option<(nat, nat)>, ghost at: Home)
      requires Ok(Now()) && |order| == 4096 && rawSize <= USIZE_MAX
      modifies this
      ensures |order| == 4096 && TabOk(tab) && SameLive(old(Now()), Now())
      ensures r.Some? <==> CanServe(old(Now()), rawSize)
      ensures r.None? ==> Ok(Now())
      ensures r.Some? ==> OkButPlace(Now(), at, r.value.0, r.value.1) && r.value.1 >= rawSize
      // of the slabs, a run takes its own and no other
      ensures r.Some? && at.ARun? ==> RunFree(old(taken), at.f, SlabsFor(r.value.1))
                                      && taken == Marks(old(taken), at.f, SlabsFor(r.value.1), true)
      // where it is, the seed says
      ensures wLen <= nSlabs && (r.Some? ==> LedTo(old(Now()), old(rng), rawSize, at))
    {
      hide ClassOk, AddrOf, Core, Exhausted, ClassSize, Ok, ClassFor, OkButPlace, SameLive, TabOk, RunFree,
           SlabsFor, Refilled, IsFound, DrawnAt;
      OkTab(Now());
      var fit := ClassForLoop(rawSize);
      if fit.None? {
        at := ARun(0);
        SameLiveRefl(Now());
        return None, at;
      }
      if fit.value.class_.Some? && fit.value.class_.value < N_POOLED {
        r, at := RawBlock(fit.value.class_.value, fit.value.size);
      } else {
        SizeIsBig(rawSize);
        r, at := RawRun(fit.value.size);
      }
    }

    method RawBlock(c: nat, size: nat) returns (r: Option<(nat, nat)>, ghost at: Home)
      requires Ok(Now()) && |order| == 4096 && c < N_POOLED && size == ClassSize(c)
      modifies this
      ensures |order| == 4096 && TabOk(tab) && SameLive(old(Now()), Now())
      ensures r.Some? <==> !Exhausted(old(Now()), c)
      ensures r.None? ==> Ok(Now())
      ensures r.Some? ==> OkButPlace(Now(), at, r.value.0, r.value.1) && r.value.1 == size && at.ASlot?
      ensures |old(pool)| == |old(ov)| == N_POOLED
      ensures r.Some? ==> DrawnFrom(old(Now()), old(rng), c, at.x)
    {
      hide ClassOk, AddrOf, Core, Exhausted, ClassSize, Ok, SameLive, Refilled, Without, R.Next, R.Scaled, DrawnAt;
      var p;
      ghost var x, q, s;
      p, x, q, s := Draw(c, size);
      at := ASlot(x);
      r := if p.None? then None else Some((p.value, size));
    }

    method RawRun(size: nat) returns (r: Option<(nat, nat)>, ghost at: Home)
      requires Ok(Now()) && IsBig(size) && SlabsFor(size) > 0 && size <= SlabsFor(size) * SLAB < size + SLAB
      modifies this
      ensures order == old(order) && TabOk(tab) && SameLive(old(Now()), Now())
      ensures r.Some? <==> ZoneHolds(old(Now()), SlabsFor(size))
      ensures r.None? ==> Ok(Now())
      ensures r.None? ==> taken == old(taken)
      ensures r.Some? ==> OkButPlace(Now(), at, r.value.0, r.value.1) && r.value.1 == size
      ensures r.Some? ==> at.ARun? && RunFree(old(taken), at.f, SlabsFor(size))
                          && taken == Marks(old(taken), at.f, SlabsFor(size), true)
      ensures wLen <= nSlabs
      ensures r.Some? ==>
                var first, len, n := RestFirst(wFirst, wLen), RestLen(nSlabs, wFirst, wLen), SlabsFor(size);
                n <= len && IsFound(old(rng), old(taken), first, first + len - n, n, at.f)
    {
      hide ClassOk, AddrOf, Core, Ok, SameLive, OkButRun, RoomIn, IsBig, RunFree, IsFound, StateAt;
      OkTab(Now());
      var n := (size + SLAB - 1) / SLAB;
      var p, f := TakeRun(n, size);
      at := ARun(f);
      r := if p.None? then None else Some((p.value, size));
    }

    method FreeRaw(raw: nat, classSize: nat, ghost b: Block)
      requires Ok(Now()) && IsLive(Now(), b) && raw == b.raw && classSize == b.size && b.size <= USIZE_MAX
      modifies this
      ensures Ok(Now()) && Died(old(Now()), Now(), b) && order == old(order)
      ensures TabOk(old(tab)) && FreedAs(old(Now()), Now(), b)
    {
      hide ClassOk, AddrOf, LiveOk, FreeOk, Quiet, Core, ClassSize, FreedTo;
      ghost var v := Now();
      OkTab(v);
      var fit := ClassForLoop(classSize);
      LiveClass(v, b);
      if fit.None? { return; }
      if fit.value.class_.Some? && fit.value.class_.value < N_POOLED {
        ghost var x: Slot :| LiveIn(v, b, x);
        FreeBlock(fit.value.class_.value, raw, classSize, x, b);
        FreedSlot(v, Now(), b, x);
      } else {
        ghost var f: nat :| LiveRun(v, b, f);
        GiveRun(raw, classSize, f, b);
        FreedRun(v, Now(), b, f);
      }
    }

    /** A block of a pooled class joins its free ones; the slab it was the last
        live block of may go back. */
    method FreeBlock(c: nat, raw: nat, size: nat, ghost x: Slot, ghost b: Block)
      requires Ok(Now()) && LiveIn(Now(), b, x) && raw == b.raw && size == b.size
      requires c < N_POOLED && tab[x.s].c == c && size == ClassSize(c)
      modifies this
      ensures Ok(Now()) && Died(old(Now()), Now(), b) && order == old(order)
      ensures TabOk(old(tab)) && SlotIn(old(tab), x) && FreedTo(old(Now()), Now(), x)
    {
      hide ClassOk, AddrOf, LiveOk, FreeOk, Quiet, Core, ClassSize, IsLive, Slots;
      ghost var v := Now();
      Lengths(v, c);
      FreeReady(v, c, x, b);
      Place(c, raw, x);
      ghost var u := Now();
      FreedCounts(v, u, c, x, b);
      freeBlocks := freeBlocks[c := freeBlocks[c] + 1];
      var slab := (raw - WBase()) / SLAB;
      live := live[slab := live[slab] - 1];
      ghost var t := Now();
      if live[slab] == 0 {
        Release(c, size, slab);
        DiedThen(v, t, Now(), b);
      }
      Lengths(Now(), c);
    }

    // ---- malloc and free -------------------------------------------------------------

    /** `size` bytes at a multiple of `align`, a power of two from 16 on; 0 when
        there is no room. */
    method Alloc(size: nat, align: nat) returns (p: nat, ghost b: Block)
      requires Ok(Now()) && |order| == 4096 && size <= USIZE_MAX && align >= 16 && align % 16 == 0
      modifies this
      ensures Ok(Now()) && |order| == 4096
      // it fails only for want of room, and then nothing is lost
      ensures p == 0 <==> Wanted(size, align) > USIZE_MAX || !CanServe(old(Now()), Wanted(size, align))
      ensures p == 0 ==> SameLive(old(Now()), Now())
      // otherwise exactly one allocation is new: this one, aligned and as big as asked
      ensures p != 0 ==> Born(old(Now()), Now(), b) && b.p == p && b.n == size && p % align == 0
      // it lies where the seed says, the payload right behind the header or as far on as it takes
      ensures p != 0 ==> b.raw + HEADER <= p < b.raw + HEADER + align
      ensures wLen <= nSlabs && TabOk(tab)
      ensures p != 0 ==> exists at: Home ::
                           LedTo(old(Now()), old(rng), Wanted(size, align), at)
                           && (at.ASlot? ==> SlotIn(tab, at.x)) && b.raw == AddrAt(Now(), at)
    {
      hide ClassOk, AddrOf, IsLive, Core, CanServe, LiveOk, FreeOk, Quiet, SameLive, RoundUp, Ok, Born, LedTo;
      ghost var v0 := Now();
      OkTab(v0);
      b := Block(0, 0, 0, 0);
      var slack := if align > 16 then align else 0;
      var wanted := (if size > 1 then size else 1) + HEADER + slack;
      if wanted > USIZE_MAX {
        SameLiveRefl(v0);
        return 0, b;
      }
      var r, at := AllocRaw(wanted);
      if r.None? { return 0, b; }
      var raw, classSize := r.value.0, r.value.1;
      ghost var v := Now();
      HomeAligned(v, at, raw, classSize);
      PayloadFits(raw, classSize, size, align);
      p := RoundUp(raw + HEADER, align);
      mem := Headed(mem, raw, classSize, p);
      b := Block(raw, classSize, p, size);
      match at {
        case ASlot(x) =>
          OkButTab(v, x);
          tab := SetAt(tab, x, Live(p, size));
          SlotBorn(v, x, p, size);
          SlotStays(v, Now(), x, raw, classSize, Live(p, size));
        case ARun(f) =>
          RunIs(v, f, raw, classSize);
          RunBorn(v, f, p, size);
          runs := runs[f := runs[f].(w := Live(p, size))];
      }
      BornAfter(v0, v, Now(), b);
    }

    /** The payload at `p` is the caller's no longer. */
    method Free(p: nat, ghost b: Block)
      requires Ok(Now()) && IsLive(Now(), b) && b.p == p
      modifies this
      ensures Ok(Now()) && Died(old(Now()), Now(), b) && order == old(order)
      // what was its storage is there for the next
      ensures TabOk(old(tab)) && FreedAs(old(Now()), Now(), b)
    {
      hide ClassOk, AddrOf, IsLive, LiveOk, FreeOk, Quiet, FreedAs;
      LiveIsInside(Now(), b);
      LiveFits(Now(), b);
      var raw, classSize := mem[p - 16], mem[p - 8];
      FreeRaw(raw, classSize, b);
    }

    /** A caller writes a word of what it was given. */
    method Store(a: nat, val: nat, ghost b: Block)
      requires Ok(Now()) && IsLive(Now(), b) && Inside(b, a)
      modifies `mem
      ensures Ok(Now()) && SameLive(old(Now()), Now()) && mem == old(mem)[a := val]
    {
      hide ClassOk, AddrOf, HeadersOk, RunsOk, TakenOk;
      StoreOk(Now(), b, a, val);
      ghost var v := Now();
      mem := mem[a := val];
      forall d: Block ensures IsLive(Now(), d) <==> IsLive(v, d) {
        forall y: Slot ensures LiveIn(v, d, y) <==> LiveIn(Now(), d, y) { }
        forall f: nat ensures LiveRun(v, d, f) <==> LiveRun(Now(), d, f) { }
      }
    }

    // ---- the beginning ------------------------------------------------------------------

    /** A region of `n` slabs, mapped afresh, with its layout seeded: the window
        is a quarter of it, at an end the seed chooses. */
    constructor (base: nat, n: nat, seed: R.State)
      requires base > 0 && base % 16 == 0 && n >= 64 && n % 64 == 0
      ensures Ok(Now()) && |order| == 4096 && this.base == base && nSlabs == n
      ensures wLen == (if WINDOW_SLABS < n / 4 then WINDOW_SLABS else n / 4) && (wFirst == 0 || wFirst == n - wLen)
      ensures wFirst == (if R.Scaled(R.Next(seed).0, 2) == 0 then 0 else n - wLen) && rng == R.Next(seed).1
      ensures forall b: Block :: !IsLive(Now(), b)
    {
      var x, next := R.Next(seed).0, R.Next(seed).1;
      R.ScaledBound(x, 2);
      var len := if WINDOW_SLABS < n / 4 then WINDOW_SLABS else n / 4;
      this.base, nSlabs, wLen, rng := base, n, len, next;
      wFirst := if R.Scaled(x, 2) == 0 then 0 else n - len;
      taken, order, live, mem := Fill(n, false), Fill(4096, 0), Fill(len, 0), Blank(base, n);
      pools, poolLen, freeBlocks, heads := Fill(N_POOLED, Fill(POOL, 0)), Fill(N_POOLED, 0), Fill(N_POOLED, 0),
        Fill(N_POOLED, 0);
      tab, pool, ov, runs := Fill(len, Open), Fill(N_POOLED, []), Fill(N_POOLED, []), map[];
      new;
      hide Ok, IsLive;
      EmptyOk(base, n, wFirst, len);
    }
  }

  function Fill<T>(n: nat, x: T): (s: seq<T>)
    ensures |s| == n && forall i :: 0 <= i < n ==> s[i] == x
  {
    seq(n, _ => x)
  }

  function Blank(base: nat, n: nat): Memory {
    map a: nat | base <= a < base + n * SLAB && a % 8 == 0 :: 0
  }

  /** A heap nothing has been taken from */
  function Empty(base: nat, n: nat, first: nat, len: nat): View {
    View(base, n, first, len, Fill(n, false), Fill(N_POOLED, Fill(POOL, 0)), Fill(N_POOLED, 0), Fill(N_POOLED, 0),
         Fill(len, 0), Fill(N_POOLED, 0), Blank(base, n), Fill(len, Open), Fill(N_POOLED, []), Fill(N_POOLED, []),
           map[])
  }

  /** A list's head is 0 exactly when the list is empty. */
  lemma ListHead(v: View, c: nat)
    requires Core(v) && c < N_POOLED
    ensures v.ov[c] == [] <==> v.heads[c] == 0
    ensures v.ov[c] != [] ==> SlotIn(v.tab, v.ov[c][0]) && v.heads[c] == AddrOf(WindowBase(v), v.tab, v.ov[c][0])
  {
    hide AddrOf, HeadersOk, RunsOk, TakenOk;
    assert ClassOk(v, c);
    if v.ov[c] != [] { AddrIn(v, v.ov[c][0]); }
  }

  lemma OkCore(v: View)
    requires Ok(v)
    ensures Core(v) && TabOk(v.tab)
  {
  }

  lemma Lengths(v: View, c: nat)
    requires Ok(v) && c < N_POOLED
    ensures |v.pool| == |v.ov| == |v.poolLen| == |v.pools| == |v.free| == |v.heads| == N_POOLED && TabOk(v.tab)
    ensures v.poolLen[c] == |v.pool[c]| <= POOL == |v.pools[c]| && v.free[c] == |v.pool[c]| + |v.ov[c]|
    ensures |v.live| == |v.tab| == v.wLen && v.wFirst + v.wLen <= |v.taken| == v.nSlabs
  {
    assert ClassOk(v, c);
  }

  /** `order[..n]` is a permutation of the first `n` numbers, `inv` undoing it. */
  predicate IsPerm(order: seq<nat>, inv: seq<nat>, n: nat) {
    && n <= |order| && |inv| == n
    && (forall i :: 0 <= i < n ==> order[i] < n && inv[order[i]] == i)
    && (forall x :: 0 <= x < n ==> inv[x] < n && order[inv[x]] == x)
  }

  function Numbers(n: nat): seq<nat> { seq(n, i => i) }

  /** The draws that deal `n` slots, the last place first */
  function Draws(s: R.State, n: nat): (d: seq<nat>)
    ensures |d| == if n <= 1 then 0 else n - 1
    decreases n
  {
    if n <= 1 then [] else [R.Scaled(R.Next(s).0, n)] + Draws(R.Next(s).1, n - 1)
  }

  /** The stream when `i` of `n` places are still open */
  function StateAfter(s: R.State, n: nat, i: nat): R.State
    decreases n
  {
    if n <= i then s else StateAfter(R.Next(s).1, n - 1, i)
  }

  lemma {:induction false} StateNext(s: R.State, n: nat, i: nat)
    requires 0 < i <= n
    ensures R.Next(StateAfter(s, n, i)).1 == StateAfter(s, n, i - 1)
    decreases n
  {
    hide R.Next;
    if i < n { StateNext(R.Next(s).1, n - 1, i); }
  }

  /** Each place in turn, from the last to the second, changes with the one
      drawn for it. */
  function Dealt(o: seq<nat>, draws: seq<nat>): (r: seq<nat>)
    ensures |r| == |o|
    decreases |draws|
  {
    var i := |draws|;
    if i == 0 || i >= |o| || draws[0] > i then o else Dealt(o[i := o[draws[0]]][draws[0] := o[i]], draws[1..])
  }

  lemma DealStart(s: R.State, n: nat)
    ensures StateAfter(s, n, n) == s
  {
  }

  lemma SameAfter(s: R.State, n: nat, i: nat)
    requires i == n <= 1 || i == 1
    ensures StateAfter(s, n, i) == StateAfter(s, n, 1)
  {
  }

  lemma DealtOne(q: seq<Slot>, l: seq<Slot>, r: seq<Slot>, m: seq<Slot>, s: nat, order: seq<nat>, k: nat)
    requires Dealing(q, l, s, order, k) && k < |order|
    requires if |q| < 32 then r == q + [Slot(s, order[k])] && m == l else r == q && m == [Slot(s, order[k])] + l
    ensures Dealing(r, m, s, order, k + 1)
  {
  }

  lemma PlacedNext(v: View, t: View, c: nat, s: nat, order: seq<nat>, k: nat)
    requires Core(v) && c < N_POOLED && k < |order| && OffLists(v, c, Slot(s, order[k]))
    requires Placed(v, t, c, Slot(s, order[k])) && |v.pool| == |v.ov| == N_POOLED
    requires Dealing(v.pool[c], v.ov[c], s, order, k)
    ensures |t.pool| == |t.ov| == N_POOLED && Dealing(t.pool[c], t.ov[c], s, order, k + 1)
  {
    hide Core, OffLists;
    DealtOne(v.pool[c], v.ov[c], t.pool[c], t.ov[c], s, order, k);
  }

  lemma FromList(v: View, s: R.State, c: nat, q: seq<Slot>, m: seq<Slot>)
    requires c < N_POOLED && c < |v.ov| && Topped([], v.ov[c], q, m) && q != []
    ensures Refilled(v, s, c, q, s)
  {
    hide Dealing, StateAt, StateAfter, IsFound;
  }

  lemma NoList(v: View, c: nat, q: seq<Slot>, m: seq<Slot>)
    requires c < |v.ov| && Topped([], v.ov[c], q, m) && q == []
    ensures v.ov[c] == [] && m == []
  {
  }

  lemma FromSlab(v: View, s: R.State, c: nat, q: seq<Slot>, l: seq<Slot>, slab: nat, t: R.State)
    requires c < N_POOLED && c < |v.ov| && v.ov[c] == [] && v.wLen >= 1
    requires IsFound(s, v.taken, v.wFirst, v.wFirst + v.wLen - 1, 1, v.wFirst + slab)
    requires t == StateAfter(StateAt(s, 17), Slots(c), 1)
    requires Dealing(q, l, slab, Dealt(Numbers(Slots(c)), Draws(StateAt(s, 17), Slots(c))), Slots(c))
    ensures Refilled(v, s, c, q, t)
  {
    hide Dealing, StateAt, StateAfter, IsFound, Dealt, Draws, Slots, Numbers;
  }

  lemma DealtNone(s: nat, order: seq<nat>)
    ensures Dealing([], [], s, order, 0)
  {
  }

  lemma DealtAll(q: seq<Slot>, l: seq<Slot>, s: nat, order: seq<nat>, n: nat)
    requires Dealing(q, l, s, order, n)
    ensures Dealing(q, l, s, order[..n], n)
  {
  }

  lemma DealEnd(o: seq<nat>, s: R.State, i: nat)
    requires i <= 1
    ensures Dealt(o, Draws(s, i)) == o
  {
  }

  lemma DealtStep(o: seq<nat>, s: R.State, i: nat, j: nat)
    requires 0 < i < |o| && j == R.Scaled(R.Next(s).0, i + 1) && j <= i
    ensures Dealt(o, Draws(s, i + 1)) == Dealt(o[i := o[j]][j := o[i]], Draws(R.Next(s).1, i))
  {
    hide R.Next, R.Scaled;
    assert Draws(s, i + 1)[1..] == Draws(R.Next(s).1, i);
  }

  /** Draws for as many places as there are, each among those still open */
  predicate Legal(o: seq<nat>, draws: seq<nat>) {
    |draws| < |o| && forall k :: 0 <= k < |draws| ==> draws[k] <= |draws| - k
  }

  predicate Distinct(o: seq<nat>) { forall i, j :: 0 <= i < j < |o| ==> o[i] != o[j] }

  lemma {:induction false} DealtKeeps(o: seq<nat>, draws: seq<nat>, k: nat)
    requires |draws| < k < |o|
    ensures Dealt(o, draws)[k] == o[k]
    decreases |draws|
  {
    var i := |draws|;
    if i > 0 && draws[0] <= i { DealtKeeps(o[i := o[draws[0]]][draws[0] := o[i]], draws[1..], k); }
  }

  lemma SamePlace(o: seq<nat>, i: nat, j: nat)
    requires Distinct(o) && i < |o| && j < |o| && o[i] == o[j]
    ensures i == j
  {
  }

  /** Every order of the slots comes from one list of draws: there are as many
      of these as of those, and no two lists deal alike. */
  lemma {:induction false} DealsDiffer(o: seq<nat>, d: seq<nat>, e: seq<nat>)
    requires Distinct(o) && Legal(o, d) && Legal(o, e) && |d| == |e| && Dealt(o, d) == Dealt(o, e)
    ensures d == e
    decreases |d|
  {
    var i := |d|;
    if i > 0 {
      var p, q := o[i := o[d[0]]][d[0] := o[i]], o[i := o[e[0]]][e[0] := o[i]];
      assert d[0] <= i && e[0] <= i;
      DealtKeeps(p, d[1..], i);
      DealtKeeps(q, e[1..], i);
      assert o[d[0]] == p[i] == q[i] == o[e[0]];
      SamePlace(o, d[0], e[0]);
      DealsDiffer(p, d[1..], e[1..]);
      assert d == [d[0]] + d[1..] && e == [e[0]] + e[1..];
    }
  }

  /** The draws made are such a list. */
  lemma {:induction false} DrawsLegal(o: seq<nat>, s: R.State, n: nat)
    requires n <= |o| && o != []
    ensures Legal(o, Draws(s, n))
    decreases n
  {
    hide R.Next, R.Scaled;
    if n > 1 {
      R.ScaledBound(R.Next(s).0, n);
      DrawsLegal(o, R.Next(s).1, n - 1);
      var d := Draws(s, n);
      forall k | 0 <= k < |d| ensures d[k] <= |d| - k {
        if k > 0 { assert d[k] == Draws(R.Next(s).1, n - 1)[k - 1]; }
      }
    }
  }

  lemma PermSwap(order: seq<nat>, inv: seq<nat>, n: nat, i: nat, j: nat)
    requires IsPerm(order, inv, n) && i < n && j < n
    ensures order[i] < n && order[j] < n && |inv| == n
    ensures IsPerm(order[i := order[j]][j := order[i]], inv[order[j] := i][order[i] := j], n)
  {
  }

  /** The head of the list becomes a candidate. */
  lemma MoveOver(v: View, c: nat)
    requires Ok(v) && c < N_POOLED && v.ov[c] != [] && v.poolLen[c] < POOL
    ensures SlotIn(v.tab, v.ov[c][0])
    ensures var a := AddrOf(WindowBase(v), v.tab, v.ov[c][0]); a in v.mem && a + 8 in v.mem
    ensures var x, u := v.ov[c][0], Delisted(v, c, 0);
            && Core(u) && OffLists(u, c, x) && AddrOf(WindowBase(u), u.tab, x) == AddrOf(WindowBase(v), v.tab, x)
            && |u.pools[c]| == POOL && AddrOf(WindowBase(u), u.tab, x) >= WindowBase(u)
            && var t := Offered(u, c, x);
            && Ok(t) && SameLive(v, t) && t.ov[c] == v.ov[c][1..] && t.pool[c] == v.pool[c] + [x]
  {
    hide ClassOk, AddrOf, IsLive, HeadersOk, RunsOk, TakenOk;
    var x := v.ov[c][0];
    DelistedOk(v, c, 0);
    var u := Delisted(v, c, 0);
    SetAtOk(v.tab, x, Loose);
    OfferedOk(u, c, x);
    var t := Offered(u, c, x);
    StepSameLive(v, u, x, Loose);
    StepSameLive(u, t, x, Pooled);
    LiveMoves(v, u, x, Loose);
    LiveMoves(u, t, x, Pooled);
    SetAtOk(u.tab, x, Pooled);
    assert Quiet(t) by { QuietAgain(v, u, t, x, Loose, Pooled); }
    assert FreeOk(t);
  }

  /** A block that was on its way has settled. */
  lemma QuietAgain(v: View, u: View, t: View, x: Slot, w: Where, w1: Where)
    requires Quiet(v) && TabOk(v.tab) && SlotIn(v.tab, x) && u.tab == SetAt(v.tab, x, w) && SlotIn(u.tab, x)
    requires t.tab == SetAt(u.tab, x, w1) && Settled(w1) && t.runs == v.runs
    ensures Quiet(t)
  {
    SetAtOk(v.tab, x, w);
    SetAtOk(u.tab, x, w1);
    forall y: Slot | SlotIn(t.tab, y) ensures Settled(At(t.tab, y)) {
      if y != x { assert At(t.tab, y) == At(v.tab, y); }
    }
  }

  lemma CoreLengths(v: View, c: nat)
    requires Core(v) && c < N_POOLED
    ensures v.poolLen[c] == |v.pool[c]| <= POOL == |v.pools[c]|
  {
    assert ClassOk(v, c);
  }

  // ---- placing a new slab's slots ----------------------------------------------------

  /** `x` became a candidate or joined the list. */
  ghost predicate Placed(v: View, t: View, c: nat, x: Slot)
    requires Core(v) && OffLists(v, c, x)
  {
    && (t.tab == SetAt(v.tab, x, Pooled) || t.tab == SetAt(v.tab, x, Listed))
    && t == v.(mem := t.mem, pools := t.pools, poolLen := t.poolLen, heads := t.heads, tab := t.tab, pool := t.pool,
         ov := t.ov)
    && |t.pool| == |t.ov| == N_POOLED && |t.pool[c]| + |t.ov[c]| == |v.pool[c]| + |v.ov[c]| + 1
    && t.pool[c] != []
    && (if |v.pool[c]| < 32 then t.pool[c] == v.pool[c] + [x] && t.ov[c] == v.ov[c]
        else t.pool[c] == v.pool[c] && t.ov[c] == [x] + v.ov[c])
    && (forall d :: 0 <= d < N_POOLED && d != c ==> t.pool[d] == v.pool[d] && t.ov[d] == v.ov[d])
  }

  /** The first `k` slots of slab `s`, in the drawn order, are placed. */
  ghost predicate Placing(v: View, c: nat, s: nat, order: seq<nat>, k: nat) {
    && Core(v) && LiveOk(v) && c < N_POOLED && s < |v.tab| && v.tab[s].Cut? && v.tab[s].c == c
    && k <= Slots(c) <= |order|
    && (forall j :: 0 <= j < Slots(c) ==>
          order[j] < Slots(c)
          && (if j < k then Settled(v.tab[s].st[order[j]]) && !v.tab[s].st[order[j]].Live?
               else v.tab[s].st[order[j]].Loose?))
    && (forall x: Slot {:trigger At(v.tab, x)} :: SlotIn(v.tab, x) && x.s != s ==> Settled(At(v.tab, x)))
    && (forall f :: f in v.runs ==> v.runs[f].w.Live?)
    && (forall d :: 0 <= d < N_POOLED && d != c ==> v.free[d] == |v.pool[d]| + |v.ov[d]|)
    && v.free[c] + k == |v.pool[c]| + |v.ov[c]|
    && (k > 0 ==> v.pool[c] != [])
  }

  lemma NotExhausted(v: View, s: nat, c: nat)
    requires Ok(v) && s < v.wLen && v.tab[s].Open?
    ensures v.wFirst + s < |v.taken| && !v.taken[v.wFirst + s] && !Exhausted(v, c)
  {
    assert TakenOk(v);
  }

  lemma CutOk(v: View, s: nat, c: nat)
    requires Ok(v) && c < N_POOLED && s < v.wLen && v.tab[s].Open?
    ensures s < |v.tab| && v.wFirst + s < |v.taken|
    ensures var t := WithSlab(v, s, AllLoose(c)); Core(t) && LiveOk(t) && SameLive(v, t)
  {
    hide ClassOk, AddrOf, IsLive, HeadersOk, RunsOk, TakenOk;
    RecutOk(v, s, AllLoose(c));
    RecutLive(v, s, AllLoose(c));
    RecutSameLive(v, s, AllLoose(c));
  }

  lemma StartPlacing(v: View, t: View, c: nat, s: nat, order: seq<nat>, inv: seq<nat>)
    requires Ok(v) && c < N_POOLED && s < v.wLen && v.tab[s].Open? && v.wFirst + s < |v.taken|
    requires t == WithSlab(v, s, AllLoose(c)) && Core(t) && LiveOk(t) && IsPerm(order, inv, Slots(c))
    ensures Placing(t, c, s, order, 0)
  {
    hide ClassOk, AddrOf, HeadersOk, RunsOk, TakenOk;
    forall x: Slot | SlotIn(t.tab, x) && x.s != s ensures Settled(At(t.tab, x)) {
      OtherSlots(v, s, AllLoose(c), x);
    }
  }

  lemma PlacingSlot(v: View, c: nat, s: nat, order: seq<nat>, k: nat)
    requires Placing(v, c, s, order, k) && k < Slots(c)
    ensures Core(v) && k < |order| && order[k] < Slots(c) && OffLists(v, c, Slot(s, order[k]))
    ensures AddrOf(WindowBase(v), v.tab, Slot(s, order[k])) == v.base + (v.wFirst + s) * SLAB + order[k] * ClassSize(c)
  {
    hide ClassOk, HeadersOk, RunsOk, TakenOk;
  }

  lemma PlaceStep(v: View, t: View, c: nat, s: nat, order: seq<nat>, inv: seq<nat>, k: nat)
    requires Placing(v, c, s, order, k) && k < Slots(c) && IsPerm(order, inv, Slots(c))
    requires OffLists(v, c, Slot(s, order[k])) && Core(t) && Placed(v, t, c, Slot(s, order[k]))
    ensures Placing(t, c, s, order, k + 1) && SameLive(v, t)
  {
    hide ClassOk, AddrOf, HeadersOk, RunsOk, TakenOk, IsLive;
    var x := Slot(s, order[k]);
    var w := if t.tab == SetAt(v.tab, x, Pooled) then Pooled else Listed;
    SetAtOk(v.tab, x, w);
    LiveMoves(v, t, x, w);
    StepSameLive(v, t, x, w);
    forall j | 0 <= j < Slots(c) && j != k ensures order[j] != order[k] {
      assert inv[order[j]] == j && inv[order[k]] == k;
    }
  }

  lemma DonePlacing(v: View, c: nat, s: nat, order: seq<nat>, inv: seq<nat>)
    requires c < N_POOLED && Placing(v, c, s, order, Slots(c)) && IsPerm(order, inv, Slots(c))
    ensures |v.free| == |v.pool| == N_POOLED
    ensures Ok(v.(free := v.free[c := v.free[c] + Slots(c)]))
      && SameLive(v, v.(free := v.free[c := v.free[c] + Slots(c)]))
    ensures v.pool[c] != []
  {
    hide AddrOf;
    var t := v.(free := v.free[c := v.free[c] + Slots(c)]);
    forall x: Slot | SlotIn(t.tab, x) ensures Settled(At(t.tab, x)) {
      if x.s == s { assert order[inv[x.k]] == x.k; }
    }
    FreeOnly(v, t);
  }

  /** The counters are nobody else's business. */
  lemma FreeOnly(v: View, t: View)
    requires Core(v) && t == v.(free := t.free, live := t.live) && |t.free| == N_POOLED && |t.live| == v.wLen
    ensures Core(t) && SameLive(v, t)
  {
    hide AddrOf, TabOk, Members, Links, Marked;
    forall a: nat | InRegion(t, a) ensures a in t.mem { assert InRegion(v, a); }
    forall c | 0 <= c < N_POOLED ensures ClassOk(t, c) { assert ClassOk(v, c); }
    CountersOnly(v, t);
  }

  lemma CountersOnly(v: View, t: View)
    requires TabOk(v.tab) && TakenOk(v) && RunsOk(v) && HeadersOk(v) && t == v.(free := t.free, live := t.live)
    ensures TakenOk(t) && RunsOk(t) && HeadersOk(t) && SameLive(v, t)
  {
    hide AddrOf, SizeAt;
    forall i: nat | i < t.nSlabs && !InWindow(t, i) ensures t.taken[i] <==> exists f :: f in t.runs && InRun(t, f, i) {
      assert !InWindow(v, i);
      if t.taken[i] { var f :| f in v.runs && InRun(v, f, i); assert InRun(t, f, i); }
      if f :| f in t.runs && InRun(t, f, i) { assert InRun(v, f, i); }
    }
    forall b: Block ensures IsLive(t, b) <==> IsLive(v, b) {
      forall y: Slot ensures LiveIn(v, b, y) <==> LiveIn(t, b, y) { }
      forall f: nat ensures LiveRun(v, b, f) <==> LiveRun(t, b, f) { }
    }
  }

  lemma SameLiveRefl(v: View)
    requires TabOk(v.tab)
    ensures SameLive(v, v)
  {
  }

  // ---- drawing a block -------------------------------------------------------------

  /** What holds between calls, but for one block drawn and not headed yet */
  ghost predicate OkBut(v: View, x: Slot) {
    && Core(v) && LiveOk(v) && FreeOk(v) && SlotIn(v.tab, x) && At(v.tab, x).Drawn?
    && (forall y: Slot {:trigger At(v.tab, y)} :: SlotIn(v.tab, y) && y != x ==> Settled(At(v.tab, y)))
    && (forall f :: f in v.runs ==> v.runs[f].w.Live?)
  }

  /** The state after a draw, counters and all */
  function AfterDraw(v: View, c: nat, i: nat): View
    requires c < N_POOLED && c < |v.pools| == |v.poolLen| == |v.pool| && i < |v.pool[c]| == v.poolLen[c] <= |v.pools[c]|
    requires SlotIn(v.tab, v.pool[c][i]) && c < |v.free| && v.free[c] > 0 && v.pool[c][i].s < |v.live|
  {
    var s := v.pool[c][i].s;
    Picked(v, c, i, Drawn).(free := v.free[c := (v.free[c] - 1) as nat], live := v.live[s := v.live[s] + 1])
  }

  lemma DrawOk(v: View, c: nat, i: nat)
    requires Ok(v) && c < N_POOLED && i < |v.pool[c]|
    ensures |v.pools| == |v.poolLen| == |v.pool| == |v.free| == N_POOLED
      && |v.pool[c]| == v.poolLen[c] <= |v.pools[c]| == POOL
    ensures SlotIn(v.tab, v.pool[c][i]) && v.free[c] > 0 && v.pool[c][i].s < |v.live|
    ensures OfClass(v, c, v.pool[c][i]) && At(v.tab, v.pool[c][i]) == Pooled
    ensures var x, t := v.pool[c][i], AfterDraw(v, c, i);
            && TabOk(t.tab) && OkBut(t, x) && SameLive(v, t) && OfClass(t, c, x)
            && AddrOf(WindowBase(t), t.tab, x) == AddrOf(WindowBase(v), v.tab, x) == WindowBase(v) + v.pools[c][i] * 16
            && (v.pools[c][i] * 16) / SLAB == x.s && v.live[x.s] < 4096
  {
    hide ClassOk, AddrOf, HeadersOk, RunsOk, TakenOk, IsLive, Used;
    Lengths(v, c);
    PickedOk(v, c, i, Drawn);
    var x, u, t := v.pool[c][i], Picked(v, c, i, Drawn), AfterDraw(v, c, i);
    FreeOnly(u, t);
    StepSameLive(v, u, x, Drawn);
    LiveMoves(v, t, x, Drawn);
    LiveCounts(t, x);
    SetAtOk(v.tab, x, Drawn);
    AddrIn(v, x);
    EntryIsAddr(v, c, i);
    assert FreeOk(t);
    forall y: Slot | SlotIn(t.tab, y) && y != x ensures Settled(At(t.tab, y)) { assert At(t.tab, y) == At(v.tab, y); }
  }

  lemma EntryIsAddr(v: View, c: nat, i: nat)
    requires Core(v) && c < N_POOLED && i < |v.pool[c]|
    ensures SlotIn(v.tab, v.pool[c][i]) && i < |v.pools[c]|
    ensures WindowBase(v) + v.pools[c][i] * 16 == AddrOf(WindowBase(v), v.tab, v.pool[c][i])
  {
    hide AddrOf, HeadersOk, RunsOk, TakenOk;
    assert ClassOk(v, c);
  }

  // ---- clearing a slab -----------------------------------------------------------------

  /** The first `k` blocks of slab `s` are off the candidates and the list; the
      others are on them. */
  ghost predicate Clearing(v: View, c: nat, s: nat, k: nat) {
    && Core(v) && LiveOk(v) && c < N_POOLED && s < |v.tab| && v.tab[s].Cut? && v.tab[s].c == c && k <= Slots(c)
    && (forall j :: 0 <= j < Slots(c) ==>
          if j < k then v.tab[s].st[j].Loose? else v.tab[s].st[j].Pooled? || v.tab[s].st[j].Listed?)
    && (forall x: Slot {:trigger At(v.tab, x)} :: SlotIn(v.tab, x) && x.s != s ==> Settled(At(v.tab, x)))
    && (forall f :: f in v.runs ==> v.runs[f].w.Live?)
    && (forall d :: 0 <= d < N_POOLED && d != c ==> v.free[d] == |v.pool[d]| + |v.ov[d]|)
    && v.free[c] == |v.pool[c]| + |v.ov[c]| + k
  }

  lemma StartClearing(v: View, c: nat, s: nat)
    requires Ok(v) && c < N_POOLED && s < |v.tab| && v.tab[s].Cut? && v.tab[s].c == c && s < |v.live| && v.live[s] == 0
    ensures Clearing(v, c, s, 0)
  {
    hide ClassOk, AddrOf, HeadersOk, RunsOk, TakenOk;
    NoneUsed(v.tab[s].st);
    forall j | 0 <= j < Slots(c) ensures v.tab[s].st[j].Pooled? || v.tab[s].st[j].Listed? {
      assert Settled(At(v.tab, Slot(s, j)));
    }
  }

  /** The mark in a free block's second word tells candidates from listed
      blocks. */
  lemma ClearingSlot(v: View, c: nat, s: nat, k: nat)
    requires Clearing(v, c, s, k) && k < Slots(c)
    ensures OfClass(v, c, Slot(s, k)) && |v.pools| == |v.poolLen| == |v.pool| == |v.ov| == N_POOLED
    ensures v.poolLen[c] == |v.pool[c]| <= |v.pools[c]| == POOL
    ensures var x := Slot(s, k); var a := AddrOf(WindowBase(v), v.tab, x);
            && a == v.base + (v.wFirst + s) * SLAB + Off(c, k) && a >= WindowBase(v)
            && a + 8 in v.mem && (v.mem[a + 8] == IN_POOL <==> At(v.tab, x).Pooled?)
            && (v.mem[a + 8] != IN_POOL ==> At(v.tab, x).Listed?)
  {
    hide AddrOf, ClassOk, Core, HeadersOk, RunsOk, TakenOk, Off, LiveOk;
    var x := Slot(s, k);
    CoreTab(v);
    CoreLengths(v, c);
    AddrIn(v, x);
    SlotAddress(v, c, s, k);
    if At(v.tab, x).Pooled? { PooledMark(v, c, x); } else { ListedMark(v, c, x); }
  }

  lemma CoreTab(v: View)
    requires Core(v)
    ensures Shape(v)
  {
  }

  lemma PooledMark(v: View, c: nat, x: Slot)
    requires Core(v) && OfClass(v, c, x) && At(v.tab, x).Pooled?
    ensures Word(v.mem, AddrOf(WindowBase(v), v.tab, x) + 8, IN_POOL)
  {
    hide AddrOf, HeadersOk, RunsOk, TakenOk;
    assert ClassOk(v, c);
    PooledIndex(v, c, x);
    var i: nat :| i < |v.pool[c]| && v.pool[c][i] == x;
    assert Word(v.mem, Addrs(WindowBase(v), v.tab, v.pool[c])[i] + 8, IN_POOL);
  }

  lemma ListedMark(v: View, c: nat, x: Slot)
    requires Core(v) && OfClass(v, c, x) && At(v.tab, x).Listed?
    ensures var a := AddrOf(WindowBase(v), v.tab, x); a + 8 in v.mem && v.mem[a + 8] != IN_POOL
  {
    hide AddrOf, HeadersOk, RunsOk, TakenOk, Members;
    assert ClassOk(v, c);
    var i := ListIndex(v, c, x);
    var a := Addrs(WindowBase(v), v.tab, v.ov[c]);
    assert LinkAt(v.mem, a, i);
    if i > 0 { AddrIn(v, v.ov[c][i - 1]); }
  }

  lemma SlotAddress(v: View, c: nat, s: nat, k: nat)
    requires TabOk(v.tab) && OfClass(v, c, Slot(s, k))
    ensures AddrOf(WindowBase(v), v.tab, Slot(s, k)) == v.base + (v.wFirst + s) * SLAB + Off(c, k)
  {
  }

  /** Where a listed block is on its list */
  ghost function ListIndex(v: View, c: nat, x: Slot): (i: nat)
    requires Core(v) && OfClass(v, c, x) && At(v.tab, x).Listed?
    ensures i < |v.ov[c]| && v.ov[c][i] == x
  {
    assert ClassOk(v, c);
    assert Holds(v.tab, x, c, Listed);
    var i :| 0 <= i < |v.ov[c]| && v.ov[c][i] == x;
    i
  }

  /** A candidate's entry is found, and is its own. */
  lemma EntryFound(v: View, c: nat, x: Slot, i: nat)
    requires Core(v) && OfClass(v, c, x) && At(v.tab, x).Pooled? && i <= |v.pool[c]| == v.poolLen[c] <= |v.pools[c]|
    requires AddrOf(WindowBase(v), v.tab, x) >= WindowBase(v)
    requires i < |v.pool[c]| ==> v.pools[c][i] == Entry(WindowBase(v), AddrOf(WindowBase(v), v.tab, x))
    requires forall j :: 0 <= j < i ==> v.pools[c][j] != Entry(WindowBase(v), AddrOf(WindowBase(v), v.tab, x))
    ensures i < |v.pool[c]| && v.pool[c][i] == x
  {
    hide AddrOf, HeadersOk, RunsOk, TakenOk, Members;
    PooledIndex(v, c, x);
    var j: nat :| j < |v.pool[c]| && v.pool[c][j] == x;
    EntryIsAddr(v, c, j);
    AddrIn(v, x);
    assert i <= j;
    EntryIsAddr(v, c, i);
    var y := v.pool[c][i];
    AddrIn(v, y);
    OneBlockEach(v, x, y, AddrOf(WindowBase(v), v.tab, x));
  }

  lemma PooledIndex(v: View, c: nat, x: Slot)
    requires Core(v) && OfClass(v, c, x) && At(v.tab, x).Pooled?
    ensures exists j: nat :: j < |v.pool[c]| && v.pool[c][j] == x
  {
    assert ClassOk(v, c);
    assert Holds(v.tab, x, c, Pooled);
  }

  /** One block is off; the rest stands. */
  lemma ClearStep(v: View, t: View, c: nat, s: nat, k: nat)
    requires Clearing(v, c, s, k) && k < Slots(c) && Core(t) && SlotIn(v.tab, Slot(s, k))
      && t.tab == SetAt(v.tab, Slot(s, k), Loose)
    requires t == v.(mem := t.mem, pools := t.pools, poolLen := t.poolLen, heads := t.heads, tab := t.tab,
      pool := t.pool, ov := t.ov)
    requires |t.pool| == |t.ov| == N_POOLED && |t.pool[c]| + |t.ov[c]| + 1 == |v.pool[c]| + |v.ov[c]|
    requires forall d :: 0 <= d < N_POOLED && d != c ==> t.pool[d] == v.pool[d] && t.ov[d] == v.ov[d]
    ensures Clearing(t, c, s, k + 1) && SameLive(v, t)
  {
    hide ClassOk, AddrOf, HeadersOk, RunsOk, TakenOk, IsLive;
    var x := Slot(s, k);
    SetAtOk(v.tab, x, Loose);
    LiveMoves(v, t, x, Loose);
    StepSameLive(v, t, x, Loose);
    forall y: Slot | SlotIn(t.tab, y) && y.s != s ensures Settled(At(t.tab, y)) { assert At(t.tab, y) == At(v.tab, y); }
  }

  lemma ClearingTab(v: View, c: nat, s: nat)
    requires Clearing(v, c, s, 0)
    ensures TabOk(v.tab)
  {
  }

  lemma DoneClearing(v: View, c: nat, s: nat)
    requires c < N_POOLED && Clearing(v, c, s, Slots(c))
    ensures |v.free| == N_POOLED && v.free[c] >= Slots(c) && s < |v.tab| && v.wFirst + s < |v.taken|
    ensures var t := WithSlab(v, s, Open).(free := v.free[c := (v.free[c] - Slots(c)) as nat]); Ok(t) && SameLive(v, t)
  {
    hide AddrOf, ClassOk, HeadersOk, RunsOk, TakenOk, IsLive;
    var u := WithSlab(v, s, Open);
    var t := u.(free := v.free[c := (v.free[c] - Slots(c)) as nat]);
    RecutOk(v, s, Open);
    RecutLive(v, s, Open);
    RecutSameLive(v, s, Open);
    FreeOnly(u, t);
    forall x: Slot | SlotIn(t.tab, x) ensures Settled(At(t.tab, x)) {
      if x.s != s { OtherSlots(v, s, Open, x); }
    }
  }

  lemma OffIs(c: nat, k: nat, size: nat)
    requires c < N_POOLED && size == ClassSize(c)
    ensures Off(c, k) == k * size
  {
  }

  // ---- runs and raw blocks ---------------------------------------------------------------

  /** Where a raw block was found */
  datatype Home = ASlot(x: Slot) | ARun(f: nat)

  /** The zone of runs: what the window leaves of the region */
  function RestFirst(wFirst: nat, wLen: nat): nat { if wFirst == 0 then wLen else 0 }

  function RestLen(nSlabs: nat, wFirst: nat, wLen: nat): nat
    requires wLen <= nSlabs
  {
    if wFirst == 0 then nSlabs - wLen else wFirst
  }

  function SlabsFor(size: nat): nat { (size + SLAB - 1) / SLAB }

  /** Whether there is room for a raw block of `raw` bytes */
  ghost predicate CanServe(v: View, raw: nat)
    requires v.wLen <= v.nSlabs
  {
    var f := ClassFor(raw);
    f.Some?
    && (if f.value.class_.Some? && f.value.class_.value < N_POOLED then !Exhausted(v, f.value.class_.value)
        else ZoneHolds(v, SlabsFor(f.value.size)))
  }

  /** `n` slabs in a row are free outside the window. */
  ghost predicate ZoneHolds(v: View, n: nat)
    requires v.wLen <= v.nSlabs
  {
    var first := RestFirst(v.wFirst, v.wLen);
    RoomIn(v.taken, first, first + RestLen(v.nSlabs, v.wFirst, v.wLen) - n, n)
  }

  ghost predicate OkButRun(v: View, f: nat) {
    && Core(v) && LiveOk(v) && FreeOk(v) && f in v.runs && v.runs[f].w.Drawn?
    && (forall y: Slot {:trigger At(v.tab, y)} :: SlotIn(v.tab, y) ==> Settled(At(v.tab, y)))
    && (forall g :: g in v.runs && g != f ==> v.runs[g].w.Live?)
  }

  ghost predicate OkButPlace(v: View, at: Home, raw: nat, size: nat) {
    match at
    case ASlot(x) => OkBut(v, x) && raw == AddrOf(WindowBase(v), v.tab, x) && size == SizeAt(v.tab, x)
    case ARun(f) => OkButRun(v, f) && raw == v.base + f * SLAB && size == v.runs[f].size
  }

  lemma OkTab(v: View)
    requires Ok(v)
    ensures TabOk(v.tab) && v.wLen <= v.nSlabs
  {
  }

  lemma OkShape(v: View)
    requires Ok(v)
    ensures Shape(v) && Core(v)
  {
  }

  lemma SizeIsBig(raw: nat)
    requires ClassFor(raw).Some?
    requires ClassFor(raw).value.class_.None? || ClassFor(raw).value.class_.value >= N_POOLED
    ensures var size := ClassFor(raw).value.size;
            IsBig(size) && SlabsFor(size) > 0 && size <= SlabsFor(size) * SLAB < size + SLAB
  {
    hide ClassFor;
    FreeFindsTheClass(raw);
    RoundUpFacts(ClassFor(raw).value.size, SLAB);
  }

  lemma RunTakenIsOk(v: View, f: nat, r: Run)
    requires Ok(v) && RunFree(v.taken, f, r.n) && r.n >= 1 && r.size <= r.n * SLAB < r.size + SLAB && r.w.Drawn?
      && IsBig(r.size)
    requires f + r.n <= v.wFirst || f >= v.wFirst + v.wLen
    ensures var t := RunTaken(v, f, r); OkButRun(t, f) && SameLive(v, t) && TabOk(t.tab)
  {
    hide ClassOk, AddrOf, HeadersOk, RunsOk, TakenOk, IsBig;
    RunTakenOk(v, f, r);
    var t := RunTaken(v, f, r);
    forall b: Block ensures IsLive(t, b) <==> IsLive(v, b) {
      forall y: Slot ensures LiveIn(v, b, y) <==> LiveIn(t, b, y) { }
      forall g: nat ensures LiveRun(v, b, g) <==> LiveRun(t, b, g) { }
    }
  }

  lemma RunPlace(v: View, f: nat)
    requires Ok(v) && f in v.runs
    ensures (v.base + f * SLAB - v.base) / SLAB == f && SlabsFor(v.runs[f].size) == v.runs[f].n
    ensures f + v.runs[f].n <= |v.taken|
  {
    hide ClassOk, HeadersOk, TakenOk, IsBig;
    var r := v.runs[f];
    RoundUpFacts(r.size, SLAB);
  }

  /** `b` alone is no longer live. */
  ghost predicate Died(v: View, t: View, b: Block) {
    TabOk(v.tab) && TabOk(t.tab) && IsLive(v, b) && forall d: Block :: IsLive(t, d) <==> IsLive(v, d) && d != b
  }

  /** `b` alone became live. */
  ghost predicate Born(v: View, t: View, b: Block) {
    TabOk(v.tab) && TabOk(t.tab) && !IsLive(v, b) && forall d: Block :: IsLive(t, d) <==> IsLive(v, d) || d == b
  }

  lemma DiedThen(v: View, t: View, u: View, b: Block)
    requires Died(v, t, b) && SameLive(t, u)
    ensures Died(v, u, b)
  {
  }

  /** One place each: a live block is in one slot, or is one run. */
  lemma OneHome(v: View, b: Block, x: Slot)
    requires Core(v) && LiveIn(v, b, x)
    ensures forall y: Slot :: LiveIn(v, b, y) ==> y == x
    ensures forall f: nat :: !LiveRun(v, b, f)
  {
    hide AddrOf, Core;
    NotElsewhere(v, x, b);
  }

  lemma SameAddr(v: View, x: Slot, y: Slot)
    requires Core(v) && SlotIn(v.tab, x) && SlotIn(v.tab, y)
    requires AddrOf(WindowBase(v), v.tab, x) == AddrOf(WindowBase(v), v.tab, y)
    ensures x == y
  {
    hide AddrOf, SizeAt, TabOk, Core, Shape, RunsOk;
    CoreFacts(v);
    SizePositive(v.tab, x);
    SizePositive(v.tab, y);
    if x != y { Apart(WindowBase(v), v.tab, x, y); }
  }

  lemma RunDroppedIsOk(v: View, f: nat, b: Block)
    requires Ok(v) && LiveRun(v, b, f)
    ensures Ok(RunDropped(v, f)) && Died(v, RunDropped(v, f), b)
  {
    hide ClassOk, AddrOf, HeadersOk, RunsOk, TakenOk, IsBig;
    RunDroppedOk(v, f);
    RunDies(v, f, b);
  }

  lemma RunDies(v: View, f: nat, b: Block)
    requires Core(v) && LiveRun(v, b, f)
    ensures Died(v, RunDropped(v, f), b)
  {
    hide ClassOk, AddrOf, HeadersOk, RunsOk, TakenOk, IsBig, SizeAt, Core, Marks, TabOk;
    var t := RunDropped(v, f);
    CoreTab(v);
    forall y: Slot ensures !LiveIn(v, b, y) { if LiveIn(v, b, y) { OneHome(v, b, y); } }
    forall d: Block ensures IsLive(t, d) <==> IsLive(v, d) && d != b {
      forall y: Slot ensures LiveIn(v, d, y) <==> LiveIn(t, d, y) { }
      forall g: nat ensures LiveRun(t, d, g) <==> LiveRun(v, d, g) && g != f { }
      OneRun(v, d, b, f);
    }
  }

  lemma OneRun(v: View, d: Block, b: Block, f: nat)
    requires LiveRun(v, b, f)
    ensures LiveRun(v, d, f) ==> d == b
    ensures forall g: nat :: LiveRun(v, b, g) ==> g == f
  {
  }

  /** The size in a header finds the place of its block again. */
  lemma LiveClass(v: View, b: Block)
    requires Ok(v) && IsLive(v, b)
    ensures ClassFor(b.size).Some?
    ensures var k := ClassFor(b.size).value.class_;
            if k.Some? && k.value < N_POOLED
            then (exists x: Slot :: LiveIn(v, b, x)) && b.size == ClassSize(k.value)
                 && forall x: Slot :: LiveIn(v, b, x) ==> v.tab[x.s].c == k.value
            else exists f: nat :: LiveRun(v, b, f)
  {
    hide ClassFor, ClassSize, AddrOf, ClassOk, TakenOk, HeadersOk;
    forall x: Slot | LiveIn(v, b, x)
      ensures ClassFor(b.size) == Some(Fit(Some(v.tab[x.s].c), ClassSize(v.tab[x.s].c))) && v.tab[x.s].c < N_POOLED
    {
      ClassIn(v, x);
      ClassOfSize(v.tab[x.s].c);
    }
    forall f: nat | LiveRun(v, b, f) ensures IsBig(b.size) { }
  }

  // ---- freeing a block ----------------------------------------------------------------------

  lemma FreeReady(v: View, c: nat, x: Slot, b: Block)
    requires Ok(v) && LiveIn(v, b, x) && c < N_POOLED && v.tab[x.s].c == c
    ensures Core(v) && TabOk(v.tab) && OffLists(v, c, x) && b.raw == AddrOf(WindowBase(v), v.tab, x)
  {
  }

  lemma FreedCounts(v: View, u: View, c: nat, x: Slot, b: Block)
    requires Ok(v) && LiveIn(v, b, x) && c < N_POOLED && v.tab[x.s].c == c && OffLists(v, c, x)
    requires Core(u) && Placed(v, u, c, x)
    ensures |u.free| == N_POOLED && x.s < |u.live| && u.live[x.s] > 0
    ensures b.raw >= WindowBase(u) && (b.raw - WindowBase(u)) / SLAB == x.s && x.s < u.wLen && |u.tab| == u.wLen
    ensures u.tab[x.s].Cut? && u.tab[x.s].c == c
    ensures var t := u.(free := u.free[c := u.free[c] + 1], live := u.live[x.s := (u.live[x.s] - 1) as nat]);
            Ok(t) && Died(v, t, b)
  {
    hide ClassOk, AddrOf, HeadersOk, RunsOk, TakenOk, IsLive, Used;
    LiveCounts(v, x);
    var t := u.(free := u.free[c := u.free[c] + 1], live := u.live[x.s := (u.live[x.s] - 1) as nat]);
    var w := if u.tab == SetAt(v.tab, x, Pooled) then Pooled else Listed;
    AddrIn(v, x);
    FreeOnly(u, t);
    LiveMoves(v, t, x, w);
    SetAtOk(v.tab, x, w);
    forall y: Slot | SlotIn(t.tab, y)
      ensures Settled(At(t.tab, y))
    {
      if y != x { assert At(t.tab, y) == At(v.tab, y); }
    }
    Died1(v, t, x, w, b);
  }

  lemma Died1(v: View, t: View, x: Slot, w: Where, b: Block)
    requires Core(v) && LiveIn(v, b, x) && t.tab == SetAt(v.tab, x, w) && !w.Live?
    requires t.base == v.base && t.wFirst == v.wFirst && t.runs == v.runs
    ensures Died(v, t, b)
  {
    hide AddrOf, SizeAt, ClassOk, HeadersOk, RunsOk, TakenOk;
    SetAtOk(v.tab, x, w);
    OneHome(v, b, x);
    forall d: Block ensures IsLive(t, d) <==> IsLive(v, d) && d != b {
      forall y: Slot ensures LiveIn(t, d, y) <==> LiveIn(v, d, y) && y != x { }
      forall f: nat ensures LiveRun(v, d, f) <==> LiveRun(t, d, f) { }
      if LiveIn(v, d, x) { assert d == b; }
    }
  }

  // ---- giving a block its header ---------------------------------------------------------

  function Wanted(size: nat, align: nat): nat {
    (if size > 1 then size else 1) + HEADER + if align > 16 then align else 0
  }

  lemma PayloadFits(raw: nat, classSize: nat, size: nat, align: nat)
    requires raw % 16 == 0 && align >= 16 && align % 16 == 0 && classSize >= Wanted(size, align)
    ensures var p := RoundUp(raw + HEADER, align); Fits(raw, classSize, p, size) && p % align == 0 && p > 0
  {
    var p := RoundUp(raw + HEADER, align);
    var q := p / align;
    assert p == q * align;
    Sixteen(q, align);
    if align == 16 { RoundUpTwice(raw + HEADER, 16); }
  }

  lemma HomeAligned(v: View, at: Home, raw: nat, size: nat)
    requires OkButPlace(v, at, raw, size)
    ensures raw % 16 == 0 && raw > 0 && TabOk(v.tab)
  {
    hide AddrOf, ClassOk, RunsOk, HeadersOk, TakenOk;
    match at
    case ASlot(x) => AddrIn(v, x);
    case ARun(f) => SlabsSixteen(v.base, f);
  }

  lemma SlotStays(v: View, t: View, x: Slot, raw: nat, size: nat, w: Where)
    requires OkButPlace(v, ASlot(x), raw, size) && SlotIn(v.tab, x) && TabOk(v.tab) && t.tab == SetAt(v.tab, x, w)
    requires t.base == v.base && t.wFirst == v.wFirst
    ensures TabOk(t.tab) && SlotIn(t.tab, x) && AddrAt(t, ASlot(x)) == raw
  {
    hide AddrOf, SizeAt, OkBut;
    SetAtOk(v.tab, x, w);
  }

  lemma RunIs(v: View, f: nat, raw: nat, size: nat)
    requires OkButPlace(v, ARun(f), raw, size)
    ensures raw == v.base + f * SLAB
  {
  }

  lemma FreedSlot(v: View, t: View, b: Block, x: Slot)
    requires Ok(v) && LiveIn(v, b, x) && TabOk(v.tab) && FreedTo(v, t, x)
    ensures FreedAs(v, t, b)
  {
    hide FreedTo, LiveIn, LiveRun, Core, LiveOk, FreeOk, Quiet;
    OneHome(v, b, x);
  }

  lemma FreedRun(v: View, t: View, b: Block, f: nat)
    requires Ok(v) && LiveRun(v, b, f) && TabOk(v.tab) && t.taken == Marks(v.taken, f, SlabsFor(b.size), false)
    ensures FreedAs(v, t, b)
  {
    hide FreedTo, Marks, Core, LiveOk, FreeOk, Quiet;
    forall x: Slot ensures !LiveIn(v, b, x) { if LiveIn(v, b, x) { OneHome(v, b, x); } }
    OneRun(v, b, b, f);
  }

  lemma OkButTab(v: View, x: Slot)
    requires OkBut(v, x)
    ensures TabOk(v.tab) && SlotIn(v.tab, x)
  {
  }

  /** A drawn block's address is no live block's. */
  lemma NotElsewhere(v: View, x: Slot, b: Block)
    requires Core(v) && SlotIn(v.tab, x) && b.raw == AddrOf(WindowBase(v), v.tab, x)
    ensures forall y: Slot :: LiveIn(v, b, y) ==> y == x
    ensures forall f: nat :: !LiveRun(v, b, f)
  {
    hide AddrOf, SizeAt, TabOk, Core, Shape, RunsOk;
    CoreFacts(v);
    forall y: Slot | LiveIn(v, b, y) ensures y == x { SameAddr(v, x, y); }
    forall f: nat ensures !LiveRun(v, b, f) { if f in v.runs { RunClear(v, x, f); } }
  }

  lemma SlotBorn(v: View, x: Slot, p: nat, n: nat)
    requires OkBut(v, x) && Fits(AddrOf(WindowBase(v), v.tab, x), SizeAt(v.tab, x), p, n)
    ensures Ok(SlotHeaded(v, x, p, n))
    ensures Born(v, SlotHeaded(v, x, p, n), Block(AddrOf(WindowBase(v), v.tab, x), SizeAt(v.tab, x), p, n))
  {
    hide AddrOf, SizeAt, ClassOk, TakenOk, HeadersOk, RunsOk;
    var t, b := SlotHeaded(v, x, p, n), Block(AddrOf(WindowBase(v), v.tab, x), SizeAt(v.tab, x), p, n);
    SlotHeadedOk(v, x, p, n);
    LiveMoves(v, t, x, Live(p, n));
    SetAtOk(v.tab, x, Live(p, n));
    NotElsewhere(v, x, b);
    forall y: Slot | SlotIn(t.tab, y)
      ensures Settled(At(t.tab, y))
    {
      if y != x { assert At(t.tab, y) == At(v.tab, y); }
    }
    forall d: Block ensures IsLive(t, d) <==> IsLive(v, d) || d == b {
      forall y: Slot ensures LiveIn(t, d, y) <==> LiveIn(v, d, y) || (y == x && d == b) { }
      forall f: nat ensures LiveRun(v, d, f) <==> LiveRun(t, d, f) { }
      if d == b { assert LiveIn(t, d, x); }
    }
  }

  lemma RunBorn(v: View, f: nat, p: nat, n: nat)
    requires OkButRun(v, f) && Fits(v.base + f * SLAB, v.runs[f].size, p, n)
    ensures Ok(RunHeaded(v, f, p, n))
    ensures Born(v, RunHeaded(v, f, p, n), Block(v.base + f * SLAB, v.runs[f].size, p, n))
  {
    hide AddrOf, SizeAt, ClassOk, TakenOk, HeadersOk, RunsOk;
    var t, b := RunHeaded(v, f, p, n), Block(v.base + f * SLAB, v.runs[f].size, p, n);
    RunHeadedOk(v, f, p, n);
    RunNotElsewhere(v, f, b);
    forall d: Block ensures IsLive(t, d) <==> IsLive(v, d) || d == b {
      forall y: Slot ensures LiveIn(t, d, y) <==> LiveIn(v, d, y) { }
      forall g: nat ensures LiveRun(t, d, g) <==> LiveRun(v, d, g) || (g == f && d == b) { }
      if d == b { assert LiveRun(t, d, f); }
    }
  }

  lemma RunNotElsewhere(v: View, f: nat, b: Block)
    requires Core(v) && f in v.runs && b.raw == v.base + f * SLAB && !v.runs[f].w.Live?
    ensures !IsLive(v, b)
  {
    hide AddrOf, SizeAt, TabOk, Core, Shape, RunsOk;
    CoreFacts(v);
    forall y: Slot ensures !LiveIn(v, b, y) { if LiveIn(v, b, y) { RunClear(v, y, f); } }
  }

  lemma BornAfter(v: View, u: View, t: View, b: Block)
    requires SameLive(v, u) && Born(u, t, b)
    ensures Born(v, t, b)
  {
  }

  lemma LiveFits(v: View, b: Block)
    requires Ok(v) && IsLive(v, b)
    ensures b.size <= USIZE_MAX
  {
    LiveClass(v, b);
    assert ClassFor(b.size).value.size >= b.size;
  }

  // ---- what it all means --------------------------------------------------------------------

  lemma EmptyOk(base: nat, n: nat, first: nat, len: nat)
    requires base > 0 && base % 16 == 0 && first + len <= n && (first == 0 || first + len == n) && len <= WINDOW_SLABS
    ensures Ok(Empty(base, n, first, len)) && forall b: Block :: !IsLive(Empty(base, n, first, len), b)
  {
    hide Fill, IsBig, AddrOf, SizeAt;
    var v := Empty(base, n, first, len);
    forall c | 0 <= c < N_POOLED ensures ClassOk(v, c) { EmptyClass(v, c); }
  }

  lemma EmptyClass(v: View, c: nat)
    requires Shape(v) && c < N_POOLED && v.tab == Fill(v.wLen, Open)
    requires v.pool[c] == [] && v.ov[c] == [] && v.poolLen[c] == 0 && v.heads[c] == 0 && |v.pools[c]| == POOL
    ensures ClassOk(v, c)
  {
    hide Fill, AddrOf, Shape, TabOk;
  }

  /** Each block of a taken slab of the window is exactly one of: live, a
      candidate of its class, on its class's list; and it is there once. */
  lemma ExactlyOne(v: View, x: Slot)
    requires Ok(v) && SlotIn(v.tab, x)
    ensures var c := v.tab[x.s].c;
            && c < N_POOLED && |v.pool| == |v.ov| == N_POOLED
            && (x in v.pool[c] <==> At(v.tab, x).Pooled?) && (x in v.ov[c] <==> At(v.tab, x).Listed?)
            && ((exists b: Block :: LiveIn(v, b, x)) <==> At(v.tab, x).Live?)
            && (At(v.tab, x).Live? || At(v.tab, x).Pooled? || At(v.tab, x).Listed?)
            && NoDup(v.pool[c]) && NoDup(v.ov[c])
  {
    hide AddrOf, HeadersOk, RunsOk, TakenOk, SizeAt;
    var c, w := v.tab[x.s].c, At(v.tab, x);
    ClassIn(v, x);
    assert ClassOk(v, c);
    assert Holds(v.tab, x, c, w);
    assert Settled(w);
    if w.Live? { assert LiveIn(v, Block(AddrOf(WindowBase(v), v.tab, x), SizeAt(v.tab, x), w.p, w.n), x); }
    forall i | 0 <= i < |v.pool[c]|
      ensures At(v.tab, v.pool[c][i]).Pooled?
    {
      assert Holds(v.tab, v.pool[c][i], c, Pooled);
    }
    forall i | 0 <= i < |v.ov[c]| ensures At(v.tab, v.ov[c][i]).Listed? { assert Holds(v.tab, v.ov[c][i], c, Listed); }
  }

  /** No slab given back is reachable: a candidate, a listed block and a live
      block lie in slabs that are taken. */
  lemma ReachableIsTaken(v: View, c: nat, i: nat)
    requires Ok(v) && c < N_POOLED
    ensures i < |v.pool[c]| ==>
      SlotIn(v.tab, v.pool[c][i]) && v.wFirst + v.pool[c][i].s < |v.taken| && v.taken[v.wFirst + v.pool[c][i].s]
    ensures i < |v.ov[c]| ==>
      SlotIn(v.tab, v.ov[c][i]) && v.wFirst + v.ov[c][i].s < |v.taken| && v.taken[v.wFirst + v.ov[c][i].s]
  {
    hide AddrOf, HeadersOk, RunsOk, Links, Marked;
    assert ClassOk(v, c);
    if i < |v.pool[c]| { assert Holds(v.tab, v.pool[c][i], c, Pooled); }
    if i < |v.ov[c]| { assert Holds(v.tab, v.ov[c][i], c, Listed); }
  }

  lemma LiveIsTaken(v: View, b: Block, i: nat)
    requires Ok(v) && IsLive(v, b) && v.base + i * SLAB < b.raw + b.size && b.raw < v.base + (i + 1) * SLAB
    ensures i < |v.taken| && v.taken[i]
  {
    hide AddrOf, ClassOk, HeadersOk, TabOk;
    if x: Slot :| LiveIn(v, b, x) {
      AddrBounds(WindowBase(v), v.tab, x);
      assert i == v.wFirst + x.s;
    } else {
      var f: nat :| LiveRun(v, b, f);
      assert f <= i < f + v.runs[f].n;
      assert InRun(v, f, i) && !InWindow(v, i);
    }
  }

  /** Offsets of candidates fit 32 bits, and counts of live blocks 16. */
  lemma WidthsSuffice(v: View, c: nat, i: nat, s: nat)
    requires Ok(v) && c < N_POOLED && i < |v.pool[c]| && s < |v.live|
    ensures i < |v.pools[c]| && v.pools[c][i] < 0x1_0000_0000 && v.live[s] < 0x1_0000
  {
    OffsetFits(v, c, i);
    CountFits(v, s);
  }

  lemma OffsetFits(v: View, c: nat, i: nat)
    requires Core(v) && c < N_POOLED && i < |v.pool[c]|
    ensures i < |v.pools[c]| && v.pools[c][i] < 0x1_0000_0000
  {
    hide AddrOf, TabOk, SizeAt, RunsOk, HeadersOk, TakenOk, ClassOk;
    CoreFacts(v);
    EntryIsAddr(v, c, i);
    AddrBounds(WindowBase(v), v.tab, v.pool[c][i]);
    SizePositive(v.tab, v.pool[c][i]);
  }

  lemma CountFits(v: View, s: nat)
    requires Ok(v) && s < |v.live|
    ensures v.live[s] < 0x1_0000
  {
    hide ClassOk, HeadersOk, RunsOk, TakenOk;
  }
}

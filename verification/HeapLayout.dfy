/** How the slabs of a seeded heap's window are cut into blocks, and what a
    block can be: live, a candidate in its class's pool, or on its class's
    overflow list. */
module HeapLayout {
  import opened HeapSizes

  /** A block: the slab it lies in and its place there */
  datatype Slot = Slot(s: nat, k: nat)

  /** A block is live, a candidate or listed; within a call it may also be
      drawn, on its way to get a header, or loose, on its way between lists. */
  datatype Where = Live(p: nat, n: nat) | Drawn | Loose | Pooled | Listed

  /** A slab of the window: nobody's, or cut into blocks of one class */
  datatype Slab = Open | Cut(c: nat, st: seq<Where>)

  type Memory = map<nat, nat>

  predicate TabOk(tab: seq<Slab>) {
    forall s :: 0 <= s < |tab| && tab[s].Cut? ==> tab[s].c < N_POOLED && |tab[s].st| == Slots(tab[s].c)
  }

  predicate SlotIn(tab: seq<Slab>, x: Slot) {
    x.s < |tab| && tab[x.s].Cut? && x.k < |tab[x.s].st|
  }

  function At(tab: seq<Slab>, x: Slot): Where
    requires SlotIn(tab, x)
  {
    tab[x.s].st[x.k]
  }

  predicate Holds(tab: seq<Slab>, x: Slot, c: nat, w: Where) {
    SlotIn(tab, x) && tab[x.s].c == c && At(tab, x) == w
  }

  function SetAt(tab: seq<Slab>, x: Slot, w: Where): seq<Slab>
    requires SlotIn(tab, x)
  {
    tab[x.s := tab[x.s].(st := tab[x.s].st[x.k := w])]
  }

  predicate NoDup(q: seq<Slot>) { forall i, j :: 0 <= i < j < |q| ==> q[i] != q[j] }

  /** `q` is exactly the blocks of class `c` that are `w`, each once. */
  ghost predicate Members(tab: seq<Slab>, c: nat, w: Where, q: seq<Slot>) {
    && NoDup(q)
    && (forall i :: 0 <= i < |q| ==> Holds(tab, q[i], c, w))
    && (forall x: Slot :: Holds(tab, x, c, w) ==> x in q)
  }

  /** The address of a block, from the window's */
  function AddrOf(wb: nat, tab: seq<Slab>, x: Slot): nat
    requires TabOk(tab) && SlotIn(tab, x)
  {
    wb + x.s * SLAB + Off(tab[x.s].c, x.k)
  }

  function SizeAt(tab: seq<Slab>, x: Slot): nat
    requires TabOk(tab) && SlotIn(tab, x)
  {
    ClassSize(tab[x.s].c)
  }

  /** Blocks lie in the window, in their slab, at multiples of 16. */
  lemma AddrBounds(wb: nat, tab: seq<Slab>, x: Slot)
    requires TabOk(tab) && SlotIn(tab, x) && wb % 16 == 0
    ensures var a := AddrOf(wb, tab, x);
            && wb + x.s * SLAB <= a && a + SizeAt(tab, x) <= wb + (x.s + 1) * SLAB && a % 16 == 0
            && (a - wb) / SLAB == x.s && a + SizeAt(tab, x) <= wb + |tab| * SLAB && (a - wb) % 16 == 0
  {
    InSlab(tab[x.s].c, x.k);
    SlabBounds(wb, x.s, Off(tab[x.s].c, x.k), SizeAt(tab, x), |tab|);
  }

  lemma SlabBounds(wb: nat, s: nat, off: nat, size: nat, n: nat)
    requires off + size <= SLAB && size > 0 && s < n && off % 16 == 0 && wb % 16 == 0
    ensures (wb + s * SLAB + off - wb) / SLAB == s && (wb + s * SLAB + off) % 16 == 0
    ensures wb + s * SLAB + off + size <= wb + (s + 1) * SLAB <= wb + n * SLAB && (s * SLAB + off) % 16 == 0
  {
  }

  /** Two blocks share no byte. */
  lemma Apart(wb: nat, tab: seq<Slab>, x: Slot, y: Slot)
    requires TabOk(tab) && SlotIn(tab, x) && SlotIn(tab, y) && x != y && wb % 16 == 0
    ensures AddrOf(wb, tab, x) + SizeAt(tab, x) <= AddrOf(wb, tab, y)
            || AddrOf(wb, tab, y) + SizeAt(tab, y) <= AddrOf(wb, tab, x)
  {
    hide Off, Slots;
    AddrBounds(wb, tab, x);
    AddrBounds(wb, tab, y);
    if x.s == y.s {
      if x.k < y.k { InOrder(tab[x.s].c, x.k, y.k); } else { InOrder(tab[x.s].c, y.k, x.k); }
    } else if x.s < y.s {
      assert x.s + 1 <= y.s;
    } else {
      assert y.s + 1 <= x.s;
    }
  }

  // ---- a block changes hands ----------------------------------------------------

  lemma SetAtOk(tab: seq<Slab>, x: Slot, w: Where)
    requires TabOk(tab) && SlotIn(tab, x)
    ensures var t := SetAt(tab, x, w);
            && TabOk(t) && |t| == |tab| && SlotIn(t, x) && At(t, x) == w && t[x.s].c == tab[x.s].c
            && (forall y: Slot {:trigger SlotIn(t, y)} :: SlotIn(t, y) <==> SlotIn(tab, y))
            && (forall y: Slot {:trigger At(t, y)} {:trigger SlotIn(t, y)} :: SlotIn(t, y) ==>
                  t[y.s].c == tab[y.s].c && (y != x ==> At(t, y) == At(tab, y)))
            && (forall wb: nat, y: Slot :: SlotIn(tab, y) ==>
                 AddrOf(wb, t, y) == AddrOf(wb, tab, y) && SizeAt(t, y) == SizeAt(tab, y))
  {
  }

  lemma MembersSame(tab: seq<Slab>, x: Slot, w1: Where, c: nat, w: Where, q: seq<Slot>)
    requires TabOk(tab) && SlotIn(tab, x) && Members(tab, c, w, q)
    requires tab[x.s].c != c || (At(tab, x) != w && w1 != w)
    ensures Members(SetAt(tab, x, w1), c, w, q)
  {
    SetAtOk(tab, x, w1);
    var t := SetAt(tab, x, w1);
    forall y: Slot | Holds(t, y, c, w) ensures y in q { assert Holds(tab, y, c, w); }
  }

  lemma MembersGain(tab: seq<Slab>, x: Slot, w: Where, q: seq<Slot>)
    requires TabOk(tab) && SlotIn(tab, x) && Members(tab, tab[x.s].c, w, q) && At(tab, x) != w
    ensures Members(SetAt(tab, x, w), tab[x.s].c, w, q + [x])
    ensures Members(SetAt(tab, x, w), tab[x.s].c, w, [x] + q)
  {
    SetAtOk(tab, x, w);
    var t, c := SetAt(tab, x, w), tab[x.s].c;
    assert x !in q;
    forall y: Slot | Holds(t, y, c, w) ensures y in q + [x] && y in [x] + q {
      if y != x { assert Holds(tab, y, c, w); }
    }
  }

  /** Taking out the block at `i`, the rest moved up or the last in its place */
  lemma MembersLose(tab: seq<Slab>, w: Where, w1: Where, q: seq<Slot>, i: nat)
    requires i < |q| && TabOk(tab) && SlotIn(tab, q[i]) && Members(tab, tab[q[i].s].c, w, q) && w1 != w
    ensures Members(SetAt(tab, q[i], w1), tab[q[i].s].c, w, q[..i] + q[i + 1..])
    ensures Members(SetAt(tab, q[i], w1), tab[q[i].s].c, w, q[i := q[|q| - 1]][..|q| - 1])
  {
    MembersLoseOne(tab, w, w1, q, i);
    MembersLoseLast(tab, w, w1, q, i);
  }

  lemma MembersLoseOne(tab: seq<Slab>, w: Where, w1: Where, q: seq<Slot>, i: nat)
    requires i < |q| && TabOk(tab) && SlotIn(tab, q[i]) && Members(tab, tab[q[i].s].c, w, q) && w1 != w
    ensures Members(SetAt(tab, q[i], w1), tab[q[i].s].c, w, q[..i] + q[i + 1..])
  {
    var x := q[i];
    SetAtOk(tab, x, w1);
    var t, c := SetAt(tab, x, w1), tab[x.s].c;
    hide AddrOf, TabOk, SizeAt, SetAt;
    var moved := q[..i] + q[i + 1..];
    forall y: Slot | Holds(t, y, c, w) ensures y in moved {
      assert Holds(tab, y, c, w);
      var j :| 0 <= j < |q| && q[j] == y;
      assert moved[if j < i then j else j - 1] == y;
    }
    forall a, b | 0 <= a < b < |moved| ensures moved[a] != moved[b] {
      assert moved[a] == q[if a < i then a else a + 1] && moved[b] == q[if b < i then b else b + 1];
    }
    forall a | 0 <= a < |moved| ensures Holds(t, moved[a], c, w) {
      assert moved[a] == q[if a < i then a else a + 1];
    }
  }

  lemma MembersLoseLast(tab: seq<Slab>, w: Where, w1: Where, q: seq<Slot>, i: nat)
    requires i < |q| && TabOk(tab) && SlotIn(tab, q[i]) && Members(tab, tab[q[i].s].c, w, q) && w1 != w
    ensures Members(SetAt(tab, q[i], w1), tab[q[i].s].c, w, q[i := q[|q| - 1]][..|q| - 1])
  {
    var x := q[i];
    SetAtOk(tab, x, w1);
    var t, c := SetAt(tab, x, w1), tab[x.s].c;
    hide AddrOf, TabOk, SizeAt, SetAt;
    var last := q[i := q[|q| - 1]][..|q| - 1];
    forall y: Slot | Holds(t, y, c, w) ensures y in last {
      assert Holds(tab, y, c, w);
      var j :| 0 <= j < |q| && q[j] == y;
      assert last[if j == |q| - 1 then i else j] == y;
    }
  }

  // ---- live blocks of a slab ------------------------------------------------------

  predicate IsUsed(w: Where) { w.Live? || w.Drawn? }

  /** Blocks out of `st` that are out of the allocator's hands */
  function Used(st: seq<Where>): (n: nat)
    ensures n <= |st|
  {
    if st == [] then 0 else (if IsUsed(st[0]) then 1 else 0) + Used(st[1..])
  }

  lemma {:induction false} UsedSet(st: seq<Where>, k: nat, w: Where)
    requires k < |st|
    ensures Used(st[k := w]) == Used(st) - (if IsUsed(st[k]) then 1 else 0) + (if IsUsed(w) then 1 else 0)
    ensures IsUsed(st[k]) ==> Used(st) > 0
  {
    if k > 0 {
      assert st[k := w][1..] == st[1..][k - 1 := w];
      UsedSet(st[1..], k - 1, w);
    } else {
      assert st[0 := w][1..] == st[1..];
    }
  }

  /** None is used exactly when every block is free. */
  lemma {:induction false} NoneUsed(st: seq<Where>)
    ensures Used(st) == 0 <==> forall k :: 0 <= k < |st| ==> !IsUsed(st[k])
  {
    if st != [] {
      NoneUsed(st[1..]);
      assert forall k :: 0 <= k < |st[1..]| ==> st[1..][k] == st[k + 1];
      if Used(st) == 0 {
        forall k | 0 <= k < |st| ensures !IsUsed(st[k]) { if k > 0 { assert st[1..][k - 1] == st[k]; } }
      }
    }
  }

  // ---- the overflow list, threaded through the free blocks -------------------------

  predicate Word(mem: Memory, a: nat, v: nat) { a in mem && mem[a] == v }

  function NextOf(a: seq<nat>, i: nat): nat { if i + 1 < |a| then a[i + 1] else 0 }
  function PrevOf(a: seq<nat>, i: nat): nat { if 0 < i <= |a| then a[i - 1] else 0 }

  predicate LinkAt(mem: Memory, a: seq<nat>, i: nat)
    requires i < |a|
  {
    Word(mem, a[i], NextOf(a, i)) && Word(mem, a[i] + 8, PrevOf(a, i))
  }

  /** A doubly linked list through the blocks' own two first words: successor,
      then predecessor, with 0 for none */
  predicate Links(mem: Memory, head: nat, a: seq<nat>) {
    && head == (if a == [] then 0 else a[0])
    && (forall i {:trigger LinkAt(mem, a, i)} :: 0 <= i < |a| ==> LinkAt(mem, a, i))
  }

  /** Addresses of different blocks */
  predicate Spaced(a: seq<nat>) {
    && (forall i :: 0 <= i < |a| ==> a[i] > 0 && a[i] % 16 == 0)
    && (forall i, j :: 0 <= i < j < |a| ==> a[i] != a[j])
  }

  /** A new head: the memory after `ov_push` */
  function Pushed(mem: Memory, head: nat, x: nat): Memory {
    var m := mem[x := head][x + 8 := 0];
    if head != 0 then m[head + 8 := x] else m
  }

  /** What a push makes of the words of the block at `y` */
  lemma PushWords(mem: Memory, head: nat, x: nat, y: nat)
    requires x % 16 == 0 && y % 16 == 0 && head % 16 == 0 && head != x
    ensures var m := Pushed(mem, head, x);
            && Word(m, x, head) && Word(m, x + 8, 0)
            && (y != x && y in mem && y + 8 in mem ==>
                  Word(m, y, mem[y]) && Word(m, y + 8, if y == head && y != 0 then x else mem[y + 8]))
  {
  }

  lemma PushOk(mem: Memory, head: nat, a: seq<nat>, x: nat)
    requires Links(mem, head, a) && Spaced([x] + a)
    ensures Links(Pushed(mem, head, x), x, [x] + a)
  {
    hide Pushed;
    var p, m := [x] + a, Pushed(mem, head, x);
    assert p[0] == x && forall i :: 0 <= i < |a| ==> p[i + 1] == a[i];
    forall i | 0 <= i < |p|
      ensures LinkAt(m, p, i)
    {
      PushWords(mem, head, x, p[i]);
      if i > 0 {
        assert p[i] == a[i - 1] && p[0] != p[i];
        assert LinkAt(mem, a, i - 1);
        if i > 1 { assert p[1] == a[0] == head && p[1] != p[i]; }
      }
    }
  }

  /** The memory and the head after `ov_unlink` of the block at `x` */
  function Unlinked(mem: Memory, head: nat, x: nat): (Memory, nat)
    requires x in mem && x + 8 in mem
  {
    var next, prev := mem[x], mem[x + 8];
    var m := if prev == 0 then mem else mem[prev := next];
    (if next != 0 then m[next + 8 := prev] else m, if prev == 0 then next else head)
  }

  /** What an unlink of `x` makes of the words of the block at `y` */
  lemma UnlinkWords(mem: Memory, head: nat, x: nat, y: nat)
    requires x in mem && x + 8 in mem && y in mem && y + 8 in mem
    requires mem[x] % 16 == 0 && mem[x + 8] % 16 == 0 && y % 16 == 0 && y > 0
    ensures var m := Unlinked(mem, head, x).0;
            Word(m, y, if y == mem[x + 8] then mem[x] else mem[y])
            && Word(m, y + 8, if y == mem[x] then mem[x + 8] else mem[y + 8])
  {
  }

  lemma UnlinkOk(mem: Memory, head: nat, a: seq<nat>, i: nat)
    requires Links(mem, head, a) && i < |a| && Spaced(a)
    ensures a[i] in mem && a[i] + 8 in mem
    ensures var (m, h) := Unlinked(mem, head, a[i]); Links(m, h, a[..i] + a[i + 1..])
  {
    var p := a[..i] + a[i + 1..];
    assert LinkAt(mem, a, i);
    assert NextOf(a, i) % 16 == 0 && PrevOf(a, i) % 16 == 0;
    var (m, h) := Unlinked(mem, head, a[i]);
    forall j | 0 <= j < |p|
      ensures LinkAt(m, p, j)
    {
      UnlinkAt(mem, head, a, i, if j < i then j else j + 1);
      assert p[j] == a[if j < i then j else j + 1];
    }
  }

  /** Around the block taken out, its neighbours point at each other. */
  lemma UnlinkAt(mem: Memory, head: nat, a: seq<nat>, i: nat, o: nat)
    requires Links(mem, head, a) && i < |a| && Spaced(a) && o < |a| && o != i
    requires a[i] in mem && a[i] + 8 in mem
    ensures var m := Unlinked(mem, head, a[i]).0;
            Word(m, a[o], if o + 1 == i then NextOf(a, i) else NextOf(a, o))
            && Word(m, a[o] + 8, if o == i + 1 then PrevOf(a, i) else PrevOf(a, o))
  {
    hide Unlinked;
    assert LinkAt(mem, a, i);
    assert LinkAt(mem, a, o);
    assert NextOf(a, i) % 16 == 0 && PrevOf(a, i) % 16 == 0;
    UnlinkWords(mem, head, a[i], a[o]);
    if i > 0 && o != i - 1 { assert a[i - 1] != a[o]; }
    if i + 1 < |a| && o != i + 1 { assert a[i + 1] != a[o]; }
  }

  // ---- lists and candidates of blocks -----------------------------------------------

  predicate AllIn(tab: seq<Slab>, q: seq<Slot>) { forall j :: 0 <= j < |q| ==> SlotIn(tab, q[j]) }

  function Addrs(wb: nat, tab: seq<Slab>, q: seq<Slot>): (a: seq<nat>)
    requires TabOk(tab) && AllIn(tab, q)
    ensures |a| == |q| && forall i :: 0 <= i < |q| ==> a[i] == AddrOf(wb, tab, q[i])
  {
    seq(|q|, i requires 0 <= i < |q| => AddrOf(wb, tab, q[i]))
  }

  lemma AddrsSpaced(wb: nat, tab: seq<Slab>, q: seq<Slot>)
    requires TabOk(tab) && AllIn(tab, q) && NoDup(q) && 0 < wb && wb % 16 == 0
    ensures Spaced(Addrs(wb, tab, q))
  {
    hide AddrOf, SizeAt;
    var a := Addrs(wb, tab, q);
    forall i | 0 <= i < |a| ensures a[i] > 0 && a[i] % 16 == 0 { AddrBounds(wb, tab, q[i]); }
    forall i, j | 0 <= i < j < |a|
      ensures a[i] != a[j]
    {
      Apart(wb, tab, q[i], q[j]); SizePositive(tab, q[i]); SizePositive(tab, q[j]);
    }
  }

  lemma SizePositive(tab: seq<Slab>, x: Slot)
    requires TabOk(tab) && SlotIn(tab, x)
    ensures 16 <= SizeAt(tab, x) <= SLAB
  {
  }

  /** Addresses depend on how slabs are cut, not on what their blocks are. */
  lemma AddrsSame(wb: nat, tab: seq<Slab>, x: Slot, w: Where, q: seq<Slot>)
    requires TabOk(tab) && SlotIn(tab, x) && AllIn(tab, q)
    ensures TabOk(SetAt(tab, x, w)) && AllIn(SetAt(tab, x, w), q)
    ensures Addrs(wb, SetAt(tab, x, w), q) == Addrs(wb, tab, q)
  {
    SetAtOk(tab, x, w);
    forall j | 0 <= j < |q| ensures SlotIn(SetAt(tab, x, w), q[j]) { }
  }

  /** Candidates carry a mark no address equals. */
  predicate Marked(mem: Memory, a: seq<nat>) {
    forall i {:trigger a[i]} :: 0 <= i < |a| ==> Word(mem, a[i] + 8, IN_POOL)
  }
}

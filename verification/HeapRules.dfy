/** The seeded heap in numbers (`alloc.rs`): what an allocation takes, which
    sizes there are, and when there is room. */
module HeapRules {
  import opened Wrappers
  import opened HeapSizes
  import opened HeapLayout
  import opened HeapSpec
  import opened HeapSearch
  import opened Heap

  function TwoTo(i: nat): nat { if i == 0 then 1 else 2 * TwoTo(i - 1) }

  /** The block sizes: multiples of 16 up to 1 KB, then 2 KB doubled nine times;
      those of the first 70 classes share slabs of 64 KB. */
  lemma ClassSizes(c: nat)
    requires c < 74
    ensures ClassSize(c) == if c < 64 then 16 * (c + 1) else 2048 * TwoTo(c - 64)
    ensures c < N_POOLED <==> c < 70
    ensures c < 70 ==> Slots(c) == 65536 / ClassSize(c)
  {
    if c >= 64 { Doubled(c - 64); }
  }

  lemma Doubled(i: nat)
    requires i < 10
    ensures LargeSize(i) == 2048 * TwoTo(i)
  {
    assert TwoTo(0) == 1;
    if i >= 1 { assert TwoTo(1) == 2; }
    if i >= 2 { assert TwoTo(2) == 4; }
    if i >= 3 { assert TwoTo(3) == 8; }
    if i >= 4 { assert TwoTo(4) == 16; }
    if i >= 5 { assert TwoTo(5) == 32; }
    if i >= 6 { assert TwoTo(6) == 64; }
    if i >= 7 { assert TwoTo(7) == 128; }
    if i >= 8 { assert TwoTo(8) == 256; }
    if i >= 9 { assert TwoTo(9) == 512; }
  }

  /** What an allocation asks for: a byte at least, a header of 16, and as much
      as the alignment if that is above 16 */
  lemma WantedRule(size: nat, align: nat)
    ensures size > 0 && align <= 16 ==> Wanted(size, align) == size + 16
    ensures size > 0 && align > 16 ==> Wanted(size, align) == size + 16 + align
    ensures Wanted(0, align) == Wanted(1, align)
  {
  }

  /** Storage beyond 1 MB comes in pages of 16 KB, unless no address space is
      that large. */
  lemma BeyondClasses(raw: nat)
    requires raw > 0x10_0000
    ensures match ClassFor(raw)
            case Some(fit) => fit.class_ == None && fit.size % 0x4000 == 0 && raw <= fit.size < raw + 0x4000
            case None => raw > 0xFFFF_FFFF_FFFF_FFFF - 0x4000
  {
    RoundUpFacts(raw, 0x4000);
  }

  /** Storage of up to 1 MB always has a class. */
  lemma WithinClasses(raw: nat)
    requires raw <= 0x10_0000
    ensures ClassFor(raw).Some? && ClassFor(raw).value.class_.Some?
  {
  }

  /** A row of `n` free slabs outside the window */
  ghost predicate FreeRow(v: View, at: nat, n: nat) {
    && at + n <= v.nSlabs && (at + n <= v.wFirst || at >= v.wFirst + v.wLen || v.wLen == 0)
    && |v.taken| == v.nSlabs && forall i :: at <= i < at + n ==> !v.taken[i]
  }

  /** There is room for a block of a pooled class while one of the class is free
      or a slab of the window is, and for any other while there are slabs
      enough in a row outside it. */
  lemma ServesRule(v: View, raw: nat)
    requires Ok(v) && ClassFor(raw).Some?
    ensures v.wLen <= v.nSlabs && |v.pool| == |v.ov| == 70 && v.wFirst + v.wLen <= |v.taken|
    ensures var f := ClassFor(raw).value;
            if f.class_.Some? && f.class_.value < 70 then
              CanServe(v, raw) <==>
                || v.pool[f.class_.value] != [] || v.ov[f.class_.value] != []
                || exists i :: v.wFirst <= i < v.wFirst + v.wLen && !v.taken[i]
            else CanServe(v, raw) <==> exists at: nat {:trigger FreeRow(v, at, SlabsFor(f.size))} ::
                                         FreeRow(v, at, SlabsFor(f.size))
  {
    hide ClassFor, Core, LiveOk, FreeOk, Quiet;
    OkShape(v);
    hide Ok, TabOk;
    var f := ClassFor(raw).value;
    var n := SlabsFor(f.size);
    if !(f.class_.Some? && f.class_.value < 70) {
      SizeIsBig(raw);
      RowIs(v, n);
    }
  }

  lemma RowIs(v: View, n: nat)
    requires n > 0 && v.wFirst + v.wLen <= v.nSlabs == |v.taken| && (v.wFirst == 0 || v.wFirst + v.wLen == v.nSlabs)
    requires v.wLen <= v.nSlabs
    ensures ZoneHolds(v, n) <==> exists at: nat {:trigger FreeRow(v, at, n)} :: FreeRow(v, at, n)
  {
    var first := RestFirst(v.wFirst, v.wLen);
    var last := first + RestLen(v.nSlabs, v.wFirst, v.wLen) - n;
    if ZoneHolds(v, n) {
      var at: nat :| first <= at <= last && at < |v.taken| && RunFree(v.taken, at, n);
      assert FreeRow(v, at, n);
    }
    if at: nat :| FreeRow(v, at, n) {
      assert RunFree(v.taken, at, n);
    }
  }

  /** As many slabs as it takes */
  lemma SlabsRule(size: nat)
    ensures SlabsFor(size) * 65536 >= size && (size > 0 ==> (SlabsFor(size) - 1) * 65536 < size)
  {
  }
}

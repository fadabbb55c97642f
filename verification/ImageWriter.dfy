/** The rewritten file (emit in src/macho.rs), and what a reader of it finds. */
module ImageWriter {
  import opened Wrappers
  import opened Wire
  import opened MachO
  import opened ImageCommands

  /** What the writer relies on: the file was read, its commands are no shorter
      than their own prefix, and what the segments name is there. */
  predicate WellFormed(f: File) {
    && Parsed(f.data) == Ok(f) && (forall c :: c in f.commands ==> |c.bytes| >= 8)
    && match FirstNamed(f.segments, LINKEDIT)
       case None => true
       case Some(l) => HEADER_SIZE + Room(f) <= l.fileoff && l.fileoff + l.filesize <= |f.data|
  }

  // ---- the front of the file ------------------------------------------------------

  function Max(a: nat, b: nat): nat { if a >= b then a else b }

  /** Counts and commands in place, the rest of the old commands blanked, and
      nothing else touched */
  ghost predicate HeadIs(old_: seq<Byte>, head: seq<Byte>, kept: seq<Command>, oldEnd: nat) {
    var end := HEADER_SIZE + Size(kept);
    && |head| == |old_| && end <= |head| && oldEnd <= |head|
    && head[..16] == old_[..16] && head[16..20] == Le(|kept|, 4) && head[20..24] == Le(Size(kept), 4)
    && head[24..HEADER_SIZE] == old_[24..HEADER_SIZE] && head[HEADER_SIZE..end] == Bytes(kept)
    && (forall x {:trigger head[x]} :: end <= x < oldEnd ==> head[x] == 0)
    && (forall x {:trigger head[x]} :: Max(oldEnd, end) <= x < |head| ==> head[x] == old_[x])
  }

  lemma {:induction false} BytesMore(cs: seq<Command>, k: nat)
    requires k < |cs|
    ensures Bytes(cs[..k + 1]) == Bytes(cs[..k]) + cs[k].bytes && Size(cs[..k + 1]) <= Size(cs)
    decreases k
  {
    if k == 0 {
      assert cs[..1] == [cs[0]] && cs[..0] == [];
      assert Bytes([cs[0]]) == cs[0].bytes + Bytes([]);
      assert Size(cs[..1]) == |cs[0].bytes| + Size([]);
    } else {
      assert cs[..k + 1][1..] == cs[1..][..k] && cs[..k][1..] == cs[1..][..k - 1];
      BytesMore(cs[1..], k - 1);
    }
  }

  method CopyCommands(b: seq<Byte>, kept: seq<Command>) returns (out: seq<Byte>)
    requires HEADER_SIZE + Size(kept) <= |b|
    ensures out == b[..HEADER_SIZE] + Bytes(kept) + b[HEADER_SIZE + Size(kept)..]
  {
    out := b;
    var at: nat := HEADER_SIZE;
    for k := 0 to |kept|
      invariant at == HEADER_SIZE + Size(kept[..k]) <= |b|
      invariant out == b[..HEADER_SIZE] + Bytes(kept[..k]) + b[at..]
    {
      BytesMore(kept, k);
      var c := kept[k].bytes;
      assert Size(kept[..k + 1]) == |Bytes(kept[..k + 1])|;
      out := Put(out, at, c);
      at := at + |c|;
    }
    assert kept[..|kept|] == kept;
  }

  method WriteHead(b: seq<Byte>, kept: seq<Command>, oldEnd: nat) returns (head: seq<Byte>)
    requires HEADER_SIZE + Size(kept) <= |b| && oldEnd <= |b|
    ensures HeadIs(b, head, kept, oldEnd)
  {
    hide Le, Size, Bytes;
    head := Put(b, 16, Le(|kept|, 4));
    head := Put(head, 20, Le(Size(kept), 4));
    ghost var counted := head;
    head := CopyCommands(head, kept);
    var end := HEADER_SIZE + Size(kept);
    var gap := Max(oldEnd, end) - end;
    head := Put(head, end, Zeros(gap));
    Headed(b, counted, head, kept, oldEnd);
  }

  lemma Headed(b: seq<Byte>, counted: seq<Byte>, head: seq<Byte>, kept: seq<Command>, oldEnd: nat)
    requires HEADER_SIZE + Size(kept) <= |b| && oldEnd <= |b|
    requires counted == Put(Put(b, 16, Le(|kept|, 4)), 20, Le(Size(kept), 4))
    requires var end := HEADER_SIZE + Size(kept);
             head == Put(counted[..HEADER_SIZE] + Bytes(kept) + counted[end..], end, Zeros(Max(oldEnd, end) - end))
    ensures HeadIs(b, head, kept, oldEnd)
  {
    hide Le, Size, Bytes, Put, Zeros;
    var end := HEADER_SIZE + Size(kept);
    CountsPut(b, Le(|kept|, 4), Le(Size(kept), 4));
    PutParts(counted, head, Bytes(kept), Max(oldEnd, end) - end);
    SameParts(head, counted);
  }

  lemma SameParts(a: seq<Byte>, b: seq<Byte>)
    requires |a| >= HEADER_SIZE && |b| >= HEADER_SIZE && a[..HEADER_SIZE] == b[..HEADER_SIZE]
    ensures a[..16] == b[..16] && a[16..20] == b[16..20] && a[20..24] == b[20..24]
      && a[24..HEADER_SIZE] == b[24..HEADER_SIZE]
  {
    var h, g := a[..HEADER_SIZE], b[..HEADER_SIZE];
    assert a[..16] == h[..16] && a[16..20] == h[16..20] && a[20..24] == h[20..24] && a[24..HEADER_SIZE] == h[24..];
    assert b[..16] == g[..16] && b[16..20] == g[16..20] && b[20..24] == g[20..24] && b[24..HEADER_SIZE] == g[24..];
  }

  lemma CountsPut(b: seq<Byte>, n: seq<Byte>, size: seq<Byte>)
    requires |b| >= HEADER_SIZE && |n| == |size| == 4
    ensures var c := Put(Put(b, 16, n), 20, size);
            && c[..16] == b[..16] && c[16..20] == n && c[20..24] == size && c[24..HEADER_SIZE] == b[24..HEADER_SIZE]
            && forall x {:trigger c[x]} :: HEADER_SIZE <= x < |c| ==> c[x] == b[x]
  {
    var a := Put(b, 16, n);
    PutSame(b, 16, n);
    PutSame(a, 20, size);
    PutOther(b, 16, n, 0, 16);
    PutOther(b, 16, n, 24, HEADER_SIZE);
    PutOther(a, 20, size, 0, 16);
    PutOther(a, 20, size, 16, 20);
    PutOther(a, 20, size, 24, HEADER_SIZE);
  }

  lemma PutParts(counted: seq<Byte>, head: seq<Byte>, bytes: seq<Byte>, gap: nat)
    requires HEADER_SIZE + |bytes| + gap <= |counted|
    requires var end := HEADER_SIZE + |bytes|;
             head == Put(counted[..HEADER_SIZE] + bytes + counted[end..], end, Zeros(gap))
    ensures var end := HEADER_SIZE + |bytes|;
            && |head| == |counted| && head[..HEADER_SIZE] == counted[..HEADER_SIZE] && head[HEADER_SIZE..end] == bytes
            && (forall x {:trigger head[x]} :: end <= x < end + gap ==> head[x] == 0)
            && forall x {:trigger head[x]} :: end + gap <= x < |head| ==> head[x] == counted[x]
  {
  }

  // ---- patches ------------------------------------------------------------------

  /** An address, and the word to stand there */
  datatype Patch = Patch(addr: nat, word: nat)

  predicate Hits(f: File, q: Patch, x: nat) {
    var at := OffsetOf(f, q.addr);
    at.Some? && at.value <= x < at.value + 4
  }

  /** The patch is of a word of the file in front of __LINKEDIT. */
  predicate GoodPatch(f: File, q: Patch, limit: nat) {
    var at := OffsetOf(f, q.addr);
    at.Some? && at.value + 4 <= limit
  }

  /** The patches from the first on are made, and nothing else changed. */
  ghost predicate PatchesMade(f: File, was: seq<Byte>, now: seq<Byte>, patches: seq<Patch>, n: nat)
    requires n <= |patches|
  {
    && |now| == |was|
    && (forall x: nat {:trigger now[x]} ::
          (x < |was| && forall i: nat {:trigger patches[i]} :: i < n ==> !Hits(f, patches[i], x)) ==> now[x] == was[x])
    && forall i: nat {:trigger patches[i]} :: i < n ==>
         GoodPatch(f, patches[i], |was|) && (Last(f, patches, i, n) ==> Stands(f, now, patches[i]))
  }

  ghost predicate Stands(f: File, b: seq<Byte>, q: Patch)
    requires GoodPatch(f, q, |b|)
  {
    var at := OffsetOf(f, q.addr).value;
    b[at..at + 4] == Le(q.word, 4)
  }

  /** No later one of the first n patches touches the word of the `i`th. */
  ghost predicate Last(f: File, patches: seq<Patch>, i: nat, n: nat)
    requires i < n <= |patches| && OffsetOf(f, patches[i].addr).Some?
  {
    var at := OffsetOf(f, patches[i].addr).value;
    forall j: nat, x: nat {:trigger Hits(f, patches[j], x)} :: i < j < n && at <= x < at + 4 ==> !Hits(f, patches[j], x)
  }

  lemma OneMorePatch(f: File, was: seq<Byte>, mid: seq<Byte>, now: seq<Byte>, patches: seq<Patch>, n: nat)
    requires n < |patches| && PatchesMade(f, was, mid, patches, n) && GoodPatch(f, patches[n], |was|)
    requires now == Put(mid, OffsetOf(f, patches[n].addr).value, Le(patches[n].word, 4))
    ensures PatchesMade(f, was, now, patches, n + 1)
  {
    hide Le;
    var at := OffsetOf(f, patches[n].addr).value;
    hide OffsetOf;
    forall x: nat {:trigger now[x]}
      | x < |was| && forall i: nat {:trigger patches[i]} :: i < n + 1 ==> !Hits(f, patches[i], x)
      ensures now[x] == was[x]
    {
      assert !Hits(f, patches[n], x);
      assert now[x] == mid[x];
    }
    forall i: nat {:trigger patches[i]} | i < n + 1
      ensures GoodPatch(f, patches[i], |was|) && (Last(f, patches, i, n + 1) ==> Stands(f, now, patches[i]))
    {
      if i < n && Last(f, patches, i, n + 1) {
        var a := OffsetOf(f, patches[i].addr).value;
        assert Last(f, patches, i, n);
        Untouched(f, patches[n], at, a);
        PutOther(mid, at, Le(patches[n].word, 4), a, a + 4);
      } else if i == n {
        PutSame(mid, at, Le(patches[n].word, 4));
      }
    }
  }

  lemma Untouched(f: File, q: Patch, at: nat, a: nat)
    requires OffsetOf(f, q.addr) == Some(at) && forall x: nat :: a <= x < a + 4 ==> !Hits(f, q, x)
    ensures a + 4 <= at || at + 4 <= a
  {
    hide OffsetOf;
    if at < a + 4 && a < at + 4 { HitsAt(f, q, at, if a <= at then at else a); }
  }

  lemma HitsAt(f: File, q: Patch, at: nat, x: nat)
    requires OffsetOf(f, q.addr) == Some(at) && at <= x < at + 4
    ensures Hits(f, q, x)
  {
    hide OffsetOf;
  }

  method PatchAll(f: File, head: seq<Byte>, patches: seq<Patch>) returns (out: Option<seq<Byte>>)
    ensures out.Some? <==> forall i: nat {:trigger patches[i]} :: i < |patches| ==> GoodPatch(f, patches[i], |head|)
    ensures out.Some? ==> PatchesMade(f, head, out.value, patches, |patches|)
  {
    hide OffsetOf, Le;
    var b := head;
    for n := 0 to |patches|
      invariant PatchesMade(f, head, b, patches, n)
    {
      var at := OffsetOf(f, patches[n].addr);
      if at.None? { return None; }
      if at.value + 4 > |head| { return None; }
      ghost var mid := b;
      b := Put(b, at.value, Le(patches[n].word, 4));
      OneMorePatch(f, head, mid, b, patches, n);
    }
    return Some(b);
  }

  // ---- the whole file -------------------------------------------------------------

  function Spares(f: File, p: Plan): seq<Spare> { ByRank(SparesFrom(f, p, 0, 0)) }

  /** The commands of the new file when the first k spares are gone */
  function Kept(f: File, p: Plan, k: nat): seq<Command>
    requires k <= |Spares(f, p)|
  {
    Without(NewFrom(f, p, 0), Places(Spares(f, p)[..k]))
  }

  ghost predicate AllGood(f: File, p: Plan, patches: seq<Patch>) {
    forall i: nat {:trigger patches[i]} :: i < |patches| ==> GoodPatch(f, patches[i], p.linkedit.fileoff)
  }

  /** The front, patched; the new segment, padded; and what is left of
      __LINKEDIT */
  ghost predicate Emitted(f: File, p: Plan, k: nat, patches: seq<Patch>, stub: seq<Byte>, out: seq<Byte>) {
    var at := p.linkedit.fileoff;
    && k <= |Spares(f, p)| && at + p.size <= |f.data| && |stub| <= p.inserted && |out| == at + p.inserted + p.size
    && HEADER_SIZE + Size(Kept(f, p, k)) + SIGNATURE_SIZE <= HEADER_SIZE + Room(f) <= at
    && out[at..at + |stub|] == stub
    && (forall x {:trigger out[x]} :: at + |stub| <= x < at + p.inserted ==> out[x] == 0)
    && out[at + p.inserted..] == f.data[at..at + p.size]
    && exists head :: HeadIs(f.data[..at], head, Kept(f, p, k), HEADER_SIZE + f.header.sizeofcmds)
                      && PatchesMade(f, head, out[..at], patches, |patches|)
  }

  lemma SparesAre(f: File, p: Plan)
    ensures var cs, ss := NewFrom(f, p, 0), SparesFrom(f, p, 0, 0);
            InRange(cs, Spares(f, p)) && SparesOk(f, cs, ss, 0) && Ordered(ss, Spares(f, p), 0, 3)
  {
    hide NewFrom, SparesFrom, ByRank;
    SparesLie(f, p, 0, 0);
    ByRankIs(SparesFrom(f, p, 0, 0));
    var cs, ss, r := NewFrom(f, p, 0), SparesFrom(f, p, 0, 0), Spares(f, p);
    forall j {:trigger r[j]} | 0 <= j < |r| ensures r[j].at < |cs| {
      var i: nat :| i < |ss| && ss[i] == r[j];
      assert SpareOk(f, cs, ss[i], 0);
    }
  }

  /** Size and room with the first k spares gone */
  lemma KeptFits(f: File, p: Plan, k: nat)
    requires k <= |Spares(f, p)|
    ensures InRange(NewFrom(f, p, 0), Spares(f, p))
    ensures Fits(NewFrom(f, p, 0), Spares(f, p), k, Room(f)) <==> Size(Kept(f, p, k)) + SIGNATURE_SIZE <= Room(f)
  {
    hide NewFrom, SparesFrom, ByRank, Room, Size, Without, Places;
    SparesAre(f, p);
    KeptSize(NewFrom(f, p, 0), Spares(f, p)[..k]);
  }

  lemma {:induction false} MoreFits(cs: seq<Command>, ranked: seq<Spare>, j: nat, k: nat, room: nat)
    requires j <= k <= |ranked| && InRange(cs, ranked) && Fits(cs, ranked, j, room)
    ensures Fits(cs, ranked, k, room)
    decreases k
  {
    if j < k {
      MoreFits(cs, ranked, j, k - 1, room);
      assert ranked[..k][..k - 1] == ranked[..k - 1];
    }
  }

  /** The rewritten file. It fails only if the layout is not supported, the
      commands do not fit even with every spare gone, or a patch is of no word
      in front of __LINKEDIT. */
  method Emit(f: File, patches: seq<Patch>, stub: seq<Byte>) returns (r: Result<seq<Byte>>, ghost k: nat)
    requires WellFormed(f)
    ensures PlanOf(f, stub).Err? ==> r == Err(PlanOf(f, stub).error)
    ensures PlanOf(f, stub).Ok? ==>
              var p := PlanOf(f, stub).value;
              var all := |Spares(f, p)|;
              && (r.Ok? <==> Size(Kept(f, p, all)) + SIGNATURE_SIZE <= Room(f) && AllGood(f, p, patches))
              && (Size(Kept(f, p, all)) + SIGNATURE_SIZE > Room(f) ==>
                    r == Err(NoHeaderRoom(Size(NewFrom(f, p, 0)) + SIGNATURE_SIZE, Room(f))))
              && (Size(Kept(f, p, all)) + SIGNATURE_SIZE <= Room(f) && !AllGood(f, p, patches) ==> r == Err(BadLayout))
              && (r.Ok? ==> Emitted(f, p, k, patches, stub, r.value))
              // no more is given up than it takes
              && (r.Ok? ==> forall j: nat {:trigger Kept(f, p, j)} :: j < k ==>
                   Size(Kept(f, p, j)) + SIGNATURE_SIZE > Room(f))
  {
    hide NewFrom, SparesFrom, ByRank, Room, Size, Without, Places, Parsed, GoodPatch, Le, PlanOf, Fits, HeadIs,
         PatchesMade;
    k := 0;
    var plan := PlanOf(f, stub);
    if plan.Err? { return Err(plan.error), k; }
    var p := plan.value;
    PlanFits(f, stub);
    var commands, spares := Assemble(f, p);
    var ranked := ByRank(spares);
    SparesAre(f, p);
    var n := ChooseDrops(commands, ranked, Room(f));
    k := n;
    Least(f, p, k);
    var kept := Drop(commands, Places(ranked[..n]));
    if Size(kept) + SIGNATURE_SIZE > Room(f) {
      return Err(NoHeaderRoom(Size(commands) + SIGNATURE_SIZE, Room(f))), k;
    }
    var at := p.linkedit.fileoff;
    var head := WriteHead(f.data[..at], kept, HEADER_SIZE + f.header.sizeofcmds);
    HeadLong(f.data[..at], head, kept, HEADER_SIZE + f.header.sizeofcmds);
    var patched := PatchAll(f, head, patches);
    if patched.None? { return Err(BadLayout), k; }
    PatchesLong(f, head, patched.value, patches);
    var out := patched.value + stub + Zeros(p.inserted - |stub|) + f.data[at..at + p.size];
    Together(f, p, k, patches, stub, head, patched.value, out);
    return Ok(out), k;
  }

  lemma PlanFits(f: File, stub: seq<Byte>)
    requires WellFormed(f) && PlanOf(f, stub).Ok?
    ensures var p := PlanOf(f, stub).value;
            && HEADER_SIZE + Room(f) <= p.linkedit.fileoff && p.linkedit.fileoff + p.size <= |f.data|
            && |stub| <= p.inserted && f.header.sizeofcmds <= Room(f)
  {
    hide PlanOf, Parsed;
  }

  lemma HeadLong(old_: seq<Byte>, head: seq<Byte>, kept: seq<Command>, oldEnd: nat)
    requires HeadIs(old_, head, kept, oldEnd)
    ensures |head| == |old_|
  {
  }

  lemma PatchesLong(f: File, was: seq<Byte>, now: seq<Byte>, patches: seq<Patch>)
    requires PatchesMade(f, was, now, patches, |patches|)
    ensures |now| == |was|
  {
  }

  lemma Least(f: File, p: Plan, k: nat)
    requires k <= |Spares(f, p)| && InRange(NewFrom(f, p, 0), Spares(f, p))
    requires k < |Spares(f, p)| ==> Fits(NewFrom(f, p, 0), Spares(f, p), k, Room(f))
    requires forall j: nat {:trigger Fits(NewFrom(f, p, 0), Spares(f, p), j, Room(f))} :: j < k ==>
               !Fits(NewFrom(f, p, 0), Spares(f, p), j, Room(f))
    ensures forall j: nat {:trigger Kept(f, p, j)} :: j < k ==> Size(Kept(f, p, j)) + SIGNATURE_SIZE > Room(f)
    ensures Size(Kept(f, p, k)) + SIGNATURE_SIZE <= Room(f)
            <==> Size(Kept(f, p, |Spares(f, p)|)) + SIGNATURE_SIZE <= Room(f)
  {
    hide NewFrom, Spares, Room, Size, Kept, Fits;
    forall j: nat {:trigger Kept(f, p, j)} | j < k ensures Size(Kept(f, p, j)) + SIGNATURE_SIZE > Room(f) {
      KeptFits(f, p, j);
    }
    KeptFits(f, p, k);
    KeptFits(f, p, |Spares(f, p)|);
    if Fits(NewFrom(f, p, 0), Spares(f, p), k, Room(f)) {
      MoreFits(NewFrom(f, p, 0), Spares(f, p), k, |Spares(f, p)|, Room(f));
    }
  }

  lemma Together(f: File, p: Plan, k: nat, patches: seq<Patch>, stub: seq<Byte>, head: seq<Byte>, front: seq<Byte>,
    out: seq<Byte>)
    requires k <= |Spares(f, p)| && p.linkedit.fileoff + p.size <= |f.data| && |stub| <= p.inserted
    requires Size(Kept(f, p, k)) + SIGNATURE_SIZE <= Room(f) && HEADER_SIZE + Room(f) <= p.linkedit.fileoff
    requires HeadIs(f.data[..p.linkedit.fileoff], head, Kept(f, p, k), HEADER_SIZE + f.header.sizeofcmds)
    requires PatchesMade(f, head, front, patches, |patches|) && |front| == p.linkedit.fileoff
    requires out == front + stub + Zeros(p.inserted - |stub|) + f.data[p.linkedit.fileoff..p.linkedit.fileoff + p.size]
    ensures Emitted(f, p, k, patches, stub, out)
  {
    hide HeadIs, PatchesMade, Kept, Spares, Room, Size;
    var at := p.linkedit.fileoff;
    assert out[..at] == front;
    assert out[at..at + |stub|] == stub;
    assert out[at + p.inserted..] == f.data[at..at + p.size];
  }
}

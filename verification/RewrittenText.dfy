/** The program the rewriter leaves (rewrite in src/rewrite.rs): the original's
    words, but for the areas' code and the patches; and that it does what the
    original did. */
module RewrittenText {
  import opened Wrappers
  import opened Arm
  import opened ArmMachine
  import opened Trampoline
  import opened Sites
  import opened CounterReads
  import opened Simulation
  import opened Rewriter
  import opened Selection

  // ----- Writing it out -----

  ghost predicate InCode(a: Area, pc: bv64) { exists j: nat :: j < |a.code| && pc == Addr(a.base, j) }

  ghost predicate InAreas(b: Books, pc: bv64) {
    exists i {:trigger b.areas[i]} :: 0 <= i < |b.areas| && InCode(b.areas[i], pc)
  }

  ghost predicate IsSite(b: Books, pc: bv64) {
    exists k {:trigger b.patches[k]} :: 0 <= k < |b.patches| && b.patches[k].0 == pc
  }

  /** The code and the patches are in place, and nothing else differs. */
  ghost predicate Written(original: Text, text: Text, b: Books) {
    Image(text, b) && forall pc: bv64 :: !InAreas(b, pc) && !IsSite(b, pc) ==> Kept1(original, text, pc)
  }

  /** The areas are apart, the words of each are, and no site lies in one. */
  ghost predicate AreasApart(b: Books) {
    && (forall i, h, j: nat, k: nat {:trigger Addr(b.areas[i].base, j), Addr(b.areas[h].base, k)} ::
          0 <= i < |b.areas| && 0 <= h < |b.areas| && j < |b.areas[i].code| && k < |b.areas[h].code|
            && (i != h || j != k) ==>
            Addr(b.areas[i].base, j) != Addr(b.areas[h].base, k))
    && forall k {:trigger b.patches[k]} :: 0 <= k < |b.patches| ==> !InAreas(b, b.patches[k].0)
  }

  ghost predicate Among(base: bv64, n: nat, pc: bv64) { exists j: nat :: j < n && pc == Addr(base, j) }

  /** The words of `code` from `base` on, the others as they were */
  ghost predicate Laid(was: Text, now: Text, base: bv64, code: seq<bv32>, n: nat)
    requires n <= |code|
  {
    && (forall j: nat {:trigger code[j]} :: j < n ==> WordAt(now, Addr(base, j), code[j]))
    && forall pc: bv64 {:trigger Kept1(was, now, pc)} :: !Among(base, n, pc) ==> Kept1(was, now, pc)
  }

  lemma LaidNone(was: Text, base: bv64, code: seq<bv32>)
    ensures Laid(was, was, base, code, 0)
  {
    hide Addr;
  }

  lemma LaidMore(was: Text, now: Text, next: Text, base: bv64, code: seq<bv32>, n: nat)
    requires n < |code| && Laid(was, now, base, code, n) && next == now[At(Addr(base, n)) := code[n]]
    requires forall j: nat {:trigger Addr(base, j)} :: j < n ==> Addr(base, j) != Addr(base, n)
    ensures Laid(was, next, base, code, n + 1)
  {
    hide Addr, Kept1, WordAt, Among;
    PutAt(now, Addr(base, n), code[n]);
    forall j: nat {:trigger code[j]} | j < n + 1 ensures WordAt(next, Addr(base, j), code[j]) {
      if j < n { PutElsewhere(was, now, Addr(base, n), code[n], Addr(base, j), code[j]); }
    }
    forall pc: bv64 {:trigger Kept1(was, next, pc)} | !Among(base, n + 1, pc) ensures Kept1(was, next, pc) {
      AmongGrows(base, n, pc);
      PutElsewhere(was, now, Addr(base, n), code[n], pc, 0);
    }
  }

  lemma AmongGrows(base: bv64, n: nat, pc: bv64)
    ensures Among(base, n, pc) || pc == Addr(base, n) ==> Among(base, n + 1, pc)
  {
    hide Addr;
  }

  method Lay(was: Text, base: bv64, code: seq<bv32>) returns (now: Text)
    requires forall j: nat, k: nat {:trigger Addr(base, j), Addr(base, k)} :: j < k < |code| ==>
      Addr(base, j) != Addr(base, k)
    ensures Laid(was, now, base, code, |code|)
  {
    hide Addr, Laid;
    now := was;
    LaidNone(was, base, code);
    for n := 0 to |code|
      invariant Laid(was, now, base, code, n)
    {
      ghost var last := now;
      now := now[At(Addr(base, n)) := code[n]];
      LaidMore(was, last, now, base, code, n);
    }
  }

  /** The first n areas are written, and nothing else differs. */
  ghost predicate AreasLaid(original: Text, text: Text, b: Books, n: nat)
    requires n <= |b.areas|
  {
    && (forall i {:trigger b.areas[i]} :: 0 <= i < n ==> Placed(text, b.areas[i].base, 0, b.areas[i].code))
    && forall pc: bv64 {:trigger Kept1(original, text, pc)} :: !InAreas(b, pc) ==> Kept1(original, text, pc)
  }

  lemma OneMoreArea(original: Text, was: Text, now: Text, b: Books, n: nat)
    requires n < |b.areas| && AreasLaid(original, was, b, n) && AreasApart(b)
    requires Laid(was, now, b.areas[n].base, b.areas[n].code, |b.areas[n].code|)
    ensures AreasLaid(original, now, b, n + 1)
  {
    hide Addr, InAreas, Placed;
    var a := b.areas[n];
    forall i {:trigger b.areas[i]} | 0 <= i < n + 1 ensures Placed(now, b.areas[i].base, 0, b.areas[i].code) {
      if i < n {
        StillPlaced(was, now, b.areas[i].base, b.areas[i].code, a.base, |a.code|);
      } else {
        NowPlaced(was, now, a.base, a.code);
      }
    }
    forall pc: bv64 {:trigger Kept1(original, now, pc)} | !InAreas(b, pc) ensures Kept1(original, now, pc) {
      OutOfAreas(b, n, pc);
      assert Kept1(was, now, pc) && Kept1(original, was, pc);
    }
  }

  lemma OutOfAreas(b: Books, n: nat, pc: bv64)
    requires n < |b.areas| && !InAreas(b, pc)
    ensures !Among(b.areas[n].base, |b.areas[n].code|, pc)
  {
    hide Addr;
    assert !InCode(b.areas[n], pc);
  }

  lemma NowPlaced(was: Text, now: Text, base: bv64, code: seq<bv32>)
    requires Laid(was, now, base, code, |code|)
    ensures Placed(now, base, 0, code)
  {
    hide Addr;
    forall j: nat {:trigger code[j]} | j < |code| ensures WordAt(now, Addr(base, 0 + j), code[j]) {
      assert 0 + j == j;
    }
  }

  lemma StillPlaced(was: Text, now: Text, base: bv64, ws: seq<bv32>, other: bv64, n: nat)
    requires Placed(was, base, 0, ws)
    requires forall pc: bv64 {:trigger Kept1(was, now, pc)} :: !Among(other, n, pc) ==> Kept1(was, now, pc)
    requires forall j: nat, k: nat {:trigger Addr(base, j), Addr(other, k)} :: j < |ws| && k < n ==>
      Addr(base, j) != Addr(other, k)
    ensures Placed(now, base, 0, ws)
  {
    hide Addr;
    forall j: nat {:trigger ws[j]} | j < |ws| ensures WordAt(now, Addr(base, 0 + j), ws[j]) {
      assert WordAt(was, Addr(base, 0 + j), ws[j]);
      assert 0 + j == j && Kept1(was, now, Addr(base, j));
    }
  }

  predicate PatchedBefore(b: Books, n: nat, pc: bv64) {
    exists k {:trigger b.patches[k]} :: 0 <= k < n && k < |b.patches| && b.patches[k].0 == pc
  }

  /** The first n patches are made on what was laid. */
  ghost predicate PatchesMade(laid: Text, text: Text, b: Books, n: nat)
    requires n <= |b.patches|
  {
    && (forall k {:trigger b.patches[k]} :: 0 <= k < n ==> WordAt(text, b.patches[k].0, b.patches[k].1))
    && forall pc: bv64 {:trigger Kept1(laid, text, pc)} :: !PatchedBefore(b, n, pc) ==> Kept1(laid, text, pc)
  }

  lemma NothingWritten(text: Text, b: Books)
    ensures AreasLaid(text, text, b, 0) && PatchesMade(text, text, b, 0)
  {
    hide InAreas, Placed;
  }

  /** The rewritten program's text */
  method WriteOut(original: Text, b: Books) returns (text: Text)
    requires BooksOk(b) && SitesApart(b.recs) && AreasApart(b)
    ensures Written(original, text, b)
  {
    hide Addr, BooksOk, SitesApart, InAreas, Kept1, Laid, AreasLaid, PatchesMade, Written;
    text := original;
    NothingWritten(original, b);
    for n := 0 to |b.areas|
      invariant AreasLaid(original, text, b, n)
    {
      ghost var was := text;
      text := Lay(text, b.areas[n].base, b.areas[n].code);
      OneMoreArea(original, was, text, b, n);
    }
    ghost var laid := text;
    PatchesApart(b);
    NothingWritten(laid, b);
    for n := 0 to |b.patches|
      invariant PatchesMade(laid, text, b, n)
    {
      ghost var was := text;
      text := text[At(b.patches[n].0) := b.patches[n].1];
      OneMorePatch(laid, was, text, b, n);
    }
    AllWritten(original, laid, text, b);
  }

  lemma PatchesApart(b: Books)
    requires BooksOk(b) && SitesApart(b.recs)
    ensures forall j, k {:trigger b.patches[j], b.patches[k]} :: 0 <= j < k < |b.patches| ==>
      b.patches[j].0 != b.patches[k].0
  {
    forall j, k {:trigger b.patches[j], b.patches[k]} | 0 <= j < k < |b.patches|
      ensures b.patches[j].0 != b.patches[k].0
    {
      RecordSite(b, j);
      RecordSite(b, k);
    }
  }

  lemma OneMorePatch(laid: Text, was: Text, now: Text, b: Books, n: nat)
    requires n < |b.patches| && PatchesMade(laid, was, b, n) && now == was[At(b.patches[n].0) := b.patches[n].1]
    requires forall j, k {:trigger b.patches[j], b.patches[k]} :: 0 <= j < k < |b.patches| ==>
      b.patches[j].0 != b.patches[k].0
    ensures PatchesMade(laid, now, b, n + 1)
  {
    hide Kept1, WordAt;
    var (a, w) := b.patches[n];
    PutAt(was, a, w);
    forall k {:trigger b.patches[k]} | 0 <= k < n + 1 ensures WordAt(now, b.patches[k].0, b.patches[k].1) {
      if k < n { PutElsewhere(was, was, a, w, b.patches[k].0, b.patches[k].1); }
    }
    forall pc: bv64 {:trigger Kept1(laid, now, pc)} | !PatchedBefore(b, n + 1, pc) ensures Kept1(laid, now, pc) {
      assert a != pc;
      assert !PatchedBefore(b, n, pc);
      PutElsewhere(laid, was, a, w, pc, 0);
    }
  }

  lemma PutAt(text: Text, a: bv64, w: bv32)
    ensures WordAt(text[At(a) := w], a, w)
  {}

  /** Elsewhere nothing changes. */
  lemma PutElsewhere(was: Text, now: Text, a: bv64, w: bv32, pc: bv64, v: bv32)
    requires a != pc
    ensures Kept1(was, now, pc) ==> Kept1(was, now[At(a) := w], pc)
    ensures WordAt(now, pc, v) ==> WordAt(now[At(a) := w], pc, v)
  {}

  lemma AllWritten(original: Text, laid: Text, text: Text, b: Books)
    requires AreasLaid(original, laid, b, |b.areas|) && PatchesMade(laid, text, b, |b.patches|) && AreasApart(b)
    ensures Written(original, text, b)
  {
    hide Addr, Placed, InAreas, Kept1;
    forall i {:trigger b.areas[i]} | 0 <= i < |b.areas| ensures Placed(text, b.areas[i].base, 0, b.areas[i].code) {
      AreaStays(laid, text, b, i);
    }
    assert Image(text, b) by {
      forall k {:trigger b.patches[k]} | 0 <= k < |b.patches| ensures WordAt(text, b.patches[k].0, b.patches[k].1) { }
    }
    forall pc: bv64 | !InAreas(b, pc) && !IsSite(b, pc) ensures Kept1(original, text, pc) {
      assert !PatchedBefore(b, |b.patches|, pc);
      assert Kept1(laid, text, pc) && Kept1(original, laid, pc);
      KeptTrans(original, laid, text, pc);
    }
  }

  lemma KeptTrans(a: Text, b: Text, c: Text, pc: bv64)
    requires Kept1(a, b, pc) && Kept1(b, c, pc)
    ensures Kept1(a, c, pc)
  {}

  lemma AreaStays(laid: Text, text: Text, b: Books, i: nat)
    requires PatchesMade(laid, text, b, |b.patches|) && AreasApart(b) && i < |b.areas|
    requires Placed(laid, b.areas[i].base, 0, b.areas[i].code)
    ensures Placed(text, b.areas[i].base, 0, b.areas[i].code)
  {
    hide Addr;
    var ws := b.areas[i].code;
    forall j: nat {:trigger ws[j]} | j < |ws| ensures WordAt(text, Addr(b.areas[i].base, 0 + j), ws[j]) {
      var pc := Addr(b.areas[i].base, 0 + j);
      assert 0 + j == j && WordAt(laid, pc, ws[j]);
      assert InCode(b.areas[i], pc);
      assert InAreas(b, pc);
      assert !PatchedBefore(b, |b.patches|, pc);
      assert Kept1(laid, text, pc);
    }
  }

  // ----- What was done, as the simulation names it -----

  function ReaderOf(r: Rec, areas: seq<Area>): Reader
    requires r.CounterRec? && r.area < |areas|
  {
    Reader(r.rt, areas[r.area].base, r.from, r.ws)
  }

  ghost predicate HookAt(b: Books, k: nat) {
    k < |b.recs| && b.recs[k].HookRec? && b.recs[k].area < |b.areas| && |b.areas[b.recs[k].area].code| >= 14
  }

  ghost predicate ReaderAt(b: Books, k: nat) {
    k < |b.recs| && b.recs[k].CounterRec? && b.recs[k].area < |b.areas|
  }

  ghost function WorkOf(b: Books): Work {
    Work(set k: nat | k < |b.recs| && HookAt(b, k) :: SpotOf(b.recs[k], b.areas),
         set k: nat | k < |b.recs| && ReaderAt(b, k) :: ReaderOf(b.recs[k], b.areas))
  }

  lemma RecordIsReader(original: Text, text: Text, b: Books, fs: seq<Fn>, k: nat)
    requires BooksOk(b) && Image(text, b) && Source(original, fs) && AllFrom(b.recs, fs)
    requires k < |b.recs| && b.recs[k].CounterRec?
    ensures b.recs[k].area < |b.areas| && Reads(original, text, ReaderOf(b.recs[k], b.areas), b.recs[k].site)
  {
    hide *;
    var r := b.recs[k];
    ReaderStands(b, k);
    var a := b.areas[r.area];
    ReaderFrom(original, b, fs, k);
    ImageIs(text, b, r.area, k);
    PlacedPart(text, a.base, 0, a.code, r.from, r.ws);
    assert 0 + r.from == r.from;
    ReadsIf(original, text, Reader(r.rt, a.base, r.from, r.ws), r.site);
    ReaderIs(r, b.areas);
  }

  lemma ReaderIs(r: Rec, areas: seq<Area>)
    requires r.CounterRec? && r.area < |areas|
    ensures ReaderOf(r, areas) == Reader(r.rt, areas[r.area].base, r.from, r.ws)
  {}

  lemma ReadsIf(original: Text, text: Text, q: Reader, pc: bv64)
    requires At(pc) in original && At(pc) in text && Decode(original[At(pc)], pc) == Counter(q.rt) && q.rt < 29
    requires EncB(pc, Addr(q.base, q.at)) == Some(text[At(pc)])
    requires IsCounterStub(pc, q.rt, q.base, q.at, q.ws) && Placed(text, q.base, q.at, q.ws)
    ensures Reads(original, text, q, pc)
  {
    hide Decode, EncB, Addr, IsCounterStub, Placed;
  }

  lemma ReaderStands(b: Books, k: nat)
    requires BooksOk(b) && k < |b.recs| && b.recs[k].CounterRec?
    ensures var r := b.recs[k];
            && r.area < |b.areas| && |b.recs| == |b.patches|
            && var a := b.areas[r.area];
            && r.from + |r.ws| <= |a.code| && r.ws == a.code[r.from..r.from + |r.ws|]
            && IsCounterStub(r.site, r.rt, a.base, r.from, r.ws)
            && b.patches[k].0 == r.site && EncB(r.site, Addr(a.base, r.from)) == Some(b.patches[k].1)
  {
    hide IsCommon, IsTrampoline, IsPatch, Addr, KindOf, IsCounterStub, EncB;
    assert RecOk(b.recs[k], b.areas, b.patches[k], b.sites[k]);
  }

  lemma ReaderFrom(original: Text, b: Books, fs: seq<Fn>, k: nat)
    requires Source(original, fs) && AllFrom(b.recs, fs) && k < |b.recs| && b.recs[k].CounterRec?
    ensures var r := b.recs[k];
            At(r.site) in original && Decode(original[At(r.site)], r.site) == Counter(r.rt) && r.rt < 29
  {
    hide RecFrom, Placed, Decode;
    var r := b.recs[k];
    assert HasSource(r, fs);
    var n: nat, i: nat :| RecFrom(r, fs, n, i);
    CounterFrom(original, fs, n, i, r);
  }

  lemma CounterFrom(original: Text, fs: seq<Fn>, n: nat, i: nat, r: Rec)
    requires Source(original, fs) && RecFrom(r, fs, n, i) && r.CounterRec?
    ensures At(r.site) in original && Decode(original[At(r.site)], r.site) == Counter(r.rt) && r.rt < 29
  {
    var f := fs[n];
    var pc := Addr(f.start, i);
    var w := f.words[i];
    WantIsHook(w, pc, Tainted(Classes(f)), f.drawn[i]);
    assert WordAt(original, Addr(f.start, 0 + i), w) by {
      assert Placed(original, f.start, 0, f.words);
    }
    hide Addr, Decode, Spanned, Wants, Tainted, Classes;
  }

  // ----- The rewritten program -----

  lemma PatchedInWork(b: Books, k: nat)
    requires HookAt(b, k)
    ensures SpotOf(b.recs[k], b.areas) in WorkOf(b).spots
  {}

  lemma ReaderInWork(b: Books, k: nat)
    requires ReaderAt(b, k)
    ensures ReaderOf(b.recs[k], b.areas) in WorkOf(b).readers
  {}

  lemma RecordSite(b: Books, k: nat)
    requires BooksOk(b) && k < |b.patches|
    ensures k < |b.recs| && SiteAt(b.recs[k]) == b.patches[k].0
  {
    hide IsCommon, IsTrampoline, IsPatch, Addr, KindOf, IsCounterStub, EncB;
    assert RecOk(b.recs[k], b.areas, b.patches[k], b.sites[k]);
  }

  /** Outside the areas every word of the rewritten text is the original's, or
      leads where it should. */
  lemma AllRewritten(original: Text, text: Text, b: Books, fs: seq<Fn>, pc: bv64)
    requires BooksOk(b) && AllFrom(b.recs, fs) && Source(original, fs) && Written(original, text, b) && !InAreas(b, pc)
    ensures Rewritten(original, text, WorkOf(b), pc)
  {
    hide BooksOk, AllFrom, Source, Image, Kept1, Patched, Reads, InAreas, WorkOf;
    if IsSite(b, pc) {
      var k: nat :| k < |b.patches| && b.patches[k].0 == pc;
      RecordSite(b, k);
      if b.recs[k].HookRec? {
        RecordIsPatched(original, text, b, fs, k);
        PatchedInWork(b, k);
      } else {
        RecordIsReader(original, text, b, fs, k);
        ReaderInWork(b, k);
      }
    }
  }

  /** A step of the original outside the areas that meets what the simulation
      asks of one */
  ghost predicate Harmless(env: Env, original: Text, text: Text, b: Books, d: Dirt, s: State, d2: Dirt) {
    !InAreas(b, s.pc) && Tame(env, original, text, WorkOf(b), d, s, d2)
  }

  lemma HarmlessCalm(env: Env, original: Text, text: Text, b: Books, fs: seq<Fn>, d: Dirt, s: State, d2: Dirt)
    requires BooksOk(b) && AllFrom(b.recs, fs) && Source(original, fs) && Written(original, text, b)
    requires Harmless(env, original, text, b, d, s, d2)
    ensures Calm(env, original, text, WorkOf(b), d, s, d2)
  {
    hide BooksOk, AllFrom, Source, Written, Tame, Rewritten, WorkOf, InAreas;
    AllRewritten(original, text, b, fs, s.pc);
  }

  /** The whole rewriting preserves what the program does: any run of the
      original outside the areas is matched by the rewritten text, hooks,
      islands and counter reads included, as long as the quantum lasts or
      across any number of calls of the scheduler that give the program back as
      it was. */
  lemma RewritePreserves(env: Env, original: Text, text: Text, b: Books, fs: seq<Fn>, ds: seq<Dirt>, s: State, n: nat,
    t: State)
    returns (u: State)
    requires BooksOk(b) && AllFrom(b.recs, fs) && Source(original, fs) && Written(original, text, b)
    requires |ds| == n + 1 && Agree(ds[0], s, t)
    requires forall i: nat {:trigger ds[i]} :: i < n ==>
      Harmless(env, original, text, b, ds[i], Run(env, original, s, i), ds[i + 1])
    requires Lasts(Count(t), n)
             || forall i: nat {:trigger ds[i]} :: i < n ==>
                  Entering(env, original, text, WorkOf(b), ds[i], Run(env, original, s, i))
    ensures Reaches(env, text, t, u) && Agree(ds[n], Run(env, original, s, n), u)
  {
    hide *;
    forall i: nat {:trigger ds[i]} | i < n
      ensures Calm(env, original, text, WorkOf(b), ds[i], Run(env, original, s, i), ds[i + 1])
    {
      HarmlessCalm(env, original, text, b, fs, ds[i], Run(env, original, s, i), ds[i + 1]);
    }
    u := RunSimulates(env, original, text, WorkOf(b), ds, s, n, t);
  }
}

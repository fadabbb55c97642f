/** Which words of a function are hooked (rewrite in src/rewrite.rs), and the
    rewritten text as the simulation needs it. */
module Selection {
  import opened Wrappers
  import opened Arm
  import opened ArmMachine
  import opened Trampoline
  import opened Sites
  import opened CounterReads
  import opened Simulation
  import opened Rewriter

  // ----- Exclusive spans -----

  /** An exclusive load at or before i has not been answered by a store yet. */
  ghost predicate Held(cs: seq<Class>, i: nat) {
    exists j: nat {:trigger cs[j]} :: j <= i && j < |cs| && cs[j].ExclusiveLoad? && Unanswered(cs, j, i)
  }

  ghost predicate Unanswered(cs: seq<Class>, j: nat, i: nat) {
    forall k: nat {:trigger cs[k]} :: j < k <= i && k < |cs| ==> !cs[k].ExclusiveStore?
  }

  /** The branch right after a store-conditional, back to or before it. */
  predicate Retry(c: Class, pc: bv64) {
    (c.Cbz? || c.BCond?) && c.target <= pc
  }

  /** Word i is never touched: it lies in a span, the store included, or
      retries one. */
  ghost predicate Spanned(cs: seq<Class>, start: bv64, i: nat)
    requires i < |cs|
  {
    || Held(cs, i)
    || cs[i].ExclusiveStore?
    || (i > 0 && cs[i - 1].ExclusiveStore? && Retry(cs[i], Addr(start, i - 1)))
  }

  lemma HeldStep(cs: seq<Class>, i: nat)
    requires i < |cs|
    ensures cs[i].ExclusiveLoad? ==> Held(cs, i)
    ensures cs[i].ExclusiveStore? ==> !Held(cs, i)
    ensures !cs[i].ExclusiveLoad? && !cs[i].ExclusiveStore? ==> (Held(cs, i) <==> i > 0 && Held(cs, i - 1))
  {
    if cs[i].ExclusiveLoad? {
      assert Unanswered(cs, i, i);
    } else if !cs[i].ExclusiveStore? {
      if Held(cs, i) {
        var j: nat :| j <= i && cs[j].ExclusiveLoad? && Unanswered(cs, j, i);
        assert Unanswered(cs, j, i - 1);
      }
      if i > 0 && Held(cs, i - 1) {
        var j: nat :| j <= i - 1 && cs[j].ExclusiveLoad? && Unanswered(cs, j, i - 1);
        assert Unanswered(cs, j, i);
      }
    }
  }

  /** Word i comes right after a store it retries. */
  predicate RetryAt(cs: seq<Class>, start: bv64, i: nat)
    requires i < |cs|
  {
    i > 0 && cs[i - 1].ExclusiveStore? && Retry(cs[i], Addr(start, i - 1))
  }

  lemma SpannedIs(cs: seq<Class>, start: bv64, i: nat)
    requires i < |cs|
    ensures Spanned(cs, start, i) <==> Held(cs, i) || cs[i].ExclusiveStore? || RetryAt(cs, start, i)
  {
    hide Addr, Held, Retry;
  }

  /** The first i words are marked as they should be, and word i already if it
      is a retry. */
  ghost predicate Marked(x: seq<bool>, cs: seq<Class>, start: bv64, i: nat) {
    && |x| == |cs| && i <= |cs|
    && (forall k {:trigger x[k]} :: 0 <= k < i ==> (x[k] <==> Spanned(cs, start, k)))
    && (forall k {:trigger x[k]} :: i <= k < |cs| ==> (x[k] <==> k == i && RetryAt(cs, start, k)))
  }

  lemma MarkedStep(x: seq<bool>, y: seq<bool>, cs: seq<Class>, start: bv64, i: nat, mark: bool, markNext: bool)
    requires Marked(x, cs, start, i) && i < |cs|
    requires mark <==> x[i] || Held(cs, i) || cs[i].ExclusiveStore?
    requires markNext <==> i + 1 < |cs| && cs[i].ExclusiveStore? && Retry(cs[i + 1], Addr(start, i))
    requires y == if markNext then x[i := mark][i + 1 := true] else x[i := mark]
    ensures Marked(y, cs, start, i + 1)
  {
    SpannedIs(cs, start, i);
    hide Spanned, Held, Retry, Addr;
  }

  /** One word of the pass. */
  method MarkWord(x: array<bool>, cs: seq<Class>, start: bv64, i: nat, open: bool) returns (next: bool)
    requires i < |cs| && Marked(x[..], cs, start, i) && (open <==> i > 0 && Held(cs, i - 1))
    modifies x
    ensures Marked(x[..], cs, start, i + 1) && (next <==> Held(cs, i))
  {
    ghost var was := x[..];
    assert x.Length == |cs|;
    HeldStep(cs, i);
    hide *;
    next := open;
    var store, retry := false, false;
    match cs[i] {
      case ExclusiveLoad =>
        next := true;
      case ExclusiveStore =>
        store := true;
        next := false;
        retry := i + 1 < |cs| && Retry(cs[i + 1], Addr(start, i));
      case _ =>
    }
    ghost var mark := was[i] || store || next;
    x[i] := x[i] || store || next;
    if retry {
      x[i + 1] := true;
    }
    assert x[..] == if retry then was[i := mark][i + 1 := true] else was[i := mark];
    MarkedStep(was, x[..], cs, start, i, mark, retry);
  }

  /** The words never touched, in one pass. */
  method ExclusiveWords(cs: seq<Class>, start: bv64) returns (exclusive: array<bool>)
    ensures fresh(exclusive) && exclusive.Length == |cs|
    ensures forall i :: 0 <= i < |cs| ==> (exclusive[i] <==> Spanned(cs, start, i))
  {
    exclusive := new bool[|cs|](i => false);
    var open := false;
    hide Addr, Held, Retry, Spanned;
    for i := 0 to |cs|
      invariant open <==> i > 0 && Held(cs, i - 1)
      invariant Marked(exclusive[..], cs, start, i)
    {
      open := MarkWord(exclusive, cs, start, i, open);
    }
  }

  // ----- Choosing sites -----

  /** A function: its words from start on, the data the linker marked in the
      text, and which of its loads and stores were drawn to be hooked. */
  datatype Fn = Fn(start: bv64, words: seq<bv32>, dic: seq<(bv64, bv64)>, drawn: seq<bool>)

  datatype Want = Skip | WantHook(hook: Hook) | WantCounter(rt: bv8)

  predicate InData(dic: seq<(bv64, bv64)>, pc: bv64) {
    exists k :: 0 <= k < |dic| && dic[k].0 <= pc < dic[k].1
  }

  /** Accesses to the function's own frame are left alone as long as no address
      in it escapes; a counter read into x29 or above is not hooked. */
  function Wants(w: bv32, pc: bv64, tainted: bool, drawn: bool): Want {
    match Decode(w, pc)
    case Counter(rt) => if rt < 29 then WantCounter(rt) else Skip
    case Mem(base) =>
      if (base == SP || base == FP) && !tainted then Skip
      else if drawn then WantHook(Hook(pc, NoGuard, false, Replay(w)))
      else Skip
    case _ => match HookFor(w, pc) case Some(h) => WantHook(h) case None => Skip
  }

  function Classes(f: Fn): (cs: seq<Class>)
    ensures |cs| == |f.words| && forall i :: 0 <= i < |cs| ==> cs[i] == Decode(f.words[i], Addr(f.start, i))
  {
    seq(|f.words|, i requires 0 <= i < |f.words| => Decode(f.words[i], Addr(f.start, i)))
  }

  predicate Tainted(cs: seq<Class>) {
    exists i :: 0 <= i < |cs| && cs[i].StackAddr?
  }

  /** What is wanted of word i: nothing in data or in an exclusive span. */
  ghost function WantAt(f: Fn, i: nat): Want
    requires i < |f.words| == |f.drawn|
  {
    var pc := Addr(f.start, i);
    if InData(f.dic, pc) || Spanned(Classes(f), f.start, i) then Skip
    else Wants(f.words[i], pc, Tainted(Classes(f)), f.drawn[i])
  }

  /** Only a word whose instruction the machine performs as hooked is hooked. */
  lemma WantIsHook(w: bv32, pc: bv64, tainted: bool, drawn: bool)
    ensures var want := Wants(w, pc, tainted, drawn);
            && (want.WantHook? ==> HookFor(w, pc) == Some(want.hook) && want.hook.site == pc)
            && (want.WantCounter? ==> Decode(w, pc) == Counter(want.rt) && want.rt < 29)
  {
    hide Decode;
  }

  /** The record made for word i. */
  ghost predicate RecFor(r: Rec, f: Fn, i: nat)
    requires i < |f.words| == |f.drawn|
  {
    match WantAt(f, i)
    case Skip => false
    case WantHook(h) => r.HookRec? && r.hook == h
    case WantCounter(rt) => r.CounterRec? && r.site == Addr(f.start, i) && r.rt == rt
  }

  /** Of the first n words, those wanted are the ones done and the ones left,
      each once and in order. */
  ghost predicate Sorted(s: seq<nat>, n: nat) {
    && (forall k {:trigger s[k]} :: 0 <= k < |s| ==> s[k] < n)
    && (forall j, k {:trigger s[j], s[k]} :: 0 <= j < k < |s| ==> s[j] < s[k])
  }

  ghost predicate Split(f: Fn, n: nat, done: seq<nat>, left: seq<nat>)
    requires n <= |f.words| == |f.drawn|
  {
    && Sorted(done, n) && Sorted(left, n)
    && (forall i: nat {:trigger i in done} :: i in done ==> i !in left)
    && (forall i: nat {:trigger WantAt(f, i)} :: i < n ==> (WantAt(f, i) != Skip <==> i in done || i in left))
  }

  lemma SplitStep(f: Fn, n: nat, done: seq<nat>, left: seq<nat>)
    requires n < |f.words| == |f.drawn| && Split(f, n, done, left)
    ensures WantAt(f, n) == Skip ==> Split(f, n + 1, done, left)
    ensures WantAt(f, n) != Skip ==> Split(f, n + 1, done + [n], left) && Split(f, n + 1, done, left + [n])
  {
    hide WantAt;
  }

  /** The records made since `was` are those of the words done, in order. */
  ghost predicate Made(was: seq<Rec>, now: seq<Rec>, f: Fn, done: seq<nat>)
    requires |f.words| == |f.drawn|
  {
    && |now| == |was| + |done| && was <= now
    && forall k {:trigger done[k]} :: 0 <= k < |done| ==> done[k] < |f.words| && RecFor(now[|was| + k], f, done[k])
  }

  lemma MadeMore(was: seq<Rec>, now: seq<Rec>, f: Fn, done: seq<nat>, r: Rec, i: nat)
    requires |f.words| == |f.drawn| && Made(was, now, f, done) && i < |f.words| && RecFor(r, f, i)
    ensures Made(was, now + [r], f, done + [i])
  {
    hide RecFor;
  }

  /** One word: hooked, counted as out of reach, or left alone. */
  method RewriteWord(b: Builder, f: Fn, i: nat, excluded: bool, tainted: bool)
    returns (ghost wanted: bool, ghost ok: bool)
    requires b.Valid() && i < |f.words| == |f.drawn| && tainted == Tainted(Classes(f))
    requires excluded <==> Spanned(Classes(f), f.start, i)
    modifies b
    ensures b.Valid() && wanted == (WantAt(f, i) != Skip) && (ok ==> wanted)
    ensures !ok ==> b.recs == old(b.recs)
    ensures ok ==> |b.recs| == |old(b.recs)| + 1 && b.recs == old(b.recs) + [b.recs[|old(b.recs)|]]
                   && RecFor(b.recs[|old(b.recs)|], f, i)
    ensures b.unreachable == old(b.unreachable) + if wanted && !ok then 1 else 0
  {
    hide Wants, InData, Spanned, Classes, Tainted, BooksOk, FitsIn, CounterFitsIn, Extended, Addr, WantAt;
    var pc := Addr(f.start, i);
    ghost var want := WantAt(f, i);
    wanted, ok := want != Skip, false;
    WantIs(f, i, excluded, tainted);
    if InData(f.dic, pc) || excluded {
      return;
    }
    match Wants(f.words[i], pc, tainted, f.drawn[i]) {
      case Skip =>
      case WantHook(h) =>
        var fits;
        ghost var where, ws;
        fits, where, ws := b.Stub(h);
        ok := fits;
      case WantCounter(rt) =>
        var fits;
        ghost var where, ws;
        fits, where, ws := b.CounterStub(pc, rt);
        ok := fits;
    }
  }

  lemma WantIs(f: Fn, i: nat, excluded: bool, tainted: bool)
    requires i < |f.words| == |f.drawn| && tainted == Tainted(Classes(f))
    requires excluded <==> Spanned(Classes(f), f.start, i)
    ensures WantAt(f, i) == if InData(f.dic, Addr(f.start, i)) || excluded then Skip
                            else Wants(f.words[i], Addr(f.start, i), tainted, f.drawn[i])
  {
    hide Wants, InData, Spanned, Tainted, Addr;
  }

  /** How many of the first n words are wanted */
  ghost function WantedUpTo(f: Fn, n: nat): nat
    requires n <= |f.words| == |f.drawn|
  {
    if n == 0 then 0 else WantedUpTo(f, n - 1) + (if WantAt(f, n - 1) != Skip then 1 else 0)
  }

  /** A whole function: every word that is wanted is either hooked, with one
      record, or counted as out of reach; no other word is. */
  method RewriteFunction(b: Builder, f: Fn) returns (ghost done: seq<nat>, ghost left: seq<nat>)
    requires b.Valid() && |f.words| == |f.drawn|
    modifies b
    ensures b.Valid() && Split(f, |f.words|, done, left) && Made(old(b.recs), b.recs, f, done)
    ensures b.unreachable == old(b.unreachable) + |left| && |done| + |left| == WantedUpTo(f, |f.words|)
  {
    hide Addr, Decode, Spanned, WantAt, BooksOk, Split, Made, RecFor;
    var cs := Classes(f);
    var tainted := Tainted(cs);
    var exclusive := ExclusiveWords(cs, f.start);
    done, left := [], [];
    SplitNone(f, b.recs);
    var i := 0;
    while i < |f.words|
      invariant i <= |f.words| && b.Valid() && exclusive.Length == |f.words|
      invariant forall k :: 0 <= k < |cs| ==> (exclusive[k] <==> Spanned(cs, f.start, k))
      invariant Split(f, i, done, left) && Made(old(b.recs), b.recs, f, done)
      invariant b.unreachable == old(b.unreachable) + |left| && |done| + |left| == WantedUpTo(f, i)
    {
      ghost var recs := b.recs;
      SplitStep(f, i, done, left);
      ghost var wanted, ok := RewriteWord(b, f, i, exclusive[i], tainted);
      if ok {
        MadeMore(old(b.recs), recs, f, done, b.recs[|recs|], i);
        done := done + [i];
      } else if wanted {
        left := left + [i];
      }
      i := i + 1;
    }
  }

  lemma SplitNone(f: Fn, recs: seq<Rec>)
    requires |f.words| == |f.drawn|
    ensures Split(f, 0, [], []) && Made(recs, recs, f, [])
  {}

  // ----- The rewritten text -----

  /** A word of one of the functions that was wanted, and its record. */
  ghost predicate RecFrom(r: Rec, fs: seq<Fn>, n: nat, i: nat) {
    n < |fs| && |fs[n].words| == |fs[n].drawn| && i < |fs[n].words| && RecFor(r, fs[n], i)
  }

  ghost predicate HasSource(r: Rec, fs: seq<Fn>) {
    exists n: nat, i: nat :: RecFrom(r, fs, n, i)
  }

  ghost predicate AllFrom(recs: seq<Rec>, fs: seq<Fn>) {
    forall k {:trigger recs[k]} :: 0 <= k < |recs| ==> HasSource(recs[k], fs)
  }

  lemma AllFromMore(was: seq<Rec>, now: seq<Rec>, fs: seq<Fn>, n: nat, done: seq<nat>)
    requires n < |fs| && |fs[n].words| == |fs[n].drawn| && AllFrom(was, fs) && Made(was, now, fs[n], done)
    ensures AllFrom(now, fs)
  {
    hide RecFor;
    forall k {:trigger now[k]} | 0 <= k < |now| ensures HasSource(now[k], fs) {
      if k < |was| {
        assert now[k] == was[k];
      } else {
        var j: nat := k - |was|;
        assert now[|was| + j] == now[k];
        assert RecFrom(now[k], fs, n, done[j]);
      }
    }
  }

  /** No word belongs to two functions. */
  ghost predicate Apart(fs: seq<Fn>) {
    forall m: nat, i: nat, n: nat, j: nat {:trigger Addr(fs[m].start, i), Addr(fs[n].start, j)} ::
      m < |fs| && i < |fs[m].words| && n < |fs| && j < |fs[n].words| && (m != n || i != j) ==>
        Addr(fs[m].start, i) != Addr(fs[n].start, j)
  }

  function SiteAt(r: Rec): bv64 {
    match r
    case HookRec(h, _, _, _) => h.site
    case CounterRec(site, _, _, _, _) => site
  }

  /** No site is patched twice. */
  ghost predicate SitesApart(recs: seq<Rec>) {
    forall j, k {:trigger recs[j], recs[k]} :: 0 <= j < k < |recs| ==> SiteAt(recs[j]) != SiteAt(recs[k])
  }

  lemma RecSite(r: Rec, fs: seq<Fn>, n: nat, i: nat)
    requires RecFrom(r, fs, n, i)
    ensures SiteAt(r) == Addr(fs[n].start, i)
  {
    var f := fs[n];
    WantIsHook(f.words[i], Addr(f.start, i), Tainted(Classes(f)), f.drawn[i]);
    hide Addr, Spanned, Wants, Tainted, Classes, InData, HookFor, Decode;
  }

  lemma SitesApartMore(was: seq<Rec>, now: seq<Rec>, fs: seq<Fn>, n: nat, done: seq<nat>)
    requires n < |fs| && |fs[n].words| == |fs[n].drawn| && AllFrom(was, fs[..n]) && Made(was, now, fs[n], done)
    requires Sorted(done, |fs[n].words|) && Apart(fs) && SitesApart(was)
    ensures SitesApart(now)
  {
    hide RecFor, Addr;
    forall j, k {:trigger now[j], now[k]} | 0 <= j < k < |now| ensures SiteAt(now[j]) != SiteAt(now[k]) {
      if k < |was| {
        assert now[j] == was[j] && now[k] == was[k];
      } else {
        var i: nat := k - |was|;
        assert now[|was| + i] == now[k];
        RecSite(now[k], fs, n, done[i]);
        if j < |was| {
          assert now[j] == was[j] && HasSource(was[j], fs[..n]);
          var m: nat, l: nat :| RecFrom(was[j], fs[..n], m, l);
          RecSite(was[j], fs, m, l);
        } else {
          var l: nat := j - |was|;
          assert now[|was| + l] == now[j];
          RecSite(now[j], fs, n, done[l]);
        }
      }
    }
  }

  ghost function Wanted(fs: seq<Fn>, n: nat): nat
    requires n <= |fs| && forall m :: 0 <= m < |fs| ==> |fs[m].words| == |fs[m].drawn|
  {
    if n == 0 then 0 else Wanted(fs, n - 1) + WantedUpTo(fs[n - 1], |fs[n - 1].words|)
  }

  /** The whole program: every word wanted of it has one record, made for it, or
      is counted as out of reach. */
  method Rewrite(segment: bv64, rooms: seq<(bv64, nat)>, fs: seq<Fn>)
    returns (b: Builder, ghost lefts: seq<seq<nat>>)
    requires forall n :: 0 <= n < |fs| ==> |fs[n].words| == |fs[n].drawn|
    requires Apart(fs)
    ensures fresh(b) && b.Valid() && AllFrom(b.recs, fs) && SitesApart(b.recs)
    ensures |b.recs| + b.unreachable == Wanted(fs, |fs|)
    ensures AllServed(b.recs, fs, lefts) && b.unreachable == Total(lefts)
  {
    hide BooksOk, Started, AllFrom, Made, Split, SitesApart, Apart, WantedUpTo, AllServed;
    b := new Builder(segment, rooms);
    lefts := [];
    NoneServed(fs[..0]);
    NoneFrom(fs[..0]);
    for n := 0 to |fs|
      invariant b.Valid() && AllFrom(b.recs, fs[..n]) && SitesApart(b.recs)
      invariant |b.recs| + b.unreachable == Wanted(fs, n)
      invariant AllServed(b.recs, fs[..n], lefts) && b.unreachable == Total(lefts)
    {
      ghost var was := b.recs;
      ghost var done, left := RewriteFunction(b, fs[n]);
      SplitSorted(fs[n], done, left);
      MadeCount(was, b.recs, fs[n], done);
      SitesApartMore(was, b.recs, fs, n, done);
      AllFromLonger(was, fs, n);
      AllFromMore(was, b.recs, fs[..n + 1], n, done);
      ServedMore(was, b.recs, fs, n, lefts, done, left);
      lefts := lefts + [left];
    }
    assert fs[..|fs|] == fs;
  }

  /** There is a record for word i. */
  ghost predicate Served(recs: seq<Rec>, f: Fn, i: nat)
    requires i < |f.words| == |f.drawn|
  {
    exists k {:trigger recs[k]} :: 0 <= k < |recs| && RecFor(recs[k], f, i)
  }

  /** Every word that is wanted has a record or is one of those left. */
  ghost predicate AllServed(recs: seq<Rec>, fs: seq<Fn>, lefts: seq<seq<nat>>) {
    && |lefts| == |fs|
    && forall n: nat, i: nat {:trigger WantAt(fs[n], i)} :: n < |fs| && i < |fs[n].words| == |fs[n].drawn| ==>
         WantAt(fs[n], i) == Skip || i in lefts[n] || Served(recs, fs[n], i)
  }

  function Total(lefts: seq<seq<nat>>): nat {
    if lefts == [] then 0 else Total(lefts[..|lefts| - 1]) + |lefts[|lefts| - 1]|
  }

  lemma NoneServed(fs: seq<Fn>)
    requires fs == []
    ensures AllServed([], fs, []) && Total([]) == 0
  {}

  lemma ServedMore(was: seq<Rec>, now: seq<Rec>, fs: seq<Fn>, n: nat, lefts: seq<seq<nat>>, done: seq<nat>,
                   left: seq<nat>)
    requires n < |fs| && |fs[n].words| == |fs[n].drawn| && AllServed(was, fs[..n], lefts)
    requires Made(was, now, fs[n], done) && Split(fs[n], |fs[n].words|, done, left)
    ensures AllServed(now, fs[..n + 1], lefts + [left]) && Total(lefts + [left]) == Total(lefts) + |left|
  {
    hide RecFor, WantAt;
    var gs, ls := fs[..n + 1], lefts + [left];
    assert ls[..|ls| - 1] == lefts;
    forall m: nat, i: nat {:trigger WantAt(gs[m], i)} | m < |gs| && i < |gs[m].words| == |gs[m].drawn|
      ensures WantAt(gs[m], i) == Skip || i in ls[m] || Served(now, gs[m], i)
    {
      assert gs[m] == fs[m];
      if m < n {
        assert fs[..n][m] == fs[m] && ls[m] == lefts[m];
        assert WantAt(fs[..n][m], i) == Skip || i in lefts[m] || Served(was, fs[..n][m], i);
        if Served(was, fs[m], i) {
          var k :| 0 <= k < |was| && RecFor(was[k], fs[m], i);
          assert now[k] == was[k];
        }
      } else if WantAt(fs[n], i) != Skip && i !in left {
        var k :| 0 <= k < |done| && done[k] == i;
        assert RecFor(now[|was| + k], fs[n], done[k]);
      }
    }
  }

  lemma NoneFrom(fs: seq<Fn>)
    ensures AllFrom([], fs) && SitesApart([])
  {}

  lemma SplitSorted(f: Fn, done: seq<nat>, left: seq<nat>)
    requires |f.words| == |f.drawn| && Split(f, |f.words|, done, left)
    ensures Sorted(done, |f.words|)
  {
    hide WantAt, Sorted;
  }

  lemma MadeCount(was: seq<Rec>, now: seq<Rec>, f: Fn, done: seq<nat>)
    requires |f.words| == |f.drawn| && Made(was, now, f, done)
    ensures |now| == |was| + |done|
  {
    hide RecFor;
  }

  lemma AllFromLonger(recs: seq<Rec>, fs: seq<Fn>, n: nat)
    requires n < |fs| && AllFrom(recs, fs[..n])
    ensures AllFrom(recs, fs[..n + 1])
  {
    hide RecFor;
    forall k {:trigger recs[k]} | 0 <= k < |recs| ensures HasSource(recs[k], fs[..n + 1]) {
      assert HasSource(recs[k], fs[..n]);
      var m: nat, i: nat :| RecFrom(recs[k], fs[..n], m, i);
      assert RecFrom(recs[k], fs[..n + 1], m, i);
    }
  }

  /** The rewritten text: every area's code stands at its base and every patch
      at its site. */
  ghost predicate Image(text: Text, b: Books) {
    && (forall i {:trigger b.areas[i]} :: 0 <= i < |b.areas| ==> Placed(text, b.areas[i].base, 0, b.areas[i].code))
    && (forall k {:trigger b.patches[k]} :: 0 <= k < |b.patches| ==>
          At(b.patches[k].0) in text && text[At(b.patches[k].0)] == b.patches[k].1)
  }

  /** The functions' words stand in the original text. */
  ghost predicate Source(original: Text, fs: seq<Fn>) {
    forall n {:trigger fs[n]} :: 0 <= n < |fs| ==> Placed(original, fs[n].start, 0, fs[n].words)
  }

  function SpotOf(r: Rec, areas: seq<Area>): Spot
    requires r.HookRec? && r.area < |areas| && |areas[r.area].code| >= 14
  {
    var a := areas[r.area];
    Spot(r.hook, a.base, 0, a.code[..14], r.from, r.ws)
  }

  /** What the builder recorded is what the simulation asks of a site: its
      instruction is the one the hook was made for, the patch stands at it and
      the trampoline and the body it calls stand where the patch leads. */
  lemma RecordIsPatched(original: Text, text: Text, b: Books, fs: seq<Fn>, k: nat)
    requires BooksOk(b) && Image(text, b) && Source(original, fs) && AllFrom(b.recs, fs)
    requires k < |b.recs| && b.recs[k].HookRec?
    ensures b.recs[k].area < |b.areas| && |b.areas[b.recs[k].area].code| >= 14
    ensures Patched(original, text, SpotOf(b.recs[k], b.areas), b.recs[k].hook.site)
  {
    hide *;
    var r := b.recs[k];
    var h := r.hook;
    RecordStands(b, k);
    var a := b.areas[r.area];
    RecordFrom(original, b, fs, k);
    ImageIs(text, b, r.area, k);
    PlacedPart(text, a.base, 0, a.code, 0, a.code[..14]);
    PlacedPart(text, a.base, 0, a.code, r.from, r.ws);
    BuiltFrom(text, h, a.base, a.code[..14], r.from, r.ws);
    PatchedFrom(original, text, Spot(h, a.base, 0, a.code[..14], r.from, r.ws), h.site);
    SpotIs(r, b.areas);
  }

  lemma ImageIs(text: Text, b: Books, area: nat, k: nat)
    requires Image(text, b) && area < |b.areas| && k < |b.patches|
    ensures Placed(text, b.areas[area].base, 0, b.areas[area].code)
    ensures At(b.patches[k].0) in text && text[At(b.patches[k].0)] == b.patches[k].1
  {
    hide Placed;
    assert b.areas[area] == b.areas[area] && b.patches[k] == b.patches[k];
  }

  lemma SpotIs(r: Rec, areas: seq<Area>)
    requires r.HookRec? && r.area < |areas| && |areas[r.area].code| >= 14
    ensures SpotOf(r, areas) == Spot(r.hook, areas[r.area].base, 0, areas[r.area].code[..14], r.from, r.ws)
  {}

  lemma RecordStands(b: Books, k: nat)
    requires BooksOk(b) && k < |b.recs| && b.recs[k].HookRec?
    ensures var r := b.recs[k];
            && r.area < |b.areas| && |b.recs| == |b.patches|
            && var a := b.areas[r.area];
            && |a.code| >= 14 && IsCommon(a.base, 0, a.code[..14])
            && r.from + |r.ws| <= |a.code| && r.ws == a.code[r.from..r.from + |r.ws|]
            && IsTrampoline(r.hook, a.base, 0, r.from, r.ws)
            && b.patches[k].0 == r.hook.site && IsPatch(r.hook, Addr(a.base, r.from), b.patches[k].1)
  {
    hide IsCommon, IsTrampoline, IsPatch, Addr, KindOf, IsCounterStub;
    assert RecOk(b.recs[k], b.areas, b.patches[k], b.sites[k]);
    assert AreaOk(b.areas[b.recs[k].area]);
  }

  lemma RecordFrom(original: Text, b: Books, fs: seq<Fn>, k: nat)
    requires Source(original, fs) && AllFrom(b.recs, fs) && k < |b.recs| && b.recs[k].HookRec?
    ensures var h := b.recs[k].hook;
            At(h.site) in original && HookFor(original[At(h.site)], h.site) == Some(h) && Sound(h)
  {
    hide RecFrom, Placed, HookFor, Sound;
    var r := b.recs[k];
    assert HasSource(r, fs);
    var n: nat, i: nat :| RecFrom(r, fs, n, i);
    WordFrom(original, fs, n, i, r);
  }

  lemma WordFrom(original: Text, fs: seq<Fn>, n: nat, i: nat, r: Rec)
    requires Source(original, fs) && RecFrom(r, fs, n, i) && r.HookRec?
    ensures At(r.hook.site) in original && HookFor(original[At(r.hook.site)], r.hook.site) == Some(r.hook)
      && Sound(r.hook)
  {
    var f := fs[n];
    var pc := Addr(f.start, i);
    var w := f.words[i];
    WantIsHook(w, pc, Tainted(Classes(f)), f.drawn[i]);
    assert WordAt(original, Addr(f.start, 0 + i), w) by {
      assert Placed(original, f.start, 0, f.words);
    }
    SoundHook(w, r.hook, pc);
    hide Addr, HookFor, Spanned, Wants, Tainted, Classes;
  }

  lemma SoundHook(w: bv32, h: Hook, pc: bv64)
    requires HookFor(w, pc) == Some(h)
    ensures Sound(h)
  {
    hide *;
    var idle := State(pc, seq(31, i => 0), 0, Flags(false, false, false, false), map[], map[]);
    HookIsFaithful(Env((w, s) => s, (w, s) => s, s => s, s => 0), w, h, idle);
  }

  lemma BuiltFrom(text: Text, h: Hook, base: bv64, cws: seq<bv32>, at: nat, ws: seq<bv32>)
    requires Sound(h) && IsTrampoline(h, base, 0, at, ws) && Placed(text, base, 0 + at, ws)
    requires IsCommon(base, 0, cws) && Placed(text, base, 0 + 0, cws)
    ensures Built(text, h, base, 0, cws, at, ws)
  {
    hide Sound, IsTrampoline, IsCommon, Placed;
  }

  lemma PatchedFrom(original: Text, text: Text, p: Spot, pc: bv64)
    requires At(pc) in original && At(pc) in text && HookFor(original[At(pc)], pc) == Some(p.hook)
    requires IsPatch(p.hook, Addr(p.base, p.at), text[At(pc)]) && Built(text, p.hook, p.base, p.c, p.cws, p.at, p.ws)
    ensures Patched(original, text, p, pc)
  {
    hide HookFor, IsPatch, Built, Addr;
  }
}

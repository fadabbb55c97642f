/** Delta debugging of switch sites (`suspects.rs`): from a set of sites at
    which a run fails to one from which no site can be dropped. */
module Ddmin {

  // ---- splitting ------------------------------------------------------------

  function Concat<K>(parts: seq<seq<K>>): seq<K> {
    if parts == [] then [] else parts[0] + Concat(parts[1..])
  }

  /** The division rounded up that sizes the parts */
  function DivCeil(a: nat, n: nat): (c: nat)
    requires n > 0
    ensures a <= n ==> c <= 1
    ensures a > 0 ==> c > 0
    ensures a >= 2 && n >= 2 ==> c < a
  {
    (a + n - 1) / n
  }

  /** What every way of cutting `s` into parts of at most `chunk` gives */
  predicate Cut<K(==)>(s: seq<K>, parts: seq<seq<K>>, chunk: nat) {
    Concat(parts) == s && forall i :: 0 <= i < |parts| ==> 0 < |parts[i]| <= chunk
  }

  method Chunks<K(==)>(s: seq<K>, chunk: nat) returns (parts: seq<seq<K>>)
    requires chunk > 0
    ensures Cut(s, parts, chunk) && Full(parts, chunk) && |parts| == DivCeil(|s|, chunk)
  {
    parts := [];
    var at := 0;
    while at < |s|
      invariant at <= |s| && Concat(parts) == s[..at]
      invariant forall i :: 0 <= i < |parts| ==> 0 < |parts[i]| <= chunk
      invariant at < |s| ==> forall i :: 0 <= i < |parts| ==> |parts[i]| == chunk
      invariant forall i :: 0 <= i < |parts| - 1 ==> |parts[i]| == chunk
    {
      var end := if at + chunk <= |s| then at + chunk else |s|;
      ConcatAppend(parts, [s[at..end]]);
      assert Concat([s[at..end]]) == s[at..end] + Concat([]) == s[at..end];
      assert s[..at] + s[at..end] == s[..end];
      parts := parts + [s[at..end]];
      at := end;
    }
    assert s[..at] == s;
    PartsCount(s, parts, chunk);
  }

  lemma {:induction false} ConcatAppend<K>(a: seq<seq<K>>, b: seq<seq<K>>)
    ensures Concat(a + b) == Concat(a) + Concat(b)
  {
    if a == [] {
      assert a + b == b;
    } else {
      assert (a + b)[0] == a[0] && (a + b)[1..] == a[1..] + b;
      ConcatAppend(a[1..], b);
    }
  }

  /** Where part `i` begins */
  function Offset<K>(parts: seq<seq<K>>, i: nat): nat
    requires i <= |parts|
  {
    |Concat(parts[..i])|
  }

  function Complement<K>(parts: seq<seq<K>>, skip: nat): seq<K>
    requires skip < |parts|
  {
    Concat(parts[..skip]) + Concat(parts[skip + 1..])
  }

  /** A part is a stretch of the whole, and its complement everything else. */
  lemma PartsOf<K>(s: seq<K>, parts: seq<seq<K>>, chunk: nat, i: nat)
    requires Cut(s, parts, chunk) && i < |parts|
    ensures var a := Offset(parts, i); var b := a + |parts[i]|;
            b <= |s| && parts[i] == s[a..b] && Complement(parts, i) == s[..a] + s[b..]
  {
    var head, tail := parts[..i], parts[i + 1..];
    assert parts == head + ([parts[i]] + tail);
    ConcatAppend(head, [parts[i]] + tail);
    assert ([parts[i]] + tail)[1..] == tail;
    assert s == Concat(head) + (parts[i] + Concat(tail));
  }

  /** With more than one part, each is a proper part. */
  lemma Proper<K>(s: seq<K>, parts: seq<seq<K>>, chunk: nat)
    requires Cut(s, parts, chunk) && chunk < |s|
    ensures |parts| >= 2
  {
    assert |parts| == 1 ==> Concat(parts) == parts[0] + Concat([]);
  }

  /** Cut to single elements, part `i` is element `i`. */
  lemma Singles<K>(s: seq<K>, parts: seq<seq<K>>, i: nat)
    requires Cut(s, parts, 1) && i <= |parts|
    ensures Offset(parts, i) == i && |parts| == |s|
  {
    SinglesBefore(parts, i);
    SinglesBefore(parts, |parts|);
    assert parts[..|parts|] == parts;
  }

  lemma {:induction false} SinglesBefore<K>(parts: seq<seq<K>>, i: nat)
    requires i <= |parts| && forall j :: 0 <= j < |parts| ==> |parts[j]| == 1
    ensures |Concat(parts[..i])| == i
  {
    if i > 0 {
      SinglesBefore(parts, i - 1);
      assert parts[..i] == parts[..i - 1] + [parts[i - 1]];
      ConcatAppend(parts[..i - 1], [parts[i - 1]]);
      assert Concat([parts[i - 1]]) == parts[i - 1] + Concat([]);
    }
  }

  /** All parts but the last are as long as they may be. */
  predicate Full<K>(parts: seq<seq<K>>, chunk: nat) { forall i :: 0 <= i < |parts| - 1 ==> |parts[i]| == chunk }

  lemma {:induction false} FullLength<K>(parts: seq<seq<K>>, chunk: nat)
    requires parts != [] && Full(parts, chunk)
    ensures |Concat(parts)| == (|parts| - 1) * chunk + |parts[|parts| - 1]|
  {
    if |parts| == 1 {
      assert Concat(parts) == parts[0] + Concat([]);
    } else {
      assert forall i :: 0 <= i < |parts[1..]| - 1 ==> parts[1..][i] == parts[i + 1];
      FullLength(parts[1..], chunk);
      OneMore(|parts| - 2, chunk);
      assert |Concat(parts)| == chunk + |Concat(parts[1..])|;
    }
  }

  /** There are as many parts as full ones would take. */
  lemma PartsCount<K>(s: seq<K>, parts: seq<seq<K>>, chunk: nat)
    requires chunk > 0 && Cut(s, parts, chunk) && Full(parts, chunk)
    ensures |parts| == DivCeil(|s|, chunk)
  {
    if parts != [] {
      FullLength(parts, chunk);
      Quotient(|s| + chunk - 1, chunk, |parts|, |parts[|parts| - 1]| - 1);
    }
  }

  lemma Quotient(a: nat, n: nat, q: nat, r: nat)
    requires n > 0 && a == q * n + r && r < n
    ensures a / n == q
  {
    var d := a / n;
    assert a == d * n + a % n;
    OneMore(d, n);
    OneMore(q, n);
    if d < q {
      Steps(d + 1, q, n);
    } else if q < d {
      Steps(q + 1, d, n);
    }
  }

  lemma OneMore(k: nat, n: nat)
    ensures (k + 1) * n == k * n + n
  {
  }

  /** Rounding up gives fewer parts than asked for exactly when one part less
      would do already. */
  lemma FewerPartsThanAsked<K>(s: seq<K>, n: nat, parts: seq<seq<K>>)
    requires |s| >= 2 && n >= 2 && Cut(s, parts, DivCeil(|s|, n)) && Full(parts, DivCeil(|s|, n))
    ensures |parts| < n <==> (n - 1) * DivCeil(|s|, n) >= |s|
  {
    FullLength(parts, DivCeil(|s|, n));
    OneLess(|parts|, DivCeil(|s|, n), |parts[|parts| - 1]|, n);
  }

  lemma OneLess(k: nat, chunk: nat, last: nat, n: nat)
    requires k > 0 && n > 0 && 0 < last <= chunk
    ensures k < n <==> (n - 1) * chunk >= (k - 1) * chunk + last
  {
    assert (k - 1) * chunk + chunk == k * chunk;
    if k < n { Steps(k, n - 1, chunk); } else { Steps(n - 1, k - 1, chunk); }
  }

  lemma Steps(a: nat, b: nat, chunk: nat)
    requires a <= b
    ensures a * chunk <= b * chunk
  {
  }

  /** Four sites asked into three parts */
  lemma FourInThree<K>(s: seq<K>, parts: seq<seq<K>>)
    requires |s| == 4 && Cut(s, parts, DivCeil(4, 3)) && Full(parts, DivCeil(4, 3))
    ensures |parts| == 2
  {
    PartsCount(s, parts, 2);
  }

  // ---- subsets that keep their order -----------------------------------------

  /** `sub` is `all` at the rising positions `at`. */
  predicate Picks<K(==)>(all: seq<K>, at: seq<nat>, sub: seq<K>) {
    && |at| == |sub| && (forall k :: 0 <= k < |at| ==> at[k] < |all| && sub[k] == all[at[k]])
    && forall j, k :: 0 <= j < k < |at| ==> at[j] < at[k]
  }

  ghost predicate Within<K>(sub: seq<K>, all: seq<K>) {
    exists at: seq<nat> :: Picks(all, at, sub)
  }

  lemma WithinSelf<K>(s: seq<K>)
    ensures Within(s, s)
  {
    assert Picks(s, seq(|s|, i requires 0 <= i < |s| => i as nat), s);
  }

  /** Taking a stretch out of, or a stretch alone from, an ordered subset
      leaves an ordered subset. */
  lemma WithinParts<K>(all: seq<K>, s: seq<K>, a: nat, b: nat)
    requires Within(s, all) && a <= b <= |s|
    ensures Within(s[a..b], all) && Within(s[..a] + s[b..], all)
  {
    var at: seq<nat> :| Picks(all, at, s);
    assert Picks(all, at[a..b], s[a..b]);
    assert Picks(all, at[..a] + at[b..], s[..a] + s[b..]);
  }

  // ---- the search -------------------------------------------------------------

  /** No single element can be dropped. */
  ghost predicate OneMinimal<K>(fails: seq<K> -> bool, s: seq<K>) {
    forall i :: 0 <= i < |s| ==> !fails(s[..i] + s[i + 1..])
  }

  method FirstFailing<K>(fails: seq<K> -> bool, sets: seq<seq<K>>) returns (i: nat)
    ensures i <= |sets| && (i < |sets| ==> fails(sets[i])) && forall j :: 0 <= j < i ==> !fails(sets[j])
  {
    i := 0;
    while i < |sets| && !fails(sets[i])
      invariant i <= |sets| && forall j :: 0 <= j < i ==> !fails(sets[j])
    {
      i := i + 1;
    }
  }

  method Complements<K>(parts: seq<seq<K>>) returns (c: seq<seq<K>>)
    ensures |c| == |parts| && forall i :: 0 <= i < |c| ==> c[i] == Complement(parts, i)
  {
    c := [];
    for skip := 0 to |parts|
      invariant |c| == skip && forall i :: 0 <= i < skip ==> c[i] == Complement(parts, i)
    {
      c := c + [Concat(parts[..skip]) + Concat(parts[skip + 1..])];
    }
  }

  /** At the finest split no part fails and, when there are more than two, no
      complement: nothing can be dropped. */
  lemma FinestIsMinimal<K>(fails: seq<K> -> bool, s: seq<K>, parts: seq<seq<K>>)
    requires Cut(s, parts, 1) && |s| >= 2
    requires forall i :: 0 <= i < |parts| ==> !fails(parts[i])
    requires |parts| > 2 ==> forall i :: 0 <= i < |parts| ==> !fails(Complement(parts, i))
    ensures OneMinimal(fails, s)
  {
    Singles(s, parts, 0);
    forall i | 0 <= i < |s| ensures !fails(s[..i] + s[i + 1..]) {
      Singles(s, parts, i);
      PartsOf(s, parts, 1, i);
      if |parts| == 2 {
        var other := 1 - i;
        Singles(s, parts, other);
        PartsOf(s, parts, 1, other);
        assert s[..i] + s[i + 1..] == s[other..other + 1];
      }
    }
  }

  /** Given a deterministic test that fails on `all` and passes on nothing, the
      result fails too, is a subsequence of `all`, and passes whichever one
      element is taken out. The test need not be monotone. */
  method Ddmin<K(==)>(fails: seq<K> -> bool, all: seq<K>) returns (current: seq<K>)
    requires fails(all) && !fails([])
    ensures Within(current, all) && fails(current) && OneMinimal(fails, current)
  {
    current := all;
    var n: nat := 2;
    WithinSelf(all);
    if |all| < 2 { SmallIsMinimal(fails, all); }
    while |current| >= 2
      invariant n >= 2 && fails(current) && Within(current, all)
      invariant |current| < 2 ==> OneMinimal(fails, current)
      decreases |current|, if n < |current| then |current| - n else 0
    {
      var chunk := DivCeil(|current|, n);
      var parts := Chunks(current, chunk);
      Proper(current, parts, chunk);
      var complements := Complements(parts);
      var i := FirstFailing(fails, parts);
      if i < |parts| {
        ReduceOk(all, current, parts, chunk, i);
        current, n := parts[i], 2;
        if |current| < 2 { SmallIsMinimal(fails, current); }
        continue;
      }
      var j := 0;
      if |parts| > 2 {
        j := FirstFailing(fails, complements);
        if j < |complements| {
          ReduceOk(all, current, parts, chunk, j);
          current, n := complements[j], if n - 1 > 2 then n - 1 else 2;
          if |current| < 2 { SmallIsMinimal(fails, current); }
          continue;
        }
      }
      if n >= |current| {
        FinestIsMinimal(fails, current, parts);
        break;
      }
      n := if 2 * n < |current| then 2 * n else |current|;
    }
  }

  /** A part and a complement are smaller ordered subsets. */
  lemma ReduceOk<K>(all: seq<K>, s: seq<K>, parts: seq<seq<K>>, chunk: nat, i: nat)
    requires Within(s, all) && Cut(s, parts, chunk) && |parts| >= 2 && i < |parts|
    ensures |parts[i]| < |s| && |Complement(parts, i)| < |s|
    ensures Within(parts[i], all) && Within(Complement(parts, i), all)
  {
    PartsOf(s, parts, chunk, i);
    var a := Offset(parts, i);
    WithinParts(all, s, a, a + |parts[i]|);
    var other := if i == 0 then 1 else 0;
    PartsOf(s, parts, chunk, other);
  }

  lemma SmallIsMinimal<K>(fails: seq<K> -> bool, t: seq<K>)
    requires |t| < 2 && !fails([])
    ensures OneMinimal(fails, t)
  {
    forall k | 0 <= k < |t| ensures !fails(t[..k] + t[k + 1..]) { assert t[..k] + t[k + 1..] == []; }
  }
}

/** Looking for free slabs: what the draws and the first fit find together. */
module HeapSearch {
  import opened Wrappers
  import R = Rng

  predicate RunFree(taken: seq<bool>, at: nat, n: nat) {
    at + n <= |taken| && forall i :: at <= i < at + n ==> !taken[i]
  }

  /** Some place from `from` up to and with `last` has `n` untaken slabs */
  predicate RoomIn(taken: seq<bool>, from: nat, last: int, n: nat) {
    exists at: nat :: from <= at <= last && at < |taken| && RunFree(taken, at, n)
  }

  /** The lowest such place. After a failed try the search goes on behind the
      highest obstacle it met, and yet passes over no place that would do. */
  method FirstFit(taken: seq<bool>, from: nat, last: int, n: nat) returns (r: Option<nat>)
    requires last + n <= |taken| && n > 0
    ensures r.Some? <==> RoomIn(taken, from, last, n)
    ensures r.Some? ==> from <= r.value <= last && RunFree(taken, r.value, n)
    ensures r.Some? ==> forall b: nat :: from <= b < r.value ==> !RunFree(taken, b, n)
  {
    var at := from;
    while at <= last
      invariant at >= from && forall b: nat :: from <= b < at ==> !RunFree(taken, b, n)
      decreases last - at
    {
      var i := at + n;
      while i > at && !taken[i - 1]
        invariant at <= i <= at + n && forall j :: i <= j < at + n ==> !taken[j]
      {
        i := i - 1;
      }
      if i == at {
        assert RunFree(taken, at, n);
        return Some(at);
      }
      forall b: nat | at <= b < i ensures !RunFree(taken, b, n) { assert taken[i - 1]; }
      at := i;
    }
    return None;
  }

  /** The first of some places where a run of `n` slabs is free */
  method FindDrawn(taken: seq<bool>, tries: seq<nat>, n: nat) returns (r: Option<nat>)
    requires forall t :: 0 <= t < |tries| ==> tries[t] + n <= |taken|
    ensures r.Some? ==> RunFree(taken, r.value, n)
    ensures r.Some? ==> exists t :: 0 <= t < |tries| && tries[t] == r.value
                                    && forall u :: 0 <= u < t ==> !RunFree(taken, tries[u], n)
    ensures r.None? ==> forall t :: 0 <= t < |tries| ==> !RunFree(taken, tries[t], n)
  {
    for t := 0 to |tries|
      invariant forall u :: 0 <= u < t ==> !RunFree(taken, tries[u], n)
    {
      var i := 0;
      while i < n && !taken[tries[t] + i]
        invariant i <= n && forall j :: tries[t] <= j < tries[t] + i ==> !taken[j]
      {
        i := i + 1;
      }
      if i == n { return Some(tries[t]); }
    }
    return None;
  }

  /** The stream once `k` outputs have been taken */
  function StateAt(s: R.State, k: nat): R.State {
    if k == 0 then s else R.Next(StateAt(s, k - 1)).1
  }

  /** The `k`th place drawn from `first` to `last` */
  function Place(s: R.State, k: nat, first: nat, last: nat): nat
    requires first <= last
  {
    first + R.Scaled(R.Next(StateAt(s, k)).0, last - first + 1)
  }

  /** The run found: the first of sixteen drawn places with room; if none has,
      the next from a seventeenth on; if there is none either, the lowest. */
  ghost predicate IsFound(s: R.State, taken: seq<bool>, first: nat, last: nat, n: nat, at: nat)
    requires first <= last
  {
    if exists t: nat :: t < 16 && RunFree(taken, Place(s, t, first, last), n) then
      exists t: nat :: t < 16 && at == Place(s, t, first, last)
                       && forall u: nat :: u < t ==> !RunFree(taken, Place(s, u, first, last), n)
    else if RoomIn(taken, Place(s, 16, first, last), last, n) then
      at >= Place(s, 16, first, last) && forall b: nat :: Place(s, 16, first, last) <= b < at ==> !RunFree(taken, b, n)
    else at >= first && forall b: nat :: first <= b < at ==> !RunFree(taken, b, n)
  }

  lemma DrawnIsFound(s: R.State, taken: seq<bool>, first: nat, last: nat, n: nat, tries: seq<nat>, at: nat)
    requires first <= last && |tries| >= 16 && forall t: nat :: t < 16 ==> tries[t] == Place(s, t, first, last)
    requires exists t :: 0 <= t < 16 && tries[t] == at && forall u :: 0 <= u < t ==> !RunFree(taken, tries[u], n)
    requires RunFree(taken, at, n)
    ensures IsFound(s, taken, first, last, n, at)
  {
    hide Place, RunFree, RoomIn;
    var t :| 0 <= t < 16 && tries[t] == at && forall u :: 0 <= u < t ==> !RunFree(taken, tries[u], n);
    assert RunFree(taken, Place(s, t, first, last), n);
    forall u: nat | u < t ensures !RunFree(taken, Place(s, u, first, last), n) { assert !RunFree(taken, tries[u], n); }
  }

  lemma FitIsFound(s: R.State, taken: seq<bool>, first: nat, last: nat, n: nat, tries: seq<nat>, at: nat)
    requires first <= last && |tries| == 17 && forall t: nat :: t < 17 ==> tries[t] == Place(s, t, first, last)
    requires forall t: nat :: t < 16 ==> !RunFree(taken, tries[t], n)
    requires if RoomIn(taken, tries[16], last, n) then
               at >= tries[16] && forall b: nat :: tries[16] <= b < at ==> !RunFree(taken, b, n)
             else at >= first && forall b: nat :: first <= b < at ==> !RunFree(taken, b, n)
    ensures IsFound(s, taken, first, last, n, at)
  {
    hide Place, RunFree, RoomIn;
    forall t: nat | t < 16 ensures !RunFree(taken, Place(s, t, first, last), n) { assert !RunFree(taken, tries[t], n); }
  }

  /** The first run from `start` on, else the first of all */
  method FirstAround(taken: seq<bool>, first: nat, last: nat, start: nat, n: nat) returns (r: Option<nat>)
    requires first <= start <= last && last + n <= |taken| && n > 0
    ensures r.Some? <==> RoomIn(taken, first, last, n)
    ensures r.Some? ==> first <= r.value <= last && RunFree(taken, r.value, n)
    ensures r.Some? ==> if RoomIn(taken, start, last, n) then
                          r.value >= start && forall b: nat :: start <= b < r.value ==> !RunFree(taken, b, n)
                        else forall b: nat :: first <= b < r.value ==> !RunFree(taken, b, n)
  {
    r := FirstFit(taken, start, last, n);
    if r.None? {
      var stop := if start > 0 && start - 1 > first then start - 1 else first;
      r := FirstFit(taken, first, stop, n);
      if RoomIn(taken, first, last, n) {
        var at: nat :| first <= at <= last && at < |taken| && RunFree(taken, at, n);
        assert at < start;
      }
    }
  }

  /** Where `n` untaken slabs of a zone lie in a row: drawn places are tried
      first, then every place in turn from a drawn one around the zone. The
      draws decide which run is found, never whether. */
  method FindRun(rng0: R.State, taken: seq<bool>, first: nat, len: nat, n: nat)
    returns (r: Option<nat>, rng: R.State)
    requires first + len <= |taken| && n > 0
    ensures r.Some? <==> RoomIn(taken, first, first + len - n, n)
    ensures r.Some? ==> first <= r.value && r.value + n <= first + len && RunFree(taken, r.value, n)
    ensures len < n ==> rng == rng0
    ensures len >= n ==> rng == StateAt(rng0, 17)
    ensures r.Some? && len >= n ==> IsFound(rng0, taken, first, first + len - n, n, r.value)
  {
    hide R.Next, R.Scaled;
    rng := rng0;
    if len < n { return None, rng; }
    var last := len - n;
    var tries: seq<nat> := [];
    for t := 0 to 17
      invariant |tries| == t && forall j :: 0 <= j < t ==> first <= tries[j] <= first + last
      invariant rng == StateAt(rng0, t) && forall j :: 0 <= j < t ==> tries[j] == Place(rng0, j, first, first + last)
    {
      var x, next := R.Next(rng).0, R.Next(rng).1;
      R.ScaledBound(x, last + 1);
      tries, rng := tries + [first + R.Scaled(x, last + 1)], next;
    }
    var drawn := FindDrawn(taken, tries[..16], n);
    hide Place, IsFound;
    if drawn.Some? {
      assert RunFree(taken, drawn.value, n);
      DrawnIsFound(rng0, taken, first, first + last, n, tries[..16], drawn.value);
      return drawn, rng;
    }
    forall t: nat | t < 16 ensures !RunFree(taken, tries[t], n) { assert tries[..16][t] == tries[t]; }
    r := FirstAround(taken, first, first + last, tries[16], n);
    if r.Some? { FitIsFound(rng0, taken, first, first + last, n, tries, r.value); }
  }
}

/** PCT's choice of the next thread, and its bound on starvation. */
module SchedPct {
  import opened Wrappers
  import opened SchedTypes

  predicate Eligible(t: Thread, honourPauses: bool, now: nat) {
    t.state == Runnable && (honourPauses ==> t.pausedUntil <= now)
  }

  /** How long a thread has been passed over; the difference of two 64-bit
      clocks wraps, as it does at time 0 for a thread marked since 1. */
  function PassedFor(now: nat, since: nat): nat {
    if now >= since then now - since
    else if since - now <= 0x1_0000_0000_0000_0000 then 0x1_0000_0000_0000_0000 - (since - now) else 0
  }

  predicate Starved(t: Thread, honourPauses: bool, now: nat, bound: nat) {
    Eligible(t, honourPauses, now) && t.waitingSince != 0 && PassedFor(now, t.waitingSince) >= bound
  }

  /** Passed over longer, the lower id first */
  predicate Earlier(a: nat, i: nat, b: nat, j: nat) { a < b || (a == b && i < j) }

  predicate IsStarvedFirst(ts: seq<Thread>, honourPauses: bool, now: nat, bound: nat, c: nat) {
    && c < |ts| && Starved(ts[c], honourPauses, now, bound)
    && forall j {:trigger ts[j]} :: 0 <= j < |ts| && j != c && Starved(ts[j], honourPauses, now, bound) ==>
         Earlier(ts[c].waitingSince, c, ts[j].waitingSince, j)
  }

  predicate IsHighest(ts: seq<Thread>, honourPauses: bool, now: nat, c: nat) {
    && c < |ts| && Eligible(ts[c], honourPauses, now)
    && forall j {:trigger ts[j]} :: 0 <= j < |ts| && Eligible(ts[j], honourPauses, now) ==>
         ts[j].priority < ts[c].priority || (ts[j].priority == ts[c].priority && c <= j)
  }

  predicate AnyStarved(ts: seq<Thread>, honourPauses: bool, now: nat, bound: nat) {
    exists j :: 0 <= j < |ts| && Starved(ts[j], honourPauses, now, bound)
  }

  /** Starvation goes before priority. */
  predicate IsChoice(ts: seq<Thread>, honourPauses: bool, now: nat, bound: nat, c: nat) {
    if AnyStarved(ts, honourPauses, now, bound) then IsStarvedFirst(ts, honourPauses, now, bound, c)
    else IsHighest(ts, honourPauses, now, c)
  }

  method FindStarved(ts: seq<Thread>, honourPauses: bool, now: nat, bound: nat) returns (c: Option<nat>)
    ensures c.Some? ==> IsStarvedFirst(ts, honourPauses, now, bound, c.value)
    ensures c.None? ==> !AnyStarved(ts, honourPauses, now, bound)
  {
    c := None;
    for i := 0 to |ts|
      invariant c.None? ==> forall j :: 0 <= j < i ==> !Starved(ts[j], honourPauses, now, bound)
      invariant c.Some? ==> c.value < i && Starved(ts[c.value], honourPauses, now, bound)
      invariant c.Some? ==>
                  forall j {:trigger ts[j]} ::
                    0 <= j < i && j != c.value && Starved(ts[j], honourPauses, now, bound) ==>
                      Earlier(ts[c.value].waitingSince, c.value, ts[j].waitingSince, j)
    {
      if Starved(ts[i], honourPauses, now, bound) && (c.None? || ts[i].waitingSince < ts[c.value].waitingSince) {
        c := Some(i);
      }
    }
  }

  method FindHighest(ts: seq<Thread>, honourPauses: bool, now: nat) returns (c: nat)
    requires exists j :: 0 <= j < |ts| && Eligible(ts[j], honourPauses, now)
    ensures IsHighest(ts, honourPauses, now, c)
  {
    var best: Option<nat> := None;
    for i := 0 to |ts|
      invariant best.None? ==> forall j :: 0 <= j < i ==> !Eligible(ts[j], honourPauses, now)
      invariant best.Some? ==> best.value < i && Eligible(ts[best.value], honourPauses, now)
      invariant best.Some? ==>
                  forall j {:trigger ts[j]} :: 0 <= j < i && Eligible(ts[j], honourPauses, now) ==>
                    ts[j].priority < ts[best.value].priority
                      || (ts[j].priority == ts[best.value].priority && best.value <= j)
    {
      if Eligible(ts[i], honourPauses, now) && (best.None? || ts[i].priority > ts[best.value].priority) {
        best := Some(i);
      }
    }
    c := best.value;
  }

  /** The chosen thread waits no longer; every other runnable one, from now */
  function Marked(ts: seq<Thread>, c: nat, now: nat): (r: seq<Thread>)
    ensures |r| == |ts|
  {
    seq(|ts|, i requires 0 <= i < |ts| =>
      if i == c then ts[i].(waitingSince := 0)
      else if ts[i].state == Runnable && ts[i].waitingSince == 0 then ts[i].(waitingSince := Max(now, 1))
      else ts[i])
  }

  // ---- the starvation bound --------------------------------------------------------

  predicate AnyEligible(ts: seq<Thread>, now: nat) { exists j :: 0 <= j < |ts| && Eligible(ts[j], true, now) }

  /** One choice: the threads as it found them, when it was, and who it chose */
  datatype Turn = Turn(threads: seq<Thread>, now: nat, chosen: nat)

  /** Between choices threads come, go, block and wake; none is marked. */
  predicate Between(ts: seq<Thread>, us: seq<Thread>) {
    && |ts| <= |us| && (forall i {:trigger us[i]} :: 0 <= i < |ts| ==> us[i].waitingSince == ts[i].waitingSince)
    && (forall i {:trigger us[i]} :: |ts| <= i < |us| ==> us[i].waitingSince == 0)
  }

  lemma BetweenTrans(ts: seq<Thread>, us: seq<Thread>, vs: seq<Thread>)
    requires Between(ts, us) && Between(us, vs)
    ensures Between(ts, vs)
  {
    forall i | 0 <= i < |ts|
      ensures vs[i].waitingSince == ts[i].waitingSince
    {
      assert us[i].waitingSince == ts[i].waitingSince;
    }
    forall i | |ts| <= i < |vs| ensures vs[i].waitingSince == 0 {
      if i < |us| { assert us[i].waitingSince == 0; }
    }
  }

  /** A choice by priority and starvation alone; pauses count unless all who
      could run are paused. */
  ghost predicate GoodTurn(u: Turn, bound: nat) {
    IsChoice(u.threads, AnyEligible(u.threads, u.now), u.now, bound, u.chosen)
  }

  /** What a turn leaves behind */
  function Left(u: Turn): seq<Thread> { Marked(u.threads, u.chosen, u.now) }

  ghost predicate PctRun(ts: seq<Thread>, turns: seq<Turn>, bound: nat)
    decreases |turns|
  {
    turns == []
    || (Between(ts, turns[0].threads) && GoodTurn(turns[0], bound) && PctRun(Left(turns[0]), turns[1..], bound))
  }

  /** The marks as the last of the turns left them */
  function MarksAfter(ts: seq<Thread>, turns: seq<Turn>): seq<Thread> {
    if turns == [] then ts else Left(turns[|turns| - 1])
  }

  lemma {:induction false} OneMoreTurn(ts: seq<Thread>, turns: seq<Turn>, u: Turn, bound: nat)
    requires PctRun(ts, turns, bound) && Between(MarksAfter(ts, turns), u.threads) && GoodTurn(u, bound)
    ensures PctRun(ts, turns + [u], bound)
    decreases |turns|
  {
    hide GoodTurn, Between;
    if turns == [] {
      assert (turns + [u])[1..] == [];
    } else {
      assert (turns + [u])[1..] == turns[1..] + [u];
      OneMoreTurn(Left(turns[0]), turns[1..], u, bound);
    }
  }

  /** A run of choices seen from any of them on */
  lemma {:induction false} LaterTurns(ts: seq<Thread>, turns: seq<Turn>, k: nat, bound: nat)
    requires PctRun(ts, turns, bound) && k <= |turns|
    ensures PctRun(MarksAfter(ts, turns[..k]), turns[k..], bound)
    decreases k
  {
    hide GoodTurn, Between;
    if k == 0 {
      assert turns[0..] == turns;
    } else {
      LaterTurns(Left(turns[0]), turns[1..], k - 1, bound);
      assert turns[1..][k - 1..] == turns[k..];
      if k > 1 { assert turns[1..][..k - 1][k - 2] == turns[..k][k - 1]; }
    }
  }

  /** `t` could be chosen at every turn, was past the bound at the first, and
      the clock does not go back. */
  predicate StaysReady(turns: seq<Turn>, t: nat, since: nat, bound: nat) {
    && (forall k {:trigger turns[k]} :: 0 <= k < |turns| ==>
          t < |turns[k].threads| && Eligible(turns[k].threads[t], true, turns[k].now) && turns[k].now >= since + bound)
  }

  predicate IsAhead(ts: seq<Thread>, t: nat, u: nat)
    requires t < |ts| && u < |ts|
  {
    ts[u].waitingSince != 0 && Earlier(ts[u].waitingSince, u, ts[t].waitingSince, t)
  }

  function AheadFrom(ts: seq<Thread>, t: nat, u: nat): nat
    requires t < |ts| && u <= |ts|
    decreases |ts| - u
  {
    if u == |ts| then 0 else (if IsAhead(ts, t, u) then 1 else 0) + AheadFrom(ts, t, u + 1)
  }

  /** Threads ahead of `t`: passed over longer than it, ties by id */
  function Ahead(ts: seq<Thread>, t: nat): nat
    requires t < |ts|
  {
    AheadFrom(ts, t, 0)
  }

  lemma {:induction false} AheadShrinks(a: seq<Thread>, b: seq<Thread>, t: nat, u: nat, gone: int)
    requires t < |a| <= |b| && u <= |a|
    requires forall i :: u <= i < |a| && IsAhead(b, t, i) ==> IsAhead(a, t, i)
    requires forall i :: |a| <= i < |b| ==> !IsAhead(b, t, i)
    ensures AheadFrom(b, t, u) <= AheadFrom(a, t, u)
    ensures u <= gone < |a| && IsAhead(a, t, gone) && !IsAhead(b, t, gone) ==> AheadFrom(b, t, u) < AheadFrom(a, t, u)
    decreases |a| - u
  {
    if u < |a| {
      AheadShrinks(a, b, t, u + 1, gone);
    } else {
      NoneAhead(b, t, u);
    }
  }

  lemma {:induction false} NoneAhead(b: seq<Thread>, t: nat, u: nat)
    requires t < |b| && u <= |b| && forall i :: u <= i < |b| ==> !IsAhead(b, t, i)
    ensures AheadFrom(b, t, u) == 0
    decreases |b| - u
  {
    if u < |b| { NoneAhead(b, t, u + 1); }
  }

  /** A turn that does not choose `t` chooses one ahead of it, and puts nobody
      there. */
  lemma TurnGains(ts: seq<Thread>, turn: Turn, t: nat, bound: nat)
    requires t < |ts| && Between(ts, turn.threads) && GoodTurn(turn, bound)
    requires bound > 0 && ts[t].waitingSince != 0 && turn.now >= ts[t].waitingSince + bound
    requires Eligible(turn.threads[t], true, turn.now) && turn.chosen != t
    ensures var m := Marked(turn.threads, turn.chosen, turn.now);
            m == Left(turn) && |m| >= |ts| && m[t].waitingSince == ts[t].waitingSince && Ahead(m, t) < Ahead(ts, t)
  {
    var us, c := turn.threads, turn.chosen;
    var m := Marked(us, c, turn.now);
    assert Starved(us[t], true, turn.now, bound);
    assert IsStarvedFirst(us, true, turn.now, bound, c);
    assert c < |ts| by { assert us[c].waitingSince != 0; }
    forall i | 0 <= i < |ts| && IsAhead(m, t, i) ensures IsAhead(ts, t, i) {
      assert m[i].waitingSince == us[i].waitingSince || m[i].waitingSince == Max(turn.now, 1) || i == c;
    }
    assert IsAhead(ts, t, c) && !IsAhead(m, t, c);
    AheadShrinks(ts, m, t, 0, c);
  }

  /** A thread that stays runnable and has been passed over for the bound is
      chosen within one turn more than there are threads ahead of it. */
  lemma {:induction false} StarvationBound(ts: seq<Thread>, turns: seq<Turn>, t: nat, bound: nat)
    requires t < |ts| && bound > 0 && ts[t].waitingSince != 0
    requires PctRun(ts, turns, bound) && StaysReady(turns, t, ts[t].waitingSince, bound)
    requires |turns| > Ahead(ts, t)
    ensures exists k :: 0 <= k <= Ahead(ts, t) && turns[k].chosen == t
    decreases |turns|
  {
    var u := turns[0];
    if u.chosen != t {
      TurnGains(ts, u, t, bound);
      var m := Marked(u.threads, u.chosen, u.now);
      forall k | 0 <= k < |turns[1..]|
        ensures t < |turns[1..][k].threads| && Eligible(turns[1..][k].threads[t], true, turns[1..][k].now)
                && turns[1..][k].now >= m[t].waitingSince + bound
      {
        assert turns[1..][k] == turns[k + 1];
      }
      StarvationBound(m, turns[1..], t, bound);
      var k :| 0 <= k <= Ahead(m, t) && turns[1..][k].chosen == t;
      assert turns[k + 1].chosen == t;
    } else {
      assert turns[0].chosen == t;
    }
  }
}

/** Who may be chosen to run, and that a choice changes nothing else. */
module SchedChoice {
  import opened SchedTypes
  import opened SchedSpec
  import opened SchedPct
  import opened SchedTurn
  import NI = NetInv
  import L = NetLater
  import R = Rng

  function IsRunnable(): Thread -> bool { (t: Thread) => t.state == Runnable }
  function CanRun(honour: bool, now: nat): Thread -> bool { (t: Thread) => Eligible(t, honour, now) }

  function Candidates(ts: seq<Thread>, honour: bool, now: nat): nat { Count(ts, CanRun(honour, now)) }

  /** PCT's priorities: a demoted thread's is the number of a change point the
      clock has passed, every other's is above them all. */
  predicate RankedIn(ts: seq<Thread>, pct: bool, changeAt: seq<nat>, next: nat, demoted: set<nat>) {
    && |changeAt| < MAX_PCT_DEPTH && next <= |changeAt| && (!pct ==> changeAt == [])
    && (forall i :: i in demoted ==> i < |ts|)
    && (pct ==> forall i {:trigger ts[i]} :: 0 <= i < |ts| ==>
          if i in demoted then 1 <= ts[i].priority <= next else ts[i].priority > MAX_PCT_DEPTH)
  }

  /** A demoted thread ranks below every other that is not. */
  lemma DemotedRankBelow(ts: seq<Thread>, changeAt: seq<nat>, next: nat, demoted: set<nat>, i: nat, j: nat)
    requires RankedIn(ts, true, changeAt, next, demoted) && i < |ts| && j < |ts| && i in demoted && j !in demoted
    ensures ts[i].priority < ts[j].priority
  {
    assert ts[i].priority <= next && ts[j].priority > MAX_PCT_DEPTH;
  }

  lemma RankedStays(ts: seq<Thread>, us: seq<Thread>, pct: bool, changeAt: seq<nat>, next: nat, demoted: set<nat>)
    requires RankedIn(ts, pct, changeAt, next, demoted) && Carried(ts, us, pct)
    ensures RankedIn(us, pct, changeAt, next, demoted)
  {
    if pct {
      forall i | 0 <= i < |us|
        ensures if i in demoted then 1 <= us[i].priority <= next else us[i].priority > MAX_PCT_DEPTH
      {
        if i < |ts| {
          assert CarriedOne(ts[i], us[i])
            && (if i in demoted then 1 <= ts[i].priority <= next else ts[i].priority > MAX_PCT_DEPTH);
        }
      }
    }
  }

  lemma RankedSame(ts: seq<Thread>, us: seq<Thread>, pct: bool, changeAt: seq<nat>, next: nat, demoted: set<nat>)
    requires RankedIn(ts, pct, changeAt, next, demoted) && |us| == |ts|
    requires forall i {:trigger us[i]} :: 0 <= i < |ts| ==> us[i].priority == ts[i].priority
    ensures RankedIn(us, pct, changeAt, next, demoted)
  {
    if pct {
      forall i | 0 <= i < |us|
        ensures if i in demoted then 1 <= us[i].priority <= next else us[i].priority > MAX_PCT_DEPTH
      {
        assert us[i].priority == ts[i].priority;
      }
    }
  }

  /** A thread that may take the baton: runnable, of a process that is not
      dead, and unpaused if any runnable one is */
  predicate Pickable(s: Snap, r: nat) {
    && r < |s.threads| && s.threads[r].state == Runnable
    && s.threads[r].pid < |s.procs| && !Dead(s.procs[s.threads[r].pid])
    && ((exists j :: 0 <= j < |s.threads| && Eligible(s.threads[j], true, s.clock)) ==>
         s.threads[r].pausedUntil <= s.clock)
  }

  /** Only marks of the choice differ. */
  predicate OnlyMarks(ts: seq<Thread>, us: seq<Thread>) {
    |us| == |ts| && forall i {:trigger us[i]} :: 0 <= i < |ts| ==> MarksOnly(ts[i], us[i])
  }

  predicate MarksOnly(t: Thread, u: Thread) {
    u == t.(priority := u.priority, waitingSince := u.waitingSince, pausedUntil := u.pausedUntil)
  }

  /** ... but that one of those that could run does. */
  predicate OnlyRuns(ts: seq<Thread>, us: seq<Thread>, r: nat) {
    && |us| == |ts| && r < |ts| && ts[r].state == Runnable
    && forall i {:trigger us[i]} :: 0 <= i < |ts| ==>
         MarksOnly(if i == r then ts[i].(state := Running) else ts[i], us[i])
  }

  lemma MarksOk(a: Snap, b: Snap)
    requires Ok(a) && NoneRunning(a.threads) && NothingDue(a) && OnlyMarks(a.threads, b.threads)
      && b == a.(threads := b.threads)
    ensures Ok(b) && NoneRunning(b.threads) && NothingDue(b)
  {
    hide NI.Inv, L.Later, Chained;
    forall i | 0 <= i < |b.threads|
      ensures b.threads[i].pid < |b.procs| && (Dead(b.procs[b.threads[i].pid]) ==> b.threads[i].state == Exited)
      ensures b.threads[i].state != Running && DeadlineOf(b.threads[i]) == DeadlineOf(a.threads[i])
    {
      assert MarksOnly(a.threads[i], b.threads[i]) && a.threads[i].pid < |a.procs|;
    }
    assert NoneDue(b.threads, DeadlineOf, b.clock) by {
      forall i | 0 <= i < |b.threads| && DeadlineOf(b.threads[i]).Some?
        ensures DeadlineOf(b.threads[i]).value > b.clock
      {
        assert DeadlineOf(a.threads[i]).Some?;
      }
    }
  }

  /** The chosen candidate is one that may take the baton. */
  lemma Chosen(a: Snap, b: Snap, c: Snap, honour: bool, r: nat)
    requires Ok(a) && NoneRunning(a.threads) && NothingDue(a)
    requires OnlyMarks(a.threads, b.threads) && b == a.(threads := b.threads) && c == b.(threads := c.threads)
    requires r < |b.threads| == |c.threads| && Eligible(b.threads[r], honour, b.clock)
    requires c.threads == b.threads || c.threads == Marked(b.threads, r, b.clock)
    requires !honour ==> forall j :: 0 <= j < |b.threads| ==> !Eligible(b.threads[j], true, b.clock)
    ensures OnlyMarks(a.threads, c.threads) && Ok(c) && NoneRunning(c.threads) && NothingDue(c) && Pickable(c, r)
  {
    hide Ok, NothingDue, NoneRunning;
    forall i | 0 <= i < |c.threads|
      ensures MarksOnly(a.threads[i], c.threads[i]) && MarksOnly(b.threads[i], c.threads[i])
    {
      assert MarksOnly(a.threads[i], b.threads[i]);
    }
    MarksOk(a, c);
    OkThread(c, r);
    assert c.threads[r].pausedUntil == b.threads[r].pausedUntil;
    forall j | 0 <= j < |c.threads|
      ensures c.threads[j].pausedUntil == b.threads[j].pausedUntil && c.threads[j].state == b.threads[j].state
    {
    }
  }

  lemma OkThread(s: Snap, r: nat)
    requires Ok(s) && r < |s.threads|
    ensures s.threads[r].pid < |s.procs| && (s.threads[r].state != Exited ==> !Dead(s.procs[s.threads[r].pid]))
  {
  }

  lemma CandidatesCount(ts: seq<Thread>, runnable: nat, now: nat)
    requires runnable == Count(ts, IsRunnable())
    ensures Candidates(ts, false, now) == runnable
    ensures Candidates(ts, true, now) == 0 <==> forall j :: 0 <= j < |ts| ==> !Eligible(ts[j], true, now)
  {
    CountZero(ts, CanRun(true, now));
    CountEqual(ts, ts, IsRunnable(), CanRun(false, now));
  }

  lemma SameCandidates(ts: seq<Thread>, us: seq<Thread>, now: nat)
    requires |us| == |ts| && forall i {:trigger us[i]} :: 0 <= i < |ts| ==> us[i] == ts[i].(priority := us[i].priority)
    ensures Candidates(us, true, now) == Candidates(ts, true, now)
      && Candidates(us, false, now) == Candidates(ts, false, now)
    ensures OnlyMarks(ts, us) && forall j :: 0 <= j < |ts| ==> Eligible(us[j], true, now) == Eligible(ts[j], true, now)
  {
    forall i | 0 <= i < |us| ensures MarksOnly(ts[i], us[i]) && CanRun(true, now)(us[i]) == CanRun(true, now)(ts[i])
                                     && CanRun(false, now)(us[i]) == CanRun(false, now)(ts[i]) { }
    CountEqual(us, ts, CanRun(true, now), CanRun(true, now));
    CountEqual(us, ts, CanRun(false, now), CanRun(false, now));
  }

  lemma {:induction false} CountUpdate<T>(s: seq<T>, i: nat, v: T, p: T -> bool)
    requires i < |s|
    ensures Count(s[i := v], p) + (if p(s[i]) then 1 else 0) == Count(s, p) + (if p(v) then 1 else 0)
  {
    if i == 0 {
      assert s[0 := v][1..] == s[1..];
    } else {
      assert s[i := v][1..] == s[1..][i - 1 := v];
      CountUpdate(s[1..], i - 1, v, p);
    }
  }

  /** With the chosen one paused there is one candidate less. */
  lemma PausedCount(bs: seq<Thread>, cs: seq<Thread>, ds: seq<Thread>, r: nat, now: nat, unpaused: nat)
    requires r < |bs| == |cs| && (cs == bs || cs == Marked(bs, r, now)) && Eligible(bs[r], true, now)
    requires |ds| == |cs| && ds == cs[r := ds[r]] && ds[r] == cs[r].(pausedUntil := ds[r].pausedUntil)
      && ds[r].pausedUntil > now
    requires unpaused == Candidates(bs, true, now)
    ensures Candidates(ds, true, now) + 1 == unpaused
  {
    CountEqual(bs, cs, CanRun(true, now), CanRun(true, now));
    CountUpdate(cs, r, ds[r], CanRun(true, now));
  }

  lemma RunnableCount(ts: seq<Thread>)
    ensures Count(ts, IsRunnable()) == 0 <==> !AnyRunnable(ts)
  {
    CountZero(ts, IsRunnable());
  }

  lemma SlotsLeft(s: Snap)
    requires Ok(s)
    ensures FreeSlots(s) >= 0
  {
  }

  /** No thread that has left the schedule comes back. */
  predicate GoneStays(ts: seq<Thread>, us: seq<Thread>) {
    |ts| <= |us| && forall i {:trigger us[i]} :: 0 <= i < |ts| ==>
      us[i].pid == ts[i].pid && (ts[i].state == Exited ==> us[i].state == Exited)
  }

  lemma CarriedGone(ts: seq<Thread>, us: seq<Thread>, pct: bool)
    requires Carried(ts, us, pct)
    ensures GoneStays(ts, us)
  {
    forall i | 0 <= i < |ts| ensures us[i].pid == ts[i].pid && (ts[i].state == Exited ==> us[i].state == Exited) {
      assert CarriedOne(ts[i], us[i]);
    }
  }

  lemma MarkedGone(ts: seq<Thread>, us: seq<Thread>, vs: seq<Thread>)
    requires GoneStays(ts, us) && OnlyMarks(us, vs)
    ensures GoneStays(ts, vs)
  {
    forall i | 0 <= i < |ts| ensures vs[i].pid == ts[i].pid && (ts[i].state == Exited ==> vs[i].state == Exited) {
      assert MarksOnly(us[i], vs[i]) && us[i].pid == ts[i].pid;
    }
  }

  lemma GoneStaysTrans(ts: seq<Thread>, us: seq<Thread>, vs: seq<Thread>)
    requires GoneStays(ts, us) && GoneStays(us, vs)
    ensures GoneStays(ts, vs)
  {
    forall i | 0 <= i < |ts| ensures vs[i].pid == ts[i].pid && (ts[i].state == Exited ==> vs[i].state == Exited) {
      assert us[i].pid == ts[i].pid;
    }
  }

  // ---- PCT's turns ------------------------------------------------------------------

  /** The choice of `c` among `us`, as PCT makes it, and what it leaves */
  ghost predicate ChoseFrom(us: seq<Thread>, vs: seq<Thread>, now: nat, bound: nat, c: nat) {
    GoodTurn(Turn(us, now, c), bound) && vs == Left(Turn(us, now, c))
  }

  /** Between two choices PCT's marks stay as the last one left them. */
  lemma CarriedIsBetween(ts: seq<Thread>, us: seq<Thread>, pct: bool)
    requires Carried(ts, us, pct)
    ensures Between(ts, us)
  {
    forall i | 0 <= i < |ts| ensures us[i].waitingSince == ts[i].waitingSince { assert CarriedOne(ts[i], us[i]); }
  }

  lemma MarksBetween(ts: seq<Thread>, us: seq<Thread>)
    requires |us| == |ts| && forall i {:trigger us[i]} :: 0 <= i < |ts| ==> us[i].waitingSince == ts[i].waitingSince
    ensures Between(ts, us)
  {
  }

  // ---- choices by lot -----------------------------------------------------------------

  function Waits(honour: bool, now: nat): Thread -> bool {
    (t: Thread) => t.state == Runnable && (!honour || t.pausedUntil <= now)
  }

  /** `c` is drawn: of the threads that can run there are as many in front of
      it as the stream's next output comes to, scaled to how many there are. */
  predicate Drawn(ts: seq<Thread>, honour: bool, now: nat, rng: R.State, c: nat) {
    && c < |ts| && Waits(honour, now)(ts[c])
    && Count(ts[..c], Waits(honour, now)) == R.Scaled(R.Next(rng).0, Count(ts, Waits(honour, now)))
  }

  /** ... pauses counting unless all that could run are paused */
  predicate ByLot(ts: seq<Thread>, now: nat, rng: R.State, c: nat) {
    Drawn(ts, exists j :: 0 <= j < |ts| && Waits(true, now)(ts[j]), now, rng, c)
  }

  /** A candidate found by counting is the one drawn. */
  lemma NthIsDrawn(ts: seq<Thread>, honour: bool, now: nat, rng: R.State, c: nat)
    requires c < |ts| && Eligible(ts[c], honour, now)
    requires Count(ts[..c], CanRun(honour, now)) == R.Scaled(R.Next(rng).0, Candidates(ts, honour, now))
    ensures Drawn(ts, honour, now, rng, c)
  {
    hide R.Scaled, R.Next;
    CountEqual(ts, ts, CanRun(honour, now), Waits(honour, now));
    CountEqual(ts[..c], ts[..c], CanRun(honour, now), Waits(honour, now));
  }

  lemma DrawnByLot(ts: seq<Thread>, now: nat, rng: R.State, c: nat, unpaused: bool)
    requires Drawn(ts, unpaused, now, rng, c) && (unpaused <==> Candidates(ts, true, now) > 0)
    ensures ByLot(ts, now, rng, c)
  {
    CountEqual(ts, ts, CanRun(true, now), Waits(true, now));
    CountZero(ts, Waits(true, now));
    hide Drawn;
  }
}

/** Passing the baton, processes that are gone, and what the baton's holder
    does to the tables. */
module SchedHands {
  import opened Wrappers
  import opened SchedTypes
  import opened SchedSpec
  import opened SchedFaults
  import opened SchedPct
  import opened SchedTurn
  import opened SchedChoice
  import CondVars
  import NI = NetInv
  import L = NetLater

  /** PCT's change points, how many have passed, and whom they dropped */
  datatype Ranks = Ranks(changeAt: seq<nat>, next: nat, demoted: set<nat>)

  ghost predicate RanksOk(s: Snap, k: Ranks) { RankedIn(s.threads, s.pct, k.changeAt, k.next, k.demoted) }

  /** What holds whenever somebody has the baton, or nobody can run */
  ghost predicate Held(s: Snap, current: nat, k: Ranks) { Ok(s) && OneRunning(s.threads, current) && RanksOk(s, k) }

  lemma HeldOk(s: Snap, current: nat, k: Ranks)
    requires Held(s, current, k)
    ensures Ok(s) && OneRunning(s.threads, current) && RanksOk(s, k)
    ensures Tables(s) && NI.Inv(s.net) && |s.bills| == |s.procs| && L.OnTime(s.net, s.net)
  {
    hide OneRunning, RanksOk, NI.Inv, ThreadsOk, ProcsOk;
  }

  /** Nobody comes back, and PCT's marks are as they were. */
  ghost predicate Steady(ts: seq<Thread>, us: seq<Thread>) { GoneStays(ts, us) && Between(ts, us) }

  lemma SteadyRefl(ts: seq<Thread>)
    ensures Steady(ts, ts)
  {
  }

  // ---- hand-offs ------------------------------------------------------------------------

  /** What a hand-off comes to. Hangs: the call does not return. */
  datatype Handoff = Idle | Stay | Switch(to: nat) | Hangs

  /** Who has the baton after a hand-off by `me` */
  ghost predicate Handed(h: Handoff, me: Option<nat>, s: Snap, current: nat) {
    match h
    case Idle => NoneRunning(s.threads) && (!AnyLeft(s.threads) || (!AnyRunnable(s.threads) && NothingPending(s)))
    case Stay => me == Some(current) && HasBaton(s, current)
    case Switch(to) => to == current && me != Some(to) && HasBaton(s, current)
    case Hangs => false
  }

  /** It runs, and its process is not dead. */
  predicate HasBaton(s: Snap, i: nat) {
    i < |s.threads| && s.threads[i].state == Running && s.threads[i].pid < |s.procs| && !Dead(s.procs[s.threads[i].pid])
  }

  lemma RunningOk(a: Snap, b: Snap, next: nat, k: Ranks)
    requires Ok(a) && NoneRunning(a.threads) && Pickable(a, next) && RanksOk(a, k) && NothingDue(a)
    requires b == a.(threads := a.threads[next := a.threads[next].(state := Running)])
    ensures Held(b, next, k) && HasBaton(b, next) && Steady(a.threads, b.threads) && NothingDue(b)
  {
    hide NI.Inv, L.Later, Chained;
    RankedSame(a.threads, b.threads, a.pct, k.changeAt, k.next, k.demoted);
    forall i | 0 <= i < |b.threads|
      ensures b.threads[i].pid < |b.procs| && (Dead(b.procs[b.threads[i].pid]) ==> b.threads[i].state == Exited)
    {
      assert a.threads[i].pid < |a.procs|;
    }
  }

  /** The holder gives the baton up: it becomes runnable or blocked, or leaves;
      a thread that has already left can only leave. */
  predicate Yields(ts: seq<Thread>, current: nat, from: (nat, TState, nat)) {
    && from.0 == current < |ts| && from.1 != Running
    && (ts[current].state == Running || ts[current].state == Blocked || from.1 == Exited)
    && (from.1 == Blocked ==> ts[current].state != Exited) && (from.1 == Runnable ==> ts[current].state != Exited)
  }

  function Recorded(ts: seq<Thread>, from: Option<(nat, TState, nat)>): seq<Thread> {
    if from.Some? && from.value.0 < |ts|
    then ts[from.value.0 := ts[from.value.0].(state := from.value.1, key := from.value.2)] else ts
  }

  lemma RecordedOk(a: Snap, b: Snap, current: nat, from: Option<(nat, TState, nat)>, k: Ranks)
    requires Held(a, current, k)
    requires from.None? ==> NoneRunning(a.threads)
    requires from.Some? ==> Yields(a.threads, current, from.value)
    requires b == a.(threads := Recorded(a.threads, from), clock := b.clock)
    ensures Tables(b) && NoneRunning(b.threads) && Steady(a.threads, b.threads) && RanksOk(b, k)
  {
    hide NI.Inv, L.Later, Chained;
    RankedSame(a.threads, b.threads, a.pct, k.changeAt, k.next, k.demoted);
    forall i | 0 <= i < |b.threads|
      ensures b.threads[i].pid < |b.procs| && (Dead(b.procs[b.threads[i].pid]) ==> b.threads[i].state == Exited)
      ensures b.threads[i].state != Running && b.threads[i].pid == a.threads[i].pid
      ensures a.threads[i].state == Exited ==> b.threads[i].state == Exited
    {
      assert a.threads[i].pid < |a.procs|;
    }
  }

  // ---- a process that is gone ---------------------------------------------------------------

  /** The run once the process is gone, and before it. Only a process nobody
      had killed is mourned now, and may have another life. */
  ghost predicate Buried(a: Snap, b: Snap, pid: nat, status: int) {
    && pid < |a.procs| <= |b.procs| && b.procs[pid].state == Gone && ProcOnward(a.procs[pid], b.procs[pid])
    && (a.stopped ==> b.procs[pid].replacedBy == a.procs[pid].replacedBy)
    && b.clock == a.clock && b.stopAt == a.stopAt && b.stopped == a.stopped && b.pct == a.pct
    && |a.threads| <= |b.threads| && NewThreads(b.threads, |a.threads|, b.clock, b.pct)
    && |b.procs| == |a.procs| + (if Revives(a, pid, status) then 1 else 0)
    && |b.threads| == |a.threads| + (if Revives(a, pid, status) then 1 else 0)
    && (Revives(a, pid, status) ==> Asleep(b.threads[|a.threads|], b.procs[|a.procs|], |a.procs|, b.clock))
    && (forall i {:trigger b.threads[i]} :: 0 <= i < |a.threads| ==>
          b.threads[i] == if a.procs[pid].killed then Retire(pid)(a.threads[i])
                          else Mourn(a.threads[i], pid, a.procs[pid].parent))
    && (forall i {:trigger b.procs[i]} :: 0 <= i < |a.procs| && i != pid ==> Bystander(a.procs[i], b.procs[i]))
    && (var gone := Ceased(a.procs[pid], status, a.clock);
        if a.procs[pid].killed then b.procs == a.procs[pid := gone] else Bereft(a, b, pid, gone))
  }

  predicate Revives(s: Snap, pid: nat, status: int)
    requires pid < |s.procs|
  {
    !s.procs[pid].killed && s.procs[pid].replacedBy.None? && RestartDue(s.procs[pid], status, s.stopped) && HasRoom(s)
  }

  /** A process killed before: only its state differs now. */
  lemma GoneOk(a: Snap, b: Snap, pid: nat, status: int)
    requires Tables(a) && pid < |a.procs| == |b.procs| && a.procs[pid].killed
    requires b == a.(procs := b.procs, threads := b.threads) && b.threads == Each(a.threads, Retire(pid))
    requires forall i {:trigger b.procs[i]} :: 0 <= i < |a.procs| && i != pid ==> b.procs[i] == a.procs[i]
    requires b.procs[pid] == Ceased(a.procs[pid], status, a.clock)
    ensures Tables(b) && Buried(a, b, pid, status)
  {
    hide NI.Inv, Chained;
    forall i | 0 <= i < |b.procs| ensures ProcOk(b.procs[i], |b.procs|) && LedgerSame(a.procs[i], b.procs[i]) {
      assert ProcOk(a.procs[i], |a.procs|);
    }
    forall i | 0 <= i < |b.threads|
      ensures b.threads[i].pid < |b.procs| && (Dead(b.procs[b.threads[i].pid]) ==> b.threads[i].state == Exited)
    {
      assert a.threads[i].pid < |a.procs|;
    }
    ChainedSame(a.procs, b.procs, a.bills);
  }

  lemma ThenBuried(a: Snap, b: Snap, c: Snap, pid: nat, status: int)
    requires Mourned(a, b, pid) && b.procs[pid].state == Gone && !a.procs[pid].killed
    requires b.procs[pid].shutDown == a.procs[pid].shutDown
    requires if b.procs[pid].replacedBy.None? && RestartDue(b.procs[pid], status, b.stopped) && HasRoom(b)
             then Reborn(b, c, pid) else c == b
    requires Bereft(a, c, pid, Ceased(a.procs[pid], status, a.clock))
    ensures Buried(a, c, pid, status)
  {
    hide Mourn, Asleep, Succeeds, Bereft;
    forall i | 0 <= i < |a.threads| ensures c.threads[i] == b.threads[i] {
      if c != b { assert c.threads[i] == c.threads[..|b.threads|][i]; }
    }
    forall i | 0 <= i < |a.procs| && i != pid
      ensures Bystander(a.procs[i], c.procs[i])
    {
      assert c.procs[i] == b.procs[i];
    }
    if c != b { AsleepNew(b, c, pid); }
  }

  lemma BuriedOnward(a: Snap, b: Snap, pid: nat, status: int)
    requires Buried(a, b, pid, status)
    ensures Onward(a, b)
  {
    hide Asleep, NewThreads, Mourn;
    forall i | 0 <= i < |a.procs|
      ensures ProcOnward(a.procs[i], b.procs[i]) && (a.stopped ==> b.procs[i].replacedBy == a.procs[i].replacedBy)
    {
      if i != pid { assert Bystander(a.procs[i], b.procs[i]); }
    }
  }

  lemma AsleepNew(a: Snap, b: Snap, victim: nat)
    requires Reborn(a, b, victim)
    ensures NewThreads(b.threads, |a.threads|, b.clock, b.pct)
  {
  }

  lemma BuriedOk(a: Snap, b: Snap, pid: nat, status: int, current: nat, k: Ranks)
    requires Held(a, current, k) && Tables(b) && Buried(a, b, pid, status) && L.OnTime(a.net, b.net)
    ensures Held(b, current, k) && Steady(a.threads, b.threads)
    ensures |a.threads| <= current < |b.threads| ==> b.threads[current].pid != pid
    ensures current < |a.threads| ==> b.threads[current].pid == a.threads[current].pid
    ensures forall i {:trigger b.threads[i]} :: 0 <= i < |b.threads| && b.threads[i].pid == pid ==>
      b.threads[i].state == Exited
  {
    hide NI.Inv, Chained, RankedIn, Asleep, RestartDue;
    assert Carried(a.threads, b.threads, a.pct) by {
      forall i | 0 <= i < |a.threads| ensures CarriedOne(a.threads[i], b.threads[i]) { }
    }
    if |b.threads| > |a.threads| { AsleepPid(b.threads[|a.threads|], b.procs[|a.procs|], |a.procs|, b.clock); }
    RankedStays(a.threads, b.threads, a.pct, k.changeAt, k.next, k.demoted);
    CarriedGone(a.threads, b.threads, a.pct);
    CarriedIsBetween(a.threads, b.threads, a.pct);
    forall i | 0 <= i < |b.threads| && b.threads[i].state == Running ensures i == current {
      assert i < |a.threads| ==> a.threads[i].state == Running;
    }
  }

  // ---- what the holder does --------------------------------------------------------------

  /** What a read of the clock costs */
  const PER_READ_NS: nat := 1000

  /** Woken, or told something: what the holder may do to a thread */
  predicate Nudged(t: Thread, u: Thread) {
    && u.pid == t.pid && u.priority == t.priority && u.waitingSince == t.waitingSince
    && (u.state == t.state || (t.state == Blocked && u.state == Runnable))
  }

  predicate AllNudged(ts: seq<Thread>, us: seq<Thread>) {
    |us| == |ts| && forall i {:trigger us[i]} :: 0 <= i < |ts| ==> Nudged(ts[i], us[i])
  }

  lemma WokenOk(a: Snap, b: Snap, current: nat, k: Ranks)
    requires Held(a, current, k)
    requires b == a.(threads := b.threads, net := b.net) && AllNudged(a.threads, b.threads)
    requires NI.Inv(b.net) && L.OnTime(a.net, b.net)
    ensures Held(b, current, k) && Steady(a.threads, b.threads)
  {
    hide NI.Inv, L.Later, Chained;
    RankedSame(a.threads, b.threads, a.pct, k.changeAt, k.next, k.demoted);
    forall i | 0 <= i < |b.threads|
      ensures b.threads[i].pid < |b.procs| && (Dead(b.procs[b.threads[i].pid]) ==> b.threads[i].state == Exited)
      ensures b.threads[i].state == Running ==> i == current
      ensures b.threads[i].pid == a.threads[i].pid && (a.threads[i].state == Exited ==> b.threads[i].state == Exited)
      ensures b.threads[i].waitingSince == a.threads[i].waitingSince
    {
      assert Nudged(a.threads[i], b.threads[i]) && a.threads[i].pid < |a.procs|;
    }
  }

  /** A process record changes in what neither the ledger nor the faults read. */
  predicate Retouched(p: Proc, q: Proc) {
    q == p.(state := q.state, alarmAt := q.alarmAt, alarmInterval := q.alarmInterval, sigPending := q.sigPending,
            childDeaths := q.childDeaths, unsettled := q.unsettled)
    && (q.state == p.state || (p.state == Starting && q.state == Attached))
  }

  lemma RetouchedOk(a: Snap, b: Snap, pid: nat, current: nat, k: Ranks)
    requires Held(a, current, k)
    requires pid < |a.procs| == |b.procs| && b == a.(procs := a.procs[pid := b.procs[pid]])
    requires Retouched(a.procs[pid], b.procs[pid])
    ensures Held(b, current, k) && Onward(a, b)
  {
    hide NI.Inv, L.Later, Chained, RankedIn;
    forall i | 0 <= i < |b.procs| ensures ProcOk(b.procs[i], |b.procs|) && LedgerSame(a.procs[i], b.procs[i]) {
      assert ProcOk(a.procs[i], |a.procs|);
    }
    ChainedSame(a.procs, b.procs, a.bills);
  }

  lemma CondWoken(ts: seq<Thread>, us: seq<Thread>, pid: nat, c: nat, all: bool)
    requires CondVars.Woken(ts, us, pid, c, all)
    ensures AllNudged(ts, us)
  {
  }

  /** Nobody has left and nobody new runs. */
  lemma ReadOk(a: Snap, b: Snap, c: Snap, current: nat, k: Ranks)
    requires Held(a, current, k)
    requires b == a.(clock := b.clock) && Moved(b, c)
    ensures Held(c, current, k) && Steady(a.threads, c.threads)
  {
    hide NI.Inv, L.Later, Chained, StaleNet;
    RankedSame(a.threads, c.threads, a.pct, k.changeAt, k.next, k.demoted);
    forall i | 0 <= i < |c.threads|
      ensures c.threads[i].pid < |c.procs| && (Dead(c.procs[c.threads[i].pid]) ==> c.threads[i].state == Exited)
      ensures c.threads[i].state == Running ==> i == current
      ensures c.threads[i].pid == a.threads[i].pid && (a.threads[i].state == Exited ==> c.threads[i].state == Exited)
      ensures c.threads[i].waitingSince == a.threads[i].waitingSince
    {
      assert a.threads[i].pid < |a.procs|;
    }
  }

  lemma KilledOk(a: Snap, b: Snap, target: nat, current: nat, k: Ranks)
    requires Held(a, current, k)
    requires Tables(b) && Death(a, b, target) && L.OnTime(a.net, b.net) && !Dead(a.procs[target])
    ensures Held(b, current, k) && Steady(a.threads, b.threads) && Onward(a, b)
  {
    hide NI.Inv, Chained, RankedIn, Asleep, Recurs;
    assert Carried(a.threads, b.threads, a.pct) by {
      forall i | 0 <= i < |a.threads| ensures CarriedOne(a.threads[i], b.threads[i]) {
        assert b.threads[i] == Mourn(a.threads[i], target, a.procs[target].parent);
      }
    }
    RankedStays(a.threads, b.threads, a.pct, k.changeAt, k.next, k.demoted);
    CarriedGone(a.threads, b.threads, a.pct);
    CarriedIsBetween(a.threads, b.threads, a.pct);
    DeathOnward(a, b, target);
    forall i | 0 <= i < |b.threads| && b.threads[i].state == Running ensures i == current {
      if i < |a.threads| { assert b.threads[i] == Mourn(a.threads[i], target, a.procs[target].parent); }
    }
  }

  /** A process and its main thread, both new */
  lemma SpawnedOk(a: Snap, b: Snap, p: Proc, t: Thread, bill: Bill, current: nat, k: Ranks)
    requires Held(a, current, k)
    requires b == a.(procs := a.procs + [p], threads := a.threads + [t], bills := a.bills + [bill])
    requires |a.procs| < MAX_PROCS && |a.threads| < MAX_THREADS && ProcOk(p, |a.procs| + 1)
    requires p.replacedBy.None? && Balanced(p.faults, bill) && !Dead(p)
    requires t.pid == |a.procs| && t.state == Runnable && t.waitingSince == 0 && (a.pct ==> t.priority > MAX_PCT_DEPTH)
    ensures Held(b, current, k) && Steady(a.threads, b.threads) && Onward(a, b)
  {
    hide NI.Inv, Chained, RankedIn, L.Later;
    forall i | 0 <= i < |b.procs| ensures ProcOk(b.procs[i], |b.procs|) {
      if i < |a.procs| { assert ProcOk(a.procs[i], |a.procs|); }
    }
    NewThreadOk(a, t, current, k);
    SpawnedChained(a.procs, a.bills, p, bill);
  }

  lemma SpawnedChained(ps: seq<Proc>, bills: seq<Bill>, p: Proc, bill: Bill)
    requires Chained(ps, bills) && p.replacedBy.None? && Balanced(p.faults, bill)
    ensures Chained(ps + [p], bills + [bill])
  {
    var qs := ps + [p];
    forall i | 0 <= i < |qs| && qs[i].replacedBy.Some?
      ensures i < qs[i].replacedBy.value < |qs| && Succeeds(qs[i], qs[qs[i].replacedBy.value])
              && Granted(qs[i].faults, (bills + [bill])[qs[i].replacedBy.value])
    {
      assert qs[i] == ps[i] && Succeeds(ps[i], ps[ps[i].replacedBy.value]);
    }
  }

  lemma NewThreadOk(a: Snap, t: Thread, current: nat, k: Ranks)
    requires OneRunning(a.threads, current) && RanksOk(a, k)
    requires t.state == Runnable && t.waitingSince == 0 && (a.pct ==> t.priority > MAX_PCT_DEPTH)
    ensures OneRunning(a.threads + [t], current) && RanksOk(a.(threads := a.threads + [t]), k)
    ensures Steady(a.threads, a.threads + [t])
  {
    var us := a.threads + [t];
    if a.pct {
      forall i | 0 <= i < |us|
        ensures if i in k.demoted then 1 <= us[i].priority <= k.next else us[i].priority > MAX_PCT_DEPTH
      {
        if i < |a.threads| { assert us[i] == a.threads[i]; }
      }
    }
  }

  lemma AddedOk(a: Snap, b: Snap, t: Thread, current: nat, k: Ranks)
    requires Held(a, current, k)
    requires b == a.(threads := a.threads + [t]) && |a.threads| < MAX_THREADS && t.pid < |a.procs|
      && !Dead(a.procs[t.pid])
    requires t.state == Runnable && t.waitingSince == 0 && (a.pct ==> t.priority > MAX_PCT_DEPTH)
    ensures Held(b, current, k) && Steady(a.threads, b.threads)
  {
    hide NI.Inv, Chained, RankedIn, L.Later;
    NewThreadOk(a, t, current, k);
  }

  // ---- change points in order -----------------------------------------------------------------

  predicate IsAscending(r: seq<nat>) { forall i, j :: 0 <= i < j < |r| ==> r[i] <= r[j] }

  lemma InsertedAscends(s: seq<nat>, at: nat, x: nat)
    requires IsAscending(s) && at <= |s| && (at > 0 ==> s[at - 1] <= x) && (at < |s| ==> x <= s[at])
    ensures IsAscending(s[..at] + [x] + s[at..])
  {
    var r := s[..at] + [x] + s[at..];
    forall i, j | 0 <= i < j < |r| ensures r[i] <= r[j] {
      assert i != at ==> r[i] == s[if i < at then i else i - 1];
      assert j != at ==> r[j] == s[if j < at then j else j - 1];
    }
  }

  method Insert(s: seq<nat>, x: nat) returns (r: seq<nat>)
    requires IsAscending(s)
    ensures IsAscending(r) && |r| == |s| + 1 && multiset(r) == multiset(s) + multiset{x}
  {
    hide IsAscending;
    var at: nat := |s|;
    while at > 0 && s[at - 1] > x
      invariant at <= |s| && (at < |s| ==> s[at] > x)
    {
      at := at - 1;
    }
    InsertedAscends(s, at, x);
    r := s[..at] + [x] + s[at..];
    assert s == s[..at] + s[at..];
  }

  /** The same numbers in ascending order */
  method Ascending(s: seq<nat>) returns (r: seq<nat>)
    ensures |r| == |s| && multiset(r) == multiset(s) && IsAscending(r)
  {
    hide IsAscending;
    r := [];
    assert IsAscending(r) by { NothingAscends(); }
    for k := 0 to |s|
      invariant |r| == k && multiset(r) == multiset(s[..k]) && IsAscending(r)
    {
      assert s[..k + 1] == s[..k] + [s[k]];
      r := Insert(r, s[k]);
    }
    assert s[..|s|] == s;
  }

  lemma NothingAscends()
    ensures IsAscending([])
  {
  }
}

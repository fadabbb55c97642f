/** What deaths and signals do to the scheduler's tables, one by one and all
    those of one moment together. */
module SchedFaults {
  import opened Wrappers
  import opened SchedTypes
  import opened SchedSpec
  import NI = NetInv

  /** A time drawn from a range that begins at `starts`, never 0 */
  predicate DrawnIn(at: nat, starts: nat, lo: nat, hi: nat) { at >= 1 && starts + lo <= at <= Max(starts + hi, 1) }

  /** The tables, whatever the clock says */
  ghost predicate Tables(s: Snap) {
    ThreadsOk(s.threads, s.procs) && ProcsOk(s.procs) && Chained(s.procs, s.bills) && NI.Inv(s.net)
  }

  lemma TablesNet(s: Snap)
    requires Tables(s)
    ensures NI.Inv(s.net) && |s.bills| == |s.procs|
  {
  }

  lemma ParentIn(a: Snap, pid: nat)
    requires Tables(a) && pid < |a.procs|
    ensures a.procs[pid].parent.Some? ==> a.procs[pid].parent.value < |a.procs|
  {
    assert ProcOk(a.procs[pid], |a.procs|);
  }

  // ---- one death ---------------------------------------------------------------

  /** The life that takes the place of `old`, in a slot of its own */
  predicate Reborn(a: Snap, b: Snap, victim: nat) {
    && victim < |a.procs| && |b.procs| == |a.procs| + 1 && |b.bills| == |a.bills| + 1
    && b == a.(procs := b.procs, threads := b.threads, bills := a.bills + [b.bills[|a.bills|]])
    && (forall i {:trigger b.procs[i]} :: 0 <= i < |a.procs| && i != victim ==> b.procs[i] == a.procs[i])
    && b.procs[|a.procs|].faults
       == a.procs[victim].faults.(restartsLeft := b.procs[|a.procs|].faults.restartsLeft)
    && b.bills[|a.bills|] == Bill(a.procs[victim].faults.crashesLeft, 0, a.procs[victim].faults.shutdownsLeft, 0)
    && b.procs[victim] == a.procs[victim].(replacedBy := Some(|a.procs|))
    && Succeeds(a.procs[victim], b.procs[|a.procs|])
    && |b.threads| == |a.threads| + 1 && b.threads[..|a.threads|] == a.threads
    && (var t := b.threads[|a.threads|];
        && Asleep(t, b.procs[|a.procs|], |a.procs|, b.clock)
        && t.waitingSince == 0 && t.pausedUntil == 0 && (b.pct ==> t.priority > MAX_PCT_DEPTH))
  }

  lemma DueFaults(a: Snap, victim: nat, status: int)
    requires ProcsOk(a.procs) && victim < |a.procs| && RestartDue(a.procs[victim], status, a.stopped)
    ensures FaultsOk(a.procs[victim].faults) && a.procs[victim].faults.restartsLeft > 0
    ensures a.procs[victim].spec.Some?
  {
    assert ProcOk(a.procs[victim], |a.procs|);
  }

  /** The run once `victim` is dead and mourned, its restart still to come */
  predicate Mourned(a: Snap, b: Snap, victim: nat) {
    && victim < |a.procs| && |b.procs| == |a.procs| && |b.threads| == |a.threads|
    && b == a.(procs := b.procs, threads := b.threads, net := b.net)
    && (forall i {:trigger b.procs[i]} :: 0 <= i < |a.procs| && i != victim ==> Bystander(a.procs[i], b.procs[i]))
    && Ended(a.procs[victim], b.procs[victim]) && b.procs[victim].replacedBy == a.procs[victim].replacedBy
    && (forall i {:trigger b.threads[i]} :: 0 <= i < |a.threads| ==>
          b.threads[i] == Mourn(a.threads[i], victim, a.procs[victim].parent))
  }

  lemma MournedTables(a: Snap, b: Snap, victim: nat)
    requires Tables(a) && Mourned(a, b, victim) && NI.Inv(b.net)
    ensures Tables(b)
  {
    hide NI.Inv, Chained;
    forall i | 0 <= i < |b.threads|
      ensures b.threads[i].pid < |b.procs| && (Dead(b.procs[b.threads[i].pid]) ==> b.threads[i].state == Exited)
    {
      assert a.threads[i].pid < |a.procs|;
      if a.threads[i].pid != victim { assert Bystander(a.procs[a.threads[i].pid], b.procs[a.threads[i].pid]); }
    }
    forall i | 0 <= i < |b.procs| ensures ProcOk(b.procs[i], |b.procs|) {
      assert ProcOk(a.procs[i], |a.procs|);
      if i != victim { assert Bystander(a.procs[i], b.procs[i]); }
    }
    MournedChained(a, b, victim);
  }

  lemma MournedChained(a: Snap, b: Snap, victim: nat)
    requires Chained(a.procs, a.bills) && Mourned(a, b, victim)
    ensures Chained(b.procs, b.bills)
  {
    forall i | 0 <= i < |b.procs|
      ensures b.procs[i].replacedBy == a.procs[i].replacedBy && b.procs[i].spec == a.procs[i].spec
              && b.procs[i].faults == a.procs[i].faults && b.procs[i].host == a.procs[i].host
              && (Dead(a.procs[i]) ==> Dead(b.procs[i]))
    {
      if i != victim { assert Bystander(a.procs[i], b.procs[i]); }
    }
    ChainedSame(a.procs, b.procs, a.bills);
  }

  /** What the ledger reads is the same, but that some may have died. */
  predicate LedgerSame(p: Proc, q: Proc) {
    q.replacedBy == p.replacedBy && q.spec == p.spec && q.faults == p.faults && q.host == p.host
      && (Dead(p) ==> Dead(q))
  }

  lemma ChainedSame(ps: seq<Proc>, qs: seq<Proc>, bills: seq<Bill>)
    requires Chained(ps, bills) && |qs| == |ps|
    requires forall i {:trigger qs[i]} :: 0 <= i < |ps| ==> LedgerSame(ps[i], qs[i])
    ensures Chained(qs, bills)
  {
    forall i | 0 <= i < |qs| && qs[i].replacedBy.Some?
      ensures i < qs[i].replacedBy.value < |qs| && Succeeds(qs[i], qs[qs[i].replacedBy.value])
              && Granted(qs[i].faults, bills[qs[i].replacedBy.value])
    {
      assert LedgerSame(ps[i], qs[i]) && Succeeds(ps[i], ps[ps[i].replacedBy.value]);
      assert LedgerSame(ps[ps[i].replacedBy.value], qs[ps[i].replacedBy.value]);
    }
    forall i, j | 0 <= i < j < |qs| && qs[i].replacedBy.Some? && qs[j].replacedBy.Some?
      ensures qs[i].replacedBy != qs[j].replacedBy
    {
      assert LedgerSame(ps[i], qs[i]) && LedgerSame(ps[j], qs[j]);
    }
  }

  lemma RebornTables(a: Snap, b: Snap, victim: nat)
    requires Tables(a) && Reborn(a, b, victim) && HasRoom(a) && a.procs[victim].replacedBy.None?
    requires ProcOk(b.procs[|a.procs|], |b.procs|)
    ensures Tables(b)
  {
    hide NI.Inv, Chained;
    forall i | 0 <= i < |b.threads|
      ensures b.threads[i].pid < |b.procs| && (Dead(b.procs[b.threads[i].pid]) ==> b.threads[i].state == Exited)
    {
      if i < |a.threads| { assert b.threads[i] == b.threads[..|a.threads|][i] == a.threads[i]; }
    }
    forall i | 0 <= i < |b.procs| ensures ProcOk(b.procs[i], |b.procs|) {
      if i < |a.procs| { assert ProcOk(a.procs[i], |a.procs|); }
    }
    RebornChained(a, b, victim);
  }

  lemma RebornChained(a: Snap, b: Snap, victim: nat)
    requires Chained(a.procs, a.bills) && Reborn(a, b, victim) && a.procs[victim].replacedBy.None?
    ensures Chained(b.procs, b.bills)
  {
    forall i | 0 <= i < |b.procs| && b.procs[i].replacedBy.Some?
      ensures i < b.procs[i].replacedBy.value < |b.procs| && Succeeds(b.procs[i], b.procs[b.procs[i].replacedBy.value])
    {
      if i != victim && i < |a.procs| {
        assert b.procs[i] == a.procs[i];
        assert Succeeds(a.procs[i], a.procs[a.procs[i].replacedBy.value]);
      }
    }
  }

  /** A restart is decided after the death as it would have been before. */
  lemma SameRecurs(a: Snap, b: Snap, victim: nat)
    requires Mourned(a, b, victim)
    ensures Recurs(b, victim) == Recurs(a, victim)
  {
  }

  lemma ThenReborn(a: Snap, b: Snap, c: Snap, victim: nat)
    requires Mourned(a, b, victim) && Condemned(a.procs[victim], b.procs[victim])
    requires if Recurs(b, victim) then Reborn(b, c, victim) else c == b
    ensures Death(a, c, victim)
  {
    SameRecurs(a, b, victim);
    forall i | 0 <= i < |a.threads| ensures c.threads[i] == Mourn(a.threads[i], victim, a.procs[victim].parent) {
      if c != b { assert c.threads[i] == c.threads[..|b.threads|][i]; }
    }
    forall i | 0 <= i < |a.procs| && i != victim ensures Bystander(a.procs[i], c.procs[i]) {
      assert c.procs[i] == b.procs[i];
    }
  }

  // ---- what was injected, and what is left ----------------------------------------

  lemma CrashCovered(b: Snap, pid: nat)
    requires ProcsOk(b.procs) && pid < |b.procs| && CrashOf(b.procs[pid]).Some?
    ensures b.procs[pid].faults.crashesLeft > 0 && !Dead(b.procs[pid]) && b.procs[pid].crashAt != 0
  {
    assert ProcOk(b.procs[pid], |b.procs|);
  }

  lemma ShutdownCovered(b: Snap, pid: nat)
    requires ProcsOk(b.procs) && pid < |b.procs| && b.procs[pid].shutdownAt != 0
    ensures b.procs[pid].faults.shutdownsLeft > 0
  {
    assert ProcOk(b.procs[pid], |b.procs|);
  }

  /** One process alone differs, in what is still to be injected into it. */
  predicate Billed(b: Snap, c: Snap, pid: nat) {
    && pid < |b.procs| == |b.bills| && |c.procs| == |b.procs|
    && c == b.(procs := c.procs, bills := b.bills[pid := b.bills[pid].(crashes := b.bills[pid].crashes + 1)])
    && (forall i {:trigger c.procs[i]} :: 0 <= i < |b.procs| && i != pid ==> c.procs[i] == b.procs[i])
    && c.procs[pid] == b.procs[pid].(faults := c.procs[pid].faults, crashAt := 0)
    && c.procs[pid].faults == b.procs[pid].faults.(crashesLeft := c.procs[pid].faults.crashesLeft)
    && c.procs[pid].faults.crashesLeft
       == (if b.procs[pid].faults.crashesLeft == NO_LIMIT then NO_LIMIT else b.procs[pid].faults.crashesLeft - 1)
  }

  lemma BilledOk(b: Snap, c: Snap, pid: nat)
    requires Tables(b) && Billed(b, c, pid) && !Dead(b.procs[pid])
    ensures Tables(c)
  {
    hide NI.Inv, Chained;
    forall i | 0 <= i < |c.procs| ensures ProcOk(c.procs[i], |c.procs|) { assert ProcOk(b.procs[i], |b.procs|); }
    forall i | 0 <= i < |c.threads|
      ensures c.threads[i].pid < |c.procs| && (Dead(c.procs[c.threads[i].pid]) ==> c.threads[i].state == Exited)
    {
      assert b.threads[i].pid < |b.procs|;
    }
    LedgerEntry(b.procs, b.bills, pid);
    LessLeftChained(b, c, pid);
  }

  lemma LedgerEntry(ps: seq<Proc>, bills: seq<Bill>, pid: nat)
    requires Chained(ps, bills) && pid < |ps|
    ensures |bills| == |ps| && Balanced(ps[pid].faults, bills[pid])
  {
  }

  /** What is left to inject into a live process may go down. */
  lemma LessLeftChained(b: Snap, c: Snap, pid: nat)
    requires Chained(b.procs, b.bills) && pid < |b.procs| == |c.procs| == |c.bills| && !Dead(b.procs[pid])
    requires forall i {:trigger c.procs[i]} :: 0 <= i < |b.procs| && i != pid ==> c.procs[i] == b.procs[i]
    requires forall i {:trigger c.bills[i]} :: 0 <= i < |b.procs| && i != pid ==> c.bills[i] == b.bills[i]
    requires var p, q := b.procs[pid], c.procs[pid];
             && q.replacedBy == p.replacedBy && q.spec == p.spec && q.host == p.host
             && q.faults.restartsLeft == p.faults.restartsLeft
             && q.faults.crashesLeft <= p.faults.crashesLeft && q.faults.shutdownsLeft <= p.faults.shutdownsLeft
             && Balanced(q.faults, c.bills[pid])
             && c.bills[pid].crashGrant == b.bills[pid].crashGrant && c.bills[pid].shutGrant == b.bills[pid].shutGrant
    ensures Chained(c.procs, c.bills)
  {
    forall i | 0 <= i < |c.procs| ensures Balanced(c.procs[i].faults, c.bills[i]) {
      assert Balanced(b.procs[i].faults, b.bills[i]);
    }
    forall i | 0 <= i < |c.procs| && c.procs[i].replacedBy.Some?
      ensures i < c.procs[i].replacedBy.value < |c.procs| && Succeeds(c.procs[i], c.procs[c.procs[i].replacedBy.value])
              && Granted(c.procs[i].faults, c.bills[c.procs[i].replacedBy.value])
    {
      assert Succeeds(b.procs[i], b.procs[b.procs[i].replacedBy.value]) && i != pid;
    }
    forall i, j | 0 <= i < j < |c.procs| && c.procs[i].replacedBy.Some? && c.procs[j].replacedBy.Some?
      ensures c.procs[i].replacedBy != c.procs[j].replacedBy
    {
      assert b.procs[i].replacedBy != b.procs[j].replacedBy;
    }
  }

  /** The shutdown signal has gone out, and the grace period runs. */
  predicate WarnedProc(p: Proc, q: Proc, now: nat) {
    && q == p.(faults := q.faults, shutdownAt := 0, killAt := now + Max(p.faults.grace, 1), shutDown := true,
               sigPending := q.sigPending, childDeaths := q.childDeaths, lastDeadChild := q.lastDeadChild)
    && p.faults.signal in q.sigPending
    && q.faults == p.faults.(shutdownsLeft := q.faults.shutdownsLeft)
    && q.faults.shutdownsLeft
       == (if p.faults.shutdownsLeft == NO_LIMIT || p.faults.shutdownsLeft == 0 then p.faults.shutdownsLeft
           else p.faults.shutdownsLeft - 1)
  }

  /** `pid` was sent its shutdown signal: its threads look, and so does whoever
      waits for a descriptor. */
  ghost predicate Warned(b: Snap, c: Snap, pid: nat) {
    && pid < |b.procs| == |b.bills| && |c.procs| == |b.procs| && |c.threads| == |b.threads|
    && c == b.(procs := c.procs, threads := c.threads,
               bills := b.bills[pid := b.bills[pid].(shutdowns := b.bills[pid].shutdowns + 1)])
    && (forall i {:trigger c.procs[i]} :: 0 <= i < |b.procs| && i != pid ==> c.procs[i] == b.procs[i])
    && WarnedProc(b.procs[pid], c.procs[pid], b.clock)
    && (forall i {:trigger c.threads[i]} :: 0 <= i < |b.threads| ==> c.threads[i] == Alerted(b.threads[i], pid))
  }

  function Alerted(t: Thread, pid: nat): Thread {
    if t.state == Blocked && ((t.pid == pid && t.key != RESTART_KEY) || t.key == IO_KEY) then t.(state := Runnable)
      else t
  }

  lemma WarnedOk(b: Snap, c: Snap, pid: nat)
    requires Tables(b) && Warned(b, c, pid) && !Dead(b.procs[pid]) && b.procs[pid].faults.shutdownsLeft > 0
    ensures Tables(c)
  {
    hide NI.Inv, Chained;
    forall i | 0 <= i < |c.procs| ensures ProcOk(c.procs[i], |c.procs|) { assert ProcOk(b.procs[i], |b.procs|); }
    forall i | 0 <= i < |c.threads|
      ensures c.threads[i].pid < |c.procs| && (Dead(c.procs[c.threads[i].pid]) ==> c.threads[i].state == Exited)
    {
      assert b.threads[i].pid < |b.procs|;
    }
    LedgerEntry(b.procs, b.bills, pid);
    LessLeftChained(b, c, pid);
  }

  // ---- all the faults of one moment ------------------------------------------------

  /** A crash is due at `now`, or the kill that ends a grace period. */
  predicate DiesNow(p: Proc, now: nat) {
    !Dead(p) && ((p.crashAt != 0 && p.crashAt <= now) || (p.killAt != 0 && p.killAt <= now))
  }

  /** Sent its shutdown signal at `now` */
  predicate WarnsNow(p: Proc, now: nat) {
    !Dead(p) && !DiesNow(p, now) && p.shutdownAt != 0 && p.shutdownAt <= now
  }

  /** What a life has left to be crashed once it is dead: one less if a crash
      killed it, unless there is no limit */
  function CrashesAfter(p: Proc, now: nat): nat {
    if p.crashAt != 0 && p.crashAt <= now && p.faults.crashesLeft != NO_LIMIT && p.faults.crashesLeft > 0
    then p.faults.crashesLeft - 1 else p.faults.crashesLeft
  }

  predicate Felled(p: Proc, q: Proc, now: nat) {
    && !Dead(p) && q.killed && q.state == p.state && q.crashAt == 0 && q.shutdownAt == 0 && q.killAt == 0
    && q.alarmAt == p.alarmAt && q.alarmInterval == p.alarmInterval && q.parent == p.parent
    && q.spec == p.spec && q.host == p.host && (p.replacedBy.Some? ==> q.replacedBy == p.replacedBy)
    && q.faults == p.faults.(crashesLeft := CrashesAfter(p, now))
  }

  predicate StruckProc(p: Proc, q: Proc, dead: bool, warned: bool, now: nat) {
    if dead then Felled(p, q, now)
    else if warned then !Dead(p) && p.shutdownAt != 0 && WarnedProc(p, q, now)
    else Bystander(p, q)
  }

  /** One of the faults has to do with what the thread waits for. */
  predicate Reached(ps: seq<Proc>, t: Thread, dead: set<nat>, warned: set<nat>) {
    || (t.key == IO_KEY && (dead != {} || warned != {}))
    || (t.key == WAIT_KEY && exists q :: q in dead && q < |ps| && ps[q].parent == Some(t.pid))
    || (t.key != RESTART_KEY && t.pid in warned)
  }

  function StruckThread(ps: seq<Proc>, t: Thread, dead: set<nat>, warned: set<nat>): Thread {
    if t.pid in dead then t.(state := Exited, condKey := 0, deadline := 0)
    else if t.state == Blocked && Reached(ps, t, dead, warned) then t.(state := Runnable)
    else t
  }

  /** The run after the deaths of `dead` and the signals to `warned`, in
      whatever order: a function of the run before, but for new lives. */
  ghost predicate Struck(a: Snap, b: Snap, dead: set<nat>, warned: set<nat>) {
    && b.clock == a.clock && b.stopAt == a.stopAt && b.stopped == a.stopped && b.pct == a.pct
    && (forall i :: i in dead || i in warned ==> i < |a.procs|)
    && |a.procs| <= |b.procs| && |a.threads| <= |b.threads| && |b.threads| - |a.threads| == |b.procs| - |a.procs|
    && (forall i {:trigger b.procs[i]} :: 0 <= i < |a.procs| ==>
          StruckProc(a.procs[i], b.procs[i], i in dead, i in warned, a.clock))
    && (forall i {:trigger b.threads[i]} :: 0 <= i < |a.threads| ==>
          b.threads[i] == StruckThread(a.procs, a.threads[i], dead, warned))
    && (forall n {:trigger b.procs[n]} :: |a.procs| <= n < |b.procs| ==>
          Asleep(b.threads[n - |a.procs| + |a.threads|], b.procs[n], n, b.clock))
    && NewThreads(b.threads, |a.threads|, b.clock, b.pct)
    && (|b.procs| > |a.procs| <==> exists q {:trigger q in dead} :: q in dead && q < |a.procs| && Recurs(a, q))
    && (dead == {} && warned == {} ==> b == a)
    && (a.stopped ==> forall i {:trigger b.procs[i]} :: 0 <= i < |a.procs| ==>
         b.procs[i].replacedBy == a.procs[i].replacedBy)
  }

  lemma StruckNone(a: Snap)
    ensures Struck(a, a, {}, {})
  {
  }

  lemma StruckDeathThreads(a: Snap, b: Snap, d: Snap, dead: set<nat>, warned: set<nat>, pid: nat)
    requires Struck(a, b, dead, warned) && pid < |a.procs| && pid !in dead && pid !in warned
    requires |d.threads| >= |b.threads|
    requires forall i {:trigger d.threads[i]} :: 0 <= i < |b.threads| ==>
               d.threads[i] == Mourn(b.threads[i], pid, a.procs[pid].parent)
    ensures forall i {:trigger d.threads[i]} :: 0 <= i < |a.threads| ==>
              d.threads[i] == StruckThread(a.procs, a.threads[i], dead + {pid}, warned)
  {
    forall i | 0 <= i < |a.threads| ensures d.threads[i] == StruckThread(a.procs, a.threads[i], dead + {pid}, warned) {
      var t := a.threads[i];
      assert b.threads[i] == StruckThread(a.procs, t, dead, warned);
      MournStruck(a.procs, t, dead, warned, pid);
    }
  }

  lemma MournStruck(ps: seq<Proc>, t: Thread, dead: set<nat>, warned: set<nat>, pid: nat)
    requires pid < |ps| && pid !in dead && pid !in warned
    ensures Mourn(StruckThread(ps, t, dead, warned), pid, ps[pid].parent) == StruckThread(ps, t, dead + {pid}, warned)
  {
    assert pid in dead + {pid};
    if t.key == WAIT_KEY && t.pid !in dead && t.pid != pid {
      if q :| q in dead && q < |ps| && ps[q].parent == Some(t.pid) { assert q in dead + {pid}; }
    }
  }

  lemma AlertStruck(ps: seq<Proc>, t: Thread, dead: set<nat>, warned: set<nat>, pid: nat)
    requires pid < |ps| && pid !in dead
    ensures Alerted(StruckThread(ps, t, dead, warned), pid) == StruckThread(ps, t, dead, warned + {pid})
  {
    assert pid in warned + {pid};
  }

  /** A new life is nobody's concern. */
  lemma StruckNew(a: Snap, b: Snap, d: Snap, dead: set<nat>, warned: set<nat>, n: nat)
    requires Struck(a, b, dead, warned) && |a.procs| <= n < |b.procs|
    requires n < |d.procs| && Bystander(b.procs[n], d.procs[n]) && d.clock == b.clock
    requires n - |a.procs| + |a.threads| < |d.threads|
    requires var t := b.threads[n - |a.procs| + |a.threads|];
             d.threads[n - |a.procs| + |a.threads|] == t
             || exists pid: nat, parent {:trigger Mourn(t, pid, parent)} ::
                  pid != t.pid && d.threads[n - |a.procs| + |a.threads|] == Mourn(t, pid, parent)
    ensures Asleep(d.threads[n - |a.procs| + |a.threads|], d.procs[n], n, d.clock)
  {
    assert Asleep(b.threads[n - |a.procs| + |a.threads|], b.procs[n], n, b.clock);
  }

  /** Another death, its bill already written if it was a crash */
  lemma StruckDeath(a: Snap, b: Snap, c: Snap, d: Snap, dead: set<nat>, warned: set<nat>, pid: nat)
    requires Struck(a, b, dead, warned) && pid < |a.procs| && pid !in dead && pid !in warned
    requires (c == b || Billed(b, c, pid)) && Death(c, d, pid) && !Dead(b.procs[pid])
    requires c == b <==> !(b.procs[pid].crashAt != 0 && b.procs[pid].crashAt <= a.clock)
    ensures Struck(a, d, dead + {pid}, warned)
  {
    hide StruckThread, StruckProc, Asleep, Mourn, RestartDue, Recurs, Bystander, NewThreads, Condemned;
    StruckOther(a, b, dead, warned, pid);
    assert c.procs[pid].parent == a.procs[pid].parent by { SameParent(a.procs[pid], b.procs[pid]); }
    StruckDeathThreads(a, b, d, dead, warned, pid);
    StruckDeathProcs(a, b, c, d, dead, warned, pid);
    StruckDeathNew(a, b, c, d, dead, warned, pid);
    StruckThreadsNew(a, b, d, dead, warned, pid, c.procs[pid].parent);
    if a.stopped { StruckSuccessors(a, b, c, d, dead, warned, pid); }
    SameRecursAs(a, b, c, dead, warned, pid);
    RecursMore(a, dead, pid);
  }

  lemma StruckSuccessors(a: Snap, b: Snap, c: Snap, d: Snap, dead: set<nat>, warned: set<nat>, pid: nat)
    requires Struck(a, b, dead, warned) && pid < |a.procs| && (c == b || Billed(b, c, pid)) && Death(c, d, pid)
      && a.stopped
    ensures forall i {:trigger d.procs[i]} :: 0 <= i < |a.procs| ==> d.procs[i].replacedBy == a.procs[i].replacedBy
  {
    hide StruckThread, StruckProc, Asleep, Mourn, NewThreads, Condemned;
    forall i | 0 <= i < |a.procs| ensures d.procs[i].replacedBy == a.procs[i].replacedBy {
      assert b.procs[i].replacedBy == a.procs[i].replacedBy && c.procs[i].replacedBy == b.procs[i].replacedBy;
      if i != pid { assert Bystander(c.procs[i], d.procs[i]); }
    }
  }

  lemma SameParent(p: Proc, q: Proc)
    requires Bystander(p, q)
    ensures q.parent == p.parent
  {
  }

  lemma StruckDeathProcs(a: Snap, b: Snap, c: Snap, d: Snap, dead: set<nat>, warned: set<nat>, pid: nat)
    requires Struck(a, b, dead, warned) && pid < |a.procs| && pid !in dead && pid !in warned
    requires (c == b || Billed(b, c, pid)) && Death(c, d, pid) && !Dead(b.procs[pid])
    requires c == b <==> !(b.procs[pid].crashAt != 0 && b.procs[pid].crashAt <= a.clock)
    ensures forall i {:trigger d.procs[i]} :: 0 <= i < |a.procs| ==>
              StruckProc(a.procs[i], d.procs[i], i in dead + {pid}, i in warned, a.clock)
  {
    hide StruckThread, StruckProc, Asleep, Mourn, Recurs, Bystander, NewThreads, Condemned;
    StruckOther(a, b, dead, warned, pid);
    forall i | 0 <= i < |a.procs|
      ensures StruckProc(a.procs[i], d.procs[i], i in dead + {pid}, i in warned, a.clock)
    {
      assert StruckProc(a.procs[i], b.procs[i], i in dead, i in warned, a.clock);
      if i != pid {
        assert c.procs[i] == b.procs[i] && Bystander(c.procs[i], d.procs[i]);
        StruckStays(a.procs[i], b.procs[i], d.procs[i], i in dead, i in warned, a.clock);
      } else {
        if c.procs[pid].replacedBy.Some? { ReplacedOnce(c, d, pid); }
        NowFelled(a.procs[i], b.procs[i], c.procs[i], d.procs[i], i in warned, a.clock);
      }
    }
  }

  lemma StruckDeathNew(a: Snap, b: Snap, c: Snap, d: Snap, dead: set<nat>, warned: set<nat>, pid: nat)
    requires Struck(a, b, dead, warned) && pid < |a.procs|
    requires (c == b || Billed(b, c, pid)) && Death(c, d, pid)
    ensures |d.threads| - |a.threads| == |d.procs| - |a.procs| >= 0
    ensures forall n {:trigger d.procs[n]} :: |a.procs| <= n < |d.procs| ==>
              Asleep(d.threads[n - |a.procs| + |a.threads|], d.procs[n], n, d.clock)
  {
    hide StruckThread, StruckProc, Asleep, Mourn, Recurs, Bystander, NewThreads, Condemned;
    forall n | |a.procs| <= n < |d.procs|
      ensures Asleep(d.threads[n - |a.procs| + |a.threads|], d.procs[n], n, d.clock)
    {
      if n < |b.procs| {
        assert Asleep(b.threads[n - |a.procs| + |a.threads|], b.procs[n], n, b.clock);
        AsleepPid(b.threads[n - |a.procs| + |a.threads|], b.procs[n], n, b.clock);
        assert Bystander(c.procs[n], d.procs[n]);
        StruckNew(a, b, d, dead, warned, n);
      }
    }
  }

  lemma AsleepPid(t: Thread, p: Proc, n: nat, now: nat)
    requires Asleep(t, p, n, now)
    ensures t.pid == n
  {
  }

  lemma StruckOther(a: Snap, b: Snap, dead: set<nat>, warned: set<nat>, pid: nat)
    requires Struck(a, b, dead, warned) && pid < |a.procs| && pid !in dead && pid !in warned
    ensures Bystander(a.procs[pid], b.procs[pid])
  {
    assert StruckProc(a.procs[pid], b.procs[pid], false, false, a.clock);
  }

  lemma StruckStays(p: Proc, q: Proc, r: Proc, dead: bool, warned: bool, now: nat)
    requires StruckProc(p, q, dead, warned, now) && Bystander(q, r)
    ensures StruckProc(p, r, dead, warned, now)
  {
  }

  lemma ReplacedOnce(c: Snap, d: Snap, pid: nat)
    requires Death(c, d, pid) && c.procs[pid].replacedBy.Some?
    ensures d.procs[pid].replacedBy == c.procs[pid].replacedBy
  {
  }

  lemma NowFelled(p: Proc, q: Proc, r: Proc, s: Proc, warned: bool, now: nat)
    requires Bystander(p, q) && (r == q || r == q.(faults := r.faults, crashAt := 0)) && Condemned(r, s) && !Dead(q)
    requires r.faults == q.faults.(crashesLeft := CrashesAfter(q, now))
    requires r.replacedBy.Some? ==> s.replacedBy == r.replacedBy
    ensures StruckProc(p, s, true, warned, now)
  {
  }

  lemma StruckThreadsNew(a: Snap, b: Snap, d: Snap, dead: set<nat>, warned: set<nat>, pid: nat, parent: Option<nat>)
    requires Struck(a, b, dead, warned) && d.clock == b.clock && d.pct == b.pct
    requires NewThreads(d.threads, |b.threads|, d.clock, d.pct)
    requires forall i {:trigger d.threads[i]} :: 0 <= i < |b.threads| ==>
      d.threads[i] == Mourn(b.threads[i], pid, parent)
    ensures NewThreads(d.threads, |a.threads|, d.clock, d.pct)
  {
  }

  /** A restart depends on what no other fault touches, and on room; and room
      is there as before until a restart takes it. */
  lemma SameRecursAs(a: Snap, b: Snap, c: Snap, dead: set<nat>, warned: set<nat>, pid: nat)
    requires Struck(a, b, dead, warned) && pid < |a.procs| && Bystander(a.procs[pid], b.procs[pid])
    requires c == b || Billed(b, c, pid)
    ensures |b.procs| == |a.procs| ==> Recurs(c, pid) == Recurs(a, pid)
  {
  }

  lemma RecursMore(a: Snap, dead: set<nat>, pid: nat)
    requires pid < |a.procs|
    ensures (exists q {:trigger q in dead + {pid}} :: q in dead + {pid} && q < |a.procs| && Recurs(a, q))
            <==> (exists q {:trigger q in dead} :: q in dead && q < |a.procs| && Recurs(a, q)) || Recurs(a, pid)
  {
    hide Recurs;
    if q :| q in dead + {pid} && q < |a.procs| && Recurs(a, q) { assert q == pid || q in dead; }
    if q :| q in dead && q < |a.procs| && Recurs(a, q) { assert q in dead + {pid}; }
    assert pid in dead + {pid};
  }

  /** Another signal */
  lemma StruckWarn(a: Snap, b: Snap, d: Snap, dead: set<nat>, warned: set<nat>, pid: nat)
    requires Struck(a, b, dead, warned) && pid < |a.procs| && pid !in dead && pid !in warned
    requires Warned(b, d, pid) && !Dead(b.procs[pid]) && b.procs[pid].shutdownAt != 0
    ensures Struck(a, d, dead, warned + {pid})
  {
    hide StruckThread, StruckProc, Asleep, Alerted, RestartDue, Recurs;
    StruckOther(a, b, dead, warned, pid);
    forall i | 0 <= i < |a.threads| ensures d.threads[i] == StruckThread(a.procs, a.threads[i], dead, warned + {pid}) {
      assert b.threads[i] == StruckThread(a.procs, a.threads[i], dead, warned);
      AlertStruck(a.procs, a.threads[i], dead, warned, pid);
    }
    forall i | 0 <= i < |a.procs|
      ensures StruckProc(a.procs[i], d.procs[i], i in dead, i in warned + {pid}, a.clock)
    {
      assert StruckProc(a.procs[i], b.procs[i], i in dead, i in warned, a.clock);
      if i == pid { NowWarned(a.procs[i], b.procs[i], d.procs[i], a.clock); }
    }
    forall n | |a.procs| <= n < |d.procs|
      ensures Asleep(d.threads[n - |a.procs| + |a.threads|], d.procs[n], n, d.clock)
    {
      assert Asleep(b.threads[n - |a.procs| + |a.threads|], b.procs[n], n, b.clock);
      StillAsleep(b.threads[n - |a.procs| + |a.threads|], b.procs[n], n, b.clock, pid);
    }
    AlertedNew(a, b, d, dead, warned, pid);
  }

  lemma NowWarned(p: Proc, q: Proc, r: Proc, now: nat)
    requires Bystander(p, q) && WarnedProc(q, r, now) && !Dead(q) && q.shutdownAt != 0
    ensures StruckProc(p, r, false, true, now)
  {
  }

  lemma StillAsleep(t: Thread, p: Proc, n: nat, now: nat, pid: nat)
    requires Asleep(t, p, n, now)
    ensures Alerted(t, pid) == t
  {
  }

  lemma AlertedNew(a: Snap, b: Snap, d: Snap, dead: set<nat>, warned: set<nat>, pid: nat)
    requires Struck(a, b, dead, warned) && d.clock == b.clock && d.pct == b.pct && |d.threads| == |b.threads|
    requires forall i {:trigger d.threads[i]} :: 0 <= i < |b.threads| ==> d.threads[i] == Alerted(b.threads[i], pid)
    ensures NewThreads(d.threads, |a.threads|, d.clock, d.pct)
  {
  }

  // ---- what it leaves -------------------------------------------------------------

  lemma StruckOnward(a: Snap, b: Snap, dead: set<nat>, warned: set<nat>)
    requires Struck(a, b, dead, warned)
    ensures Onward(a, b)
  {
    hide StruckThread, Asleep, NewThreads;
    forall i | 0 <= i < |a.procs|
      ensures ProcOnward(a.procs[i], b.procs[i]) && (a.stopped ==> b.procs[i].replacedBy == a.procs[i].replacedBy)
    {
      assert StruckProc(a.procs[i], b.procs[i], i in dead, i in warned, a.clock);
    }
  }

  lemma DeathOnward(a: Snap, b: Snap, victim: nat)
    requires Death(a, b, victim) && !Dead(a.procs[victim])
    ensures Onward(a, b)
  {
    hide Asleep, NewThreads, Mourn;
    forall i | 0 <= i < |a.procs|
      ensures ProcOnward(a.procs[i], b.procs[i]) && (a.stopped ==> b.procs[i].replacedBy == a.procs[i].replacedBy)
    {
      if i != victim { assert Bystander(a.procs[i], b.procs[i]); }
    }
  }

  /** Everything due at the clock has happened. */
  predicate AllOf(a: Snap, dead: set<nat>, warned: set<nat>) {
    forall i {:trigger a.procs[i]} :: 0 <= i < |a.procs| ==>
      (i in dead <==> DiesNow(a.procs[i], a.clock)) && (i in warned <==> WarnsNow(a.procs[i], a.clock))
  }

  lemma NoFaultDue(a: Snap, b: Snap, dead: set<nat>, warned: set<nat>)
    requires Struck(a, b, dead, warned) && AllOf(a, dead, warned)
    ensures NoneDue(b.procs, CrashOf, b.clock) && NoneDue(b.procs, ShutdownOf, b.clock)
  {
    forall i | 0 <= i < |b.procs|
      ensures CrashOf(b.procs[i]).Some? ==> CrashOf(b.procs[i]).value > b.clock
      ensures ShutdownOf(b.procs[i]).Some? ==> ShutdownOf(b.procs[i]).value > b.clock
    {
      if i < |a.procs| {
        assert StruckProc(a.procs[i], b.procs[i], i in dead, i in warned, a.clock);
      } else {
        assert Asleep(b.threads[i - |a.procs| + |a.threads|], b.procs[i], i, b.clock);
      }
    }
  }

  /** A fault takes the measure down. */
  lemma StruckLower(a: Snap, b: Snap, dead: set<nat>, warned: set<nat>)
    requires Struck(a, b, dead, warned)
    ensures dead != {} ==> Fewer(a, b)
    ensures dead == {} && warned != {} ==>
              FreeSlots(b) == FreeSlots(a) && Alive(b) == Alive(a) && ShutdownsDue(b) < ShutdownsDue(a)
    ensures dead == {} && warned == {} ==>
              FreeSlots(b) == FreeSlots(a) && Alive(b) == Alive(a) && ShutdownsDue(b) == ShutdownsDue(a)
              && OneShots(b) == OneShots(a)
  {
    hide Asleep, StruckThread, RestartDue, NewThreads;
    if |b.procs| == |a.procs| {
      forall i | 0 <= i < |a.procs|
        ensures IsAlive()(b.procs[i]) == (IsAlive()(a.procs[i]) && i !in dead)
        ensures i !in dead ==> ToShutDown()(b.procs[i]) == (ToShutDown()(a.procs[i]) && i !in warned)
        ensures OneShot()(b.procs[i]) == OneShot()(a.procs[i])
        ensures (i in dead ==> IsAlive()(a.procs[i])) && (i in warned && i !in dead ==> ToShutDown()(a.procs[i]))
      {
        assert StruckProc(a.procs[i], b.procs[i], i in dead, i in warned, a.clock);
      }
      StruckCounts(a, b, dead, warned);
    }
  }

  lemma StruckCounts(a: Snap, b: Snap, dead: set<nat>, warned: set<nat>)
    requires |b.procs| == |a.procs| && forall i :: i in dead || i in warned ==> i < |a.procs|
    requires forall i {:trigger b.procs[i]} :: 0 <= i < |a.procs| ==>
               && IsAlive()(b.procs[i]) == (IsAlive()(a.procs[i]) && i !in dead)
               && (i !in dead ==> ToShutDown()(b.procs[i]) == (ToShutDown()(a.procs[i]) && i !in warned))
               && OneShot()(b.procs[i]) == OneShot()(a.procs[i])
               && (i in dead ==> IsAlive()(a.procs[i])) && (i in warned && i !in dead ==> ToShutDown()(a.procs[i]))
    ensures dead != {} ==> Alive(b) < Alive(a)
    ensures dead == {} ==> Alive(b) == Alive(a)
    ensures dead == {} && warned != {} ==> ShutdownsDue(b) < ShutdownsDue(a)
    ensures dead == {} && warned == {} ==> ShutdownsDue(b) == ShutdownsDue(a) && OneShots(b) == OneShots(a)
  {
    if dead != {} {
      var q :| q in dead;
      CountShrinks(a.procs, b.procs, IsAlive(), q);
    } else {
      CountEqual(a.procs, b.procs, IsAlive(), IsAlive());
      if warned != {} {
        var q :| q in warned;
        CountShrinks(a.procs, b.procs, ToShutDown(), q);
      } else {
        CountEqual(a.procs, b.procs, ToShutDown(), ToShutDown());
        CountEqual(a.procs, b.procs, OneShot(), OneShot());
      }
    }
  }
}

/** What the scheduler's tables satisfy, what a death does to them, and the
    measure its idle loop goes down by. */
module SchedSpec {
  import opened Wrappers
  import opened SchedTypes
  import NT = NetTypes
  import N = NetSpec
  import NI = NetInv
  import NM = NetTime
  import L = NetLater

  /** The part of the scheduler's state that its idle loop goes through */
  datatype Snap = Snap(threads: seq<Thread>, procs: seq<Proc>, net: NT.Net, clock: nat, stopAt: nat, stopped: bool,
    pct: bool,
                       bills: seq<Bill>)

  /** What one life was granted of its entry's crashes and shutdowns, and how
      many were injected into it */
  datatype Bill = Bill(crashGrant: nat, crashes: nat, shutGrant: nat, shutdowns: nat)

  // ---- invariants -----------------------------------------------------------------

  /** Threads of dead processes are out of the schedule. */
  predicate ThreadsOk(ts: seq<Thread>, ps: seq<Proc>) {
    && |ts| <= MAX_THREADS && |ps| <= MAX_PROCS
    && forall i {:trigger ts[i]} :: 0 <= i < |ts| ==>
         ts[i].pid < |ps| && (Dead(ps[ts[i].pid]) ==> ts[i].state == Exited)
  }

  /** A crash or shutdown still to come is covered by what is left to inject,
      and a dead process has none to come. */
  predicate ProcOk(p: Proc, procs: nat) {
    && FaultsOk(p.faults) && (p.parent.Some? ==> p.parent.value < procs)
    && (p.crashAt != 0 ==> p.faults.crashesLeft > 0) && (p.shutdownAt != 0 ==> p.faults.shutdownsLeft > 0)
    && (Dead(p) ==> p.crashAt == 0 && p.shutdownAt == 0 && p.killAt == 0)
  }

  predicate ProcsOk(ps: seq<Proc>) { forall i {:trigger ps[i]} :: 0 <= i < |ps| ==> ProcOk(ps[i], |ps|) }

  /** One life's successor was registered later, from the same entry, with one
      restart less and the crashes and shutdowns its predecessor left. */
  predicate Succeeds(p: Proc, q: Proc) {
    && Dead(p) && p.spec.Some? && q.spec == p.spec && q.host == p.host
    && 0 < p.faults.restartsLeft <= NO_LIMIT
    && q.faults.restartsLeft == (if p.faults.restartsLeft == NO_LIMIT then NO_LIMIT else p.faults.restartsLeft - 1)
    && q.faults.crashesLeft <= p.faults.crashesLeft && q.faults.shutdownsLeft <= p.faults.shutdownsLeft
  }

  predicate Paid(left: nat, granted: nat, made: nat) {
    if granted == NO_LIMIT then left == NO_LIMIT else left + made == granted
  }

  predicate Balanced(f: Faults, b: Bill) {
    Paid(f.crashesLeft, b.crashGrant, b.crashes) && Paid(f.shutdownsLeft, b.shutGrant, b.shutdowns)
    && b.crashGrant <= NO_LIMIT && b.shutGrant <= NO_LIMIT
  }

  predicate Granted(f: Faults, b: Bill) { b.crashGrant == f.crashesLeft && b.shutGrant == f.shutdownsLeft }

  predicate Chained(ps: seq<Proc>, bills: seq<Bill>) {
    && |bills| == |ps| && (forall i {:trigger ps[i]} :: 0 <= i < |ps| ==> Balanced(ps[i].faults, bills[i]))
    && (forall i {:trigger ps[i]} :: 0 <= i < |ps| && ps[i].replacedBy.Some? ==>
          i < ps[i].replacedBy.value < |ps| && Succeeds(ps[i], ps[ps[i].replacedBy.value])
          && Granted(ps[i].faults, bills[ps[i].replacedBy.value]))
    && (forall i, j {:trigger ps[i], ps[j]} :: 0 <= i < j < |ps| && ps[i].replacedBy.Some? && ps[j].replacedBy.Some? ==>
          ps[i].replacedBy != ps[j].replacedBy)
  }

  ghost predicate NetOk(s: Snap) { NI.Inv(s.net) && s.net.now == s.clock && L.Later(s.net) }

  ghost predicate Ok(s: Snap) {
    ThreadsOk(s.threads, s.procs) && ProcsOk(s.procs) && Chained(s.procs, s.bills) && NetOk(s)
  }

  predicate OneRunning(ts: seq<Thread>, current: nat) {
    forall i {:trigger ts[i]} :: 0 <= i < |ts| && ts[i].state == Running ==> i == current
  }

  predicate NoneRunning(ts: seq<Thread>) { forall i {:trigger ts[i]} :: 0 <= i < |ts| ==> ts[i].state != Running }

  predicate AnyRunnable(ts: seq<Thread>) { exists i :: 0 <= i < |ts| && ts[i].state == Runnable }

  predicate AnyLeft(ts: seq<Thread>) { exists i :: 0 <= i < |ts| && ts[i].state != Exited }

  // ---- what is still to come ---------------------------------------------------------

  function StopOf(s: Snap): Option<nat> { if s.stopAt != 0 && !s.stopped then Some(s.stopAt) else None }

  function NetOf(s: Snap): Option<nat> { if s.net.inFlight > 0 then Some(s.net.nextDue) else None }

  /** Nothing is due: no deadline, crash, shutdown, alarm, stop or arrival is
      at or before the clock. */
  ghost predicate NothingDue(s: Snap) {
    && NoneDue(s.threads, DeadlineOf, s.clock) && NoneDue(s.procs, CrashOf, s.clock)
    && NoneDue(s.procs, ShutdownOf, s.clock) && NoneDue(s.procs, AlarmOf, s.clock)
    && (StopOf(s).Some? ==> s.stopAt > s.clock) && L.Later(s.net)
  }

  ghost predicate NothingPending(s: Snap) {
    && (forall i {:trigger s.threads[i]} :: 0 <= i < |s.threads| ==> DeadlineOf(s.threads[i]).None?)
    && (forall i {:trigger s.procs[i]} :: 0 <= i < |s.procs| ==>
          CrashOf(s.procs[i]).None? && ShutdownOf(s.procs[i]).None? && AlarmOf(s.procs[i]).None?)
    && StopOf(s).None? && s.net.inFlight == 0
  }

  /** `t` is no later than anything still to come. */
  ghost predicate BeforeAll(s: Snap, t: nat) {
    && (forall i {:trigger s.threads[i]} :: 0 <= i < |s.threads| && DeadlineOf(s.threads[i]).Some? ==>
         t <= DeadlineOf(s.threads[i]).value)
    && (forall i {:trigger s.procs[i]} :: 0 <= i < |s.procs| ==>
          (CrashOf(s.procs[i]).Some? ==> t <= CrashOf(s.procs[i]).value)
          && (ShutdownOf(s.procs[i]).Some? ==> t <= ShutdownOf(s.procs[i]).value)
          && (AlarmOf(s.procs[i]).Some? ==> t <= AlarmOf(s.procs[i]).value))
    && (StopOf(s).Some? ==> t <= s.stopAt) && (NetOf(s).Some? ==> t <= s.net.nextDue)
    && (forall i {:trigger s.net.socks[i]} :: 0 <= i < |s.net.socks| && s.net.socks[i].flight != [] ==>
         t <= s.net.socks[i].flight[0].due)
  }

  // ---- a death --------------------------------------------------------------------------

  /** Nothing of the process differs but what its dead children left it. */
  predicate Bystander(p: Proc, q: Proc) { q == p.(childDeaths := q.childDeaths, lastDeadChild := q.lastDeadChild) }

  /** What a death leaves the parent: one more dead child, and which */
  function Bereaved(p: Proc, i: nat, victim: nat, parent: Option<nat>): Proc {
    if parent == Some(i) then p.(childDeaths := p.childDeaths + 1, lastDeadChild := victim) else p
  }

  /** Every process once `victim` is `dead` and its parent knows; a successor
      is the only other thing it may have got. */
  predicate Bereft(a: Snap, b: Snap, victim: nat, dead: Proc) {
    && victim < |a.procs| <= |b.procs|
    && forall i: nat {:trigger b.procs[i]} :: i < |a.procs| ==>
         b.procs[i] == Bereaved(if i == victim then dead.(replacedBy := b.procs[i].replacedBy) else a.procs[i],
                                i, victim, dead.parent)
  }

  /** A process that is crashed: all that was to come is off, and the kernel has
      to be told if it had started. */
  function Crashed(p: Proc, now: nat): Proc {
    p.(killed := true, diedAt := now, crashAt := 0, shutdownAt := 0, killAt := 0,
       unsettled := p.unsettled || p.state == Attached)
  }

  /** A process the launcher has seen end */
  function Ceased(p: Proc, status: int, now: nat): Proc {
    var q := p.(state := Gone, exitStatus := status, diedAt := if p.diedAt == 0 then Max(now, 1) else p.diedAt);
    if p.killed then q else q.(crashAt := 0, shutdownAt := 0, killAt := 0)
  }

  /** Dead, with nothing to come; otherwise the process it was */
  predicate Ended(p: Proc, q: Proc) {
    && Dead(q) && q.crashAt == 0 && q.shutdownAt == 0 && q.killAt == 0
    && q.alarmAt == p.alarmAt && q.alarmInterval == p.alarmInterval && q.spec == p.spec && q.faults == p.faults
    && q.host == p.host && q.parent == p.parent
  }

  /** As good as dead, though not gone yet */
  predicate Condemned(p: Proc, q: Proc) { Ended(p, q) && q.killed && q.state == p.state }

  /** A new thread does not run, and if it waits, for a time still to come. */
  predicate NewThreads(ts: seq<Thread>, n: nat, now: nat, pct: bool) {
    n <= |ts| && forall i {:trigger ts[i]} :: n <= i < |ts| ==>
      ts[i].state != Running && (ts[i].state == Blocked ==> ts[i].deadline > now) && ts[i].waitingSince == 0
      && (pct ==> ts[i].priority > MAX_PCT_DEPTH)
  }

  predicate HasRoom(s: Snap) { |s.procs| < MAX_PROCS && |s.threads| < MAX_THREADS }

  predicate RestartDue(p: Proc, status: int, stopped: bool) {
    && (match p.faults.restart
        case Always => true
        case OnFailure => status != 0 || p.shutDown
        case Never => false)
    && !stopped && p.spec.Some? && p.faults.restartsLeft > 0
  }

  /** A violent death of `victim` would bring it another life. */
  predicate Recurs(s: Snap, victim: nat)
    requires victim < |s.procs|
  {
    s.procs[victim].replacedBy.None? && RestartDue(s.procs[victim], KILLED_STATUS, s.stopped) && HasRoom(s)
  }

  /** A life waiting for its start: nothing can happen to it before then. */
  predicate Asleep(t: Thread, p: Proc, pid: nat, now: nat) {
    && t.state == Blocked && t.key == RESTART_KEY && t.pid == pid && t.deadline > now
    && !Dead(p) && p.alarmAt == 0 && p.killAt == 0 && p.parent.None? && p.replacedBy.None?
    && (p.crashAt == 0 || p.crashAt > t.deadline) && (p.shutdownAt == 0 || p.shutdownAt > t.deadline)
  }

  /** The run after the death of `victim`, and before it */
  ghost predicate Death(a: Snap, b: Snap, victim: nat) {
    && victim < |a.procs| && b.clock == a.clock && b.stopAt == a.stopAt && b.stopped == a.stopped && b.pct == a.pct
    && |b.procs| == |a.procs| + (if Recurs(a, victim) then 1 else 0)
    && |b.threads| == |a.threads| + (if Recurs(a, victim) then 1 else 0)
    && (Recurs(a, victim) ==> Asleep(b.threads[|a.threads|], b.procs[|a.procs|], |a.procs|, b.clock))
    && (forall i {:trigger b.procs[i]} :: 0 <= i < |a.procs| && i != victim ==> Bystander(a.procs[i], b.procs[i]))
    && Condemned(a.procs[victim], b.procs[victim])
    && b.procs[victim].replacedBy == (if Recurs(a, victim) then Some(|a.procs|) else a.procs[victim].replacedBy)
    && (forall i {:trigger b.threads[i]} :: 0 <= i < |a.threads| ==>
          b.threads[i] == Mourn(a.threads[i], victim, a.procs[victim].parent))
    && NewThreads(b.threads, |a.threads|, b.clock, b.pct)
  }

  /** What a death does to a thread: its own leave the schedule; those waiting
      for a descriptor, or for the parent's children, look again. */
  function Mourn(t: Thread, victim: nat, parent: Option<nat>): Thread {
    if t.pid == victim then t.(state := Exited, condKey := 0, deadline := 0)
    else if t.state == Blocked && (t.key == IO_KEY || (parent == Some(t.pid) && t.key == WAIT_KEY))
      then t.(state := Runnable)
    else t
  }

  // ---- what every step keeps ----------------------------------------------------------------

  /** A life's place in the ledger is settled: it keeps its entry, its host and
      its budget of restarts, never gets faults back, never comes back itself,
      and has one successor at most. */
  predicate ProcOnward(p: Proc, q: Proc) {
    && q.spec == p.spec && q.host == p.host && q.faults.restartsLeft == p.faults.restartsLeft
    && q.faults.crashesLeft <= p.faults.crashesLeft && q.faults.shutdownsLeft <= p.faults.shutdownsLeft
    && (Dead(p) ==> Dead(q) && q.faults == p.faults) && (p.state == Gone ==> q.state == Gone)
    && (p.replacedBy.Some? ==> q.replacedBy == p.replacedBy)
  }

  /** ... and once the run is stopped, nobody is restarted. */
  predicate Onward(a: Snap, b: Snap) {
    && |a.procs| <= |b.procs| && a.clock <= b.clock && (a.stopped ==> b.stopped)
    && forall i {:trigger b.procs[i]} :: 0 <= i < |a.procs| ==>
         ProcOnward(a.procs[i], b.procs[i]) && (a.stopped ==> b.procs[i].replacedBy == a.procs[i].replacedBy)
  }

  lemma OnwardRefl(a: Snap)
    ensures Onward(a, a)
  {
  }

  lemma OnwardProcs(a: Snap, b: Snap)
    requires b.procs == a.procs && b.stopped == a.stopped && b.clock >= a.clock
    ensures Onward(a, b)
  {
  }

  lemma OnwardTrans(a: Snap, b: Snap, c: Snap)
    requires Onward(a, b) && Onward(b, c)
    ensures Onward(a, c)
  {
    forall i | 0 <= i < |a.procs|
      ensures ProcOnward(a.procs[i], c.procs[i]) && (a.stopped ==> c.procs[i].replacedBy == a.procs[i].replacedBy)
    {
      assert ProcOnward(a.procs[i], b.procs[i]) && ProcOnward(b.procs[i], c.procs[i]);
    }
  }

  // ---- the measure of the idle loop -------------------------------------------------------

  function IsAlive(): Proc -> bool { (p: Proc) => !Dead(p) }
  function ToShutDown(): Proc -> bool { (p: Proc) => !Dead(p) && p.shutdownAt != 0 }
  function OneShot(): Proc -> bool { (p: Proc) => p.state != Gone && p.alarmAt != 0 && p.alarmInterval == 0 }

  function FreeSlots(s: Snap): int { MAX_PROCS - |s.procs| }
  function Alive(s: Snap): nat { Count(s.procs, IsAlive()) }
  function ShutdownsDue(s: Snap): nat { Count(s.procs, ToShutDown()) }
  function BeforeStop(s: Snap): nat { if s.stopped then 0 else 1 }
  function OneShots(s: Snap): nat { Count(s.procs, OneShot()) }

  /** The bound on the next arrival is not exact. */
  ghost function Stale(s: Snap): nat { StaleNet(s.net) }

  /** A process died, or a new one took the place of a free slot. */
  predicate Fewer(a: Snap, b: Snap) {
    FreeSlots(b) < FreeSlots(a) || (FreeSlots(b) == FreeSlots(a) && Alive(b) < Alive(a))
  }

  /** The measure went down, in the same slots and with the same processes
      alive. */
  ghost predicate LowerYet(a: Snap, b: Snap) {
    ShutdownsDue(b) < ShutdownsDue(a)
    || (ShutdownsDue(b) == ShutdownsDue(a)
        && (BeforeStop(b) < BeforeStop(a) || (BeforeStop(b) == BeforeStop(a) && LowerStill(a, b))))
  }

  ghost predicate LowerStill(a: Snap, b: Snap) {
    OneShots(b) < OneShots(a)
    || (OneShots(b) == OneShots(a)
        && (b.net.inFlight < a.net.inFlight || (b.net.inFlight == a.net.inFlight && Stale(b) < Stale(a))))
  }

  /** The measure went down. */
  ghost predicate Lower(a: Snap, b: Snap) {
    Fewer(a, b) || (FreeSlots(b) == FreeSlots(a) && Alive(b) == Alive(a) && LowerYet(a, b))
  }

  /** As much is left to happen as before. */
  ghost predicate Level(a: Snap, b: Snap) {
    && FreeSlots(b) == FreeSlots(a) && Alive(b) == Alive(a) && ShutdownsDue(b) == ShutdownsDue(a)
    && BeforeStop(b) == BeforeStop(a) && OneShots(b) == OneShots(a)
    && b.net.inFlight == a.net.inFlight && Stale(b) == Stale(a)
  }

  /** Something that happens once, or to a process that can feel it, is due at
      `t`: all but the rings of timers whose process has no thread left. */
  ghost predicate Looms(s: Snap, t: nat) {
    || (exists i :: 0 <= i < |s.threads| && DeadlineOf(s.threads[i]) == Some(t))
    || NetOf(s) == Some(t) || StopOf(s) == Some(t)
    || (exists p :: 0 <= p < |s.procs| && ProcLooms(s, p, t))
  }

  predicate ProcLooms(s: Snap, p: nat, t: nat)
    requires p < |s.procs|
  {
    var q := s.procs[p];
    || CrashOf(q) == Some(t) || (!Dead(q) && (TimeOf(q.shutdownAt) == Some(t) || TimeOf(q.killAt) == Some(t)))
    || (AlarmOf(q) == Some(t) && (q.alarmInterval == 0 || HasThread(s.threads, p)))
  }

  predicate HasThread(ts: seq<Thread>, pid: nat) {
    exists i :: 0 <= i < |ts| && ts[i].pid == pid && ts[i].state != Exited
  }

  // ---- the ledger ----------------------------------------------------------------------------

  /** The process that is the `k`th life after `p` */
  ghost function LifeAfter(ps: seq<Proc>, bills: seq<Bill>, p: nat, k: nat): Option<nat>
    requires Chained(ps, bills)
    decreases k
  {
    if p >= |ps| then None
    else if k == 0 then Some(p)
    else if ps[p].replacedBy.None? then None
    else LifeAfter(ps, bills, ps[p].replacedBy.value, k - 1)
  }

  /** Crashes and shutdowns injected into `p` and the `k` lives after it */
  ghost function Made(ps: seq<Proc>, bills: seq<Bill>, p: nat, k: nat): (nat, nat)
    requires Chained(ps, bills) && p < |ps| && LifeAfter(ps, bills, p, k).Some?
    decreases k
  {
    if k == 0 then (bills[p].crashes, bills[p].shutdowns)
    else
      var rest := Made(ps, bills, ps[p].replacedBy.value, k - 1);
      (bills[p].crashes + rest.0, bills[p].shutdowns + rest.1)
  }

  /** The lives of an entry rise in index and all but the last are dead;
      restarts made plus restarts left is the budget the first one had, and so
      it is with the crashes and shutdowns injected, unless there is no limit. */
  lemma {:induction false} Ledger(ps: seq<Proc>, bills: seq<Bill>, p: nat, k: nat)
    requires Chained(ps, bills) && p < |ps| && LifeAfter(ps, bills, p, k).Some?
    ensures var q, made := LifeAfter(ps, bills, p, k).value, Made(ps, bills, p, k);
            && p <= q < |ps| && ps[q].spec == ps[p].spec && (k > 0 ==> q > p && Dead(ps[p]))
            && Paid(ps[q].faults.restartsLeft, ps[p].faults.restartsLeft, k)
            && Paid(ps[q].faults.crashesLeft, bills[p].crashGrant, made.0)
            && Paid(ps[q].faults.shutdownsLeft, bills[p].shutGrant, made.1)
    decreases k
  {
    assert Balanced(ps[p].faults, bills[p]);
    if k > 0 {
      var n := ps[p].replacedBy.value;
      assert Succeeds(ps[p], ps[n]) && Granted(ps[p].faults, bills[n]);
      Ledger(ps, bills, n, k - 1);
    }
  }

  /** Of the lives of one entry at most one is alive, and it is the last. */
  lemma OnlyTheLastLives(ps: seq<Proc>, bills: seq<Bill>, p: nat, j: nat, k: nat)
    requires Chained(ps, bills) && p < |ps| && j < k && LifeAfter(ps, bills, p, k).Some?
    ensures var q := LifeAfter(ps, bills, p, j); q.Some? && q.value < |ps| && Dead(ps[q.value])
  {
    LifeSplit(ps, bills, p, j, k - j);
    Ledger(ps, bills, LifeAfter(ps, bills, p, j).value, k - j);
  }

  lemma {:induction false} LifeSplit(ps: seq<Proc>, bills: seq<Bill>, p: nat, j: nat, k: nat)
    requires Chained(ps, bills) && p < |ps| && LifeAfter(ps, bills, p, j + k).Some?
    ensures LifeAfter(ps, bills, p, j).Some? && LifeAfter(ps, bills, p, j).value < |ps|
    ensures LifeAfter(ps, bills, LifeAfter(ps, bills, p, j).value, k) == LifeAfter(ps, bills, p, j + k)
    decreases j
  {
    if j > 0 { LifeSplit(ps, bills, ps[p].replacedBy.value, j - 1, k); }
  }

  // ---- arrivals in the measure -----------------------------------------------------------------

  lemma {:induction false} TotalDrops(k: seq<NT.Sock>, m: seq<NT.Sock>, at: int)
    requires |k| == |m| && forall j :: 0 <= j < |k| ==> |m[j].flight| <= |k[j].flight|
    ensures NI.Total(m) <= NI.Total(k)
    ensures 0 <= at < |k| && |m[at].flight| < |k[at].flight| ==> NI.Total(m) < NI.Total(k)
    decreases |k|
  {
    if k != [] {
      forall j | 0 <= j < |k[1..]|
        ensures |m[1..][j].flight| <= |k[1..][j].flight|
      {
        assert m[1..][j] == m[j + 1] && k[1..][j] == k[j + 1];
      }
      TotalDrops(k[1..], m[1..], at - 1);
    }
  }

  lemma SomethingFlies(n: NT.Net)
    requires n.inFlight == NI.Total(n.socks) && n.inFlight > 0
    ensures N.AnyHead(n.socks, 0)
  {
    if !N.AnyHead(n.socks, 0) {
      forall j | 0 <= j < |n.socks| ensures n.socks[j].flight == [] { }
      NothingFlies(n.socks);
    }
  }

  lemma {:induction false} NothingFlies(k: seq<NT.Sock>)
    requires forall j :: 0 <= j < |k| ==> k[j].flight == []
    ensures NI.Total(k) == 0
  {
    if k != [] {
      forall j | 0 <= j < |k[1..]| ensures k[1..][j].flight == [] { assert k[1..][j] == k[j + 1]; }
      NothingFlies(k[1..]);
    }
  }

  ghost function StaleNet(n: NT.Net): nat {
    if n.inFlight > 0 && n.nextDue != N.EarliestHead(n.socks, 0) then 1 else 0
  }

  /** When the clock has moved to the bound on the next arrival, something
      arrives or the bound becomes exact. */
  lemma ArrivalMeasure(n: NT.Net, now: nat)
    requires NI.Inv(n) && N.FarEndsInTable(n.socks)
    ensures var t := N.Advance(n, now).0;
            && NI.Inv(t) && t.now == now && t.latency == n.latency && L.Later(t) && t.inFlight <= n.inFlight
            && (t.inFlight == n.inFlight ==> StaleNet(t) <= StaleNet(n))
            && (n.inFlight > 0 && n.nextDue <= now ==> t.inFlight < n.inFlight || StaleNet(t) < StaleNet(n))
  {
    hide NI.Core, NI.Inv, NI.Total, NM.DueCount, N.Advance, N.FarEndsInTable, N.EarliestHead, L.Later;
    ArrivalState(n, now);
    var (t, moved) := N.Advance(n, now);
    AdvanceKeepsLatency(n, now);
    InvTotals(n);
    InvTotals(t);
    if moved {
      FlightsDrop(n, t, now);
    } else {
      assert t == n.(now := now);
    }
  }

  lemma ArrivalState(n: NT.Net, now: nat)
    requires NI.Inv(n) && N.FarEndsInTable(n.socks)
    ensures var (t, moved) := N.Advance(n, now);
            && NI.Inv(t) && t.now == now && L.Later(t) && (!moved ==> t == n.(now := now))
            && |t.socks| == |n.socks|
            && forall j :: 0 <= j < |n.socks| ==>
                 t.socks[j].flight == n.socks[j].flight[NM.DueCount(n.socks[j].flight, now)..]
  {
    hide NI.Core, NM.Calm, NI.Inv, N.Advance, N.FarEndsInTable, N.EarliestHead;
    NM.AdvanceCalm(n, now);
    AdvanceKeepsLatency(n, now);
  }

  lemma InvTotals(n: NT.Net)
    requires NI.Inv(n)
    ensures n.inFlight == NI.Total(n.socks)
  {
  }

  lemma AdvanceKeepsLatency(n: NT.Net, now: nat)
    requires NI.Inv(n) && N.FarEndsInTable(n.socks)
    ensures N.Advance(n, now).0.latency == n.latency && |N.Advance(n, now).0.socks| == |n.socks|
    ensures N.Advance(n, now).1 ==> N.Advance(n, now).0.nextDue == N.EarliestHead(N.Advance(n, now).0.socks, 0)
    ensures N.Advance(n, now).1 ==> n.inFlight > 0 && n.nextDue <= now
    ensures !N.Advance(n, now).1 ==> n.inFlight == 0 || n.nextDue > now
  {
    if n.inFlight > 0 && n.nextDue <= now {
      NM.AdvanceFromOk(n.(now := now), 0, now);
    }
  }

  lemma FlightsDrop(n: NT.Net, t: NT.Net, now: nat)
    requires n.inFlight == NI.Total(n.socks) > 0 && t.inFlight == NI.Total(t.socks) && |t.socks| == |n.socks|
    requires forall j :: 0 <= j < |n.socks| ==>
      t.socks[j].flight == n.socks[j].flight[NM.DueCount(n.socks[j].flight, now)..]
    requires t.nextDue == N.EarliestHead(t.socks, 0) && n.nextDue <= now
    ensures t.inFlight <= n.inFlight && StaleNet(t) == 0
    ensures t.inFlight < n.inFlight || StaleNet(n) == 1
  {
    TotalDrops(n.socks, t.socks, -1);
    if StaleNet(n) == 0 {
      SomethingFlies(n);
      var j :| 0 <= j < |n.socks| && n.socks[j].flight != [] && n.nextDue == n.socks[j].flight[0].due;
      assert NM.DueCount(n.socks[j].flight, now) >= 1;
      TotalDrops(n.socks, t.socks, j);
    }
  }
}

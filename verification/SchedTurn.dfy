/** One turn of the idle loop: the clock jumps to what comes next, and all that
    is due then happens. Either somebody can run again, or less is left to
    happen, or what still looms has come nearer. */
module SchedTurn {
  import opened Wrappers
  import opened SchedTypes
  import opened SchedSpec
  import opened SchedFaults
  import NT = NetTypes
  import N = NetSpec
  import NI = NetInv
  import NS = NetSteps
  import L = NetLater

  // ---- the steps of catching up -----------------------------------------------------

  function Stopping(p: Proc): Proc { if p.state != Gone && !p.killed then p.(stopped := true) else p }

  function StopThread(t: Thread, ps: seq<Proc>): Thread {
    if t.state != Exited && t.pid < |ps| && ps[t.pid].stopped then t.(state := Runnable) else t
  }

  predicate StopsNow(s: Snap) { StopOf(s).Some? && s.stopAt <= s.clock }

  /** The stop was due and happened, or nothing did. */
  predicate MaybeStopped(a: Snap, b: Snap) {
    if StopsNow(a) then StopRan(a, b) else b == a
  }

  predicate StopRan(a: Snap, b: Snap) {
    && b == a.(stopped := true, procs := b.procs, threads := b.threads)
    && |b.procs| == |a.procs| && |b.threads| == |a.threads|
    && (forall i {:trigger b.procs[i]} :: 0 <= i < |b.procs| ==> b.procs[i] == Stopping(a.procs[i]))
    && (forall i {:trigger b.threads[i]} :: 0 <= i < |b.threads| ==> b.threads[i] == StopThread(a.threads[i], b.procs))
  }

  lemma StoppedOk(a: Snap, b: Snap)
    requires Tables(a) && MaybeStopped(a, b) && NoneRunning(a.threads)
    ensures Tables(b) && NoneRunning(b.threads)
  {
    hide NI.Inv, Chained;
    forall i | 0 <= i < |b.threads|
      ensures b.threads[i].pid < |b.procs| && (Dead(b.procs[b.threads[i].pid]) ==> b.threads[i].state == Exited)
      ensures b.threads[i].state != Running
    {
      assert a.threads[i].pid < |a.procs|;
    }
    forall i | 0 <= i < |b.procs| ensures ProcOk(b.procs[i], |b.procs|) && LedgerSame(a.procs[i], b.procs[i]) {
      assert ProcOk(a.procs[i], |a.procs|);
    }
    ChainedSame(a.procs, b.procs, a.bills);
  }

  lemma StoppedCounts(a: Snap, b: Snap)
    requires MaybeStopped(a, b)
    ensures FreeSlots(b) == FreeSlots(a) && Alive(b) == Alive(a) && ShutdownsDue(b) == ShutdownsDue(a)
    ensures OneShots(b) == OneShots(a)
    ensures b == a || BeforeStop(b) < BeforeStop(a)
  {
    if b != a {
      CountEqual(a.procs, b.procs, IsAlive(), IsAlive());
      CountEqual(a.procs, b.procs, ToShutDown(), ToShutDown());
      CountEqual(a.procs, b.procs, OneShot(), OneShot());
    }
  }

  /** Whoever is left hears of the stop. */
  lemma StoppedThreads(a: Snap, b: Snap)
    requires MaybeStopped(a, b) && StopsNow(a) && ThreadsOk(a.threads, a.procs)
    ensures forall i {:trigger b.threads[i]} :: 0 <= i < |b.threads| ==>
              b.threads[i].state == Exited || b.threads[i].state == Runnable
  {
    forall i | 0 <= i < |b.threads| ensures b.threads[i].state == Exited || b.threads[i].state == Runnable {
      assert a.threads[i].pid < |a.procs|;
    }
  }

  lemma NetLinks(n: NT.Net)
    requires NI.Inv(n)
    ensures N.FarEndsInTable(n.socks)
  {
    NS.LinksStayInTable(n.socks);
  }

  predicate Arrives(s: Snap) { s.net.inFlight > 0 && s.net.nextDue <= s.clock }

  /** Traffic that was due has arrived. */
  ghost predicate Moved(a: Snap, b: Snap) {
    && b == a.(net := b.net, threads := b.threads)
    && b.threads == (if Arrives(a) then Each(a.threads, WakeIo()) else a.threads)
    && NI.Inv(b.net) && b.net.now == a.clock && L.Later(b.net)
    && (!Arrives(a) ==> b.net == a.net.(now := a.clock))
    && b.net.inFlight <= a.net.inFlight && (b.net.inFlight == a.net.inFlight ==> Stale(b) <= Stale(a))
    && (Arrives(a) ==> b.net.inFlight < a.net.inFlight || Stale(b) < Stale(a))
  }

  /** What `advance` is for, in the scheduler's terms */
  lemma MovedBy(a: Snap, b: Snap)
    requires NI.Inv(a.net) && N.FarEndsInTable(a.net.socks) && b == a.(net := b.net, threads := b.threads)
    requires b.net == N.Advance(a.net, a.clock).0
    requires b.threads == (if N.Advance(a.net, a.clock).1 then Each(a.threads, WakeIo()) else a.threads)
    ensures Moved(a, b)
  {
    hide NI.Inv, StaleNet, L.Later, N.AdvanceFrom;
    ArrivalMeasure(a.net, a.clock);
  }

  lemma MovedOk(a: Snap, b: Snap)
    requires Tables(a) && NoneRunning(a.threads) && Moved(a, b)
    ensures Tables(b) && NoneRunning(b.threads)
  {
    hide NI.Inv, L.Later, StaleNet, Chained;
    forall i | 0 <= i < |b.threads|
      ensures b.threads[i].pid < |b.procs| && (Dead(b.procs[b.threads[i].pid]) ==> b.threads[i].state == Exited)
      ensures b.threads[i].state != Running
    {
      assert a.threads[i].pid < |a.procs|;
    }
  }

  lemma StruckStates(a: Snap, b: Snap, dead: set<nat>, warned: set<nat>)
    requires Struck(a, b, dead, warned) && NoneRunning(a.threads)
    ensures NoneRunning(b.threads)
  {
    hide StruckProc, Asleep;
    forall i | 0 <= i < |b.threads| ensures b.threads[i].state != Running {
      if i < |a.threads| { assert b.threads[i] == StruckThread(a.procs, a.threads[i], dead, warned); }
    }
  }

  predicate RingsNow(p: Proc, now: nat) { p.state != Gone && p.alarmAt != 0 && p.alarmAt <= now }

  /** A blocked thread of a process whose timer is due */
  predicate Called(t: Thread, ps: seq<Proc>, now: nat) {
    t.state == Blocked && t.pid < |ps| && RingsNow(ps[t.pid], now)
  }

  function Rung(p: Proc, now: nat): Proc {
    if RingsNow(p, now)
    then p.(alarmAt := if p.alarmInterval == 0 then 0
      else now + p.alarmInterval, sigPending := p.sigPending + {SIGALRM})
    else p
  }

  /** The same, or woken */
  predicate Roused(t: Thread, u: Thread) { u == t || (t.state == Blocked && u == t.(state := Runnable)) }

  /** ... by its process's timer */
  predicate RousedBy(t: Thread, u: Thread, ps: seq<Proc>, now: nat) {
    Roused(t, u) && (u != t ==> t.pid < |ps| && RingsNow(ps[t.pid], now))
  }

  /** Deadlines that passed and timers that were due */
  ghost predicate Timed(a: Snap, b: Snap, c: Snap) {
    b == a.(threads := Each(a.threads, Expire(a.clock))) && Fired(b, c)
  }

  ghost predicate Fired(b: Snap, c: Snap) {
    && c == b.(procs := c.procs, threads := c.threads) && |c.procs| == |b.procs| && |c.threads| == |b.threads|
    && (forall i {:trigger c.procs[i]} :: 0 <= i < |c.procs| ==> c.procs[i] == Rung(b.procs[i], b.clock))
    && (forall i {:trigger c.threads[i]} :: 0 <= i < |c.threads| ==>
         RousedBy(b.threads[i], c.threads[i], b.procs, b.clock))
    && (forall i {:trigger b.threads[i]} :: 0 <= i < |b.threads| && Called(b.threads[i], b.procs, b.clock) ==>
          AnyRunnable(c.threads))
  }

  lemma TimersOk(a: Snap, b: Snap, c: Snap)
    requires Tables(a) && NoneRunning(a.threads) && Timed(a, b, c)
    ensures Tables(c) && NoneRunning(c.threads)
  {
    hide NI.Inv, ThreadsOk, ProcsOk, Chained, NoneRunning, AnyRunnable;
    TimersThreads(a, b, c);
    TimersProcs(a, b, c);
    forall i | 0 <= i < |c.procs| ensures LedgerSame(a.procs[i], c.procs[i]) { }
    ChainedSame(a.procs, c.procs, a.bills);
  }

  lemma TimersThreads(a: Snap, b: Snap, c: Snap)
    requires ThreadsOk(a.threads, a.procs) && NoneRunning(a.threads) && Timed(a, b, c)
    ensures ThreadsOk(c.threads, c.procs) && NoneRunning(c.threads)
  {
    hide AnyRunnable;
    forall i | 0 <= i < |c.threads|
      ensures c.threads[i].pid < |c.procs| && (Dead(c.procs[c.threads[i].pid]) ==> c.threads[i].state == Exited)
      ensures c.threads[i].state != Running
    {
      assert RousedBy(b.threads[i], c.threads[i], b.procs, b.clock) && a.threads[i].pid < |a.procs|;
    }
  }

  lemma TimersProcs(a: Snap, b: Snap, c: Snap)
    requires ProcsOk(a.procs) && Timed(a, b, c)
    ensures ProcsOk(c.procs)
  {
    hide AnyRunnable;
    forall i | 0 <= i < |c.procs| ensures ProcOk(c.procs[i], |c.procs|) { assert ProcOk(a.procs[i], |a.procs|); }
  }

  lemma TimersCount(a: Snap, b: Snap, c: Snap)
    requires Timed(a, b, c)
    ensures FreeSlots(c) == FreeSlots(a) && Alive(c) == Alive(a) && ShutdownsDue(c) == ShutdownsDue(a)
    ensures OneShots(c) <= OneShots(a)
    ensures forall i {:trigger a.procs[i]} ::
              0 <= i < |a.procs| && OneShot()(a.procs[i]) && a.procs[i].alarmAt <= a.clock ==>
                OneShots(c) < OneShots(a)
  {
    hide AnyRunnable;
    CountEqual(a.procs, c.procs, IsAlive(), IsAlive());
    CountEqual(a.procs, c.procs, ToShutDown(), ToShutDown());
    CountShrinks(a.procs, c.procs, OneShot(), -1);
    forall i | 0 <= i < |a.procs| && OneShot()(a.procs[i]) && a.procs[i].alarmAt <= a.clock
      ensures OneShots(c) < OneShots(a)
    {
      CountShrinks(a.procs, c.procs, OneShot(), i);
    }
  }

  lemma TimersProcsDue(a: Snap, b: Snap, c: Snap)
    requires Timed(a, b, c)
    requires NoneDue(a.procs, CrashOf, a.clock) && NoneDue(a.procs, ShutdownOf, a.clock)
    ensures NoneDue(c.procs, AlarmOf, c.clock)
    ensures NoneDue(c.procs, CrashOf, c.clock) && NoneDue(c.procs, ShutdownOf, c.clock)
  {
    hide AnyRunnable;
    forall i | 0 <= i < |c.procs|
      ensures AlarmOf(c.procs[i]).Some? ==> AlarmOf(c.procs[i]).value > c.clock
      ensures CrashOf(c.procs[i]) == CrashOf(a.procs[i]) && ShutdownOf(c.procs[i]) == ShutdownOf(a.procs[i])
    {
      assert c.procs[i] == Rung(b.procs[i], b.clock);
    }
  }

  lemma TimersThreadsDue(a: Snap, b: Snap, c: Snap)
    requires Timed(a, b, c)
    ensures NoneDue(c.threads, DeadlineOf, c.clock)
  {
    hide AnyRunnable;
    forall i | 0 <= i < |c.threads| && DeadlineOf(c.threads[i]).Some? ensures DeadlineOf(c.threads[i]).value > c.clock {
      assert RousedBy(b.threads[i], c.threads[i], b.procs, b.clock);
    }
  }

  /** The steps of catching up, put together */
  ghost predicate Caught(s0: Snap, s1: Snap, s2: Snap, s4: Snap, s5: Snap, s6: Snap, dead: set<nat>, warned: set<nat>) {
    && Tables(s0) && NoneRunning(s0.threads) && MaybeStopped(s0, s1) && Moved(s1, s2)
    && Struck(s2, s4, dead, warned) && AllOf(s2, dead, warned) && Tables(s4) && L.OnTime(s2.net, s4.net)
    && Timed(s4, s5, s6)
  }

  /** Nothing is due at the clock. */
  ghost predicate AtRest(s: Snap) {
    && NoneDue(s.threads, DeadlineOf, s.clock) && NoneDue(s.procs, CrashOf, s.clock)
    && NoneDue(s.procs, ShutdownOf, s.clock) && NoneDue(s.procs, AlarmOf, s.clock) && !StopsNow(s) && !Arrives(s)
  }

  /** The network has heard of the clock. */
  function Synced(s: Snap): Snap { s.(net := s.net.(now := s.clock)) }

  /** Where nothing is due, catching up does nothing. */
  lemma RestStays(s0: Snap, s1: Snap, s2: Snap, s4: Snap, s5: Snap, s6: Snap, dead: set<nat>, warned: set<nat>)
    requires Caught(s0, s1, s2, s4, s5, s6, dead, warned) && AtRest(s0)
    ensures s6 == Synced(s0)
  {
    hide Tables, NoneRunning, L.OnTime, L.Later, NI.Inv, StaleNet, StruckProc, StruckThread, Asleep, NewThreads, Recurs,
         AnyRunnable;
    assert s2 == Synced(s0);
    NobodyStruck(s2, s4, dead, warned);
    RestFires(s4, s5, s6);
  }

  lemma NobodyStruck(a: Snap, b: Snap, dead: set<nat>, warned: set<nat>)
    requires Struck(a, b, dead, warned) && AllOf(a, dead, warned)
    requires NoneDue(a.procs, CrashOf, a.clock) && NoneDue(a.procs, ShutdownOf, a.clock)
    ensures b == a
  {
    hide StruckProc, StruckThread, Asleep, NewThreads, Recurs;
    forall i | i in dead || i in warned ensures false { NotDueNow(a, b, dead, warned, i); }
    assert dead == {} && warned == {};
  }

  lemma NotDueNow(a: Snap, b: Snap, dead: set<nat>, warned: set<nat>, i: nat)
    requires Struck(a, b, dead, warned) && AllOf(a, dead, warned)
    requires NoneDue(a.procs, CrashOf, a.clock) && NoneDue(a.procs, ShutdownOf, a.clock)
    ensures i !in dead && i !in warned
  {
    hide StruckProc, StruckThread, Asleep, NewThreads, Recurs;
    if i < |a.procs| { assert CrashOf(a.procs[i]).Some? ==> CrashOf(a.procs[i]).value > a.clock; }
  }

  lemma RestFires(a: Snap, b: Snap, c: Snap)
    requires Timed(a, b, c) && NoneDue(a.threads, DeadlineOf, a.clock) && NoneDue(a.procs, AlarmOf, a.clock)
    ensures c == a
  {
    forall i | 0 <= i < |a.threads| ensures b.threads[i] == a.threads[i] { }
    assert b.threads == a.threads;
    forall i | 0 <= i < |a.procs| ensures !RingsNow(a.procs[i], a.clock) { }
    forall i | 0 <= i < |c.threads| ensures c.threads[i] == a.threads[i] {
      assert RousedBy(b.threads[i], c.threads[i], b.procs, b.clock);
    }
    assert c.threads == a.threads && c.procs == a.procs;
  }

  lemma CaughtOk(s0: Snap, s1: Snap, s2: Snap, s4: Snap, s5: Snap, s6: Snap, dead: set<nat>, warned: set<nat>)
    requires Caught(s0, s1, s2, s4, s5, s6, dead, warned)
    ensures Ok(s6) && NoneRunning(s6.threads) && NothingDue(s6) && s6.clock == s0.clock
  {
    hide NI.Inv, Chained, ThreadsOk, ProcsOk, Struck, L.Later, NoneRunning, NoneDue, N.Advance, Each, AllOf,
         StaleNet;
    StruckFixed(s2, s4, dead, warned);
    CaughtStop(s0, s1, s2, s4, s5, s6, dead, warned);
    StoppedOk(s0, s1);
    MovedOk(s1, s2);
    StruckStates(s2, s4, dead, warned);
    NoFaultDue(s2, s4, dead, warned);
    TimersOk(s4, s5, s6);
    TimersProcsDue(s4, s5, s6);
    TimersThreadsDue(s4, s5, s6);
  }

  lemma StruckFixed(a: Snap, b: Snap, dead: set<nat>, warned: set<nat>)
    requires Struck(a, b, dead, warned)
    ensures b.clock == a.clock && b.stopAt == a.stopAt && b.stopped == a.stopped && b.pct == a.pct
    ensures |a.threads| <= |b.threads| && |a.procs| <= |b.procs|
  {
  }

  lemma CaughtStop(s0: Snap, s1: Snap, s2: Snap, s4: Snap, s5: Snap, s6: Snap, dead: set<nat>, warned: set<nat>)
    requires Caught(s0, s1, s2, s4, s5, s6, dead, warned)
    ensures s6.stopAt == s0.stopAt && s6.stopped == s1.stopped && s6.clock == s0.clock && s6.pct == s0.pct
    ensures StopOf(s6).Some? ==> s6.stopAt > s6.clock
    ensures s6.net == s4.net
  {
    hide Tables, Struck, NoneRunning, Each, L.OnTime, AllOf, NI.Inv, L.Later, AnyRunnable;
    StruckFixed(s2, s4, dead, warned);
  }

  // ---- the measure --------------------------------------------------------------------

  ghost predicate NotHigher(a: Snap, b: Snap) { Lower(a, b) || Level(a, b) }

  /** Nothing but time and timers: no stop, arrival, death, signal or last ring */
  ghost predicate Quiet(s0: Snap, s1: Snap, s6: Snap, dead: set<nat>, warned: set<nat>) {
    && s1 == s0 && !Arrives(s1) && dead == {} && warned == {}
    && forall i {:trigger s0.procs[i]} :: 0 <= i < |s0.procs| && OneShot()(s0.procs[i]) ==>
         s0.procs[i].alarmAt > s0.clock
  }

  lemma CaughtCounts(s0: Snap, s1: Snap, s2: Snap, s4: Snap, s5: Snap, s6: Snap, dead: set<nat>, warned: set<nat>)
    requires Caught(s0, s1, s2, s4, s5, s6, dead, warned)
    ensures dead != {} ==> Fewer(s0, s6)
    ensures dead == {} ==> FreeSlots(s6) == FreeSlots(s0) && Alive(s6) == Alive(s0)
    ensures dead == {} && warned != {} ==> ShutdownsDue(s6) < ShutdownsDue(s0)
    ensures dead == {} && warned == {} ==> ShutdownsDue(s6) == ShutdownsDue(s0) && OneShots(s6) <= OneShots(s0)
    ensures dead == {} && warned == {} ==>
              forall i {:trigger s0.procs[i]} ::
                (0 <= i < |s0.procs| && OneShot()(s0.procs[i]) && s0.procs[i].alarmAt <= s0.clock) ==>
                OneShots(s6) < OneShots(s0)
  {
    hide Tables, NoneRunning, Each, L.OnTime, AllOf, NI.Inv, L.Later, AnyRunnable, StruckThread, Asleep, NewThreads,
         Alive, ShutdownsDue, StaleNet, OneShots, Timed;
    StoppedCounts(s0, s1);
    StruckLower(s2, s4, dead, warned);
    TimersCount(s4, s5, s6);
    CountsProcs(s1, s2);
    if dead == {} && warned == {} {
      forall i | 0 <= i < |s0.procs| && OneShot()(s0.procs[i]) && s0.procs[i].alarmAt <= s0.clock
        ensures OneShots(s6) < OneShots(s0)
      {
        assert StruckProc(s2.procs[i], s4.procs[i], false, false, s2.clock);
        assert OneShot()(s4.procs[i]) && s4.procs[i].alarmAt <= s4.clock;
      }
    }
  }

  lemma CountsProcs(a: Snap, b: Snap)
    requires b.procs == a.procs
    ensures FreeSlots(b) == FreeSlots(a) && Alive(b) == Alive(a) && ShutdownsDue(b) == ShutdownsDue(a)
    ensures OneShots(b) == OneShots(a)
  {
  }

  /** Catching up does not take the measure up, and takes it down unless all
      was quiet. */
  lemma CaughtLower(s0: Snap, s1: Snap, s2: Snap, s4: Snap, s5: Snap, s6: Snap, dead: set<nat>, warned: set<nat>)
    requires Caught(s0, s1, s2, s4, s5, s6, dead, warned)
    ensures NotHigher(s0, s6) && (Quiet(s0, s1, s6, dead, warned) || Lower(s0, s6))
  {
    hide Tables, NoneRunning, Each, L.OnTime, AllOf, NI.Inv, L.Later, AnyRunnable, Struck, Alive, ShutdownsDue,
         StaleNet, OneShots, Timed;
    CaughtCounts(s0, s1, s2, s4, s5, s6, dead, warned);
    CaughtStop(s0, s1, s2, s4, s5, s6, dead, warned);
    StoppedCounts(s0, s1);
    if dead == {} && warned == {} { QuietNet(s2, s4, dead, warned); }
  }

  lemma QuietNet(s2: Snap, s4: Snap, dead: set<nat>, warned: set<nat>)
    requires Struck(s2, s4, dead, warned) && dead == {} && warned == {}
    ensures s4.net == s2.net && |s4.procs| == |s2.procs| && |s4.threads| == |s2.threads|
    ensures forall i {:trigger s4.threads[i]} :: 0 <= i < |s4.threads| ==> s4.threads[i] == s2.threads[i]
    ensures forall i {:trigger s4.procs[i]} :: 0 <= i < |s4.procs| ==> Bystander(s2.procs[i], s4.procs[i])
  {
    hide Asleep, NewThreads;
    forall i | 0 <= i < |s4.procs| ensures Bystander(s2.procs[i], s4.procs[i]) {
      assert StruckProc(s2.procs[i], s4.procs[i], false, false, s2.clock);
    }
  }

  /** What looms happens, or is still to come. */
  ghost predicate LoomsOn(a: Snap, b: Snap) {
    forall t: nat {:trigger Looms(a, t)} {:trigger Looms(b, t)} :: Looms(a, t) ==>
      Lower(a, b) || AnyRunnable(b.threads) || (t > a.clock && Looms(b, t))
  }

  lemma CaughtLooms(s0: Snap, s1: Snap, s2: Snap, s4: Snap, s5: Snap, s6: Snap, dead: set<nat>, warned: set<nat>)
    requires Caught(s0, s1, s2, s4, s5, s6, dead, warned)
    ensures LoomsOn(s0, s6)
  {
    CaughtLower(s0, s1, s2, s4, s5, s6, dead, warned);
    hide Tables, NoneRunning, Each, L.OnTime, NI.Inv, L.Later, AnyRunnable, Struck, StaleNet, Lower, NotHigher,
         Looms, Quiet, Timed, Moved, MaybeStopped, AllOf;
    forall t: nat | Looms(s0, t)
      ensures Lower(s0, s6) || AnyRunnable(s6.threads) || (t > s0.clock && Looms(s6, t))
    {
      if Quiet(s0, s1, s6, dead, warned) && !AnyRunnable(s6.threads) {
        QuietLooms(s0, s1, s2, s4, s5, s6, dead, warned, t);
      }
    }
  }

  lemma QuietLooms(s0: Snap, s1: Snap, s2: Snap, s4: Snap, s5: Snap, s6: Snap, dead: set<nat>, warned: set<nat>, t: nat)
    requires Caught(s0, s1, s2, s4, s5, s6, dead, warned) && Quiet(s0, s1, s6, dead, warned) && Looms(s0, t)
    requires !AnyRunnable(s6.threads)
    ensures t > s0.clock && Looms(s6, t)
  {
    hide Tables, NoneRunning, L.OnTime, NI.Inv, L.Later, Struck, StaleNet, AllOf;
    QuietNet(s2, s4, dead, warned);
    CaughtStop(s0, s1, s2, s4, s5, s6, dead, warned);
    if i :| 0 <= i < |s0.threads| && DeadlineOf(s0.threads[i]) == Some(t) {
      QuietThread(s0, s1, s2, s4, s5, s6, dead, warned, i);
      assert DeadlineOf(s6.threads[i]) == Some(t);
    } else if p :| 0 <= p < |s0.procs| && ProcLooms(s0, p, t) {
      QuietProc(s0, s1, s2, s4, s5, s6, dead, warned, p, t);
    }
  }

  /** A blocked thread goes on waiting; had its deadline passed, or its
      process's timer rung, somebody could run. */
  lemma QuietThread(s0: Snap, s1: Snap, s2: Snap, s4: Snap, s5: Snap, s6: Snap, dead: set<nat>, warned: set<nat>,
    i: nat)
    requires Caught(s0, s1, s2, s4, s5, s6, dead, warned) && Quiet(s0, s1, s6, dead, warned) && !AnyRunnable(s6.threads)
    requires i < |s0.threads|
    ensures i < |s6.threads| && s6.threads[i] == s0.threads[i]
    ensures DeadlineOf(s0.threads[i]).Some? ==> DeadlineOf(s0.threads[i]).value > s0.clock
    ensures s0.threads[i].state != Exited && s0.threads[i].pid < |s4.procs| ==>
      !RingsNow(s4.procs[s0.threads[i].pid], s0.clock)
  {
    hide Tables, L.OnTime, NI.Inv, L.Later, Struck, StaleNet, AllOf, Stale;
    QuietNet(s2, s4, dead, warned);
    StruckFixed(s2, s4, dead, warned);
    assert s4.threads[i] == s0.threads[i];
    assert RousedBy(s5.threads[i], s6.threads[i], s5.procs, s5.clock);
    assert s6.threads[i].state != Runnable;
    assert s0.threads[i].state != Running;
  }

  lemma QuietProc(s0: Snap, s1: Snap, s2: Snap, s4: Snap, s5: Snap, s6: Snap, dead: set<nat>, warned: set<nat>, p: nat,
    t: nat)
    requires Caught(s0, s1, s2, s4, s5, s6, dead, warned) && Quiet(s0, s1, s6, dead, warned) && !AnyRunnable(s6.threads)
    requires p < |s0.procs| && ProcLooms(s0, p, t)
    ensures p < |s6.procs| && ProcLooms(s6, p, t) && t > s0.clock
  {
    hide Tables, NoneRunning, L.OnTime, NI.Inv, L.Later, Struck, StaleNet, AnyRunnable, Stale, HasThread;
    QuietNet(s2, s4, dead, warned);
    StruckFixed(s2, s4, dead, warned);
    assert s6.procs[p] == Rung(s4.procs[p], s4.clock) && Bystander(s2.procs[p], s4.procs[p]);
    assert !DiesNow(s2.procs[p], s2.clock) && !WarnsNow(s2.procs[p], s2.clock);
    if HasThread(s0.threads, p) { QuietTimer(s0, s1, s2, s4, s5, s6, dead, warned, p); }
  }

  lemma QuietTimer(s0: Snap, s1: Snap, s2: Snap, s4: Snap, s5: Snap, s6: Snap, dead: set<nat>, warned: set<nat>, p: nat)
    requires Caught(s0, s1, s2, s4, s5, s6, dead, warned) && Quiet(s0, s1, s6, dead, warned) && !AnyRunnable(s6.threads)
    requires p < |s0.procs| && HasThread(s0.threads, p)
    ensures p < |s4.procs| && !RingsNow(s4.procs[p], s0.clock) && HasThread(s6.threads, p)
  {
    hide Caught, Quiet, AnyRunnable, RingsNow;
    CaughtSizes(s0, s1, s2, s4, s5, s6, dead, warned);
    var i :| 0 <= i < |s0.threads| && s0.threads[i].pid == p && s0.threads[i].state != Exited;
    QuietThread(s0, s1, s2, s4, s5, s6, dead, warned, i);
    assert s6.threads[i].pid == p && s6.threads[i].state != Exited;
  }

  lemma CaughtSizes(s0: Snap, s1: Snap, s2: Snap, s4: Snap, s5: Snap, s6: Snap, dead: set<nat>, warned: set<nat>)
    requires Caught(s0, s1, s2, s4, s5, s6, dead, warned)
    ensures |s0.procs| == |s1.procs| == |s2.procs| <= |s4.procs| == |s5.procs| == |s6.procs|
    ensures |s0.threads| == |s1.threads| == |s2.threads| <= |s4.threads| == |s5.threads| == |s6.threads|
  {
    hide Tables, NoneRunning, L.OnTime, NI.Inv, L.Later, Struck, StaleNet, AnyRunnable, AllOf;
    StruckFixed(s2, s4, dead, warned);
  }

  // ---- what stays through it --------------------------------------------------------------

  lemma CaughtOnward(s0: Snap, s1: Snap, s2: Snap, s4: Snap, s5: Snap, s6: Snap, dead: set<nat>, warned: set<nat>)
    requires Caught(s0, s1, s2, s4, s5, s6, dead, warned)
    ensures Onward(s0, s6)
  {
    hide Tables, NoneRunning, AnyRunnable, L.OnTime, AllOf, L.Later, NI.Inv, StaleNet, Struck;
    assert Onward(s0, s1);
    assert Onward(s1, s2);
    StruckOnward(s2, s4, dead, warned);
    forall i | 0 <= i < |s4.procs|
      ensures ProcOnward(s4.procs[i], s6.procs[i]) && s6.procs[i].replacedBy == s4.procs[i].replacedBy
    { assert s6.procs[i] == Rung(s4.procs[i], s4.clock); }
    assert Onward(s4, s6);
    OnwardTrans(s0, s1, s2);
    OnwardTrans(s0, s2, s4);
    OnwardTrans(s0, s4, s6);
  }


  /** Who has left the schedule stays out, priorities and waiting marks stay,
      and new threads have no mark and rank above every demoted one. */
  predicate Carried(ts: seq<Thread>, us: seq<Thread>, pct: bool) {
    && |ts| <= |us|
    && (forall i {:trigger us[i]} :: 0 <= i < |ts| ==> CarriedOne(ts[i], us[i]))
    && (forall i {:trigger us[i]} :: |ts| <= i < |us| ==>
         us[i].waitingSince == 0 && (pct ==> us[i].priority > MAX_PCT_DEPTH))
  }

  predicate CarriedOne(t: Thread, u: Thread) {
    u.pid == t.pid && u.priority == t.priority && u.waitingSince == t.waitingSince && u.pausedUntil == t.pausedUntil
    && (t.state == Exited ==> u.state == Exited)
  }

  lemma CarriedRefl(ts: seq<Thread>, pct: bool)
    ensures Carried(ts, ts, pct)
  {
  }

  lemma CarriedTrans(ts: seq<Thread>, us: seq<Thread>, vs: seq<Thread>, pct: bool)
    requires Carried(ts, us, pct) && Carried(us, vs, pct)
    ensures Carried(ts, vs, pct)
  {
    forall i | 0 <= i < |ts| ensures CarriedOne(ts[i], vs[i]) {
      assert CarriedOne(ts[i], us[i]) && CarriedOne(us[i], vs[i]);
    }
    forall i | |ts| <= i < |vs| ensures vs[i].waitingSince == 0 && (pct ==> vs[i].priority > MAX_PCT_DEPTH) {
      if i < |us| { assert CarriedOne(us[i], vs[i]); }
    }
  }

  lemma CaughtCarried(s0: Snap, s1: Snap, s2: Snap, s4: Snap, s5: Snap, s6: Snap, dead: set<nat>, warned: set<nat>)
    requires Caught(s0, s1, s2, s4, s5, s6, dead, warned)
    ensures Carried(s0.threads, s6.threads, s0.pct)
  {
    hide Tables, NoneRunning, AnyRunnable, L.OnTime, AllOf, L.Later, NI.Inv, StaleNet, StruckProc, Asleep, Reached;
    forall i | 0 <= i < |s0.threads| ensures CarriedOne(s0.threads[i], s6.threads[i]) {
      assert CarriedOne(s0.threads[i], s1.threads[i]) && CarriedOne(s1.threads[i], s2.threads[i]);
      assert s4.threads[i] == StruckThread(s2.procs, s2.threads[i], dead, warned);
      assert RousedBy(s5.threads[i], s6.threads[i], s5.procs, s5.clock);
    }
    forall i | |s0.threads| <= i < |s6.threads|
      ensures s6.threads[i].waitingSince == 0 && (s0.pct ==> s6.threads[i].priority > MAX_PCT_DEPTH)
    {
      assert RousedBy(s5.threads[i], s6.threads[i], s5.procs, s5.clock);
    }
  }

  // ---- what comes next ------------------------------------------------------------------

  /** Something is due at `t`, or may arrive then. */
  ghost predicate Comes(s: Snap, t: nat) {
    || (exists i :: 0 <= i < |s.threads| && DeadlineOf(s.threads[i]) == Some(t))
    || NetOf(s) == Some(t) || StopOf(s) == Some(t)
    || (exists i :: 0 <= i < |s.procs| && CrashOf(s.procs[i]) == Some(t))
    || (exists i :: 0 <= i < |s.procs| && ShutdownOf(s.procs[i]) == Some(t))
    || (exists i :: 0 <= i < |s.procs| && AlarmOf(s.procs[i]) == Some(t))
  }

  lemma ComesPending(s: Snap, t: nat)
    requires Comes(s, t)
    ensures !NothingPending(s)
  {
  }

  /** The four searches over the tables */
  ghost predicate Firsts(s: Snap, d: Option<nat>, c: Option<nat>, sh: Option<nat>, al: Option<nat>) {
    Least(s.threads, DeadlineOf, d) && Least(s.procs, CrashOf, c)
    && Least(s.procs, ShutdownOf, sh) && Least(s.procs, AlarmOf, al)
  }

  lemma NoneComes(s: Snap, d: Option<nat>, c: Option<nat>, sh: Option<nat>, al: Option<nat>)
    requires Firsts(s, d, c, sh, al)
    ensures d.None? && c.None? && sh.None? && al.None? && StopOf(s).None? && NetOf(s).None? ==> NothingPending(s)
  {
  }

  lemma FirstComes(s: Snap, d: Option<nat>, c: Option<nat>, sh: Option<nat>, al: Option<nat>, t: nat)
    requires Firsts(s, d, c, sh, al)
    requires d == Some(t) || c == Some(t) || sh == Some(t) || al == Some(t) || StopOf(s) == Some(t)
      || NetOf(s) == Some(t)
    ensures Comes(s, t)
  {
  }

  lemma BeforeEach(s: Snap, d: Option<nat>, c: Option<nat>, sh: Option<nat>, al: Option<nat>, t: nat)
    requires Firsts(s, d, c, sh, al) && NI.Inv(s.net)
    requires (d.Some? ==> t <= d.value) && (c.Some? ==> t <= c.value) && (sh.Some? ==> t <= sh.value)
    requires (al.Some? ==> t <= al.value) && (StopOf(s).Some? ==> t <= s.stopAt)
      && (NetOf(s).Some? ==> t <= s.net.nextDue)
    ensures BeforeAll(s, t)
  {
    hide NI.Inv;
    BoundOnHeads(s.net, t);
  }

  lemma BoundOnHeads(n: NT.Net, t: nat)
    requires NI.Inv(n) && (n.inFlight > 0 ==> t <= n.nextDue)
    ensures forall i {:trigger n.socks[i]} :: 0 <= i < |n.socks| && n.socks[i].flight != [] ==>
      t <= n.socks[i].flight[0].due
  {
    hide NI.AllSocks, NI.Links, NI.Queues, NI.RefsAgree;
    if n.inFlight == 0 { NI.TotalZero(n.socks); }
  }

  lemma OkNet(s: Snap)
    requires Ok(s)
    ensures NI.Inv(s.net) && Tables(s)
  {
  }

  lemma JumpTables(a: Snap, b: Snap)
    requires Ok(a) && b == a.(clock := b.clock)
    ensures Tables(b)
  {
  }

  /** The measure does not read the clock. */
  lemma JumpLower(a: Snap, b: Snap, c: Snap)
    requires b == a.(clock := b.clock)
    ensures Lower(b, c) <==> Lower(a, c)
    ensures Level(b, c) <==> Level(a, c)
    ensures forall t: nat {:trigger Looms(a, t)} {:trigger Looms(b, t)} :: Looms(a, t) <==> Looms(b, t)
  {
    hide StaleNet, Alive, ShutdownsDue, OneShots;
    CountsProcs(a, b);
    forall t: nat ensures Looms(a, t) <==> Looms(b, t) {
      forall p | 0 <= p < |a.procs| ensures ProcLooms(a, p, t) == ProcLooms(b, p, t) { }
    }
  }

  /** A turn does not take the measure up, and brings what looms nearer. */
  lemma TurnLower(a: Snap, b: Snap, c: Snap, t: nat)
    requires NothingDue(a) && Comes(a, t) && b == a.(clock := Max(a.clock, t)) && LoomsOn(b, c) && NotHigher(b, c)
    requires c.clock == b.clock
    ensures NotHigher(a, c)
    ensures forall u: nat {:trigger Looms(a, u)} :: Looms(a, u) ==>
              Lower(a, c) || AnyRunnable(c.threads) || (Looms(c, u) && c.clock > a.clock && u > c.clock)
  {
    JumpLower(a, b, c);
    hide Lower, Level, Looms, L.Later;
    if t <= a.clock {
      OnlyTheNet(a, t);
      assert Looms(b, t);
    }
  }

  lemma OnlyTheNet(a: Snap, t: nat)
    requires NothingDue(a) && Comes(a, t) && t <= a.clock
    ensures NetOf(a) == Some(t) && Looms(a, t)
  {
    hide L.Later;
  }
}

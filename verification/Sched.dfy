/** The baton scheduler (`shared.rs`): one thread of the run goes at a time,
    in virtual time, and every death, arrival and timer is a point of its
    schedule. */
module Sched {
  import opened Wrappers
  import opened SchedTypes
  import opened SchedSpec
  import opened SchedFaults
  import opened SchedPct
  import opened SchedTurn
  import opened SchedEnds
  import opened SchedChoice
  import opened SchedHands
  import CondVars
  import R = Rng
  import NT = NetTypes
  import N = NetSpec
  import NI = NetInv
  import NP = NetProcs
  import NR = NetRun
  import L = NetLater

  const NO_THREAD: nat := 0xFFFF_FFFF

  /** What a run is started with, as far as the scheduler reads it; `pauseNum`
      in `pauseDen` choices pause the chosen thread. */
  datatype Config = Config(
    quantumLo: nat, quantumHi: nat, switchNs: nat, stopAt: nat,
    pauseNum: nat, pauseDen: nat, pauseLo: nat, pauseHi: nat, reseedAt: nat, reseedWith: bv64,
    pct: bool, pctDepth: nat, pctStarve: nat, pctHorizon: nat)

  predicate ConfigOk(c: Config) {
    c.quantumLo <= c.quantumHi && (c.pauseNum != 0 ==> c.pauseDen > 0 && 0 < c.pauseLo <= c.pauseHi < R.TWO63)
  }

  /** Until when PCT decides */
  function Horizon(c: Config): nat { Max(c.pctHorizon, 1) }

  /** Where a draw alone decides, the thread that runs is the one drawn, and its
      quantum is drawn next. */
  ghost predicate LotFell(c: Config, ts: seq<Thread>, now: nat, start: R.State, r: nat, quantum: nat) {
    !(c.pct && now < Horizon(c)) && c.pauseNum == 0 ==>
      && r < |ts| && ByLot(ts[r := ts[r].(state := Runnable)], now, start, r) && c.quantumLo <= c.quantumHi
      && quantum == c.quantumLo + R.Scaled(R.Next(R.Next(start).1).0, c.quantumHi - c.quantumLo + 1)
  }

  /** The thread that has the baton sinks to the number of a change point. */
  function Sunk(ts: seq<Thread>, current: nat, n: nat): seq<Thread> {
    if current < |ts| then ts[current := ts[current].(priority := n)] else ts
  }

  /** All change points up to now are taken, and the holder has sunk to the last
      of them. */
  predicate PointsTaken(ts: seq<Thread>, us: seq<Thread>, at: seq<nat>, n: nat, m: nat, now: nat, current: nat) {
    && n <= m <= |at| && (forall i :: n <= i < m ==> at[i] <= now) && (m < |at| ==> at[m] > now)
    && us == if m > n then Sunk(ts, current, m) else ts
  }

  /** Whether a choice is followed by a pause of the chosen thread, as drawn */
  predicate Holds(c: Config, p: R.State)
    requires ConfigOk(c)
  {
    c.pauseNum != 0 && R.Scaled(R.Next(p).0, c.pauseDen) < c.pauseNum
  }

  /** ... until when, from the next two outputs */
  function PausedAt(c: Config, ts: seq<Thread>, r: nat, now: nat, p: R.State): seq<Thread>
    requires ConfigOk(c) && Holds(c, p) && r < |ts|
  {
    ts[r := ts[r].(pausedUntil := now + R.LogDraw(R.Next(p).1, c.pauseLo, c.pauseHi))]
  }

  /** The pauses' stream after a choice */
  function PausesAfter(c: Config, p: R.State): R.State
    requires ConfigOk(c)
  {
    if c.pauseNum == 0 then p
    else if Holds(c, p) then R.Next(R.Next(R.Next(p).1).1).1
    else R.Next(p).1
  }

  /** One choice, PCT's below its horizon and otherwise drawn */
  ghost predicate ChosenBy(c: Config, ts: seq<Thread>, us: seq<Thread>, honour: bool, now: nat, s: R.State, t: R.State,
                           r: nat)
  {
    if c.pct && now < Horizon(c) then
      IsChoice(ts, honour, now, c.pctStarve, r) && us == Marked(ts, r, now) && t == s
    else us == ts && Drawn(ts, honour, now, s, r) && t == R.Next(s).1
  }

  /** A whole choice among `ts`: pauses are passed over while anybody else can
      run; of two or more the chosen one may be held back, and another chosen. */
  ghost predicate Picked(c: Config, ts: seq<Thread>, us: seq<Thread>, now: nat, s: R.State, t: R.State, p: R.State,
                         q: R.State, r: nat)
    requires ConfigOk(c)
  {
    var unpaused := Count(ts, Waits(true, now));
    if unpaused <= 1 then ChosenBy(c, ts, us, unpaused == 1, now, s, t, r) && q == p
    else
      exists first: nat, mid: seq<Thread>, s1: R.State {:trigger ChosenBy(c, ts, mid, true, now, s, s1, first)} ::
        && ChosenBy(c, ts, mid, true, now, s, s1, first) && first < |mid| && q == PausesAfter(c, p)
        && if Holds(c, p) then ChosenBy(c, PausedAt(c, mid, first, now, p), us, true, now, s1, t, r)
           else r == first && us == mid && t == s1
  }

  lemma PickedOnce(c: Config, ts: seq<Thread>, us: seq<Thread>, now: nat, s: R.State, t: R.State, p: R.State, r: nat,
                   unpaused: bool)
    requires ConfigOk(c) && ChosenBy(c, ts, us, unpaused, now, s, t, r)
    requires Candidates(ts, true, now) == if unpaused then 1 else 0
    ensures Picked(c, ts, us, now, s, t, p, p, r)
  {
    hide ChosenBy, Holds, PausedAt, PausesAfter;
    CountEqual(ts, ts, CanRun(true, now), Waits(true, now));
  }

  lemma PickedTwice(c: Config, ts: seq<Thread>, mid: seq<Thread>, us: seq<Thread>, now: nat, s: R.State, s1: R.State,
                    t: R.State, p: R.State, q: R.State, first: nat, r: nat)
    requires ConfigOk(c) && Candidates(ts, true, now) > 1 && first < |mid|
    requires ChosenBy(c, ts, mid, true, now, s, s1, first) && q == PausesAfter(c, p)
    requires if !Holds(c, p) then r == first && us == mid && t == s1
             else ChosenBy(c, PausedAt(c, mid, first, now, p), us, true, now, s1, t, r)
    ensures Picked(c, ts, us, now, s, t, p, q, r)
  {
    hide ChosenBy, Holds, PausedAt, PausesAfter;
    CountEqual(ts, ts, CanRun(true, now), Waits(true, now));
  }

  lemma LotFalls(c: Config, ts: seq<Thread>, us: seq<Thread>, now: nat, start: R.State, r: nat, quantum: nat)
    requires ConfigOk(c) && r < |ts| && ts[r].state == Runnable && us == ts[r := ts[r].(state := Running)]
    requires !(c.pct && now < Horizon(c)) && c.pauseNum == 0 ==>
               ByLot(ts, now, start, r)
               && quantum == c.quantumLo + R.Scaled(R.Next(R.Next(start).1).0, c.quantumHi - c.quantumLo + 1)
    ensures LotFell(c, us, now, start, r, quantum)
  {
    hide ByLot, R.Scaled, R.Next;
    assert us[r := us[r].(state := Runnable)] == ts;
  }

  /** The streams of choices, faults, pauses and PCT that one seed stands for */
  function Streams(seed: bv64): (R.State, R.State, R.State, R.State) {
    (R.FromSeed(seed), R.FromSeed(seed ^ 0xFA17_FA17_FA17_FA17),
     R.FromSeed(seed ^ 0x9A05_E9A0_5E9A_05E9), R.FromSeed(seed ^ 0x0C70_0C70_0C70_0C70))
  }

  class State {
    const cfg: Config
    var threads: seq<Thread>
    var procs: seq<Proc>
    var net: NT.Net
    var clock: nat
    var current: nat
    var stopped: bool
    var restarts: nat
    var nextCondSeq: nat
    var rng: R.State
    var faultRng: R.State
    var pauseRng: R.State
    var pctRng: R.State
    var reseeded: bool
    var pendingQuantum: nat
    var pctChangeAt: seq<nat>
    var pctNext: nat
    /** Threads a change point has dropped */
    ghost var demoted: set<nat>
    /** What each life was granted of its entry's faults, and had of them */
    ghost var bills: seq<Bill>

    ghost function Now(): Snap
      reads this
    {
      Snap(threads, procs, net, clock, cfg.stopAt, stopped, cfg.pct, bills)
    }

    /** What the future of the idle loop depends on */
    function Ahead(): Outlook
      reads this
    {
      Outlook(threads, procs, if net.inFlight > 0 then Some(net.nextDue) else None, clock,
              cfg.stopAt != 0 && !stopped, stopped, |procs| < MAX_PROCS && |threads| < MAX_THREADS)
    }

    // ---- passes over the threads -----------------------------------------------

    method EachThread(f: Thread -> Thread)
      modifies `threads
      ensures threads == Each(old(threads), f)
    {
      for i := 0 to |threads|
        invariant |threads| == |old(threads)|
        invariant forall j :: 0 <= j < i ==> threads[j] == f(old(threads)[j])
        invariant forall j :: i <= j < |threads| ==> threads[j] == old(threads)[j]
      {
        threads := threads[i := f(threads[i])];
      }
    }

    // ---- new processes and threads -----------------------------------------------

    method AddProc(host: nat, parent: Option<nat>) returns (pid: nat)
      requires |procs| < MAX_PROCS && (parent.Some? ==> parent.value < |procs|)
      modifies `procs, `bills
      ensures pid == |old(procs)| && procs == old(procs) + [NewProc(host, parent)]
        && bills == old(bills) + [Bill(0, 0, 0, 0)]
    {
      pid := |procs|;
      procs := procs + [NewProc(host, parent)];
      bills := bills + [Bill(0, 0, 0, 0)];
    }

    /** It starts parked and runnable. */
    method AddThread(pid: nat) returns (id: nat)
      requires |threads| < MAX_THREADS
      modifies `threads, `pctRng
      ensures id == |old(threads)| && |threads| == id + 1 && threads[..id] == old(threads)
      ensures threads[id] == NewThread(pid, threads[id].priority)
      ensures cfg.pct ==> threads[id].priority > MAX_PCT_DEPTH
      // half of an output above the change points' numbers
      ensures if cfg.pct then
                threads[id].priority == MAX_PCT_DEPTH + 1 + (R.Next(old(pctRng)).0 >> 1) as nat
                && pctRng == R.Next(old(pctRng)).1
              else threads[id].priority == 0 && pctRng == old(pctRng)
    {
      hide R.Next;
      id := |threads|;
      var priority := 0;
      if cfg.pct {
        var x, next := R.Next(pctRng).0, R.Next(pctRng).1;
        pctRng := next;
        priority := MAX_PCT_DEPTH + 1 + (x >> 1) as nat;
      }
      threads := threads + [NewThread(pid, priority)];
    }

    method FaultBelow(n: nat) returns (v: nat)
      requires n > 0
      modifies `faultRng
      ensures v < n && v == R.Scaled(R.Next(old(faultRng)).0, n) && faultRng == R.Next(old(faultRng)).1
    {
      hide R.Next, R.Scaled;
      var x, next := R.Next(faultRng).0, R.Next(faultRng).1;
      R.ScaledBound(x, n);
      faultRng := next;
      v := R.Scaled(x, n);
    }

    /** Draws a life's crash and shutdown times; 0 stands for never. */
    method DrawCrash(pid: nat, starts: nat)
      requires pid < |procs| && FaultsOk(procs[pid].faults)
      modifies `procs, `faultRng
      ensures |procs| == |old(procs)|
      ensures procs
        == old(procs)[pid := old(procs)[pid].(crashAt := procs[pid].crashAt, shutdownAt := procs[pid].shutdownAt)]
      ensures var f := procs[pid].faults;
              && (procs[pid].crashAt == 0 <==> f.crashHi == 0 || f.crashesLeft == 0)
              && (procs[pid].shutdownAt == 0 <==> f.shutdownHi == 0 || f.shutdownsLeft == 0)
              && (procs[pid].crashAt != 0 ==> DrawnIn(procs[pid].crashAt, starts, f.crashLo, f.crashHi))
              && (procs[pid].shutdownAt != 0 ==> DrawnIn(procs[pid].shutdownAt, starts, f.shutdownLo, f.shutdownHi))
      // the times are those drawn
      ensures TimesFrom(procs[pid], starts, old(faultRng), faultRng)
    {
      hide R.Next, R.Scaled;
      var f := procs[pid].faults;
      var crashAt, shutdownAt := 0, 0;
      if f.crashHi != 0 && f.crashesLeft != 0 {
        var d := FaultBelow(f.crashHi - f.crashLo + 1);
        crashAt := Max(starts + f.crashLo + d, 1);
      }
      if f.shutdownHi != 0 && f.shutdownsLeft != 0 {
        var d := FaultBelow(f.shutdownHi - f.shutdownLo + 1);
        shutdownAt := Max(starts + f.shutdownLo + d, 1);
      }
      procs := procs[pid := procs[pid].(crashAt := crashAt, shutdownAt := shutdownAt)];
    }

    /** A process of the run file gets its entry's faults. */
    method SetFaults(pid: nat, faults: Faults, spec: nat)
      requires pid < |procs| == |bills| && FaultsOk(faults) && !Dead(procs[pid])
      modifies `procs, `faultRng, `bills
      ensures |procs| == |old(procs)|
      ensures procs == old(procs)[pid := old(procs)[pid].(faults := faults, spec := Some(spec),
                                                          crashAt := procs[pid].crashAt,
                                                          shutdownAt := procs[pid].shutdownAt)]
      ensures bills == old(bills)[pid := Bill(faults.crashesLeft, 0, faults.shutdownsLeft, 0)]
      ensures TimesDrawn(procs[pid], clock) && TimesFrom(procs[pid], clock, old(faultRng), faultRng)
    {
      hide TimesFrom;
      procs := procs[pid := procs[pid].(faults := faults, spec := Some(spec))];
      bills := bills[pid := Bill(faults.crashesLeft, 0, faults.shutdownsLeft, 0)];
      DrawCrash(pid, clock);
    }

    /** If its entry still allows it, `victim` gets a successor, asleep until a
        drawn delay has passed. */
    method RegisterRestart(victim: nat, status: int)
      requires Tables(Now()) && victim < |procs| && Dead(procs[victim])
      modifies `procs, `threads, `restarts, `faultRng, `pctRng, `bills
      ensures Tables(Now())
      ensures var due := old(procs)[victim].replacedBy.None? && RestartDue(old(procs)[victim], status, stopped)
                         && HasRoom(old(Now()));
              if due then Reborn(old(Now()), Now(), victim) && restarts == old(restarts) + 1
              else Now() == old(Now()) && restarts == old(restarts) && faultRng == old(faultRng)
      ensures |procs| > |old(procs)| ==> LifeDrawn(old(Now()), Now(), victim, old(faultRng), faultRng)
    {
      hide NI.Inv, Chained, ThreadsOk, Reborn, RestartDue, LifeDrawn;
      if procs[victim].replacedBy.Some? || !RestartDue(procs[victim], status, stopped) { return; }
      if !(|procs| < MAX_PROCS && |threads| < MAX_THREADS) { return; }
      ghost var a := Now();
      TablesNet(a);
      DueFaults(a, victim, status);
      Birth(victim);
      restarts := restarts + 1;
      RebornTables(a, Now(), victim);
    }

    /** The process, its budget one restart smaller, and its main thread */
    method Birth(victim: nat)
      requires victim < |procs| < MAX_PROCS && |threads| < MAX_THREADS && |bills| == |procs|
      requires Dead(procs[victim]) && procs[victim].replacedBy.None? && FaultsOk(procs[victim].faults)
      requires procs[victim].faults.restartsLeft > 0 && procs[victim].spec.Some?
      modifies `procs, `threads, `faultRng, `pctRng, `bills
      ensures Reborn(old(Now()), Now(), victim) && ProcOk(procs[|old(procs)|], |procs|)
      // when it begins is drawn, then its faults
      ensures LifeDrawn(old(Now()), Now(), victim, old(faultRng), faultRng)
    {
      hide RestartDue, R.Next, R.Scaled, TimesFrom, LifeDrawn, Reborn, ProcOk;
      ghost var a := Now();
      var host, spec, faults := procs[victim].host, procs[victim].spec, procs[victim].faults;
      if faults.restartsLeft != NO_LIMIT {
        faults := faults.(restartsLeft := faults.restartsLeft - 1);
      }
      var down := FaultBelow(faults.delayHi - faults.delayLo + 1);
      ghost var drawn := faultRng;
      var starts := clock + Max(faults.delayLo + down, 1);
      var n := EnterLife(victim, host, faults, spec);
      EnterThread(n, starts);
      ghost var b := Now();
      DrawCrash(n, starts);
      BirthOk(a, b, Now(), victim, starts, faults);
      LifeIsDrawn(a, Now(), victim, old(faultRng), faultRng, starts);
    }

    method EnterLife(victim: nat, host: nat, faults: Faults, spec: Option<nat>) returns (n: nat)
      requires victim < |procs| < MAX_PROCS && |bills| == |procs|
      modifies `procs, `bills
      ensures n == |old(procs)|
      ensures procs == (old(procs) + [NewProc(host, None).(faults := faults, spec := spec)])
                         [victim := old(procs)[victim].(replacedBy := Some(n))]
      ensures bills == old(bills) + [Bill(faults.crashesLeft, 0, faults.shutdownsLeft, 0)]
    {
      n := AddProc(host, None);
      procs := procs[n := procs[n].(faults := faults, spec := spec)];
      bills := bills[n := Bill(faults.crashesLeft, 0, faults.shutdownsLeft, 0)];
      procs := procs[victim := procs[victim].(replacedBy := Some(n))];
    }

    /** Its main thread waits for the life to begin. */
    method EnterThread(n: nat, starts: nat)
      requires |threads| < MAX_THREADS
      modifies `threads, `pctRng
      ensures |threads| == |old(threads)| + 1
      ensures threads == old(threads) + [NewThread(n, threads[|old(threads)|].priority)
                                         .(state := Blocked, key := RESTART_KEY, deadline := starts)]
      ensures cfg.pct ==> threads[|old(threads)|].priority > MAX_PCT_DEPTH
    {
      ghost var ts := threads;
      var main := AddThread(n);
      threads := threads[main := threads[main].(state := Blocked, key := RESTART_KEY, deadline := starts)];
      assert threads[..main] == ts;
    }

    // ---- deaths ---------------------------------------------------------------------

    /** A process is killed: it loses threads and sockets at once, those its
        death concerns wake, and its successor is entered. */
    method Crash(victim: nat)
      requires Tables(Now()) && victim < |procs| && !Dead(procs[victim])
      modifies `procs, `threads, `net, `restarts, `faultRng, `pctRng, `bills
      ensures Tables(Now()) && Death(old(Now()), Now(), victim) && L.OnTime(old(net), net) && |procs| >= |old(procs)|
      ensures N.SetRefs(old(net), victim, []) == Some(net)
      ensures Bereft(old(Now()), Now(), victim, Crashed(old(procs)[victim], clock))
    {
      hide NI.Inv, Tables, L.OnTime, Reborn, Recurs, RestartDue, Bystander, Mourn, Bereft;
      ghost var a := Now();
      ParentIn(a, victim);
      TablesNet(a);
      var parent := procs[victim].parent;
      EachThread(Retire(victim));
      procs := procs[victim := Crashed(procs[victim], clock)];
      ghost var m := Now();
      TellOthers(victim, parent);
      ghost var b := Now();
      ToldMourned(a, m, b, victim);
      CrashCondemned(a, m, b, victim);
      MournedTables(a, b, victim);
      RegisterRestart(victim, KILLED_STATUS);
      RecursIs(b, victim);
      ThenReborn(a, b, Now(), victim);
      ToldBereft(a, m, b, Now(), victim);
    }

    /** Its descriptors close, whoever waits for one looks again, and its parent
        hears of it. */
    method TellOthers(victim: nat, parent: Option<nat>)
      requires NI.Inv(net) && (parent.Some? ==> parent.value < |procs|)
      modifies `net, `threads, `procs
      ensures NI.Inv(net) && N.SetRefs(old(net), victim, []) == Some(net) && L.OnTime(old(net), net)
      ensures Told(old(Now()), Now(), victim, parent)
    {
      hide NI.Inv, L.OnTime;
      CloseAll(victim);
      EachThread(WakeIo());
      if parent.Some? {
        procs := procs[parent.value := procs[parent.value].(childDeaths := procs[parent.value].childDeaths + 1,
                                                            lastDeadChild := victim)];
        EachThread(WakeKey(parent.value, WAIT_KEY));
      }
    }

    /** A dead process's descriptors are closed. */
    method CloseAll(pid: nat)
      requires NI.Inv(net)
      modifies `net
      ensures NI.Inv(net) && N.SetRefs(old(net), pid, []) == Some(net) && L.OnTime(old(net), net)
    {
      NP.ProcessDiedOk(net, pid);
      L.SetRefsOnTime(net, pid, []);
      net := N.SetRefs(net, pid, []).value;
    }

    // ---- faults that are due -----------------------------------------------------------

    /** A crash that is due happens: it is no longer to come, and one less is
        left. */
    method InjectCrash(pid: nat, ghost a: Snap, ghost dead: set<nat>)
      requires Tables(Now()) && pid < |procs| && CrashOf(procs[pid]).Some?
      requires procs[pid].crashAt <= clock == a.clock
      requires Struck(a, Now(), dead, {}) && pid < |a.procs| && pid !in dead
      modifies `procs, `threads, `net, `restarts, `faultRng, `pctRng, `bills
      ensures Tables(Now()) && L.OnTime(old(net), net) && Struck(a, Now(), dead + {pid}, {})
    {
      hide NI.Inv, Chained, ThreadsOk, Death, L.OnTime, ProcOk, Struck;
      ghost var b := Now();
      CrashCovered(b, pid);
      TablesNet(b);
      if procs[pid].faults.crashesLeft != NO_LIMIT {
        procs :=
          procs[pid := procs[pid].(faults := procs[pid].faults.(crashesLeft := procs[pid].faults.crashesLeft - 1))];
      }
      procs := procs[pid := procs[pid].(crashAt := 0)];
      bills := bills[pid := bills[pid].(crashes := bills[pid].crashes + 1)];
      ghost var c := Now();
      BilledOk(b, c, pid);
      Crash(pid);
      StruckDeath(a, b, c, Now(), dead, {}, pid);
    }

    /** All crashes that are due, in order of process */
    method InjectDueCrashes() returns (ghost dead: set<nat>)
      requires Tables(Now())
      modifies `procs, `threads, `net, `restarts, `faultRng, `pctRng, `bills
      ensures Tables(Now()) && L.OnTime(old(net), net) && Struck(old(Now()), Now(), dead, {})
      ensures CrashSet(old(Now()), dead)
    {
      hide Tables, L.OnTime, Struck;
      ghost var a := Now();
      OnTimeRefl(net);
      StruckNone(a);
      StruckFixed(a, a, {}, {});
      dead := {};
      var n := |procs|;
      for pid := 0 to n
        invariant Tables(Now()) && L.OnTime(a.net, net) && Struck(a, Now(), dead, {}) && n <= |procs|
          && clock == a.clock
        invariant forall i {:trigger a.procs[i]} :: 0 <= i < n ==>
          (i in dead <==> i < pid && CrashesNow(a.procs[i], a.clock))
      {
        StruckTimes(a, Now(), dead, {}, pid);
        var due := CrashOf(procs[pid]);
        if due.None? || due.value > clock { continue; }
        ghost var b := Now();
        InjectCrash(pid, a, dead);
        dead := dead + {pid};
        OnTimeTrans(a.net, b.net, net);
        StruckFixed(a, Now(), dead, {});
      }
    }

    /** A signal from elsewhere: it stays pending, and whoever of the process
        blocks wakes to see it. */
    method PostSignal(pid: nat, sig: nat)
      requires pid < |procs|
      modifies `procs, `threads
      ensures threads == Each(old(threads), WakeForSignal(pid))
      ensures procs == old(procs)[pid := old(procs)[pid].(sigPending := old(procs)[pid].sigPending + {sig})]
    {
      procs := procs[pid := procs[pid].(sigPending := procs[pid].sigPending + {sig})];
      EachThread(WakeForSignal(pid));
    }

    /** The shutdown signal is sent, and the grace period begins. */
    method SendShutdown(pid: nat)
      requires pid < |procs| == |bills| && procs[pid].faults.shutdownsLeft > 0
      modifies `procs, `threads, `bills
      ensures Warned(old(Now()), Now(), pid) && |procs| == |old(procs)|
    {
      hide Warned;
      ghost var a := Now();
      var signal := procs[pid].faults.signal;
      StartGrace(pid);
      PostSignal(pid, signal);
      EachThread(WakeIo());
      WarnedIs(a, Now(), pid);
    }

    method StartGrace(pid: nat)
      requires pid < |procs| == |bills| && procs[pid].faults.shutdownsLeft > 0
      modifies `procs, `bills
      ensures procs == old(procs)[pid := InGrace(old(procs)[pid], clock)]
      ensures bills == old(bills)[pid := old(bills)[pid].(shutdowns := old(bills)[pid].shutdowns + 1)]
    {
      var f := procs[pid].faults;
      if f.shutdownsLeft != NO_LIMIT {
        procs := procs[pid := procs[pid].(faults := f.(shutdownsLeft := f.shutdownsLeft - 1))];
      }
      procs := procs[pid := procs[pid].(shutdownAt := 0, killAt := clock + Max(f.grace, 1), shutDown := true)];
      bills := bills[pid := bills[pid].(shutdowns := bills[pid].shutdowns + 1)];
    }

    /** Shutdowns whose time has come send their signal; grace periods that are
        over end in a death. `a` is the run before the crashes of the moment,
        which were those of `first`. */
    method InjectDueShutdowns(ghost a: Snap, ghost first: set<nat>)
      returns (ghost dead: set<nat>, ghost warned: set<nat>)
      requires Tables(Now()) && Struck(a, Now(), first, {})
      requires CrashSet(a, first)
      modifies `procs, `threads, `net, `restarts, `faultRng, `pctRng, `bills
      ensures Tables(Now()) && L.OnTime(old(net), net) && Struck(a, Now(), dead, warned) && AllOf(a, dead, warned)
    {
      hide NI.Inv, Tables, L.OnTime, Struck, Warned, Death, Upto;
      ghost var n0 := net;
      OnTimeRefl(net);
      StruckFixed(a, Now(), first, {});
      UptoNone(a, first);
      dead, warned := first, {};
      var n := |procs|;
      for pid := 0 to n
        invariant Tables(Now())
        invariant L.OnTime(n0, net)
        invariant Struck(a, Now(), dead, warned)
        invariant |a.procs| <= n <= |procs| && clock == a.clock
        invariant Upto(a, dead, warned, pid)
      {
        StruckTimes(a, Now(), dead, warned, pid);
        UptoNext(a, Now(), dead, warned, pid);
        var p := procs[pid];
        if Dead(p) { continue; }
        ghost var b := Now();
        if p.killAt != 0 && p.killAt <= clock {
          NoCrashDue(a, b, dead, warned, pid);
          Crash(pid);
          StruckDeath(a, b, b, Now(), dead, warned, pid);
          UptoDies(a, b, dead, warned, pid);
          dead := dead + {pid};
          OnTimeTrans(n0, b.net, net);
          StruckFixed(a, Now(), dead, warned);
          continue;
        }
        if p.shutdownAt == 0 || p.shutdownAt > clock { continue; }
        TablesShutdown(b, pid);
        SendShutdown(pid);
        WarnedOk(b, Now(), pid);
        StruckWarn(a, b, Now(), dead, warned, pid);
        UptoWarned(a, b, dead, warned, pid);
        warned := warned + {pid};
        StruckFixed(a, Now(), dead, warned);
      }
      UptoAll(a, dead, warned, n);
    }

    // ---- the stop, arrivals and timers -------------------------------------------------

    /** The stop time is reached: living processes are told through all of
        their threads, which become runnable. */
    method StopRun()
      modifies `stopped, `procs, `threads
      ensures StopRan(old(Now()), Now())
    {
      stopped := true;
      for pid := 0 to |procs|
        invariant stopped && |procs| == |old(procs)| && threads == old(threads)
        invariant forall j {:trigger procs[j]} :: 0 <= j < |procs| ==>
                    procs[j] == if j < pid then Stopping(old(procs)[j]) else old(procs)[j]
      {
        if procs[pid].state != Gone && !procs[pid].killed {
          procs := procs[pid := procs[pid].(stopped := true)];
        }
      }
      var ps := procs;
      EachThread((t: Thread) => StopThread(t, ps));
    }

    /** The network catches up with the clock. */
    method ClockMoved()
      requires NI.Inv(net)
      modifies `net, `threads
      ensures Moved(old(Now()), Now())
    {
      hide NI.Inv, N.Advance, StaleNet;
      NetLinks(net);
      ghost var a := Now();
      var moved;
      net, moved := N.Advance(net, clock).0, N.Advance(net, clock).1;
      if moved { EachThread(WakeIo()); }
      MovedBy(a, Now());
    }

    /** Timed waits that are over end. */
    method ExpireDeadlines()
      modifies `threads
      ensures threads == Each(old(threads), Expire(clock))
    {
      EachThread(Expire(clock));
    }

    /** Due timers ring and are set again if they repeat; each wakes the first
        thread of its process that blocks. */
    method FireAlarms()
      modifies `procs, `threads
      ensures Fired(old(Now()), Now())
      ensures WokenUpTo(old(threads), threads, old(procs), clock, |procs|)
    {
      for pid := 0 to |procs|
        invariant |procs| == |old(procs)| && |threads| == |old(threads)|
        invariant forall j {:trigger procs[j]} :: 0 <= j < |procs| ==>
                    procs[j] == if j < pid then Rung(old(procs)[j], clock) else old(procs)[j]
        invariant WokenUpTo(old(threads), threads, old(procs), clock, pid)
      {
        var p := procs[pid];
        if p.state == Gone || p.alarmAt == 0 || p.alarmAt > clock { continue; }
        procs := procs[pid := Rung(p, clock)];
        var i := FindBlocked(pid);
        ghost var was := threads;
        if i < |threads| {
          threads := threads[i := threads[i].(state := Runnable)];
        }
        OneMoreWoken(old(threads), was, threads, old(procs), clock, pid, i);
      }
      WokenFired(old(Now()), Now());
    }

    /** The first blocked thread of `pid`; the number of threads if none */
    method FindBlocked(pid: nat) returns (i: nat)
      ensures IsFirstBlocked(threads, pid, i)
    {
      i := 0;
      while i < |threads| && !(threads[i].pid == pid && threads[i].state == Blocked)
        invariant i <= |threads|
        invariant forall j {:trigger threads[j]} :: 0 <= j < i ==>
          !(threads[j].pid == pid && threads[j].state == Blocked)
      {
        i := i + 1;
      }
    }

    // ---- the idle loop ---------------------------------------------------------------------

    /** Everything that is due at the clock happens: the stop, arrivals, crashes
        and shutdowns, deadlines, timers. */
    method CatchUp()
      requires Tables(Now()) && NoneRunning(threads)
      modifies `procs, `threads, `net, `restarts, `faultRng, `pctRng, `bills, `stopped
      ensures Ok(Now()) && NoneRunning(threads) && NothingDue(Now()) && clock == old(clock)
      ensures NotHigher(old(Now()), Now()) && LoomsOn(old(Now()), Now()) && Carried(old(threads), threads, cfg.pct)
      ensures Onward(old(Now()), Now())
      ensures InTable(old(Ahead())) && InTable(Ahead()) && (Doomed(old(Ahead())) <==> Doomed(Ahead()))
      ensures AtRest(old(Now())) ==> Now() == Synced(old(Now()))
    {
      hide AtRest;
      hide Tables, L.OnTime, Struck, Fired, Moved, AllOf, NoneRunning, NothingDue, Ok, NotHigher, LoomsOn, Carried,
           Doomed, InTable, StopRan, CrashSet, NI.Inv, Onward;
      ghost var s0 := Now();
      if cfg.stopAt != 0 && !stopped && clock >= cfg.stopAt { StopRun(); }
      ghost var s1 := Now();
      StoppedOk(s0, s1);
      TablesNet(s1);
      ClockMoved();
      ghost var s2 := Now();
      MovedOk(s1, s2);
      ghost var first := InjectDueCrashes();
      ghost var s3 := Now();
      MovedClock(s1, s2);
      ghost var dead, warned := InjectDueShutdowns(s2, first);
      ghost var s4 := Now();
      OnTimeTrans(s2.net, s3.net, s4.net);
      ExpireDeadlines();
      ghost var s5 := Now();
      FireAlarms();
      AllCaught(s0, s1, s2, s4, s5, Now(), dead, warned);
    }

    /** The next time anything at all is due; None when nothing is to come */
    method NextEvent() returns (t: Option<nat>)
      requires NI.Inv(net)
      ensures t.None? ==> NothingPending(Now())
      ensures t.Some? ==> BeforeAll(Now(), t.value) && Comes(Now(), t.value)
    {
      hide NI.Inv, NothingPending, BeforeAll, Comes, Firsts;
      var deadline := LeastOf(threads, DeadlineOf);
      var crash := LeastOf(procs, CrashOf);
      var shutdown := LeastOf(procs, ShutdownOf);
      var alarm := LeastOf(procs, AlarmOf);
      FirstsAre(Now(), deadline, crash, shutdown, alarm);
      hide Least;
      var arrival := if net.inFlight > 0 then Some(net.nextDue) else None;
      var stop := if cfg.stopAt != 0 && !stopped then Some(cfg.stopAt) else None;
      t := Sooner(Sooner(Sooner(deadline, arrival), Sooner(crash, shutdown)), Sooner(stop, alarm));
      NoneComes(Now(), deadline, crash, shutdown, alarm);
      if t.Some? {
        FirstComes(Now(), deadline, crash, shutdown, alarm, t.value);
        BeforeEach(Now(), deadline, crash, shutdown, alarm, t.value);
      }
    }

    /** One turn of the idle loop: the clock jumps to what comes next, and
        everything due then happens. */
    method JumpOn() returns (more: bool)
      requires Ok(Now()) && NoneRunning(threads) && NothingDue(Now()) && !AnyRunnable(threads)
      modifies `procs, `threads, `net, `restarts, `faultRng, `pctRng, `bills, `stopped, `clock
      ensures Ok(Now()) && NoneRunning(threads) && NothingDue(Now()) && Carried(old(threads), threads, cfg.pct)
      ensures Onward(old(Now()), Now())
      ensures !more ==> Now() == old(Now()) && NothingPending(Now())
      ensures more ==> NotHigher(old(Now()), Now()) && !NothingPending(old(Now()))
      ensures more ==> forall u: nat {:trigger Looms(old(Now()), u)} :: Looms(old(Now()), u) ==>
                         Lower(old(Now()), Now()) || AnyRunnable(threads)
                         || (Looms(Now(), u) && clock > old(clock) && u > clock)
      // the clock does not jump over anything
      ensures clock == old(clock) || (clock > old(clock) && BeforeAll(old(Now()), clock))
      // how things end is settled: a doomed run goes on for ever, any other does not get there
      ensures InTable(old(Ahead())) && InTable(Ahead()) && (Doomed(old(Ahead())) <==> Doomed(Ahead()))
      ensures Doomed(old(Ahead())) ==> more && AnyLeft(threads) && !AnyRunnable(threads)
    {
      hide Ok, NI.Inv, BeforeAll, Comes, NothingPending, NothingDue, Lower, Level, NotHigher, LoomsOn, Looms,
           NoneRunning, Carried, Doomed, InTable, AnyRunnable, AnyLeft, Onward;
      ghost var a, o := Now(), Ahead();
      OkNet(a);
      OutlookIn(a);
      var next := NextEvent();
      if next.None? {
        CarriedRefl(threads, cfg.pct);
        OnwardRefl(a);
        if Doomed(o) { DoomedGoesOn(a); }
        return false;
      }
      clock := Max(clock, next.value);
      ghost var b := Now();
      ComesPending(a, next.value);
      JumpTables(a, b);
      JumpDooms(a, b, next.value);
      CatchUp();
      OnwardJump(a, b, Now());
      TurnLower(a, b, Now(), next.value);
      if Doomed(Ahead()) { OutlookIn(Now()); DoomedGoesOn(Now()); }
      return true;
    }

    // ---- the choice ----------------------------------------------------------------------

    ghost predicate Ranked()
      reads this
    {
      RanksOk(Now(), Marks())
    }

    ghost function Marks(): Ranks
      reads this
    {
      Ranks(pctChangeAt, pctNext, demoted)
    }

    method Draw(n: nat) returns (v: nat)
      requires n > 0
      modifies `rng
      ensures v < n && v == R.Scaled(R.Next(old(rng)).0, n) && rng == R.Next(old(rng)).1
    {
      var x, next := R.Next(rng).0, R.Next(rng).1;
      R.ScaledBound(x, n);
      rng := next;
      v := R.Scaled(x, n);
    }

    /** One of the `count` candidates, drawn: there are as many as counted. */
    method NthCandidate(honour: bool, count: nat) returns (c: nat)
      requires count == Candidates(threads, honour, clock) && count > 0
      modifies `rng
      ensures c < |threads| && Eligible(threads[c], honour, clock)
      ensures Drawn(threads, honour, clock, old(rng), c) && rng == R.Next(old(rng)).1
    {
      hide R.Scaled, Drawn;
      var n := Draw(count);
      var seen := 0;
      c := 0;
      while true
        invariant c <= |threads| && seen == Count(threads[..c], CanRun(honour, clock)) && seen <= n < count
        invariant rng == R.Next(old(rng)).1
        decreases |threads| - c
      {
        assert threads[..|threads|] == threads;
        CountNext(threads, c, CanRun(honour, clock));
        if Eligible(threads[c], honour, clock) {
          if seen == n {
            NthIsDrawn(threads, honour, clock, old(rng), c);
            return;
          }
          seen := seen + 1;
        }
        c := c + 1;
      }
    }

    /** PCT's choice below its horizon, a uniform draw otherwise */
    method ChooseCandidate(honour: bool, count: nat) returns (c: nat)
      requires count == Candidates(threads, honour, clock) && count > 0
      modifies `rng, `threads
      ensures c < |threads| == |old(threads)| && Eligible(old(threads)[c], honour, clock)
      ensures if cfg.pct && clock < Horizon(cfg) then IsChoice(old(threads), honour, clock, cfg.pctStarve, c)
        && threads == Marked(old(threads), c, clock)
              else threads == old(threads)
      ensures if cfg.pct && clock < Horizon(cfg) then rng == old(rng)
              else Drawn(threads, honour, clock, old(rng), c) && rng == R.Next(old(rng)).1
    {
      hide Drawn;
      if !cfg.pct || clock >= Horizon(cfg) {
        c := NthCandidate(honour, count);
        return;
      }
      CountZero(threads, CanRun(honour, clock));
      var starved := FindStarved(threads, honour, clock, cfg.pctStarve);
      if starved.Some? {
        c := starved.value;
      } else {
        c := FindHighest(threads, honour, clock);
      }
      MarkPassed(c);
    }

    /** The chosen thread waits no longer; every other runnable one, from now */
    method MarkPassed(c: nat)
      modifies `threads
      ensures threads == Marked(old(threads), c, clock)
    {
      for i := 0 to |threads|
        invariant |threads| == |old(threads)|
        invariant forall j {:trigger threads[j]} :: 0 <= j < |threads| ==>
                    threads[j] == if j < i then Marked(old(threads), c, clock)[j] else old(threads)[j]
      {
        if i == c {
          threads := threads[i := threads[i].(waitingSince := 0)];
        } else if threads[i].state == Runnable && threads[i].waitingSince == 0 {
          threads := threads[i := threads[i].(waitingSince := Max(clock, 1))];
        }
      }
    }

    /** For each change point passed, the thread that held the baton sinks to a
        priority below every drawn one. */
    method PctChangePoints()
      requires Ranked()
      modifies `pctNext, `threads, `demoted
      ensures PointsTaken(old(threads), threads, pctChangeAt, old(pctNext), pctNext, clock, current)
      ensures Ranked() && pctNext >= old(pctNext)
      ensures pctNext < |pctChangeAt| ==> pctChangeAt[pctNext] > clock
      ensures |threads| == |old(threads)|
      ensures forall i {:trigger threads[i]} :: 0 <= i < |threads| ==>
                threads[i] == old(threads)[i].(priority := threads[i].priority)
                  && (i != current ==> threads[i] == old(threads)[i])
    {
      while pctNext < |pctChangeAt| && pctChangeAt[pctNext] <= clock
        invariant Ranked() && pctNext >= old(pctNext) && |threads| == |old(threads)|
        invariant forall i :: old(pctNext) <= i < pctNext ==> pctChangeAt[i] <= clock
        invariant threads == if pctNext > old(pctNext) then Sunk(old(threads), current, pctNext) else old(threads)
        invariant forall i {:trigger threads[i]} :: 0 <= i < |threads| ==>
                    threads[i] == old(threads)[i].(priority := threads[i].priority)
                      && (i != current ==> threads[i] == old(threads)[i])
        decreases |pctChangeAt| - pctNext
      {
        pctNext := pctNext + 1;
        if current < |threads| {
          threads := threads[current := threads[current].(priority := pctNext)];
          demoted := demoted + {current};
        }
      }
    }

    /** Draws whether a pause follows a choice, and its end. */
    method DrawPause() returns (until: Option<nat>)
      requires ConfigOk(cfg)
      modifies `pauseRng
      ensures until.Some? <==> cfg.pauseNum != 0 && R.Scaled(R.Next(old(pauseRng)).0, cfg.pauseDen) < cfg.pauseNum
      ensures until.Some? ==> until.value > clock && clock + cfg.pauseLo <= until.value <= clock + cfg.pauseHi
      ensures until.Some? ==> until.value == clock + R.LogDraw(R.Next(old(pauseRng)).1, cfg.pauseLo, cfg.pauseHi)
      ensures pauseRng == PausesAfter(cfg, old(pauseRng))
    {
      hide R.Next, R.Scaled, R.ILog2, R.Pow2, R.InOctave, R.LogDraw;
      if cfg.pauseNum == 0 { return None; }
      var x, next := R.Next(pauseRng).0, R.Next(pauseRng).1;
      R.ScaledBound(x, cfg.pauseDen);
      pauseRng := next;
      if R.Scaled(x, cfg.pauseDen) >= cfg.pauseNum { return None; }
      var s := new R.Stream(pauseRng);
      var d, k := s.LogUniform(cfg.pauseLo, cfg.pauseHi);
      pauseRng := s.state;
      return Some(clock + d);
    }

    /** PCT alone decides: below its horizon, and nobody is paused by draw. */
    predicate PctRules()
      reads this
    {
      cfg.pct && clock < Horizon(cfg) && cfg.pauseNum == 0
    }

    /** A uniform draw alone decides: PCT does not, and nobody is paused. */
    predicate LotRules()
      reads this
    {
      !(cfg.pct && clock < Horizon(cfg)) && cfg.pauseNum == 0
    }

    /** The stream a choice is drawn from: it starts over where the run says. */
    function Lots(now: nat): R.State
      reads this
    {
      if cfg.reseedAt != 0 && !reseeded && now + 1 >= cfg.reseedAt then R.FromSeed(cfg.reseedWith) else rng
    }

    /** The stream pauses are drawn from, which starts over with it */
    function PauseLots(now: nat): R.State
      reads this
    {
      if cfg.reseedAt != 0 && !reseeded && now + 1 >= cfg.reseedAt
      then R.FromSeed(cfg.reseedWith ^ 0x9A05_E9A0_5E9A_05E9) else pauseRng
    }

    /** One of the runnable threads is chosen; a paused one only when every
        runnable one is. `us` is what the choice was made from. */
    method PickAmong(runnable: nat) returns (r: nat, ghost us: seq<Thread>)
      requires Ok(Now()) && NoneRunning(threads) && NothingDue(Now()) && Ranked()
      requires runnable == Count(threads, IsRunnable()) && runnable > 0
      requires ConfigOk(cfg)
      modifies `threads, `rng, `pauseRng, `pctNext, `demoted
      ensures Ok(Now()) && NoneRunning(threads) && NothingDue(Now()) && Ranked() && OnlyMarks(old(threads), threads)
      ensures Pickable(Now(), r)
      ensures PctRules() ==> Between(old(threads), us) && ChoseFrom(us, threads, clock, cfg.pctStarve, r)
      ensures LotRules() ==> ByLot(threads, clock, old(rng), r) && rng == R.Next(old(rng)).1
      // the change points passed, then a choice, and perhaps a pause and another
      ensures PointsTaken(old(threads), us, pctChangeAt, old(pctNext), pctNext, clock, current)
      ensures Picked(cfg, us, threads, clock, old(rng), rng, old(pauseRng), pauseRng, r)
    {
      hide Ok, NothingDue, NoneRunning, RankedIn, Pickable, IsChoice, Between, OnlyMarks, ChoseFrom, Marked,
           Eligible, Drawn, ByLot, R.Next, R.Scaled, PointsTaken, Picked, ChosenBy, Holds, PausedAt, PausesAfter;
      ghost var a, s0, p0 := Now(), rng, pauseRng;
      var unpaused := CountOf(threads, CanRun(true, clock));
      CandidatesCount(threads, runnable, clock);
      PctChangePoints();
      SameCandidates(a.threads, threads, clock);
      MarksBetween(a.threads, threads);
      us := threads;
      if unpaused == 0 {
        r := Take(false, runnable, a);
        PickedOnce(cfg, us, threads, clock, s0, rng, p0, r, false);
      } else {
        r := Take(true, unpaused, a);
        ghost var first, mid, s1 := r, threads, rng;
        if unpaused > 1 {
          r := PauseOne(r, a, us, unpaused);
          PickedTwice(cfg, us, mid, threads, clock, s0, s1, rng, p0, pauseRng, first, r);
        } else {
          PickedOnce(cfg, us, threads, clock, s0, rng, p0, r, true);
        }
      }
      if LotRules() { DrawnByLot(threads, clock, old(rng), r, unpaused > 0); }
    }

    /** Perhaps the chosen thread is held back, and another one chosen. */
    method PauseOne(first: nat, ghost a: Snap, ghost us: seq<Thread>, unpaused: nat) returns (r: nat)
      requires Ok(a) && NoneRunning(a.threads) && NothingDue(a) && ConfigOk(cfg)
      requires Ok(Now()) && NoneRunning(threads) && NothingDue(Now()) && Ranked() && OnlyMarks(a.threads, threads)
      requires Now() == a.(threads := threads) && Pickable(Now(), first) && first < |us| == |threads|
      requires Eligible(us[first], true, clock) && (threads == us || threads == Marked(us, first, clock))
      requires unpaused == Candidates(us, true, clock) > 1
      modifies `threads, `rng, `pauseRng
      ensures Ok(Now()) && NoneRunning(threads) && NothingDue(Now()) && Ranked() && OnlyMarks(a.threads, threads)
      ensures Pickable(Now(), r)
      ensures cfg.pauseNum == 0 ==> r == first && threads == old(threads) && rng == old(rng)
      // whether the first choice stands is drawn as well
      ensures if !Holds(cfg, old(pauseRng)) then r == first && threads == old(threads) && rng == old(rng)
              else ChosenBy(cfg, PausedAt(cfg, old(threads), first, clock, old(pauseRng)), threads, true, clock,
                            old(rng), rng, r)
      ensures pauseRng == PausesAfter(cfg, old(pauseRng))
    {
      hide Ok, NothingDue, NoneRunning, RankedIn, Pickable, IsChoice, OnlyMarks, ChoseFrom, Drawn, R.Next, R.Scaled;
      r := first;
      var until := DrawPause();
      if until.None? { return; }
      Pause(r, until.value, a, us, unpaused);
      r := Take(true, unpaused - 1, a);
    }

    /** A candidate is chosen; only marks differ from what `a` was. */
    method Take(honour: bool, count: nat, ghost a: Snap) returns (r: nat)
      requires Ok(a) && NoneRunning(a.threads) && NothingDue(a) && Ranked()
      requires Now() == a.(threads := threads) && OnlyMarks(a.threads, threads)
      requires count == Candidates(threads, honour, clock) && count > 0
      requires !honour ==> forall j :: 0 <= j < |threads| ==> !Eligible(threads[j], true, clock)
      modifies `threads, `rng
      ensures Ok(Now()) && NoneRunning(threads) && NothingDue(Now()) && Ranked() && OnlyMarks(a.threads, threads)
      ensures Pickable(Now(), r) && r < |old(threads)| && Eligible(old(threads)[r], honour, clock)
      ensures threads == old(threads) || threads == Marked(old(threads), r, clock)
      ensures if cfg.pct && clock < Horizon(cfg) then
                ChoseFrom(old(threads), threads, clock, cfg.pctStarve, r) && rng == old(rng)
              else threads == old(threads) && Drawn(threads, honour, clock, old(rng), r) && rng == R.Next(old(rng)).1
      ensures ChosenBy(cfg, old(threads), threads, honour, clock, old(rng), rng, r)
    {
      hide Ok, NothingDue, NoneRunning, RankedIn, IsChoice, Pickable, Drawn;
      ghost var b := Now();
      CountZero(threads, CanRun(honour, clock));
      r := ChooseCandidate(honour, count);
      Chosen(a, b, Now(), honour, r);
      RankedSame(b.threads, threads, cfg.pct, pctChangeAt, pctNext, demoted);
    }

    /** The chosen thread is held back, and is no candidate any more. */
    method Pause(r: nat, until: nat, ghost a: Snap, ghost b: seq<Thread>, ghost unpaused: nat)
      requires Ranked() && OnlyMarks(a.threads, threads) && r < |b| == |threads| && until > clock
      requires Eligible(b[r], true, clock) && (threads == b || threads == Marked(b, r, clock))
        && unpaused == Candidates(b, true, clock)
      modifies `threads
      ensures Ranked() && OnlyMarks(a.threads, threads) && Candidates(threads, true, clock) + 1 == unpaused
      ensures threads == old(threads)[r := old(threads)[r].(pausedUntil := until)]
    {
      ghost var c := threads;
      threads := threads[r := threads[r].(pausedUntil := until)];
      PausedCount(b, c, threads, r, clock, unpaused);
      RankedSame(c, threads, cfg.pct, pctChangeAt, pctNext, demoted);
      forall i | 0 <= i < |threads|
        ensures MarksOnly(a.threads[i], threads[i])
      {
        assert MarksOnly(a.threads[i], c[i]);
      }
    }

    method IsAnyLeft() returns (left: bool)
      ensures left == AnyLeft(threads)
    {
      for i := 0 to |threads|
        invariant forall j :: 0 <= j < i ==> threads[j].state == Exited
      {
        if threads[i].state != Exited { return true; }
      }
      return false;
    }

    /** A turn of the idle loop, unless nobody is left or nothing comes. Either
        the measure goes down, or the clock comes nearer to what looms. */
    method IdleTurn(ghost o: Snap, ghost bound: nat) returns (more: bool, runnable: nat, ghost next: nat)
      requires Ok(Now()) && NoneRunning(threads) && NothingDue(Now()) && Ranked()
        && Carried(o.threads, threads, cfg.pct) && Onward(o, Now())
      requires !AnyRunnable(threads) && InTable(Ahead()) && !Doomed(Ahead()) && Lurks(Now(), bound)
      modifies `procs, `threads, `net, `restarts, `faultRng, `pctRng, `bills, `stopped, `clock
      ensures Ok(Now()) && NoneRunning(threads) && NothingDue(Now()) && Ranked() && Carried(o.threads, threads, cfg.pct)
        && Onward(o, Now())
      ensures InTable(Ahead()) && !Doomed(Ahead()) && Lurks(Now(), next)
      ensures runnable == Count(threads, IsRunnable()) && (runnable == 0 <==> !AnyRunnable(threads))
        && clock >= old(clock)
      ensures !more ==> runnable == 0 && (!AnyLeft(threads) || (!AnyRunnable(threads) && NothingPending(Now())))
      ensures more && runnable == 0 ==>
                Lower(old(Now()), Now()) || (Level(old(Now()), Now()) && old(clock) < clock < bound == next)
      ensures FreeSlots(old(Now())) >= 0
    {
      hide Ok, NothingDue, Lower, Level, NoneRunning, Carried, NothingPending, RankedIn, Doomed, InTable, Looms,
           Lurks, AnyLeft, ThreadsOk, NotHigher, AnyRunnable, Onward;
      ghost var b := Now();
      SlotsLeft(b);
      runnable, next := 0, bound;
      RunnableCount(threads);
      var left := IsAnyLeft();
      if !left { return false, 0, bound; }
      assert AnyLeft(b.threads);
      more := JumpOn();
      CarriedTrans(o.threads, b.threads, threads, cfg.pct);
      OnwardTrans(o, b, Now());
      RankedStays(b.threads, threads, cfg.pct, pctChangeAt, pctNext, demoted);
      runnable := CountOf(threads, IsRunnable());
      RunnableCount(threads);
      OutlookIn(Now());
      next := NextLurks(Now(), bound);
      if more && runnable == 0 { Nearer(b, Now(), bound); }
    }

    /** Turns of the idle loop until somebody can run; 0 when nobody is left or
        nothing comes */
    method IdleLoop(ghost o: Snap) returns (runnable: nat)
      requires Ok(Now()) && NoneRunning(threads) && NothingDue(Now()) && Ranked()
        && Carried(o.threads, threads, cfg.pct) && Onward(o, Now())
      requires InTable(Ahead()) && !Doomed(Ahead())
      modifies `procs, `threads, `net, `restarts, `faultRng, `pctRng, `bills, `stopped, `clock
      ensures Ok(Now()) && NoneRunning(threads) && NothingDue(Now()) && Ranked() && Carried(o.threads, threads, cfg.pct)
        && Onward(o, Now())
      ensures clock >= old(clock) && runnable == Count(threads, IsRunnable())
      ensures runnable == 0 ==> !AnyLeft(threads) || (!AnyRunnable(threads) && NothingPending(Now()))
      ensures runnable == 0 <==> !AnyRunnable(threads)
      ensures old(AnyRunnable(threads)) ==> Now() == old(Now())
    {
      hide Ok, NothingDue, NoneRunning, Carried, NothingPending, RankedIn, Alive, ShutdownsDue, OneShots, StaleNet,
           Doomed, InTable, Lurks, Onward;
      ghost var at := clock;
      OutlookIn(Now());
      ghost var bound: nat := FirstLurks(Now());
      runnable := CountOf(threads, IsRunnable());
      RunnableCount(threads);
      while runnable == 0
        invariant Ok(Now()) && NoneRunning(threads) && NothingDue(Now()) && Ranked()
          && Carried(o.threads, threads, cfg.pct) && Onward(o, Now())
        invariant runnable == Count(threads, IsRunnable()) && (runnable == 0 <==> !AnyRunnable(threads))
        invariant InTable(Ahead()) && !Doomed(Ahead()) && Lurks(Now(), bound)
        invariant clock >= at
        invariant old(AnyRunnable(threads)) ==> runnable != 0 && Now() == old(Now())
        decreases if runnable == 0 then 1 else 0,
                  FreeSlots(Now()), Alive(Now()), ShutdownsDue(Now()), BeforeStop(Now()),
                  OneShots(Now()), net.inFlight, Stale(Now()), bound - clock
      {
        var more;
        more, runnable, bound := IdleTurn(o, bound);
        if !more { return; }
      }
    }

    /** Every stream starts over once the clock is where the run says. */
    method Reseed()
      modifies `rng, `faultRng, `pauseRng, `pctRng, `reseeded
      ensures if cfg.reseedAt != 0 && !old(reseeded) && clock + 1 >= cfg.reseedAt
              then reseeded && (rng, faultRng, pauseRng, pctRng) == Streams(cfg.reseedWith)
                   && rng == R.FromSeed(cfg.reseedWith)
                   && pauseRng == R.FromSeed(cfg.reseedWith ^ 0x9A05_E9A0_5E9A_05E9)
              else reseeded == old(reseeded) && rng == old(rng) && faultRng == old(faultRng)
                   && pauseRng == old(pauseRng) && pctRng == old(pctRng)
    {
      hide R.FromSeed;
      if cfg.reseedAt != 0 && !reseeded && clock + 1 >= cfg.reseedAt {
        reseeded := true;
        rng, faultRng, pauseRng, pctRng := Streams(cfg.reseedWith).0, Streams(cfg.reseedWith).1,
          Streams(cfg.reseedWith).2, Streams(cfg.reseedWith).3;
      }
    }

    /** All that is due happens; then, as long as everybody waits, time passes
        to the next event. */
    method Wait() returns (runnable: nat)
      requires Tables(Now()) && NoneRunning(threads) && Ranked() && InTable(Ahead()) && !Doomed(Ahead())
      modifies `procs, `threads, `net, `restarts, `faultRng, `pctRng, `bills, `stopped, `clock, `rng, `pauseRng,
               `reseeded
      ensures Ok(Now()) && NoneRunning(threads) && NothingDue(Now()) && Ranked()
        && Carried(old(threads), threads, cfg.pct)
      ensures Onward(old(Now()), Now())
      ensures clock >= old(clock) && runnable == Count(threads, IsRunnable())
      ensures runnable == 0 ==> !AnyLeft(threads) || (!AnyRunnable(threads) && NothingPending(Now()))
      ensures AtRest(old(Now())) && old(AnyRunnable(threads)) ==> runnable != 0 && Now() == Synced(old(Now()))
      ensures rng == old(Lots(clock)) && pauseRng == old(PauseLots(clock))
    {
      hide AtRest, AnyRunnable;
      hide Tables, Ok, NothingDue, NoneRunning, Carried, NothingPending, RankedIn, Doomed, InTable, NotHigher,
           LoomsOn, Streams, Onward, R.FromSeed, AnyLeft;
      ghost var a := Now();
      Reseed();
      CatchUp();
      RankedStays(a.threads, threads, cfg.pct, pctChangeAt, pctNext, demoted);
      runnable := IdleLoop(a);
    }

    /** Decides who runs next, None being nobody. It ends from every state that
        is not doomed, and from no other. */
    method Pick() returns (r: Option<nat>, ghost us: seq<Thread>)
      requires Tables(Now()) && NoneRunning(threads) && Ranked() && ConfigOk(cfg)
      requires InTable(Ahead()) && !Doomed(Ahead())
      modifies `procs, `threads, `net, `restarts, `faultRng, `pctRng, `bills, `stopped, `clock, `rng, `pauseRng,
               `pctNext, `demoted, `reseeded
      ensures Ok(Now()) && NoneRunning(threads) && NothingDue(Now()) && Ranked() && clock >= old(clock)
      ensures GoneStays(old(threads), threads) && Onward(old(Now()), Now())
      ensures r.None? ==>
        (!AnyLeft(threads) || (!AnyRunnable(threads) && NothingPending(Now()))) && Between(old(threads), threads)
      ensures r.Some? ==> Pickable(Now(), r.value)
      ensures r.Some? && PctRules() ==>
        Between(old(threads), us) && ChoseFrom(us, threads, clock, cfg.pctStarve, r.value)
      ensures r.Some? && LotRules() ==>
        ByLot(threads, clock, old(Lots(clock)), r.value) && rng == R.Next(old(Lots(clock))).1
      // where somebody can run and nothing is due, nothing happens but the choice
      ensures AtRest(old(Now())) && old(AnyRunnable(threads)) ==>
                r.Some? && Now() == Synced(old(Now())).(threads := threads) && OnlyMarks(old(threads), threads)
    {
      hide AtRest;
      hide Tables, Ok, NothingDue, NoneRunning, Carried, NothingPending, GoneStays, RankedIn, Pickable, OnlyMarks,
           Doomed, InTable, AnyLeft, AnyRunnable, Between, ChoseFrom, Onward, ByLot, R.FromSeed, Picked, PointsTaken;
      ghost var a, ts := Now(), threads;
      var runnable := Wait();
      ghost var w := Now();
      CarriedGone(ts, threads, cfg.pct);
      CarriedIsBetween(ts, threads, cfg.pct);
      us := threads;
      if runnable == 0 { return None, us; }
      ghost var c := threads;
      var chosen;
      chosen, us := PickAmong(runnable);
      MarkedGone(ts, c, threads);
      OnwardSame(a, w, Now());
      if PctRules() { BetweenTrans(ts, c, us); }
      return Some(chosen), us;
    }

    // ---- passing the baton -----------------------------------------------------------------

    method NextQuantum() returns (q: nat)
      requires ConfigOk(cfg)
      modifies `rng
      ensures cfg.quantumLo <= q <= cfg.quantumHi
      ensures q == cfg.quantumLo + R.Scaled(R.Next(old(rng)).0, cfg.quantumHi - cfg.quantumLo + 1)
      ensures rng == R.Next(old(rng)).1
    {
      hide R.Next, R.Scaled;
      var d := Draw(cfg.quantumHi - cfg.quantumLo + 1);
      q := cfg.quantumLo + d;
    }

    ghost predicate Valid()
      reads this
    {
      Held(Now(), current, Marks()) && ConfigOk(cfg)
    }

    /** The mark of a turn made by PCT alone, from threads `ts` on */
    ghost predicate TurnMade(ts: seq<Thread>, us: seq<Thread>, r: nat)
      reads this
    {
      PctRules() ==>
        Between(ts, us) && GoodTurn(Turn(us, clock, r), cfg.pctStarve) && Between(Left(Turn(us, clock, r)), threads)
    }

    ghost predicate LotMade(start: R.State)
      reads this
    {
      LotFell(cfg, threads, clock, start, current, pendingQuantum)
    }

    /** A hand-off after its caller has been taken off the baton. Where the
        state is doomed the choice would never be made. */
    method Choose(me: Option<nat>) returns (h: Handoff, ghost us: seq<Thread>)
      requires Tables(Now()) && NoneRunning(threads) && Ranked() && ConfigOk(cfg) && InTable(Ahead())
      requires me.Some? ==> me.value == current
      modifies this
      ensures clock >= old(clock)
      ensures h.Hangs? <==> Doomed(old(Ahead()))
      ensures h.Hangs? ==> Now() == old(Now())
      ensures !h.Hangs? ==>
                Held(Now(), current, Marks()) && GoneStays(old(threads), threads) && Handed(h, me, Now(), current)
                && Onward(old(Now()), Now()) && NothingDue(Now())
      ensures (h.Idle? || h.Stay? ==> current == old(current)) && (h.Idle? ==> Between(old(threads), threads))
      ensures h.Stay? || h.Switch? ==> TurnMade(old(threads), us, current) && LotMade(old(Lots(clock)))
      ensures AtRest(old(Now())) && old(AnyRunnable(threads)) && !h.Hangs? ==>
                !h.Idle? && Now() == Synced(old(Now())).(threads := threads) && OnlyRuns(old(threads), threads, current)
    {
      hide AtRest, OnlyMarks, OnlyRuns;
      hide Tables, Ok, NI.Inv, NothingDue, NothingPending, RankedIn, GoneStays, Pickable, HasBaton, Doomed, InTable,
           Between, GoodTurn, AnyLeft, AnyRunnable, Onward, Held, ByLot, LotFell, R.Next, R.Scaled, R.FromSeed,
           Picked, PointsTaken;
      ghost var o := Now();
      us := threads;
      if Doomed(Ahead()) { return Hangs, us; }
      var r;
      r, us := Pick();
      if r.None? {
        IdleHeld(Now(), current, Marks());
        return Idle, us;
      }
      ghost var a, p := threads, Now();
      PickableIn(Now(), r.value);
      Install(r.value);
      OnwardSame(o, p, Now());
      if OnlyMarks(o.threads, a) { MarksThenRuns(o.threads, a, threads, r.value); }
      LotFalls(cfg, a, threads, clock, old(Lots(clock)), r.value, pendingQuantum);
      GoneStaysTrans(old(threads), a, threads);
      if me == Some(r.value) { return Stay, us; }
      current := r.value;
      return Switch(r.value), us;
    }

    /** The chosen thread runs, with a fresh quantum. */
    method Install(next: nat)
      requires Ok(Now()) && NoneRunning(threads) && Ranked() && ConfigOk(cfg) && NothingDue(Now())
      requires next < |threads| && Pickable(Now(), next)
      modifies `threads, `rng, `pendingQuantum
      ensures Held(Now(), next, Marks()) && HasBaton(Now(), next) && Steady(old(threads), threads) && NothingDue(Now())
      ensures old(threads)[next].state == Runnable
      ensures pendingQuantum
              == cfg.quantumLo + R.Scaled(R.Next(old(rng)).0, cfg.quantumHi - cfg.quantumLo + 1)
      ensures Now() == old(Now()).(threads := old(threads)[next := old(threads)[next].(state := Running)])
    {
      hide Ok, NothingDue, NI.Inv, RanksOk, Held, HasBaton, Steady, Pickable, R.Next, R.Scaled;
      ghost var a := Now();
      PickableIn(a, next);
      pendingQuantum := NextQuantum();
      threads := threads[next := threads[next].(state := Running)];
      RunningOk(a, Now(), next, Marks());
    }

    /** The holder steps back as `from` says and somebody else goes on, or it
        again. A run's first hand-off has no holder. */
    method HandOff(from: Option<(nat, TState, nat)>) returns (h: Handoff, ghost us: seq<Thread>)
      requires Valid()
      requires from.None? ==> NoneRunning(threads)
      requires from.Some? ==> Yields(threads, current, from.value)
      modifies this
      ensures clock >= old(clock)
      ensures var o := OutlookFrom(old(Now()), from, cfg.switchNs); InTable(o) && (h.Hangs? <==> Doomed(o))
      ensures h.Hangs? ==> Now() == old(Now()).(threads := Recorded(old(threads), from), clock := clock)
      ensures !h.Hangs? ==>
                && Held(Now(), current, Marks()) && GoneStays(old(threads), threads) && Onward(old(Now()), Now())
                && NothingDue(Now()) && Handed(h, if from.Some? then Some(from.value.0) else None, Now(), current)
      ensures (h.Idle? || h.Stay? ==> current == old(current)) && (h.Idle? ==> Between(old(threads), threads))
      ensures h.Stay? || h.Switch? ==>
        TurnMade(old(threads), us, current)
        && LotMade(old(Lots(if from.Some? then clock + cfg.switchNs else clock)))
      // where somebody can run and nothing is due, the baton is all that moves
      ensures var m := SteppedBack(old(Now()), from, cfg.switchNs);
              AtRest(m) && AnyRunnable(m.threads) && !h.Hangs? ==>
                !h.Idle? && Now() == Synced(m).(threads := threads) && OnlyRuns(m.threads, threads, current)
    {
      hide AtRest, OnlyRuns, AnyRunnable, LotFell, R.FromSeed;
      hide NI.Inv, RanksOk, Held, Handed, GoneStays, Doomed, Between, GoodTurn, Tables, ThreadsOk, Onward,
           NothingDue;
      ghost var a := Now();
      var me := None;
      if from.Some? {
        var (id, state, key) := from.value;
        me := Some(id);
        threads := threads[id := threads[id].(state := state, key := key)];
        clock := clock + cfg.switchNs;
      }
      ghost var b := threads;
      RecordedOk(a, Now(), current, from, Marks());
      OutlookIn(Now());
      ghost var m := Now();
      h, us := Choose(me);
      if !h.Hangs? {
        GoneStaysTrans(a.threads, b, threads);
        OnwardJump(a, m, Now());
      }
      if h.Idle? { BetweenTrans(a.threads, b, threads); }
      if (h.Stay? || h.Switch?) && PctRules() { BetweenTrans(a.threads, b, us); }
    }

    /** The launcher has seen a process end. Had it the baton, that moves on. */
    method ProcessDied(pid: nat, status: int) returns (h: Option<Handoff>, ghost us: seq<Thread>, ghost b: Snap)
      requires Valid() && pid < |procs|
      modifies this
      ensures clock >= old(clock) && Buried(old(Now()), b, pid, status)
      ensures h.None? ==> Now() == b && current == old(current) && Between(old(threads), threads)
      ensures h.None? <==> !(old(current) < |b.threads| && b.threads[old(current)].pid == pid)
      ensures h.Some? ==>
                var o := OutlookFrom(b, Some((old(current), Exited, 0)), cfg.switchNs);
                InTable(o) && (h == Some(Hangs) <==> Doomed(o))
      ensures h == Some(Hangs)
              || (Held(Now(), current, Marks()) && GoneStays(old(threads), threads) && Onward(old(Now()), Now()))
      ensures h.Some? && !h.value.Hangs? ==> Handed(h.value, Some(old(current)), Now(), current) && NothingDue(Now())
      ensures h == Some(Idle) ==> Between(old(threads), threads) && current == old(current)
      ensures h == Some(Stay) || (h.Some? && h.value.Switch?) ==> TurnMade(old(threads), us, current)
    {
      hide NI.Inv, Held, Handed, GoneStays, Tables, Buried, Doomed, InTable, Between, GoodTurn, L.OnTime, Onward,
           NothingDue;
      ghost var a := Now();
      HeldOk(a, current, Marks());
      Bury(pid, status);
      b := Now();
      us := threads;
      BuriedOk(a, b, pid, status, current, Marks());
      BuriedOnward(a, b, pid, status);
      if current < |threads| && threads[current].pid == pid {
        var next;
        next, us := HandOff(Some((current, Exited, 0)));
        if !next.Hangs? {
          GoneStaysTrans(a.threads, b.threads, threads);
          OnwardTrans(a, b, Now());
        }
        if next.Idle? { BetweenTrans(a.threads, b.threads, threads); }
        if (next.Stay? || next.Switch?) && PctRules() { BetweenTrans(a.threads, b.threads, us); }
        return Some(next), us, b;
      }
      return None, us, b;
    }

    /** Its state, its timers, its restart, its sockets and its threads */
    method Bury(pid: nat, status: int)
      requires Tables(Now()) && pid < |procs|
      modifies `procs, `threads, `net, `restarts, `faultRng, `pctRng, `bills
      ensures Tables(Now()) && Buried(old(Now()), Now(), pid, status) && L.OnTime(old(net), net)
    {
      hide NI.Inv, Chained, ThreadsOk, L.OnTime, Tables, Buried;
      ghost var a := Now();
      if !procs[pid].killed {
        BuryLive(pid, status);
        return;
      }
      procs := procs[pid := Ceased(procs[pid], status, clock)];
      EachThread(Retire(pid));
      OnTimeRefl(net);
      GoneOk(a, Now(), pid, status);
    }

    /** A process that died by itself dies to the run now: nobody had killed it
        before. */
    method BuryLive(pid: nat, status: int)
      requires Tables(Now()) && pid < |procs| && !procs[pid].killed
      modifies `procs, `threads, `net, `restarts, `faultRng, `pctRng, `bills
      ensures Tables(Now()) && Buried(old(Now()), Now(), pid, status) && L.OnTime(old(net), net)
    {
      hide NI.Inv, Chained, ThreadsOk, L.OnTime, Tables, Buried, RestartDue, Reborn, Bystander, Mourn, Bereft;
      ghost var a := Now();
      ParentIn(a, pid);
      TablesNet(a);
      var parent := procs[pid].parent;
      EachThread(Retire(pid));
      procs := procs[pid := Ceased(procs[pid], status, clock)];
      ghost var m := Now();
      TellOthers(pid, parent);
      ghost var b := Now();
      ToldMourned(a, m, b, pid);
      MournedTables(a, b, pid);
      ToldGone(m, b, pid, parent);
      RegisterRestart(pid, status);
      ToldBereft(a, m, b, Now(), pid);
      ThenBuried(a, b, Now(), pid, status);
    }

    // ---- what the holder and its process do -----------------------------------------------

    /** The launcher enters a process and its main thread. */
    method Register(host: nat, faults: Faults, spec: nat) returns (pid: nat)
      requires Valid() && |procs| < MAX_PROCS && |threads| < MAX_THREADS && FaultsOk(faults)
      modifies `procs, `threads, `pctRng, `faultRng, `bills
      ensures Valid() && Steady(old(threads), threads) && Onward(old(Now()), Now())
        && pid == |old(procs)| == |procs| - 1 && procs == old(procs) + [procs[pid]]
      ensures var p := procs[pid];
              && p == NewProc(host, None).(faults := faults, spec := Some(spec), crashAt := p.crashAt,
                                           shutdownAt := p.shutdownAt)
              && TimesDrawn(p, clock)
      ensures |threads| == |old(threads)| + 1 && threads[..|old(threads)|] == old(threads)
      ensures threads[|old(threads)|] == NewThread(pid, threads[|old(threads)|].priority)
      ensures FaultsOk(procs[pid].faults) && TimesFrom(procs[pid], clock, old(faultRng), faultRng)
    {
      hide Held, ConfigOk, Steady, Onward, NI.Inv, FaultsOk, Balanced, ProcOk, TimesFrom, Chained, ThreadsOk, R.Next,
           TimesDrawn;
      ghost var a := Now();
      HeldOk(a, current, Marks());
      pid := AddProc(host, None);
      var t := AddThread(pid);
      SetFaults(pid, faults, spec);
      Appended(a.procs, procs);
      Appended(a.bills, bills);
      Appended(a.threads, threads);
      RegisteredOk(host, faults, spec, procs[pid], bills[pid]);
      SpawnedOk(a, Now(), procs[pid], threads[t], bills[pid], current, Marks());
    }

    /** A child of the holder's process, and its main thread */
    method Fork() returns (pid: nat)
      requires Valid() && HasBaton(Now(), current) && |procs| < MAX_PROCS && |threads| < MAX_THREADS
      modifies `procs, `threads, `pctRng, `bills
      ensures Valid() && Steady(old(threads), threads) && Onward(old(Now()), Now()) && HasBaton(Now(), current)
      ensures pid == |old(procs)|
        && procs == old(procs) + [NewProc(procs[old(threads)[current].pid].host, Some(old(threads)[current].pid))]
    {
      hide Held, ConfigOk, Steady, Onward, NI.Inv;
      ghost var a := Now();
      HeldOk(a, current, Marks());
      var me := threads[current].pid;
      pid := AddProc(procs[me].host, Some(me));
      var t := AddThread(pid);
      Appended(a.threads, threads);
      SpawnedOk(a, Now(), procs[pid], threads[t], bills[pid], current, Marks());
    }

    /** Another thread of the holder's process */
    method SpawnThread() returns (id: nat)
      requires Valid() && HasBaton(Now(), current) && |threads| < MAX_THREADS
      modifies `threads, `pctRng
      ensures Valid() && Steady(old(threads), threads) && Onward(old(Now()), Now()) && HasBaton(Now(), current)
        && id == |old(threads)| == |threads| - 1
      ensures threads[id].state == Runnable && threads[id].pid == threads[current].pid
    {
      hide Held, ConfigOk, Steady, Onward, NI.Inv;
      ghost var a := Now();
      id := AddThread(threads[current].pid);
      Appended(a.threads, threads);
      AddedOk(a, Now(), threads[id], current, Marks());
      OnwardProcs(a, Now());
    }

    /** A process has started for real. */
    method Attach(pid: nat)
      requires Valid() && pid < |procs| && !procs[pid].killed && procs[pid].state == Starting
      modifies `procs
      ensures Valid() && Onward(old(Now()), Now()) && procs == old(procs)[pid := old(procs)[pid].(state := Attached)]
    {
      hide Held, ConfigOk, Steady, Onward, NI.Inv;
      ghost var a := Now();
      procs := procs[pid := procs[pid].(state := Attached)];
      RetouchedOk(a, Now(), pid, current, Marks());
    }

    /** The holder's process sets its interval timer, or takes it away. */
    method SetTimer(value: nat, interval: nat)
      requires Valid() && HasBaton(Now(), current)
      modifies `procs
      ensures Valid() && HasBaton(Now(), current) && Onward(old(Now()), Now())
      ensures var me := threads[current].pid;
              procs == old(procs)[me := old(procs)[me].(
                alarmAt := if value == 0 then 0 else clock + value,
                alarmInterval := if value == 0 then 0 else interval)]
    {
      hide Held, ConfigOk, Steady, Onward, NI.Inv;
      ghost var a := Now();
      var me := threads[current].pid;
      procs := procs[me := procs[me].(alarmAt := if value == 0 then 0 else clock + Max(value, 1),
                                      alarmInterval := if value == 0 then 0 else interval)];
      RetouchedOk(a, Now(), me, current, Marks());
    }

    /** Before it blocks, the holder says until when; 0 is for ever, and a time
        in the past ends the wait at once. */
    method SetDeadline(until: Option<nat>)
      requires Valid() && HasBaton(Now(), current)
      modifies `threads
      ensures Valid() && Steady(old(threads), threads) && Onward(old(Now()), Now()) && HasBaton(Now(), current)
      ensures threads == old(threads)[current := old(threads)[current].(
                timedOut := false, deadline := match until case None => 0 case Some(d) => Max(d, 1))]
    {
      hide Held, ConfigOk, Steady, Onward, NI.Inv;
      ghost var a := Now();
      HeldOk(a, current, Marks());
      threads := threads[current := threads[current].(
        timedOut := false, deadline := match until case None => 0 case Some(d) => Max(d, 1))];
      WokenOk(a, Now(), current, Marks());
      OnwardProcs(a, Now());
    }

    /** A call on the network; what was done wakes those who wait for a
        descriptor. */
    method NetCall(op: NR.Op) returns (reply: NR.Reply)
      requires Valid() && NR.Enabled(net, op) && !op.OpAdvance?
      modifies `net, `threads
      ensures Valid() && Steady(old(threads), threads) && Onward(old(Now()), Now())
        && (net, reply) == NR.Step(old(net), op)
      ensures threads == if Wakes(op, reply) then Each(old(threads), WakeIo()) else old(threads)
    {
      hide Held, ConfigOk, Steady, Onward, NI.Inv, NR.Enabled, NR.Step, L.Later;
      ghost var a := Now();
      HeldOk(a, current, Marks());
      NR.StepOk(net, op);
      L.StepOnTime(net, op);
      net, reply := NR.Step(net, op).0, NR.Step(net, op).1;
      if Wakes(op, reply) { EachThread(WakeIo()); }
      WokenOk(a, Now(), current, Marks());
      OnwardProcs(a, Now());
    }

    /** A wake on `key` for all of `pid` */
    method WakeAll(pid: nat, key: nat)
      requires Valid()
      modifies `threads
      ensures Valid() && Steady(old(threads), threads) && Onward(old(Now()), Now())
        && threads == Each(old(threads), WakeKey(pid, key))
    {
      hide Held, ConfigOk, Steady, Onward, NI.Inv;
      ghost var a := Now();
      HeldOk(a, current, Marks());
      EachThread(WakeKey(pid, key));
      WokenOk(a, Now(), current, Marks());
      OnwardProcs(a, Now());
    }

    /** A read of the clock moves it a little, and what is due arrives. */
    method ClockRead() returns (now: nat)
      requires Valid()
      modifies `clock, `net, `threads
      ensures Valid() && Steady(old(threads), threads) && Onward(old(Now()), Now())
        && now == clock == old(clock) + 1000
    {
      hide Held, ConfigOk, Steady, Onward, NI.Inv, Tables, Moved;
      ghost var a := Now();
      HeldOk(a, current, Marks());
      clock := clock + PER_READ_NS;
      ghost var b := Now();
      ClockMoved();
      ReadOk(a, b, Now(), current, Marks());
      OnwardProcs(a, Now());
      now := clock;
    }

    /** A guest kills another: all that its death means happens now. */
    method Kill(target: nat)
      requires Valid() && target < |procs| && !Dead(procs[target])
      requires current < |threads| && threads[current].state == Running ==> threads[current].pid != target
      modifies `procs, `threads, `net, `restarts, `faultRng, `pctRng, `bills
      ensures Bereft(old(Now()), Now(), target, Crashed(old(procs)[target], clock))
      ensures Valid() && Death(old(Now()), Now(), target) && Steady(old(threads), threads) && Onward(old(Now()), Now())
      ensures N.SetRefs(old(net), target, []) == Some(net)
    {
      hide Held, ConfigOk, Steady, Onward, NI.Inv, Tables, L.Later, L.OnTime, Death;
      ghost var a := Now();
      HeldOk(a, current, Marks());
      Crash(target);
      KilledOk(a, Now(), target, current, Marks());
    }

    /** A guest sends another a signal it may handle. */
    method Signal(target: nat, sig: nat)
      requires Valid() && target < |procs|
      modifies `procs, `threads
      ensures Valid() && Steady(old(threads), threads) && Onward(old(Now()), Now()) && sig in procs[target].sigPending
      ensures threads == Each(Each(old(threads), WakeForSignal(target)), WakeIo())
    {
      hide Held, ConfigOk, Steady, Onward, NI.Inv;
      ghost var a := Now();
      HeldOk(a, current, Marks());
      PostSignal(target, sig);
      EachThread(WakeIo());
      ghost var b := a.(procs := procs);
      RetouchedOk(a, b, target, current, Marks());
      WokenOk(b, Now(), current, Marks());
      OnwardSame(a, b, Now());
    }

    method CondEnqueue(id: nat, cond: nat)
      requires Valid() && id < |threads|
      modifies `threads, `nextCondSeq
      ensures Valid() && Steady(old(threads), threads) && Onward(old(Now()), Now())
        && nextCondSeq == old(nextCondSeq) + 1
      ensures threads == old(threads)[id := CondVars.Join(old(threads)[id], cond, old(nextCondSeq))]
    {
      hide Held, ConfigOk, Steady, Onward, NI.Inv;
      ghost var a := Now();
      HeldOk(a, current, Marks());
      threads := threads[id := CondVars.Join(threads[id], cond, nextCondSeq)];
      nextCondSeq := nextCondSeq + 1;
      WokenOk(a, Now(), current, Marks());
      OnwardProcs(a, Now());
    }

    /** A signal or a broadcast on `cond` */
    method CondWake(pid: nat, cond: nat, all: bool)
      requires Valid() && cond != 0
      modifies `threads
      ensures Valid() && Steady(old(threads), threads) && Onward(old(Now()), Now())
        && CondVars.Woken(old(threads), threads, pid, cond, all)
      ensures all ==> CondVars.NoneQueued(threads, pid, cond)
    {
      hide Held, ConfigOk, Steady, Onward, NI.Inv, CondVars.Woken, CondVars.NoneQueued;
      ghost var a := Now();
      HeldOk(a, current, Marks());
      threads := CondVars.Wake(threads, pid, cond, all);
      CondWoken(a.threads, threads, pid, cond, all);
      WokenOk(a, Now(), current, Marks());
      OnwardProcs(a, Now());
    }

    // ---- the beginning ------------------------------------------------------------------------

    /** A run before its first process */
    constructor (hosts: seq<NT.Host>, latency: nat, seed: bv64, c: Config)
      requires NI.HostsOk(hosts) && hosts != [] && ConfigOk(c)
      ensures Valid() && cfg == c && threads == [] && procs == [] && clock == 0 && current == NO_THREAD && !stopped
      ensures net == NR.Zeroed(hosts, latency) && pctNext == 0 && demoted == {}
      ensures (rng, faultRng, pauseRng, pctRng) == Streams(seed) && !reseeded && restarts == 0 && nextCondSeq == 1
        && pctChangeAt == [] && bills == [] && pendingQuantum == 0
    {
      hide Held, NI.Inv, NR.Zeroed, Streams, R.FromSeed;
      cfg := c;
      threads, procs, net := [], [], NR.Zeroed(hosts, latency);
      clock, current, stopped, reseeded := 0, NO_THREAD, false, false;
      restarts, nextCondSeq, pendingQuantum := 0, 1, 0;
      rng, faultRng, pauseRng, pctRng := Streams(seed).0, Streams(seed).1, Streams(seed).2, Streams(seed).3;
      pctChangeAt, pctNext, demoted, bills := [], 0, {}, [];
      new;
      NR.ZeroedOk(hosts, latency);
      ZeroedTables(hosts, latency, Now(), current, Marks());
    }

    /** Under PCT the change points are drawn, and sorted; threads draw their
        priorities as they come. */
    method SetScheduler()
      requires Valid() && threads == [] && pctNext == 0 && demoted == {}
      modifies `pctChangeAt, `pctRng
      ensures Valid() && (cfg.pct ==> PointsOk(pctChangeAt, cfg.pctDepth, Horizon(cfg)))
      ensures cfg.pct ==>
        multiset(pctChangeAt) == multiset(PointDraws(old(pctRng), Clamped(cfg.pctDepth) - 1, Horizon(cfg)))
    {
      hide Held, PointsOk, ConfigOk;
      if cfg.pct {
        ghost var a, k := Now(), Marks();
        pctChangeAt := DrawPoints(cfg.pctDepth, Horizon(cfg));
        PointsSet(a, current, k, Marks());
      }
    }

    /** The change points: one less than the depth, below the horizon */
    method DrawPoints(depth: nat, horizon: nat) returns (points: seq<nat>)
      requires horizon > 0
      modifies `pctRng
      ensures PointsOk(points, depth, horizon) && |points| < MAX_PCT_DEPTH
      ensures multiset(points) == multiset(PointDraws(old(pctRng), Clamped(depth) - 1, horizon))
    {
      hide IsAscending, R.Next, R.Scaled, PointDraws;
      NoPoint(horizon);
      var drawn: seq<nat> := [];
      for i := 0 to Clamped(depth) - 1
        invariant |drawn| == i && forall j :: 0 <= j < i ==> drawn[j] < horizon
        invariant drawn + PointDraws(pctRng, Clamped(depth) - 1 - i, horizon)
                  == PointDraws(old(pctRng), Clamped(depth) - 1, horizon)
      {
        var x, next := R.Next(pctRng).0, R.Next(pctRng).1;
        R.ScaledBound(x, horizon);
        OnePoint(pctRng, Clamped(depth) - 1 - i, horizon, drawn);
        pctRng := next;
        drawn := drawn + [R.Scaled(x, horizon)];
      }
      points := Ascending(drawn);
      SortedBelow(drawn, points, horizon);
    }
  }

  /** The holder has stepped back, and paid for it. */
  function SteppedBack(s: Snap, from: Option<(nat, TState, nat)>, switchNs: nat): Snap {
    s.(threads := Recorded(s.threads, from), clock := if from.Some? then s.clock + switchNs else s.clock)
  }

  lemma MarksThenRuns(ts: seq<Thread>, us: seq<Thread>, vs: seq<Thread>, r: nat)
    requires OnlyMarks(ts, us) && r < |us| && us[r].state == Runnable && vs == us[r := us[r].(state := Running)]
    ensures OnlyRuns(ts, vs, r)
  {
    forall i | 0 <= i < |ts| ensures MarksOnly(if i == r then ts[i].(state := Running) else ts[i], vs[i]) {
      assert MarksOnly(ts[i], us[i]);
    }
    assert MarksOnly(ts[r], us[r]);
  }

  /** What lies ahead once the holder has stepped back */
  function OutlookFrom(s: Snap, from: Option<(nat, TState, nat)>, switchNs: nat): Outlook {
    OutlookOf(s).(threads := Recorded(s.threads, from), now := if from.Some? then s.clock + switchNs else s.clock)
  }

  /** One shutdown less is left, and the kill that follows it is set. */
  function InGrace(p: Proc, now: nat): Proc
    requires p.faults.shutdownsLeft > 0
  {
    var left := if p.faults.shutdownsLeft == NO_LIMIT then NO_LIMIT else p.faults.shutdownsLeft - 1;
    p.(faults := p.faults.(shutdownsLeft := left), shutdownAt := 0, killAt := now + Max(p.faults.grace, 1),
      shutDown := true)
  }

  lemma WarnedIs(a: Snap, b: Snap, pid: nat)
    requires pid < |a.procs| == |a.bills| && a.procs[pid].faults.shutdownsLeft > 0
    requires var q := InGrace(a.procs[pid], a.clock);
             b == a.(procs := a.procs[pid := q.(sigPending := q.sigPending + {q.faults.signal})],
                     threads := Each(Each(a.threads, WakeForSignal(pid)), WakeIo()),
                     bills := a.bills[pid := a.bills[pid].(shutdowns := a.bills[pid].shutdowns + 1)])
    ensures Warned(a, b, pid)
  {
  }

  lemma NoPoint(horizon: nat)
    ensures forall s: R.State {:trigger PointDraws(s, 0, horizon)} :: PointDraws(s, 0, horizon) == []
  {
  }

  lemma OnePoint(s: R.State, n: nat, horizon: nat, drawn: seq<nat>)
    requires n > 0
    ensures drawn + PointDraws(s, n, horizon)
            == drawn + [R.Scaled(R.Next(s).0, horizon)] + PointDraws(R.Next(s).1, n - 1, horizon)
  {
    hide R.Next, R.Scaled;
  }

  /** Change points as they are drawn */
  function PointDraws(s: R.State, n: nat, horizon: nat): seq<nat>
    decreases n
  {
    if n == 0 then [] else [R.Scaled(R.Next(s).0, horizon)] + PointDraws(R.Next(s).1, n - 1, horizon)
  }

  predicate PointsOk(points: seq<nat>, depth: nat, horizon: nat) {
    |points| == Clamped(depth) - 1 && IsAscending(points) && forall i :: 0 <= i < |points| ==> points[i] < horizon
  }

  lemma Appended<T>(s: seq<T>, t: seq<T>)
    requires |t| == |s| + 1 && t[..|s|] == s
    ensures t == s + [t[|s|]]
  {
  }

  lemma RegisteredOk(host: nat, faults: Faults, spec: nat, p: Proc, bill: Bill)
    requires FaultsOk(faults) && bill == Bill(faults.crashesLeft, 0, faults.shutdownsLeft, 0)
    requires p
      == NewProc(host, None).(faults := faults, spec := Some(spec), crashAt := p.crashAt, shutdownAt := p.shutdownAt)
    requires exists starts: nat :: TimesDrawn(p, starts)
    ensures Balanced(p.faults, bill) && !Dead(p) && p.replacedBy.None? && forall n: nat :: ProcOk(p, n)
  {
  }

  function Clamped(depth: nat): nat { if depth < 1 then 1 else if depth > MAX_PCT_DEPTH then MAX_PCT_DEPTH else depth }

  lemma SortedBelow(s: seq<nat>, r: seq<nat>, below: nat)
    requires multiset(r) == multiset(s) && forall j :: 0 <= j < |s| ==> s[j] < below
    ensures forall i :: 0 <= i < |r| ==> r[i] < below
  {
    forall i | 0 <= i < |r| ensures r[i] < below { assert r[i] in multiset(r) && r[i] in multiset(s); }
  }

  /** Which network calls have those look again who wait for a descriptor */
  predicate Wakes(op: NR.Op, reply: NR.Reply) {
    match op
    case OpSocket(_, _, _) => false
    case OpAddRef(_, _) => false
    case OpSetRefs(_, _) => false
    case OpDropRef(_, _) => true
    case _ => !reply.Failed?
  }

  lemma ZeroedTables(hosts: seq<NT.Host>, latency: nat, s: Snap, current: nat, k: Ranks)
    requires NI.Inv(s.net) && s.net == NR.Zeroed(hosts, latency) && k == Ranks([], 0, {})
    requires s.threads == [] && s.procs == [] && s.bills == [] && s.clock == 0
    ensures Held(s, current, k)
  {
    hide NI.Inv;
  }

  lemma PointsSet(a: Snap, current: nat, k: Ranks, n: Ranks)
    requires Held(a, current, k) && a.threads == [] && a.pct
    requires |n.changeAt| < MAX_PCT_DEPTH && n.next == 0 && n.demoted == {}
    ensures Held(a, current, n)
  {
    hide NI.Inv, Chained;
  }

  lemma PickableIn(s: Snap, r: nat)
    requires Pickable(s, r)
    ensures r < |s.threads| && s.threads[r].state == Runnable
  {
  }

  lemma OnTimeRefl(n: NT.Net)
    ensures L.OnTime(n, n)
  {
  }

  lemma OnTimeTrans(a: NT.Net, b: NT.Net, c: NT.Net)
    requires L.OnTime(a, b) && L.OnTime(b, c)
    ensures L.OnTime(a, c)
  {
  }

  lemma OutlookIn(s: Snap)
    requires Tables(s) || Ok(s)
    ensures InTable(OutlookOf(s)) && ThreadsOk(s.threads, s.procs)
  {
  }

  /** The clock may move, and the threads change, meanwhile. */
  lemma OnwardJump(a: Snap, b: Snap, c: Snap)
    requires b == a.(clock := b.clock, threads := b.threads) && b.clock >= a.clock && Onward(b, c)
    ensures Onward(a, c)
  {
    hide ProcOnward;
  }

  lemma OnwardSame(a: Snap, b: Snap, c: Snap)
    requires Onward(a, b) && c == b.(threads := c.threads)
    ensures Onward(a, c)
  {
    hide ProcOnward;
  }

  lemma IdleHeld(s: Snap, current: nat, k: Ranks)
    requires Ok(s) && NoneRunning(s.threads) && RanksOk(s, k)
    ensures Held(s, current, k)
  {
    hide Ok, RanksOk;
  }

  // ---- the parts of a death ---------------------------------------------------------------

  /** Sockets closed, waiters woken, the parent told */
  predicate Told(a: Snap, b: Snap, victim: nat, parent: Option<nat>) {
    && b == a.(procs := b.procs, threads := b.threads, net := b.net)
    && |b.procs| == |a.procs| && |b.threads| == |a.threads|
    && (forall i {:trigger b.procs[i]} :: 0 <= i < |a.procs| ==>
          b.procs[i] == Bereaved(a.procs[i], i, victim, parent))
    && (forall i {:trigger b.threads[i]} :: 0 <= i < |a.threads| ==>
          b.threads[i] == if a.threads[i].state == Blocked
                             && (a.threads[i].key == IO_KEY
                                 || (parent == Some(a.threads[i].pid) && a.threads[i].key == WAIT_KEY))
                          then a.threads[i].(state := Runnable) else a.threads[i])
  }

  /** Ended, retired and told comes to mourned. */
  lemma ToldMourned(a: Snap, m: Snap, b: Snap, victim: nat)
    requires victim < |a.procs| && |m.procs| == |a.procs| && Told(m, b, victim, a.procs[victim].parent)
    requires m == a.(procs := a.procs[victim := m.procs[victim]], threads := Each(a.threads, Retire(victim)))
    requires Ended(a.procs[victim], m.procs[victim]) && m.procs[victim].replacedBy == a.procs[victim].replacedBy
    ensures Mourned(a, b, victim)
  {
    forall i | 0 <= i < |a.threads| ensures b.threads[i] == Mourn(a.threads[i], victim, a.procs[victim].parent) {
      assert m.threads[i] == Retire(victim)(a.threads[i]);
    }
    forall i | 0 <= i < |a.procs| && i != victim ensures Bystander(a.procs[i], b.procs[i]) {
      assert m.procs[i] == a.procs[i];
    }
  }

  lemma ToldBereft(a: Snap, m: Snap, b: Snap, c: Snap, victim: nat)
    requires victim < |a.procs| && |m.procs| == |a.procs| && Told(m, b, victim, a.procs[victim].parent)
    requires m == a.(procs := a.procs[victim := m.procs[victim]], threads := Each(a.threads, Retire(victim)))
    requires m.procs[victim].parent == a.procs[victim].parent && (c == b || Reborn(b, c, victim))
    ensures Bereft(a, c, victim, m.procs[victim])
  {
    hide Asleep, Succeeds;
  }

  lemma CrashCondemned(a: Snap, m: Snap, b: Snap, victim: nat)
    requires victim < |a.procs| && |m.procs| == |a.procs| && Told(m, b, victim, a.procs[victim].parent)
    requires Condemned(a.procs[victim], m.procs[victim])
    ensures Condemned(a.procs[victim], b.procs[victim])
  {
  }

  lemma ToldGone(m: Snap, b: Snap, pid: nat, parent: Option<nat>)
    requires pid < |m.procs| && Told(m, b, pid, parent)
    ensures b.procs[pid].state == m.procs[pid].state && b.procs[pid].shutDown == m.procs[pid].shutDown
  {
  }

  lemma RecursIs(b: Snap, victim: nat)
    requires victim < |b.procs|
    ensures Recurs(b, victim)
      == (b.procs[victim].replacedBy.None? && RestartDue(b.procs[victim], KILLED_STATUS, b.stopped) && HasRoom(b))
  {
  }

  lemma BirthOk(a: Snap, b: Snap, c: Snap, victim: nat, starts: nat, faults: Faults)
    requires victim < |a.procs| < MAX_PROCS && |a.threads| < MAX_THREADS && |a.bills| == |a.procs|
    requires Dead(a.procs[victim]) && a.procs[victim].replacedBy.None? && FaultsOk(faults) && starts > a.clock
    requires a.procs[victim].faults.restartsLeft > 0 && a.procs[victim].spec.Some?
    requires a.procs[victim].faults.restartsLeft <= NO_LIMIT
    requires faults
      == a.procs[victim].faults.(restartsLeft := if a.procs[victim].faults.restartsLeft == NO_LIMIT then NO_LIMIT
                                                               else a.procs[victim].faults.restartsLeft - 1)
    requires var n := |a.procs|;
             && |b.procs| == n + 1 && |b.threads| == |a.threads| + 1 && |b.bills| == n + 1
             && b == a.(procs := b.procs, threads := b.threads, bills := a.bills + [b.bills[n]])
             && b.bills[n] == Bill(faults.crashesLeft, 0, faults.shutdownsLeft, 0)
             && b.procs
                  == (a.procs + [NewProc(a.procs[victim].host, None).(faults := faults, spec := a.procs[victim].spec)])
                             [victim := a.procs[victim].(replacedBy := Some(n))]
             && b.threads == a.threads + [NewThread(n, b.threads[|a.threads|].priority)
                                          .(state := Blocked, key := RESTART_KEY, deadline := starts)]
             && (a.pct ==> b.threads[|a.threads|].priority > MAX_PCT_DEPTH)
             && |c.procs| == |b.procs| && c == b.(procs := b.procs[n := c.procs[n]])
             && c.procs[n] == b.procs[n].(crashAt := c.procs[n].crashAt, shutdownAt := c.procs[n].shutdownAt)
             && TimesDrawn(c.procs[n], starts)
    ensures Reborn(a, c, victim) && ProcOk(c.procs[|a.procs|], |c.procs|)
  {
    hide RestartDue;
    assert c.threads[..|a.threads|] == a.threads;
  }

  /** A life's crash and shutdown times, where there are any to come, from the
      stream's next outputs, the crash's first */
  predicate TimesFrom(p: Proc, starts: nat, s: R.State, t: R.State)
    requires FaultsOk(p.faults)
  {
    var f := p.faults;
    var crashes, shuts := f.crashHi != 0 && f.crashesLeft != 0, f.shutdownHi != 0 && f.shutdownsLeft != 0;
    var mid := if crashes then R.Next(s).1 else s;
    && (crashes ==> p.crashAt == Max(starts + f.crashLo + R.Scaled(R.Next(s).0, f.crashHi - f.crashLo + 1), 1))
    && (!crashes ==> p.crashAt == 0)
    && (shuts ==>
          p.shutdownAt == Max(starts + f.shutdownLo + R.Scaled(R.Next(mid).0, f.shutdownHi - f.shutdownLo + 1), 1))
    && (!shuts ==> p.shutdownAt == 0)
    && t == if shuts then R.Next(mid).1 else mid
  }

  /** The successor of `victim` begins after a delay from the stream's next
      output; its faults come from those behind. */
  predicate LifeDrawn(a: Snap, b: Snap, victim: nat, s: R.State, t: R.State) {
    && victim < |a.procs| < |b.procs| && |a.threads| < |b.threads|
    && FaultsOk(a.procs[victim].faults) && FaultsOk(b.procs[|a.procs|].faults)
    && var f := a.procs[victim].faults;
       var starts := a.clock + Max(f.delayLo + R.Scaled(R.Next(s).0, f.delayHi - f.delayLo + 1), 1);
       b.threads[|a.threads|].deadline == starts && TimesFrom(b.procs[|a.procs|], starts, R.Next(s).1, t)
  }

  lemma LifeIsDrawn(a: Snap, b: Snap, victim: nat, s: R.State, t: R.State, starts: nat)
    requires victim < |a.procs| < |b.procs| && |a.threads| < |b.threads|
    requires FaultsOk(a.procs[victim].faults) && FaultsOk(b.procs[|a.procs|].faults)
    requires var f := a.procs[victim].faults;
             starts == a.clock + Max(f.delayLo + R.Scaled(R.Next(s).0, f.delayHi - f.delayLo + 1), 1)
    requires b.threads[|a.threads|].deadline == starts && TimesFrom(b.procs[|a.procs|], starts, R.Next(s).1, t)
    ensures LifeDrawn(a, b, victim, s, t)
  {
    hide R.Next, R.Scaled, TimesFrom;
  }

  predicate TimesDrawn(p: Proc, starts: nat) {
    var f := p.faults;
    && (p.crashAt == 0 <==> f.crashHi == 0 || f.crashesLeft == 0)
    && (p.shutdownAt == 0 <==> f.shutdownHi == 0 || f.shutdownsLeft == 0)
    && (p.crashAt != 0 ==> DrawnIn(p.crashAt, starts, f.crashLo, f.crashHi))
    && (p.shutdownAt != 0 ==> DrawnIn(p.shutdownAt, starts, f.shutdownLo, f.shutdownHi))
  }

  // ---- the faults of one moment --------------------------------------------------------------

  predicate CrashesNow(p: Proc, now: nat) { CrashOf(p).Some? && p.crashAt <= now }

  predicate CrashSet(a: Snap, dead: set<nat>) {
    forall i {:trigger a.procs[i]} :: 0 <= i < |a.procs| ==> (i in dead <==> CrashesNow(a.procs[i], a.clock))
  }

  /** What is due for a process no fault has touched yet is what was. */
  lemma StruckTimes(a: Snap, b: Snap, dead: set<nat>, warned: set<nat>, pid: nat)
    requires Struck(a, b, dead, warned) && pid < |b.procs|
    ensures pid < |a.procs| && pid !in dead && pid !in warned ==> Bystander(a.procs[pid], b.procs[pid])
    ensures pid < |a.procs| && pid in dead ==> Dead(b.procs[pid])
    ensures pid < |a.procs| && pid !in dead && pid in warned ==>
      b.procs[pid].shutdownAt == 0 && b.procs[pid].killAt > b.clock
    ensures pid >= |a.procs| ==>
      b.procs[pid].killAt == 0 && (b.procs[pid].shutdownAt == 0 || b.procs[pid].shutdownAt > b.clock)
  {
    hide StruckThread, NewThreads, Recurs;
    if pid < |a.procs| {
      assert StruckProc(a.procs[pid], b.procs[pid], pid in dead, pid in warned, a.clock);
    } else {
      assert Asleep(b.threads[pid - |a.procs| + |a.threads|], b.procs[pid], pid, b.clock);
    }
  }

  /** The crashes of the moment, and the shutdowns of the first `n` processes */
  predicate Upto(a: Snap, dead: set<nat>, warned: set<nat>, n: nat) {
    forall i {:trigger a.procs[i]} :: 0 <= i < |a.procs| ==>
      && (i in dead <==> CrashesNow(a.procs[i], a.clock) || (i < n && DiesNow(a.procs[i], a.clock)))
      && (i in warned <==> i < n && WarnsNow(a.procs[i], a.clock))
  }

  lemma UptoNone(a: Snap, first: set<nat>)
    requires CrashSet(a, first)
    ensures Upto(a, first, {}, 0)
  {
  }

  /** Crashes go before shutdowns. */
  lemma NoCrashDue(a: Snap, b: Snap, dead: set<nat>, warned: set<nat>, pid: nat)
    requires Struck(a, b, dead, warned) && Upto(a, dead, warned, pid) && pid < |a.procs| && pid !in dead
    requires pid !in warned
    ensures b.procs[pid].crashAt == 0 || b.procs[pid].crashAt > a.clock || Dead(b.procs[pid])
  {
    assert Bystander(a.procs[pid], b.procs[pid]) by { StruckTimes(a, b, dead, warned, pid); }
    hide Struck;
  }

  lemma UptoAll(a: Snap, dead: set<nat>, warned: set<nat>, n: nat)
    requires Upto(a, dead, warned, n) && n >= |a.procs|
    ensures AllOf(a, dead, warned)
  {
  }

  /** What is not due at `pid` changes nothing there. */
  lemma UptoNext(a: Snap, b: Snap, dead: set<nat>, warned: set<nat>, pid: nat)
    requires Struck(a, b, dead, warned) && Upto(a, dead, warned, pid) && pid < |b.procs| && b.clock == a.clock
    ensures pid !in warned
    ensures pid < |a.procs| && pid in dead ==> Dead(b.procs[pid])
    ensures var p := b.procs[pid];
            Dead(p) || ((p.killAt == 0 || p.killAt > b.clock) && (p.shutdownAt == 0 || p.shutdownAt > b.clock)) ==>
              Upto(a, dead, warned, pid + 1)
    ensures !Dead(b.procs[pid]) && b.procs[pid].killAt != 0 && b.procs[pid].killAt <= b.clock ==>
      pid < |a.procs| && pid !in dead
    ensures !Dead(b.procs[pid]) && b.procs[pid].shutdownAt != 0 && b.procs[pid].shutdownAt <= b.clock ==>
              pid < |a.procs| && pid !in dead
  {
    StruckTimes(a, b, dead, warned, pid);
    hide Struck;
    if pid in warned { WarnedBelow(a, b, dead, warned, pid); }
  }

  lemma WarnedBelow(a: Snap, b: Snap, dead: set<nat>, warned: set<nat>, i: nat)
    requires Struck(a, b, dead, warned) && i in warned
    ensures i < |a.procs|
  {
    hide StruckProc, StruckThread, Asleep;
  }

  lemma UptoDies(a: Snap, b: Snap, dead: set<nat>, warned: set<nat>, pid: nat)
    requires Upto(a, dead, warned, pid) && pid < |a.procs| && pid !in dead && pid < |b.procs| && b.clock == a.clock
    requires Bystander(a.procs[pid], b.procs[pid])
    requires !Dead(b.procs[pid]) && b.procs[pid].killAt != 0 && b.procs[pid].killAt <= b.clock
    ensures Upto(a, dead + {pid}, warned, pid + 1)
  {
  }

  lemma UptoWarned(a: Snap, b: Snap, dead: set<nat>, warned: set<nat>, pid: nat)
    requires Upto(a, dead, warned, pid) && pid < |a.procs| && pid !in dead && pid < |b.procs| && b.clock == a.clock
    requires Bystander(a.procs[pid], b.procs[pid])
    requires !Dead(b.procs[pid]) && !(b.procs[pid].killAt != 0 && b.procs[pid].killAt <= b.clock)
    requires b.procs[pid].shutdownAt != 0 && b.procs[pid].shutdownAt <= b.clock
    ensures Upto(a, dead, warned + {pid}, pid + 1)
  {
  }

  lemma TablesShutdown(b: Snap, pid: nat)
    requires Tables(b) && pid < |b.procs| && b.procs[pid].shutdownAt != 0
    ensures |b.bills| == |b.procs| && b.procs[pid].faults.shutdownsLeft > 0
  {
    hide NI.Inv, Chained, ThreadsOk;
    TablesNet(b);
    ShutdownCovered(b, pid);
  }

  lemma MovedClock(a: Snap, b: Snap)
    requires Moved(a, b)
    ensures b.clock == a.clock
  {
  }

  lemma FirstsAre(s: Snap, d: Option<nat>, c: Option<nat>, sh: Option<nat>, al: Option<nat>)
    requires Least(s.threads, DeadlineOf, d) && Least(s.procs, CrashOf, c)
    requires Least(s.procs, ShutdownOf, sh) && Least(s.procs, AlarmOf, al)
    ensures Firsts(s, d, c, sh, al)
  {
  }

  /** All that catching up comes to */
  lemma AllCaught(s0: Snap, s1: Snap, s2: Snap, s4: Snap, s5: Snap, s6: Snap, dead: set<nat>, warned: set<nat>)
    requires Tables(s0) && NoneRunning(s0.threads) && MaybeStopped(s0, s1) && Moved(s1, s2)
    requires Struck(s2, s4, dead, warned) && AllOf(s2, dead, warned) && Tables(s4) && L.OnTime(s2.net, s4.net)
    requires Timed(s4, s5, s6)
    ensures Ok(s6) && NoneRunning(s6.threads) && NothingDue(s6) && s6.clock == s0.clock
    ensures NotHigher(s0, s6) && LoomsOn(s0, s6) && Carried(s0.threads, s6.threads, s0.pct) && Onward(s0, s6)
    ensures InTable(OutlookOf(s0)) && InTable(OutlookOf(s6)) && (Doomed(OutlookOf(s0)) <==> Doomed(OutlookOf(s6)))
    ensures AtRest(s0) ==> s6 == Synced(s0)
  {
    hide AtRest, Tables, NoneRunning, MaybeStopped, Moved, Struck, AllOf, L.OnTime, Timed, Ok, NothingDue, NotHigher,
         LoomsOn, Carried, Doomed, InTable, Onward;
    assert Caught(s0, s1, s2, s4, s5, s6, dead, warned);
    hide Caught;
    CaughtOk(s0, s1, s2, s4, s5, s6, dead, warned);
    CaughtLower(s0, s1, s2, s4, s5, s6, dead, warned);
    CaughtLooms(s0, s1, s2, s4, s5, s6, dead, warned);
    CaughtCarried(s0, s1, s2, s4, s5, s6, dead, warned);
    CaughtOnward(s0, s1, s2, s4, s5, s6, dead, warned);
    CaughtDooms(s0, s1, s2, s4, s5, s6, dead, warned);
    if AtRest(s0) { CaughtRest(s0, s1, s2, s4, s5, s6, dead, warned); }
  }

  lemma CaughtRest(s0: Snap, s1: Snap, s2: Snap, s4: Snap, s5: Snap, s6: Snap, dead: set<nat>, warned: set<nat>)
    requires Caught(s0, s1, s2, s4, s5, s6, dead, warned) && AtRest(s0)
    ensures s6 == Synced(s0)
  {
    hide Caught, AtRest;
    RestStays(s0, s1, s2, s4, s5, s6, dead, warned);
  }

  lemma CaughtDooms(s0: Snap, s1: Snap, s2: Snap, s4: Snap, s5: Snap, s6: Snap, dead: set<nat>, warned: set<nat>)
    requires Caught(s0, s1, s2, s4, s5, s6, dead, warned) && Ok(s6) && NothingDue(s6) && NoneRunning(s6.threads)
    ensures InTable(OutlookOf(s0)) && InTable(OutlookOf(s6)) && (Doomed(OutlookOf(s0)) <==> Doomed(OutlookOf(s6)))
  {
    hide NoneRunning, Moved, Struck, AllOf, L.OnTime, Timed, NothingDue, Doomed, InTable, NI.Inv, Chained, ProcsOk,
         ThreadsOk, L.Later;
    OutlookIn(s0);
    OutlookIn(s6);
    CaughtStop(s0, s1, s2, s4, s5, s6, dead, warned);
    if StopOf(s0).Some? {
      StopsDoom(s0);
      if StopsNow(s0) { StopDooms(s0, s1, s2, s4, s5, s6, dead, warned); } else { StopsDoom(s6); }
    } else {
      assert s1 == s0;
      assert Across(s0, s2, s4, s5, s6, dead, warned);
      AcrossDooms(s0, s2, s4, s5, s6, dead, warned);
    }
  }

  /** A stop still ahead is an end. */
  lemma StopsDoom(s: Snap)
    requires InTable(OutlookOf(s)) && StopOf(s).Some?
    ensures !Doomed(OutlookOf(s))
  {
    hide Stirs, Survives, Returns, Repeats;
  }

  // ---- timers ---------------------------------------------------------------------------------

  predicate IsFirstBlocked(ts: seq<Thread>, pid: nat, i: nat) {
    i <= |ts| && (i < |ts| ==> ts[i].pid == pid && ts[i].state == Blocked)
    && forall j {:trigger ts[j]} :: 0 <= j < i ==> !(ts[j].pid == pid && ts[j].state == Blocked)
  }

  /** Its process's timer rings, and no thread before it blocks for the same
      process. */
  predicate FirstCalled(ts: seq<Thread>, ps: seq<Proc>, now: nat, j: nat) {
    j < |ts| && Called(ts[j], ps, now) && IsFirstBlocked(ts, ts[j].pid, j)
  }

  /** The timers of the first `n` processes have rung: each has woken the first
      blocked thread of its process, and nothing else has changed. */
  predicate WokenUpTo(ts: seq<Thread>, us: seq<Thread>, ps: seq<Proc>, now: nat, n: nat) {
    |us| == |ts|
    && forall j: nat {:trigger us[j]} :: j < |us| ==>
         us[j] == if FirstCalled(ts, ps, now, j) && ts[j].pid < n then ts[j].(state := Runnable) else ts[j]
  }

  lemma OneMoreWoken(ts: seq<Thread>, us: seq<Thread>, vs: seq<Thread>, ps: seq<Proc>, now: nat, pid: nat, i: nat)
    requires WokenUpTo(ts, us, ps, now, pid) && IsFirstBlocked(us, pid, i) && pid < |ps| && RingsNow(ps[pid], now)
    requires vs == if i < |us| then us[i := us[i].(state := Runnable)] else us
    ensures WokenUpTo(ts, vs, ps, now, pid + 1)
  {
    hide RingsNow;
    forall j: nat | j < |ts| && ts[j].pid == pid ensures us[j] == ts[j] && (FirstCalled(ts, ps, now, j) <==> j == i) {
      OwnUntouched(ts, us, ps, now, pid, i, j);
    }
    forall j: nat {:trigger vs[j]} | j < |vs|
      ensures vs[j] == if FirstCalled(ts, ps, now, j) && ts[j].pid < pid + 1 then ts[j].(state := Runnable) else ts[j]
    {
      if ts[j].pid != pid { assert us[j].pid == ts[j].pid; }
    }
  }

  lemma OwnUntouched(ts: seq<Thread>, us: seq<Thread>, ps: seq<Proc>, now: nat, pid: nat, i: nat, j: nat)
    requires WokenUpTo(ts, us, ps, now, pid) && IsFirstBlocked(us, pid, i) && pid < |ps| && RingsNow(ps[pid], now)
    requires j < |ts| && ts[j].pid == pid
    ensures us[j] == ts[j] && (FirstCalled(ts, ps, now, j) <==> j == i)
  {
    hide RingsNow;
    forall h: nat | h < |ts| && ts[h].pid == pid ensures us[h] == ts[h] { }
    forall h: nat | h < |us| && us[h].pid == pid ensures ts[h].pid == pid { }
  }

  lemma WokenFired(b: Snap, c: Snap)
    requires WokenUpTo(b.threads, c.threads, b.procs, b.clock, |b.procs|) && |c.procs| == |b.procs|
    requires c == b.(procs := c.procs, threads := c.threads)
    requires forall i {:trigger c.procs[i]} :: 0 <= i < |c.procs| ==> c.procs[i] == Rung(b.procs[i], b.clock)
    ensures Fired(b, c)
  {
    hide RingsNow;
    forall i {:trigger b.threads[i]} | 0 <= i < |b.threads| && Called(b.threads[i], b.procs, b.clock)
      ensures AnyRunnable(c.threads)
    {
      var h := FirstOf(b.threads, b.threads[i].pid, i);
      assert FirstCalled(b.threads, b.procs, b.clock, h);
      assert c.threads[h].state == Runnable;
    }
  }

  lemma {:induction false} FirstOf(ts: seq<Thread>, pid: nat, i: nat) returns (h: nat)
    requires i < |ts| && ts[i].pid == pid && ts[i].state == Blocked
    ensures h <= i && IsFirstBlocked(ts, pid, h)
  {
    h := 0;
    while !(ts[h].pid == pid && ts[h].state == Blocked)
      invariant h <= i
      invariant forall j {:trigger ts[j]} :: 0 <= j < h ==> !(ts[j].pid == pid && ts[j].state == Blocked)
      decreases i - h
    {
      h := h + 1;
    }
  }

  // ---- what looms ----------------------------------------------------------------------------

  /** While nobody can run, something looms at `t`, unless the loop is over. */
  ghost predicate Lurks(s: Snap, t: nat) {
    AnyRunnable(s.threads) || !AnyLeft(s.threads) || NothingPending(s) || Looms(s, t)
  }

  /** After a turn somebody can run, or less is left, or it is nearer. */
  lemma Nearer(a: Snap, b: Snap, bound: nat)
    requires Lurks(a, bound) && !AnyRunnable(a.threads) && AnyLeft(a.threads) && !AnyRunnable(b.threads)
    requires NotHigher(a, b) && !NothingPending(a)
    requires forall u: nat {:trigger Looms(a, u)} :: Looms(a, u) ==>
               Lower(a, b) || AnyRunnable(b.threads) || (Looms(b, u) && b.clock > a.clock && u > b.clock)
    ensures Lower(a, b) || (Level(a, b) && a.clock < b.clock < bound && Looms(b, bound))
  {
    hide Looms, AnyRunnable, AnyLeft, NothingPending, Lower, Level;
  }

  ghost function FirstLurks(s: Snap): (t: nat)
    requires ThreadsOk(s.threads, s.procs) && NothingDue(s) && NoneRunning(s.threads)
    requires InTable(OutlookOf(s)) && !Doomed(OutlookOf(s))
    ensures Lurks(s, t)
  {
    if AnyRunnable(s.threads) || !AnyLeft(s.threads) || NothingPending(s) then 0
    else
      LoomsUnlessDoomed(s);
      var t: nat :| Looms(s, t);
      t
  }

  /** What looms next: the same, if it is still to come and nothing less is. */
  ghost function NextLurks(b: Snap, bound: nat): (t: nat)
    requires ThreadsOk(b.threads, b.procs) && NothingDue(b) && NoneRunning(b.threads)
    requires InTable(OutlookOf(b)) && !Doomed(OutlookOf(b))
    ensures Lurks(b, t) && (Looms(b, bound) ==> t == bound)
  {
    if Looms(b, bound) then bound else FirstLurks(b)
  }
}

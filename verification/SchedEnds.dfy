/** When the idle loop ends. Timers of a killed process go on ringing until the
    launcher has seen it die, and the loop waits for what they cannot bring
    about. Which states lead there can be told from the tables alone. */
module SchedEnds {
  import opened Wrappers
  import opened SchedTypes
  import opened SchedSpec
  import opened SchedFaults
  import opened SchedTurn
  import NI = NetInv
  import L = NetLater

  /** What the loop's future depends on: the tables, the bound on the next
      arrival, the clock, whether a stop is ahead or past, and whether another
      life would find room */
  datatype Outlook = Outlook(threads: seq<Thread>, procs: seq<Proc>, arrival: Option<nat>, now: nat,
                             stops: bool, stopped: bool, room: bool)

  function OutlookOf(s: Snap): Outlook {
    Outlook(s.threads, s.procs, NetOf(s), s.clock, StopOf(s).Some?, s.stopped, HasRoom(s))
  }

  /** What is overdue happens at once. */
  function At(t: nat, now: nat): nat { Max(t, now) }

  /** When the process is sent its shutdown signal, if it lives to see it */
  function SignalAt(p: Proc, now: nat): Option<nat> {
    if Dead(p) || p.shutdownAt == 0 then None
    else if p.crashAt != 0 && At(p.crashAt, now) <= At(p.shutdownAt, now) then None
    else if p.killAt != 0 && At(p.killAt, now) <= At(p.shutdownAt, now) then None
    else Some(At(p.shutdownAt, now))
  }

  /** When the process dies by crash or kill, if nothing else happens to it; the
      grace period begins with the signal. */
  function DiesAt(p: Proc, now: nat): Option<nat> {
    if Dead(p) then None
    else
      var crash := if p.crashAt != 0 then Some(At(p.crashAt, now)) else None;
      var kill := match SignalAt(p, now)
                  case Some(t) => Some(t + Max(p.faults.grace, 1))
                  case None => if p.killAt != 0 then Some(At(p.killAt, now)) else None;
      Sooner(crash, kill)
  }

  /** The process is still there after `e`: deaths come before wakes. */
  predicate Lasts(p: Proc, now: nat, e: nat) {
    match DiesAt(p, now) case None => true case Some(d) => e < d
  }

  predicate LastsTo(p: Proc, now: nat, e: Option<nat>) { e.Some? && Lasts(p, now, At(e.value, now)) }

  /** Some arrival, signal or death lets everybody who waits for a descriptor
      look, before `p` dies. */
  predicate HearsIo(o: Outlook, p: Proc) {
    || LastsTo(p, o.now, o.arrival)
    || exists q :: 0 <= q < |o.procs| && HearsOf(o.procs[q], p, o.now)
  }

  predicate HearsOf(q: Proc, p: Proc, now: nat) {
    LastsTo(p, now, SignalAt(q, now)) || LastsTo(p, now, DiesAt(q, now))
  }

  /** Some child of `pid` dies before `p`. */
  predicate HearsChild(o: Outlook, pid: nat, p: Proc) {
    exists q :: 0 <= q < |o.procs| && o.procs[q].parent == Some(pid) && LastsTo(p, o.now, DiesAt(o.procs[q], o.now))
  }

  /** The thread can run, or something will wake it or its like before its
      process dies. */
  predicate Stirs(o: Outlook, t: Thread)
    requires t.pid < |o.procs|
  {
    var p := o.procs[t.pid];
    || (t.state != Blocked && Lasts(p, o.now, o.now))
    || LastsTo(p, o.now, DeadlineOf(t)) || LastsTo(p, o.now, AlarmOf(p))
    || (t.key != RESTART_KEY && LastsTo(p, o.now, SignalAt(p, o.now)))
    || (t.key == IO_KEY && HearsIo(o, p)) || (t.key == WAIT_KEY && HearsChild(o, t.pid, p))
  }

  predicate Returns(o: Outlook, p: Proc) {
    p.replacedBy.None? && RestartDue(p, KILLED_STATUS, o.stopped) && o.room
  }

  /** Threads of processes in the table, as always */
  predicate InTable(o: Outlook) {
    forall i {:trigger o.threads[i]} :: 0 <= i < |o.threads| ==> o.threads[i].pid < |o.procs|
  }

  predicate Survives(o: Outlook, t: Thread)
    requires t.pid < |o.procs|
  {
    t.state != Exited && DiesAt(o.procs[t.pid], o.now).None?
  }

  /** Nobody will ever run again and yet time goes on: some thread survives but
      none stirs, no process to die has another life, no stop is set, and a
      repeating timer keeps the clock moving. */
  predicate Doomed(o: Outlook)
    requires InTable(o)
  {
    && !o.stops
    && (exists i :: 0 <= i < |o.threads| && Survives(o, o.threads[i]))
    && (forall i {:trigger o.threads[i]} :: 0 <= i < |o.threads| && o.threads[i].state != Exited ==>
         !Stirs(o, o.threads[i]))
    && (forall q {:trigger o.procs[q]} :: 0 <= q < |o.procs| && DiesAt(o.procs[q], o.now).Some? ==>
         !Returns(o, o.procs[q]))
    && (exists q :: 0 <= q < |o.procs| && Repeats(o.procs[q]))
  }

  predicate Repeats(p: Proc) { AlarmOf(p).Some? && p.alarmInterval != 0 }

  // ---- an example ---------------------------------------------------------------------

  /** Two processes each wait for a lock; the second has a timer every 200 and
      is to be crashed at 1000. */
  lemma CrashDooms(one: Thread, other: Thread, p: Proc, q: Proc)
    requires one.pid == 0 && one.state == Blocked && one.deadline == 0 && one.key !in {IO_KEY, WAIT_KEY, RESTART_KEY}
    requires other.pid == 1 && other.state == Blocked && other.deadline == 0
    requires other.key !in {IO_KEY, WAIT_KEY, RESTART_KEY}
    requires p == NewProc(0, None).(state := Attached)
    requires q
      == NewProc(0, None).(state := Attached, faults := NO_FAULTS.(crashLo := 1000, crashHi := 1000, crashesLeft := 1),
                                    alarmAt := 1100, alarmInterval := 200, crashAt := 1000)
    ensures ThreadsOk([one, other], [p, q]) && ProcsOk([p, q]) && Chained([p, q], [Bill(0, 0, 0, 0), Bill(1, 0, 0, 0)])
    ensures Doomed(Outlook([one, other], [p, q], None, 500, false, false, true))
  {
    var o := Outlook([one, other], [p, q], None, 500, false, false, true);
    assert Survives(o, o.threads[0]);
    assert Repeats(o.procs[1]);
  }

  // ---- time passes ----------------------------------------------------------------------

  lemma SameFuture(p: Proc, now: nat, later: nat)
    requires now <= later
    requires CrashOf(p).Some? ==> later <= p.crashAt
    requires ShutdownOf(p).Some? ==> later <= ShutdownOf(p).value
    ensures DiesAt(p, later) == DiesAt(p, now) && SignalAt(p, later) == SignalAt(p, now)
  {
  }

  /** Nothing of a process changes by waiting. */
  predicate Unhurried(p: Proc, now: nat, later: nat) {
    && DiesAt(p, later) == DiesAt(p, now) && Later(DiesAt(p, now), later)
    && SignalAt(p, later) == SignalAt(p, now) && Later(SignalAt(p, now), later) && Later(AlarmOf(p), later)
  }

  lemma JumpProc(s: Snap, q: nat, t: nat)
    requires q < |s.procs| && BeforeAll(s, t) && t > s.clock
    ensures Unhurried(s.procs[q], s.clock, t)
  {
    SameFuture(s.procs[q], s.clock, t);
  }

  lemma JumpThread(s: Snap, i: nat, t: nat)
    requires i < |s.threads| && BeforeAll(s, t) && t > s.clock && s.threads[i].state != Exited
    requires NoneRunning(s.threads) && !AnyRunnable(s.threads)
    ensures s.threads[i].state == Blocked && Later(DeadlineOf(s.threads[i]), t) && Later(NetOf(s), t)
  {
    assert s.threads[i].state != Runnable && s.threads[i].state != Running;
  }

  /** The clock may jump to the next event without changing how things end. */
  lemma JumpDooms(a: Snap, b: Snap, t: nat)
    requires ThreadsOk(a.threads, a.procs) && NoneRunning(a.threads) && !AnyRunnable(a.threads)
    requires b == a.(clock := Max(a.clock, t)) && BeforeAll(a, t)
    ensures InTable(OutlookOf(a)) && InTable(OutlookOf(b))
    ensures Doomed(OutlookOf(a)) <==> Doomed(OutlookOf(b))
  {
    var o, n := OutlookOf(a), OutlookOf(b);
    hide BeforeAll, DiesAt, SignalAt, AnyRunnable, NoneRunning, Stirs, Unhurried, Returns, Repeats, Later;
    if t > a.clock {
      forall q | 0 <= q < |o.procs| ensures Unhurried(o.procs[q], o.now, n.now) { JumpProc(a, q, t); }
      forall i | 0 <= i < |o.threads| && o.threads[i].state != Exited
        ensures Stirs(o, o.threads[i]) == Stirs(n, n.threads[i])
      {
        JumpThread(a, i, t);
        JumpStirs(o, n, o.threads[i]);
      }
      JumpSame(o, n);
    }
  }

  lemma JumpSame(o: Outlook, n: Outlook)
    requires n == o.(now := n.now) && InTable(o)
    requires forall q {:trigger o.procs[q]} :: 0 <= q < |o.procs| ==> Unhurried(o.procs[q], o.now, n.now)
    requires forall i {:trigger o.threads[i]} :: 0 <= i < |o.threads| && o.threads[i].state != Exited ==>
               Stirs(o, o.threads[i]) == Stirs(n, o.threads[i])
    ensures Doomed(o) <==> Doomed(n)
  {
    hide DiesAt, SignalAt, Stirs, Repeats, Later;
    forall q | 0 <= q < |o.procs|
      ensures DiesAt(o.procs[q], o.now) == DiesAt(n.procs[q], n.now)
    {
      assert Unhurried(o.procs[q], o.now, n.now);
    }
    forall q | 0 <= q < |o.procs| ensures Returns(n, n.procs[q]) == Returns(o, o.procs[q]) { }
    forall i | 0 <= i < |o.threads| ensures Survives(o, o.threads[i]) == Survives(n, n.threads[i]) { }
  }

  predicate Later(t: Option<nat>, now: nat) { t.Some? ==> t.value >= now }

  lemma JumpStirs(o: Outlook, n: Outlook, t: Thread)
    requires t.pid < |o.procs| && n == o.(now := n.now) && n.now >= o.now && t.state == Blocked
    requires Later(DeadlineOf(t), n.now) && Later(o.arrival, n.now)
    requires forall q {:trigger o.procs[q]} :: 0 <= q < |o.procs| ==> Unhurried(o.procs[q], o.now, n.now)
    ensures Stirs(o, t) == Stirs(n, t)
  {
    hide DiesAt, SignalAt;
    var p := o.procs[t.pid];
    assert Unhurried(p, o.now, n.now);
    forall q | 0 <= q < |o.procs|
      ensures HearsOf(o.procs[q], p, o.now) == HearsOf(o.procs[q], p, n.now)
      ensures LastsTo(p, o.now, DiesAt(o.procs[q], o.now)) == LastsTo(p, n.now, DiesAt(o.procs[q], n.now))
    {
      assert Unhurried(o.procs[q], o.now, n.now);
    }
    hide HearsOf;
    assert HearsIo(o, p) == HearsIo(n, p);
    assert HearsChild(o, t.pid, p) == HearsChild(n, t.pid, p);
  }

  // ---- catching up ------------------------------------------------------------------------

  /** A process across the faults of one moment and the ring of its timer */
  lemma ProcAcross(p: Proc, q: Proc, r: Proc, dead: bool, warned: bool, now: nat)
    requires StruckProc(p, q, dead, warned, now) && r == Rung(q, now)
    requires dead <==> DiesNow(p, now)
    requires warned <==> WarnsNow(p, now)
    ensures dead ==> DiesAt(p, now) == Some(now) && DiesAt(r, now).None? && SignalAt(p, now).None?
    ensures !dead ==> DiesAt(r, now) == DiesAt(p, now) && Later(DiesAt(p, now), now + 1)
    ensures warned ==> SignalAt(p, now) == Some(now) && SignalAt(r, now).None?
    ensures !dead && !warned ==> SignalAt(r, now) == SignalAt(p, now) && Later(SignalAt(p, now), now + 1)
    ensures Repeats(r) == Repeats(p) && r.parent == p.parent
    ensures AlarmOf(r).Some? ==> AlarmOf(p).Some?
    ensures AlarmOf(r) == AlarmOf(p) || RingsNow(p, now)
  {
    hide StruckProc, Rung, DiesNow, WarnsNow, DiesAt, SignalAt, Later, RingsNow;
    DiesAcross(p, q, r, dead, warned, now);
    SignalAcross(p, q, r, dead, warned, now);
    AlarmAcross(p, q, r, dead, warned, now);
  }

  lemma DiesAcross(p: Proc, q: Proc, r: Proc, dead: bool, warned: bool, now: nat)
    requires StruckProc(p, q, dead, warned, now) && r == Rung(q, now)
    requires dead <==> DiesNow(p, now)
    requires warned <==> WarnsNow(p, now)
    ensures dead ==> DiesAt(p, now) == Some(now) && DiesAt(r, now).None?
    ensures !dead ==> DiesAt(r, now) == DiesAt(p, now) && Later(DiesAt(p, now), now + 1)
  {
    if warned && !dead {
      WarnedDies(p, q, r, now);
    } else {
      OthersDie(p, q, r, dead, now);
    }
  }

  lemma WarnedDies(p: Proc, q: Proc, r: Proc, now: nat)
    requires StruckProc(p, q, false, true, now) && r == Rung(q, now) && !DiesNow(p, now) && WarnsNow(p, now)
    ensures DiesAt(r, now) == DiesAt(p, now) && Later(DiesAt(p, now), now + 1)
  {
  }

  lemma OthersDie(p: Proc, q: Proc, r: Proc, dead: bool, now: nat)
    requires StruckProc(p, q, dead, false, now) && r == Rung(q, now)
    requires (dead <==> DiesNow(p, now)) && (!dead ==> !WarnsNow(p, now))
    ensures dead ==> DiesAt(p, now) == Some(now) && DiesAt(r, now).None?
    ensures !dead ==> DiesAt(r, now) == DiesAt(p, now) && Later(DiesAt(p, now), now + 1)
  {
  }

  lemma SignalAcross(p: Proc, q: Proc, r: Proc, dead: bool, warned: bool, now: nat)
    requires StruckProc(p, q, dead, warned, now) && r == Rung(q, now)
    requires dead <==> DiesNow(p, now)
    requires warned <==> WarnsNow(p, now)
    ensures dead ==> SignalAt(p, now).None?
    ensures warned ==> SignalAt(p, now) == Some(now) && SignalAt(r, now).None?
    ensures !dead && !warned ==> SignalAt(r, now) == SignalAt(p, now) && Later(SignalAt(p, now), now + 1)
  {
  }

  lemma AlarmAcross(p: Proc, q: Proc, r: Proc, dead: bool, warned: bool, now: nat)
    requires StruckProc(p, q, dead, warned, now) && r == Rung(q, now)
    ensures Repeats(r) == Repeats(p) && r.parent == p.parent
    ensures AlarmOf(r).Some? ==> AlarmOf(p).Some?
    ensures AlarmOf(r) == AlarmOf(p) || RingsNow(p, now)
  {
  }

  lemma ReturnsAcross(p: Proc, q: Proc, r: Proc, dead: bool, warned: bool, now: nat, o: Outlook, n: Outlook)
    requires StruckProc(p, q, dead, warned, now) && r == Rung(q, now) && !dead
    requires n.stopped == o.stopped && n.room == o.room
    ensures Returns(n, r) == Returns(o, p)
  {
  }

  /** Someone who sleeps until a restart will stir. */
  lemma AsleepStirs(o: Outlook, t: Thread, n: nat)
    requires n < |o.procs| && Asleep(t, o.procs[n], n, o.now)
    ensures Stirs(o, t)
  {
  }

  /** The steps of catching up without a stop, as far as they matter here */
  ghost predicate Across(s0: Snap, s2: Snap, s4: Snap, s5: Snap, s6: Snap, dead: set<nat>, warned: set<nat>) {
    && ThreadsOk(s0.threads, s0.procs) && NoneRunning(s0.threads) && StopOf(s0).None? && StopOf(s6).None?
    && Moved(s0, s2) && Struck(s2, s4, dead, warned) && AllOf(s2, dead, warned) && Timed(s4, s5, s6)
    && ThreadsOk(s6.threads, s6.procs) && NoneRunning(s6.threads)
    && s6.clock == s0.clock && s6.stopped == s0.stopped && s6.net == s4.net
  }

  lemma AcrossProc(s0: Snap, s2: Snap, s4: Snap, s5: Snap, s6: Snap, dead: set<nat>, warned: set<nat>, i: nat)
    requires Across(s0, s2, s4, s5, s6, dead, warned) && i < |s0.procs|
    ensures i < |s4.procs| == |s6.procs| && s6.procs[i] == Rung(s4.procs[i], s0.clock)
    ensures StruckProc(s0.procs[i], s4.procs[i], i in dead, i in warned, s0.clock)
    ensures i in dead <==> DiesNow(s0.procs[i], s0.clock)
    ensures i in warned <==> WarnsNow(s0.procs[i], s0.clock)
  {
    hide ThreadsOk, NoneRunning, StruckThread, Asleep, NewThreads, Recurs, AnyRunnable, L.Later, NI.Inv, DiesNow,
         WarnsNow, StruckProc, Rung, StaleNet;
    assert StruckProc(s2.procs[i], s4.procs[i], i in dead, i in warned, s2.clock);
    assert s6.procs[i] == Rung(s4.procs[i], s4.clock);
  }

  /** A thread that was there, from state to state */
  lemma AcrossThread(s0: Snap, s2: Snap, s4: Snap, s5: Snap, s6: Snap, dead: set<nat>, warned: set<nat>, i: nat)
    requires Across(s0, s2, s4, s5, s6, dead, warned) && i < |s0.threads|
    ensures i < |s2.threads| <= |s4.threads| == |s5.threads| == |s6.threads| && s2.procs == s0.procs
    ensures s2.threads[i] == (if Arrives(s0) then WakeIo()(s0.threads[i]) else s0.threads[i])
    ensures s4.threads[i] == StruckThread(s0.procs, s2.threads[i], dead, warned)
    ensures s5.threads[i] == Expire(s0.clock)(s4.threads[i])
    ensures RousedBy(s5.threads[i], s6.threads[i], s4.procs, s0.clock)
    ensures Called(s5.threads[i], s4.procs, s0.clock) ==> AnyRunnable(s6.threads)
    ensures s0.threads[i].pid < |s0.procs| <= |s4.procs| && s0.threads[i].state != Running
  {
    hide StruckProc, StruckThread, Asleep, NewThreads, Recurs, AnyRunnable, L.Later, NI.Inv, AllOf, StaleNet,
         RousedBy;
    assert s0.threads[i].pid < |s0.procs|;
    assert s4.threads[i] == StruckThread(s2.procs, s2.threads[i], dead, warned);
    assert RousedBy(s5.threads[i], s6.threads[i], s5.procs, s5.clock);
  }

  /** In what follows: the thread `t` became `u`; `p`, its process, did not die. */
  ghost predicate Became(s0: Snap, s6: Snap, dead: set<nat>, warned: set<nat>, t: Thread, u: Thread) {
    && t.pid < |s0.procs| && t.pid !in dead && t.state != Running
    && (t.state == Exited <==> u.state == Exited) && u.pid == t.pid && u.key == t.key && u.state != Running
    && (t.state == Runnable ==> u.state == Runnable)
    && (u.state == Blocked ==>
         t.state == Blocked && u.deadline == t.deadline && (u.deadline == 0 || u.deadline > s0.clock))
    && (t.state == Blocked ==>
          (WokenNow(s0, dead, warned, t) ==> u.state == Runnable)
          && (u.state == Runnable ==> WokenNow(s0, dead, warned, t) || RingsNow(s0.procs[t.pid], s0.clock))
          && (RingsNow(s0.procs[t.pid], s0.clock) ==> AnyRunnable(s6.threads)))
  }

  predicate WokenNow(s0: Snap, dead: set<nat>, warned: set<nat>, t: Thread) {
    || (t.key == IO_KEY && Arrives(s0)) || Reached(s0.procs, t, dead, warned)
    || (t.deadline != 0 && t.deadline <= s0.clock)
  }

  lemma HowBecame(s0: Snap, s2: Snap, s4: Snap, s5: Snap, s6: Snap, dead: set<nat>, warned: set<nat>, i: nat)
    requires Across(s0, s2, s4, s5, s6, dead, warned) && i < |s0.threads| && s0.threads[i].pid !in dead
    ensures i < |s6.threads| && Became(s0, s6, dead, warned, s0.threads[i], s6.threads[i])
  {
    hide Across, Reached, AnyRunnable;
    AcrossThread(s0, s2, s4, s5, s6, dead, warned, i);
    var t := s0.threads[i];
    AcrossProc(s0, s2, s4, s5, s6, dead, warned, t.pid);
    assert RingsNow(s4.procs[t.pid], s0.clock) == RingsNow(s0.procs[t.pid], s0.clock);
    assert Reached(s0.procs, s2.threads[i], dead, warned)
      == Reached(s0.procs, t, dead, warned) by { SameReach(s0, t, s2.threads[i], dead, warned); }
    if s6.threads[i].state == Runnable { AnyIs(s6.threads, i); }
  }

  lemma SameReach(s0: Snap, t: Thread, u: Thread, dead: set<nat>, warned: set<nat>)
    requires u.key == t.key && u.pid == t.pid
    ensures Reached(s0.procs, u, dead, warned) == Reached(s0.procs, t, dead, warned)
  {
  }

  lemma AnyIs(ts: seq<Thread>, i: nat)
    requires i < |ts| && ts[i].state == Runnable
    ensures AnyRunnable(ts)
  {
  }

  /** The thread of a process that dies now does not stir: nothing comes before
      the death. */
  lemma DyingIsStill(o: Outlook, t: Thread)
    requires t.pid < |o.procs| && DiesAt(o.procs[t.pid], o.now) == Some(o.now)
    ensures !Stirs(o, t)
  {
    hide DiesAt, SignalAt;
  }

  /** Processes before and after */
  ghost predicate ProcsAcross(o: Outlook, n: Outlook, dead: set<nat>, warned: set<nat>) {
    && n.now == o.now && |o.procs| <= |n.procs|
    && forall q {:trigger o.procs[q]} {:trigger n.procs[q]} :: 0 <= q < |o.procs| ==>
         && (q in dead ==> DiesAt(o.procs[q], o.now) == Some(o.now) && DiesAt(n.procs[q], o.now).None?)
         && (q !in dead ==> DiesAt(n.procs[q], o.now) == DiesAt(o.procs[q], o.now)
                            && Later(DiesAt(o.procs[q], o.now), o.now + 1))
         && (q in warned ==> SignalAt(o.procs[q], o.now) == Some(o.now) && SignalAt(n.procs[q], o.now).None?)
         && (q !in dead && q !in warned ==> SignalAt(n.procs[q], o.now) == SignalAt(o.procs[q], o.now)
                                            && Later(SignalAt(o.procs[q], o.now), o.now + 1))
         && (q in dead ==> SignalAt(o.procs[q], o.now).None?)
         && Repeats(n.procs[q]) == Repeats(o.procs[q]) && n.procs[q].parent == o.procs[q].parent
         && (AlarmOf(n.procs[q]).Some? ==> AlarmOf(o.procs[q]).Some?)
         && (AlarmOf(n.procs[q]) == AlarmOf(o.procs[q]) || RingsNow(o.procs[q], o.now))
  }

  lemma HowProcs(s0: Snap, s2: Snap, s4: Snap, s5: Snap, s6: Snap, dead: set<nat>, warned: set<nat>)
    requires Across(s0, s2, s4, s5, s6, dead, warned)
    ensures ProcsAcross(OutlookOf(s0), OutlookOf(s6), dead, warned)
  {
    hide Across, DiesAt, SignalAt, RingsNow, Repeats, DiesNow, WarnsNow, Rung, StruckProc;
    AcrossSizes(s0, s2, s4, s5, s6, dead, warned);
    forall q | 0 <= q < |s0.procs|
      ensures StruckProc(s0.procs[q], s4.procs[q], q in dead, q in warned, s0.clock)
        && s6.procs[q] == Rung(s4.procs[q], s0.clock)
      ensures (q in dead <==> DiesNow(s0.procs[q], s0.clock)) && (q in warned <==> WarnsNow(s0.procs[q], s0.clock))
    {
      AcrossProc(s0, s2, s4, s5, s6, dead, warned, q);
    }
    forall q | 0 <= q < |s0.procs| { ProcAcross(s0.procs[q], s4.procs[q], s6.procs[q], q in dead, q in warned,
      s0.clock); }
  }

  lemma AcrossSizes(s0: Snap, s2: Snap, s4: Snap, s5: Snap, s6: Snap, dead: set<nat>, warned: set<nat>)
    requires Across(s0, s2, s4, s5, s6, dead, warned)
    ensures |s0.procs| <= |s4.procs| == |s6.procs| && |s0.threads| <= |s6.threads| && s6.clock == s0.clock
    ensures |s6.threads| - |s0.threads| == |s6.procs| - |s0.procs|
    ensures dead == {} && warned == {} && !Arrives(s0) ==> NetOf(s6) == NetOf(s0)
    ensures |s6.procs| > |s0.procs| ==> dead != {}
  {
    hide StruckProc, StruckThread, Asleep, NewThreads, Recurs, AnyRunnable, L.Later, NI.Inv, AllOf, StaleNet;
  }

  lemma NoSuchProc(o: Outlook, n: Outlook, dead: set<nat>, warned: set<nat>, q: nat)
    requires ProcsAcross(o, n, dead, warned) && q < |o.procs| && q !in dead && q !in warned
    ensures DiesAt(n.procs[q], n.now) == DiesAt(o.procs[q], o.now)
      && SignalAt(n.procs[q], n.now) == SignalAt(o.procs[q], o.now)
    ensures n.procs[q].parent == o.procs[q].parent
  {
    hide DiesAt, SignalAt, RingsNow, Repeats;
    assert o.procs[q] == o.procs[q];
  }

  /** Forward: what would stir has stirred, or will. */
  lemma StirsOn(s0: Snap, s6: Snap, dead: set<nat>, warned: set<nat>, t: Thread, u: Thread)
    requires ProcsAcross(OutlookOf(s0), OutlookOf(s6), dead, warned) && Became(s0, s6, dead, warned, t, u)
    requires dead == {} && warned == {} && !Arrives(s0) ==> NetOf(s6) == NetOf(s0)
    requires t.state != Exited && Stirs(OutlookOf(s0), t)
    ensures u.state == Runnable || AnyRunnable(s6.threads) || Stirs(OutlookOf(s6), u)
  {
    var o, n := OutlookOf(s0), OutlookOf(s6);
    var p := o.procs[t.pid];
    assert DiesAt(n.procs[t.pid], n.now) == DiesAt(p, o.now);
    hide DiesAt, SignalAt, AnyRunnable, Repeats;
    if t.state == Blocked && u.state == Blocked && !AnyRunnable(s6.threads) {
      if t.key == IO_KEY && HearsIo(o, p) { IoOn(o, n, s0, s6, dead, warned, t, u); }
      if t.key == WAIT_KEY && HearsChild(o, t.pid, p) { ChildOn(o, n, s0, s6, dead, warned, t, u); }
    }
  }

  lemma IoOn(o: Outlook, n: Outlook, s0: Snap, s6: Snap, dead: set<nat>, warned: set<nat>, t: Thread, u: Thread)
    requires o == OutlookOf(s0) && n == OutlookOf(s6)
    requires ProcsAcross(o, n, dead, warned) && Became(s0, s6, dead, warned, t, u) && t.state == Blocked
      && u.state == Blocked
    requires dead == {} && warned == {} && !Arrives(s0) ==> NetOf(s6) == NetOf(s0)
    requires t.key == IO_KEY
    ensures dead == {} && warned == {} && n.arrival == o.arrival && Later(o.arrival, o.now)
    ensures HearsIo(n, n.procs[t.pid]) || !HearsIo(o, o.procs[t.pid])
  {
    hide DiesAt, SignalAt, AnyRunnable, Repeats, RingsNow;
    var p, r := o.procs[t.pid], n.procs[t.pid];
    assert dead == {} && warned == {} && !Arrives(s0);
    assert DiesAt(r, n.now) == DiesAt(p, o.now);
    if q :| 0 <= q < |o.procs| && HearsOf(o.procs[q], p, o.now) {
      NoSuchProc(o, n, dead, warned, q);
      assert HearsOf(n.procs[q], r, n.now);
    }
  }

  lemma ChildOn(o: Outlook, n: Outlook, s0: Snap, s6: Snap, dead: set<nat>, warned: set<nat>, t: Thread, u: Thread)
    requires o == OutlookOf(s0) && n == OutlookOf(s6)
    requires ProcsAcross(o, n, dead, warned) && Became(s0, s6, dead, warned, t, u) && t.state == Blocked
      && u.state == Blocked
    requires t.key == WAIT_KEY && HearsChild(o, t.pid, o.procs[t.pid])
    ensures HearsChild(n, t.pid, n.procs[t.pid])
  {
    hide DiesAt, SignalAt, AnyRunnable, Repeats, RingsNow;
    var p, r := o.procs[t.pid], n.procs[t.pid];
    assert DiesAt(r, n.now) == DiesAt(p, o.now);
    var q :| 0 <= q < |o.procs| && o.procs[q].parent == Some(t.pid) && LastsTo(p, o.now, DiesAt(o.procs[q], o.now));
    assert q !in dead;
    assert DiesAt(n.procs[q], n.now) == DiesAt(o.procs[q], o.now) && n.procs[q].parent == o.procs[q].parent;
  }

  /** Backward: whoever stirs would have before. New lives are no news to
      anybody: they come of deaths, which everybody has heard of. */
  lemma StirredBefore(s0: Snap, s6: Snap, dead: set<nat>, warned: set<nat>, t: Thread, u: Thread)
    requires ProcsAcross(OutlookOf(s0), OutlookOf(s6), dead, warned) && Became(s0, s6, dead, warned, t, u)
    requires dead == {} && warned == {} && !Arrives(s0) ==> NetOf(s6) == NetOf(s0)
    requires |s6.procs| > |s0.procs| ==> dead != {}
    requires forall q {:trigger s6.procs[q]} :: |s0.procs| <= q < |s6.procs| ==> s6.procs[q].parent.None?
    requires forall q :: q in dead || q in warned ==> q < |s0.procs|
    requires u.state != Exited && Stirs(OutlookOf(s6), u)
    ensures Stirs(OutlookOf(s0), t)
  {
    var o, n := OutlookOf(s0), OutlookOf(s6);
    var p := o.procs[t.pid];
    assert DiesAt(n.procs[t.pid], n.now) == DiesAt(p, o.now);
    if u.state == Runnable {
      WokenStirs(s0, s6, dead, warned, t, u);
    } else {
      hide DiesAt, SignalAt, AnyRunnable, Repeats;
      if t.key == IO_KEY && HearsIo(n, n.procs[t.pid]) { IoBefore(o, n, s0, s6, dead, warned, t, u); }
      if t.key == WAIT_KEY && HearsChild(n, t.pid, n.procs[t.pid]) { ChildBefore(o, n, s0, s6, dead, warned, t, u); }
      assert t.pid !in warned || t.key == RESTART_KEY;
      assert t.pid !in warned ==> SignalAt(n.procs[t.pid], n.now) == SignalAt(p, o.now);
    }
  }

  lemma WokenStirs(s0: Snap, s6: Snap, dead: set<nat>, warned: set<nat>, t: Thread, u: Thread)
    requires ProcsAcross(OutlookOf(s0), OutlookOf(s6), dead, warned) && Became(s0, s6, dead, warned, t, u)
    requires forall q :: q in dead || q in warned ==> q < |s0.procs|
    requires u.state == Runnable
    ensures Stirs(OutlookOf(s0), t)
  {
    var o := OutlookOf(s0);
    var p := o.procs[t.pid];
    assert Later(DiesAt(p, o.now), o.now + 1);
    hide DiesAt, SignalAt, AnyRunnable, Repeats;
    if t.state == Blocked && Reached(s0.procs, t, dead, warned) {
      ReachedStirs(o, OutlookOf(s6), s0, dead, warned, t);
    }
  }

  lemma ReachedStirs(o: Outlook, n: Outlook, s0: Snap, dead: set<nat>, warned: set<nat>, t: Thread)
    requires o == OutlookOf(s0) && ProcsAcross(o, n, dead, warned)
    requires t.pid < |s0.procs| && t.pid !in dead && Reached(s0.procs, t, dead, warned)
    requires forall q :: q in dead || q in warned ==> q < |s0.procs|
    ensures Stirs(o, t)
  {
    hide DiesAt, SignalAt, AnyRunnable, Repeats, RingsNow;
    var p := o.procs[t.pid];
    assert Later(DiesAt(p, o.now), o.now + 1);
    if t.key == IO_KEY && dead != {} {
      var q :| q in dead;
      assert HearsOf(o.procs[q], p, o.now);
    } else if t.key == IO_KEY && warned != {} {
      var q :| q in warned;
      assert HearsOf(o.procs[q], p, o.now);
    } else if t.key == WAIT_KEY && exists q :: q in dead && q < |s0.procs| && s0.procs[q].parent == Some(t.pid) {
      var q :| q in dead && q < |s0.procs| && s0.procs[q].parent == Some(t.pid);
      assert o.procs[q].parent == Some(t.pid) && LastsTo(p, o.now, DiesAt(o.procs[q], o.now));
    } else {
      assert SignalAt(p, o.now) == Some(o.now);
    }
  }

  lemma IoBefore(o: Outlook, n: Outlook, s0: Snap, s6: Snap, dead: set<nat>, warned: set<nat>, t: Thread, u: Thread)
    requires o == OutlookOf(s0) && n == OutlookOf(s6)
    requires ProcsAcross(o, n, dead, warned) && Became(s0, s6, dead, warned, t, u) && u.state == Blocked
      && t.key == IO_KEY
    requires dead == {} && warned == {} && !Arrives(s0) ==> NetOf(s6) == NetOf(s0)
    requires |s6.procs| > |s0.procs| ==> dead != {}
    requires HearsIo(n, n.procs[t.pid])
    ensures HearsIo(o, o.procs[t.pid])
  {
    hide DiesAt, SignalAt, AnyRunnable, Repeats, RingsNow;
    var p, r := o.procs[t.pid], n.procs[t.pid];
    IoOn(o, n, s0, s6, dead, warned, t, u);
    assert DiesAt(r, n.now) == DiesAt(p, o.now);
    if q :| 0 <= q < |n.procs| && HearsOf(n.procs[q], r, n.now) {
      assert q < |o.procs|;
      NoSuchProc(o, n, dead, warned, q);
      assert HearsOf(o.procs[q], p, o.now);
    }
  }

  lemma ChildBefore(o: Outlook, n: Outlook, s0: Snap, s6: Snap, dead: set<nat>, warned: set<nat>, t: Thread, u: Thread)
    requires o == OutlookOf(s0) && n == OutlookOf(s6)
    requires ProcsAcross(o, n, dead, warned) && Became(s0, s6, dead, warned, t, u) && u.state == Blocked
    requires forall q {:trigger s6.procs[q]} :: |s0.procs| <= q < |s6.procs| ==> s6.procs[q].parent.None?
    requires HearsChild(n, t.pid, n.procs[t.pid])
    ensures HearsChild(o, t.pid, o.procs[t.pid])
  {
    hide DiesAt, SignalAt, AnyRunnable, Repeats, RingsNow;
    var p, r := o.procs[t.pid], n.procs[t.pid];
    assert DiesAt(r, n.now) == DiesAt(p, o.now);
    var q :| 0 <= q < |n.procs| && n.procs[q].parent == Some(t.pid) && LastsTo(r, n.now, DiesAt(n.procs[q], n.now));
    assert q < |o.procs|;
    assert q !in dead;
    assert DiesAt(n.procs[q], n.now) == DiesAt(o.procs[q], o.now) && n.procs[q].parent == o.procs[q].parent;
  }

  /** A new life: it stirs, and is nobody's child. */
  lemma NewLife(s0: Snap, s2: Snap, s4: Snap, s5: Snap, s6: Snap, dead: set<nat>, warned: set<nat>, n: nat)
    requires Across(s0, s2, s4, s5, s6, dead, warned) && |s0.procs| <= n < |s6.procs|
    ensures |s0.threads| <= n - |s0.procs| + |s0.threads| < |s6.threads| && s6.procs[n].parent.None?
    ensures Asleep(s6.threads[n - |s0.procs| + |s0.threads|], s6.procs[n], n, s6.clock)
  {
    hide StruckProc, StruckThread, NewThreads, Recurs, AnyRunnable, L.Later, NI.Inv, AllOf, StaleNet;
    var i := n - |s0.procs| + |s0.threads|;
    assert Asleep(s4.threads[i], s4.procs[n], n, s4.clock);
    assert s6.procs[n] == Rung(s4.procs[n], s4.clock);
    assert s5.threads[i] == s4.threads[i];
    assert RousedBy(s5.threads[i], s6.threads[i], s5.procs, s5.clock);
  }

  /** Whether anybody comes back is settled beforehand. */
  lemma NobodyReturns(s0: Snap, s2: Snap, s4: Snap, s5: Snap, s6: Snap, dead: set<nat>, warned: set<nat>)
    requires Across(s0, s2, s4, s5, s6, dead, warned)
    ensures |s6.procs| == |s0.procs| <==> forall q {:trigger s0.procs[q]} :: q in dead ==>
      !Returns(OutlookOf(s0), s0.procs[q])
    ensures forall q :: q in dead || q in warned ==> q < |s0.procs|
    ensures |s6.procs| == |s0.procs| ==> OutlookOf(s6).room == OutlookOf(s0).room
  {
    hide StruckProc, StruckThread, NewThreads, AnyRunnable, L.Later, NI.Inv, AllOf, StaleNet, Asleep, RestartDue;
    forall q: nat | q in dead ensures q < |s0.procs| && Recurs(s2, q) == Returns(OutlookOf(s0), s0.procs[q]) { }
    if |s6.procs| > |s0.procs| {
      var q :| q in dead && q < |s2.procs| && Recurs(s2, q);
      assert Returns(OutlookOf(s0), s0.procs[q]);
    } else {
      forall q: nat | q in dead ensures !Returns(OutlookOf(s0), s0.procs[q]) { assert !Recurs(s2, q); }
    }
  }

  lemma StillToReturn(s0: Snap, s2: Snap, s4: Snap, s5: Snap, s6: Snap, dead: set<nat>, warned: set<nat>, q: nat)
    requires Across(s0, s2, s4, s5, s6, dead, warned) && q < |s0.procs| && q !in dead && |s6.procs| == |s0.procs|
    ensures q < |s6.procs| && Returns(OutlookOf(s6), s6.procs[q]) == Returns(OutlookOf(s0), s0.procs[q])
  {
    AcrossSizes(s0, s2, s4, s5, s6, dead, warned);
    NobodyReturns(s0, s2, s4, s5, s6, dead, warned);
    AcrossProc(s0, s2, s4, s5, s6, dead, warned, q);
    AcrossStopped(s0, s2, s4, s5, s6, dead, warned);
    hide Across, StruckProc, Rung, DiesNow, WarnsNow, Returns;
    ReturnsAcross(s0.procs[q], s4.procs[q], s6.procs[q], false, q in warned, s0.clock, OutlookOf(s0), OutlookOf(s6));
  }

  lemma AcrossStopped(s0: Snap, s2: Snap, s4: Snap, s5: Snap, s6: Snap, dead: set<nat>, warned: set<nat>)
    requires Across(s0, s2, s4, s5, s6, dead, warned)
    ensures OutlookOf(s6).stopped == OutlookOf(s0).stopped && !OutlookOf(s6).stops && !OutlookOf(s0).stops
    ensures InTable(OutlookOf(s6)) && InTable(OutlookOf(s0)) && NoneRunning(s6.threads)
  {
    hide Struck, Timed, Moved, AllOf;
  }

  /** A thread of a process that died is out; it would not have stirred. */
  lemma HowDied(s0: Snap, s2: Snap, s4: Snap, s5: Snap, s6: Snap, dead: set<nat>, warned: set<nat>, i: nat)
    requires Across(s0, s2, s4, s5, s6, dead, warned) && i < |s0.threads| && s0.threads[i].pid in dead
    ensures i < |s6.threads| && s6.threads[i].state == Exited && !Stirs(OutlookOf(s0), s0.threads[i])
    ensures DiesAt(s0.procs[s0.threads[i].pid], s0.clock).Some?
  {
    hide Across, AnyRunnable, Reached, DiesAt, SignalAt, Stirs;
    AcrossThread(s0, s2, s4, s5, s6, dead, warned, i);
    HowProcs(s0, s2, s4, s5, s6, dead, warned);
    DyingIsStill(OutlookOf(s0), s0.threads[i]);
  }

  /** Nobody stirs afterwards exactly if nobody did before and nobody returns. */
  lemma AllStill(s0: Snap, s2: Snap, s4: Snap, s5: Snap, s6: Snap, dead: set<nat>, warned: set<nat>)
    requires Across(s0, s2, s4, s5, s6, dead, warned)
    requires InTable(OutlookOf(s0)) && InTable(OutlookOf(s6))
    ensures StillAll(OutlookOf(s6)) && !AnyRunnable(s6.threads) ==> StillAll(OutlookOf(s0)) && |s6.procs| == |s0.procs|
    ensures StillAll(OutlookOf(s0)) && |s6.procs| == |s0.procs| ==> StillAll(OutlookOf(s6))
  {
    hide Across, AnyRunnable, Stirs, Became, ProcsAcross, Asleep;
    var o, n := OutlookOf(s0), OutlookOf(s6);
    HowProcs(s0, s2, s4, s5, s6, dead, warned);
    AcrossSizes(s0, s2, s4, s5, s6, dead, warned);
    NobodyReturns(s0, s2, s4, s5, s6, dead, warned);
    forall q | |s0.procs| <= q < |s6.procs|
      ensures s6.procs[q].parent.None?
    {
      NewLife(s0, s2, s4, s5, s6, dead, warned, q);
    }
    if StillAll(n) && !AnyRunnable(s6.threads) {
      if |s6.procs| > |s0.procs| {
        NewLife(s0, s2, s4, s5, s6, dead, warned, |s0.procs|);
        SleeperStirs(n, |s0.threads|, |s0.procs|);
      }
      forall i | 0 <= i < |o.threads| && o.threads[i].state != Exited ensures !Stirs(o, o.threads[i]) {
        if o.threads[i].pid in dead {
          HowDied(s0, s2, s4, s5, s6, dead, warned, i);
        } else {
          HowBecame(s0, s2, s4, s5, s6, dead, warned, i);
          BecameState(s0, s6, dead, warned, o.threads[i], n.threads[i]);
          if Stirs(o, o.threads[i]) {
            StirsOn(s0, s6, dead, warned, o.threads[i], n.threads[i]);
            if n.threads[i].state == Runnable { AnyIs(s6.threads, i); }
          }
        }
      }
    }
    if StillAll(o) && |s6.procs| == |s0.procs| {
      forall i | 0 <= i < |n.threads| && n.threads[i].state != Exited ensures !Stirs(n, n.threads[i]) {
        if o.threads[i].pid in dead {
          HowDied(s0, s2, s4, s5, s6, dead, warned, i);
        } else {
          HowBecame(s0, s2, s4, s5, s6, dead, warned, i);
          BecameState(s0, s6, dead, warned, o.threads[i], n.threads[i]);
          if Stirs(n, n.threads[i]) { StirredBefore(s0, s6, dead, warned, o.threads[i], n.threads[i]); }
        }
      }
    }
  }

  predicate StillAll(o: Outlook)
    requires InTable(o)
  {
    forall i {:trigger o.threads[i]} :: 0 <= i < |o.threads| && o.threads[i].state != Exited ==> !Stirs(o, o.threads[i])
  }

  lemma SleeperStirs(n: Outlook, i: nat, q: nat)
    requires InTable(n) && i < |n.threads| && q < |n.procs| && Asleep(n.threads[i], n.procs[q], q, n.now)
    ensures !StillAll(n)
  {
    AsleepStirs(n, n.threads[i], q);
    assert n.threads[i].state != Exited;
  }

  lemma BecameState(s0: Snap, s6: Snap, dead: set<nat>, warned: set<nat>, t: Thread, u: Thread)
    requires Became(s0, s6, dead, warned, t, u)
    ensures (t.state == Exited <==> u.state == Exited) && u.pid == t.pid && u.pid < |s0.procs|
  {
    hide WokenNow, RingsNow, AnyRunnable;
  }

  /** ... and survivors are the same. */
  lemma SameSurvivors(s0: Snap, s2: Snap, s4: Snap, s5: Snap, s6: Snap, dead: set<nat>, warned: set<nat>, i: nat)
    requires Across(s0, s2, s4, s5, s6, dead, warned) && i < |s0.threads|
    requires InTable(OutlookOf(s0)) && InTable(OutlookOf(s6))
    ensures i < |s6.threads| && Survives(OutlookOf(s6), s6.threads[i]) == Survives(OutlookOf(s0), s0.threads[i])
  {
    hide Across, AnyRunnable, Stirs, Became, DiesAt, SignalAt, Repeats, RingsNow;
    HowProcs(s0, s2, s4, s5, s6, dead, warned);
    if s0.threads[i].pid in dead {
      HowDied(s0, s2, s4, s5, s6, dead, warned, i);
    } else {
      HowBecame(s0, s2, s4, s5, s6, dead, warned, i);
      BecameState(s0, s6, dead, warned, s0.threads[i], s6.threads[i]);
      assert s0.procs[s0.threads[i].pid] == OutlookOf(s0).procs[s0.threads[i].pid];
    }
  }

  /** A thread that can run stirs, nothing being due. */
  lemma RunnableStirs(s: Snap)
    requires InTable(OutlookOf(s)) && NothingDue(s) && ThreadsOk(s.threads, s.procs) && AnyRunnable(s.threads)
    ensures !StillAll(OutlookOf(s))
  {
    hide L.Later;
    var i :| 0 <= i < |s.threads| && s.threads[i].state == Runnable;
    var p := s.procs[s.threads[i].pid];
    assert Lasts(p, s.clock, s.clock);
    assert Stirs(OutlookOf(s), OutlookOf(s).threads[i]);
  }

  /** Catching up changes nothing about how things end. */
  lemma AcrossDooms(s0: Snap, s2: Snap, s4: Snap, s5: Snap, s6: Snap, dead: set<nat>, warned: set<nat>)
    requires Across(s0, s2, s4, s5, s6, dead, warned) && NothingDue(s6)
    ensures InTable(OutlookOf(s0)) && InTable(OutlookOf(s6))
    ensures Doomed(OutlookOf(s0)) <==> Doomed(OutlookOf(s6))
  {
    AcrossStopped(s0, s2, s4, s5, s6, dead, warned);
    AcrossThreadsOk(s0, s2, s4, s5, s6, dead, warned);
    hide Across, AnyRunnable, Stirs, NothingDue, ProcsAcross, Survives, Repeats, Returns, DiesAt;
    var o, n := OutlookOf(s0), OutlookOf(s6);
    AcrossSizes(s0, s2, s4, s5, s6, dead, warned);
    AllStill(s0, s2, s4, s5, s6, dead, warned);
    if AnyRunnable(s6.threads) { RunnableStirs(s6); }
    if |s6.procs| == |s0.procs| {
      SameDoom(s0, s2, s4, s5, s6, dead, warned);
    } else {
      SomebodyReturns(s0, s2, s4, s5, s6, dead, warned);
    }
  }

  /** A stop that is due wakes whoever is left. */
  lemma StopDooms(s0: Snap, s1: Snap, s2: Snap, s4: Snap, s5: Snap, s6: Snap, dead: set<nat>, warned: set<nat>)
    requires Caught(s0, s1, s2, s4, s5, s6, dead, warned) && StopsNow(s0)
    requires InTable(OutlookOf(s6)) && NothingDue(s6) && ThreadsOk(s6.threads, s6.procs)
    ensures !Doomed(OutlookOf(s6))
  {
    hide NothingDue, Stirs, DiesAt, SignalAt, Returns, Repeats;
    if AnyRunnable(s6.threads) {
      RunnableStirs(s6);
    } else {
      forall i | 0 <= i < |s6.threads| ensures !Survives(OutlookOf(s6), s6.threads[i]) {
        StoppedOut(s0, s1, s2, s4, s5, s6, dead, warned, i);
      }
    }
  }

  lemma StoppedOut(s0: Snap, s1: Snap, s2: Snap, s4: Snap, s5: Snap, s6: Snap, dead: set<nat>, warned: set<nat>, i: nat)
    requires Caught(s0, s1, s2, s4, s5, s6, dead, warned) && StopsNow(s0) && i < |s6.threads|
    ensures s6.threads[i].state == Exited || s6.threads[i].state == Runnable
  {
    hide NI.Inv, L.OnTime, L.Later, NoneRunning, AllOf, StruckProc, Asleep, Chained, ProcsOk, AnyRunnable, StaleNet,
         Reached;
    StoppedThreads(s0, s1);
    CaughtSizes(s0, s1, s2, s4, s5, s6, dead, warned);
    StruckSizes(s2, s4, dead, warned);
    assert s4.threads[i] == StruckThread(s2.procs, s2.threads[i], dead, warned);
    assert RousedBy(s5.threads[i], s6.threads[i], s5.procs, s5.clock);
  }

  /** A stopped run has no new lives. */
  lemma StruckSizes(a: Snap, b: Snap, dead: set<nat>, warned: set<nat>)
    requires Struck(a, b, dead, warned) && a.stopped
    ensures |b.threads| == |a.threads| && |b.procs| == |a.procs|
  {
    hide StruckProc, StruckThread, Asleep, NewThreads;
  }

  lemma AcrossThreadsOk(s0: Snap, s2: Snap, s4: Snap, s5: Snap, s6: Snap, dead: set<nat>, warned: set<nat>)
    requires Across(s0, s2, s4, s5, s6, dead, warned)
    ensures ThreadsOk(s6.threads, s6.procs)
  {
    hide Struck, Timed, Moved, AllOf, ThreadsOk, NoneRunning;
  }

  lemma SomebodyReturns(s0: Snap, s2: Snap, s4: Snap, s5: Snap, s6: Snap, dead: set<nat>, warned: set<nat>)
    requires Across(s0, s2, s4, s5, s6, dead, warned) && |s6.procs| > |s0.procs| && InTable(OutlookOf(s0))
    ensures !Doomed(OutlookOf(s0))
  {
    hide Across, AnyRunnable, Stirs, Survives, Repeats, Returns, DiesAt, SignalAt, RingsNow;
    HowProcs(s0, s2, s4, s5, s6, dead, warned);
    AcrossSizes(s0, s2, s4, s5, s6, dead, warned);
    NobodyReturns(s0, s2, s4, s5, s6, dead, warned);
    var o := OutlookOf(s0);
    var q: nat :| q in dead && Returns(o, s0.procs[q]);
    assert q < |o.procs| && DiesAt(o.procs[q], o.now).Some?;
  }

  lemma SameDoom(s0: Snap, s2: Snap, s4: Snap, s5: Snap, s6: Snap, dead: set<nat>, warned: set<nat>)
    requires Across(s0, s2, s4, s5, s6, dead, warned) && |s6.procs| == |s0.procs|
    requires InTable(OutlookOf(s0)) && InTable(OutlookOf(s6)) && !OutlookOf(s0).stops && !OutlookOf(s6).stops
    ensures StillAll(OutlookOf(s0)) && StillAll(OutlookOf(s6)) ==> (Doomed(OutlookOf(s0)) <==> Doomed(OutlookOf(s6)))
  {
    hide Across, AnyRunnable, Stirs, Survives, Repeats, Returns, DiesAt, SignalAt, RingsNow, AlarmOf;
    var o, n := OutlookOf(s0), OutlookOf(s6);
    HowProcs(s0, s2, s4, s5, s6, dead, warned);
    AcrossSizes(s0, s2, s4, s5, s6, dead, warned);
    NobodyReturns(s0, s2, s4, s5, s6, dead, warned);
    forall i | 0 <= i < |o.threads| ensures Survives(n, n.threads[i]) == Survives(o, o.threads[i]) {
      SameSurvivors(s0, s2, s4, s5, s6, dead, warned, i);
    }
    forall q | 0 <= q < |o.procs|
      ensures Repeats(n.procs[q]) == Repeats(o.procs[q])
      ensures (DiesAt(o.procs[q], o.now).Some? ==> !Returns(o, o.procs[q]))
              <==> (DiesAt(n.procs[q], n.now).Some? ==> !Returns(n, n.procs[q]))
    {
      if q !in dead { StillToReturn(s0, s2, s4, s5, s6, dead, warned, q); }
    }
  }

  /** From where nobody is doomed, either somebody can run, or nobody is left,
      or something looms. */
  lemma LoomsUnlessDoomed(s: Snap)
    requires ThreadsOk(s.threads, s.procs) && NothingDue(s) && NoneRunning(s.threads) && !AnyRunnable(s.threads)
    requires AnyLeft(s.threads) && InTable(OutlookOf(s)) && !Doomed(OutlookOf(s)) && !NothingPending(s)
    ensures exists t :: Looms(s, t)
  {
    hide L.Later;
    if forall t :: !Looms(s, t) {
      OnlyTimers(s);
      var o := OutlookOf(s);
      forall i | 0 <= i < |o.threads| && o.threads[i].state != Exited ensures !Stirs(o, o.threads[i]) {
        SilentStill(s, i);
      }
    }
  }

  /** Nothing looms but rings nobody feels, and such a ring there is. */
  lemma OnlyTimers(s: Snap)
    requires (forall t :: !Looms(s, t)) && !NothingPending(s)
    ensures StopOf(s).None? && NetOf(s).None?
    ensures forall i {:trigger s.threads[i]} :: 0 <= i < |s.threads| ==> DeadlineOf(s.threads[i]).None?
    ensures forall p {:trigger s.procs[p]} :: 0 <= p < |s.procs| ==>
              && DiesAt(s.procs[p], s.clock).None? && SignalAt(s.procs[p], s.clock).None?
              && (HasThread(s.threads, p) ==> AlarmOf(s.procs[p]).None?)
    ensures exists q :: 0 <= q < |s.procs| && Repeats(s.procs[q])
  {
    if StopOf(s).Some? { assert Looms(s, s.stopAt); }
    if NetOf(s).Some? { assert Looms(s, s.net.nextDue); }
    forall i | 0 <= i < |s.threads| ensures DeadlineOf(s.threads[i]).None? {
      if DeadlineOf(s.threads[i]).Some? { assert Looms(s, DeadlineOf(s.threads[i]).value); }
    }
    forall p | 0 <= p < |s.procs|
      ensures Quits(s.procs[p]) && (AlarmOf(s.procs[p]).Some? ==> Repeats(s.procs[p]) && !HasThread(s.threads, p))
    {
      QuitsOr(s, p);
    }
    if forall q :: 0 <= q < |s.procs| ==> !Repeats(s.procs[q]) {
      forall i | 0 <= i < |s.procs|
        ensures CrashOf(s.procs[i]).None? && ShutdownOf(s.procs[i]).None? && AlarmOf(s.procs[i]).None?
      {
        assert Quits(s.procs[i]);
      }
      assert NothingPending(s);
    }
  }

  predicate Quits(p: Proc) { Dead(p) || (p.crashAt == 0 && p.shutdownAt == 0 && p.killAt == 0) }

  lemma QuitsOr(s: Snap, p: nat)
    requires p < |s.procs| && forall t :: !Looms(s, t)
    ensures Quits(s.procs[p]) && (AlarmOf(s.procs[p]).Some? ==> Repeats(s.procs[p]) && !HasThread(s.threads, p))
  {
    hide HasThread;
    var q := s.procs[p];
    if !Dead(q) && q.crashAt != 0 { LoomsIf(s, p, q.crashAt); }
    if !Dead(q) && q.shutdownAt != 0 { LoomsIf(s, p, q.shutdownAt); }
    if !Dead(q) && q.killAt != 0 { LoomsIf(s, p, q.killAt); }
    if AlarmOf(q).Some? && (q.alarmInterval == 0 || HasThread(s.threads, p)) {
      LoomsIf(s, p, q.alarmAt);
    }
  }

  lemma LoomsIf(s: Snap, p: nat, t: nat)
    requires p < |s.procs| && ProcLooms(s, p, t)
    ensures Looms(s, t)
  {
  }

  lemma SilentStill(s: Snap, i: nat)
    requires i < |s.threads| && s.threads[i].state != Exited && InTable(OutlookOf(s))
    requires NoneRunning(s.threads) && !AnyRunnable(s.threads)
    requires StopOf(s).None? && NetOf(s).None? && DeadlineOf(s.threads[i]).None?
    requires forall p {:trigger s.procs[p]} :: 0 <= p < |s.procs| ==>
               && DiesAt(s.procs[p], s.clock).None? && SignalAt(s.procs[p], s.clock).None?
               && (HasThread(s.threads, p) ==> AlarmOf(s.procs[p]).None?)
    ensures !Stirs(OutlookOf(s), s.threads[i])
  {
    hide DiesAt, SignalAt, AlarmOf;
    assert s.threads[i].state != Runnable && s.threads[i].state != Running;
    assert HasThread(s.threads, s.threads[i].pid);
  }

  /** Where all is doomed nobody can run, somebody is left, and there is always
      something to come. */
  lemma DoomedGoesOn(s: Snap)
    requires InTable(OutlookOf(s)) && Doomed(OutlookOf(s)) && NothingDue(s) && ThreadsOk(s.threads, s.procs)
    ensures AnyLeft(s.threads) && !AnyRunnable(s.threads) && !NothingPending(s)
  {
    hide L.Later, Stirs, DiesAt;
    if AnyRunnable(s.threads) { RunnableStirs(s); }
    var o := OutlookOf(s);
    var i :| 0 <= i < |o.threads| && Survives(o, o.threads[i]);
    assert s.threads[i].state != Exited;
    var q :| 0 <= q < |o.procs| && Repeats(o.procs[q]);
    assert AlarmOf(s.procs[q]).Some?;
  }
}

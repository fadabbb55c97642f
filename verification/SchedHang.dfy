/** A run of two processes that does not end (`shared.rs`), whatever its seed
    and settings, as long as it has no stop time. */
module SchedHang {
  import opened Wrappers
  import opened SchedTypes
  import opened SchedSpec
  import opened SchedTurn
  import opened SchedEnds
  import opened SchedPct
  import opened SchedChoice
  import opened SchedHands
  import opened Sched
  import NT = NetTypes
  import NI = NetInv

  /** The key of a lock that nobody gives back */
  const LOCK: nat := 7

  const MICROSECOND: nat := 1000

  /** An entry whose process is crashed once, so long after its start */
  function Crashing(at: nat): Faults { NO_FAULTS.(crashLo := at, crashHi := at, crashesLeft := 1) }

  /** Nothing is to happen to the first process. */
  predicate Plain(p: Proc) {
    !Dead(p) && p.crashAt == 0 && p.shutdownAt == 0 && p.killAt == 0 && p.alarmAt == 0 && p.faults == NO_FAULTS
  }

  /** The second is to be crashed; its timer, if it is set, rings later. */
  predicate Condemnable(p: Proc, rings: bool, at: nat) {
    && !Dead(p) && p.crashAt == at && p.shutdownAt == 0 && p.killAt == 0 && p.faults == Crashing(at)
    && (if rings then p.alarmAt > at && p.alarmInterval == MICROSECOND else p.alarmAt == 0)
  }

  /** A process each, no deadline, no traffic and no stop, before the crash */
  predicate Two(s: Snap, rings: bool, at: nat) {
    && |s.threads| == 2 && |s.procs| == 2 && s.threads[0].pid == 0 && s.threads[1].pid == 1
    && s.threads[0].deadline == 0 && s.threads[1].deadline == 0
    && Plain(s.procs[0]) && Condemnable(s.procs[1], rings, at)
    && s.clock < at && s.net.inFlight == 0 && s.stopAt == 0 && !s.stopped
  }

  lemma TwoRest(at: nat, s: Snap, rings: bool)
    requires Two(s, rings, at)
    ensures AtRest(s)
  {
  }

  /** While one can run, it will. */
  lemma TwoGoOn(at: nat, s: Snap, rings: bool, i: nat)
    requires Two(s, rings, at) && i < 2 && s.threads[i].state == Runnable
    ensures AnyRunnable(s.threads) && InTable(OutlookOf(s)) && !Doomed(OutlookOf(s))
  {
    var o := OutlookOf(s);
    assert Stirs(o, o.threads[i]);
  }

  /** When both wait for the lock, nobody ever will. */
  lemma TwoDoomed(at: nat, s: Snap)
    requires Two(s, true, at)
    requires forall i :: 0 <= i < 2 ==> s.threads[i].state == Blocked && s.threads[i].key == LOCK
    ensures InTable(OutlookOf(s)) && Doomed(OutlookOf(s))
  {
    var o := OutlookOf(s);
    assert Survives(o, o.threads[0]);
    assert Repeats(o.procs[1]);
    assert !Stirs(o, o.threads[0]) && !Stirs(o, o.threads[1]);
  }

  lemma TwoRun(at: nat, m: Snap, s: Snap, rings: bool, r: nat)
    requires Two(m, rings, at) && OnlyRuns(m.threads, s.threads, r) && s == Synced(m).(threads := s.threads)
    ensures Two(s, rings, at) && r < 2 && m.threads[r].state == Runnable
    ensures s.threads[r].state == Running && s.threads[1 - r].state == m.threads[1 - r].state
    ensures s.threads[1 - r].key == m.threads[1 - r].key
  {
    assert MarksOnly(if r == 0 then m.threads[0].(state := Running) else m.threads[0], s.threads[0]);
    assert MarksOnly(if r == 1 then m.threads[1].(state := Running) else m.threads[1], s.threads[1]);
  }

  /** The two have just been entered. */
  method Enter(s: State, at: nat)
    requires s.Valid() && s.threads == [] && s.procs == [] && s.clock == 0 && s.net.inFlight == 0
    requires s.cfg.stopAt == 0 && !s.stopped && at > 0
    modifies s
    ensures s.Valid() && Two(s.Now(), false, at) && NoneRunning(s.threads)
      && s.threads[0].state == s.threads[1].state == Runnable
    ensures s.clock == 0
  {
    hide Held, ConfigOk, Steady, Onward;
    var p := s.Register(0, NO_FAULTS, 0);
    var q := s.Register(0, Crashing(at), 1);
  }

  // ---- steps of the two ------------------------------------------------------------------

  lemma TwoTimed(at: nat, a: Snap, b: Snap, rings: bool)
    requires Two(a, rings, at)
    requires b
      == a.(procs := a.procs[1 := a.procs[1].(alarmAt := a.clock + at + MICROSECOND, alarmInterval := MICROSECOND)])
    ensures Two(b, true, at)
  {
  }

  lemma TwoWait(at: nat, a: Snap, b: Snap, rings: bool, me: nat)
    requires Two(a, rings, at) && me < 2
    requires b == a.(threads := a.threads[me := a.threads[me].(timedOut := false, deadline := 0)])
    ensures Two(b, rings, at) && b.threads[1 - me] == a.threads[1 - me]
  {
  }

  lemma TwoBack(at: nat, a: Snap, rings: bool, me: nat, switchNs: nat)
    requires Two(a, rings, at) && me < 2 && a.clock + switchNs < at
    ensures var m := SteppedBack(a, Some((me, Blocked, LOCK)), switchNs);
            && Two(m, rings, at) && m.threads[1 - me] == a.threads[1 - me]
            && m.threads[me].state == Blocked && m.threads[me].key == LOCK
  {
  }

  lemma TwoIn(at: nat, s: Snap, rings: bool)
    requires Two(s, rings, at)
    ensures |s.threads| == 2 && |s.procs| == 2 && s.threads[0].pid == 0 && s.threads[1].pid == 1
  {
  }

  lemma Goes(s: Snap, i: nat)
    requires HasBaton(s, i)
    ensures i < |s.threads| && s.threads[i].state == Running
  {
  }

  /** `i` waits for the lock. */
  predicate Waits(s: Snap, i: nat) { i < |s.threads| && s.threads[i].state == Blocked && s.threads[i].key == LOCK }

  predicate Ready(s: Snap, i: nat) { i < |s.threads| && s.threads[i].state == Runnable }

  ghost predicate Turn(s: State, rings: bool, at: nat)
    reads s
  {
    s.Valid() && s.current < 2 && Two(s.Now(), rings, at) && HasBaton(s.Now(), s.current)
  }

  /** The holder waits for the lock, and the other goes on. */
  method Pass(s: State, ghost rings: bool, ghost at: nat) returns (h: Handoff)
    requires Turn(s, rings, at) && Ready(s.Now(), 1 - s.current) && s.cfg.switchNs + s.clock < at
    modifies s
    ensures Turn(s, rings, at) && s.current == 1 - old(s.current) && Waits(s.Now(), old(s.current))
    ensures s.clock == old(s.clock) + s.cfg.switchNs
  {
    hide Held, ConfigOk, Steady, Onward, AtRest, OnlyRuns, Doomed, NothingDue, GoneStays, Two, HasBaton, Between;
    var me := s.current;
    ghost var a := s.Now();
    TwoIn(at, a, rings);
    s.SetDeadline(None);
    ghost var b := s.Now();
    TwoWait(at, a, b, rings, me);
    TwoBack(at, b, rings, me, s.cfg.switchNs);
    ghost var m := SteppedBack(b, Some((me, Blocked, LOCK)), s.cfg.switchNs);
    TwoRest(at, m, rings);
    TwoGoOn(at, m, rings, 1 - me);
    Goes(b, me);
    ghost var us;
    h, us := s.HandOff(Some((me, Blocked, LOCK)));
    TwoRun(at, m, s.Now(), rings, s.current);
  }

  /** The holder waits as well, and that is the end. */
  method Last(s: State, ghost at: nat) returns (h: Handoff)
    requires Turn(s, true, at) && Waits(s.Now(), 1 - s.current) && s.cfg.switchNs + s.clock < at
    modifies s
    ensures h.Hangs?
  {
    hide Held, ConfigOk, Steady, Onward, AtRest, OnlyRuns, Doomed, NothingDue, GoneStays, Two, HasBaton, Between;
    var me := s.current;
    ghost var a := s.Now();
    TwoIn(at, a, true);
    s.SetDeadline(None);
    ghost var b := s.Now();
    TwoWait(at, a, b, true, me);
    TwoBack(at, b, true, me, s.cfg.switchNs);
    ghost var m := SteppedBack(b, Some((me, Blocked, LOCK)), s.cfg.switchNs);
    TwoDoomed(at, m);
    Goes(b, me);
    ghost var us;
    h, us := s.HandOff(Some((me, Blocked, LOCK)));
  }

  /** The second process sets its timer. */
  method Ring(s: State, at: nat)
    requires Turn(s, false, at) && s.current == 1
    modifies s
    ensures Turn(s, true, at) && s.current == 1 && s.threads == old(s.threads) && s.clock == old(s.clock)
  {
    hide Held, ConfigOk, Onward, Two, HasBaton;
    ghost var a := s.Now();
    TwoIn(at, a, false);
    s.SetTimer(at + MICROSECOND, MICROSECOND);
    TwoTimed(at, a, s.Now(), false);
  }

  method Begin(hosts: seq<NT.Host>, latency: nat, seed: bv64, c: Config, at: nat) returns (s: State)
    requires NI.HostsOk(hosts) && hosts != [] && ConfigOk(c) && c.stopAt == 0 && at > 0
    ensures fresh(s) && s.cfg == c && Turn(s, false, at) && Ready(s.Now(), 1 - s.current) && s.clock == 0
  {
    hide Held, ConfigOk, Steady, Onward, AtRest, OnlyRuns, Doomed, NothingDue, GoneStays, Two, HasBaton, Between;
    hide Streams, PointDraws, LotFell;
    s := new State(hosts, latency, seed, c);
    s.SetScheduler();
    Enter(s, at);
    ghost var m := s.Now();
    TwoRest(at, m, false);
    TwoIn(at, m, false);
    TwoGoOn(at, m, false, 0);
    var h;
    ghost var us;
    h, us := s.HandOff(None);
    TwoRun(at, m, s.Now(), false, s.current);
  }

  /** Two processes are entered and run: each waits for a lock that only the
      other could give it, the second after it has set a timer that repeats.
      It makes no difference who goes first, what is drawn, and who has
      priority: the second is to be crashed at `at`, and the scheduler's loop
      does not end. */
  method CrashHangs(hosts: seq<NT.Host>, latency: nat, seed: bv64, c: Config, at: nat) returns (h: Handoff)
    requires NI.HostsOk(hosts) && hosts != [] && ConfigOk(c) && c.stopAt == 0
    requires at > 2 * c.switchNs
    ensures h.Hangs?
  {
    hide Two, HasBaton, Held, ConfigOk;
    var s := Begin(hosts, latency, seed, c, at);
    if s.current == 1 {
      Ring(s, at);
      h := Pass(s, true, at);
    } else {
      h := Pass(s, false, at);
      Ring(s, at);
    }
    h := Last(s, at);
  }
}

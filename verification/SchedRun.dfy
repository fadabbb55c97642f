/** Whole runs of the scheduler: guests and launcher do what they may, in any
    order and for as long as they like. */
module SchedRun {
  import opened Wrappers
  import opened SchedTypes
  import opened SchedSpec
  import opened SchedPct
  import opened SchedEnds
  import opened SchedChoice
  import opened SchedHands
  import opened Sched
  import NR = NetRun

  /** What the launcher, or the guest that has the baton, does to the schedule.
      `Until` and `Block` together are a wait with a deadline. */
  datatype Act =
    | Launch(host: nat, faults: Faults, spec: nat)
    | Attaches(pid: nat)
    | Died(pid: nat, status: int)
    | Start
    | Forks
    | NewThread
    | Timer(value: nat, interval: nat)
    | Network(op: NR.Op)
    | ReadClock
    | Kill(target: nat)
    | Signal(target: nat, sig: nat)
    | Wake(pid: nat, key: nat)
    | Enqueue(cond: nat)
    | Notify(pid: nat, cond: nat, all: bool)
    | Until(deadline: Option<nat>)
    | Yield
    | Block(key: nat)
    | Leave

  predicate HandsOff(a: Act) { a.Start? || a.Yield? || a.Block? || a.Leave? }

  /** How the holder steps back */
  function FromOf(a: Act, current: nat): Option<(nat, TState, nat)> {
    match a
    case Yield => Some((current, Runnable, 0))
    case Block(key) => Some((current, Blocked, key))
    case Leave => Some((current, Exited, 0))
    case _ => None
  }

  /** Somebody has the baton. */
  predicate Going(s: State)
    reads s
  {
    s.current < |s.threads| && s.threads[s.current].state == Running
  }

  /** The act is its doer's to make: guests act when they have the baton, and
      the tables have room for what is new. */
  predicate Ready(s: State, a: Act)
    reads s
  {
    var room := |s.procs| < MAX_PROCS && |s.threads| < MAX_THREADS;
    match a
    case Launch(_, faults, _) => room && FaultsOk(faults)
    case Attaches(pid) => pid < |s.procs| && !s.procs[pid].killed && s.procs[pid].state == Starting
    case Died(pid, _) => pid < |s.procs|
    case Start => NoneRunning(s.threads)
    case Forks => Going(s) && room
    case NewThread => Going(s) && |s.threads| < MAX_THREADS
    case Network(op) => Going(s) && NR.Enabled(s.net, op) && !op.OpAdvance?
    case Kill(target) => Going(s) && target < |s.procs| && !Dead(s.procs[target]) && s.threads[s.current].pid != target
    case Signal(target, _) => Going(s) && target < |s.procs|
    case Notify(_, cond, _) => Going(s) && cond != 0
    case _ => Going(s)
  }

  // ---- one act --------------------------------------------------------------------------

  /** Nobody has come back, and the ledger only grew. */
  ghost predicate Since(a: Snap, b: Snap) { GoneStays(a.threads, b.threads) && Onward(a, b) }

  /** The act's hand-off never returns: what lies ahead is doomed. */
  ghost predicate HangsAt(s: Snap, current: nat, a: Act, switchNs: nat) {
    if a.Died? then exists b: Snap :: DiesIdle(s, b, current, a, switchNs)
    else
      var o := OutlookFrom(s, FromOf(a, current), switchNs);
      HandsOff(a) && InTable(o) && Doomed(o)
  }

  ghost predicate DiesIdle(s: Snap, b: Snap, current: nat, a: Act, switchNs: nat)
    requires a.Died?
  {
    var o := OutlookFrom(b, Some((current, Exited, 0)), switchNs);
    Buried(s, b, a.pid, a.status) && InTable(o) && Doomed(o)
  }

  /** The choice, if PCT alone made one, and what it left */
  ghost predicate TurnOf(ts: seq<Thread>, us: seq<Thread>, u: Turn, bound: nat) {
    Between(ts, u.threads) && GoodTurn(u, bound) && Between(Left(u), us)
  }

  /** What an act comes to, as far as PCT's marks go. Where PCT alone decides,
      the baton changes hands by its choice only. */
  ghost predicate Chose(a: Snap, was: nat, b: Snap, at: nat, turn: Option<Turn>, rules: bool, bound: nat) {
    match turn
    case Some(u) => rules && TurnOf(a.threads, b.threads, u, bound) && u.chosen == at && u.now == b.clock
      && HasBaton(b, at)
    case None => rules ==> at == was && Between(a.threads, b.threads)
  }

  lemma GoingHas(s: Snap, current: nat, k: Ranks)
    requires Held(s, current, k) && current < |s.threads| && s.threads[current].state == Running
    ensures HasBaton(s, current)
  {
  }

  lemma SteadySince(a: Snap, b: Snap, current: nat, rules: bool, bound: nat)
    requires Steady(a.threads, b.threads) && Onward(a, b)
    ensures Since(a, b) && Chose(a, current, b, current, None, rules, bound)
  {
    hide GoneStays, Between, Onward;
  }

  /** Acts that leave the baton where it is */
  method Work(s: State, a: Act)
    requires s.Valid() && Ready(s, a) && !HandsOff(a) && !a.Died?
    modifies s
    ensures s.Valid() && Steady(old(s.threads), s.threads) && Onward(old(s.Now()), s.Now())
      && s.current == old(s.current)
  {
    hide Held, ConfigOk, Steady, Onward, NR.Enabled, NR.Step, HasBaton, Death;
    SteadyRefl(s.threads);
    if Going(s) { GoingHas(s.Now(), s.current, s.Marks()); }
    match a
    case Launch(host, faults, spec) => var _ := s.Register(host, faults, spec);
    case Attaches(pid) => s.Attach(pid);
    case Forks => var _ := s.Fork();
    case NewThread => var _ := s.SpawnThread();
    case Timer(value, interval) => s.SetTimer(value, interval);
    case Network(op) => var _ := s.NetCall(op);
    case ReadClock => var _ := s.ClockRead();
    case Kill(target) => s.Kill(target);
    case Signal(target, sig) => s.Signal(target, sig);
    case Wake(pid, key) => s.WakeAll(pid, key);
    case Enqueue(cond) => s.CondEnqueue(s.current, cond);
    case Notify(pid, cond, all) => s.CondWake(pid, cond, all);
    case Until(deadline) => s.SetDeadline(deadline);
  }

  method PassOn(s: State, a: Act) returns (hung: bool, ghost turn: Option<Turn>)
    requires s.Valid() && Ready(s, a) && HandsOff(a)
    modifies s
    ensures hung <==> HangsAt(old(s.Now()), old(s.current), a, s.cfg.switchNs)
    ensures !hung ==> s.Valid() && Since(old(s.Now()), s.Now())
                      && Chose(old(s.Now()), old(s.current), s.Now(), s.current, turn, s.PctRules(), s.cfg.pctStarve)
  {
    hide Held, ConfigOk, GoneStays, Onward, Between, GoodTurn, Doomed, InTable, HasBaton;
    var h;
    ghost var us;
    h, us := s.HandOff(FromOf(a, s.current));
    hung := h.Hangs?;
    turn := if h.Idle? || hung || !s.PctRules() then None else Some(Turn(us, s.clock, s.current));
  }

  method Bury(s: State, a: Act) returns (hung: bool, ghost turn: Option<Turn>)
    requires s.Valid() && Ready(s, a) && a.Died?
    modifies s
    ensures hung ==> HangsAt(old(s.Now()), old(s.current), a, s.cfg.switchNs)
    ensures !hung ==> s.Valid() && Since(old(s.Now()), s.Now())
                      && Chose(old(s.Now()), old(s.current), s.Now(), s.current, turn, s.PctRules(), s.cfg.pctStarve)
  {
    hide Held, ConfigOk, GoneStays, Onward, Between, GoodTurn, Doomed, InTable, HasBaton, Buried;
    ghost var was, current := s.Now(), s.current;
    var h;
    ghost var us, b;
    h, us, b := s.ProcessDied(a.pid, a.status);
    hung := h == Some(Hangs);
    if hung { assert DiesIdle(was, b, current, a, s.cfg.switchNs); }
    turn := if h.None? || h.value.Idle? || hung || !s.PctRules() then None else Some(Turn(us, s.clock, s.current));
  }

  /** Any act. It hangs only where what lies ahead is doomed. */
  method Do(s: State, a: Act) returns (hung: bool, ghost turn: Option<Turn>)
    requires s.Valid() && Ready(s, a)
    modifies s
    ensures hung ==> HangsAt(old(s.Now()), old(s.current), a, s.cfg.switchNs)
    ensures HandsOff(a) && HangsAt(old(s.Now()), old(s.current), a, s.cfg.switchNs) ==> hung
    ensures !hung ==> s.Valid() && Since(old(s.Now()), s.Now())
                      && Chose(old(s.Now()), old(s.current), s.Now(), s.current, turn, s.PctRules(), s.cfg.pctStarve)
  {
    hide Held, ConfigOk, Since, Chose, HangsAt, Ready;
    if HandsOff(a) {
      hung, turn := PassOn(s, a);
    } else if a.Died? {
      hung, turn := Bury(s, a);
    } else {
      ghost var was := s.Now();
      Work(s, a);
      SteadySince(was, s.Now(), s.current, s.PctRules(), s.cfg.pctStarve);
      return false, None;
    }
  }

  // ---- runs -----------------------------------------------------------------------------------

  /** The run between two acts, and the choice of PCT that led here, if one
      did */
  datatype Moment = Moment(snap: Snap, current: nat, ranks: Ranks, turn: Option<Turn>)

  ghost predicate Sound(m: Moment) { Held(m.snap, m.current, m.ranks) }

  /** Every moment of a run is sound, and every later one comes after it. */
  ghost predicate Safe(seen: seq<Moment>) {
    && seen != [] && (forall k :: 0 <= k < |seen| ==> Sound(seen[k]))
    && (forall j, k :: 0 <= j <= k < |seen| ==> Since(seen[j].snap, seen[k].snap))
  }

  /** PCT alone decides, at the time of `m`. */
  ghost predicate Rules(c: Config, m: Moment) { c.pct && m.snap.clock < Horizon(c) && c.pauseNum == 0 }

  ghost predicate Follows(c: Config, m: Moment, n: Moment) {
    Chose(m.snap, m.current, n.snap, n.current, n.turn, Rules(c, n), c.pctStarve)
  }

  /** The choices PCT made in the course of it */
  ghost function TurnsOf(seen: seq<Moment>): seq<Turn> {
    if seen == [] then []
    else
      var m := seen[|seen| - 1];
      TurnsOf(seen[..|seen| - 1]) + (if m.turn.Some? then [m.turn.value] else [])
  }

  lemma SinceRefl(s: Snap)
    ensures Since(s, s)
  {
  }

  lemma SinceTrans(a: Snap, b: Snap, c: Snap)
    requires Since(a, b) && Since(b, c)
    ensures Since(a, c)
  {
    hide GoneStays, Onward;
    GoneStaysTrans(a.threads, b.threads, c.threads);
    OnwardTrans(a, b, c);
  }

  lemma OneMoreMoment(seen: seq<Moment>, m: Moment)
    requires Safe(seen) && Sound(m) && Since(seen[|seen| - 1].snap, m.snap)
    ensures Safe(seen + [m])
  {
    hide Sound, Since;
    var all := seen + [m];
    forall j, k | 0 <= j <= k < |all| ensures Since(all[j].snap, all[k].snap) {
      if j == |seen| {
        SinceRefl(m.snap);
      } else if k == |seen| {
        SinceTrans(seen[j].snap, seen[|seen| - 1].snap, m.snap);
      }
    }
  }

  lemma SafeAt(seen: seq<Moment>, k: nat)
    requires Safe(seen) && k < |seen|
    ensures Sound(seen[k])
  {
    hide Sound, Since;
  }

  /** PCT's choices so far are a run of its turns, and while it decides the
      marks are as the last of them left them. */
  ghost predicate Tracked(c: Config, seen: seq<Moment>)
    requires seen != []
  {
    && PctRun(seen[0].snap.threads, TurnsOf(seen), c.pctStarve)
    && (Rules(c, seen[|seen| - 1]) ==>
          Between(MarksAfter(seen[0].snap.threads, TurnsOf(seen)), seen[|seen| - 1].snap.threads))
  }

  lemma OneMoreMark(c: Config, seen: seq<Moment>, m: Moment)
    requires seen != [] && Tracked(c, seen) && Follows(c, seen[|seen| - 1], m)
    requires m.snap.clock >= seen[|seen| - 1].snap.clock
    ensures Tracked(c, seen + [m])
  {
    hide Between, GoodTurn;
    var all, ts, turns := seen + [m], seen[0].snap.threads, TurnsOf(seen);
    assert all[..|all| - 1] == seen;
    var last := seen[|seen| - 1].snap.threads;
    if m.turn.Some? {
      var u := m.turn.value;
      BetweenTrans(MarksAfter(ts, turns), last, u.threads);
      OneMoreTurn(ts, turns, u, c.pctStarve);
      assert MarksAfter(ts, turns + [u]) == Left(u);
    } else {
      assert TurnsOf(all) == turns;
      if Rules(c, m) { BetweenTrans(MarksAfter(ts, turns), last, m.snap.threads); }
    }
  }

  ghost function Here(s: State, turn: Option<Turn>): Moment
    reads s
  {
    Moment(s.Now(), s.current, s.Marks(), turn)
  }

  /** Any acts, in any order; those that are nobody's to make are passed over.
      The run goes on through all of them unless one hangs. */
  method Run(s: State, acts: seq<Act>) returns (hung: bool, ghost seen: seq<Moment>)
    requires s.Valid()
    modifies s
    ensures Safe(seen) && seen[0] == old(Here(s, None)) && |seen| <= |acts| + 1
    ensures !hung ==> |seen| == |acts| + 1 && s.Valid() && seen[|acts|].snap == s.Now()
    ensures hung ==> |seen| <= |acts|
                     && HangsAt(seen[|seen| - 1].snap, seen[|seen| - 1].current, acts[|seen| - 1], s.cfg.switchNs)
    ensures forall k {:trigger seen[k]} :: 0 < k < |seen| ==> Follows(s.cfg, seen[k - 1], seen[k])
    ensures PctRun(seen[0].snap.threads, TurnsOf(seen), s.cfg.pctStarve)
  {
    hide Held, ConfigOk, Since, Chose, HangsAt, Ready, Safe, PctRun, Between, Sound;
    seen := [Here(s, None)];
    Beginning(s.cfg, seen[0]);
    hung := false;
    var i := 0;
    while i < |acts|
      invariant i <= |acts| && |seen| == i + 1 && seen[0] == old(Here(s, None))
      invariant s.Valid() && Safe(seen) && Tracked(s.cfg, seen)
      invariant seen[i].(turn := None) == Here(s, None)
      invariant forall k {:trigger seen[k]} :: 0 < k <= i ==> Follows(s.cfg, seen[k - 1], seen[k])
    {
      if Ready(s, acts[i]) {
        ghost var t;
        hung, t := Do(s, acts[i]);
        if hung { return; }
        NextMoment(s.cfg, seen, Here(s, t));
        seen := seen + [Here(s, t)];
      } else {
        SafeAt(seen, i);
        SameMoment(s.cfg, seen[i], Here(s, None));
        NextMoment(s.cfg, seen, Here(s, None));
        seen := seen + [Here(s, None)];
      }
      i := i + 1;
    }
  }

  lemma Beginning(c: Config, m: Moment)
    requires Held(m.snap, m.current, m.ranks) && m.turn.None?
    ensures Safe([m]) && Tracked(c, [m])
  {
    hide Held, Since;
    SinceRefl(m.snap);
    assert [m][..0] == [];
    assert TurnsOf([m]) == TurnsOf([m][..0]) + [];
  }

  lemma SameMoment(c: Config, m: Moment, n: Moment)
    requires n == m.(turn := None) && Sound(m)
    ensures Sound(n) && Since(m.snap, n.snap) && Follows(c, m, n)
  {
    SinceRefl(m.snap);
    hide Held, Since;
  }

  lemma NextMoment(c: Config, seen: seq<Moment>, m: Moment)
    requires Safe(seen) && Tracked(c, seen)
    requires Held(m.snap, m.current, m.ranks) && Since(seen[|seen| - 1].snap, m.snap) && Follows(c, seen[|seen| - 1], m)
    ensures Safe(seen + [m]) && Tracked(c, seen + [m])
  {
    hide Held, Follows, Tracked;
    OneMoreMoment(seen, m);
    OneMoreMark(c, seen, m);
  }

  // ---- what holds throughout every run -----------------------------------------------------------

  /** One thread runs at a time, and no process that is dead runs at all. */
  lemma OneBaton(seen: seq<Moment>, k: nat, i: nat, j: nat)
    requires Safe(seen) && k < |seen|
    requires i < |seen[k].snap.threads| && seen[k].snap.threads[i].state == Running
    requires j < |seen[k].snap.threads| && seen[k].snap.threads[j].state == Running
    ensures i == j == seen[k].current
    ensures seen[k].snap.threads[i].pid < |seen[k].snap.procs| && !Dead(seen[k].snap.procs[seen[k].snap.threads[i].pid])
  {
    assert Sound(seen[k]);
  }

  /** A dead process stays dead, whatever happens: none of its threads, old or
      new, is in the schedule; nothing more is injected into it; and once
      another life has taken its place that stays so. */
  lemma DeadForGood(seen: seq<Moment>, j: nat, k: nat, pid: nat)
    requires Safe(seen) && j <= k < |seen| && pid < |seen[j].snap.procs| && Dead(seen[j].snap.procs[pid])
    ensures pid < |seen[k].snap.procs| && Dead(seen[k].snap.procs[pid])
    ensures forall i {:trigger seen[k].snap.threads[i]} ::
              0 <= i < |seen[k].snap.threads| && seen[k].snap.threads[i].pid == pid ==>
                seen[k].snap.threads[i].state == Exited
    ensures seen[k].snap.procs[pid].faults == seen[j].snap.procs[pid].faults
    ensures CrashOf(seen[k].snap.procs[pid]).None? && ShutdownOf(seen[k].snap.procs[pid]).None?
    ensures seen[j].snap.procs[pid].replacedBy.Some? ==>
              seen[k].snap.procs[pid].replacedBy == seen[j].snap.procs[pid].replacedBy
  {
    assert Since(seen[j].snap, seen[k].snap) && Sound(seen[k]);
  }

  /** After the stop nobody has another life. */
  lemma NoLifeAfterTheStop(seen: seq<Moment>, j: nat, k: nat, pid: nat)
    requires Safe(seen) && j <= k < |seen| && pid < |seen[j].snap.procs| && seen[j].snap.stopped
    ensures pid < |seen[k].snap.procs| && seen[k].snap.procs[pid].replacedBy == seen[j].snap.procs[pid].replacedBy
  {
    hide Held;
    assert Since(seen[j].snap, seen[k].snap);
  }

  /** The lives of an entry, told at any moment, are the first lives told at any
      later one; all but the last are dead then, and the later ledger of
      restarts, crashes and shutdowns balances. */
  lemma LedgerThroughout(seen: seq<Moment>, j: nat, k: nat, p: nat, n: nat)
    requires Safe(seen) && j <= k < |seen| && p < |seen[j].snap.procs|
      && Chained(seen[j].snap.procs, seen[j].snap.bills)
    requires LifeAfter(seen[j].snap.procs, seen[j].snap.bills, p, n).Some?
    ensures var ps, bills := seen[k].snap.procs, seen[k].snap.bills;
            && Chained(ps, bills) && p < |ps|
            && LifeAfter(ps, bills, p, n) == LifeAfter(seen[j].snap.procs, seen[j].snap.bills, p, n)
            && var q, made := LifeAfter(ps, bills, p, n).value, Made(ps, bills, p, n);
               && q < |ps| && (n > 0 ==> Dead(ps[p]))
               && Paid(ps[q].faults.restartsLeft, seen[j].snap.procs[p].faults.restartsLeft, n)
               && Paid(ps[q].faults.crashesLeft, bills[p].crashGrant, made.0)
               && Paid(ps[q].faults.shutdownsLeft, bills[p].shutGrant, made.1)
  {
    assert Since(seen[j].snap, seen[k].snap);
    assert Chained(seen[k].snap.procs, seen[k].snap.bills) by { assert Sound(seen[k]); }
    hide Chained, Sound, Held, Since, Paid;
    LivesStay(seen[j].snap, seen[k].snap, p, n);
    Ledger(seen[k].snap.procs, seen[k].snap.bills, p, n);
  }

  lemma {:induction false} LivesStay(a: Snap, b: Snap, p: nat, n: nat)
    requires Chained(a.procs, a.bills) && Chained(b.procs, b.bills) && Since(a, b) && p < |a.procs|
    requires LifeAfter(a.procs, a.bills, p, n).Some?
    ensures p < |b.procs| && LifeAfter(b.procs, b.bills, p, n) == LifeAfter(a.procs, a.bills, p, n)
    ensures b.procs[p].faults.restartsLeft == a.procs[p].faults.restartsLeft
    decreases n
  {
    assert ProcOnward(a.procs[p], b.procs[p]);
    if n > 0 { LivesStay(a, b, a.procs[p].replacedBy.value, n - 1); }
  }

  /** Where PCT alone decides, a thread that can run and has been passed over
      for the bound has the baton within as many choices as there are threads
      ahead of it, and one. */
  lemma NobodyStarves(c: Config, seen: seq<Moment>, k: nat, t: nat)
    requires seen != [] && c.pctStarve > 0 && PctRun(seen[0].snap.threads, TurnsOf(seen), c.pctStarve)
    requires k <= |TurnsOf(seen)|
    requires var ts := MarksAfter(seen[0].snap.threads, TurnsOf(seen)[..k]);
             && t < |ts| && ts[t].waitingSince != 0
             && StaysReady(TurnsOf(seen)[k..], t, ts[t].waitingSince, c.pctStarve)
             && |TurnsOf(seen)[k..]| > Ahead(ts, t)
    ensures var ts := MarksAfter(seen[0].snap.threads, TurnsOf(seen)[..k]);
            exists j :: k <= j <= k + Ahead(ts, t) && TurnsOf(seen)[j].chosen == t
  {
    hide StaysReady, Ahead, PctRun;
    var turns := TurnsOf(seen);
    var ts := MarksAfter(seen[0].snap.threads, turns[..k]);
    LaterTurns(seen[0].snap.threads, turns, k, c.pctStarve);
    StarvationBound(ts, turns[k..], t, c.pctStarve);
    var i :| 0 <= i <= Ahead(ts, t) && turns[k..][i].chosen == t;
    assert turns[k + i].chosen == t;
  }
}

/** The scheduler's rules in its own terms (`shared.rs`): who may run, what is
    due and when, what each event does to a thread and to a process, and which
    streams the draws come from. */
module SchedRules {
  import opened Wrappers
  import opened SchedTypes
  import opened SchedSpec
  import opened SchedFaults
  import opened SchedPct
  import opened SchedTurn
  import opened SchedEnds
  import R = Rng
  import S = Sched
  import NR = NetRun

  // ---- what is due --------------------------------------------------------------

  /** A wait is over at its deadline, if it has one. */
  lemma DeadlineRule(t: Thread, now: nat)
    ensures DeadlineOf(t) == Some(now) <==> t.state == Blocked && t.deadline == now && now != 0
    ensures DeadlineOf(t) == None <==> t.state != Blocked || t.deadline == 0
  {
  }

  /** A process can be crashed, or told to shut down, or killed once its grace
      period is over, while it is neither gone nor killed; its timer rings until
      it is gone. */
  lemma DueRule(p: Proc, now: nat)
    ensures CrashOf(p) == (if p.crashAt == 0 || p.state == Gone || p.killed then None else Some(p.crashAt))
    ensures ShutdownOf(p)
            == if p.state == Gone || p.killed || (p.shutdownAt == 0 && p.killAt == 0) then None
               else if p.killAt == 0 || (p.shutdownAt != 0 && p.shutdownAt <= p.killAt) then Some(p.shutdownAt)
               else Some(p.killAt)
    ensures AlarmOf(p) == (if p.alarmAt == 0 || p.state == Gone then None else Some(p.alarmAt))
    ensures DiesNow(p, now) <==> p.state != Gone && !p.killed
                                 && ((p.crashAt != 0 && p.crashAt <= now) || (p.killAt != 0 && p.killAt <= now))
    ensures WarnsNow(p, now) <==> p.state != Gone && !p.killed && p.shutdownAt != 0 && p.shutdownAt <= now
                                  && (p.crashAt == 0 || p.crashAt > now) && (p.killAt == 0 || p.killAt > now)
    ensures RingsNow(p, now) <==> p.state != Gone && p.alarmAt != 0 && p.alarmAt <= now
  {
  }

  /** The run's stop, once, and the next arrival */
  lemma ComesRule(s: Snap)
    ensures StopOf(s) == (if s.stopAt == 0 || s.stopped then None else Some(s.stopAt))
    ensures NetOf(s) == (if s.net.inFlight == 0 then None else Some(s.net.nextDue))
    ensures StopsNow(s) <==> s.stopAt != 0 && !s.stopped && s.stopAt <= s.clock
    ensures Arrives(s) <==> s.net.inFlight != 0 && s.net.nextDue <= s.clock
  {
  }

  // ---- what happens to threads -----------------------------------------------------

  predicate Ready(t: Thread, u: Thread) { u == t.(state := Runnable) }

  /** A wait that is over ends as timed out; any other thread is left alone. */
  lemma ExpireRule(t: Thread, now: nat)
    ensures var u := Expire(now)(t);
            if t.state == Blocked && t.deadline != 0 && t.deadline <= now
            then u.state == Runnable && u.timedOut && u.deadline == 0
                 && u == t.(state := u.state, timedOut := u.timedOut, deadline := u.deadline)
            else u == t
  {
  }

  /** Who looks again: after traffic, those who wait for a descriptor; after a
      wake, those of the process that wait for that key; after a signal, all of
      the process but the main thread of a life still down. */
  lemma WakeRules(t: Thread, pid: nat, key: nat)
    ensures if t.state == Blocked && t.key == 0x7FFF_FFFF_0001 then Ready(t, WakeIo()(t)) else WakeIo()(t) == t
    ensures if t.state == Blocked && t.pid == pid && t.key == key then Ready(t, WakeKey(pid, key)(t))
            else WakeKey(pid, key)(t) == t
    ensures if t.state == Blocked && t.pid == pid && t.key != 0x7FFF_FFFF_0003 then Ready(t, WakeForSignal(pid)(t))
            else WakeForSignal(pid)(t) == t
  {
  }

  /** A process's end takes its threads off the schedule, off their condition
      variables and out of their waits. */
  predicate Out(t: Thread, u: Thread) {
    u.state == Exited && u.condKey == 0 && u.deadline == 0
    && u == t.(state := u.state, condKey := u.condKey, deadline := u.deadline)
  }

  lemma EndRules(t: Thread, pid: nat, parent: Option<nat>)
    ensures if t.pid == pid then Out(t, Retire(pid)(t)) else Retire(pid)(t) == t
    ensures if t.pid == pid then Out(t, Mourn(t, pid, parent))
            else if t.state == Blocked
                    && (t.key == 0x7FFF_FFFF_0001 || (t.key == 0x7FFF_FFFF_0000 && parent == Some(t.pid)))
            then Ready(t, Mourn(t, pid, parent))
            else Mourn(t, pid, parent) == t
  {
  }

  /** A shutdown's signal reaches its process, and those who wait for a
      descriptor; the run's stop reaches all threads of the processes it stops. */
  lemma ToldRules(t: Thread, pid: nat, ps: seq<Proc>)
    ensures if t.state == Blocked && (t.key == 0x7FFF_FFFF_0001 || (t.pid == pid && t.key != 0x7FFF_FFFF_0003))
            then Ready(t, Alerted(t, pid)) else Alerted(t, pid) == t
    ensures if t.state != Exited && t.pid < |ps| && ps[t.pid].stopped then Ready(t, StopThread(t, ps))
            else StopThread(t, ps) == t
  {
  }

  // ---- what happens to processes ------------------------------------------------------

  /** A crash: the process is dead from now on, nothing is to come for it, and
      the kernel has to be told if it had started. */
  lemma CrashedRule(p: Proc, now: nat)
    ensures var q := Crashed(p, now);
            && q.killed && q.diedAt == now && q.crashAt == 0 && q.shutdownAt == 0 && q.killAt == 0
            && q.unsettled == (p.unsettled || p.state == Attached)
            && q == p.(killed := true, diedAt := q.diedAt, crashAt := 0, shutdownAt := 0, killAt := 0,
                       unsettled := q.unsettled)
  {
  }

  /** An end the launcher sees: it has the status, and the time unless it had
      died before; and what was to come for it is off, unless it was killed,
      when that has been done. */
  lemma CeasedRule(p: Proc, status: int, now: nat)
    ensures var q := Ceased(p, status, now);
            && q.state == Gone && q.exitStatus == status
            && q.diedAt == (if p.diedAt != 0 then p.diedAt else if now == 0 then 1 else now)
            && q == p.(state := Gone, exitStatus := status, diedAt := q.diedAt, crashAt := q.crashAt,
                       shutdownAt := q.shutdownAt, killAt := q.killAt)
            && (p.killed ==> q.crashAt == p.crashAt && q.shutdownAt == p.shutdownAt && q.killAt == p.killAt)
            && (!p.killed ==> q.crashAt == 0 && q.shutdownAt == 0 && q.killAt == 0)
  {
  }

  /** The parent counts its dead children and remembers the last. */
  lemma BereavedRule(p: Proc, i: nat, victim: nat, parent: Option<nat>)
    ensures var q := Bereaved(p, i, victim, parent);
            && (parent == Some(i) ==> q.childDeaths == p.childDeaths + 1 && q.lastDeadChild == victim
                                      && q == p.(childDeaths := q.childDeaths, lastDeadChild := q.lastDeadChild))
            && (parent != Some(i) ==> q == p)
  {
  }

  /** A shutdown: one less is left, unless there is no limit; the kill follows
      when the grace period is over, a nanosecond at least. */
  lemma GraceRule(p: Proc, now: nat)
    requires p.faults.shutdownsLeft > 0
    ensures var q := S.InGrace(p, now);
            && q.shutdownAt == 0 && q.shutDown
            && q.killAt == now + (if p.faults.grace == 0 then 1 else p.faults.grace)
            && q.faults.shutdownsLeft
               == (if p.faults.shutdownsLeft == 0xFFFF_FFFF then 0xFFFF_FFFF else p.faults.shutdownsLeft - 1)
            && q == p.(shutdownAt := 0, shutDown := true, killAt := q.killAt,
                       faults := p.faults.(shutdownsLeft := q.faults.shutdownsLeft))
  {
  }

  /** A timer that rings sends SIGALRM, and is set again if it repeats. */
  lemma RungRule(p: Proc, now: nat)
    ensures var q := Rung(p, now);
            if p.state != Gone && p.alarmAt != 0 && p.alarmAt <= now then
              && q.alarmAt == (if p.alarmInterval == 0 then 0 else now + p.alarmInterval)
              && q.sigPending == p.sigPending + {14} && q == p.(alarmAt := q.alarmAt, sigPending := q.sigPending)
            else q == p
  {
  }

  lemma StoppingRule(p: Proc)
    ensures Stopping(p) == if p.state != Gone && !p.killed then p.(stopped := true) else p
  {
  }

  /** A life is followed by another if its entry says so: always, or after a
      failure, which a shutdown is and a kill, with restarts left, while the run
      is not stopped. */
  lemma RestartRule(p: Proc, status: int, stopped: bool)
    ensures RestartDue(p, status, stopped)
            <==> && !stopped && p.spec.Some? && p.faults.restartsLeft != 0
                 && (p.faults.restart == Always || (p.faults.restart == OnFailure && (status != 0 || p.shutDown)))
    ensures KILLED_STATUS == 9
  {
  }

  /** There is room for 1024 processes and 16384 threads in a run. */
  lemma RoomForLives(s: Snap)
    ensures HasRoom(s) <==> |s.procs| < 1024 && |s.threads| < 16384
  {
  }

  /** A new process is starting, with nothing to come; a new thread can run. */
  lemma NewRules(host: nat, parent: Option<nat>, pid: nat, priority: nat)
    ensures NewProc(host, parent)
            == Proc(Starting, host, parent, 0, 0, 0, {}, 0, false, 0, 0, false,
                    Faults(Never, 0, 0, 0, 0, 0, 0, 0, 0, 0, 0, 0), 0, 0, 0, false, None, false, None)
    ensures NewThread(pid, priority) == Thread(Runnable, pid, 0, 0, 0, false, false, 0, 0, priority, 0)
  {
  }

  /** Whom a timer wakes: the first thread of its process that is blocked */
  lemma CalledRule(ts: seq<Thread>, ps: seq<Proc>, now: nat, j: nat)
    requires j < |ts| && ts[j].pid < |ps|
    ensures S.FirstCalled(ts, ps, now, j) <==>
              && ts[j].state == Blocked
              && (var p := ps[ts[j].pid]; p.state != Gone && p.alarmAt != 0 && p.alarmAt <= now)
              && forall i {:trigger ts[i]} :: 0 <= i < j ==> ts[i].pid != ts[j].pid || ts[i].state != Blocked
  {
  }

  // ---- PCT --------------------------------------------------------------------------------

  /** Who may be chosen: a runnable thread, unpaused where pauses count; and who
      is starved: one passed over for the bound or longer. */
  lemma ReadyRules(t: Thread, honour: bool, now: nat, bound: nat)
    ensures Eligible(t, honour, now) <==> t.state == Runnable && (!honour || t.pausedUntil <= now)
    ensures t.waitingSince <= now ==>
              (Starved(t, honour, now, bound) <==>
                 t.state == Runnable && (!honour || t.pausedUntil <= now) && t.waitingSince != 0
                 && now - t.waitingSince >= bound)
  {
  }

  predicate CanGo(t: Thread, honour: bool, now: nat) { t.state == Runnable && (!honour || t.pausedUntil <= now) }

  /** PCT's choice: of the starved the longest passed over, else of all that can
      run the highest priority; of equals the first. */
  lemma ChoiceRule(ts: seq<Thread>, honour: bool, now: nat, bound: nat, c: nat)
    requires forall j {:trigger ts[j]} :: 0 <= j < |ts| ==> ts[j].waitingSince <= now
    ensures IsChoice(ts, honour, now, bound, c) ==> c < |ts| && CanGo(ts[c], honour, now)
    ensures IsChoice(ts, honour, now, bound, c) && ts[c].waitingSince != 0 && now - ts[c].waitingSince >= bound ==>
              forall j {:trigger ts[j]} :: 0 <= j < |ts| && CanGo(ts[j], honour, now) && ts[j].waitingSince != 0 ==>
                ts[c].waitingSince < ts[j].waitingSince || (ts[c].waitingSince == ts[j].waitingSince && c <= j)
                || now - ts[j].waitingSince < bound
    ensures IsChoice(ts, honour, now, bound, c) && (ts[c].waitingSince == 0 || now - ts[c].waitingSince < bound) ==>
              forall j {:trigger ts[j]} :: 0 <= j < |ts| && CanGo(ts[j], honour, now) ==>
                && (ts[j].waitingSince == 0 || now - ts[j].waitingSince < bound)
                && (ts[j].priority < ts[c].priority || (ts[j].priority == ts[c].priority && c <= j))
  {
    if IsChoice(ts, honour, now, bound, c) && !AnyStarved(ts, honour, now, bound) {
      forall j {:trigger ts[j]} | 0 <= j < |ts| && CanGo(ts[j], honour, now)
        ensures ts[j].waitingSince == 0 || now - ts[j].waitingSince < bound
      {
        assert !Starved(ts[j], honour, now, bound);
      }
    }
  }

  /** Who is passed over counts from now on, unless it did before. */
  lemma MarkedRule(ts: seq<Thread>, c: nat, now: nat, i: nat)
    requires i < |ts|
    ensures |Marked(ts, c, now)| == |ts|
    ensures var u := Marked(ts, c, now)[i];
            && u == ts[i].(waitingSince := u.waitingSince)
            && u.waitingSince == if i == c then 0
                                 else if ts[i].state == Runnable && ts[i].waitingSince == 0
                                   then (if now == 0 then 1 else now)
                                 else ts[i].waitingSince
  {
  }

  /** One change point less than the depth, which is from 1 to 16, below a
      horizon of a nanosecond at least */
  lemma PointsRule(points: seq<nat>, c: S.Config)
    requires S.PointsOk(points, c.pctDepth, S.Horizon(c))
    ensures |points| + 1 == (if c.pctDepth == 0 then 1 else if c.pctDepth > 16 then 16 else c.pctDepth)
    ensures forall i :: 0 <= i < |points| ==> points[i] < if c.pctHorizon == 0 then 1 else c.pctHorizon
    ensures forall i, j :: 0 <= i <= j < |points| ==> points[i] <= points[j]
  {
  }

  // ---- the baton -----------------------------------------------------------------------------

  /** The holder is as it says when it steps back, and a switch costs time. */
  lemma StepBackRule(s: Snap, id: nat, state: TState, key: nat, switchNs: nat)
    requires id < |s.threads|
    ensures S.SteppedBack(s, Some((id, state, key)), switchNs)
            == s.(threads := s.threads[id := s.threads[id].(state := state, key := key)], clock := s.clock + switchNs)
    ensures S.SteppedBack(s, None, switchNs) == s
    ensures S.OutlookFrom(s, Some((id, state, key)), switchNs)
            == OutlookOf(s).(threads := s.threads[id := s.threads[id].(state := state, key := key)],
                             now := s.clock + switchNs)
  {
  }

  /** What may have changed what somebody waits for: any call that succeeds, but
      for new sockets and references; and a close. */
  lemma WakesRule(op: NR.Op, reply: NR.Reply)
    ensures S.Wakes(op, reply) <==>
              !op.OpSocket? && !op.OpAddRef? && !op.OpSetRefs? && (op.OpDropRef? || !reply.Failed?)
  {
  }

  /** A seed stands for four streams, told apart by what it is mixed with. */
  lemma StreamsRule(seed: bv64)
    ensures var (choices, faults, pauses, pct) := S.Streams(seed);
            && choices == R.FromSeed(seed) && faults == R.FromSeed(seed ^ 0xFA17_FA17_FA17_FA17)
            && pauses == R.FromSeed(seed ^ 0x9A05_E9A0_5E9A_05E9) && pct == R.FromSeed(seed ^ 0x0C70_0C70_0C70_0C70)
  {
    hide R.FromSeed;
  }
}

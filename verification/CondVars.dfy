/** Condition variables of scheduled threads: the queue a signal takes from
    (`shared.rs`), the waits (`interpose.rs`), and that no wake is lost. */
module CondVars {
  import opened Wrappers
  import opened SchedTypes

  predicate Queued(t: Thread, pid: nat, c: nat) { t.pid == pid && t.condKey == c && t.state != Exited }

  /** The longest-waiting queued thread: least sequence number, then index */
  predicate IsFirst(ts: seq<Thread>, pid: nat, c: nat, i: nat) {
    && i < |ts| && Queued(ts[i], pid, c)
    && forall j {:trigger ts[j]} :: 0 <= j < |ts| && Queued(ts[j], pid, c) ==>
         ts[i].condSeq < ts[j].condSeq || (ts[i].condSeq == ts[j].condSeq && i <= j)
  }

  predicate NoneQueued(ts: seq<Thread>, pid: nat, c: nat) {
    forall j {:trigger ts[j]} :: 0 <= j < |ts| ==> !Queued(ts[j], pid, c)
  }

  method FindFirst(ts: seq<Thread>, pid: nat, c: nat) returns (r: Option<nat>)
    ensures r.Some? ==> IsFirst(ts, pid, c, r.value)
    ensures r.None? ==> NoneQueued(ts, pid, c)
  {
    r := None;
    for i := 0 to |ts|
      invariant r.None? ==> forall j {:trigger ts[j]} :: 0 <= j < i ==> !Queued(ts[j], pid, c)
      invariant r.Some? ==> r.value < i && Queued(ts[r.value], pid, c)
      invariant r.Some? ==> forall j {:trigger ts[j]} :: 0 <= j < i && Queued(ts[j], pid, c) ==>
                  ts[r.value].condSeq < ts[j].condSeq || (ts[r.value].condSeq == ts[j].condSeq && r.value <= j)
    {
      if Queued(ts[i], pid, c) && (r.None? || ts[i].condSeq < ts[r.value].condSeq) {
        r := Some(i);
      }
    }
  }

  /** A waiter is taken off the queue and told. */
  function Signaled(t: Thread): Thread {
    t.(condKey := 0, signaled := true, state := if t.state == Blocked then Runnable else t.state)
  }

  function InQueue(pid: nat, c: nat): Thread -> bool { (t: Thread) => Queued(t, pid, c) }

  /** What a signal leaves, and a broadcast */
  ghost predicate Woken(ts: seq<Thread>, us: seq<Thread>, pid: nat, c: nat, all: bool) {
    if all then us == Each(ts, (t: Thread) => if Queued(t, pid, c) then Signaled(t) else t)
    else if NoneQueued(ts, pid, c) then us == ts
    else exists i: nat :: IsFirst(ts, pid, c, i) && us == ts[i := Signaled(ts[i])]
  }

  /** Wakes the head of the queue of `pid` on `c`, or drains the queue: a
      broadcast ends with nobody queued. */
  method Wake(ts: seq<Thread>, pid: nat, c: nat, all: bool) returns (us: seq<Thread>)
    requires c != 0
    ensures Woken(ts, us, pid, c, all) && (all ==> NoneQueued(us, pid, c))
  {
    us := ts;
    while true
      invariant |us| == |ts| && (!all ==> us == ts)
      invariant forall j {:trigger us[j]} :: 0 <= j < |ts| ==>
        us[j] == ts[j] || (Queued(ts[j], pid, c) && us[j] == Signaled(ts[j]))
      decreases Count(us, InQueue(pid, c))
    {
      var first := FindFirst(us, pid, c);
      if first.None? { return; }
      var i := first.value;
      CountShrinks(us, us[i := Signaled(us[i])], InQueue(pid, c), i);
      us := us[i := Signaled(us[i])];
      if !all { return; }
    }
  }

  /** The threads a signal, or a broadcast, is for: those of the process that
      queue on the condition and are alive; of a signal, the one that joined
      first. */
  predicate Chosen(ts: seq<Thread>, pid: nat, c: nat, all: bool, i: nat)
    requires i < |ts|
  {
    && ts[i].pid == pid && ts[i].condKey == c && ts[i].state != Exited
    && (all || forall j {:trigger ts[j]} ::
                 (0 <= j < |ts| && j != i && ts[j].pid == pid && ts[j].condKey == c && ts[j].state != Exited) ==>
                   (ts[i].condSeq < ts[j].condSeq || (ts[i].condSeq == ts[j].condSeq && i < j)))
  }

  /** Each of them is off the queue, told, and can run if it was blocked; it
      keeps its process, what it waits for and until when. Nobody else changes. */
  lemma WakeRule(ts: seq<Thread>, us: seq<Thread>, pid: nat, c: nat, all: bool, i: nat)
    requires Woken(ts, us, pid, c, all) && i < |ts|
    ensures |us| == |ts|
    ensures !Chosen(ts, pid, c, all, i) ==> us[i] == ts[i]
    ensures Chosen(ts, pid, c, all, i) ==>
              var t, u := ts[i], us[i];
              && u.state == (if t.state == Blocked then Runnable else t.state) && u.signaled && u.condKey == 0
              && u.pid == t.pid && u.key == t.key && u.deadline == t.deadline && u.timedOut == t.timedOut
              && u == t.(state := u.state, signaled := true, condKey := 0)
  {
    if !all && !NoneQueued(ts, pid, c) {
      var f: nat :| IsFirst(ts, pid, c, f) && us == ts[f := Signaled(ts[f])];
      assert Queued(ts[f], pid, c);
    }
  }

  /** Whoever joins is last in the queue, and not told yet. */
  lemma JoinRule(t: Thread, c: nat, n: nat)
    ensures var u := Join(t, c, n);
            u.condKey == c && u.condSeq == n && !u.signaled
            && u == t.(condKey := u.condKey, condSeq := u.condSeq, signaled := u.signaled)
  {
  }

  // ---- waits, signals and timeouts, interleaved --------------------------------------

  /** Where a thread is: in no wait, or between joining a queue and returning */
  datatype Phase = Outside | Waiting(c: nat)

  /** The threads, where each is, and the wakes given and what became of them:
      taken by a wait that returned signalled, or lost with a thread that died */
  datatype World = World(threads: seq<Thread>, phase: seq<Phase>, nextSeq: nat, given: nat, taken: nat, lost: nat)

  datatype Op =
    | Enqueue(t: nat, c: nat)
    | Poll(t: nat)
    | Signal(pid: nat, c: nat, first: nat)
    | Broadcast(pid: nat, c: nat)
    | Expires(t: nat)
    | Nudge(t: nat)
    | GiveUp(t: nat)
    | Die(pid: nat)

  /** A wake on its way to the waiter it chose */
  function Credited(): Thread -> bool { (t: Thread) => t.signaled && t.state != Exited }

  function Selected(w: World, pid: nat, c: nat): nat { Count(w.threads, InQueue(pid, c)) }

  function OfPid(pid: nat): Thread -> bool { (t: Thread) => t.pid == pid && t.signaled && t.state != Exited }

  /** The joining thread is queued before it lets go of its mutex. */
  function Join(t: Thread, c: nat, n: nat): Thread { t.(signaled := false, condKey := c, condSeq := n) }

  /** Whether the step can be taken: a thread waits in one place at a time, it
      acts only while it can run, and gives up only after its deadline. */
  predicate Can(w: World, op: Op) {
    && |w.phase| == |w.threads|
    && match op
       case Enqueue(t, c) => t < |w.threads| && c != 0 && w.phase[t].Outside? && w.threads[t].state != Exited
         && w.threads[t].state != Blocked
       case Poll(t) =>
         t < |w.threads| && w.phase[t].Waiting? && (w.threads[t].state == Runnable || w.threads[t].state == Running)
           && !w.threads[t].timedOut
       case Signal(pid, c, first) => c != 0 && (NoneQueued(w.threads, pid, c) || IsFirst(w.threads, pid, c, first))
       case Broadcast(pid, c) => c != 0
       case Expires(t) => t < |w.threads| && w.phase[t].Waiting? && w.threads[t].state == Blocked
       case Nudge(t) => t < |w.threads| && w.threads[t].state == Blocked
       case GiveUp(t) =>
         t < |w.threads| && w.phase[t].Waiting? && (w.threads[t].state == Runnable || w.threads[t].state == Running)
           && w.threads[t].timedOut
       case Die(pid) => true
  }

  /** A wait that returns true was signalled. */
  function Returns(w: World, op: Op): Option<bool>
    requires Can(w, op)
  {
    match op
    case Poll(t) => if w.threads[t].signaled then Some(true) else None
    case GiveUp(t) => Some(w.threads[t].signaled)
    case _ => None
  }

  function Step(w: World, op: Op): World
    requires Can(w, op)
  {
    match op
    case Enqueue(t, c) =>
      w.(threads := w.threads[t := Join(w.threads[t], c, w.nextSeq)], phase := w.phase[t := Waiting(c)],
        nextSeq := w.nextSeq + 1)
    case Poll(t) =>
      if w.threads[t].signaled then
        w.(threads := w.threads[t := w.threads[t].(signaled := false)], phase := w.phase[t := Outside],
          taken := w.taken + 1)
      else w.(threads := w.threads[t := w.threads[t].(state := Blocked)])
    case Signal(pid, c, first) =>
      if NoneQueued(w.threads, pid, c) then w
      else w.(threads := w.threads[first := Signaled(w.threads[first])], given := w.given + 1)
    case Broadcast(pid, c) =>
      w.(threads := Each(w.threads, (t: Thread) => if Queued(t, pid, c) then Signaled(t) else t),
        given := w.given + Selected(w, pid, c))
    case Expires(t) => w.(threads := w.threads[t := w.threads[t].(state := Runnable, timedOut := true, deadline := 0)])
    case Nudge(t) => w.(threads := w.threads[t := w.threads[t].(state := Runnable)])
    case GiveUp(t) =>
      w.(threads := w.threads[t := w.threads[t].(condKey := 0, signaled := false, timedOut := false)],
        phase := w.phase[t := Outside],
         taken := w.taken + if w.threads[t].signaled then 1 else 0)
    case Die(pid) =>
      w.(threads := Each(w.threads, Retire(pid)), lost := w.lost + Count(w.threads, OfPid(pid)))
  }

  /** A live thread is told only in a wait, and is queued in it until it is
      told, when it can run; and every wake given is accounted for. */
  ghost predicate Inv(w: World) {
    && |w.phase| == |w.threads|
    && (forall t {:trigger w.threads[t]} :: 0 <= t < |w.threads| ==> ThreadOk(w.threads[t], w.phase[t], w.nextSeq))
    && (forall t, u {:trigger w.threads[t], w.threads[u]} ::
          0 <= t < u < |w.threads| && w.threads[t].condKey != 0 && w.threads[u].condKey != 0 ==>
            w.threads[t].condSeq != w.threads[u].condSeq)
    && w.given == w.taken + Count(w.threads, Credited()) + w.lost
  }

  predicate ThreadOk(t: Thread, p: Phase, next: nat) {
    && (t.condKey != 0 ==> t.condSeq < next && t.state != Exited)
    && (t.state != Exited ==>
          match p
          case Outside => !t.signaled && t.condKey == 0
          case Waiting(c) => c != 0 && (if t.signaled then t.condKey == 0 else t.condKey == c))
    && (t.signaled && t.state != Exited ==> t.state == Runnable || t.state == Running)
  }

  lemma {:induction false} CountOne(s: seq<Thread>, i: nat, v: Thread, p: Thread -> bool)
    requires i < |s|
    ensures Count(s[i := v], p) + (if p(s[i]) then 1 else 0) == Count(s, p) + (if p(v) then 1 else 0)
  {
    if i == 0 {
      assert s[0 := v][1..] == s[1..];
    } else {
      assert s[i := v][1..] == s[1..][i - 1 := v];
      CountOne(s[1..], i - 1, v, p);
    }
  }

  /** Two properties of which every element has at most one count apart. */
  lemma {:induction false} CountSum(s: seq<Thread>, t: seq<Thread>, p: Thread -> bool, q: Thread -> bool,
    r: Thread -> bool)
    requires |s| == |t|
    requires forall i :: 0 <= i < |s| ==>
               (if p(s[i]) then 1 else 0) == (if q(s[i]) then 1 else 0) + (if r(t[i]) then 1 else 0)
    ensures Count(s, p) == Count(s, q) + Count(t, r)
    decreases |s|
  {
    if s != [] {
      forall i | 0 <= i < |s[1..]|
        ensures (if p(s[1..][i]) then 1 else 0) == (if q(s[1..][i]) then 1 else 0) + (if r(t[1..][i]) then 1 else 0)
      {
        assert s[1..][i] == s[i + 1] && t[1..][i] == t[i + 1];
      }
      CountSum(s[1..], t[1..], p, q, r);
    }
  }

  lemma OneThread(w: World, op: Op, t: nat)
    requires Inv(w) && Can(w, op) && t < |w.threads|
    requires op == Poll(t) || op == Expires(t) || op == Nudge(t) || op == GiveUp(t) || op.Enqueue?
    requires op.Enqueue? ==> op.t == t
    ensures Inv(Step(w, op))
  {
    var v := Step(w, op);
    CountOne(w.threads, t, v.threads[t], Credited());
    assert ThreadOk(w.threads[t], w.phase[t], w.nextSeq);
  }

  lemma SignalOk(w: World, op: Op)
    requires Inv(w) && Can(w, op) && op.Signal?
    ensures Inv(Step(w, op))
  {
    if !NoneQueued(w.threads, op.pid, op.c) {
      var v, i := Step(w, op), op.first;
      CountOne(w.threads, i, v.threads[i], Credited());
      assert ThreadOk(w.threads[i], w.phase[i], w.nextSeq);
    }
  }

  lemma BroadcastOk(w: World, op: Op)
    requires Inv(w) && Can(w, op) && op.Broadcast?
    ensures Inv(Step(w, op))
  {
    var v := Step(w, op);
    forall i | 0 <= i < |w.threads|
      ensures ThreadOk(v.threads[i], v.phase[i], v.nextSeq)
    {
      assert ThreadOk(w.threads[i], w.phase[i], w.nextSeq);
    }
    forall i | 0 <= i < |w.threads|
      ensures (if Credited()(v.threads[i]) then 1 else 0)
              == (if Credited()(w.threads[i]) then 1 else 0) + (if InQueue(op.pid, op.c)(w.threads[i]) then 1 else 0)
    {
      assert ThreadOk(w.threads[i], w.phase[i], w.nextSeq);
    }
    CountSplitSum(v.threads, w.threads, op.pid, op.c);
  }

  lemma {:induction false} CountSplitSum(v: seq<Thread>, w: seq<Thread>, pid: nat, c: nat)
    requires |v| == |w|
    requires forall i :: 0 <= i < |w| ==>
               (if Credited()(v[i]) then 1 else 0)
                 == (if Credited()(w[i]) then 1 else 0) + (if InQueue(pid, c)(w[i]) then 1 else 0)
    ensures Count(v, Credited()) == Count(w, Credited()) + Count(w, InQueue(pid, c))
    decreases |v|
  {
    if v != [] {
      forall i | 0 <= i < |w[1..]|
        ensures (if Credited()(v[1..][i]) then 1 else 0)
                == (if Credited()(w[1..][i]) then 1 else 0) + (if InQueue(pid, c)(w[1..][i]) then 1 else 0)
      {
        assert v[1..][i] == v[i + 1] && w[1..][i] == w[i + 1];
      }
      CountSplitSum(v[1..], w[1..], pid, c);
    }
  }

  lemma DieOk(w: World, op: Op)
    requires Inv(w) && Can(w, op) && op.Die?
    ensures Inv(Step(w, op))
  {
    var v := Step(w, op);
    forall i | 0 <= i < |w.threads|
      ensures ThreadOk(v.threads[i], v.phase[i], v.nextSeq)
    {
      assert ThreadOk(w.threads[i], w.phase[i], w.nextSeq);
    }
    CountSum(w.threads, v.threads, Credited(), OfPid(op.pid), Credited());
  }

  /** Every step keeps the account: a wake is given to one waiter and ends in
      one wait returning signalled, deadline or not, queued or blocked, unless
      its thread dies first. */
  lemma StepOk(w: World, op: Op)
    requires Inv(w) && Can(w, op)
    ensures Inv(Step(w, op))
    ensures Step(w, op).taken == w.taken + (if Returns(w, op) == Some(true) then 1 else 0)
  {
    match op
    case Signal(_, _, _) => SignalOk(w, op);
    case Broadcast(_, _) => BroadcastOk(w, op);
    case Die(_) => DieOk(w, op);
    case Enqueue(t, _) => OneThread(w, op, t);
    case Poll(t) => OneThread(w, op, t);
    case Expires(t) => OneThread(w, op, t);
    case Nudge(t) => OneThread(w, op, t);
    case GiveUp(t) => OneThread(w, op, t);
  }

  ghost predicate Runs(w: World, ops: seq<Op>)
    decreases |ops|
  {
    ops == [] || (Can(w, ops[0]) && Runs(Step(w, ops[0]), ops[1..]))
  }

  ghost function After(w: World, ops: seq<Op>): World
    requires Runs(w, ops)
    decreases |ops|
  {
    if ops == [] then w else After(Step(w, ops[0]), ops[1..])
  }

  /** Waits that returned signalled in the run */
  ghost function SignalledReturns(w: World, ops: seq<Op>): nat
    requires Runs(w, ops)
    decreases |ops|
  {
    if ops == [] then 0
    else (if Returns(w, ops[0]) == Some(true) then 1 else 0) + SignalledReturns(Step(w, ops[0]), ops[1..])
  }

  /** Over every interleaving: wakes that found a waiter are as many as waits
      that returned signalled, wakes still on their way to a live waiter, and
      those whose waiter died. */
  lemma {:induction false} EveryWakeIsTakenOnce(w: World, ops: seq<Op>)
    requires Inv(w) && Runs(w, ops)
    ensures var v := After(w, ops);
            && Inv(v) && v.taken == w.taken + SignalledReturns(w, ops)
            && v.given - w.given == SignalledReturns(w, ops) + (v.lost - w.lost)
                                    + Count(v.threads, Credited()) - Count(w.threads, Credited())
    decreases |ops|
  {
    if ops != [] {
      StepOk(w, ops[0]);
      EveryWakeIsTakenOnce(Step(w, ops[0]), ops[1..]);
    }
  }

  // ---- one thread's wakes -----------------------------------------------------------

  function Owed(w: World, t: nat): nat
    requires t < |w.threads|
  {
    if Credited()(w.threads[t]) then 1 else 0
  }

  /** The step tells `t`, which waits for it and has not been told before. */
  predicate Tells(w: World, op: Op, t: nat)
    requires Can(w, op) && t < |w.threads|
  {
    && (op.Signal? || op.Broadcast?) && Queued(w.threads[t], op.pid, op.c) && !w.threads[t].signaled
    && (op.Signal? ==> t == op.first && !NoneQueued(w.threads, op.pid, op.c))
  }

  /** A wait of `t` returns signalled. */
  predicate Takes(w: World, op: Op, t: nat)
    requires Can(w, op) && t < |w.threads|
  {
    (op.Poll? || op.GiveUp?) && op.t == t && Returns(w, op) == Some(true)
  }

  /** `t` dies before it could. */
  predicate Misses(w: World, op: Op, t: nat)
    requires Can(w, op) && t < |w.threads|
  {
    op.Die? && OfPid(op.pid)(w.threads[t])
  }

  lemma ThreadAccount(w: World, op: Op, t: nat)
    requires Inv(w) && Can(w, op) && t < |w.threads|
    ensures |Step(w, op).threads| == |w.threads|
    ensures Owed(w, t) + (if Tells(w, op, t) then 1 else 0)
            == Owed(Step(w, op), t) + (if Takes(w, op, t) || Misses(w, op, t) then 1 else 0)
    ensures !(Takes(w, op, t) && Misses(w, op, t))
  {
    assert ThreadOk(w.threads[t], w.phase[t], w.nextSeq);
  }

  /** How often `t` was told, in the run, returned signalled, and died told */
  ghost function Account(w: World, ops: seq<Op>, t: nat): (nat, nat, nat)
    requires Inv(w) && Runs(w, ops) && t < |w.threads|
    decreases |ops|
  {
    if ops == [] then (0, 0, 0)
    else
      StepOk(w, ops[0]);
      ThreadAccount(w, ops[0], t);
      var (told, took, missed) := Account(Step(w, ops[0]), ops[1..], t);
      (told + (if Tells(w, ops[0], t) then 1 else 0), took + (if Takes(w, ops[0], t) then 1 else 0),
       missed + (if Misses(w, ops[0], t) then 1 else 0))
  }

  /** Thread by thread, over every interleaving: whoever is told returns
      signalled once for it, or is still to, or died; so it is told again only
      after that. */
  lemma {:induction false} ToldOnceTakenOnce(w: World, ops: seq<Op>, t: nat)
    requires Inv(w) && Runs(w, ops) && t < |w.threads|
    ensures |After(w, ops).threads| == |w.threads|
    ensures var (told, took, missed) := Account(w, ops, t);
            Owed(w, t) + told == took + missed + Owed(After(w, ops), t)
    decreases |ops|
  {
    hide Inv, Step, Can, Tells, Takes, Misses;
    if ops != [] {
      StepOk(w, ops[0]);
      ThreadAccount(w, ops[0], t);
      ToldOnceTakenOnce(Step(w, ops[0]), ops[1..], t);
    }
  }

  /** A live thread that has been told can run, and what it does next in its
      wait, at whatever deadline, returns signalled. */
  lemma ToldCanTake(w: World, t: nat)
    requires Inv(w) && t < |w.threads| && w.threads[t].signaled && w.threads[t].state != Exited
    ensures w.threads[t].state == Runnable || w.threads[t].state == Running
    ensures Can(w, Poll(t)) || Can(w, GiveUp(t))
    ensures Can(w, Poll(t)) ==> Returns(w, Poll(t)) == Some(true)
    ensures Can(w, GiveUp(t)) ==> Returns(w, GiveUp(t)) == Some(true)
  {
    assert ThreadOk(w.threads[t], w.phase[t], w.nextSeq);
  }

  /** Whatever the others do, it stays so. */
  lemma {:induction false} ToldUntilTaken(w: World, ops: seq<Op>, t: nat)
    requires Inv(w) && Runs(w, ops) && t < |w.threads| && w.threads[t].signaled && w.threads[t].state != Exited
    requires forall i {:trigger ops[i]} :: 0 <= i < |ops| ==>
               ops[i] != Poll(t) && ops[i] != GiveUp(t) && ops[i] != Die(w.threads[t].pid)
    ensures var v := After(w, ops);
            Inv(v) && t < |v.threads| && v.threads[t].signaled && v.threads[t].pid == w.threads[t].pid
            && (v.threads[t].state == Runnable || v.threads[t].state == Running)
    decreases |ops|
  {
    assert ThreadOk(w.threads[t], w.phase[t], w.nextSeq);
    if ops != [] {
      StepOk(w, ops[0]);
      ToldStays(w, ops[0], t);
      hide Inv, Step, Can;
      ToldUntilTaken(Step(w, ops[0]), ops[1..], t);
    }
  }

  lemma ToldStays(w: World, op: Op, t: nat)
    requires Inv(w) && Can(w, op) && t < |w.threads| && w.threads[t].signaled && w.threads[t].state != Exited
    requires op != Poll(t) && op != GiveUp(t) && op != Die(w.threads[t].pid)
    ensures var v := Step(w, op);
            |v.threads| == |w.threads| && v.threads[t] == w.threads[t]
  {
    assert ThreadOk(w.threads[t], w.phase[t], w.nextSeq);
  }

  /** First come, first served: a signal goes to the live waiter that joined the
      queue before every other. */
  lemma SignalTakesTheEarliest(w: World, pid: nat, c: nat, first: nat, other: nat)
    requires Inv(w) && Can(w, Signal(pid, c, first)) && other < |w.threads| && Queued(w.threads[other], pid, c)
    ensures first < |w.threads| && Step(w, Signal(pid, c, first)).threads[first].signaled
    ensures other != first ==> w.threads[first].condSeq < w.threads[other].condSeq
    ensures other != first ==> Step(w, Signal(pid, c, first)).threads[other] == w.threads[other]
  {
    assert ThreadOk(w.threads[other], w.phase[other], w.nextSeq)
      && ThreadOk(w.threads[first], w.phase[first], w.nextSeq);
  }
}

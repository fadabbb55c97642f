/** The records of the baton scheduler (`shared.rs`): threads, processes, and
    what can happen to them next. */
module SchedTypes {
  import opened Wrappers

  const MAX_THREADS: nat := 16384
  const MAX_PROCS: nat := 1024
  const WAIT_KEY: nat := 0x7FFF_FFFF_0000
  const IO_KEY: nat := 0x7FFF_FFFF_0001
  const RESTART_KEY: nat := 0x7FFF_FFFF_0003
  const NO_LIMIT: nat := 0xFFFF_FFFF
  const MAX_PCT_DEPTH: nat := 16
  const SIGALRM: nat := 14
  const KILLED_STATUS: int := 9


  datatype TState = Runnable | Running | Blocked | Exited
  datatype PState = Starting | Attached | Gone
  datatype Policy = Never | OnFailure | Always

  datatype Thread = Thread(
    state: TState, pid: nat, key: nat, condKey: nat, condSeq: nat, signaled: bool, timedOut: bool,
    deadline: nat, pausedUntil: nat, priority: nat, waitingSince: nat)

  datatype Faults = Faults(
    restart: Policy, delayLo: nat, delayHi: nat, restartsLeft: nat,
    crashLo: nat, crashHi: nat, crashesLeft: nat,
    shutdownLo: nat, shutdownHi: nat, shutdownsLeft: nat, signal: nat, grace: nat)

  datatype Proc = Proc(
    state: PState, host: nat, parent: Option<nat>, exitStatus: int,
    alarmAt: nat, alarmInterval: nat, sigPending: set<nat>,
    diedAt: nat, killed: bool, childDeaths: nat, lastDeadChild: nat, unsettled: bool,
    faults: Faults, crashAt: nat, shutdownAt: nat, killAt: nat, shutDown: bool,
    replacedBy: Option<nat>, stopped: bool, spec: Option<nat>)

  const NO_FAULTS := Faults(Never, 0, 0, 0, 0, 0, 0, 0, 0, 0, 0, 0)

  function NewProc(host: nat, parent: Option<nat>): Proc {
    Proc(Starting, host, parent, 0, 0, 0, {}, 0, false, 0, 0, false, NO_FAULTS, 0, 0, 0, false, None, false, None)
  }

  function NewThread(pid: nat, priority: nat): Thread {
    Thread(Runnable, pid, 0, 0, 0, false, false, 0, 0, priority, 0)
  }

  predicate Dead(p: Proc) { p.state == Gone || p.killed }

  /** What a run file's entry may say: no range of times starts at zero. */
  predicate FaultsOk(f: Faults) {
    && f.delayLo <= f.delayHi && f.crashLo <= f.crashHi && f.shutdownLo <= f.shutdownHi
    && (f.crashHi != 0 ==> f.crashLo > 0) && (f.shutdownHi != 0 ==> f.shutdownLo > 0)
    && f.restartsLeft <= NO_LIMIT && f.crashesLeft <= NO_LIMIT && f.shutdownsLeft <= NO_LIMIT
  }

  function Max(a: nat, b: nat): nat { if a >= b then a else b }

  // ---- when something is due ---------------------------------------------------

  function DeadlineOf(t: Thread): Option<nat> {
    if t.state == Blocked && t.deadline != 0 then Some(t.deadline) else None
  }

  function CrashOf(p: Proc): Option<nat> { if p.crashAt != 0 && !Dead(p) then Some(p.crashAt) else None }

  function Sooner(a: Option<nat>, b: Option<nat>): (r: Option<nat>)
    ensures r.None? <==> a.None? && b.None?
    ensures r.Some? ==> r == a || r == b
    ensures a.Some? ==> r.value <= a.value
    ensures b.Some? ==> r.value <= b.value
  {
    if a.None? then b else if b.None? then a else if a.value <= b.value then a else b
  }

  function TimeOf(t: nat): Option<nat> { if t == 0 then None else Some(t) }

  /** When its shutdown next takes a step: the signal, or the kill behind it */
  function ShutdownOf(p: Proc): Option<nat> {
    if Dead(p) then None else Sooner(TimeOf(p.shutdownAt), TimeOf(p.killAt))
  }

  function AlarmOf(p: Proc): Option<nat> { if p.state != Gone && p.alarmAt != 0 then Some(p.alarmAt) else None }

  /** `r` is the least of the times `f` gives, if it gives any. */
  ghost predicate Least<T>(s: seq<T>, f: T -> Option<nat>, r: Option<nat>) {
    && (forall i :: 0 <= i < |s| && f(s[i]).Some? ==> r.Some? && r.value <= f(s[i]).value)
    && (r.Some? ==> exists i :: 0 <= i < |s| && f(s[i]) == r)
  }

  method LeastOf<T>(s: seq<T>, f: T -> Option<nat>) returns (r: Option<nat>)
    ensures Least(s, f, r)
  {
    r := None;
    for i := 0 to |s|
      invariant forall j :: 0 <= j < i && f(s[j]).Some? ==> r.Some? && r.value <= f(s[j]).value
      invariant r.Some? ==> exists j :: 0 <= j < i && f(s[j]) == r
    {
      r := Sooner(r, f(s[i]));
    }
  }

  /** None of the times `f` gives is at or before `now`. */
  ghost predicate NoneDue<T>(s: seq<T>, f: T -> Option<nat>, now: nat) {
    forall i {:trigger s[i]} :: 0 <= i < |s| && f(s[i]).Some? ==> f(s[i]).value > now
  }

  // ---- counting -----------------------------------------------------------------

  function Count<T>(s: seq<T>, p: T -> bool): (n: nat)
    ensures n <= |s|
  {
    if s == [] then 0 else (if p(s[0]) then 1 else 0) + Count(s[1..], p)
  }

  lemma {:induction false} CountSplit<T>(a: seq<T>, b: seq<T>, p: T -> bool)
    ensures Count(a + b, p) == Count(a, p) + Count(b, p)
  {
    if a == [] {
      assert a + b == b;
    } else {
      assert (a + b)[1..] == a[1..] + b;
      CountSplit(a[1..], b, p);
    }
  }

  lemma CountNext<T>(s: seq<T>, i: nat, p: T -> bool)
    requires i < |s|
    ensures Count(s[..i + 1], p) == Count(s[..i], p) + (if p(s[i]) then 1 else 0)
  {
    assert s[..i + 1] == s[..i] + [s[i]];
    CountSplit(s[..i], [s[i]], p);
    assert Count([s[i]], p) == (if p(s[i]) then 1 else 0) + Count([], p);
  }

  /** Nothing new satisfies `p`: the count does not grow, and shrinks where
      something that did no longer does. */
  lemma {:induction false} CountShrinks<T>(s: seq<T>, t: seq<T>, p: T -> bool, at: int)
    requires |s| == |t| && forall i :: 0 <= i < |s| && p(t[i]) ==> p(s[i])
    ensures Count(t, p) <= Count(s, p)
    ensures 0 <= at < |s| && p(s[at]) && !p(t[at]) ==> Count(t, p) < Count(s, p)
    decreases |s|
  {
    if s != [] {
      forall i | 0 <= i < |s[1..]| && p(t[1..][i])
        ensures p(s[1..][i])
      {
        assert t[1..][i] == t[i + 1] && s[1..][i] == s[i + 1];
      }
      CountShrinks(s[1..], t[1..], p, at - 1);
    }
  }

  lemma {:induction false} CountZero<T>(s: seq<T>, p: T -> bool)
    ensures Count(s, p) == 0 <==> forall i :: 0 <= i < |s| ==> !p(s[i])
  {
    if s != [] {
      CountZero(s[1..], p);
      if Count(s, p) == 0 {
        forall i | 0 <= i < |s| ensures !p(s[i]) { if i > 0 { assert s[1..][i - 1] == s[i]; } }
      } else if !p(s[0]) {
        var i :| 0 <= i < |s[1..]| && p(s[1..][i]);
        assert p(s[i + 1]);
      }
    }
  }

  lemma {:induction false} CountEqual<T, U>(s: seq<T>, t: seq<U>, p: T -> bool, q: U -> bool)
    requires |s| == |t| && forall i :: 0 <= i < |s| ==> p(s[i]) == q(t[i])
    ensures Count(s, p) == Count(t, q)
    decreases |s|
  {
    if s != [] {
      forall i | 0 <= i < |s[1..]| ensures p(s[1..][i]) == q(t[1..][i]) {
        assert s[1..][i] == s[i + 1] && t[1..][i] == t[i + 1];
      }
      CountEqual(s[1..], t[1..], p, q);
    }
  }

  method CountOf<T>(s: seq<T>, p: T -> bool) returns (n: nat)
    ensures n == Count(s, p)
  {
    n := 0;
    for i := 0 to |s|
      invariant n == Count(s[..i], p)
    {
      CountNext(s, i, p);
      if p(s[i]) { n := n + 1; }
    }
    assert s[..|s|] == s;
  }

  // ---- what one pass over the threads does ------------------------------------------

  function Each(ts: seq<Thread>, f: Thread -> Thread): (r: seq<Thread>)
    ensures |r| == |ts| && forall i :: 0 <= i < |ts| ==> r[i] == f(ts[i])
  {
    seq(|ts|, i requires 0 <= i < |ts| => f(ts[i]))
  }

  /** A thread of the dead process leaves the schedule. */
  function Retire(pid: nat): Thread -> Thread {
    (t: Thread) => if t.pid == pid then t.(state := Exited, condKey := 0, deadline := 0) else t
  }

  function WakeIo(): Thread -> Thread {
    (t: Thread) => if t.state == Blocked && t.key == IO_KEY then t.(state := Runnable) else t
  }

  function WakeKey(pid: nat, key: nat): Thread -> Thread {
    (t: Thread) => if t.state == Blocked && t.pid == pid && t.key == key then t.(state := Runnable) else t
  }

  function WakeForSignal(pid: nat): Thread -> Thread {
    (t: Thread) => if t.pid == pid && t.state == Blocked && t.key != RESTART_KEY then t.(state := Runnable) else t
  }

  function Expire(now: nat): Thread -> Thread {
    (t: Thread) =>
      if t.state == Blocked && t.deadline != 0 && t.deadline <= now
      then t.(deadline := 0, timedOut := true, state := Runnable) else t
  }
}

/** Descriptors come and go: the last one releases the socket, and a whole
    process's are replaced at once. */
module NetRefs {
  import opened NetTypes
  import opened NetSpec
  import opened NetInv
  import opened NetSteps
  import opened NetOpen
  import opened NetClose

  // ---- closing a connected end ---------------------------------------------

  /** Apart from those in `q`, an end only ever goes from closed to free. */
  predicate Settled(k: seq<Sock>, m: seq<Sock>, q: seq<nat>) {
    |k| == |m| && forall i {:trigger m[i]} {:trigger k[i]} :: 0 <= i < |k| ==>
      m[i].refs == k[i].refs && m[i].backlog == k[i].backlog && m[i].shutWr == k[i].shutWr
      && m[i].shutRd == k[i].shutRd && m[i].farEnd == k[i].farEnd
      && (m[i].state == Connected ==> k[i].state == Connected)
      && (i !in q ==> m[i].state == k[i].state || (k[i].state == Closed && m[i].state == Free))
  }

  function FreeBoth(s: Net, a: nat, b: nat): Net
    requires a < |s.socks| && b < |s.socks|
  {
    var s1 := SetSock(s, b, s.socks[b].(state := Free));
    SetSock(s1, a, s1.socks[a].(state := Free))
  }

  lemma FreeBothLinks(k: seq<Sock>, m: seq<Sock>, a: nat, b: nat)
    requires Links(k) && Queues(k) && Pair(k, m, a, b) && k[b].state == Closed && NotQueued(k, a)
    requires m[a].state == Free && m[b].state == Free
    ensures Links(m) && Queues(m)
  {
    Strangers(k, a, b);
    forall i | 0 <= i < |m| ensures Linked(m, i) { assert Linked(k, i); }
    forall l: nat, q: nat | Queued(m, l, q) ensures Queued(k, l, q) && q != a { assert !Queued(k, l, a); }
    forall l: nat | l < |k| && m[l].state == Listening ensures m[l] == k[l] { }
  }

  lemma FreeSelf(k: Sock)
    requires SockOk(k)
    ensures k.refs == 0 ==> SockOk(k.(state := Free))
    ensures k.state == Closed ==> k.refs == 0
  {
  }

  lemma FreeBothOk(s: Net, a: nat, b: nat)
    requires Inv(s) && a < |s.socks| && b < |s.socks| && a != b
    requires s.socks[a].state == Connected && s.socks[a].farEnd == b && s.socks[b].state == Closed
    requires s.socks[a].refs == 0 && NotQueued(s.socks, a)
    ensures var t := FreeBoth(s, a, b);
            Good(s, t) && Settled(s.socks, t.socks, [a]) && t.socks[a].state == Free
  {
    hide SockOk, Queues, Pending, RdEdge, Window;
    var k, t := s.socks, FreeBoth(s, a, b);
    var m := t.socks;
    assert SockOk(k[a]) && SockOk(k[b]);
    FreeSelf(k[a]);
    FreeSelf(k[b]);
    FreeBothLinks(k, m, a, b);
    LinksStayInTable(m);
    PairEdges(k, m, a, b, -1);
    PairFlow(k, m, a, b);
    PairTotal(k, m, a, b);
    PairInv(s, t, a, b);
  }

  /** The FIN, if it has not been sent, then the end is closed. */
  function CloseEnd(s: Net, a: nat, b: nat): Net
    requires a < |s.socks| && b < |s.socks|
  {
    var s1 := if s.socks[a].shutWr then s else Deliver(s, s.socks[a].host, b, PFin).0;
    var s2 := WrBump(s1, b);
    SetSock(s2, a, s2.socks[a].(state := Closed))
  }

  lemma CloseSelf(k: Sock)
    requires SockOk(k) && k.state == Connected && k.refs == 0
    ensures SockOk(k.(state := Closed))
  {
  }

  lemma RdEdgeRefl(k: Sock)
    ensures RdEdge(k, k)
    ensures forall b, c :: RdEdge(k, b) && RdEdge(b, c) ==> RdEdge(k, c)
  {
  }

  /** How the two ends look once `a` is closed */
  lemma CloseEndSocks(s: Net, a: nat, b: nat)
    requires Inv(s) && a < |s.socks| && b < |s.socks| && a != b
    requires s.socks[a].state == Connected && s.socks[a].farEnd == b && s.socks[b].state == Connected
    requires s.socks[a].refs == 0
    ensures var k, t := s.socks, CloseEnd(s, a, b);
            && Pair(k, t.socks, a, b)
            && t == s.(socks := t.socks, inFlight := t.inFlight, nextDue := t.nextDue, bytes := t.bytes)
            && t.socks[a] == k[a].(state := Closed) && SockOk(t.socks[a])
            && SockOk(t.socks[b]) && SameShape(k[b], t.socks[b]) && FinSeen(t.socks[b])
            && RdEdge(k[b], t.socks[b]) && t.socks[b].wrEvents > k[b].wrEvents
            && Pending(t.socks[b]) == Pending(k[b]) && Accounted(t)
  {
    hide SockOk, Deliver, Queues, Pending, RdEdge;
    var k, t := s.socks, CloseEnd(s, a, b);
    assert SockOk(k[a]) && SockOk(k[b]) && Linked(k, a);
    CloseSelf(k[a]);
    RdEdgeRefl(k[b]);
    var s1 := if k[a].shutWr then s else Deliver(s, k[a].host, b, PFin).0;
    if !k[a].shutWr { FinDelivery(s, k[a].host, b); }
    BumpOk(s1.socks[b]);
    CloseEndTotal(s1, t, a, b);
  }

  lemma CloseEndTotal(s1: Net, t: Net, a: nat, b: nat)
    requires Accounted(s1) && a < |s1.socks| && b < |s1.socks| && a != b
    requires t == s1.(socks :=
      s1.socks[b := s1.socks[b].(wrEvents := s1.socks[b].wrEvents + 1)][a := s1.socks[a].(state := Closed)])
    ensures Accounted(t)
  {
    TotalSame(s1.socks, t.socks);
  }

  lemma CloseEndOk(s: Net, a: nat, b: nat)
    requires Inv(s) && a < |s.socks| && b < |s.socks| && a != b
    requires s.socks[a].state == Connected && s.socks[a].farEnd == b && s.socks[b].state == Connected
    requires s.socks[a].refs == 0 && NotQueued(s.socks, a)
    ensures var t := CloseEnd(s, a, b);
            Good(s, t) && Settled(s.socks, t.socks, [a]) && t.socks[a].state == Closed
  {
    hide SockOk, CloseEnd, Queues, RdEdge, Pending, Accounted;
    CloseEndSocks(s, a, b);
    FinOk(s, CloseEnd(s, a, b), a, b, -1);
  }

  lemma ReleaseConnectedOk(s: Net, a: nat)
    requires Inv(s) && a < |s.socks| && s.socks[a].state == Connected && s.socks[a].refs == 0
    requires NotQueued(s.socks, a) && Releasable(s.socks)
    ensures var t := Release(s, a);
            Good(s, t) && Settled(s.socks, t.socks, [a]) && (t.socks[a].state == Free || t.socks[a].state == Closed)
    ensures !s.socks[a].shutWr ==> s.socks[a].farEnd < |s.socks| && Release(s, a) == ResetQueued(s, a)
  {
    hide SockOk, Queues, Deliver, Good, Settled;
    var b := s.socks[a].farEnd;
    assert Linked(s.socks, a);
    if s.socks[b].state == Closed {
      FreeBothOk(s, a, b);
      assert Release(s, a) == FreeBoth(s, a, b);
    } else {
      CloseEndOk(s, a, b);
      assert Release(s, a) == CloseEnd(s, a, b);
    }
  }

  // ---- closing a listener --------------------------------------------------

  predicate Resettable(k: seq<Sock>, q: nat) {
    q < |k| && k[q].state == Connected && k[q].refs == 0 && !k[q].shutWr && NotQueued(k, q)
  }

  lemma ResetQueuedOk(s: Net, q: nat)
    requires Inv(s) && Resettable(s.socks, q)
    ensures s.socks[q].farEnd < |s.socks|
    ensures var t := ResetQueued(s, q);
            Good(s, t) && Settled(s.socks, t.socks, [q]) && t.socks[q].state != Connected
            && t.socks[q].state != Listening
  {
    hide SockOk, Deliver, Good, Settled;
    InvReleasable(s.socks);
    ReleaseConnectedOk(s, q);
    assert Linked(s.socks, q);
  }

  lemma StillResettable(k: seq<Sock>, m: seq<Sock>, q: nat, r: nat)
    requires Settled(k, m, [q]) && Resettable(k, r) && r != q && q < |k|
    requires m[q].state != Listening
    ensures Resettable(m, r)
  {
    forall l: nat | l < |m| ensures !Queued(m, l, r) { assert !Queued(k, l, r); }
  }

  lemma SettledCompose(k: seq<Sock>, m: seq<Sock>, n: seq<Sock>, q: nat, rest: seq<nat>)
    requires Settled(k, m, [q]) && Settled(m, n, rest)
    ensures Settled(k, n, [q] + rest)
  {
    forall i | 0 <= i < |k|
      ensures n[i].refs == k[i].refs && n[i].backlog == k[i].backlog && n[i].shutWr == k[i].shutWr
              && n[i].shutRd == k[i].shutRd && n[i].farEnd == k[i].farEnd
              && (n[i].state == Connected ==> k[i].state == Connected)
              && (i !in [q] + rest ==> n[i].state == k[i].state || (k[i].state == Closed && n[i].state == Free))
    {
      if i !in [q] + rest { assert i !in [q] && i !in rest; }
    }
  }

  /** A settled step lets the one before it be composed with the one after. */
  lemma SettledGood(s: Net, t: Net, u: Net, q: nat, rest: seq<nat>)
    requires Good(s, t) && Good(t, u) && Settled(s.socks, t.socks, [q]) && Settled(t.socks, u.socks, rest)
    requires q < |s.socks| && t.socks[q].state != Connected && q !in rest
    ensures Good(s, u)
  {
    var k, m, n := s.socks, t.socks, u.socks;
    forall i | 0 <= i < |k| && Kept(k, n, i) ensures Kept(k, m, i) {
      if i in rest { assert i != q; }
    }
    GoodCompose(s, t, u);
  }

  lemma {:induction false} ResetAllOk(s: Net, queue: seq<nat>)
    requires Inv(s) && NoDup(queue) && forall x :: 0 <= x < |queue| ==>
      queue[x] < |s.socks| && Resettable(s.socks, queue[x])
    ensures forall x :: 0 <= x < |queue| ==> s.socks[queue[x]].farEnd < |s.socks|
    ensures Good(s, ResetAll(s, queue)) && Settled(s.socks, ResetAll(s, queue).socks, queue)
    decreases |queue|
  {
    hide SockOk, Deliver, Inv, Edges, Flow, ResetQueued;
    forall x | 0 <= x < |queue| ensures s.socks[queue[x]].farEnd < |s.socks| { ResetQueuedOk(s, queue[x]); }
    if queue == [] {
      GoodRefl(s);
    } else {
      var q, rest := queue[0], queue[1..];
      ResetQueuedOk(s, q);
      var t := ResetQueued(s, q);
      forall x | 0 <= x < |rest| ensures Resettable(t.socks, rest[x]) {
        assert rest[x] == queue[x + 1] && queue[0] != queue[x + 1];
        StillResettable(s.socks, t.socks, q, rest[x]);
      }
      ResetAllOk(t, rest);
      var u := ResetAll(t, rest);
      SettledCompose(s.socks, t.socks, u.socks, q, rest);
      assert [q] + rest == queue;
      SettledGood(s, t, u, q, rest);
    }
  }

  lemma FinCommutes(s: Net, host: nat, b: nat, l: nat, d: Sock)
    requires b < |s.socks| && l < |s.socks| && l != b
    ensures Deliver(SetSock(s, l, d), host, b, PFin).0 == SetSock(Deliver(s, host, b, PFin).0, l, d)
    ensures |Deliver(s, host, b, PFin).0.socks| == |s.socks|
    ensures Deliver(s, host, b, PFin).0.socks[l] == s.socks[l]
  {
    var e := Deliver(s, host, b, PFin).0.socks[b];
    assert s.socks[l := d][b := e] == s.socks[b := e][l := d];
  }

  lemma SetCommutes(s: Net, i: nat, e: Sock, l: nat, d: Sock)
    requires i < |s.socks| && l < |s.socks| && i != l
    ensures SetSock(SetSock(s, l, d), i, e) == SetSock(SetSock(s, i, e), l, d)
  {
    assert s.socks[l := d][i := e] == s.socks[i := e][l := d];
  }

  /** A reset does not look at, or touch, a socket that is neither end. */
  lemma ResetCommutes(s: Net, far: nat, l: nat, d: Sock)
    requires far < |s.socks| && s.socks[far].farEnd < |s.socks| && l < |s.socks|
    requires l != far && l != s.socks[far].farEnd
    ensures ResetQueued(SetSock(s, l, d), far) == SetSock(ResetQueued(s, far), l, d)
    ensures ResetQueued(s, far).socks[l] == s.socks[l]
  {
    hide Deliver;
    var near := s.socks[far].farEnd;
    if s.socks[near].state == Closed {
      var e := s.socks[near].(state := Free);
      var s1 := SetSock(s, near, e);
      SetCommutes(s, near, e, l, d);
      SetCommutes(s1, far, s1.socks[far].(state := Free), l, d);
    } else {
      FinCommutes(s, s.socks[far].host, near, l, d);
      BumpCommutes(s, far, near, l, d);
    }
  }

  lemma BumpCommutes(s: Net, far: nat, near: nat, l: nat, d: Sock)
    requires far < |s.socks| && s.socks[far].farEnd == near < |s.socks| && l < |s.socks|
    requires l != far && l != near && s.socks[near].state != Closed
    requires Deliver(SetSock(s, l, d), s.socks[far].host, near, PFin).0
             == SetSock(Deliver(s, s.socks[far].host, near, PFin).0, l, d)
    requires |Deliver(s, s.socks[far].host, near, PFin).0.socks| == |s.socks|
    requires Deliver(s, s.socks[far].host, near, PFin).0.socks[l] == s.socks[l]
    ensures ResetQueued(SetSock(s, l, d), far) == SetSock(ResetQueued(s, far), l, d)
    ensures ResetQueued(s, far).socks[l] == s.socks[l]
  {
    hide Deliver;
    var s1 := Deliver(s, s.socks[far].host, near, PFin).0;
    var e := s1.socks[near].(wrEvents := s1.socks[near].wrEvents + 1);
    SetCommutes(s1, near, e, l, d);
    var s2 := SetSock(s1, near, e);
    SetCommutes(s2, far, s2.socks[far].(state := Closed), l, d);
  }

  lemma {:induction false} ResetAllCommutes(s: Net, queue: seq<nat>, l: nat, d: Sock)
    requires forall x :: 0 <= x < |queue| ==> queue[x] < |s.socks| && s.socks[queue[x]].farEnd < |s.socks|
    requires l < |s.socks| && d.farEnd == s.socks[l].farEnd
    requires forall x :: 0 <= x < |queue| ==> queue[x] != l && s.socks[queue[x]].farEnd != l
    ensures ResetAll(SetSock(s, l, d), queue) == SetSock(ResetAll(s, queue), l, d)
    ensures ResetAll(s, queue).socks[l] == s.socks[l]
    decreases |queue|
  {
    if queue != [] {
      ResetCommutes(s, queue[0], l, d);
      ResetAllCommutes(ResetQueued(s, queue[0]), queue[1..], l, d);
    }
  }

  lemma ReleaseListeningOk(s: Net, sock: nat)
    requires Inv(s) && sock < |s.socks| && s.socks[sock].state == Listening && s.socks[sock].refs == 0
    requires Releasable(s.socks)
    ensures var t := Release(s, sock);
            Good(s, t) && Settled(s.socks, t.socks, [sock] + s.socks[sock].backlog) && t.socks[sock].state == Free
  {
    hide SockOk, WholeDgrams, Deliver, ResetQueued, Edges, Flow;
    var k, queue := s.socks, s.socks[sock].backlog;
    var d := k[sock].(state := Free);
    var s1 := SetSock(s, sock, d);
    FreedOk(s, sock);
    forall x | 0 <= x < |queue|
      ensures Resettable(s1.socks, queue[x]) && queue[x] != sock && k[queue[x]].farEnd != sock
    {
      QueuedIsResettable(s, sock, queue[x]);
    }
    ResetAllOk(s1, queue);
    ResetAllCommutes(s, queue, sock, d);
    var t := ResetAll(s1, queue);
    assert Release(s, sock) == t;
    SettledCompose(k, s1.socks, t.socks, sock, queue);
    SettledGood(s, s1, t, sock, queue);
  }

  lemma FreedOk(s: Net, sock: nat)
    requires Inv(s) && sock < |s.socks| && s.socks[sock].refs == 0
    requires s.socks[sock].state != Connected && s.socks[sock].state != Closed
    ensures var t := SetSock(s, sock, s.socks[sock].(state := Free));
            Good(s, t) && Settled(s.socks, t.socks, [sock])
  {
    assert SockOk(s.socks[sock]);
    ReplaceGood(s, sock, s.socks[sock].(state := Free));
  }

  lemma QueuedIsResettable(s: Net, l: nat, q: nat)
    requires Inv(s) && l < |s.socks| && Queued(s.socks, l, q)
    ensures q != l && q < |s.socks| && s.socks[q].farEnd != l
    ensures Resettable(s.socks[l := s.socks[l].(state := Free)], q)
  {
    var m := s.socks[l := s.socks[l].(state := Free)];
    assert Linked(s.socks, q);
    forall j: nat | j < |m| ensures !Queued(m, j, q) {
      if j != l { assert Queued(s.socks, j, q) ==> j == l; }
    }
  }

  /** The last descriptor of any socket may go. */
  lemma ReleaseOk(s: Net, sock: nat)
    requires Inv(s) && sock < |s.socks| && s.socks[sock].refs == 0 && NotQueued(s.socks, sock)
    requires s.socks[sock].state != Closed && s.socks[sock].state != Free
    ensures Releasable(s.socks)
    ensures Good(s, Release(s, sock))
    ensures Settled(s.socks, Release(s, sock).socks, [sock])
            || (s.socks[sock].state == Listening
                && Settled(s.socks, Release(s, sock).socks, [sock] + s.socks[sock].backlog))
    ensures Release(s, sock).socks[sock].state == Free || Release(s, sock).socks[sock].state == Closed
  {
    InvReleasable(s.socks);
    match s.socks[sock].state
    case Connected => ReleaseConnectedOk(s, sock);
    case Listening => ReleaseListeningOk(s, sock);
    case _ => FreedOk(s, sock);
  }

  // ---- the table of references ---------------------------------------------

  lemma {:induction false} RefSumUpdate(t: seq<FdRef>, r: nat, e: FdRef, x: nat)
    requires r < |t|
    ensures RefSum(t[r := e], x)
            == RefSum(t, x) - (if t[r].sock == x then t[r].count else 0) + (if e.sock == x then e.count else 0)
    ensures RefSum(t, x) >= if t[r].sock == x then t[r].count else 0
  {
    if r == 0 {
      assert t[0 := e][1..] == t[1..];
    } else {
      assert t[r := e][1..] == t[1..][r - 1 := e];
      RefSumUpdate(t[1..], r - 1, e, x);
    }
  }

  /** The one live entry of a pair is the one that is found. */
  lemma LiveIsFound(t: seq<FdRef>, i: nat)
    requires OneEntryEach(t) && i < |t| && t[i].count > 0
    ensures FindRef(t, t[i].pid, t[i].sock, 0) == i && Held(t, t[i].pid, t[i].sock) == t[i].count
  {
    var r := FindRef(t, t[i].pid, t[i].sock, 0);
    assert r <= i;
  }

  /** Writing the entry `fdref` settles on changes what is held for that pair
      and nothing else. */
  lemma HeldUpdate(t: seq<FdRef>, pid: nat, sock: nat, c: nat)
    requires OneEntryEach(t) && FdSlot(t, pid, sock) < |t|
    ensures var u := t[FdSlot(t, pid, sock) := FdRef(pid, sock, c)];
            && OneEntryEach(u) && Held(u, pid, sock) == c
            && forall p, x :: (p != pid || x != sock) ==> Held(u, p, x) == Held(t, p, x)
    ensures Held(t, pid, sock) == t[FdSlot(t, pid, sock)].count
  {
    var r := FdSlot(t, pid, sock);
    var u := t[r := FdRef(pid, sock, c)];
    assert OneEntryEach(u) by { SlotUnique(t, pid, sock, c); }
    if c > 0 { LiveIsFound(u, r); }
    forall p: nat, x: nat | p != pid || x != sock ensures Held(u, p, x) == Held(t, p, x) {
      var i, j := FindRef(t, p, x, 0), FindRef(u, p, x, 0);
      if i < |t| { LiveIsFound(u, i); }
    }
  }

  lemma SlotUnique(t: seq<FdRef>, pid: nat, sock: nat, c: nat)
    requires OneEntryEach(t) && FdSlot(t, pid, sock) < |t|
    ensures OneEntryEach(t[FdSlot(t, pid, sock) := FdRef(pid, sock, c)])
  {
    var r := FdSlot(t, pid, sock);
    var u := t[r := FdRef(pid, sock, c)];
    var live := FindRef(t, pid, sock, 0);
    forall i, j | 0 <= i < j < |u| && u[i].count > 0 && u[j].count > 0
      ensures u[i].pid != u[j].pid || u[i].sock != u[j].sock
    {
      var o := if i == r then j else i;
      if (i == r || j == r) && t[o].pid == pid && t[o].sock == sock {
        LiveIsFound(t, o);
        assert false;
      }
    }
  }

  lemma SlotRefs(k: seq<Sock>, t: seq<FdRef>, pid: nat, sock: nat, c: nat)
    requires RefsAgree(k, t) && sock < |k| && FdSlot(t, pid, sock) < |t|
    ensures var r := FdSlot(t, pid, sock);
            && k[sock].refs >= t[r].count
            && RefsAgree(k[sock := k[sock].(refs := k[sock].refs - t[r].count + c)], t[r := FdRef(pid, sock, c)])
  {
    hide Held, FdSlot;
    var r := FdSlot(t, pid, sock);
    var e := FdRef(pid, sock, c);
    HeldUpdate(t, pid, sock, c);
    SlotEntry(t, pid, sock);
    RefSumUpdate(t, r, e, sock);
    var m := k[sock := k[sock].(refs := k[sock].refs - t[r].count + c)];
    forall i | 0 <= i < |m| ensures m[i].refs == RefSum(t[r := e], i) { RefSumUpdate(t, r, e, i); }
  }

  lemma SlotEntry(t: seq<FdRef>, pid: nat, sock: nat)
    requires FdSlot(t, pid, sock) < |t|
    ensures var r := FdSlot(t, pid, sock); t[r].count == 0 || (t[r].pid == pid && t[r].sock == sock)
  {
  }

  // ---- one descriptor more, one less ----------------------------------------

  /** What is held is as before, but `n` for this pair. */
  ghost predicate HeldIs(t: seq<FdRef>, u: seq<FdRef>, pid: nat, sock: nat, n: nat) {
    Held(u, pid, sock) == n && forall p: nat, x: nat :: (p != pid || x != sock) ==> Held(u, p, x) == Held(t, p, x)
  }

  lemma CountChange(s: Net, t: Net, sock: nat, n: nat)
    requires Inv(s) && sock < |s.socks| && NotQueued(s.socks, sock)
    requires s.socks[sock].state != Free && s.socks[sock].state != Closed
    requires t == s.(socks := s.socks[sock := s.socks[sock].(refs := n)], fdrefs := t.fdrefs)
    requires |t.fdrefs| == |s.fdrefs| && RefsAgree(t.socks, t.fdrefs)
    ensures Good(s, t)
  {
    hide SockOk, Linked, Queues, Edges, Flow;
    var k, m := s.socks, t.socks;
    assert SockOk(k[sock]);
    CountSelf(k[sock], n);
    CountLinks(k, sock, n);
    LinksStayInTable(k);
    LinksStayInTable(m);
    CountEdges(k, m, sock, n);
    TotalUpdate(k, sock, m[sock]);
    forall i | 0 <= i < |m| ensures SockOk(m[i]) && m[i].host < |t.hosts| { assert SockOk(k[i]); }
  }

  lemma CountEdges(k: seq<Sock>, m: seq<Sock>, sock: nat, n: nat)
    requires FarEndsInTable(k) && FarEndsInTable(m) && sock < |k|
    requires m == k[sock := k[sock].(refs := n)]
    ensures Edges(k, m, -1) && Flow(k, m, -1, [])
  {
    forall i | 0 <= i < |k|
      ensures RdEdge(k[i], m[i]) && Pending(m[i]) == Pending(k[i]) + [] && Window(m[i]) == Window(k[i])
              && m[i].shutRd == k[i].shutRd && m[i].state == k[i].state
    { }
    forall i | 0 <= i < |k| ensures WrEdge(k, m, i) { }
  }

  lemma CountSelf(k: Sock, n: nat)
    requires SockOk(k) && k.state != Free && k.state != Closed
    ensures SockOk(k.(refs := n))
  {
  }

  lemma CountLinks(k: seq<Sock>, sock: nat, n: nat)
    requires Links(k) && Queues(k) && sock < |k| && NotQueued(k, sock)
    ensures var m := k[sock := k[sock].(refs := n)]; Links(m) && Queues(m)
  {
    var m := k[sock := k[sock].(refs := n)];
    forall i | 0 <= i < |m| ensures Linked(m, i) { assert Linked(k, i); }
    forall l: nat, q: nat | Queued(m, l, q) ensures Queued(k, l, q) && q != sock { assert !Queued(k, l, sock); }
    forall l: nat | l < |k| && m[l].state == Listening
      ensures m[l].backlog == k[l].backlog && k[l].state == Listening
    {
    }
  }

  lemma AddRefOk(s: Net, pid: nat, sock: nat)
    requires Inv(s) && sock < |s.socks| && NotQueued(s.socks, sock)
    requires s.socks[sock].state != Free && s.socks[sock].state != Closed
    requires FdSlot(s.fdrefs, pid, sock) < |s.fdrefs|
    ensures var t := AddRef(s, pid, sock);
            && Good(s, t) && t.socks == s.socks[sock := s.socks[sock].(refs := s.socks[sock].refs + 1)]
            && HeldIs(s.fdrefs, t.fdrefs, pid, sock, Held(s.fdrefs, pid, sock) + 1)
  {
    hide Held, FdSlot, Good;
    var r := FdSlot(s.fdrefs, pid, sock);
    var c := s.fdrefs[r].count + 1;
    HeldUpdate(s.fdrefs, pid, sock, c);
    SlotRefs(s.socks, s.fdrefs, pid, sock, c);
    CountChange(s, AddRef(s, pid, sock), sock, s.socks[sock].refs + 1);
  }

  /** Nobody but `sock` is closed under a descriptor, and no end reopens. */
  predicate OthersKeep(k: seq<Sock>, m: seq<Sock>, sock: int) {
    |k| == |m| && forall i {:trigger m[i]} {:trigger k[i]} :: 0 <= i < |k| ==>
      m[i].shutRd == k[i].shutRd && (m[i].state == Connected ==> k[i].state == Connected)
      && (i != sock ==> m[i].refs == k[i].refs && (k[i].refs > 0 ==> m[i].state == k[i].state))
  }

  lemma BacklogUnheld(s: Net, sock: nat)
    requires Inv(s) && sock < |s.socks| && s.socks[sock].state == Listening
    ensures forall i :: i in s.socks[sock].backlog ==> i < |s.socks| && s.socks[i].refs == 0
  {
    hide WholeDgrams;
    forall i | i in s.socks[sock].backlog ensures i < |s.socks| && s.socks[i].refs == 0 {
      assert Queued(s.socks, sock, i);
    }
  }

  lemma SettledOthers(s: Net, t: Net, sock: nat)
    requires Inv(s) && sock < |s.socks|
    requires Settled(s.socks, t.socks, [sock])
             || (s.socks[sock].state == Listening && Settled(s.socks, t.socks, [sock] + s.socks[sock].backlog))
    ensures OthersKeep(s.socks, t.socks, sock)
  {
    hide WholeDgrams;
    if s.socks[sock].state == Listening { BacklogUnheld(s, sock); }
    forall i | 0 <= i < |s.socks| && i != sock && s.socks[i].refs > 0 ensures t.socks[i].state == s.socks[i].state {
      assert SockOk(s.socks[i]);
    }
  }

  /** The first half of dropping a reference: both counts go down. */
  function Counted(s: Net, pid: nat, sock: nat): Net
    requires sock < |s.socks| && FdSlot(s.fdrefs, pid, sock) < |s.fdrefs|
  {
    var r := FdSlot(s.fdrefs, pid, sock);
    SetSock(s, sock, s.socks[sock].(refs := SatSub(s.socks[sock].refs, 1)))
    .(fdrefs := s.fdrefs[r := FdRef(pid, sock, SatSub(s.fdrefs[r].count, 1))])
  }

  lemma CountedOk(s: Net, pid: nat, sock: nat)
    requires Inv(s) && sock < |s.socks| && Held(s.fdrefs, pid, sock) > 0
    ensures FdSlot(s.fdrefs, pid, sock) < |s.fdrefs| && s.socks[sock].refs > 0
    ensures NotQueued(s.socks, sock) && s.socks[sock].state != Free && s.socks[sock].state != Closed
    ensures var t := Counted(s, pid, sock);
            && Good(s, t) && t.socks == s.socks[sock := s.socks[sock].(refs := s.socks[sock].refs - 1)]
            && HeldIs(s.fdrefs, t.fdrefs, pid, sock, Held(s.fdrefs, pid, sock) - 1)
  {
    hide Good, Queues, Links, WholeDgrams;
    var c := s.fdrefs[FdSlot(s.fdrefs, pid, sock)].count;
    HeldUpdate(s.fdrefs, pid, sock, c - 1);
    SlotRefs(s.socks, s.fdrefs, pid, sock, c - 1);
    assert SockOk(s.socks[sock]);
    ReferencedNotQueued(s, sock);
    CountChange(s, Counted(s, pid, sock), sock, s.socks[sock].refs - 1);
  }

  lemma DropRefOk(s: Net, pid: nat, sock: nat)
    requires Inv(s) && sock < |s.socks| && Held(s.fdrefs, pid, sock) > 0
    ensures FdSlot(s.fdrefs, pid, sock) < |s.fdrefs| && Releasable(s.socks)
    ensures var t := DropRef(s, pid, sock);
            && Good(s, t) && OthersKeep(s.socks, t.socks, sock)
            && HeldIs(s.fdrefs, t.fdrefs, pid, sock, Held(s.fdrefs, pid, sock) - 1)
            && s.socks[sock].refs > 0 && t.socks[sock].refs == s.socks[sock].refs - 1
            && (t.socks[sock].refs > 0 ==> t.socks[sock].state == s.socks[sock].state)
            && (t.socks[sock].refs == 0 ==> t.socks[sock].state == Free || t.socks[sock].state == Closed)
  {
    hide Good, Settled, Queues, Links, WholeDgrams, Release, Held, FdSlot, SockOk;
    CountedOk(s, pid, sock);
    var s1 := Counted(s, pid, sock);
    InvReleasable(s.socks);
    if s1.socks[sock].refs == 0 {
      DropLast(s, s1, sock);
    }
  }

  lemma DropLast(s: Net, s1: Net, sock: nat)
    requires Inv(s) && Good(s, s1) && sock < |s.socks| && NotQueued(s.socks, sock)
    requires s1.socks == s.socks[sock := s.socks[sock].(refs := 0)]
    requires s.socks[sock].state != Free && s.socks[sock].state != Closed
    ensures Releasable(s1.socks)
    ensures var t := Release(s1, sock);
            && Good(s, t) && OthersKeep(s.socks, t.socks, sock) && t.fdrefs == s1.fdrefs
            && t.socks[sock].refs == 0 && (t.socks[sock].state == Free || t.socks[sock].state == Closed)
  {
    hide WholeDgrams, SockOk, Release, Links, Queues, Edges, Flow;
    forall l: nat | l < |s1.socks| ensures !Queued(s1.socks, l, sock) { assert !Queued(s.socks, l, sock); }
    ReleaseOk(s1, sock);
    var t := Release(s1, sock);
    SettledOthers(s1, t, sock);
    GoodCompose(s, s1, t);
  }
}

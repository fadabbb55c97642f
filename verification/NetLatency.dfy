/** The latency between hosts, over whole runs: what one end of a connection
    sends is not in the other's ring, nor read, before it is due. */
module NetLatency {
  import opened Wrappers
  import opened NetTypes
  import opened Wire
  import opened NetSpec
  import opened NetInv
  import opened NetTime
  import opened NetRefs
  import opened NetProcs
  import NR = NetRun

  /** Bytes of the records in front of the first one due at `due` or later */
  function Before(f: seq<Rec>, due: nat): seq<Byte> {
    if f == [] || f[0].due >= due then []
    else (if f[0].kind == KBytes then f[0].body else []) + Before(f[1..], due)
  }

  /** What `d` has, and gets before that time */
  function Soon(d: Sock, due: nat): seq<Byte> { d.rx + Before(d.flight, due) }

  lemma {:induction false} BeforeAppend(f: seq<Rec>, r: Rec, due: nat)
    requires r.due >= due
    ensures Before(f + [r], due) == Before(f, due)
  {
    if f == [] {
      assert f + [r] == [r];
    } else {
      assert (f + [r])[0] == f[0] && (f + [r])[1..] == f[1..] + [r];
      BeforeAppend(f[1..], r, due);
    }
  }

  lemma {:induction false} BeforeSplit(f: seq<Rec>, n: nat, due: nat)
    requires n <= |f| && forall i :: 0 <= i < n ==> f[i].due < due
    ensures Before(f, due) == FlBytes(f[..n]) + Before(f[n..], due)
  {
    if n == 0 {
      assert f[..0] == [] && f[0..] == f;
    } else {
      BeforeSplit(f[1..], n - 1, due);
      assert f[..n][1..] == f[1..][..n - 1] && f[n..] == f[1..][n - 1..];
    }
  }

  lemma {:induction false} BeforeIsPrefix(f: seq<Rec>, due: nat)
    ensures Before(f, due) <= FlBytes(f)
  {
    if f != [] { BeforeIsPrefix(f[1..], due); }
  }

  /** The socket at the other end of `b` is on another host, and what it sends
      now is due at `due` at the earliest. */
  predicate Abroad(s: Net, b: nat, due: nat) {
    && b < |s.socks| && s.socks[b].farEnd < |s.socks| && s.socks[s.socks[b].farEnd].host != s.socks[b].host
    && s.latency > 0 && s.now + s.latency >= due
  }

  /** Nothing is due for `b` any sooner; ends, hosts and the clock stay. */
  predicate NotSooner(s: Net, t: Net, b: nat, due: nat) {
    && |t.socks| == |s.socks| && b < |s.socks| && t.now == s.now && t.latency == s.latency
    && (forall i {:trigger t.socks[i]} :: 0 <= i < |s.socks| ==>
          t.socks[i].farEnd == s.socks[i].farEnd && t.socks[i].host == s.socks[i].host)
    && t.socks[b].rx == s.socks[b].rx && Before(t.socks[b].flight, due) == Before(s.socks[b].flight, due)
  }

  lemma Trans(s: Net, t: Net, u: Net, b: nat, due: nat)
    requires NotSooner(s, t, b, due) && NotSooner(t, u, b, due)
    ensures NotSooner(s, u, b, due)
  {
    forall i | 0 <= i < |s.socks| ensures u.socks[i].farEnd == s.socks[i].farEnd && u.socks[i].host == s.socks[i].host {
      assert t.socks[i].farEnd == s.socks[i].farEnd;
    }
  }

  /** What is delivered to `b` by its far end comes later, and nothing else
      touches it. */
  lemma DeliverLater(s: Net, from: nat, dst: nat, p: Payload, b: nat, due: nat)
    requires Abroad(s, b, due) && dst < |s.socks| && (dst == b ==> from != s.socks[b].host)
    ensures NotSooner(s, Deliver(s, from, dst, p).0, b, due)
  {
    hide Before, EncDgram, FlLen, FlStream;
    forall r: Rec | r.due >= due ensures Before(s.socks[b].flight + [r], due) == Before(s.socks[b].flight, due) {
      BeforeAppend(s.socks[b].flight, r, due);
    }
  }

  lemma TouchLater(s: Net, i: nat, k: Sock, b: nat, due: nat)
    requires i < |s.socks| && b < |s.socks|
    requires k.farEnd == s.socks[i].farEnd && k.host == s.socks[i].host
    requires i == b ==> k.flight == s.socks[i].flight && k.rx == s.socks[i].rx
    ensures NotSooner(s, SetSock(s, i, k), b, due)
  {
    hide Before;
  }

  /** Closing one end, once the other has been told */
  lemma EndLater(s: Net, x: nat, y: nat, b: nat, due: nat)
    requires x < |s.socks| && y < |s.socks| && b < |s.socks|
    ensures NotSooner(s, SetSock(WrBump(s, y), x, WrBump(s, y).socks[x].(state := Closed)), b, due)
  {
    hide NotSooner;
    TouchLater(s, y, s.socks[y].(wrEvents := s.socks[y].wrEvents + 1), b, due);
    var s1 := WrBump(s, y);
    TouchLater(s1, x, s1.socks[x].(state := Closed), b, due);
    Trans(s, s1, SetSock(s1, x, s1.socks[x].(state := Closed)), b, due);
  }

  lemma FreeLater(s: Net, x: nat, y: nat, b: nat, due: nat)
    requires x < |s.socks| && y < |s.socks| && b < |s.socks|
    ensures var s1 := SetSock(s, y, s.socks[y].(state := Free));
            NotSooner(s, SetSock(s1, x, s1.socks[x].(state := Free)), b, due)
  {
    hide NotSooner;
    TouchLater(s, y, s.socks[y].(state := Free), b, due);
    var s1 := SetSock(s, y, s.socks[y].(state := Free));
    TouchLater(s1, x, s1.socks[x].(state := Free), b, due);
    Trans(s, s1, SetSock(s1, x, s1.socks[x].(state := Free)), b, due);
  }

  /** Only `b`'s own far end names it. */
  predicate Mutual(k: seq<Sock>, q: nat, b: nat) {
    q < |k| && k[q].farEnd < |k| && b < |k| && (k[q].farEnd == b ==> k[b].farEnd == q)
  }

  lemma ResetLater(s: Net, q: nat, b: nat, due: nat)
    requires Abroad(s, b, due) && Mutual(s.socks, q, b)
    ensures NotSooner(s, ResetQueued(s, q), b, due)
  {
    hide NotSooner, Deliver;
    var near := s.socks[q].farEnd;
    if s.socks[near].state == Closed {
      FreeLater(s, q, near, b, due);
    } else {
      var u := Deliver(s, s.socks[q].host, near, PFin).0;
      DeliverLater(s, s.socks[q].host, near, PFin, b, due);
      assert |u.socks|
        == |s.socks| by { hide *; hide Deliver; assert NotSooner(s, u, b, due); SameLength(s, u, b, due); }
      EndLater(u, q, near, b, due);
      Trans(s, u, ResetQueued(s, q), b, due);
    }
  }

  lemma SameLength(s: Net, t: Net, b: nat, due: nat)
    requires NotSooner(s, t, b, due)
    ensures |t.socks| == |s.socks| && b < |s.socks|
  {
  }

  lemma StaysAbroad(s: Net, t: Net, b: nat, due: nat)
    requires NotSooner(s, t, b, due) && Abroad(s, b, due)
    ensures Abroad(t, b, due)
    ensures forall q: nat :: Mutual(s.socks, q, b) ==> Mutual(t.socks, q, b)
  {
  }

  lemma {:induction false} QueueLater(s: Net, queue: seq<nat>, b: nat, due: nat)
    requires Abroad(s, b, due) && forall x :: 0 <= x < |queue| ==> Mutual(s.socks, queue[x], b)
    ensures forall x :: 0 <= x < |queue| ==> queue[x] < |s.socks| && s.socks[queue[x]].farEnd < |s.socks|
    ensures NotSooner(s, ResetAll(s, queue), b, due)
    decreases |queue|
  {
    hide ResetQueued, Before;
    if queue != [] {
      ResetLater(s, queue[0], b, due);
      var t := ResetQueued(s, queue[0]);
      StaysAbroad(s, t, b, due);
      QueueLater(t, queue[1..], b, due);
      Trans(s, t, ResetAll(s, queue), b, due);
    }
  }

  lemma LinkedMutual(s: Net, q: nat, b: nat)
    requires Inv(s) && q < |s.socks| && b < |s.socks|
    requires s.socks[q].state == Connected || s.socks[q].state == Closed
    ensures Mutual(s.socks, q, b)
  {
    hide Queues, RefsAgree, AllSocks;
    assert Linked(s.socks, q);
  }

  lemma QueueMutual(s: Net, l: nat, b: nat)
    requires Inv(s) && l < |s.socks| && b < |s.socks| && s.socks[l].state == Listening
    ensures forall x :: 0 <= x < |s.socks[l].backlog| ==> Mutual(s.socks, s.socks[l].backlog[x], b)
  {
    hide RefsAgree, AllSocks, Links, Mutual;
    forall x | 0 <= x < |s.socks[l].backlog| ensures Mutual(s.socks, s.socks[l].backlog[x], b) {
      assert Queued(s.socks, l, s.socks[l].backlog[x]);
      LinkedMutual(s, s.socks[l].backlog[x], b);
    }
  }

  lemma ReleaseLater(s: Net, sock: nat, b: nat, due: nat)
    requires sock < |s.socks| && Releasable(s.socks) && Abroad(s, b, due)
    requires s.socks[sock].state == Connected ==> Mutual(s.socks, sock, b)
    requires s.socks[sock].state == Listening ==>
               forall x :: 0 <= x < |s.socks[sock].backlog| ==> Mutual(s.socks, s.socks[sock].backlog[x], b)
    ensures NotSooner(s, Release(s, sock), b, due)
  {
    hide NotSooner, Deliver, ResetAll;
    var k := s.socks[sock];
    match k.state
    case Listening =>
      QueueLater(s, k.backlog, b, due);
      var s1 := ResetAll(s, k.backlog);
      TouchLater(s1, sock, s1.socks[sock].(state := Free), b, due);
      Trans(s, s1, Release(s, sock), b, due);
    case Connected =>
      var peer := k.farEnd;
      if s.socks[peer].state == Closed {
        FreeLater(s, sock, peer, b, due);
      } else {
        var u := if k.shutWr then s else Deliver(s, k.host, peer, PFin).0;
        if k.shutWr { Refl(s, b, due); } else { DeliverLater(s, k.host, peer, PFin, b, due); }
        SameLength(s, u, b, due);
        EndLater(u, sock, peer, b, due);
        Trans(s, u, Release(s, sock), b, due);
      }
    case _ => TouchLater(s, sock, k.(state := Free), b, due);
  }

  lemma Refl(s: Net, b: nat, due: nat)
    requires b < |s.socks|
    ensures NotSooner(s, s, b, due)
  {
  }

  // ---- every call ------------------------------------------------------------------

  lemma DropLater(s: Net, pid: nat, sock: nat, b: nat, due: nat)
    requires Inv(s) && sock < |s.socks| && Held(s.fdrefs, pid, sock) > 0 && Abroad(s, b, due)
    ensures FdSlot(s.fdrefs, pid, sock) < |s.fdrefs| && Releasable(s.socks)
    ensures NotSooner(s, DropRef(s, pid, sock), b, due)
  {
    hide FdSlot, Held;
    DropSlot(s, pid, sock);
    var k := s.socks[sock];
    if k.state == Connected { LinkedMutual(s, sock, b); }
    if k.state == Listening { QueueMutual(s, sock, b); }
    hide FdSlot, Held, Inv, Release, Before, NotSooner;
    var s1 := Counted(s, pid, sock);
    CountedLater(s, pid, sock, b, due);
    if s1.socks[sock].refs == 0 {
      StaysAbroad(s, s1, b, due);
      ReleaseLater(s1, sock, b, due);
      Trans(s, s1, DropRef(s, pid, sock), b, due);
    }
  }

  lemma DropSlot(s: Net, pid: nat, sock: nat)
    requires Inv(s) && sock < |s.socks| && Held(s.fdrefs, pid, sock) > 0
    ensures FdSlot(s.fdrefs, pid, sock) < |s.fdrefs| && Releasable(s.socks)
  {
    hide *;
    DropRefOk(s, pid, sock);
  }

  lemma CountedLater(s: Net, pid: nat, sock: nat, b: nat, due: nat)
    requires sock < |s.socks| && FdSlot(s.fdrefs, pid, sock) < |s.fdrefs| && b < |s.socks|
    ensures NotSooner(s, Counted(s, pid, sock), b, due)
  {
    hide FdSlot, Before;
  }

  lemma {:induction false} AddAllLater(s: Net, pid: nat, held: seq<nat>, b: nat, due: nat)
    requires b < |s.socks| && forall x :: 0 <= x < |held| ==> held[x] < |s.socks|
    ensures var r := AddAll(s, pid, held); r.Some? ==> NotSooner(s, r.value, b, due)
    decreases |held|
  {
    hide FdSlot, Before;
    if held != [] && FdSlot(s.fdrefs, pid, held[0]) < |s.fdrefs| {
      AddAllLater(AddRef(s, pid, held[0]), pid, held[1..], b, due);
    }
  }

  lemma {:induction false} DropTimesLater(s: Net, pid: nat, sock: nat, n: nat, b: nat, due: nat)
    requires Inv(s) && sock < |s.socks| && Held(s.fdrefs, pid, sock) >= n && Abroad(s, b, due)
    ensures var r := DropTimes(s, pid, sock, n); r.Some? ==> NotSooner(s, r.value, b, due)
    decreases n
  {
    hide Held, FdSlot, Inv, DropRef, Before, NotSooner;
    if n == 0 {
      Refl(s, b, due);
    } else {
      DropStep(s, pid, sock);
      DropLater(s, pid, sock, b, due);
      var t := DropRef(s, pid, sock);
      StaysAbroad(s, t, b, due);
      DropTimesLater(t, pid, sock, n - 1, b, due);
      if DropTimes(s, pid, sock, n).Some? { Trans(s, t, DropTimes(s, pid, sock, n).value, b, due); }
    }
  }

  lemma {:induction false} DropOldLater(s: Net, before: seq<FdRef>, pid: nat, sock: nat, b: nat, due: nat)
    requires Inv(s) && sock <= |s.socks| && Abroad(s, b, due)
    requires forall x: nat :: x >= sock ==> Held(s.fdrefs, pid, x) >= Held(before, pid, x)
    ensures var r := DropOld(s, before, pid, sock); r.Some? ==> NotSooner(s, r.value, b, due)
    decreases |s.socks| - sock
  {
    hide Held, Inv, DropTimes, Before, NotSooner;
    if sock == |s.socks| {
      Refl(s, b, due);
    } else {
      var n := Held(before, pid, sock);
      DropTimesOk(s, pid, sock, n);
      DropTimesLater(s, pid, sock, n, b, due);
      var t := DropTimes(s, pid, sock, n).value;
      StaysAbroad(s, t, b, due);
      DropOldLater(t, before, pid, sock + 1, b, due);
      if DropOld(s, before, pid, sock).Some? { Trans(s, t, DropOld(s, before, pid, sock).value, b, due); }
    }
  }

  lemma SetRefsLater(s: Net, pid: nat, held: seq<nat>, b: nat, due: nat)
    requires Inv(s) && AllReferenced(s.socks, held) && Abroad(s, b, due)
    ensures var r := SetRefs(s, pid, held); r.Some? ==> NotSooner(s, r.value, b, due)
  {
    hide Held, Inv, AddAll, DropOld, NotSooner;
    AddAllOk(s, pid, held);
    AddAllLater(s, pid, held, b, due);
    if AddAll(s, pid, held).Some? {
      var t := AddAll(s, pid, held).value;
      StaysAbroad(s, t, b, due);
      DropOldLater(t, s.fdrefs, pid, 0, b, due);
      if SetRefs(s, pid, held).Some? { Trans(s, t, SetRefs(s, pid, held).value, b, due); }
    }
  }

  predicate HasEnd(k: Sock) { k.state == Connected || k.state == Closed }

  /** Every end of a connection keeps its traffic, its host and its far end. */
  predicate EndsKept(s: Net, t: Net) {
    && |t.socks| == |s.socks| && t.now == s.now && t.latency == s.latency
    && forall i {:trigger t.socks[i]} :: (0 <= i < |s.socks| && HasEnd(s.socks[i])) ==>
         && t.socks[i].rx == s.socks[i].rx && t.socks[i].flight == s.socks[i].flight
         && t.socks[i].host == s.socks[i].host && t.socks[i].farEnd == s.socks[i].farEnd
  }

  lemma BindEnds(s: Net, sock: nat, addr: Addr)
    requires sock < |s.socks| && s.socks[sock].host < |s.hosts|
    ensures EndsKept(s, Bind(s, sock, addr).0)
  {
    hide BindPort, NameTaken;
  }

  lemma ListenEnds(s: Net, sock: nat, backlog: int)
    requires sock < |s.socks| && s.socks[sock].host < |s.hosts|
    ensures EndsKept(s, Listen(s, sock, backlog).0)
  {
    hide Bind;
    BindEnds(s, sock, InetAddr(0, 0));
  }

  lemma ConnectEnds(s: Net, sock: nat, destHost: nat, dest: Addr)
    requires sock < |s.socks| && s.socks[sock].host < |s.hosts|
    ensures EndsKept(s, Connect(s, sock, destHost, dest).0)
  {
    hide NearName, Prepared, Couple, IsListenerFor, EndsKept;
    var k := s.socks[sock];
    var l := FirstListener(s.socks, destHost, k.kind, k.family, dest, 0);
    SameEnds(s, s);
    if (k.state == New || k.state == Bound) && l < |s.socks| && |s.socks[l].backlog| < s.socks[l].backlogMax {
      var (s1, near) := NearName(s, sock, dest);
      NearEnds(s, sock, dest);
      SameEnds(s, s1);
      if near.Ok? {
        PreparedEnds(s1, sock, near.value, destHost);
        var (s3, made) := Prepared(s1, sock, near.value, destHost);
        ToEnds(s, s1, s3);
        if made.Ok? { CoupleEnds(s, s3, sock, made.value, l, near.value, FarName(k.family, s.socks[l].local, dest)); }
      }
    }
  }

  lemma SameEnds(s: Net, t: Net)
    requires t.socks == s.socks && t.now == s.now && t.latency == s.latency
    ensures EndsKept(s, t)
  {
  }

  lemma ToEnds(s: Net, t: Net, u: Net)
    requires t.socks == s.socks && t.now == s.now && t.latency == s.latency && EndsKept(t, u)
    ensures EndsKept(s, u)
  {
  }

  lemma NearEnds(s: Net, sock: nat, dest: Addr)
    requires sock < |s.socks| && s.socks[sock].host < |s.hosts|
    ensures var t := NearName(s, sock, dest).0; t.socks == s.socks && t.now == s.now && t.latency == s.latency
  {
    hide EphemeralPort;
  }

  lemma CoupleEnds(s: Net, u: Net, near: nat, far: nat, l: nat, x: Addr, y: Addr)
    requires EndsKept(s, u) && near < |s.socks| && far < |s.socks| && l < |s.socks|
    requires forall i :: i == near || i == far ==> s.socks[i].state != Connected && s.socks[i].state != Closed
    ensures EndsKept(s, Couple(u, near, far, l, x, y))
  {
  }

  lemma PreparedEnds(s: Net, sock: nat, near: Addr, destHost: nat)
    requires sock < |s.socks|
    ensures var (u, r) := Prepared(s, sock, near, destHost);
            EndsKept(s, u) && (r.Ok? ==> s.socks[r.value].state == Free || r.value == sock)
  {
  }

  lemma NewEnds(s: Net, host: nat, family: Family, kind: Kind)
    ensures EndsKept(s, NewSocket(s, host, family, kind).0)
  {
  }

  lemma AcceptEnds(s: Net, sock: nat)
    requires sock < |s.socks|
    ensures EndsKept(s, Accept(s, sock).0)
  {
  }

  lemma ConnectDgramEnds(s: Net, sock: nat, dest: Addr)
    requires sock < |s.socks| && s.socks[sock].host < |s.hosts|
    ensures EndsKept(s, ConnectDgram(s, sock, dest).0)
  {
    hide Bind;
    BindEnds(s, sock, InetAddr(0, 0));
  }

  lemma RecvDgramEnds(s: Net, sock: nat, want: nat, peek: bool)
    requires sock < |s.socks| && (s.socks[sock].rx != [] ==> DgramHead(s.socks[sock].rx))
    requires s.socks[sock].state != Connected && s.socks[sock].state != Closed
    ensures EndsKept(s, RecvDgram(s, sock, want, peek).0)
  {
    hide DgramHead, DgramSize, DgramData, DgramFrom;
  }

  lemma AddRefEnds(s: Net, pid: nat, sock: nat)
    requires sock < |s.socks| && FdSlot(s.fdrefs, pid, sock) < |s.fdrefs|
    ensures EndsKept(s, AddRef(s, pid, sock))
  {
    hide FdSlot;
  }

  // ---- one step --------------------------------------------------------------------

  /** What `b` gets before `due`, given out or not, is what it would have got. */
  ghost predicate Sooner(s: Net, op: NR.Op, b: nat, due: nat)
    requires Inv(s) && NR.Enabled(s, op)
  {
    var t := NR.Step(s, op).0;
    b < |s.socks| == |t.socks| && t.latency == s.latency
      && Soon(s.socks[b], due) == NR.Returned(s, op, b) + Soon(t.socks[b], due)
  }

  lemma EndsSooner(s: Net, op: NR.Op, b: nat, due: nat)
    requires Inv(s) && NR.Enabled(s, op) && Abroad(s, b, due) && s.socks[b].state == Connected
    requires !op.OpRecv? && EndsKept(s, NR.Step(s, op).0)
    ensures Sooner(s, op, b, due) && Abroad(NR.Step(s, op).0, b, due)
  {
    FarIsOpen(s, b);
    hide *;
    EndsStay(s, NR.Step(s, op).0, b, due);
    IsSooner(s, op, b, due);
  }

  lemma EndsStay(s: Net, t: Net, b: nat, due: nat)
    requires EndsKept(s, t) && Abroad(s, b, due) && s.socks[b].state == Connected
    requires var f := s.socks[b].farEnd; s.socks[f].state == Connected || s.socks[f].state == Closed
    ensures Abroad(t, b, due) && |s.socks| == |t.socks| && t.latency == s.latency
    ensures Soon(t.socks[b], due) == Soon(s.socks[b], due)
  {
    hide Before;
    assert t.socks[b].rx == s.socks[b].rx;
    assert t.socks[s.socks[b].farEnd].host == s.socks[s.socks[b].farEnd].host;
  }

  lemma FarIsOpen(s: Net, b: nat)
    requires Inv(s) && b < |s.socks| && s.socks[b].state == Connected
    ensures var f := s.socks[b].farEnd;
            f < |s.socks| && f != b && s.socks[f].farEnd == b
            && (s.socks[f].state == Connected || s.socks[f].state == Closed)
    ensures s.socks[b].kind == Stream
  {
    hide Queues, RefsAgree;
    assert Linked(s.socks, b) && SockOk(s.socks[b]);
  }

  lemma LaterSooner(s: Net, op: NR.Op, b: nat, due: nat)
    requires Inv(s) && NR.Enabled(s, op) && Abroad(s, b, due) && !op.OpRecv? && NotSooner(s, NR.Step(s, op).0, b, due)
    ensures Sooner(s, op, b, due) && Abroad(NR.Step(s, op).0, b, due)
  {
    hide *;
    StaysAbroad(s, NR.Step(s, op).0, b, due);
    SoonStays(s, NR.Step(s, op).0, b, due);
    IsSooner(s, op, b, due);
  }

  lemma SoonStays(s: Net, t: Net, b: nat, due: nat)
    requires NotSooner(s, t, b, due)
    ensures b < |s.socks| == |t.socks| && t.latency == s.latency && Soon(t.socks[b], due) == Soon(s.socks[b], due)
  {
    hide Before;
  }

  lemma IsSooner(s: Net, op: NR.Op, b: nat, due: nat)
    requires Inv(s) && NR.Enabled(s, op) && !op.OpRecv?
    requires var t := NR.Step(s, op).0;
             b < |s.socks| == |t.socks| && t.latency == s.latency && Soon(t.socks[b], due) == Soon(s.socks[b], due)
    ensures Sooner(s, op, b, due)
  {
    hide Inv, NR.Enabled, NR.Step, Soon;
    assert [] + Soon(s.socks[b], due) == Soon(s.socks[b], due);
  }

  lemma SendSooner(s: Net, sock: nat, data: seq<Byte>, b: nat, due: nat)
    requires Inv(s) && sock < |s.socks| && Abroad(s, b, due) && FarEndsInTable(s.socks)
    ensures NotSooner(s, Send(s, sock, data).0, b, due)
  {
    Refl(s, b, due);
    var k := s.socks[sock];
    if k.state == Connected {
      LinkedMutual(s, sock, b);
      hide Inv, Deliver, NotSooner;
      DeliverLater(s, k.host, k.farEnd, PBytes(data), b, due);
    }
  }

  lemma ShutdownSooner(s: Net, sock: nat, read: bool, write: bool, b: nat, due: nat)
    requires Inv(s) && sock < |s.socks| && Abroad(s, b, due) && FarEndsInTable(s.socks)
    requires sock == b ==> !read
    ensures NotSooner(s, Shutdown(s, sock, read, write).0, b, due)
  {
    Refl(s, b, due);
    var k := s.socks[sock];
    if k.state == Connected {
      FarIsOpen(s, sock);
      LinkedMutual(s, sock, b);
      hide Inv, Deliver, NotSooner;
      var s1 := if read then WrBump(SetSock(s, sock, k.(shutRd := true, rx := [])), k.farEnd) else s;
      if read {
        var s0 := SetSock(s, sock, k.(shutRd := true, rx := []));
        TouchLater(s, sock, k.(shutRd := true, rx := []), b, due);
        TouchLater(s0, k.farEnd, s0.socks[k.farEnd].(wrEvents := s0.socks[k.farEnd].wrEvents + 1), b, due);
        Trans(s, s0, s1, b, due);
      }
      if write && !s1.socks[sock].shutWr {
        var s2 := SetSock(s1, sock, s1.socks[sock].(shutWr := true));
        TouchLater(s1, sock, s1.socks[sock].(shutWr := true), b, due);
        Trans(s, s1, s2, b, due);
        StaysAbroad(s, s2, b, due);
        DeliverLater(s2, k.host, k.farEnd, PFin, b, due);
        Trans(s, s2, Deliver(s2, k.host, k.farEnd, PFin).0, b, due);
      }
    }
  }

  lemma SendDgramSooner(s: Net, sock: nat, to: Option<(nat, Addr)>, data: seq<Byte>, b: nat, due: nat)
    requires Inv(s) && sock < |s.socks| && s.socks[sock].host < |s.hosts| && Abroad(s, b, due)
    requires s.socks[b].state == Connected
    ensures NotSooner(s, SendDgram(s, sock, to, data).0, b, due)
  {
    FarIsOpen(s, b);
    hide Inv, Bind, NotSooner, DgramRoute, Dispatch;
    Refl(s, b, due);
    var (u, bound) := BindIfNew(s, sock);
    BindEnds(s, sock, InetAddr(0, 0));
    if |data| <= MAX_DGRAM && s.socks[sock].host < |s.hosts| {
      BindLater(s, sock, b, due);
      StaysAbroad(s, u, b, due);
      if bound.Ok? && DgramRoute(u, u.socks[sock], to).Some? {
        var route := DgramRoute(u, u.socks[sock], to).value;
        DispatchLater(u, u.socks[sock], route, data, b, due);
        Trans(s, u, Dispatch(u, u.socks[sock], route, data).0, b, due);
      }
    }
  }

  lemma BindLater(s: Net, sock: nat, b: nat, due: nat)
    requires sock < |s.socks| && s.socks[sock].host < |s.hosts| && b < |s.socks|
    ensures NotSooner(s, BindIfNew(s, sock).0, b, due)
    ensures BindIfNew(s, sock).0.socks[b].kind == s.socks[b].kind
  {
    hide Before, BindPort, NameTaken;
  }

  lemma DispatchLater(s: Net, k: Sock, route: (nat, Addr, Addr), data: seq<Byte>, b: nat, due: nat)
    requires Abroad(s, b, due) && s.socks[b].kind == Stream
    ensures NotSooner(s, Dispatch(s, k, route, data).0, b, due)
  {
    Refl(s, b, due);
    hide Deliver, Before;
    var t := FirstReceiver(s.socks, route.0, k.family, route.1, route.2, 0);
    if t < |s.socks| {
      assert t != b;
      DeliverLater(s, k.host, t, PDatagram(route.2, data), b, due);
    }
  }

  /** Taking bytes off `b`, or another socket's */
  lemma RecvSooner(s: Net, op: NR.Op, b: nat, due: nat)
    requires Inv(s) && NR.Enabled(s, op) && op.OpRecv? && Abroad(s, b, due) && s.socks[b].state == Connected
    ensures Sooner(s, op, b, due) && Abroad(NR.Step(s, op).0, b, due)
  {
    NR.Reachable(s, op);
    if s.socks[op.sock].state == Connected { FarIsOpen(s, op.sock); }
    hide *;
    hide Recv, Soon, Before;
    RecvTakes(s, op.sock, op.want, op.peek, b, due);
    RecvIs(s, op, b, due);
  }

  lemma RecvIs(s: Net, op: NR.Op, b: nat, due: nat)
    requires Inv(s) && NR.Enabled(s, op) && op.OpRecv? && b < |s.socks| && op.sock < |s.socks|
      && FarEndsInTable(s.socks)
    requires var (t, r) := Recv(s, op.sock, op.want, op.peek);
             && |t.socks| == |s.socks| && t.latency == s.latency
             && Soon(s.socks[b], due)
                == (if op.sock == b && !op.peek && r.Ok? then r.value else []) + Soon(t.socks[b], due)
    ensures Sooner(s, op, b, due) && NR.Step(s, op).0 == Recv(s, op.sock, op.want, op.peek).0
  {
    hide Inv, Recv, Soon;
  }

  lemma RecvTakes(s: Net, sock: nat, want: nat, peek: bool, b: nat, due: nat)
    requires sock < |s.socks| && Abroad(s, b, due) && s.socks[b].state == Connected
    requires s.socks[sock].state == Connected ==> s.socks[sock].farEnd < |s.socks| && s.socks[sock].farEnd != sock
    ensures var (t, r) := Recv(s, sock, want, peek);
            && |t.socks| == |s.socks| && t.latency == s.latency && Abroad(t, b, due)
            && Soon(s.socks[b], due)
               == (if sock == b && !peek && r.Ok? then r.value else []) + Soon(t.socks[b], due)
  {
    hide Before;
    var rx := s.socks[b].rx;
    var n := Min(want, |rx|);
    assert rx == rx[..n] + rx[n..];
    assert rx + Before(s.socks[b].flight, due) == rx[..n] + (rx[n..] + Before(s.socks[b].flight, due));
    assert [] + Soon(s.socks[b], due) == Soon(s.socks[b], due);
  }

  /** What lands before `due` is what was to land by then. */
  lemma AdvanceSooner(s: Net, op: NR.Op, b: nat, due: nat)
    requires Inv(s) && NR.Enabled(s, op) && op.OpAdvance? && op.now < due && op.now + s.latency >= due
    requires Abroad(s, b, due) && s.socks[b].state == Connected
    ensures Sooner(s, op, b, due) && Abroad(NR.Step(s, op).0, b, due)
  {
    NR.Reachable(s, op);
    FarIsOpen(s, b);
    AdvanceLatency(s, op.now);
    var t, k := Advance(s, op.now).0, s.socks[b];
    StreamRecs(s, b, DueCount(k.flight, op.now));
    hide *;
    CalmAt(s, op.now, b);
    CalmAt(s, op.now, k.farEnd);
    LandsSooner(k, t.socks[b], op.now, due);
    MovedSooner(s, op, b, due);
    AbroadStays(s, t, b, due);
  }

  lemma AbroadStays(s: Net, t: Net, b: nat, due: nat)
    requires Abroad(s, b, due) && |t.socks| == |s.socks| && t.latency == s.latency && t.now + t.latency >= due
    requires SameShape(s.socks[b], t.socks[b])
    requires SameShape(s.socks[s.socks[b].farEnd], t.socks[s.socks[b].farEnd])
    ensures Abroad(t, b, due)
  {
  }

  lemma MovedSooner(s: Net, op: NR.Op, b: nat, due: nat)
    requires Inv(s) && NR.Enabled(s, op) && op.OpAdvance? && FarEndsInTable(s.socks) && b < |s.socks|
    requires var t := Advance(s, op.now).0;
             |t.socks| == |s.socks| && t.latency == s.latency && Soon(t.socks[b], due) == Soon(s.socks[b], due)
    ensures Sooner(s, op, b, due) && NR.Step(s, op).0 == Advance(s, op.now).0
  {
    hide Inv, Soon, Advance;
    assert [] + Soon(s.socks[b], due) == Soon(s.socks[b], due);
  }

  lemma CalmAt(s: Net, now: nat, i: nat)
    requires Inv(s) && i < |s.socks| && FarEndsInTable(s.socks)
    ensures var t := Advance(s, now).0;
            && |t.socks| == |s.socks| && t.now == now && SameShape(s.socks[i], t.socks[i])
            && t.socks[i].flight == s.socks[i].flight[DueCount(s.socks[i].flight, now)..]
            && Landed(s.socks[i], t.socks[i], Due(s.socks[i], now))
  {
    hide Inv, Advance, Landed, SameShape;
    AdvanceOk(s, now);
    assert SameShape(s.socks[i], Advance(s, now).0.socks[i]);
  }

  lemma LandsSooner(k: Sock, m: Sock, now: nat, due: nat)
    requires now < due && Landed(k, m, Due(k, now)) && m.flight == k.flight[DueCount(k.flight, now)..]
    requires forall i {:trigger k.flight[..DueCount(k.flight, now)][i]} :: 0 <= i < DueCount(k.flight, now) ==>
               var r := k.flight[..DueCount(k.flight, now)][i]; r.kind == KBytes || (r.kind == KFin && r.body == [])
    ensures Soon(m, due) == Soon(k, due)
  {
    hide Before, RxAfter;
    var n := DueCount(k.flight, now);
    StreamsLand(k.rx, k.flight[..n]);
    BeforeSplit(k.flight, n, due);
  }

  lemma AdvanceLatency(s: Net, now: nat)
    requires Inv(s) && FarEndsInTable(s.socks)
    ensures Advance(s, now).0.latency == s.latency
  {
    CoreNow(s, now);
    hide Core;
    AdvanceFromOk(s.(now := now), 0, now);
  }

  lemma StreamRecs(s: Net, b: nat, n: nat)
    requires Inv(s) && b < |s.socks| && s.socks[b].kind == Stream && n <= |s.socks[b].flight|
    ensures forall i {:trigger s.socks[b].flight[..n][i]} :: 0 <= i < n ==>
              var r := s.socks[b].flight[..n][i]; r.kind == KBytes || (r.kind == KFin && r.body == [])
  {
    hide Links, Queues, RefsAgree;
    assert SockOk(s.socks[b]);
    hide DgramHead, DgramSize, WholeDgrams;
    forall i | 0 <= i < n
      ensures var r := s.socks[b].flight[..n][i]; r.kind == KBytes || (r.kind == KFin && r.body == [])
    {
      assert RecOk(Stream, s.socks[b].flight[i]);
    }
  }

  // ---- runs ----------------------------------------------------------------------------

  lemma StepSooner(s: Net, op: NR.Op, b: nat, due: nat)
    requires Inv(s) && NR.Enabled(s, op) && Abroad(s, b, due) && s.socks[b].state == Connected
    requires op.OpAdvance? ==> op.now < due && op.now + s.latency >= due
    requires op.OpShutdown? && op.sock == b ==> !op.read
    ensures Sooner(s, op, b, due) && Abroad(NR.Step(s, op).0, b, due)
  {
    hide *;
    if op.OpRecv? {
      RecvSooner(s, op, b, due);
    } else if op.OpAdvance? {
      AdvanceSooner(s, op, b, due);
    } else {
      OpensOr(s, op, b, due);
      if EndsKept(s, NR.Step(s, op).0) { EndsSooner(s, op, b, due); } else { LaterSooner(s, op, b, due); }
    }
  }

  lemma OpensOr(s: Net, op: NR.Op, b: nat, due: nat)
    requires Inv(s) && NR.Enabled(s, op) && Abroad(s, b, due) && s.socks[b].state == Connected
    requires !op.OpRecv? && !op.OpAdvance? && (op.OpShutdown? && op.sock == b ==> !op.read)
    ensures EndsKept(s, NR.Step(s, op).0) || NotSooner(s, NR.Step(s, op).0, b, due)
  {
    hide *;
    if op.OpSend? || op.OpShutdown? || op.OpSendDgram? {
      TrafficLater(s, op, b, due);
    } else if op.OpDropRef? || op.OpSetRefs? {
      RefsLater(s, op, b, due);
    } else {
      NamesKeep(s, op);
    }
  }

  lemma TrafficLater(s: Net, op: NR.Op, b: nat, due: nat)
    requires Inv(s) && NR.Enabled(s, op) && Abroad(s, b, due) && s.socks[b].state == Connected
    requires op.OpSend? || op.OpShutdown? || op.OpSendDgram?
    requires op.OpShutdown? && op.sock == b ==> !op.read
    ensures NotSooner(s, NR.Step(s, op).0, b, due)
  {
    NR.Reachable(s, op);
    hide Inv, NotSooner, Send, Shutdown, SendDgram, FdSlot, AddAll, Held, Releasable, Abroad;
    match op
    case OpSend(sock, data) => SendSooner(s, sock, data, b, due);
    case OpShutdown(sock, rd, wr) => ShutdownSooner(s, sock, rd, wr, b, due);
    case OpSendDgram(sock, to, data) => SendDgramSooner(s, sock, to, data, b, due);
  }

  lemma RefsLater(s: Net, op: NR.Op, b: nat, due: nat)
    requires Inv(s) && NR.Enabled(s, op) && Abroad(s, b, due) && (op.OpDropRef? || op.OpSetRefs?)
    ensures NotSooner(s, NR.Step(s, op).0, b, due)
  {
    NR.Reachable(s, op);
    hide Inv, NotSooner, DropRef, SetRefs, FdSlot, AddAll, Held, Releasable, Abroad;
    match op
    case OpDropRef(pid, sock) => DropLater(s, pid, sock, b, due);
    case OpSetRefs(pid, held) => SetRefsLater(s, pid, held, b, due);
  }

  lemma NamesKeep(s: Net, op: NR.Op)
    requires Inv(s) && NR.Enabled(s, op) && !op.OpRecv? && !op.OpAdvance? && !op.OpSend? && !op.OpShutdown?
    requires !op.OpSendDgram? && !op.OpDropRef? && !op.OpSetRefs?
    ensures EndsKept(s, NR.Step(s, op).0)
  {
    NR.Reachable(s, op);
    hide Inv, EndsKept, NewSocket, Bind, Listen, Connect, Accept, ConnectDgram, RecvDgram, AddRef, FdSlot, AddAll,
         Held, Releasable;
    match op
    case OpSocket(host, family, kind) => NewEnds(s, host, family, kind);
    case OpBind(sock, addr) => BindEnds(s, sock, addr);
    case OpListen(sock, backlog) => ListenEnds(s, sock, backlog);
    case OpConnect(sock, host, dest) => ConnectEnds(s, sock, host, dest);
    case OpAccept(sock) => AcceptEnds(s, sock);
    case OpConnectDgram(sock, dest) => ConnectDgramEnds(s, sock, dest);
    case OpRecvDgram(sock, want, peek) => NoStream(s, sock); RecvDgramEnds(s, sock, want, peek);
    case OpAddRef(pid, sock) => AddRefEnds(s, pid, sock);
  }

  lemma NoStream(s: Net, sock: nat)
    requires Inv(s) && sock < |s.socks| && s.socks[sock].kind == Dgram
    ensures s.socks[sock].state != Connected && s.socks[sock].state != Closed
  {
    hide Links, Queues, RefsAgree;
    assert SockOk(s.socks[sock]);
  }

  /** The clock stays between these times. */
  predicate Within(ops: seq<NR.Op>, from: nat, due: nat) {
    forall i :: 0 <= i < |ops| && ops[i].OpAdvance? ==> from <= ops[i].now < due
  }

  lemma OpenNow(s: Net, ops: seq<NR.Op>, b: nat)
    requires Inv(s) && NR.Runs(s, ops) && NR.OpenThroughout(s, ops, b)
    ensures b < |s.socks| && s.socks[b].state == Connected && !s.socks[b].shutRd
  {
  }

  lemma StaysUnshut(s: Net, ops: seq<NR.Op>, b: nat)
    requires Inv(s) && NR.Runs(s, ops) && NR.OpenThroughout(s, ops, b) && ops != []
    ensures !(ops[0].OpShutdown? && ops[0].sock == b && ops[0].read)
  {
    hide Inv, NR.Step, NR.Enabled, NR.Conserves;
    NR.StepOk(s, ops[0]);
    OpenNow(s, ops, b);
    OpenNow(NR.Step(s, ops[0]).0, ops[1..], b);
    if ops[0].OpShutdown? && ops[0].sock == b && ops[0].read { ReadSideShut(s, ops[0], b); }
  }

  lemma SoonerMeans(s: Net, op: NR.Op, b: nat, due: nat)
    requires Inv(s) && NR.Enabled(s, op) && Sooner(s, op, b, due)
    ensures var t := NR.Step(s, op).0;
            b < |s.socks| == |t.socks| && t.latency == s.latency
            && Soon(s.socks[b], due) == NR.Returned(s, op, b) + Soon(t.socks[b], due)
  {
  }

  lemma ReadSideShut(s: Net, op: NR.Op, b: nat)
    requires Inv(s) && NR.Enabled(s, op) && op.OpShutdown? && op.sock == b && op.read
    requires b < |s.socks| && s.socks[b].state == Connected
    ensures var t := NR.Step(s, op).0; b < |t.socks| && t.socks[b].shutRd
  {
    NR.Reachable(s, op);
    FarIsOpen(s, b);
    hide Inv, EncDgram;
  }

  lemma {:induction false} SoonConserved(s: Net, ops: seq<NR.Op>, b: nat, from: nat, due: nat)
    requires Inv(s) && NR.Runs(s, ops) && NR.OpenThroughout(s, ops, b)
    requires Abroad(s, b, due) && Within(ops, from, due) && from + s.latency >= due
    ensures b < |NR.After(s, ops).socks|
    ensures Soon(s.socks[b], due) == NR.AllReturned(s, ops, b) + Soon(NR.After(s, ops).socks[b], due)
    decreases |ops|
  {
    hide Inv, NR.Step, NR.Enabled, Soon, Abroad, NR.Conserves, NR.Returned, Sooner;
    if ops == [] {
      assert [] + Soon(s.socks[b], due) == Soon(s.socks[b], due);
    } else {
      NR.StepOk(s, ops[0]);
      OpenNow(s, ops, b);
      StaysUnshut(s, ops, b);
      StepSooner(s, ops[0], b, due);
      var t := NR.Step(s, ops[0]).0;
      SoonerMeans(s, ops[0], b, due);
      SoonConserved(t, ops[1..], b, from, due);
    }
  }

  /** Over any run in which the clock moves by less than the latency: the
      reader of a connection to another host has been given, and has in its
      ring, nothing but what was pending at the start; whatever the far end has
      sent since is still on its way. */
  lemma NothingEarly(s: Net, ops: seq<NR.Op>, b: nat)
    requires Inv(s) && NR.Runs(s, ops) && NR.OpenThroughout(s, ops, b)
    requires s.socks[b].farEnd < |s.socks| && s.socks[s.socks[b].farEnd].host != s.socks[b].host
    requires s.latency > 0 && Within(ops, s.now, s.now + s.latency)
    ensures b < |NR.After(s, ops).socks|
    ensures NR.AllReturned(s, ops, b) + NR.After(s, ops).socks[b].rx <= Pending(s.socks[b])
    ensures |FlBytes(NR.After(s, ops).socks[b].flight)| >= |NR.AllAccepted(s, ops, b)|
  {
    hide Inv, NR.Runs, NR.OpenThroughout, NR.After, NR.AllReturned, NR.AllAccepted, Before, FlBytes;
    OpenNow(s, ops, b);
    var due := s.now + s.latency;
    SoonConserved(s, ops, b, s.now, due);
    NR.StreamFifo(s, ops, b);
    var k, m := s.socks[b], NR.After(s, ops).socks[b];
    var r := NR.AllReturned(s, ops, b);
    BeforeIsPrefix(k.flight, due);
    assert Soon(k, due) == (r + m.rx) + Before(m.flight, due);
    assert k.rx + Before(k.flight, due) <= k.rx + FlBytes(k.flight);
    assert r + m.rx <= Pending(k);
    assert |Pending(k)| + |NR.AllAccepted(s, ops, b)| == |r| + (|m.rx| + |FlBytes(m.flight)|);
  }
}

/** Calls on the network take no time: the clock stands, and what a call sends
    is not due at the head of a flight ring before it has moved. */
module NetLater {
  import opened Wrappers
  import opened NetTypes
  import opened NetSpec
  import opened NetInv
  import opened NetRefs
  import opened Wire
  import NR = NetRun

  /** Nothing at the head of a flight ring is due. */
  predicate Later(s: Net) {
    forall i {:trigger s.socks[i]} :: 0 <= i < |s.socks| && s.socks[i].flight != [] ==> s.socks[i].flight[0].due > s.now
  }

  predicate OnTime(s: Net, t: Net) { t.now == s.now && t.latency == s.latency && (Later(s) ==> Later(t)) }

  lemma DeliverOnTime(s: Net, host: nat, dst: nat, p: Payload)
    requires dst < |s.socks|
    ensures OnTime(s, Deliver(s, host, dst, p).0)
    ensures |Deliver(s, host, dst, p).0.socks| == |s.socks|
  {
  }

  /** A change that leaves a socket's flight ring alone */
  lemma TouchOnTime(s: Net, i: nat, k: Sock)
    requires i < |s.socks| && k.flight == s.socks[i].flight
    ensures OnTime(s, SetSock(s, i, k))
  {
  }

  lemma ResetOnTime(s: Net, q: nat)
    requires q < |s.socks| && s.socks[q].farEnd < |s.socks|
    ensures OnTime(s, ResetQueued(s, q))
  {
    hide Deliver, Later;
    var near := s.socks[q].farEnd;
    if s.socks[near].state == Closed {
      TouchOnTime(s, near, s.socks[near].(state := Free));
      var s1 := SetSock(s, near, s.socks[near].(state := Free));
      TouchOnTime(s1, q, s1.socks[q].(state := Free));
    } else {
      DeliverOnTime(s, s.socks[q].host, near, PFin);
      EndOnTime(Deliver(s, s.socks[q].host, near, PFin).0, q, near);
    }
  }

  /** One end learns of it and the other is closed. */
  lemma EndOnTime(s: Net, a: nat, b: nat)
    requires a < |s.socks| && b < |s.socks|
    ensures OnTime(s, SetSock(WrBump(s, b), a, WrBump(s, b).socks[a].(state := Closed)))
  {
    hide Later;
    TouchOnTime(s, b, s.socks[b].(wrEvents := s.socks[b].wrEvents + 1));
    var s1 := WrBump(s, b);
    TouchOnTime(s1, a, s1.socks[a].(state := Closed));
  }

  lemma {:induction false} QueueOnTime(s: Net, queue: seq<nat>)
    requires forall x :: 0 <= x < |queue| ==> queue[x] < |s.socks| && s.socks[queue[x]].farEnd < |s.socks|
    ensures OnTime(s, ResetAll(s, queue))
    decreases |queue|
  {
    hide ResetQueued;
    if queue != [] {
      ResetOnTime(s, queue[0]);
      QueueOnTime(ResetQueued(s, queue[0]), queue[1..]);
    }
  }

  lemma ReleaseOnTime(s: Net, sock: nat)
    requires sock < |s.socks| && Releasable(s.socks)
    ensures OnTime(s, Release(s, sock))
  {
    hide Deliver, ResetAll, Later;
    var k := s.socks[sock];
    match k.state
    case Listening =>
      QueueOnTime(s, k.backlog);
      var s1 := ResetAll(s, k.backlog);
      TouchOnTime(s1, sock, s1.socks[sock].(state := Free));
    case Connected =>
      var peer := k.farEnd;
      if s.socks[peer].state == Closed {
        TouchOnTime(s, peer, s.socks[peer].(state := Free));
        var s1 := SetSock(s, peer, s.socks[peer].(state := Free));
        TouchOnTime(s1, sock, s1.socks[sock].(state := Free));
      } else {
        DeliverOnTime(s, k.host, peer, PFin);
        EndOnTime(if k.shutWr then s else Deliver(s, k.host, peer, PFin).0, sock, peer);
      }
    case _ => TouchOnTime(s, sock, k.(state := Free));
  }

  lemma CountedOnTime(s: Net, pid: nat, sock: nat)
    requires sock < |s.socks| && FdSlot(s.fdrefs, pid, sock) < |s.fdrefs|
    ensures OnTime(s, Counted(s, pid, sock))
  {
    hide FdSlot;
  }

  lemma DropOnTime(s: Net, pid: nat, sock: nat)
    requires sock < |s.socks| && FdSlot(s.fdrefs, pid, sock) < |s.fdrefs| && Releasable(s.socks)
    ensures OnTime(s, DropRef(s, pid, sock))
  {
    hide FdSlot, Release, Later;
    var s1 := Counted(s, pid, sock);
    CountedOnTime(s, pid, sock);
    if s1.socks[sock].refs == 0 { ReleaseOnTime(s1, sock); }
  }

  lemma {:induction false} AddAllOnTime(s: Net, pid: nat, held: seq<nat>)
    requires forall x :: 0 <= x < |held| ==> held[x] < |s.socks|
    ensures var r := AddAll(s, pid, held); r.Some? ==> OnTime(s, r.value)
    decreases |held|
  {
    hide FdSlot;
    if held != [] && FdSlot(s.fdrefs, pid, held[0]) < |s.fdrefs| {
      AddAllOnTime(AddRef(s, pid, held[0]), pid, held[1..]);
    }
  }

  lemma {:induction false} DropTimesOnTime(s: Net, pid: nat, sock: nat, n: nat)
    requires sock < |s.socks|
    ensures var r := DropTimes(s, pid, sock, n); r.Some? ==> OnTime(s, r.value)
    decreases n
  {
    hide Releasable, FdSlot, Later;
    if n > 0 && FdSlot(s.fdrefs, pid, sock) < |s.fdrefs| && Releasable(s.socks) {
      DropOnTime(s, pid, sock);
      DropTimesOnTime(DropRef(s, pid, sock), pid, sock, n - 1);
    }
  }

  lemma {:induction false} DropOldOnTime(s: Net, before: seq<FdRef>, pid: nat, sock: nat)
    requires sock <= |s.socks|
    ensures var r := DropOld(s, before, pid, sock); r.Some? ==> OnTime(s, r.value)
    decreases |s.socks| - sock
  {
    hide DropTimes, Held, Later;
    if sock < |s.socks| {
      var n := Held(before, pid, sock);
      DropTimesOnTime(s, pid, sock, n);
      var r := DropTimes(s, pid, sock, n);
      if r.Some? { DropOldOnTime(r.value, before, pid, sock + 1); }
    }
  }

  /** A process's sockets close in no time. */
  lemma SetRefsOnTime(s: Net, pid: nat, held: seq<nat>)
    requires forall x :: 0 <= x < |held| ==> held[x] < |s.socks|
    ensures var r := SetRefs(s, pid, held); r.Some? ==> OnTime(s, r.value)
  {
    hide AddAll, DropOld, Later;
    AddAllOnTime(s, pid, held);
    var r := AddAll(s, pid, held);
    if r.Some? { DropOldOnTime(r.value, s.fdrefs, pid, 0); }
  }

  // ---- the other calls ---------------------------------------------------------------

  /** No flight ring gains a record. */
  predicate NoneLaunched(s: Net, t: Net) {
    && t.now == s.now && t.latency == s.latency && |t.socks| == |s.socks|
    && forall i {:trigger t.socks[i]} :: 0 <= i < |s.socks| ==>
         t.socks[i].flight == s.socks[i].flight || t.socks[i].flight == []
  }

  lemma NoneOnTime(s: Net, t: Net)
    requires NoneLaunched(s, t)
    ensures OnTime(s, t)
  {
  }

  lemma NewSocketLaunches(s: Net, host: nat, family: Family, kind: Kind)
    ensures NoneLaunched(s, NewSocket(s, host, family, kind).0)
  {
  }

  lemma BindLaunches(s: Net, sock: nat, addr: Addr)
    requires sock < |s.socks| && s.socks[sock].host < |s.hosts|
    ensures NoneLaunched(s, Bind(s, sock, addr).0)
  {
    hide BindPort, NameTaken;
  }

  lemma ListenLaunches(s: Net, sock: nat, backlog: int)
    requires sock < |s.socks| && s.socks[sock].host < |s.hosts|
    ensures NoneLaunched(s, Listen(s, sock, backlog).0)
  {
    hide Bind;
    if s.socks[sock].kind == Stream && s.socks[sock].state == New && s.socks[sock].family == Inet {
      BindLaunches(s, sock, InetAddr(0, 0));
    }
  }

  lemma ConnectLaunches(s: Net, sock: nat, destHost: nat, dest: Addr)
    requires sock < |s.socks| && s.socks[sock].host < |s.hosts|
    ensures NoneLaunched(s, Connect(s, sock, destHost, dest).0)
  {
    hide NearName, Prepared, Couple;
    var k := s.socks[sock];
    if k.state == New || k.state == Bound {
      var l := FirstListener(s.socks, destHost, k.kind, k.family, dest, 0);
      if l < |s.socks| {
        var (s1, near) := NearName(s, sock, dest);
        NearLaunches(s, sock, dest);
        if near.Ok? {
          var (s3, made) := Prepared(s1, sock, near.value, destHost);
          PreparedLaunches(s1, sock, near.value, destHost);
          if made.Ok? {
            CoupleLaunches(s3, sock, made.value, l, near.value, FarName(k.family, s.socks[l].local, dest));
          }
        }
      }
    }
  }

  lemma NearLaunches(s: Net, sock: nat, dest: Addr)
    requires sock < |s.socks| && s.socks[sock].host < |s.hosts|
    ensures NoneLaunched(s, NearName(s, sock, dest).0)
  {
    hide EphemeralPort;
  }

  lemma PreparedLaunches(s: Net, sock: nat, near: Addr, destHost: nat)
    requires sock < |s.socks|
    ensures NoneLaunched(s, Prepared(s, sock, near, destHost).0)
  {
  }

  lemma CoupleLaunches(s: Net, near: nat, far: nat, l: nat, a: Addr, b: Addr)
    requires near < |s.socks| && far < |s.socks| && l < |s.socks|
    ensures NoneLaunched(s, Couple(s, near, far, l, a, b))
  {
  }

  lemma SendOnTime(s: Net, sock: nat, data: seq<Byte>)
    requires sock < |s.socks| && (s.socks[sock].state == Connected ==> s.socks[sock].farEnd < |s.socks|)
    ensures OnTime(s, Send(s, sock, data).0)
  {
    hide Deliver;
    if s.socks[sock].state == Connected { DeliverOnTime(s, s.socks[sock].host, s.socks[sock].farEnd, PBytes(data)); }
  }

  lemma RecvLaunches(s: Net, sock: nat, want: nat, peek: bool)
    requires sock < |s.socks| && (s.socks[sock].state == Connected ==> s.socks[sock].farEnd < |s.socks|)
    ensures NoneLaunched(s, Recv(s, sock, want, peek).0)
  {
  }

  lemma ShutdownOnTime(s: Net, sock: nat, read: bool, write: bool)
    requires sock < |s.socks| && (s.socks[sock].state == Connected ==> s.socks[sock].farEnd < |s.socks|)
    ensures OnTime(s, Shutdown(s, sock, read, write).0)
  {
    hide Deliver;
    var k := s.socks[sock];
    if k.state == Connected {
      var s1 := if read then WrBump(SetSock(s, sock, k.(shutRd := true, rx := [])), k.farEnd) else s;
      NoneOnTime(s, s1);
      var s2 := SetSock(s1, sock, s1.socks[sock].(shutWr := true));
      NoneOnTime(s1, s2);
      DeliverOnTime(s2, s1.socks[sock].host, s1.socks[sock].farEnd, PFin);
    }
  }

  lemma BindIfNewLaunches(s: Net, sock: nat)
    requires sock < |s.socks| && s.socks[sock].host < |s.hosts|
    ensures NoneLaunched(s, BindIfNew(s, sock).0)
  {
    hide Bind;
    BindLaunches(s, sock, InetAddr(0, 0));
  }

  lemma ConnectDgramLaunches(s: Net, sock: nat, dest: Addr)
    requires sock < |s.socks| && s.socks[sock].host < |s.hosts|
    ensures NoneLaunched(s, ConnectDgram(s, sock, dest).0)
  {
    hide BindIfNew;
    BindIfNewLaunches(s, sock);
  }

  lemma SendDgramOnTime(s: Net, sock: nat, dest: Option<(nat, Addr)>, data: seq<Byte>)
    requires sock < |s.socks| && s.socks[sock].host < |s.hosts|
    ensures OnTime(s, SendDgram(s, sock, dest, data).0)
  {
    hide BindIfNew, DgramRoute, Dispatch, Later;
    BindIfNewLaunches(s, sock);
    var s1 := BindIfNew(s, sock).0;
    NoneOnTime(s, s1);
    if |data| <= MAX_DGRAM && BindIfNew(s, sock).1.Ok? {
      var route := DgramRoute(s1, s1.socks[sock], dest);
      if route.Some? { DispatchOnTime(s1, s1.socks[sock], route.value, data); }
    }
  }

  lemma DispatchOnTime(s: Net, k: Sock, route: (nat, Addr, Addr), data: seq<Byte>)
    ensures OnTime(s, Dispatch(s, k, route, data).0)
  {
    hide Deliver;
    var t := FirstReceiver(s.socks, route.0, k.family, route.1, route.2, 0);
    if t < |s.socks| { DeliverOnTime(s, k.host, t, PDatagram(route.2, data)); }
  }

  /** Every call a process can make leaves the clock alone, and nothing due. */
  lemma StepOnTime(s: Net, op: NR.Op)
    requires Inv(s) && NR.Enabled(s, op) && !op.OpAdvance?
    ensures OnTime(s, NR.Step(s, op).0)
  {
    hide Inv, OnTime, NoneLaunched, NewSocket, Bind, Listen, Connect, Accept, Send, Recv, Shutdown, ConnectDgram,
         SendDgram, RecvDgram, AddRef, DropRef, SetRefs, FdSlot, Held, AddAll, Releasable;
    NR.Reachable(s, op);
    var t := NR.Step(s, op).0;
    match op
    case OpSocket(host, family, kind) => NewSocketLaunches(s, host, family, kind); NoneOnTime(s, t);
    case OpBind(sock, addr) => BindLaunches(s, sock, addr); NoneOnTime(s, t);
    case OpListen(sock, backlog) => ListenLaunches(s, sock, backlog); NoneOnTime(s, t);
    case OpConnect(sock, host, dest) => ConnectLaunches(s, sock, host, dest); NoneOnTime(s, t);
    case OpAccept(sock) => AcceptLaunches(s, sock); NoneOnTime(s, t);
    case OpSend(sock, data) => SendOnTime(s, sock, data);
    case OpRecv(sock, want, peek) => RecvLaunches(s, sock, want, peek); NoneOnTime(s, t);
    case OpShutdown(sock, rd, wr) => ShutdownOnTime(s, sock, rd, wr);
    case OpConnectDgram(sock, dest) => ConnectDgramLaunches(s, sock, dest); NoneOnTime(s, t);
    case OpSendDgram(sock, to, data) => SendDgramOnTime(s, sock, to, data);
    case OpRecvDgram(sock, want, peek) => RecvDgramLaunches(s, sock, want, peek); NoneOnTime(s, t);
    case OpAddRef(pid, sock) => AddRefLaunches(s, pid, sock); NoneOnTime(s, t);
    case OpDropRef(pid, sock) => DropOnTime(s, pid, sock);
    case OpSetRefs(pid, held) => SetRefsOnTime(s, pid, held);
  }

  lemma AcceptLaunches(s: Net, sock: nat)
    requires sock < |s.socks|
    ensures NoneLaunched(s, Accept(s, sock).0)
  {
  }

  lemma RecvDgramLaunches(s: Net, sock: nat, want: nat, peek: bool)
    requires sock < |s.socks| && (s.socks[sock].rx != [] ==> DgramHead(s.socks[sock].rx))
    ensures NoneLaunched(s, RecvDgram(s, sock, want, peek).0)
  {
    hide DgramHead, DgramSize, DgramData, DgramFrom;
  }

  lemma AddRefLaunches(s: Net, pid: nat, sock: nat)
    requires sock < |s.socks| && FdSlot(s.fdrefs, pid, sock) < |s.fdrefs|
    ensures NoneLaunched(s, AddRef(s, pid, sock))
  {
    hide FdSlot;
  }
}

/** The virtual network as it lies in shared memory: a fixed table of records
    with ring buffers, changed in place. Every method is the operation of
    `NetSpec` on the state the table stands for. */
module NetTable {
  import opened Wrappers
  import opened NetTypes
  import opened Wire
  import opened Rings
  import opened NetSpec
  import opened NetInv
  import opened NetSteps
  import opened NetTime
  import opened NetClose
  import opened NetRefs
  import opened NetProcs
  import opened NetLater
  import NetRun

  function AbsAll(k: seq<CSock>, f: seq<seq<Rec>>): (r: seq<Sock>)
    requires |k| == |f| && forall i :: 0 <= i < |k| ==> COk(k[i], f[i])
    ensures |r| == |k|
  {
    seq(|k|, i requires 0 <= i < |k| => Abs(k[i], f[i]))
  }

  const ZEROED := CSock(Free, Stream, Inet, false, false, false, false, 0, 0, 0, NO_ADDR, NO_ADDR,
                        seq(BACKLOG, _ => 0), 0, 0, 0, 0, 0, 0, 0, 0, 0, seq(RING, _ => 0), seq(RING, _ => 0))

  function FreshC(c: CSock, host: nat, family: Family, kind: Kind): CSock {
    c.(state := New, kind := kind, family := family, fin := false, shutWr := false, shutRd := false,
       hasPeer := false, host := host, refs := 0, farEnd := NO_SOCK, local := NO_ADDR, peer := NO_ADDR,
       backlogLen := 0, backlogMax := 0, rxHead := 0, rxLen := 0, rdEvents := 0, wrEvents := 0,
       flHead := 0, flLen := 0, flStream := 0)
  }

  method ArriveOn(c: CSock, ghost f: seq<Rec>, p: Payload) returns (d: CSock, taken: nat)
    requires COk(c, f) && f == []
    ensures COk(d, f) && (Abs(d, f), taken) == ArriveAt(Abs(c, f), p)
  {
    d := c.(rdEvents := c.rdEvents + 1);
    assert COk(d, f) && Abs(d, f) == Abs(c, f).(rdEvents := c.rdEvents + 1);
    var free := RING - d.rxLen;
    taken := 0;
    match p {
      case PFin => d := d.(fin := true);
      case PBytes(data) =>
        taken := Min(|data|, free);
        d := RingPush(d, f, data[..taken]);
      case PDatagram(from, data) =>
        var enc := EncDgram(from, data);
        if |enc| <= free {
          d := RingPush(d, f, enc);
          taken := |data|;
        }
    }
  }

  class Table {
    const socks: array<CSock>
    const fdrefs: array<FdRef>
    var hosts: seq<Host>
    var now: nat
    var latency: nat
    var inFlight: nat
    var nextDue: nat
    var connections: nat
    var datagrams: nat
    var dropped: nat
    var bytes: nat
    /** The records each flight ring's bytes are read as */
    ghost var flights: seq<seq<Rec>>

    ghost predicate Valid()
      reads `flights, socks, fdrefs
    {
      && socks.Length == MAX_SOCKETS && fdrefs.Length == MAX_FDREFS && |flights| == MAX_SOCKETS
      && forall i :: 0 <= i < MAX_SOCKETS ==> COk(socks[i], flights[i])
    }

    ghost function View(): (s: Net)
      requires Valid()
      reads this, socks, fdrefs
      ensures |s.socks| == MAX_SOCKETS && |s.fdrefs| == MAX_FDREFS
    {
      Net(AbsAll(socks[..], flights), fdrefs[..], hosts, now, latency, inFlight, nextDue,
          connections, datagrams, dropped, bytes)
    }

    ghost function SockAt(i: nat): Sock
      requires Valid() && i < MAX_SOCKETS
      reads `flights, socks, fdrefs
    {
      Abs(socks[i], flights[i])
    }

    /** The zeroed shared memory a run starts from */
    constructor (hosts: seq<Host>, latency: nat)
      ensures Valid() && View() == NetRun.Zeroed(hosts, latency)
    {
      socks := new CSock[MAX_SOCKETS](_ => ZEROED);
      fdrefs := new FdRef[MAX_FDREFS](_ => FdRef(0, 0, 0));
      this.hosts, this.latency, now, inFlight, nextDue := hosts, latency, 0, 0, 0;
      connections, datagrams, dropped, bytes := 0, 0, 0, 0;
      flights := seq(MAX_SOCKETS, _ => []);
      new;
      assert COk(ZEROED, []);
      assert AbsAll(socks[..], flights) == NetRun.Zeroed(hosts, latency).socks;
    }

    /** A record and the socket it stands for agree on everything but traffic. */
    lemma Seen(i: nat)
      requires Valid() && i < MAX_SOCKETS
      ensures |View().socks| == MAX_SOCKETS == socks.Length && View().socks[i] == SockAt(i)
      ensures |socks[i].backlog| == BACKLOG && socks[i].backlogLen <= BACKLOG
      ensures Recast(View().socks[i], socks[i]) == View().socks[i]
    {
    }

    lemma SeenRings(i: nat)
      requires Valid() && i < MAX_SOCKETS
      ensures |View().socks| == MAX_SOCKETS == socks.Length == |flights| && View().socks[i].flight == flights[i]
      ensures |View().socks[i].rx| == socks[i].rxLen && FlLen(flights[i]) == socks[i].flLen <= RING
      ensures FlStream(flights[i]) == socks[i].flStream && socks[i].rxLen + socks[i].flStream <= RING
      ensures socks[i].flLen == 0 <==> flights[i] == []
    {
      FlightLen(socks[i], flights[i]);
    }

    lemma Scalars()
      requires Valid()
      ensures View().hosts == hosts && View().now == now && View().latency == latency
      ensures View().inFlight == inFlight && View().nextDue == nextDue && View().fdrefs == fdrefs[..]
      ensures |View().socks| == MAX_SOCKETS == socks.Length && fdrefs.Length == MAX_FDREFS
    {
    }

    /** One record of the table is written. */
    method Put(i: nat, c: CSock, ghost f: seq<Rec>)
      requires Valid() && i < MAX_SOCKETS && COk(c, f)
      modifies `flights, socks
      ensures Valid() && View() == SetSock(old(View()), i, Abs(c, f))
    {
      socks[i] := c;
      flights := flights[i := f];
      assert AbsAll(socks[..], flights) == old(AbsAll(socks[..], flights))[i := Abs(c, f)];
    }

    /** A record is written whose rings are as they were. */
    method PutPlain(i: nat, c: CSock)
      requires Valid() && i < MAX_SOCKETS && SameRings(socks[i], c)
      modifies `flights, socks
      ensures Valid()
      ensures View() == SetSock(old(View()), i, Recast(old(View()).socks[i], c))
    {
      PlainOk(socks[i], c, flights[i]);
      Put(i, c, flights[i]);
    }

    // ---- windows and deliveries -------------------------------------------

    method WindowOf(i: nat) returns (w: nat)
      requires Valid() && i < MAX_SOCKETS
      ensures w == Window(View().socks[i])
    {
      Seen(i);
      var d := socks[i];
      FlightLen(d, flights[i]);
      w := RING - d.rxLen - d.flStream;
      if d.flLen != 0 {
        w := Min(w, SatSub(RING - d.flLen, 2 * FLIGHT_HEADER));
      }
    }

    method Arrive(dst: nat, p: Payload) returns (taken: nat)
      requires Valid() && dst < MAX_SOCKETS && View().socks[dst].flight == []
      modifies `flights, `bytes, socks
      ensures Valid() && (View(), taken) == NetSpec.Arrive(old(View()), dst, p)
    {
      var d;
      d, taken := ArriveOn(socks[dst], flights[dst], p);
      Put(dst, d, flights[dst]);
      bytes := bytes + taken;
    }

    /** A record joins those in flight to `dst`. */
    method Fly(dst: nat, rec: Rec)
      requires Valid() && dst < MAX_SOCKETS && RecFits(rec)
      requires var d := View().socks[dst];
               FlLen(d.flight) + RecLen(rec) <= RING && |d.rx| + FlStream(d.flight) + StreamLen(rec) <= RING
      modifies `flights, `inFlight, `nextDue, socks
      ensures Valid() && var s, d := old(View()), old(View()).socks[dst];
              View() == SetSock(s, dst, d.(flight := d.flight + [rec]))
                        .(inFlight := s.inFlight + 1,
                          nextDue := if s.inFlight == 0 then rec.due else Min(s.nextDue, rec.due))
    {
      FlightLen(socks[dst], flights[dst]);
      var d := FlightPush(socks[dst], flights[dst], rec);
      Put(dst, d, flights[dst] + [rec]);
      inFlight := inFlight + 1;
      nextDue := if inFlight == 1 then rec.due else Min(nextDue, rec.due);
    }

    method Launch(dst: nat, due: nat, p: Payload) returns (taken: nat)
      requires Valid() && dst < MAX_SOCKETS && due < 0x1_0000_0000_0000_0000
      requires p.PFin? ==> FlLen(View().socks[dst].flight) + FLIGHT_HEADER <= RING
      modifies `flights, `inFlight, `nextDue, socks
      ensures Valid() && (View(), taken) == NetSpec.Launch(old(View()), dst, due, p)
    {
      hide Valid, View, AbsAll, COk, Abs, FlLen, FlStream;
      SeenRings(dst);
      var room := SatSub(RING - socks[dst].flLen, 2 * FLIGHT_HEADER);
      match p {
        case PFin =>
          taken := 0;
          Fly(dst, Rec(due, KFin, []));
        case PBytes(data) =>
          var window := WindowOf(dst);
          taken := Min(Min(|data|, window), room);
          if taken == 0 { return; }
          Fly(dst, Rec(due, KBytes, data[..taken]));
        case PDatagram(from, data) =>
          var enc := EncDgram(from, data);
          if |enc| > room { return 0; }
          Fly(dst, Rec(due, KDgram, enc));
          taken := |data|;
      }
    }

    method Deliver(srcHost: nat, dst: nat, p: Payload) returns (taken: nat)
      requires Valid() && dst < MAX_SOCKETS && View().now + View().latency < 0x1_0000_0000_0000_0000
      requires p.PFin? ==> FlLen(View().socks[dst].flight) + FLIGHT_HEADER <= RING
      modifies `flights, `inFlight, `nextDue, `bytes, socks
      ensures Valid() && (View(), taken) == NetSpec.Deliver(old(View()), srcHost, dst, p)
    {
      hide Valid, View, AbsAll, COk, Abs, FlLen, NetSpec.Arrive, NetSpec.Launch;
      Seen(dst);
      SeenRings(dst);
      Scalars();
      var delay := if socks[dst].host == srcHost then 0 else latency;
      if delay == 0 && socks[dst].flLen == 0 {
        taken := Arrive(dst, p);
      } else {
        taken := Launch(dst, now + delay, p);
      }
    }

    // ---- looking through the table ----------------------------------------

    method FindFree() returns (i: nat)
      requires Valid()
      ensures i == FirstFree(View().socks, 0)
    {
      i := 0;
      while i < MAX_SOCKETS && socks[i].state != Free
        invariant i <= MAX_SOCKETS && FirstFree(View().socks, 0) == FirstFree(View().socks, i)
      {
        i := i + 1;
      }
    }

    method IsNameTaken(host: nat, kind: Kind, addr: Addr) returns (taken: bool)
      requires Valid()
      ensures taken == NameTaken(View().socks, host, kind, addr)
    {
      hide COk;
      ghost var k := View().socks;
      for i := 0 to MAX_SOCKETS
        invariant forall j :: 0 <= j < i ==> !TakesName(k[j], host, kind, addr)
      {
        var s := socks[i];
        if (s.state == Bound || s.state == Listening) && s.host == host && s.kind == kind && SameName(s.local, addr) {
          assert TakesName(k[i], host, kind, addr);
          return true;
        }
      }
      return false;
    }

    method FindListener(host: nat, kind: Kind, family: Family, dest: Addr) returns (i: nat)
      requires Valid()
      ensures i == FirstListener(View().socks, host, kind, family, dest, 0)
    {
      hide COk;
      ghost var k := View().socks;
      i := 0;
      while i < MAX_SOCKETS
        invariant i <= MAX_SOCKETS
        invariant FirstListener(k, host, kind, family, dest, 0) == FirstListener(k, host, kind, family, dest, i)
      {
        var l := socks[i];
        if l.state == Listening && l.host == host && l.kind == kind && Reaches(family, l.local, dest) { return; }
        i := i + 1;
      }
    }

    method FindReceiver(host: nat, family: Family, dest: Addr, from: Addr) returns (i: nat)
      requires Valid()
      ensures i == FirstReceiver(View().socks, host, family, dest, from, 0)
    {
      hide COk;
      ghost var k := View().socks;
      i := 0;
      while i < MAX_SOCKETS
        invariant i <= MAX_SOCKETS
        invariant FirstReceiver(k, host, family, dest, from, 0) == FirstReceiver(k, host, family, dest, from, i)
      {
        var t := socks[i];
        if t.kind == Dgram && t.state == Bound && t.host == host && Reaches(family, t.local, dest)
           && (t.hasPeer ==> SameName(t.peer, from) && t.peer.ip == from.ip) { return; }
        i := i + 1;
      }
    }

    // ---- making and naming sockets -----------------------------------------

    method NewSocket(host: nat, family: Family, kind: Kind) returns (r: Result<nat>)
      requires Valid()
      modifies `flights, `inFlight, socks
      ensures Valid() && (View(), r) == NetSpec.NewSocket(old(View()), host, family, kind)
    {
      var i := FindFree();
      if i == MAX_SOCKETS { return Err(Errno(ENFILE)); }
      inFlight := DiscardFlight(socks[i], flights[i], inFlight);
      Put(i, FreshC(socks[i], host, family, kind), []);
      return Ok(i);
    }

    method EphemeralPort(host: nat, kind: Kind) returns (r: Result<nat>)
      requires Valid() && host < |hosts|
      modifies `hosts
      ensures Valid() && (View(), r) == NetSpec.EphemeralPort(old(View()), host, kind, PORT_TRIES)
    {
      ghost var s := View();
      for tries := 0 to PORT_TRIES
        invariant host < |hosts|
        invariant NetSpec.EphemeralPort(s, host, kind, PORT_TRIES)
                  == NetSpec.EphemeralPort(View(), host, kind, PORT_TRIES - tries)
      {
        var port := hosts[host].nextPort;
        hosts := hosts[host := hosts[host].(nextPort := if port == LAST_PORT then FIRST_EPHEMERAL else port + 1)];
        var taken := IsNameTaken(host, kind, InetAddr(0, port));
        if !taken { return Ok(port); }
      }
      return Err(Errno(EADDRINUSE));
    }

    method BindPort(sock: nat, addr: Addr) returns (r: Result<nat>)
      requires Valid() && sock < MAX_SOCKETS && socks[sock].host < |hosts|
      modifies `hosts
      ensures Valid() && |View().hosts| == |old(View()).hosts| && sock < |old(View()).socks|
      ensures old(View()).socks[sock].host < |old(View()).hosts|
      ensures (View(), r) == NetSpec.BindPort(old(View()), old(View()).socks[sock], addr)
    {
      hide Valid, View, AbsAll, COk, Abs, NetSpec.EphemeralPort;
      Seen(sock);
      Scalars();
      var k := socks[sock];
      if k.family == Inet && addr.port == 0 {
        r := EphemeralPort(k.host, k.kind);
      } else {
        r := Ok(addr.port);
      }
    }

    method Bind(sock: nat, addr: Addr) returns (r: Result<()>)
      requires Valid() && sock < MAX_SOCKETS && socks[sock].host < |hosts|
      modifies `hosts, `flights, socks
      ensures Valid() && (View(), r) == NetSpec.Bind(old(View()), sock, addr)
    {
      hide Valid, View, AbsAll, COk, Abs, NameTaken, NetSpec.BindPort;
      Seen(sock);
      Scalars();
      var k := socks[sock];
      if k.state != New { return Err(Errno(EINVAL)); }
      if addr.family != k.family { return Err(Errno(EAFNOSUPPORT)); }
      if k.family == Inet {
        var own := hosts[k.host].addr;
        if addr.ip != 0 && !IsLoopback(addr.ip) && addr.ip != own { return Err(Errno(EADDRNOTAVAIL)); }
      }
      var port := BindPort(sock, addr);
      if port.Err? { return Err(port.error); }
      var a := addr.(port := port.value);
      var taken := IsNameTaken(k.host, k.kind, a);
      if taken { return Err(Errno(EADDRINUSE)); }
      Seen(sock);
      PutPlain(sock, socks[sock].(local := a, state := Bound));
      return Ok(());
    }

    method Listen(sock: nat, backlog: int) returns (r: Result<()>)
      requires Valid() && sock < MAX_SOCKETS && socks[sock].host < |hosts|
      modifies `hosts, `flights, socks
      ensures Valid() && (View(), r) == NetSpec.Listen(old(View()), sock, backlog)
    {
      hide Valid, View, AbsAll, COk, Abs, NetSpec.Bind;
      Seen(sock);
      if socks[sock].kind != Stream { return Err(Errno(EOPNOTSUPP)); }
      if socks[sock].state == New {
        if socks[sock].family != Inet { return Err(Errno(EDESTADDRREQ)); }
        var bound := Bind(sock, InetAddr(0, 0));
        if bound.Err? { return bound; }
      }
      Seen(sock);
      var k := socks[sock];
      if k.state != Bound && k.state != Listening { return Err(Errno(EINVAL)); }
      var max := if backlog < 1 then 1 else Min(backlog, BACKLOG);
      PutPlain(sock, k.(state := Listening, backlogMax := max));
      return Ok(());
    }

    method Accept(sock: nat) returns (r: Result<nat>)
      requires Valid() && sock < MAX_SOCKETS
      modifies `flights, socks
      ensures Valid() && (View(), r) == NetSpec.Accept(old(View()), sock)
    {
      var l := socks[sock];
      if l.state != Listening { return Err(Errno(EINVAL)); }
      if l.backlogLen == 0 { return Err(WouldBlock); }
      var moved := l.backlog[1..l.backlogLen] + l.backlog[l.backlogLen - 1..];
      assert moved[..l.backlogLen - 1] == l.backlog[..l.backlogLen][1..];
      PutPlain(sock, l.(backlog := moved, backlogLen := l.backlogLen - 1));
      return Ok(l.backlog[0]);
    }

    method Connect(sock: nat, destHost: nat, dest: Addr) returns (r: Result<()>)
      requires Valid() && sock < MAX_SOCKETS && socks[sock].host < |hosts|
      requires forall i :: 0 <= i < MAX_SOCKETS ==> socks[i].backlogMax <= BACKLOG
      modifies `hosts, `flights, `inFlight, `connections, socks
      ensures Valid() && (View(), r) == NetSpec.Connect(old(View()), sock, destHost, dest)
    {
      hide Valid, View, AbsAll, COk, Abs;
      Seen(sock);
      Scalars();
      var k := socks[sock];
      if k.state == Connected { return Err(Errno(EISCONN)); }
      if k.state != New && k.state != Bound { return Err(Errno(EINVAL)); }
      var l := FindListener(destHost, k.kind, k.family, dest);
      if l < MAX_SOCKETS { Seen(l); }
      if l == MAX_SOCKETS || socks[l].backlogLen >= socks[l].backlogMax { return Err(Errno(ECONNREFUSED)); }
      r := ConnectTo(sock, destHost, dest, l);
    }

    /** Give the caller's end of a connection its name, if it has none. */
    method NameNear(sock: nat, dest: Addr) returns (r: Result<Addr>)
      requires Valid() && sock < MAX_SOCKETS && View().socks[sock].host < |View().hosts|
      modifies `hosts, `flights, socks
      ensures Valid() && r == NearName(old(View()), sock, dest).1
      ensures var t := NearName(old(View()), sock, dest).0;
              View() == if r.Ok? then SetSock(t, sock, t.socks[sock].(local := r.value)) else t
    {
      hide Valid, View, AbsAll, COk, Abs, NetSpec.EphemeralPort;
      Seen(sock);
      Scalars();
      var k := socks[sock];
      if k.state == New && k.family == Inet {
        var ip := if IsLoopback(dest.ip) then LOOPBACK else hosts[k.host].addr;
        var port := EphemeralPort(k.host, k.kind);
        if port.Err? { return Err(port.error); }
        Seen(sock);
        PutPlain(sock, socks[sock].(local := InetAddr(ip, port.value)));
        r := Ok(InetAddr(ip, port.value));
      } else {
        SetSame(View(), sock);
        r := Ok(k.local);
      }
    }

    /** The part of `connect` behind its checks */
    method ConnectTo(sock: nat, destHost: nat, dest: Addr, l: nat) returns (r: Result<()>)
      requires Valid() && sock < MAX_SOCKETS && l < MAX_SOCKETS
      requires View().socks[sock].host < |View().hosts| && View().socks[sock].state != Listening
      requires View().socks[l].state == Listening && |View().socks[l].backlog| < BACKLOG
      modifies `hosts, `flights, `inFlight, `connections, socks
      ensures Valid() && (View(), r) == NetSpec.ConnectTo(old(View()), sock, destHost, dest, l)
    {
      hide Valid, View, AbsAll, COk, Abs, NetSpec.EphemeralPort, FirstFree, Couple;
      Seen(sock);
      Seen(l);
      var family, kind, listener := socks[sock].family, socks[sock].kind, socks[l].local;
      var near := NameNear(sock, dest);
      if near.Err? { return Err(near.error); }
      var far := NewSocket(destHost, family, kind);
      if far.Err? { return Err(far.error); }
      CoupleUp(sock, far.value, l, near.value, FarName(family, listener, dest));
      return Ok(());
    }

    /** One end of a connection */
    method Attach(i: nat, local: Addr, peer: Addr, farEnd: nat)
      requires Valid() && i < MAX_SOCKETS
      modifies `flights, socks
      ensures Valid() && View() == SetSock(old(View()), i, old(View()).socks[i].(state := Connected, local := local,
                                                                                 peer := peer, farEnd := farEnd))
    {
      hide Valid, View, AbsAll, COk, Abs;
      Seen(i);
      PutPlain(i, socks[i].(state := Connected, local := local, peer := peer, farEnd := farEnd));
    }

    method CoupleUp(near: nat, far: nat, l: nat, nearAddr: Addr, farAddr: Addr)
      requires Valid() && near < MAX_SOCKETS && far < MAX_SOCKETS && l < MAX_SOCKETS
      requires |View().socks[l].backlog| < BACKLOG
      modifies `flights, `connections, socks
      ensures Valid() && View() == Couple(old(View()), near, far, l, nearAddr, farAddr)
    {
      hide Valid, View, AbsAll, COk, Abs;
      Attach(far, farAddr, nearAddr, near);
      Seen(near);
      Attach(near, socks[near].local, farAddr, far);
      Enqueue(l, far);
      CountConnection();
    }

    method CountConnection()
      requires Valid()
      modifies `connections
      ensures Valid() && View() == old(View()).(connections := old(View()).connections + 1)
    {
      connections := connections + 1;
    }

    /** A connection joins the end of a listener's queue. */
    method Enqueue(l: nat, far: nat)
      requires Valid() && l < MAX_SOCKETS && |View().socks[l].backlog| < BACKLOG
      modifies `flights, socks
      ensures Valid() && var k := old(View()).socks[l];
              View() == SetSock(old(View()), l, k.(backlog := k.backlog + [far], rdEvents := k.rdEvents + 1))
    {
      hide Valid, View, AbsAll, COk, Abs;
      Seen(l);
      var q := socks[l];
      assert q.backlog[q.backlogLen := far][..q.backlogLen + 1] == q.backlog[..q.backlogLen] + [far];
      PutPlain(l,
        q.(backlog := q.backlog[q.backlogLen := far], backlogLen := q.backlogLen + 1, rdEvents := q.rdEvents + 1));
    }

    // ---- streams ------------------------------------------------------------

    method Send(sock: nat, data: seq<Byte>) returns (r: Result<nat>)
      requires Valid() && sock < MAX_SOCKETS && View().now + View().latency < 0x1_0000_0000_0000_0000
      requires View().socks[sock].state == Connected ==> View().socks[sock].farEnd < MAX_SOCKETS
      modifies `flights, `inFlight, `nextDue, `bytes, socks
      ensures Valid() && (View(), r) == NetSpec.Send(old(View()), sock, data)
    {
      hide Valid, View, AbsAll, COk, Abs, NetSpec.Deliver;
      Seen(sock);
      var s := socks[sock];
      if s.state != Connected { return Err(Errno(ENOTCONN)); }
      if s.shutWr { return Err(Errno(EPIPE)); }
      Seen(s.farEnd);
      var p := socks[s.farEnd];
      if p.state != Connected || p.shutRd { return Err(Errno(EPIPE)); }
      if data == [] { return Ok(0); }
      var n := Deliver(s.host, s.farEnd, PBytes(data));
      r := if n == 0 then Err(WouldBlock) else Ok(n);
    }

    /** `n` bytes of a receive ring from `offset` on, left where they are */
    method PeekRx(i: nat, offset: nat, n: nat) returns (out: seq<Byte>)
      requires Valid() && i < MAX_SOCKETS && offset + n <= |View().socks[i].rx|
      ensures out == View().socks[i].rx[offset..offset + n]
    {
      Seen(i);
      out := Peek(socks[i].rx, socks[i].rxHead, socks[i].rxLen, offset, n);
    }

    method SkipRx(i: nat, n: nat)
      requires Valid() && i < MAX_SOCKETS && n <= |View().socks[i].rx|
      modifies `flights, socks
      ensures Valid() && View() == SetSock(old(View()), i, old(View()).socks[i].(rx := old(View()).socks[i].rx[n..]))
    {
      Seen(i);
      var d := RingSkip(socks[i], flights[i], n);
      Put(i, d, flights[i]);
    }

    method Bump(i: nat)
      requires Valid() && i < MAX_SOCKETS
      modifies `flights, socks
      ensures Valid() && View() == WrBump(old(View()), i)
    {
      hide Valid, View, AbsAll, COk, Abs;
      Seen(i);
      PutPlain(i, socks[i].(wrEvents := socks[i].wrEvents + 1));
    }

    method Recv(sock: nat, want: nat, peek: bool) returns (r: Result<seq<Byte>>)
      requires Valid() && sock < MAX_SOCKETS
      requires View().socks[sock].state == Connected ==> View().socks[sock].farEnd < MAX_SOCKETS
      modifies `flights, socks
      ensures Valid() && (View(), r) == NetSpec.Recv(old(View()), sock, want, peek)
    {
      hide Valid, View, AbsAll, COk, Abs;
      Seen(sock);
      SeenRings(sock);
      var s := socks[sock];
      if s.state != Connected { return Err(Errno(ENOTCONN)); }
      if s.rxLen == 0 {
        return if s.fin || s.shutRd || want == 0 then Ok([]) else Err(WouldBlock);
      }
      var n := Min(want, s.rxLen);
      var out := PeekRx(sock, 0, n);
      if !peek {
        SkipRx(sock, n);
        Bump(s.farEnd);
      }
      return Ok(out);
    }

    /** The read side shuts: what has landed is gone. */
    method Discard(sock: nat)
      requires Valid() && sock < MAX_SOCKETS
      modifies `flights, socks
      ensures Valid() && View() == SetSock(old(View()), sock, old(View()).socks[sock].(shutRd := true, rx := []))
    {
      Seen(sock);
      Put(sock, socks[sock].(shutRd := true, rxLen := 0), flights[sock]);
    }

    method ShutWriting(sock: nat)
      requires Valid() && sock < MAX_SOCKETS && View().now + View().latency < 0x1_0000_0000_0000_0000
      requires View().socks[sock].farEnd < MAX_SOCKETS && View().socks[sock].farEnd != sock
      requires FinFits(View().socks[View().socks[sock].farEnd])
      modifies `flights, `inFlight, `nextDue, `bytes, socks
      ensures Valid() && View() == ShutWr(old(View()), sock)
    {
      hide Valid, View, AbsAll, COk, Abs, NetSpec.Deliver;
      Seen(sock);
      PutPlain(sock, socks[sock].(shutWr := true));
      Seen(sock);
      var n := Deliver(socks[sock].host, socks[sock].farEnd, PFin);
    }

    method Shutdown(sock: nat, read: bool, write: bool) returns (r: Result<()>)
      requires Valid() && Inv(View()) && sock < MAX_SOCKETS && View().now + View().latency < 0x1_0000_0000_0000_0000
      modifies `flights, `inFlight, `nextDue, `bytes, socks
      ensures Valid() && FarEndsInTable(old(View()).socks)
      ensures (View(), r) == NetSpec.Shutdown(old(View()), sock, read, write)
    {
      hide Valid, View, AbsAll, COk, Abs, NetSpec.Deliver, Inv;
      ghost var s0 := View();
      LinksTable(s0);
      Seen(sock);
      var s := socks[sock];
      if s.state != Connected { return Err(Errno(ENOTCONN)); }
      FinRoom(s0, sock);
      if read {
        Discard(sock);
        Bump(s.farEnd);
      }
      Seen(sock);
      if write && !socks[sock].shutWr {
        ShutWriting(sock);
      }
      return Ok(());
    }

    // ---- datagrams ----------------------------------------------------------

    method FindHost(ip: nat) returns (h: nat)
      ensures h <= |hosts| && (h < |hosts| ==> hosts[h].addr == ip)
      ensures forall j :: 0 <= j < h ==> hosts[j].addr != ip
    {
      h := 0;
      while h < |hosts| && hosts[h].addr != ip
        invariant h <= |hosts| && forall j :: 0 <= j < h ==> hosts[j].addr != ip
      {
        h := h + 1;
      }
    }

    method FindHostForIp(from: nat, ip: nat) returns (h: Option<nat>)
      ensures h == HostForIp(hosts, from, ip)
    {
      if IsLoopback(ip) { return Some(from); }
      var i := FindHost(ip);
      if i < |hosts| { FirstHostIs(hosts, ip, i, 0); }
      return if i < |hosts| then Some(i) else None;
    }

    method BindNew(sock: nat) returns (r: Result<()>)
      requires Valid() && sock < MAX_SOCKETS && View().socks[sock].host < |View().hosts|
      modifies `hosts, `flights, socks
      ensures Valid() && (View(), r) == BindIfNew(old(View()), sock)
    {
      hide Valid, View, AbsAll, COk, Abs, NetSpec.Bind;
      Seen(sock);
      Scalars();
      if socks[sock].state == New && socks[sock].family == Inet {
        r := Bind(sock, InetAddr(0, 0));
      } else {
        r := Ok(());
      }
    }

    method ConnectDgram(sock: nat, dest: Addr) returns (r: Result<()>)
      requires Valid() && sock < MAX_SOCKETS && View().socks[sock].host < |View().hosts|
      modifies `hosts, `flights, socks
      ensures Valid() && (View(), r) == NetSpec.ConnectDgram(old(View()), sock, dest)
    {
      hide Valid, View, AbsAll, COk, Abs, BindIfNew;
      r := BindNew(sock);
      if r.Err? { return; }
      Seen(sock);
      PutPlain(sock, socks[sock].(peer := dest, hasPeer := true));
      return Ok(());
    }

    /** Where a datagram goes, and the source its receiver sees */
    method Route(sock: nat, dest: Option<(nat, Addr)>) returns (r: Option<(nat, Addr, Addr)>)
      requires Valid() && sock < MAX_SOCKETS && View().socks[sock].host < |View().hosts|
      ensures r == DgramRoute(View(), View().socks[sock], dest)
    {
      hide Valid, View, AbsAll, COk, Abs, HostForIp;
      Seen(sock);
      Scalars();
      var s := socks[sock];
      var to;
      if dest.Some? {
        to := dest.value;
      } else if s.hasPeer {
        var h := FindHostForIp(s.host, s.peer.ip);
        to := (if h.Some? && s.family == Inet then h.value else s.host, s.peer);
      } else {
        return None;
      }
      var from := s.local;
      if s.family == Inet {
        from := from.(family := Inet, ip := if IsLoopback(to.1.ip) then LOOPBACK else hosts[s.host].addr);
      }
      return Some((to.0, to.1, from));
    }

    method Tally(lost: nat)
      requires Valid()
      modifies `datagrams, `dropped
      ensures Valid()
        && View() == old(View()).(dropped := old(View()).dropped + lost, datagrams := old(View()).datagrams + 1)
    {
      dropped := dropped + lost;
      datagrams := datagrams + 1;
    }

    method SendDgram(sock: nat, dest: Option<(nat, Addr)>, data: seq<Byte>) returns (r: Result<nat>)
      requires Valid() && sock < MAX_SOCKETS && View().socks[sock].host < |View().hosts|
      requires View().now + View().latency < 0x1_0000_0000_0000_0000
      modifies `hosts, `flights, `inFlight, `nextDue, `bytes, `datagrams, `dropped, socks
      ensures Valid() && (View(), r) == NetSpec.SendDgram(old(View()), sock, dest, data)
    {
      hide Valid, View, AbsAll, COk, Abs, BindIfNew, Dispatch, DgramRoute;
      if |data| > MAX_DGRAM { return Err(Errno(EMSGSIZE)); }
      BindKeepsClock(View(), sock);
      var bound := BindNew(sock);
      if bound.Err? { return Err(bound.error); }
      Seen(sock);
      var route := Route(sock, dest);
      if route.None? { return Err(Errno(EDESTADDRREQ)); }
      r := DispatchTo(socks[sock].host, socks[sock].family, route.value, data, View().socks[sock]);
    }

    /** The rest of a datagram send, once the sender has a name */
    method DispatchTo(host: nat, family: Family, route: (nat, Addr, Addr), data: seq<Byte>, ghost k: Sock)
      returns (r: Result<nat>)
      requires Valid() && View().now + View().latency < 0x1_0000_0000_0000_0000
      requires k.host == host && k.family == family
      modifies `flights, `inFlight, `nextDue, `bytes, `datagrams, `dropped, socks
      ensures Valid() && (View(), r) == Dispatch(old(View()), k, route, data)
    {
      hide Valid, View, AbsAll, COk, Abs, NetSpec.Deliver, FirstReceiver;
      var (destHost, to, from) := route;
      var t := FindReceiver(destHost, family, to, from);
      var taken := false;
      if t < MAX_SOCKETS {
        var n := Deliver(host, t, PDatagram(from, data));
        taken := n != 0 || data == [];
      } else if family == Unix {
        return Err(Errno(ECONNREFUSED));
      }
      if !taken && family == Unix { return Err(WouldBlock); }
      Tally(if taken then 0 else 1);
      return Ok(|data|);
    }

    method RecvDgram(sock: nat, want: nat, peek: bool) returns (r: Result<(seq<Byte>, Addr)>)
      requires Valid() && sock < MAX_SOCKETS
      requires View().socks[sock].rx != [] ==> DgramHead(View().socks[sock].rx)
      modifies `flights, socks
      ensures Valid() && (View(), r) == NetSpec.RecvDgram(old(View()), sock, want, peek)
    {
      hide Valid, View, AbsAll, COk, Abs;
      SeenRings(sock);
      if socks[sock].rxLen == 0 { return Err(WouldBlock); }
      ghost var b := View().socks[sock].rx;
      var header := PeekRx(sock, 0, DGRAM_HEADER);
      assert header[..4] == b[..4] && header[4..8] == b[4..8] && header[8..10] == b[8..10] && header[11] == b[11];
      var len, pathLen := FromLe(header[..4]), header[11];
      var path := PeekRx(sock, DGRAM_HEADER, pathLen);
      var from := Addr(FamilyOf(header[10]), FromLe(header[8..10]), FromLe(header[4..8]), path);
      var n := Min(want, len);
      var out := PeekRx(sock, DGRAM_HEADER + pathLen, n);
      assert out == DgramData(b)[..n];
      if !peek {
        SkipRx(sock, DGRAM_HEADER + pathLen + len);
      }
      return Ok((out, from));
    }

    // ---- time ---------------------------------------------------------------

    /** The header of the oldest record in flight to `i` */
    method HeaderAt(i: nat) returns (due: nat, kind: RecKind, len: nat)
      requires Valid() && i < MAX_SOCKETS && View().socks[i].flight != []
      ensures var r := View().socks[i].flight[0];
              due == r.due && kind == r.kind && len == |r.body| && due <= NEVER
    {
      hide Contents, EncFlight;
      Seen(i);
      FlightLen(socks[i], flights[i]);
      assert RecFits(flights[i][0]);
      due, kind, len := HeadHeader(socks[i].flight, socks[i].flHead, socks[i].flLen, flights[i]);
    }

    /** The oldest record leaves the flight ring, and the account. */
    method LandRecord(i: nat, kind: RecKind, len: nat)
      requires Valid() && i < MAX_SOCKETS && View().socks[i].flight != [] && View().inFlight > 0
      requires kind == View().socks[i].flight[0].kind && len == |View().socks[i].flight[0].body|
      requires (kind == KDgram ==> FlStream(View().socks[i].flight) == 0) && (kind == KFin ==> len == 0)
      modifies `flights, `inFlight, `bytes, `dropped, socks
      ensures Valid()
      ensures var s := old(View());
              var (d, taken, lost) := LandOn(s.socks[i]);
              View()
                == SetSock(s, i, d).(inFlight := s.inFlight - 1, bytes := s.bytes + taken, dropped := s.dropped + lost)
    {
      hide Contents, EncFlight, LandOn;
      Seen(i);
      inFlight := inFlight - 1;
      var d, taken, lost := LandHeadOn(socks[i], flights[i], kind, len);
      Put(i, d, flights[i][1..]);
      bytes := bytes + taken;
      dropped := dropped + lost;
    }

    method LandOldest(i: nat, kind: RecKind, len: nat)
      requires Valid() && Core(View()) && FarEndsInTable(View().socks)
      requires i < MAX_SOCKETS && View().socks[i].flight != []
      requires kind == View().socks[i].flight[0].kind && len == |View().socks[i].flight[0].body|
      modifies `flights, `inFlight, `bytes, `dropped, socks
      ensures Valid() && View() == LandHead(old(View()), i)
    {
      hide Valid, View, AbsAll, COk, Abs, Core;
      HeadLands(View(), i);
      LandRecord(i, kind, len);
      if kind == KBytes {
        Seen(i);
        var sender := socks[i].farEnd;
        if socks[i].state == Connected { Bump(sender); }
      }
    }

    /** Everything in flight to `sock` up to the first record due after `t`;
        `next` goes down to that record's time. */
    method AdvanceOne(sock: nat, t: nat, next: nat) returns (n: nat)
      requires Valid() && Core(View()) && FarEndsInTable(View().socks) && sock < MAX_SOCKETS
      modifies `flights, `inFlight, `bytes, `dropped, socks
      ensures Valid() && View() == AdvanceSock(old(View()), sock, t)
      ensures n == if View().socks[sock].flight == [] then next else Min(next, View().socks[sock].flight[0].due)
      ensures View().socks[sock].flight != [] ==> View().socks[sock].flight[0].due <= NEVER
    {
      hide Valid, View, AbsAll, COk, Abs, Core, LandHead;
      ghost var s := View();
      n := next;
      SeenRings(sock);
      while socks[sock].flLen > 0
        invariant Valid() && Core(View()) && FarEndsInTable(View().socks) && n == next
        invariant AdvanceSock(View(), sock, t) == AdvanceSock(s, sock, t)
        invariant socks[sock].flLen == 0 <==> View().socks[sock].flight == []
        decreases |View().socks[sock].flight|
      {
        var due, kind, len := HeaderAt(sock);
        if due > t {
          n := Min(next, due);
          break;
        }
        LandCore(View(), sock);
        LandTable(View(), sock);
        LandOldest(sock, kind, len);
        SeenRings(sock);
      }
    }

    method Advance(t: nat) returns (moved: bool)
      requires Valid() && Inv(View())
      modifies `flights, `inFlight, `bytes, `dropped, `now, `nextDue, socks
      ensures Valid() && FarEndsInTable(old(View()).socks)
      ensures (View(), moved) == NetSpec.Advance(old(View()), t)
    {
      hide AbsAll, COk, Abs, Core, AdvanceSock, AdvanceFrom, EarliestHead;
      LinksTable(View());
      now := t;
      if inFlight == 0 || nextDue > t { return false; }
      ClockCore(old(View()), View());
      var next := AdvanceAll(t);
      nextDue := next;
      return true;
    }

    /** The sweep over every socket, and the earliest head it leaves */
    method AdvanceAll(t: nat) returns (next: nat)
      requires Valid() && Core(View()) && FarEndsInTable(View().socks)
      modifies `flights, `inFlight, `bytes, `dropped, socks
      ensures Valid() && View() == AdvanceFrom(old(View()), 0, t) && next == EarliestHead(View().socks, 0)
    {
      hide Valid, View, AbsAll, COk, Abs, Core, AdvanceSock, Calm;
      ghost var s := View();
      next := NEVER;
      for sock := 0 to MAX_SOCKETS
        invariant Valid() && Core(View()) && FarEndsInTable(View().socks)
        invariant AdvanceFrom(View(), sock, t) == AdvanceFrom(s, 0, t)
        invariant EarliestBefore(View().socks, sock, next)
      {
        ghost var u, was := View(), next;
        AdvanceSockOk(u, sock, t);
        next := AdvanceOne(sock, t, next);
        EarlierToo(u.socks, View().socks, sock, was, next);
      }
      EarliestIs(View().socks, next);
    }

    // ---- descriptors ----------------------------------------------------------

    method FindRef(pid: nat, sock: nat) returns (r: nat)
      requires Valid()
      ensures r == NetSpec.FindRef(View().fdrefs, pid, sock, 0)
    {
      ghost var t := View().fdrefs;
      r := 0;
      while r < MAX_FDREFS && !(fdrefs[r].count > 0 && fdrefs[r].pid == pid && fdrefs[r].sock == sock)
        invariant r <= MAX_FDREFS && NetSpec.FindRef(t, pid, sock, 0) == NetSpec.FindRef(t, pid, sock, r)
      {
        r := r + 1;
      }
    }

    method FindSpare() returns (r: nat)
      requires Valid()
      ensures r == NetSpec.FindSpare(View().fdrefs, 0)
    {
      ghost var t := View().fdrefs;
      r := 0;
      while r < MAX_FDREFS && fdrefs[r].count != 0
        invariant r <= MAX_FDREFS && NetSpec.FindSpare(t, 0) == NetSpec.FindSpare(t, r)
      {
        r := r + 1;
      }
    }

    method FindSlot(pid: nat, sock: nat) returns (r: nat)
      requires Valid()
      ensures r == FdSlot(View().fdrefs, pid, sock)
    {
      hide Valid, View;
      r := FindRef(pid, sock);
      if r == MAX_FDREFS { r := FindSpare(); }
    }

    /** One entry of the reference table and the socket's own count change. */
    method PutRef(r: nat, e: FdRef, sock: nat, refs: nat)
      requires Valid() && r < MAX_FDREFS && sock < MAX_SOCKETS
      modifies `flights, socks, fdrefs
      ensures Valid()
      ensures var s := old(View());
              View() == SetSock(s, sock, s.socks[sock].(refs := refs)).(fdrefs := s.fdrefs[r := e])
    {
      Seen(sock);
      PutPlain(sock, socks[sock].(refs := refs));
      ghost var u := View();
      fdrefs[r] := e;
      assert fdrefs[..] == u.fdrefs[r := e];
    }

    method AddRef(pid: nat, sock: nat)
      requires Valid() && sock < MAX_SOCKETS && FdSlot(View().fdrefs, pid, sock) < MAX_FDREFS
      modifies `flights, socks, fdrefs
      ensures Valid() && View() == NetSpec.AddRef(old(View()), pid, sock)
    {
      hide Valid, View, AbsAll, COk, Abs, FdSlot;
      Seen(sock);
      Scalars();
      var r := FindSlot(pid, sock);
      PutRef(r, FdRef(pid, sock, fdrefs[r].count + 1), sock, socks[sock].refs + 1);
    }

    method DropRef(pid: nat, sock: nat)
      requires Valid() && Inv(View()) && sock < MAX_SOCKETS && Held(View().fdrefs, pid, sock) > 0
      requires View().now + View().latency < 0x1_0000_0000_0000_0000
      modifies `flights, `inFlight, `nextDue, `bytes, socks, fdrefs
      ensures Valid() && FdSlot(old(View()).fdrefs, pid, sock) < MAX_FDREFS && Releasable(old(View()).socks)
      ensures View() == NetSpec.DropRef(old(View()), pid, sock)
    {
      hide Valid, View, AbsAll, COk, Abs, FdSlot, Inv, NetSpec.Release, Held;
      ghost var s := View();
      Seen(sock);
      Scalars();
      CountedOk(s, pid, sock);
      DropRefOk(s, pid, sock);
      var r := FindSlot(pid, sock);
      var refs := SatSub(socks[sock].refs, 1);
      PutRef(r, FdRef(pid, sock, SatSub(fdrefs[r].count, 1)), sock, refs);
      assert View() == Counted(s, pid, sock);
      if refs == 0 {
        Release(sock);
      }
    }

    // ---- closing --------------------------------------------------------------

    method SetState(i: nat, state: SockState)
      requires Valid() && i < MAX_SOCKETS
      modifies `flights, socks
      ensures Valid() && View() == SetSock(old(View()), i, old(View()).socks[i].(state := state))
    {
      hide Valid, View, AbsAll, COk, Abs;
      Seen(i);
      PutPlain(i, socks[i].(state := state));
    }

    /** A connection still queued when its listener goes is reset. */
    method ResetQueued(far: nat)
      requires Valid() && far < MAX_SOCKETS && View().now + View().latency < 0x1_0000_0000_0000_0000
      requires View().socks[far].farEnd < MAX_SOCKETS
      requires View().socks[View().socks[far].farEnd].state != Closed ==>
        FinFits(View().socks[View().socks[far].farEnd])
      modifies `flights, `inFlight, `nextDue, `bytes, socks
      ensures Valid() && View() == NetSpec.ResetQueued(old(View()), far)
    {
      hide Valid, View, AbsAll, COk, Abs, NetSpec.Deliver;
      Seen(far);
      var near := socks[far].farEnd;
      Seen(near);
      if socks[near].state == Closed {
        SetState(near, Free);
        SetState(far, Free);
      } else {
        var n := Deliver(socks[far].host, near, PFin);
        Bump(near);
        SetState(far, Closed);
      }
    }

    method ReleaseListening(sock: nat)
      requires Valid() && Inv(View()) && sock < MAX_SOCKETS && View().socks[sock].state == Listening
      requires View().socks[sock].refs == 0 && View().now + View().latency < 0x1_0000_0000_0000_0000
      modifies `flights, `inFlight, `nextDue, `bytes, socks
      ensures Valid() && Releasable(old(View()).socks) && View() == NetSpec.Release(old(View()), sock)
    {
      hide Valid, View, AbsAll, COk, Abs, Inv, NetSpec.ResetQueued, Resettable;
      ghost var s := View();
      ghost var queue := s.socks[sock].backlog;
      InvCloses(s);
      FirstReset(s, sock);
      Seen(sock);
      var n := socks[sock].backlogLen;
      for i := 0 to n
        invariant Valid() && n == |queue| && View().socks[sock] == s.socks[sock]
        invariant View().now == s.now && View().latency == s.latency
        invariant Resetting(View(), sock, queue[i..])
        invariant ResetAll(View(), queue[i..]) == ResetAll(s, queue)
      {
        Seen(sock);
        var far := socks[sock].backlog[i];
        assert queue[i..][0] == far && queue[i..][1..] == queue[i + 1..];
        ResetNext(View(), sock, queue[i..]);
        ResetQueued(far);
      }
      SetState(sock, Free);
    }

    method ReleaseConnected(sock: nat)
      requires Valid() && Inv(View()) && sock < MAX_SOCKETS && View().socks[sock].state == Connected
      requires View().now + View().latency < 0x1_0000_0000_0000_0000
      modifies `flights, `inFlight, `nextDue, `bytes, socks
      ensures Valid() && Releasable(old(View()).socks) && View() == NetSpec.Release(old(View()), sock)
    {
      hide Valid, View, AbsAll, COk, Abs, Inv, NetSpec.Deliver;
      InvCloses(View());
      FinRoom(View(), sock);
      Seen(sock);
      var peer := socks[sock].farEnd;
      Seen(peer);
      if socks[peer].state == Closed {
        SetState(peer, Free);
        SetState(sock, Free);
      } else {
        if !socks[sock].shutWr {
          var n := Deliver(socks[sock].host, peer, PFin);
        }
        Bump(peer);
        SetState(sock, Closed);
      }
    }

    /** Nobody refers to `sock` any more. */
    method Release(sock: nat)
      requires Valid() && Inv(View()) && sock < MAX_SOCKETS && View().socks[sock].refs == 0
      requires View().now + View().latency < 0x1_0000_0000_0000_0000
      modifies `flights, `inFlight, `nextDue, `bytes, socks
      ensures Valid() && Releasable(old(View()).socks) && View() == NetSpec.Release(old(View()), sock)
    {
      hide Valid, View, AbsAll, COk, Abs, Inv, ResetAll, NetSpec.Deliver;
      InvCloses(View());
      Seen(sock);
      match socks[sock].state {
        case Listening => ReleaseListening(sock);
        case Connected => ReleaseConnected(sock);
        case _ => SetState(sock, Free);
      }
    }

    // ---- a whole process's descriptors ------------------------------------------

    /** What the table records for `pid`, socket by socket */
    method CountsOf(pid: nat) returns (counts: seq<nat>)
      requires Valid()
      ensures |counts| == MAX_SOCKETS
      ensures forall x: nat :: x < MAX_SOCKETS ==> counts[x] == Held(View().fdrefs, pid, x)
    {
      hide Valid, View;
      Scalars();
      counts := [];
      for sock := 0 to MAX_SOCKETS
        invariant |counts| == sock && forall x: nat :: x < sock ==> counts[x] == Held(View().fdrefs, pid, x)
      {
        var r := FindRef(pid, sock);
        counts := counts + [if r < MAX_FDREFS then fdrefs[r].count else 0];
      }
    }

    method AddMany(pid: nat, held: seq<nat>)
      requires Valid() && (forall x :: 0 <= x < |held| ==> held[x] < MAX_SOCKETS)
      requires AddAll(View(), pid, held).Some?
      modifies `flights, socks, fdrefs
      ensures Valid() && Some(View()) == AddAll(old(View()), pid, held)
    {
      hide Valid, View, FdSlot, NetSpec.AddRef;
      ghost var s := View();
      assert held[0..] == held;
      for x := 0 to |held|
        invariant Valid() && AddAll(View(), pid, held[x..]) == AddAll(s, pid, held)
      {
        assert held[x..][0] == held[x] && held[x..][1..] == held[x + 1..];
        AddRef(pid, held[x]);
      }
    }

    method DropMany(pid: nat, sock: nat, n: nat)
      requires Valid() && Inv(View()) && sock < MAX_SOCKETS && Held(View().fdrefs, pid, sock) >= n
      requires View().now + View().latency < 0x1_0000_0000_0000_0000
      modifies `flights, `inFlight, `nextDue, `bytes, socks, fdrefs
      ensures Valid() && Some(View()) == DropTimes(old(View()), pid, sock, n)
    {
      hide Valid, View, FdSlot, NetSpec.DropRef, Inv, Held, Releasable;
      ghost var s := View();
      for i := 0 to n
        invariant Valid() && Inv(View()) && Held(View().fdrefs, pid, sock) >= n - i
        invariant View().now == s.now && View().latency == s.latency
        invariant DropTimes(View(), pid, sock, n - i) == DropTimes(s, pid, sock, n)
      {
        DropStep(View(), pid, sock);
        DropOnTime(View(), pid, sock);
        DropRef(pid, sock);
      }
    }

    /** Makes `held` what `pid` refers to; it gains before it loses. */
    method SetRefs(pid: nat, held: seq<nat>)
      requires Valid() && Inv(View()) && View().now + View().latency < 0x1_0000_0000_0000_0000
      requires AllReferenced(View().socks, held) && AddAll(View(), pid, held).Some?
      modifies `flights, `inFlight, `nextDue, `bytes, socks, fdrefs
      ensures Valid() && Some(View()) == NetSpec.SetRefs(old(View()), pid, held)
    {
      hide Valid, View, Inv, Held, AddAll, DropOld, DropTimes, Edges, Flow;
      ghost var s := View();
      var before := CountsOf(pid);
      AddAllOk(s, pid, held);
      AddAllOnTime(s, pid, held);
      AddMany(pid, held);
      ghost var t := View();
      for sock := 0 to MAX_SOCKETS
        invariant Valid() && Inv(View()) && View().now == s.now && View().latency == s.latency
        invariant forall x: nat :: x >= sock ==> Held(View().fdrefs, pid, x) >= Held(s.fdrefs, pid, x)
        invariant DropOld(View(), s.fdrefs, pid, sock) == DropOld(t, s.fdrefs, pid, 0)
      {
        DropTimesOk(View(), pid, sock, before[sock]);
        DropTimesOnTime(View(), pid, sock, before[sock]);
        DropOldStep(View(), s.fdrefs, pid, sock);
        DropMany(pid, sock, before[sock]);
      }
      DropOldEnd(View(), s.fdrefs, pid);
    }

    method ProcessDied(pid: nat)
      requires Valid() && Inv(View()) && View().now + View().latency < 0x1_0000_0000_0000_0000
      modifies `flights, `inFlight, `nextDue, `bytes, socks, fdrefs
      ensures Valid() && Some(View()) == NetSpec.SetRefs(old(View()), pid, [])
    {
      SetRefs(pid, []);
    }

    // ---- readiness --------------------------------------------------------------

    method IsReadable(sock: nat) returns (ready: bool)
      requires Valid() && sock < MAX_SOCKETS
      ensures ready == Readable(View().socks[sock])
    {
      hide Valid, View, AbsAll, COk, Abs;
      Seen(sock);
      SeenRings(sock);
      var s := socks[sock];
      if s.kind == Dgram { return s.rxLen > 0; }
      match s.state {
        case Listening => return s.backlogLen > 0;
        case Connected => return s.rxLen > 0 || s.fin || s.shutRd;
        case _ => return true;
      }
    }

    method IsWritable(sock: nat) returns (ready: bool)
      requires Valid() && sock < MAX_SOCKETS
      requires View().socks[sock].state == Connected ==> View().socks[sock].farEnd < MAX_SOCKETS
      ensures ready == Writable(View().socks, sock)
    {
      hide Valid, View, AbsAll, COk, Abs, Window;
      Seen(sock);
      var s := socks[sock];
      if s.state != Connected || s.shutWr { return true; }
      Seen(s.farEnd);
      var p := socks[s.farEnd];
      if p.state != Connected || p.shutRd { return true; }
      var w := WindowOf(s.farEnd);
      return w > 0;
    }
  }

  lemma {:induction false} FirstHostIs(hosts: seq<Host>, ip: nat, h: nat, i: nat)
    requires i <= h < |hosts| && hosts[h].addr == ip && forall j :: i <= j < h ==> hosts[j].addr != ip
    ensures FirstHost(hosts, ip, i) == h
    decreases h - i
  {
    if i < h { FirstHostIs(hosts, ip, h, i + 1); }
  }

  lemma BindKeepsClock(s: Net, sock: nat)
    requires sock < |s.socks| && s.socks[sock].host < |s.hosts|
    ensures BindIfNew(s, sock).0.now == s.now && BindIfNew(s, sock).0.latency == s.latency
  {
  }

  /** The room kept for a FIN's header is there. */
  predicate FinFits(d: Sock) { FlLen(d.flight) + FLIGHT_HEADER <= RING }

  lemma FinRoom(s: Net, sock: nat)
    requires Inv(s) && sock < |s.socks| && s.socks[sock].state == Connected
    ensures s.socks[sock].farEnd < |s.socks| && s.socks[sock].farEnd != sock
    ensures !s.socks[sock].shutWr ==> FinFits(s.socks[s.socks[sock].farEnd])
  {
    assert Linked(s.socks, sock) && SockOk(s.socks[s.socks[sock].farEnd]);
  }

  lemma LinksTable(s: Net)
    requires Inv(s)
    ensures FarEndsInTable(s.socks)
  {
    LinksStayInTable(s.socks);
  }

  lemma SetSame(s: Net, i: nat)
    requires i < |s.socks|
    ensures SetSock(s, i, s.socks[i].(local := s.socks[i].local)) == s
  {
    assert s.socks[i := s.socks[i].(local := s.socks[i].local)] == s.socks;
  }

  // ---- the sweep over flight rings ------------------------------------------

  lemma HeadLands(s: Net, i: nat)
    requires Core(s) && i < |s.socks| && s.socks[i].flight != []
    ensures s.inFlight > 0
    ensures s.socks[i].flight[0].kind == KDgram ==> FlStream(s.socks[i].flight) == 0
    ensures s.socks[i].flight[0].kind == KFin ==> s.socks[i].flight[0].body == []
  {
    TotalUpdate(s.socks, i, s.socks[i]);
    assert SockOk(s.socks[i]) && RecOk(s.socks[i].kind, s.socks[i].flight[0]);
    if s.socks[i].kind == Dgram { DgramFlight(s.socks[i]); }
  }

  lemma LandTable(s: Net, i: nat)
    requires Core(s) && i < |s.socks| && s.socks[i].flight != [] && FarEndsInTable(s.socks)
    ensures FarEndsInTable(LandHead(s, i).socks)
  {
    LandCore(s, i);
    LinksStayInTable(LandHead(s, i).socks);
  }

  lemma ClockCore(s: Net, t: Net)
    requires Inv(s) && t == s.(now := t.now)
    ensures Core(t)
  {
  }

  /** The least due time at the head of the first `n` flight rings */
  predicate EarliestBefore(k: seq<Sock>, n: nat, t: nat)
    requires n <= |k|
  {
    && t <= NEVER && (forall j :: 0 <= j < n && k[j].flight != [] ==> t <= k[j].flight[0].due <= NEVER)
    && (t == NEVER || exists j :: 0 <= j < n && k[j].flight != [] && t == k[j].flight[0].due)
  }

  lemma EarliestIs(k: seq<Sock>, t: nat)
    requires EarliestBefore(k, |k|, t)
    ensures t == EarliestHead(k, 0)
  {
  }

  lemma EarlierToo(k: seq<Sock>, m: seq<Sock>, n: nat, a: nat, b: nat)
    requires n < |k| == |m| && EarliestBefore(k, n, a)
    requires forall j :: 0 <= j < n ==> m[j].flight == k[j].flight
    requires m[n].flight != [] ==> m[n].flight[0].due <= NEVER
    requires b == if m[n].flight == [] then a else Min(a, m[n].flight[0].due)
    ensures EarliestBefore(m, n + 1, b)
  {
    if b != NEVER && b == a {
      var j :| 0 <= j < n && k[j].flight != [] && a == k[j].flight[0].due;
      assert m[j].flight != [] && b == m[j].flight[0].due;
    }
  }

  // ---- resetting a listener's queue --------------------------------------------

  /** The table as if the listener `l` were already free */
  function WithoutListener(s: Net, l: nat): Net
    requires l < |s.socks|
  {
    SetSock(s, l, s.socks[l].(state := Free))
  }

  /** What holds of the connections still to be reset while `l` closes */
  ghost predicate Resetting(s: Net, l: nat, queue: seq<nat>) {
    && l < |s.socks| && Inv(WithoutListener(s, l)) && NoDup(queue)
    && forall x :: 0 <= x < |queue| ==>
         queue[x] < |s.socks| && queue[x] != l && s.socks[queue[x]].farEnd != l
         && s.socks[queue[x]].farEnd < |s.socks| && Resettable(WithoutListener(s, l).socks, queue[x])
  }

  lemma FirstReset(s: Net, l: nat)
    requires Inv(s) && l < |s.socks| && s.socks[l].state == Listening && s.socks[l].refs == 0
    ensures Resetting(s, l, s.socks[l].backlog)
  {
    hide SockOk, Resettable;
    var queue := s.socks[l].backlog;
    FreedOk(s, l);
    InvReleasable(s.socks);
    forall x | 0 <= x < |queue|
      ensures queue[x] < |s.socks| && queue[x] != l && s.socks[queue[x]].farEnd != l
              && s.socks[queue[x]].farEnd < |s.socks| && Resettable(WithoutListener(s, l).socks, queue[x])
    {
      QueuedIsResettable(s, l, queue[x]);
    }
  }

  lemma ResetNext(s: Net, l: nat, queue: seq<nat>)
    requires Resetting(s, l, queue) && queue != []
    ensures var q := queue[0]; var near := s.socks[q].farEnd; var t := NetSpec.ResetQueued(s, q);
            && (s.socks[near].state != Closed ==> FinFits(s.socks[near]))
            && Resetting(t, l, queue[1..]) && t.socks[l] == s.socks[l] && t.now == s.now && t.latency == s.latency
  {
    hide Inv, SockOk, Deliver, Links, Queues, NotQueued;
    var q, u := queue[0], WithoutListener(s, l);
    var t := NetSpec.ResetQueued(s, q);
    ResetQueuedOk(u, q);
    ResetCommutes(s, q, l, s.socks[l].(state := Free));
    ResetOnTime(s, q);
    var v := NetSpec.ResetQueued(u, q);
    assert v == WithoutListener(t, l);
    ConnectedRoom(u, q);
    forall x | 0 <= x < |queue[1..]|
      ensures var p := queue[1..][x];
              p < |t.socks| && p != l && t.socks[p].farEnd != l && t.socks[p].farEnd < |t.socks|
              && Resettable(v.socks, p)
    {
      assert queue[1..][x] == queue[x + 1];
      StillResettable(u.socks, v.socks, q, queue[x + 1]);
    }
  }

  lemma ConnectedRoom(s: Net, q: nat)
    requires Inv(s) && q < |s.socks| && s.socks[q].state == Connected && !s.socks[q].shutWr
    ensures s.socks[q].farEnd < |s.socks| && FinFits(s.socks[s.socks[q].farEnd])
  {
    FinRoom(s, q);
  }

  lemma InvCloses(s: Net)
    requires Inv(s)
    ensures Releasable(s.socks)
  {
    InvReleasable(s.socks);
  }

  // ---- steps of a replacement ----------------------------------------------------

  lemma DropOldStep(s: Net, before: seq<FdRef>, pid: nat, sock: nat)
    requires sock < |s.socks| && DropTimes(s, pid, sock, Held(before, pid, sock)).Some?
    ensures DropOld(s, before, pid, sock)
            == DropOld(DropTimes(s, pid, sock, Held(before, pid, sock)).value, before, pid, sock + 1)
  {
  }

  lemma DropOldEnd(s: Net, before: seq<FdRef>, pid: nat)
    ensures DropOld(s, before, pid, |s.socks|) == Some(s)
  {
  }
}

/** What a caller of the virtual network sees, call by call and case by case
    (`netstate.rs`): replies, the bytes and the times they are due, and that
    nothing else changes. */
module NetRules {
  import opened NetTypes
  import opened Wire
  import opened NetSpec
  import opened NetInv

  // ---- streams ----------------------------------------------------------------

  /** How many bytes more go to `f`: 64 KB less what it has and what is in
      flight to it; and those in flight leave room for two headers more. */
  function Room(f: Sock, atOnce: bool): int {
    var ring := 65536 - |f.rx| - FlStream(f.flight);
    if atOnce then ring else Min(ring, 65536 - FlLen(f.flight) - 26)
  }

  function AtLeast0(n: int): nat { if n < 0 then 0 else n }

  /** When a payload from `from` to `f` is due */
  function DueTime(s: Net, from: nat, f: Sock): nat { if f.host == from then s.now else s.now + s.latency }

  /** A payload lands at once within a host, or where there is no latency,
      unless others are under way. */
  predicate AtOnce(s: Net, from: nat, f: Sock) { (f.host == from || s.latency == 0) && f.flight == [] }

  /** One record more is in flight, due at `due`. */
  predicate InFlight(s: Net, t: Net, dst: nat, r: Rec)
    requires dst < |s.socks|
  {
    var f := s.socks[dst];
    t == s.(socks := s.socks[dst := f.(flight := f.flight + [r])], inFlight := s.inFlight + 1,
            nextDue := if s.inFlight == 0 || r.due < s.nextDue then r.due else s.nextDue)
  }

  /** A send on an open connection: within a host the bytes are there at once,
      and the reader's event is counted; to another host they are due after the
      latency, as one record behind what is under way. Where nothing fits, the
      sender would block. */
  lemma SendRule(s: Net, sock: nat, data: seq<Byte>)
    requires Inv(s) && sock < |s.socks| && FarEndsInTable(s.socks)
    ensures var (t, r) := Send(s, sock, data);
            var k := s.socks[sock];
            && (k.state != Connected ==> (t, r) == (s, Err(Errno(ENOTCONN))))
            && (k.state == Connected ==>
                  var f := s.socks[k.farEnd];
                  if k.shutWr || f.state != Connected || f.shutRd then (t, r) == (s, Err(Errno(EPIPE)))
                  else if data == [] then (t, r) == (s, Ok(0))
                  else
                    var n := Min(|data|, AtLeast0(Room(f, AtOnce(s, k.host, f))));
                    && r == (if n == 0 then Err(WouldBlock) else Ok(n))
                    && if AtOnce(s, k.host, f) then
                         t == s.(socks := s.socks[k.farEnd := f.(rx := f.rx + data[..n], rdEvents := f.rdEvents + 1)],
                                 bytes := s.bytes + n)
                       else if n == 0 then t == s
                       else InFlight(s, t, k.farEnd, Rec(DueTime(s, k.host, f), KBytes, data[..n])))
  {
    hide Core, WholeDgrams, DgramHead, AddrFits, EncDgram;
    if s.socks[sock].state == Connected { InvSock(s, s.socks[sock].farEnd); }
  }

  lemma InvSock(s: Net, i: nat)
    requires Inv(s) && i < |s.socks|
    ensures |s.socks[i].rx| + FlStream(s.socks[i].flight) <= 65536 && FlLen(s.socks[i].flight) <= 65536
    ensures s.socks[i].flight == [] ==> FlStream(s.socks[i].flight) == 0 && FlLen(s.socks[i].flight) == 0
    ensures FlLen(s.socks[i].flight) <= 65536 - 13 || FinSeen(s.socks[i])
  {
    hide Links, Queues, RefsAgree, WholeDgrams;
    assert SockOk(s.socks[i]);
  }

  /** The FIN of a direction goes the way of its bytes: at once within a host,
      or after the latency behind what is under way. */
  predicate FinSent(s: Net, t: Net, from: nat, dst: nat)
    requires dst < |s.socks|
  {
    var f := s.socks[dst];
    if AtOnce(s, from, f) then t == s.(socks := s.socks[dst := f.(fin := true, rdEvents := f.rdEvents + 1)])
    else InFlight(s, t, dst, Rec(DueTime(s, from, f), KFin, []))
  }

  /** A shutdown: the read side drops what it has and takes no more, which the
      sender may notice; the write side sends its FIN, once. */
  lemma ShutdownRule(s: Net, sock: nat, read: bool, write: bool)
    requires Inv(s) && sock < |s.socks| && FarEndsInTable(s.socks)
    ensures var (t, r) := Shutdown(s, sock, read, write);
            var k := s.socks[sock];
            if k.state != Connected then (t, r) == (s, Err(Errno(ENOTCONN)))
            else
              && r == Ok(()) && k.farEnd < |s.socks| && k.farEnd != sock
              && var f := s.socks[k.farEnd];
                 var u := if read then s.(socks := s.socks[sock := k.(shutRd := true, rx := [])]
                                                          [k.farEnd := f.(wrEvents := f.wrEvents + 1)]) else s;
                 if write && !k.shutWr
                 then FinSent(u.(socks := u.socks[sock := u.socks[sock].(shutWr := true)]), t, k.host, k.farEnd)
                 else t == u
  {
    if s.socks[sock].state == Connected {
      FarApart(s, sock);
      hide *;
      ShutTwo(s, sock, read, write);
    } else {
      hide Inv, FarEndsInTable, Deliver;
    }
  }

  /** The two halves of a shutdown */
  lemma ShutTwo(s: Net, sock: nat, read: bool, write: bool)
    requires sock < |s.socks| && s.socks[sock].state == Connected
    requires s.socks[sock].farEnd < |s.socks| && s.socks[sock].farEnd != sock
    ensures var (t, r) := Shutdown(s, sock, read, write);
            var k := s.socks[sock];
            var f := s.socks[k.farEnd];
            var u := if read then s.(socks := s.socks[sock := k.(shutRd := true, rx := [])]
                                                     [k.farEnd := f.(wrEvents := f.wrEvents + 1)]) else s;
            && r == Ok(())
            && if write && !k.shutWr
               then FinSent(u.(socks := u.socks[sock := u.socks[sock].(shutWr := true)]), t, k.host, k.farEnd)
               else t == u
  {
    hide Deliver, FinSent;
    var k := s.socks[sock];
    var u := if read then s.(socks := s.socks[sock := k.(shutRd := true, rx := [])]
                                     [k.farEnd := s.socks[k.farEnd].(wrEvents := s.socks[k.farEnd].wrEvents + 1)])
             else s;
    FinGoes(u.(socks := u.socks[sock := u.socks[sock].(shutWr := true)]), k.host, k.farEnd);
  }

  lemma FinGoes(s: Net, from: nat, dst: nat)
    requires dst < |s.socks|
    ensures FinSent(s, Deliver(s, from, dst, PFin).0, from, dst)
  {
    hide EncDgram;
  }

  lemma FarApart(s: Net, i: nat)
    requires Inv(s) && i < |s.socks| && (s.socks[i].state == Connected || s.socks[i].state == Closed)
    ensures s.socks[i].farEnd < |s.socks| && s.socks[i].farEnd != i
  {
    hide Queues, RefsAgree, SockOk;
    assert Linked(s.socks, i);
  }

  /** A receive gives as much as there is, up to what is wanted, from the
      front, and unless it peeks the sender may notice the room; where there is
      nothing, end of stream, or nothing yet. */
  lemma RecvRule(s: Net, sock: nat, want: nat, peek: bool)
    requires Inv(s) && sock < |s.socks| && FarEndsInTable(s.socks)
    ensures var (t, r) := Recv(s, sock, want, peek);
            var k := s.socks[sock];
            if k.state != Connected then (t, r) == (s, Err(Errno(ENOTCONN)))
            else if k.rx == [] then (t, r) == (s, if k.fin || k.shutRd || want == 0 then Ok([]) else Err(WouldBlock))
            else
              var n := Min(want, |k.rx|);
              && r == Ok(k.rx[..n])
              && if peek then t == s
                 else k.farEnd < |s.socks| && k.farEnd != sock
                      && t == s.(socks := s.socks[sock := k.(rx := k.rx[n..])]
                                                 [k.farEnd :=
                                                   s.socks[k.farEnd].(wrEvents := s.socks[k.farEnd].wrEvents + 1)])
  {
    hide Core, WholeDgrams, DgramHead, AddrFits, EncDgram;
    if s.socks[sock].state == Connected { FarApart(s, sock); }
  }

  /** A socket is readable exactly when a receive, or an accept, would not
      block, or would be refused. */
  lemma ReadableIsReceivable(s: Net, sock: nat, want: nat)
    requires Inv(s) && sock < |s.socks| && FarEndsInTable(s.socks) && want > 0
    ensures var k := s.socks[sock];
            Readable(k) <==>
              if k.kind == Dgram then
                (k.rx != [] ==> DgramHead(k.rx)) && RecvDgram(s, sock, want, true).1 != Err(WouldBlock)
              else if k.state == Listening then Accept(s, sock).1 != Err(WouldBlock)
              else Recv(s, sock, want, true).1 != Err(WouldBlock)
  {
    hide Links, Queues, RefsAgree;
    assert SockOk(s.socks[sock]);
  }

  // ---- sockets and their names ---------------------------------------------------

  /** A new socket takes the first free record, with nothing left in it of its
      earlier life; what was in flight to that is no longer counted. */
  lemma NewSocketRule(s: Net, host: nat, family: Family, kind: Kind)
    requires Inv(s)
    ensures |s.socks| == 256 && |s.fdrefs| == 1024 && |s.hosts| <= 32
    ensures var (t, r) := NewSocket(s, host, family, kind);
            match r
            case Err(e) => t == s && e == Errno(ENFILE) && forall i :: 0 <= i < |s.socks| ==> s.socks[i].state != Free
            case Ok(i) =>
              && i < |s.socks| && s.socks[i].state == Free && (forall j :: 0 <= j < i ==> s.socks[j].state != Free)
              && |s.socks[i].flight| <= s.inFlight
              && t == s.(socks := s.socks[i := t.socks[i]], inFlight := s.inFlight - |s.socks[i].flight|)
              && t.socks[i] == Sock(New, kind, family, false, false, false, false, host, 0, 0xFFFF_FFFF,
                                    Addr(NoFamily, 0, 0, []), Addr(NoFamily, 0, 0, []), [], 0, [], 0, 0, [])
  {
    hide Links, Queues, RefsAgree, SockOk;
    var i := FirstFree(s.socks, 0);
    if i < |s.socks| { TotalUpdate(s.socks, i, s.socks[i]); }
  }

  /** Somebody on the host is bound to the port, or listens on it, for sockets
      of this kind. */
  predicate PortTaken(k: seq<Sock>, host: nat, kind: Kind, port: nat) {
    exists i :: 0 <= i < |k| && (k[i].state == Bound || k[i].state == Listening) && k[i].host == host
      && k[i].kind == kind
                && k[i].local.family == Inet && k[i].local.port == port
  }

  lemma TakenIs(k: seq<Sock>, host: nat, kind: Kind, ip: nat, port: nat)
    ensures NameTaken(k, host, kind, InetAddr(ip, port)) <==> PortTaken(k, host, kind, port)
  {
    if NameTaken(k, host, kind, InetAddr(ip, port)) {
      var i :| 0 <= i < |k| && TakesName(k[i], host, kind, InetAddr(ip, port));
    }
    if PortTaken(k, host, kind, port) {
      var i :| 0 <= i < |k| && (k[i].state == Bound || k[i].state == Listening) && k[i].host == host
        && k[i].kind == kind
               && k[i].local.family == Inet && k[i].local.port == port;
      assert TakesName(k[i], host, kind, InetAddr(ip, port));
    }
  }

  /** The `j`th port from `first` on; after 65535 comes 49152. */
  function PortAfter(first: nat, j: nat): (p: nat)
    requires 49152 <= first <= 65535
    ensures 49152 <= p <= 65535
  {
    49152 + (first - 49152 + j) % 16384
  }

  /** A port nobody asked for is the first from the host's next one on that is
      not taken, round the ephemeral range; the host's next port is the one
      behind it. */
  lemma {:induction false} PortRule(s: Net, host: nat, kind: Kind, tries: nat)
    requires host < |s.hosts| && 49152 <= s.hosts[host].nextPort <= 65535
    ensures PortIs(s, s.socks, EphemeralPort(s, host, kind, tries), host, kind, s.hosts[host].nextPort, tries)
    decreases tries
  {
    hide PortTaken, NameTaken;
    if tries > 0 {
      var first := s.hosts[host].nextPort;
      TakenIs(s.socks, host, kind, 0, first);
      assert PortAfter(first, 0) == first;
      var next := PortAfter(first, 1);
      assert next == if first == 65535 then 49152 else first + 1;
      if !NameTaken(s.socks, host, kind, InetAddr(0, first)) {
        assert FoundAt(s, s.socks, EphemeralPort(s, host, kind, tries).0, first, host, kind, first, 0);
      } else {
        var s1 := s.(hosts := s.hosts[host := s.hosts[host].(nextPort := next)]);
        PortRule(s1, host, kind, tries - 1);
        forall i: nat ensures PortAfter(next, i) == PortAfter(first, i + 1) { Around(first, i); }
        PortShift(s, s1, host, kind, first, tries);
      }
    }
  }

  /** What holds of the port after the first holds from the first on. */
  lemma PortShift(s: Net, s1: Net, host: nat, kind: Kind, first: nat, tries: nat)
    requires tries > 0 && host < |s.hosts| && 49152 <= first <= 65535 && s.hosts[host].nextPort == first
    requires PortTaken(s.socks, host, kind, first) && PortAfter(first, 0) == first
    requires s1 == s.(hosts := s.hosts[host := s.hosts[host].(nextPort := PortAfter(first, 1))])
    requires forall i: nat :: PortAfter(PortAfter(first, 1), i) == PortAfter(first, i + 1)
    requires PortIs(s1, s.socks, EphemeralPort(s1, host, kind, tries - 1), host, kind, PortAfter(first, 1), tries - 1)
    ensures PortIs(s, s.socks, EphemeralPort(s1, host, kind, tries - 1), host, kind, first, tries)
  {
    hide PortTaken, EphemeralPort, PortAfter;
    var (t, r) := EphemeralPort(s1, host, kind, tries - 1);
    forall i: nat | 0 < i < tries && PortTaken(s.socks, host, kind, PortAfter(PortAfter(first, 1), i - 1))
      ensures PortTaken(s.socks, host, kind, PortAfter(first, i))
    {
    }
    if r.Ok? {
      var j: nat :| FoundAt(s1, s.socks, t, r.value, host, kind, PortAfter(first, 1), j) && j < tries - 1;
      forall i: nat | i < j + 1 ensures PortTaken(s.socks, host, kind, PortAfter(first, i)) {
        if i > 0 { assert PortTaken(s.socks, host, kind, PortAfter(PortAfter(first, 1), i - 1)); }
      }
      assert FoundAt(s, s.socks, t, r.value, host, kind, first, j + 1);
    } else {
      forall i: nat | i < tries ensures PortTaken(s.socks, host, kind, PortAfter(first, i)) {
        if i > 0 { assert PortTaken(s.socks, host, kind, PortAfter(PortAfter(first, 1), i - 1)); }
      }
    }
  }

  /** The `j`th port from `first` on is the first that is not taken. */
  ghost predicate FoundAt(s: Net, k: seq<Sock>, t: Net, p: nat, host: nat, kind: Kind, first: nat, j: nat)
    requires host < |s.hosts| && 49152 <= first <= 65535
  {
    && p == PortAfter(first, j) && !PortTaken(k, host, kind, p)
    && (forall i: nat :: i < j ==> PortTaken(k, host, kind, PortAfter(first, i)))
    && t == s.(hosts := s.hosts[host := s.hosts[host].(nextPort := PortAfter(first, j + 1))])
  }

  ghost predicate PortIs(s: Net, k: seq<Sock>, r: (Net, Result<nat>), host: nat, kind: Kind, first: nat, tries: nat)
    requires host < |s.hosts| && 49152 <= first <= 65535
  {
    match r.1
    case Ok(p) => exists j: nat :: j < tries && FoundAt(s, k, r.0, p, host, kind, first, j)
    case Err(e) =>
      e == Errno(EADDRINUSE) && forall i: nat :: i < tries ==> PortTaken(k, host, kind, PortAfter(first, i))
  }

  lemma Around(first: nat, i: nat)
    requires 49152 <= first <= 65535
    ensures PortAfter(PortAfter(first, 1), i) == PortAfter(first, i + 1)
  {
  }

  /** Whether the name is refused before any table is looked at */
  predicate OwnAddress(s: Net, k: Sock, addr: Addr)
    requires k.host < |s.hosts|
  {
    k.family != Inet || addr.ip == 0 || addr.ip / 0x100_0000 == 127 || addr.ip == s.hosts[k.host].addr
  }

  /** A UNIX path somebody on the host has bound or listens on */
  predicate PathTaken(k: seq<Sock>, host: nat, kind: Kind, path: seq<Byte>) {
    exists i :: 0 <= i < |k| && (k[i].state == Bound || k[i].state == Listening) && k[i].host == host
      && k[i].kind == kind
                && k[i].local.family == Unix && k[i].local.path == path
  }

  lemma PathTakenIs(k: seq<Sock>, host: nat, kind: Kind, addr: Addr)
    requires addr.family == Unix
    ensures NameTaken(k, host, kind, addr) <==> PathTaken(k, host, kind, addr.path)
  {
    if NameTaken(k, host, kind, addr) { var i :| 0 <= i < |k| && TakesName(k[i], host, kind, addr); }
    if PathTaken(k, host, kind, addr.path) {
      var i :| 0 <= i < |k| && (k[i].state == Bound || k[i].state == Listening) && k[i].host == host
        && k[i].kind == kind
               && k[i].local.family == Unix && k[i].local.path == addr.path;
      assert TakesName(k[i], host, kind, addr);
    }
  }

  /** A bind that names its port or path: only a new socket, of that family, by
      an address of its own host that nobody has taken; then the socket is
      bound to it, and nothing else changes. */
  lemma BindRule(s: Net, sock: nat, addr: Addr)
    requires Inv(s) && sock < |s.socks| && s.socks[sock].host < |s.hosts|
    requires s.socks[sock].family == addr.family == Inet ==> addr.port != 0
    requires addr.family == Inet ==> addr.path == []
    requires addr.family != NoFamily
    ensures var (t, r) := Bind(s, sock, addr);
            var k := s.socks[sock];
            if k.state != New then (t, r) == (s, Err(Errno(EINVAL)))
            else if k.family != addr.family then (t, r) == (s, Err(Errno(EAFNOSUPPORT)))
            else if !OwnAddress(s, k, addr) then (t, r) == (s, Err(Errno(EADDRNOTAVAIL)))
            else if (if k.family == Inet then PortTaken(s.socks, k.host, k.kind, addr.port)
                     else PathTaken(s.socks, k.host, k.kind, addr.path)) then (t, r) == (s, Err(Errno(EADDRINUSE)))
            else r == Ok(()) && t == s.(socks := s.socks[sock := k.(local := addr, state := Bound)])
  {
    var k := s.socks[sock];
    hide NameTaken, PortTaken, PathTaken, Inv;
    if k.family == addr.family == Inet {
      assert addr == InetAddr(addr.ip, addr.port);
      TakenIs(s.socks, k.host, k.kind, addr.ip, addr.port);
    }
    if k.family == addr.family == Unix { PathTakenIs(s.socks, k.host, k.kind, addr); }
  }

  /** A bind to port 0 is a bind to a port of the host's choice. */
  lemma BindAnyRule(s: Net, sock: nat, ip: nat)
    requires Inv(s) && sock < |s.socks| && s.socks[sock].host < |s.hosts|
    requires s.socks[sock].state == New && s.socks[sock].family == Inet && OwnAddress(s, s.socks[sock], InetAddr(ip, 0))
    requires 49152 <= s.hosts[s.socks[sock].host].nextPort <= 65535
    ensures var (t, r) := Bind(s, sock, InetAddr(ip, 0));
            var k := s.socks[sock];
            var (u, p) := EphemeralPort(s, k.host, k.kind, 16384);
            if p.Err? then (t, r) == (u, Err(p.error))
            else r == Ok(()) && t == u.(socks := s.socks[sock := k.(local := InetAddr(ip, p.value), state := Bound)])
  {
    var k := s.socks[sock];
    hide NameTaken, PortTaken, Inv;
    PortRule(s, k.host, k.kind, 16384);
    var (u, p) := EphemeralPort(s, k.host, k.kind, 16384);
    if p.Ok? { TakenIs(s.socks, k.host, k.kind, ip, p.value); }
  }

  /** Listening: for streams only; a UNIX-domain socket has to have a path
      first, an inet one gets a port; and the queue is as long as asked,
      between 1 and 32. */
  lemma ListenRule(s: Net, sock: nat, backlog: int)
    requires Inv(s) && sock < |s.socks| && s.socks[sock].host < |s.hosts|
    ensures var (t, r) := Listen(s, sock, backlog);
            var k := s.socks[sock];
            if k.kind != Stream then (t, r) == (s, Err(Errno(EOPNOTSUPP)))
            else if k.state == New && k.family != Inet then (t, r) == (s, Err(Errno(EDESTADDRREQ)))
            else if k.state == New then
              var (u, b) := Bind(s, sock, InetAddr(0, 0));
              if b.Err? then (t, r) == (u, b) else Listens(u, t, r, sock, backlog)
            else if k.state != Bound && k.state != Listening then (t, r) == (s, Err(Errno(EINVAL)))
            else Listens(s, t, r, sock, backlog)
  {
    hide Inv, NameTaken, EphemeralPort;
  }

  predicate Listens(s: Net, t: Net, r: Result<()>, sock: nat, backlog: int)
    requires sock < |s.socks|
  {
    var max: nat := if backlog < 1 then 1 else if backlog > 32 then 32 else backlog;
    r == Ok(()) && t == s.(socks := s.socks[sock := s.socks[sock].(state := Listening, backlogMax := max)])
  }

  // ---- connections --------------------------------------------------------------------

  /** `l` would take a connection of this kind to `dest` on that host: by port
      or path, and for inet sockets by the address it listens on, which is any,
      loopback, or the one asked for. */
  predicate Awaits(l: Sock, host: nat, kind: Kind, family: Family, dest: Addr) {
    && l.state == Listening && l.host == host && l.kind == kind && l.local.family == dest.family
    && (if dest.family == Inet then l.local.port == dest.port else dest.family == Unix && l.local.path == dest.path)
    && (family != Inet || l.local.ip == 0 || (l.local.ip / 0x100_0000 == 127 && dest.ip / 0x100_0000 == 127)
        || l.local.ip == dest.ip)
  }

  lemma SameListeners(host: nat, kind: Kind, family: Family, dest: Addr)
    ensures forall l: Sock :: IsListenerFor(l, host, kind, family, dest) <==> Awaits(l, host, kind, family, dest)
  {
  }

  /** `l` is the first socket of the table that would take the connection. */
  predicate FirstAwaits(k: seq<Sock>, l: nat, host: nat, kind: Kind, family: Family, dest: Addr) {
    l < |k| && Awaits(k[l], host, kind, family, dest) && forall m :: 0 <= m < l ==>
      !Awaits(k[m], host, kind, family, dest)
  }

  /** A connect: refused unless somebody there listens, and the first who does
      has room in its queue. */
  lemma ConnectRefused(s: Net, sock: nat, destHost: nat, dest: Addr)
    requires sock < |s.socks| && s.socks[sock].host < |s.hosts|
    ensures var (t, r) := Connect(s, sock, destHost, dest);
            var k := s.socks[sock];
            && (k.state == Connected ==> (t, r) == (s, Err(Errno(EISCONN))))
            && (k.state == Listening || k.state == Closed || k.state == Free ==> (t, r) == (s, Err(Errno(EINVAL))))
            && ((k.state == New || k.state == Bound)
                && (forall l: nat :: FirstAwaits(s.socks, l, destHost, k.kind, k.family, dest) ==>
                      |s.socks[l].backlog| >= s.socks[l].backlogMax) ==>
                  (t, r) == (s, Err(Errno(ECONNREFUSED))))
  {
    var k := s.socks[sock];
    SameListeners(destHost, k.kind, k.family, dest);
    hide Awaits, IsListenerFor, ConnectTo;
    var l := FirstListener(s.socks, destHost, k.kind, k.family, dest, 0);
    if l < |s.socks| { assert FirstAwaits(s.socks, l, destHost, k.kind, k.family, dest); }
  }

  /** The caller's end and a new one on the other host name each other; the new
      one is last in the listener's queue. */
  predicate Meet(s: Net, t: Net, sock: nat, near: Addr, host: nat, far: Addr, l: nat, q: nat)
    requires sock < |s.socks| && l < |s.socks| && q < |s.socks|
  {
    var k, at := s.socks[sock], s.socks[l];
    && s.socks[q].state == Free && (forall j :: 0 <= j < q ==> s.socks[j].state != Free)
    && |s.socks[q].flight| <= s.inFlight
    && t == s.(socks := s.socks
                        [sock := k.(state := Connected, local := near, peer := far, farEnd := q)]
                        [q := Sock(Connected, k.kind, k.family, false, false, false, false, host, 0, sock,
                                   far, near, [], 0, [], 0, 0, [])]
                        [l := at.(backlog := at.backlog + [q], rdEvents := at.rdEvents + 1)],
               inFlight := s.inFlight - |s.socks[q].flight|, connections := s.connections + 1)
  }

  /** A connect to a listener with room: the near end has its own name, or
      for a new inet socket a port of its own, at the address the listener
      would answer to; the far end has the listener's name, at the address
      that was asked for. */
  lemma ConnectRule(s: Net, sock: nat, destHost: nat, dest: Addr, l: nat)
    requires Inv(s) && sock < |s.socks| && s.socks[sock].host < |s.hosts|
    requires s.socks[sock].state == New || s.socks[sock].state == Bound
    requires FirstAwaits(s.socks, l, destHost, s.socks[sock].kind, s.socks[sock].family, dest)
    requires |s.socks[l].backlog| < s.socks[l].backlogMax
    ensures var (t, r) := Connect(s, sock, destHost, dest);
            var k := s.socks[sock];
            var own := k.state == New && k.family == Inet;
            var (u, p) := if own then EphemeralPort(s, k.host, k.kind, 16384) else (s, Ok(0));
            if p.Err? then (t, r) == (u, Err(p.error))
            else
              var near := if !own then k.local
                          else Addr(Inet, p.value, if dest.ip / 0x100_0000 == 127 then 0x7F00_0001
                            else s.hosts[k.host].addr, []);
              var far := if k.family == Inet then s.socks[l].local.(ip := dest.ip) else s.socks[l].local;
              match r
              case Ok(_) => exists q: nat :: q < |u.socks| && Meet(u, t, sock, near, destHost, far, l, q)
              case Err(e) => e == Errno(ENFILE) && forall j :: 0 <= j < |s.socks| ==> s.socks[j].state != Free
  {
    var k := s.socks[sock];
    SameListeners(destHost, k.kind, k.family, dest);
    InvTotal(s);
    AwaitsListens(s.socks[l], destHost, k.kind, k.family, dest);
    hide *;
    hide EphemeralPort, NearName, Prepared, Couple, Meet;
    FirstIs(s.socks, l, destHost, k.kind, k.family, dest);
    ConnectGoes(s, sock, destHost, dest, l);
    NearRule(s, sock, dest);
    var (s1, near) := NearName(s, sock, dest);
    if near.Ok? {
      MeetRule(s1, sock, near.value, destHost, FarName(k.family, s.socks[l].local, dest), l);
      FarNameIs(k.family, s.socks[l].local, dest);
      var r := Prepared(s1, sock, near.value, destHost).1;
      if r.Ok? { assert Meet(s1, Connect(s, sock, destHost, dest).0, sock, near.value, destHost,
                             FarName(k.family, s.socks[l].local, dest), l, r.value); }
    }
  }

  lemma FirstIs(k: seq<Sock>, l: nat, host: nat, kind: Kind, family: Family, dest: Addr)
    requires FirstAwaits(k, l, host, kind, family, dest)
    requires forall l: Sock :: IsListenerFor(l, host, kind, family, dest) <==> Awaits(l, host, kind, family, dest)
    ensures FirstListener(k, host, kind, family, dest, 0) == l
  {
    hide Awaits, IsListenerFor;
  }

  lemma FarNameIs(family: Family, listener: Addr, dest: Addr)
    ensures FarName(family, listener, dest) == if family == Inet then listener.(ip := dest.ip) else listener
  {
  }

  lemma ConnectGoes(s: Net, sock: nat, destHost: nat, dest: Addr, l: nat)
    requires sock < |s.socks| && s.socks[sock].host < |s.hosts| && l < |s.socks|
    requires s.socks[sock].state == New || s.socks[sock].state == Bound
    requires FirstListener(s.socks, destHost, s.socks[sock].kind, s.socks[sock].family, dest, 0) == l
    requires |s.socks[l].backlog| < s.socks[l].backlogMax
    ensures var (s1, near) := NearName(s, sock, dest);
            if near.Err? then Connect(s, sock, destHost, dest) == (s1, Err(near.error))
            else
              var (s3, made) := Prepared(s1, sock, near.value, destHost);
              Connect(s, sock, destHost, dest)
              == if made.Err? then (s3, Err(made.error))
                 else (Couple(s3, sock, made.value, l, near.value,
                              FarName(s.socks[sock].family, s.socks[l].local, dest)), Ok(()))
  {
    hide NearName, Prepared, Couple, FirstListener;
  }

  lemma NearRule(s: Net, sock: nat, dest: Addr)
    requires sock < |s.socks| && s.socks[sock].host < |s.hosts|
    ensures var (t, r) := NearName(s, sock, dest);
            var k := s.socks[sock];
            && t.socks == s.socks && t == s.(hosts := t.hosts)
            && if k.state == New && k.family == Inet then
                 var (u, p) := EphemeralPort(s, k.host, k.kind, 16384);
                 t == u && r == match p
                                case Err(e) => Err(e)
                                case Ok(port) => Ok(Addr(Inet, port, if dest.ip / 0x100_0000 == 127 then 0x7F00_0001
                                                                     else s.hosts[k.host].addr, []))
               else t == s && r == Ok(k.local)
  {
    PortHosts(s, s.socks[sock].host, s.socks[sock].kind);
    hide EphemeralPort;
  }

  lemma PortHosts(s: Net, host: nat, kind: Kind)
    requires host < |s.hosts|
    ensures EphemeralPort(s, host, kind, PORT_TRIES) == EphemeralPort(s, host, kind, 16384)
    ensures var t := EphemeralPort(s, host, kind, 16384).0; t.socks == s.socks && t == s.(hosts := t.hosts)
  {
    hide EphemeralPort;
  }

  /** The two ends meet, if there is a record for the far one. */
  lemma MeetRule(s: Net, sock: nat, near: Addr, host: nat, far: Addr, l: nat)
    requires sock < |s.socks| && l < |s.socks| && s.socks[sock].state != Free && s.socks[l].state == Listening
    requires s.socks[sock].state != Listening
    requires forall i :: 0 <= i < |s.socks| ==> |s.socks[i].flight| <= s.inFlight
    ensures var (u, r) := Prepared(s, sock, near, host);
            match r
            case Ok(q) => q < |s.socks| && Meet(s, Couple(u, sock, q, l, near, far), sock, near, host, far, l, q)
            case Err(e) => e == Errno(ENFILE) && forall j :: 0 <= j < |s.socks| ==> s.socks[j].state != Free
  {
    hide Couple, Meet;
    var k0 := s.socks[sock := s.socks[sock].(local := near)];
    assert forall j :: 0 <= j < |s.socks| ==> k0[j].state == s.socks[j].state && k0[j].flight == s.socks[j].flight;
    var (u, r) := Prepared(s, sock, near, host);
    if r.Ok? { CoupleRule(s, u, sock, near, host, far, l, r.value); }
  }

  lemma CoupleRule(s: Net, u: Net, sock: nat, near: Addr, host: nat, far: Addr, l: nat, q: nat)
    requires sock < |s.socks| && l < |s.socks| && q < |s.socks| && |u.socks| == |s.socks|
    requires s.socks[sock].state != Free && s.socks[l].state == Listening && s.socks[sock].state != Listening
    requires s.socks[q].state == Free && (forall j :: 0 <= j < q ==> s.socks[j].state != Free)
    requires |s.socks[q].flight| <= s.inFlight
    requires u == s.(socks := s.socks[sock := s.socks[sock].(local := near)]
                                     [q := FreshSock(host, s.socks[sock].family, s.socks[sock].kind)],
                     inFlight := s.inFlight - |s.socks[q].flight|)
    ensures Meet(s, Couple(u, sock, q, l, near, far), sock, near, host, far, l, q)
  {
  }

  lemma AwaitsListens(l: Sock, host: nat, kind: Kind, family: Family, dest: Addr)
    requires Awaits(l, host, kind, family, dest)
    ensures l.state == Listening
  {
  }

  lemma InvTotal(s: Net)
    requires Inv(s)
    ensures forall i :: 0 <= i < |s.socks| ==> |s.socks[i].flight| <= s.inFlight
  {
    hide Links, Queues, RefsAgree, AllSocks;
    forall i | 0 <= i < |s.socks| ensures |s.socks[i].flight| <= s.inFlight { TotalUpdate(s.socks, i, s.socks[i]); }
  }

  // ---- closing ------------------------------------------------------------------------

  /** What a close sends and leaves behind: a connection's other end gets the
      FIN, unless a shutdown has sent it, and may notice; the two records are
      free once both ends are closed. */
  lemma ReleaseRule(s: Net, sock: nat)
    requires Inv(s) && sock < |s.socks| && Releasable(s.socks) && s.socks[sock].state != Listening
    ensures var t := Release(s, sock);
            var k := s.socks[sock];
            if k.state != Connected then t == s.(socks := s.socks[sock := k.(state := Free)])
            else
              && k.farEnd < |s.socks| && k.farEnd != sock
              && var f := s.socks[k.farEnd];
                 if f.state == Closed then
                   t == s.(socks := s.socks[k.farEnd := f.(state := Free)][sock := k.(state := Free)])
                 else exists u: Net :: |u.socks| == |s.socks| && u.socks[sock] == k
                        && (if k.shutWr then u == s else FinSent(s, u, k.host, k.farEnd))
                        && t == u.(socks := u.socks[k.farEnd := u.socks[k.farEnd].(wrEvents := f.wrEvents + 1)]
                                                   [sock := k.(state := Closed)])
  {
    hide Core, WholeDgrams, DgramHead, AddrFits, EncDgram;
    var k := s.socks[sock];
    if k.state == Connected {
      FarApart(s, sock);
      if s.socks[k.farEnd].state != Closed { ClosedRule(s, sock); }
    }
  }

  /** One end closes, or is reset, while the other is open. */
  lemma ClosedRule(s: Net, sock: nat)
    requires sock < |s.socks|
    requires s.socks[sock].farEnd < |s.socks| && s.socks[sock].farEnd != sock
    ensures var k := s.socks[sock];
            var u := if k.shutWr then s else Deliver(s, k.host, k.farEnd, PFin).0;
            && |u.socks| == |s.socks| && u.socks[sock] == k && u.socks[k.farEnd].wrEvents == s.socks[k.farEnd].wrEvents
            && (!k.shutWr ==> FinSent(s, u, k.host, k.farEnd))
  {
    FinGoes(s, s.socks[sock].host, s.socks[sock].farEnd);
    hide EncDgram;
  }

  /** A connection nobody has accepted when its listener goes: the other end
      gets a FIN too. */
  lemma ResetRule(s: Net, q: nat)
    requires Inv(s) && q < |s.socks| && s.socks[q].state == Connected && s.socks[q].farEnd < |s.socks|
    requires !s.socks[q].shutWr && Releasable(s.socks)
    ensures ResetQueued(s, q) == Release(s, q)
  {
    FarApart(s, q);
    hide Inv, Deliver;
  }
}

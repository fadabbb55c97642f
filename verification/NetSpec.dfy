/** What every operation of the virtual network does, as functions from the
    network's state to the new state and the caller's result. */
module NetSpec {
  import opened Wrappers
  import opened NetTypes
  import opened Wire

  // ---- tables -------------------------------------------------------------

  /** Index of the first free record from `i` on; the table's length if none */
  function FirstFree(k: seq<Sock>, i: nat): (r: nat)
    requires i <= |k|
    ensures i <= r <= |k|
    ensures r < |k| ==> k[r].state == Free
    ensures forall j :: i <= j < r ==> k[j].state != Free
    decreases |k| - i
  {
    if i == |k| || k[i].state == Free then i else FirstFree(k, i + 1)
  }

  predicate TakesName(k: Sock, host: nat, kind: Kind, addr: Addr) {
    (k.state == Bound || k.state == Listening) && k.host == host && k.kind == kind
    && SameName(k.local, addr)
  }

  predicate NameTaken(k: seq<Sock>, host: nat, kind: Kind, addr: Addr) {
    exists i :: 0 <= i < |k| && TakesName(k[i], host, kind, addr)
  }

  /** Whether an address bound as `local` is reached through `dest` */
  predicate Reaches(family: Family, local: Addr, dest: Addr) {
    SameName(local, dest)
    && (family != Inet || local.ip == 0 || (IsLoopback(local.ip) && IsLoopback(dest.ip))
        || local.ip == dest.ip)
  }

  predicate IsListenerFor(l: Sock, host: nat, kind: Kind, family: Family, dest: Addr) {
    l.state == Listening && l.host == host && l.kind == kind && Reaches(family, l.local, dest)
  }

  function FirstListener(k: seq<Sock>, host: nat, kind: Kind, family: Family, dest: Addr, i: nat): (r: nat)
    requires i <= |k|
    ensures i <= r <= |k|
    ensures r < |k| ==> IsListenerFor(k[r], host, kind, family, dest)
    ensures forall j :: i <= j < r ==> !IsListenerFor(k[j], host, kind, family, dest)
    decreases |k| - i
  {
    if i == |k| || IsListenerFor(k[i], host, kind, family, dest) then i
    else FirstListener(k, host, kind, family, dest, i + 1)
  }

  /** A bound datagram socket `dest` names, whose default peer, if it has one,
      is the sender */
  predicate IsReceiverFor(t: Sock, host: nat, family: Family, dest: Addr, from: Addr) {
    t.kind == Dgram && t.state == Bound && t.host == host && Reaches(family, t.local, dest)
    && (t.hasPeer ==> SameName(t.peer, from) && t.peer.ip == from.ip)
  }

  function FirstReceiver(k: seq<Sock>, host: nat, family: Family, dest: Addr, from: Addr, i: nat): (r: nat)
    requires i <= |k|
    ensures i <= r <= |k|
    ensures r < |k| ==> IsReceiverFor(k[r], host, family, dest, from)
    ensures forall j :: i <= j < r ==> !IsReceiverFor(k[j], host, family, dest, from)
    decreases |k| - i
  {
    if i == |k| || IsReceiverFor(k[i], host, family, dest, from) then i
    else FirstReceiver(k, host, family, dest, from, i + 1)
  }

  function SetSock(s: Net, i: nat, k: Sock): Net
    requires i < |s.socks|
  {
    s.(socks := s.socks[i := k])
  }

  function FreshSock(host: nat, family: Family, kind: Kind): Sock {
    Sock(New, kind, family, false, false, false, false, host, 0, NO_SOCK,
         NO_ADDR, NO_ADDR, [], 0, [], 0, 0, [])
  }

  // ---- making and naming sockets -------------------------------------------

  /** The first free record, new again; what was in flight to its previous
      life is no longer counted. */
  function NewSocket(s: Net, host: nat, family: Family, kind: Kind): (Net, Result<nat>) {
    var i := FirstFree(s.socks, 0);
    if i == |s.socks| then (s, Err(Errno(ENFILE)))
    else
      (SetSock(s, i, FreshSock(host, family, kind))
       .(inFlight := SatSub(s.inFlight, |s.socks[i].flight|)), Ok(i))
  }

  const PORT_TRIES: nat := LAST_PORT - FIRST_EPHEMERAL + 1

  function EphemeralPort(s: Net, host: nat, kind: Kind, tries: nat): (r: (Net, Result<nat>))
    requires host < |s.hosts|
    ensures r.0.socks == s.socks && r.0.fdrefs == s.fdrefs && |r.0.hosts| == |s.hosts|
    ensures r.0 == s.(hosts := r.0.hosts)
    ensures r.1.Ok? ==> !NameTaken(s.socks, host, kind, InetAddr(0, r.1.value))
    decreases tries
  {
    if tries == 0 then (s, Err(Errno(EADDRINUSE)))
    else
      var port := s.hosts[host].nextPort;
      var next := if port == LAST_PORT then FIRST_EPHEMERAL else port + 1;
      var s1 := s.(hosts := s.hosts[host := s.hosts[host].(nextPort := next)]);
      if !NameTaken(s.socks, host, kind, InetAddr(0, port)) then (s1, Ok(port))
      else EphemeralPort(s1, host, kind, tries - 1)
  }

  /** The port asked for, or one that is free */
  function BindPort(s: Net, k: Sock, addr: Addr): (r: (Net, Result<nat>))
    requires k.host < |s.hosts|
    ensures r.0 == s.(hosts := r.0.hosts) && |r.0.hosts| == |s.hosts|
  {
    if k.family == Inet && addr.port == 0 then EphemeralPort(s, k.host, k.kind, PORT_TRIES) else (s, Ok(addr.port))
  }

  function Bind(s: Net, sock: nat, addr: Addr): (r: (Net, Result<()>))
    requires sock < |s.socks| && s.socks[sock].host < |s.hosts|
    ensures |r.0.socks| == |s.socks| && |r.0.hosts| == |s.hosts|
    ensures r.0.socks[sock].host == s.socks[sock].host
  {
    var k := s.socks[sock];
    if k.state != New then (s, Err(Errno(EINVAL)))
    else if addr.family != k.family then (s, Err(Errno(EAFNOSUPPORT)))
    else if k.family == Inet && addr.ip != 0 && !IsLoopback(addr.ip) && addr.ip != s.hosts[k.host].addr then
      (s, Err(Errno(EADDRNOTAVAIL)))
    else
      var (s1, port) := BindPort(s, k, addr);
      if port.Err? then (s1, Err(port.error))
      else
        var a := addr.(port := port.value);
        if NameTaken(s1.socks, k.host, k.kind, a) then (s1, Err(Errno(EADDRINUSE)))
        else (SetSock(s1, sock, k.(local := a, state := Bound)), Ok(()))
  }

  function Listen(s: Net, sock: nat, backlog: int): (Net, Result<()>)
    requires sock < |s.socks| && s.socks[sock].host < |s.hosts|
  {
    var k := s.socks[sock];
    if k.kind != Stream then (s, Err(Errno(EOPNOTSUPP)))
    else if k.state == New && k.family != Inet then (s, Err(Errno(EDESTADDRREQ)))
    else
      var (s1, bound) := if k.state == New then Bind(s, sock, InetAddr(0, 0)) else (s, Ok(()));
      if bound.Err? then (s1, bound)
      else
        var k1 := s1.socks[sock];
        if k1.state != Bound && k1.state != Listening then (s1, Err(Errno(EINVAL)))
        else
          var max := if backlog < 1 then 1 else Min(backlog, BACKLOG);
          (SetSock(s1, sock, k1.(state := Listening, backlogMax := max)), Ok(()))
  }

  /** The connection is complete once its far end is queued on the listener. */
  function Connect(s: Net, sock: nat, destHost: nat, dest: Addr): (Net, Result<()>)
    requires sock < |s.socks| && s.socks[sock].host < |s.hosts|
  {
    var k := s.socks[sock];
    if k.state == Connected then (s, Err(Errno(EISCONN)))
    else if k.state != New && k.state != Bound then (s, Err(Errno(EINVAL)))
    else
      var l := FirstListener(s.socks, destHost, k.kind, k.family, dest, 0);
      if l == |s.socks| || |s.socks[l].backlog| >= s.socks[l].backlogMax then
        (s, Err(Errno(ECONNREFUSED)))
      else ConnectTo(s, sock, destHost, dest, l)
  }

  /** The caller's own name on a connection to `dest`: an unbound inet socket
      gets a port, and the address the other end would reply to. */
  function NearName(s: Net, sock: nat, dest: Addr): (Net, Result<Addr>)
    requires sock < |s.socks| && s.socks[sock].host < |s.hosts|
  {
    var k := s.socks[sock];
    if k.state == New && k.family == Inet then
      var (s1, port) := EphemeralPort(s, k.host, k.kind, PORT_TRIES);
      if port.Err? then (s1, Err(port.error))
      else (s1, Ok(InetAddr(if IsLoopback(dest.ip) then LOOPBACK else s.hosts[k.host].addr, port.value)))
    else (s, Ok(k.local))
  }

  function FarName(family: Family, listener: Addr, dest: Addr): Addr {
    if family == Inet then listener.(ip := dest.ip) else listener
  }

  /** Naming the caller's end and making the far one, before they meet */
  function Prepared(s: Net, sock: nat, near: Addr, destHost: nat): (r: (Net, Result<nat>))
    requires sock < |s.socks|
    ensures |r.0.socks| == |s.socks| && (r.1.Ok? ==> r.1.value < |s.socks|)
  {
    NewSocket(SetSock(s, sock, s.socks[sock].(local := near)), destHost, s.socks[sock].family, s.socks[sock].kind)
  }

  function ConnectTo(s: Net, sock: nat, destHost: nat, dest: Addr, l: nat): (Net, Result<()>)
    requires sock < |s.socks| && s.socks[sock].host < |s.hosts| && l < |s.socks|
  {
    var k := s.socks[sock];
    var (s1, near) := NearName(s, sock, dest);
    if near.Err? then (s1, Err(near.error))
    else
      var (s3, made) := Prepared(s1, sock, near.value, destHost);
      if made.Err? then (s3, Err(made.error))
      else (Couple(s3, sock, made.value, l, near.value, FarName(k.family, s.socks[l].local, dest)), Ok(()))
  }

  /** Point the two ends at each other and queue the far one. */
  function Couple(s: Net, near: nat, far: nat, listener: nat, nearAddr: Addr, farAddr: Addr): Net
    requires near < |s.socks| && far < |s.socks| && listener < |s.socks|
  {
    var s1 := SetSock(s, far, s.socks[far].(state := Connected, local := farAddr, peer := nearAddr, farEnd := near));
    var s2 := SetSock(s1, near, s1.socks[near].(state := Connected, peer := farAddr, farEnd := far));
    var l := s2.socks[listener];
    SetSock(s2, listener, l.(backlog := l.backlog + [far], rdEvents := l.rdEvents + 1))
    .(connections := s.connections + 1)
  }

  /** Takes the head of a listener's queue */
  function Accept(s: Net, sock: nat): (Net, Result<nat>)
    requires sock < |s.socks|
  {
    var l := s.socks[sock];
    if l.state != Listening then (s, Err(Errno(EINVAL)))
    else if l.backlog == [] then (s, Err(WouldBlock))
    else (SetSock(s, sock, l.(backlog := l.backlog[1..])), Ok(l.backlog[0]))
  }

  // ---- readiness ----------------------------------------------------------

  predicate Readable(k: Sock) {
    if k.kind == Dgram then k.rx != []
    else match k.state
      case Listening => k.backlog != []
      case Connected => k.rx != [] || k.fin || k.shutRd
      case _ => true
  }

  /** Stream bytes `d` can take now */
  function Window(d: Sock): nat {
    var window := SatSub(RING, |d.rx| + FlStream(d.flight));
    if d.flight == [] then window
    else Min(window, SatSub(RING, FlLen(d.flight) + 2 * FLIGHT_HEADER))
  }

  predicate Writable(k: seq<Sock>, i: nat)
    requires i < |k| && (k[i].state == Connected ==> k[i].farEnd < |k|)
  {
    k[i].state != Connected || k[i].shutWr
    || (var p := k[k[i].farEnd]; p.state != Connected || p.shutRd || Window(p) > 0)
  }

  // ---- traffic ------------------------------------------------------------

  /** The payload reaches `d` now: the receiver and the bytes taken */
  function ArriveAt(d: Sock, p: Payload): (Sock, nat) {
    var d1 := d.(rdEvents := d.rdEvents + 1);
    var free := SatSub(RING, |d.rx|);
    match p
    case PFin => (d1.(fin := true), 0)
    case PBytes(data) =>
      var n := Min(|data|, free);
      (d1.(rx := d.rx + data[..n]), n)
    case PDatagram(from, data) =>
      var enc := EncDgram(from, data);
      if |enc| > free then (d1, 0) else (d1.(rx := d.rx + enc), |data|)
  }

  /** What `launch` puts in flight to `d`, and the bytes taken */
  function LaunchRec(d: Sock, due: nat, p: Payload): (Option<Rec>, nat) {
    var room := SatSub(RING, FlLen(d.flight) + 2 * FLIGHT_HEADER);
    match p
    case PFin => (Some(Rec(due, KFin, [])), 0)
    case PBytes(data) =>
      var n := Min(Min(|data|, Window(d)), room);
      if n == 0 then (None, 0) else (Some(Rec(due, KBytes, data[..n])), n)
    case PDatagram(from, data) =>
      var enc := EncDgram(from, data);
      if |enc| > room then (None, 0) else (Some(Rec(due, KDgram, enc)), |data|)
  }

  function Launch(s: Net, dst: nat, due: nat, p: Payload): (Net, nat)
    requires dst < |s.socks|
  {
    var d := s.socks[dst];
    var (rec, taken) := LaunchRec(d, due, p);
    if rec.None? then (s, 0)
    else
      (SetSock(s, dst, d.(flight := d.flight + [rec.value]))
       .(inFlight := s.inFlight + 1,
         nextDue := if s.inFlight == 0 then due else Min(s.nextDue, due)),
       taken)
  }

  function Arrive(s: Net, dst: nat, p: Payload): (Net, nat)
    requires dst < |s.socks|
  {
    var (d, taken) := ArriveAt(s.socks[dst], p);
    (SetSock(s, dst, d).(bytes := s.bytes + taken), taken)
  }

  /** Sends a payload to `dst`: it lands now if its hosts are the same and
      nothing is under way to `dst`, else after the latency, behind the rest. */
  function Deliver(s: Net, srcHost: nat, dst: nat, p: Payload): (Net, nat)
    requires dst < |s.socks|
  {
    var d := s.socks[dst];
    var delay := if d.host == srcHost then 0 else s.latency;
    if delay == 0 && d.flight == [] then Arrive(s, dst, p)
    else Launch(s, dst, s.now + delay, p)
  }

  function Send(s: Net, sock: nat, data: seq<Byte>): (Net, Result<nat>)
    requires sock < |s.socks| && (s.socks[sock].state == Connected ==> s.socks[sock].farEnd < |s.socks|)
  {
    var k := s.socks[sock];
    if k.state != Connected then (s, Err(Errno(ENOTCONN)))
    else if k.shutWr then (s, Err(Errno(EPIPE)))
    else
      var p := s.socks[k.farEnd];
      if p.state != Connected || p.shutRd then (s, Err(Errno(EPIPE)))
      else if data == [] then (s, Ok(0))
      else
        var (s1, n) := Deliver(s, k.host, k.farEnd, PBytes(data));
        if n == 0 then (s1, Err(WouldBlock)) else (s1, Ok(n))
  }

  function WrBump(s: Net, i: nat): Net
    requires i < |s.socks|
  {
    SetSock(s, i, s.socks[i].(wrEvents := s.socks[i].wrEvents + 1))
  }

  /** Up to `want` bytes of a stream; none is end of stream. */
  function Recv(s: Net, sock: nat, want: nat, peek: bool): (Net, Result<seq<Byte>>)
    requires sock < |s.socks| && (s.socks[sock].state == Connected ==> s.socks[sock].farEnd < |s.socks|)
  {
    var k := s.socks[sock];
    if k.state != Connected then (s, Err(Errno(ENOTCONN)))
    else if k.rx == [] then
      (s, if k.fin || k.shutRd || want == 0 then Ok([]) else Err(WouldBlock))
    else
      var n := Min(want, |k.rx|);
      if peek then (s, Ok(k.rx[..n]))
      else (WrBump(SetSock(s, sock, k.(rx := k.rx[n..])), k.farEnd), Ok(k.rx[..n]))
  }

  function Shutdown(s: Net, sock: nat, read: bool, write: bool): (Net, Result<()>)
    requires sock < |s.socks| && (s.socks[sock].state == Connected ==> s.socks[sock].farEnd < |s.socks|)
  {
    var k := s.socks[sock];
    if k.state != Connected then (s, Err(Errno(ENOTCONN)))
    else
      var s1 := if read then WrBump(SetSock(s, sock, k.(shutRd := true, rx := [])), k.farEnd) else s;
      var k1 := s1.socks[sock];
      if write && !k1.shutWr then
        (Deliver(SetSock(s1, sock, k1.(shutWr := true)), k1.host, k1.farEnd, PFin).0, Ok(()))
      else (s1, Ok(()))
  }

  // ---- datagrams ----------------------------------------------------------

  function BindIfNew(s: Net, sock: nat): (r: (Net, Result<()>))
    requires sock < |s.socks| && s.socks[sock].host < |s.hosts|
    ensures |r.0.socks| == |s.socks| && |r.0.hosts| == |s.hosts|
    ensures r.0.socks[sock].host == s.socks[sock].host
  {
    var k := s.socks[sock];
    if k.state == New && k.family == Inet then Bind(s, sock, InetAddr(0, 0)) else (s, Ok(()))
  }

  function ConnectDgram(s: Net, sock: nat, dest: Addr): (Net, Result<()>)
    requires sock < |s.socks| && s.socks[sock].host < |s.hosts|
  {
    var (s1, bound) := BindIfNew(s, sock);
    if bound.Err? then (s1, bound)
    else (SetSock(s1, sock, s1.socks[sock].(peer := dest, hasPeer := true)), Ok(()))
  }

  /** Who owns `ip`; loopback is the asking host itself */
  function HostForIp(hosts: seq<Host>, from: nat, ip: nat): (h: Option<nat>)
    ensures h.Some? ==> h.value == from || h.value < |hosts|
  {
    if IsLoopback(ip) then Some(from)
    else if exists i :: 0 <= i < |hosts| && hosts[i].addr == ip then Some(FirstHost(hosts, ip, 0))
    else None
  }

  function FirstHost(hosts: seq<Host>, ip: nat, i: nat): (h: nat)
    requires i <= |hosts| && exists j :: i <= j < |hosts| && hosts[j].addr == ip
    ensures i <= h < |hosts| && hosts[h].addr == ip
    ensures forall j :: i <= j < h ==> hosts[j].addr != ip
    decreases |hosts| - i
  {
    if hosts[i].addr == ip then i else FirstHost(hosts, ip, i + 1)
  }

  /** The destination host and address, and the source as the receiver sees it */
  function DgramRoute(s: Net, k: Sock, dest: Option<(nat, Addr)>): Option<(nat, Addr, Addr)>
    requires k.host < |s.hosts|
  {
    if dest.None? && !k.hasPeer then None
    else
      var to := if dest.Some? then dest.value
                else
                  var h := HostForIp(s.hosts, k.host, k.peer.ip);
                  (if k.family == Inet && h.Some? then h.value else k.host, k.peer);
      var from := if k.family != Inet then k.local
                  else k.local.(family := Inet,
                                ip := if IsLoopback(to.1.ip) then LOOPBACK else s.hosts[k.host].addr);
      Some((to.0, to.1, from))
  }

  /** A datagram nobody can receive is lost on an inet socket and reported on
      a UNIX-domain one. */
  function SendDgram(s: Net, sock: nat, dest: Option<(nat, Addr)>, data: seq<Byte>): (Net, Result<nat>)
    requires sock < |s.socks| && s.socks[sock].host < |s.hosts|
  {
    if |data| > MAX_DGRAM then (s, Err(Errno(EMSGSIZE)))
    else
      var (s1, bound) := BindIfNew(s, sock);
      if bound.Err? then (s1, Err(bound.error))
      else
        var k := s1.socks[sock];
        var route := DgramRoute(s1, k, dest);
        if route.None? then (s1, Err(Errno(EDESTADDRREQ)))
        else
          Dispatch(s1, k, route.value, data)
  }

  /** The rest of a datagram send, once the sender has a name */
  function Dispatch(s: Net, k: Sock, route: (nat, Addr, Addr), data: seq<Byte>): (Net, Result<nat>) {
    var (destHost, to, from) := route;
    var t := FirstReceiver(s.socks, destHost, k.family, to, from, 0);
    if t == |s.socks| then
      if k.family == Unix then (s, Err(Errno(ECONNREFUSED)))
      else (s.(dropped := s.dropped + 1, datagrams := s.datagrams + 1), Ok(|data|))
    else
      var (s2, n) := Deliver(s, k.host, t, PDatagram(from, data));
      if n > 0 || data == [] then (s2.(datagrams := s2.datagrams + 1), Ok(|data|))
      else if k.family == Unix then (s2, Err(WouldBlock))
      else (s2.(dropped := s2.dropped + 1, datagrams := s2.datagrams + 1), Ok(|data|))
  }

  /** Takes the oldest datagram off the ring, cut to `want` bytes */
  function RecvDgram(s: Net, sock: nat, want: nat, peek: bool): (Net, Result<(seq<Byte>, Addr)>)
    requires sock < |s.socks|
    requires s.socks[sock].rx != [] ==> DgramHead(s.socks[sock].rx)
  {
    var k := s.socks[sock];
    if k.rx == [] then (s, Err(WouldBlock))
    else
      var data := DgramData(k.rx);
      var out := Ok((data[..Min(want, |data|)], DgramFrom(k.rx)));
      if peek then (s, out)
      else (SetSock(s, sock, k.(rx := k.rx[DgramSize(k.rx)..])), out)
  }

  // ---- time ---------------------------------------------------------------

  /** What the oldest record does to its receiver when it lands */
  function LandOn(d: Sock): (Sock, nat, nat)
    requires d.flight != []
  {
    var r := d.flight[0];
    var d1 := d.(flight := d.flight[1..], rdEvents := d.rdEvents + 1);
    match r.kind
    case KFin => (d1.(fin := true), 0, 0)
    case KBytes => (d1.(rx := d.rx + r.body), |r.body|, 0)
    case KDgram =>
      if |r.body| <= SatSub(RING, |d.rx|) then
        (d1.(rx := d.rx + r.body), if |r.body| >= 4 then FromLe(r.body[..4]) else 0, 0)
      else (d1, 0, 1)
  }

  /** The oldest record in flight to `i` arrives. Stream bytes landing on a
      connection may open its sender's window. */
  function LandHead(s: Net, i: nat): Net
    requires i < |s.socks| && s.socks[i].flight != []
    requires s.socks[i].state == Connected ==> s.socks[i].farEnd < |s.socks|
  {
    var (d, taken, lost) := LandOn(s.socks[i]);
    var s1 := SetSock(s, i, d).(inFlight := SatSub(s.inFlight, 1),
                                bytes := s.bytes + taken, dropped := s.dropped + lost);
    if s.socks[i].flight[0].kind == KBytes && d.state == Connected then WrBump(s1, d.farEnd) else s1
  }

  predicate FarEndsInTable(k: seq<Sock>) {
    forall i :: 0 <= i < |k| && k[i].state == Connected ==> k[i].farEnd < |k|
  }

  /** Everything in flight to `i` up to the first record due after `now` */
  function AdvanceSock(s: Net, i: nat, now: nat): (r: Net)
    requires i < |s.socks| && FarEndsInTable(s.socks)
    ensures |r.socks| == |s.socks| && FarEndsInTable(r.socks)
    decreases |s.socks[i].flight|
  {
    if s.socks[i].flight == [] || s.socks[i].flight[0].due > now then s
    else
      LandHeadStays(s, i);
      AdvanceSock(LandHead(s, i), i, now)
  }

  lemma LandHeadStays(s: Net, i: nat)
    requires i < |s.socks| && FarEndsInTable(s.socks) && s.socks[i].flight != []
    ensures |LandHead(s, i).socks| == |s.socks| && FarEndsInTable(LandHead(s, i).socks)
    ensures |LandHead(s, i).socks[i].flight| < |s.socks[i].flight|
  {
    var m := LandHead(s, i).socks;
    forall j | 0 <= j < |m| ensures m[j].farEnd == s.socks[j].farEnd && m[j].state == s.socks[j].state { }
  }

  function AdvanceFrom(s: Net, i: nat, now: nat): (r: Net)
    requires i <= |s.socks| && FarEndsInTable(s.socks)
    ensures |r.socks| == |s.socks| && FarEndsInTable(r.socks)
    decreases |s.socks| - i
  {
    if i == |s.socks| then s else AdvanceFrom(AdvanceSock(s, i, now), i + 1, now)
  }

  predicate AnyHead(k: seq<Sock>, i: nat) { exists j :: i <= j < |k| && k[j].flight != [] }

  /** The earliest due time at the head of a flight ring from `i` on; NEVER if
      nothing is in flight there */
  function EarliestHead(k: seq<Sock>, i: nat): (t: nat)
    requires i <= |k|
    ensures forall j :: i <= j < |k| && k[j].flight != [] ==> t <= k[j].flight[0].due
    ensures AnyHead(k, i) ==> exists j :: i <= j < |k| && k[j].flight != [] && t == k[j].flight[0].due
    ensures !AnyHead(k, i) ==> t == NEVER
    decreases |k| - i
  {
    if i == |k| then NEVER
    else
      var rest := EarliestHead(k, i + 1);
      if k[i].flight == [] then rest
      else if AnyHead(k, i + 1) then Min(k[i].flight[0].due, rest) else k[i].flight[0].due
  }

  /** Moves the clock to `now` and lands what was due by then. */
  function Advance(s: Net, now: nat): (Net, bool)
    requires FarEndsInTable(s.socks)
  {
    var s0 := s.(now := now);
    if s.inFlight == 0 || s.nextDue > now then (s0, false)
    else
      var s1 := AdvanceFrom(s0, 0, now);
      (s1.(nextDue := EarliestHead(s1.socks, 0)), true)
  }

  // ---- descriptors --------------------------------------------------------

  /** Entry of `(pid, sock)` from `i` on; the table's length if none */
  function FindRef(t: seq<FdRef>, pid: nat, sock: nat, i: nat): (r: nat)
    requires i <= |t|
    ensures i <= r <= |t|
    ensures r < |t| ==> t[r].count > 0 && t[r].pid == pid && t[r].sock == sock
    ensures forall j :: i <= j < r ==> !(t[j].count > 0 && t[j].pid == pid && t[j].sock == sock)
    decreases |t| - i
  {
    if i == |t| || (t[i].count > 0 && t[i].pid == pid && t[i].sock == sock) then i
    else FindRef(t, pid, sock, i + 1)
  }

  function FindSpare(t: seq<FdRef>, i: nat): (r: nat)
    requires i <= |t|
    ensures i <= r <= |t|
    ensures r < |t| ==> t[r].count == 0
    ensures forall j :: i <= j < r ==> t[j].count > 0
    decreases |t| - i
  {
    if i == |t| || t[i].count == 0 then i else FindSpare(t, i + 1)
  }

  /** The entry `fdref` settles on: the live one, else a spare one; the
      table's length when it is full and the run cannot go on. */
  function FdSlot(t: seq<FdRef>, pid: nat, sock: nat): (r: nat)
    ensures r <= |t|
  {
    var live := FindRef(t, pid, sock, 0);
    if live < |t| then live else FindSpare(t, 0)
  }

  function Held(t: seq<FdRef>, pid: nat, sock: nat): nat {
    var r := FindRef(t, pid, sock, 0);
    if r < |t| then t[r].count else 0
  }

  function AddRef(s: Net, pid: nat, sock: nat): Net
    requires sock < |s.socks| && FdSlot(s.fdrefs, pid, sock) < |s.fdrefs|
  {
    var r := FdSlot(s.fdrefs, pid, sock);
    SetSock(s, sock, s.socks[sock].(refs := s.socks[sock].refs + 1))
    .(fdrefs := s.fdrefs[r := FdRef(pid, sock, s.fdrefs[r].count + 1)])
  }

  function DropRef(s: Net, pid: nat, sock: nat): Net
    requires sock < |s.socks| && FdSlot(s.fdrefs, pid, sock) < |s.fdrefs|
    requires Releasable(s.socks)
  {
    var r := FdSlot(s.fdrefs, pid, sock);
    var k := s.socks[sock].(refs := SatSub(s.socks[sock].refs, 1));
    var s1 := SetSock(s, sock, k)
              .(fdrefs := s.fdrefs[r := FdRef(pid, sock, SatSub(s.fdrefs[r].count, 1))]);
    if k.refs == 0 then Release(s1, sock) else s1
  }

  /** Links and queues stay inside the table, so a release can follow them. */
  predicate Releasable(k: seq<Sock>) {
    FarEndsInTable(k)
    && forall i, x :: 0 <= i < |k| && k[i].state == Listening && 0 <= x < |k[i].backlog| ==>
         k[i].backlog[x] < |k| && k[k[i].backlog[x]].farEnd < |k|
  }

  /** A connection still queued when its listener goes is reset. */
  function ResetQueued(s: Net, far: nat): (r: Net)
    requires far < |s.socks| && s.socks[far].farEnd < |s.socks|
    ensures |r.socks| == |s.socks| && r.fdrefs == s.fdrefs
    ensures forall i :: 0 <= i < |s.socks| ==> r.socks[i].farEnd == s.socks[i].farEnd
  {
    var near := s.socks[far].farEnd;
    if s.socks[near].state == Closed then
      var s1 := SetSock(s, near, s.socks[near].(state := Free));
      SetSock(s1, far, s1.socks[far].(state := Free))
    else
      var s1 := WrBump(Deliver(s, s.socks[far].host, near, PFin).0, near);
      SetSock(s1, far, s1.socks[far].(state := Closed))
  }

  function ResetAll(s: Net, queue: seq<nat>): (r: Net)
    requires forall x :: 0 <= x < |queue| ==> queue[x] < |s.socks| && s.socks[queue[x]].farEnd < |s.socks|
    ensures |r.socks| == |s.socks| && r.fdrefs == s.fdrefs
    decreases |queue|
  {
    if queue == [] then s else ResetAll(ResetQueued(s, queue[0]), queue[1..])
  }

  /** Nobody refers to `sock` any more. */
  function Release(s: Net, sock: nat): (r: Net)
    requires sock < |s.socks| && Releasable(s.socks)
    ensures |r.socks| == |s.socks| && r.fdrefs == s.fdrefs
  {
    var k := s.socks[sock];
    match k.state
    case Listening =>
      var s1 := ResetAll(s, k.backlog);
      SetSock(s1, sock, s1.socks[sock].(state := Free))
    case Connected =>
      var peer := k.farEnd;
      if s.socks[peer].state == Closed then
        var s1 := SetSock(s, peer, s.socks[peer].(state := Free));
        SetSock(s1, sock, s1.socks[sock].(state := Free))
      else
        var s1 := if k.shutWr then s else Deliver(s, k.host, peer, PFin).0;
        var s2 := WrBump(s1, peer);
        SetSock(s2, sock, s2.socks[sock].(state := Closed))
    case _ => SetSock(s, sock, k.(state := Free))
  }

  // ---- a whole process's descriptors ---------------------------------------

  /** None when the table of references is full, where the run cannot go on */
  function AddAll(s: Net, pid: nat, held: seq<nat>): (r: Option<Net>)
    requires forall x :: 0 <= x < |held| ==> held[x] < |s.socks|
    ensures r.Some? ==> |r.value.socks| == |s.socks|
    decreases |held|
  {
    if held == [] then Some(s)
    else if FdSlot(s.fdrefs, pid, held[0]) >= |s.fdrefs| then None
    else AddAll(AddRef(s, pid, held[0]), pid, held[1..])
  }

  function DropTimes(s: Net, pid: nat, sock: nat, n: nat): (r: Option<Net>)
    requires sock < |s.socks|
    ensures r.Some? ==> |r.value.socks| == |s.socks|
    decreases n
  {
    if n == 0 then Some(s)
    else if FdSlot(s.fdrefs, pid, sock) >= |s.fdrefs| || !Releasable(s.socks) then None
    else DropTimes(DropRef(s, pid, sock), pid, sock, n - 1)
  }

  /** Drop what `before`, the table before the additions, records for `pid`. */
  function DropOld(s: Net, before: seq<FdRef>, pid: nat, sock: nat): Option<Net>
    requires sock <= |s.socks|
    decreases |s.socks| - sock
  {
    if sock == |s.socks| then Some(s)
    else
      var r := DropTimes(s, pid, sock, Held(before, pid, sock));
      if r.None? then None else DropOld(r.value, before, pid, sock + 1)
  }

  /** Makes `held` what `pid` refers to; it gains before it loses. */
  function SetRefs(s: Net, pid: nat, held: seq<nat>): Option<Net>
    requires forall x :: 0 <= x < |held| ==> held[x] < |s.socks|
  {
    var r := AddAll(s, pid, held);
    if r.None? then None else DropOld(r.value, s.fdrefs, pid, 0)
  }
}

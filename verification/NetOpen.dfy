/** Making, naming and connecting sockets, and datagrams, keep the invariant. */
module NetOpen {
  import opened Wrappers
  import opened NetTypes
  import opened Wire
  import opened NetSpec
  import opened NetInv
  import opened NetSteps

  /** What a caller may rely on after any step that is not its own close */
  ghost predicate Good(s: Net, t: Net) {
    Inv(t) && Edges(s.socks, t.socks, -1) && Flow(s.socks, t.socks, -1, [])
  }

  lemma GoodRefl(s: Net)
    requires Inv(s)
    ensures Good(s, s)
  {
    SameEdges(s.socks);
    FlowSame(s.socks);
  }

  /** A record nobody's far end names is replaced by another such record. */
  predicate Replaceable(k: seq<Sock>, i: nat, d: Sock) {
    && i < |k| && k[i].state != Connected && k[i].state != Closed
    && d.state != Connected && d.state != Closed
    && (d.state == Listening ==>
          NoDup(d.backlog) && (d.backlog == [] || k[i].state == Listening)
          && forall q :: q in d.backlog ==> q in k[i].backlog)
  }

  lemma ReplaceLinks(k: seq<Sock>, i: nat, d: Sock)
    requires Replaceable(k, i, d) && Links(k)
    ensures Links(k[i := d])
  {
    var m := k[i := d];
    forall j | 0 <= j < |m| ensures Linked(m, j) {
      assert Linked(k, j);
    }
  }

  lemma ReplaceQueues(k: seq<Sock>, i: nat, d: Sock)
    requires Replaceable(k, i, d) && Queues(k)
    ensures Queues(k[i := d])
  {
    var m := k[i := d];
    forall l: nat, q: nat | Queued(m, l, q) ensures Queued(k, l, q) { }
    forall l: nat, q: nat | Queued(m, l, q)
      ensures q < |m| && m[q].state == Connected && m[q].refs == 0 && !m[q].shutWr && !m[q].shutRd
    {
      assert Queued(k, l, q);
    }
  }

  lemma ReplaceEdges(k: seq<Sock>, i: nat, d: Sock)
    requires Replaceable(k, i, d) && Links(k)
    requires k[i].refs > 0 && d.refs > 0 ==> RdEdge(k[i], d) && d.wrEvents >= k[i].wrEvents
    ensures Edges(k, k[i := d], -1)
    ensures Flow(k, k[i := d], -1, [])
  {
    var m := k[i := d];
    LinksStayInTable(k);
    forall j | 0 <= j < |k| && k[j].state == Connected ensures k[j].farEnd < |k| && k[j].farEnd != i {
      assert Linked(k, j);
    }
    forall j | 0 <= j < |k| && Kept(k, m, j)
      ensures !k[j].shutRd && Pending(m[j]) == Pending(k[j]) + []
    { }
  }

  lemma ReplaceGood(s: Net, i: nat, d: Sock)
    requires Inv(s) && Replaceable(s.socks, i, d) && SockOk(d) && d.host < |s.hosts|
    requires d.refs == s.socks[i].refs && d.flight == s.socks[i].flight
    requires d.refs > 0 ==> RdEdge(s.socks[i], d) && d.wrEvents >= s.socks[i].wrEvents
    ensures Good(s, SetSock(s, i, d))
  {
    hide Inv, Replaceable, SockOk, RdEdge, Edges, Flow;
    ReplaceableIn(s.socks, i, d);
    ReplaceAt(s, SetSock(s, i, d), i, d);
  }

  lemma ReplaceAll(k: seq<Sock>, i: nat, d: Sock, hosts: nat)
    requires i < |k| && AllSocks(k, hosts) && SockOk(d) && d.host < hosts
    ensures AllSocks(k[i := d], hosts)
  {
    hide SockOk;
    var m := k[i := d];
    forall j | 0 <= j < |m| ensures SockOk(m[j]) && m[j].host < hosts { if j != i { assert SockOk(k[j]); } }
  }

  lemma ReplaceRefs(k: seq<Sock>, i: nat, d: Sock, t: seq<FdRef>)
    requires i < |k| && RefsAgree(k, t) && d.refs == k[i].refs
    ensures RefsAgree(k[i := d], t)
  {
    hide OneEntryEach;
  }

  /** A record nobody's far end names is replaced; what was in flight to it
      stays, or is forgotten. */
  lemma ReplaceAt(s: Net, t: Net, i: nat, d: Sock)
    requires Inv(s) && Replaceable(s.socks, i, d) && SockOk(d) && d.host < |s.hosts| && d.refs == s.socks[i].refs
    requires d.flight == s.socks[i].flight || d.flight == []
    requires d.refs > 0 ==> RdEdge(s.socks[i], d) && d.wrEvents >= s.socks[i].wrEvents
    requires t == SetSock(s, i, d).(inFlight := t.inFlight)
    requires t.inFlight == SatSub(s.inFlight, |s.socks[i].flight| - |d.flight|)
    ensures Good(s, t)
  {
    hide SockOk, Links, Queues, RefsAgree, AllSocks, Replaceable, Edges, Flow, RdEdge;
    assert i < |s.socks| by { ReplaceableIn(s.socks, i, d); }
    ReplaceLinks(s.socks, i, d);
    ReplaceQueues(s.socks, i, d);
    ReplaceEdges(s.socks, i, d);
    ReplaceAll(s.socks, i, d, |s.hosts|);
    ReplaceRefs(s.socks, i, d, s.fdrefs);
    TotalUpdate(s.socks, i, d);
  }

  lemma ReplaceableIn(k: seq<Sock>, i: nat, d: Sock)
    requires Replaceable(k, i, d)
    ensures i < |k|
  {
  }

  lemma GoodCompose(s: Net, t: Net, u: Net)
    requires Good(s, t) && Good(t, u)
    requires forall i :: 0 <= i < |s.socks| && s.socks[i].refs > 0 && u.socks[i].refs > 0 ==> t.socks[i].refs > 0
    requires forall i :: 0 <= i < |s.socks| && Kept(s.socks, u.socks, i) ==> Kept(s.socks, t.socks, i)
    ensures Good(s, u)
  {
    var k, m, n := s.socks, t.socks, u.socks;
    forall i | 0 <= i < |k| && i != -1 && k[i].refs > 0 && n[i].refs > 0
      ensures RdEdge(k[i], n[i]) && WrEdge(k, n, i)
    {
      assert RdEdge(k[i], m[i]) && WrEdge(k, m, i) && RdEdge(m[i], n[i]) && WrEdge(m, n, i);
    }
    forall i | 0 <= i < |k| && Kept(k, n, i) ensures !k[i].shutRd && Pending(n[i]) == Pending(k[i]) + [] {
      assert Kept(k, m, i) && Kept(m, n, i);
    }
  }

  // ---- socket -------------------------------------------------------------

  lemma NewSocketOk(s: Net, host: nat, family: Family, kind: Kind)
    requires Inv(s) && host < |s.hosts|
    ensures var (t, r) := NewSocket(s, host, family, kind);
            && Good(s, t)
            && (r.Ok? ==>
                  r.value < |s.socks| && s.socks[r.value].state == Free
                  && t.socks == s.socks[r.value := FreshSock(host, family, kind)])
            && (r.Err? ==> t == s)
  {
    hide SockOk, Inv, Edges, Flow, RdEdge;
    var i := FirstFree(s.socks, 0);
    GoodRefl(s);
    if i < |s.socks| {
      FreeUnreferenced(s, i);
      FreshOk(host, family, kind);
      ReplaceAt(s, NewSocket(s, host, family, kind).0, i, FreshSock(host, family, kind));
    }
  }

  lemma FreeUnreferenced(s: Net, i: nat)
    requires Inv(s) && i < |s.socks|
    ensures SockOk(s.socks[i])
    ensures s.socks[i].state == Free || s.socks[i].state == Closed ==> s.socks[i].refs == 0
  {
    assert SockOk(s.socks[i]);
  }

  lemma FreshOk(host: nat, family: Family, kind: Kind)
    ensures SockOk(FreshSock(host, family, kind))
  {
  }

  // ---- names --------------------------------------------------------------

  lemma {:induction false} PortOk(s: Net, host: nat, kind: Kind, tries: nat)
    requires Inv(s) && host < |s.hosts|
    ensures var (t, r) := EphemeralPort(s, host, kind, tries);
            Inv(t) && t.socks == s.socks && (r.Ok? ==> r.value < 0x1_0000)
    decreases tries
  {
    if tries > 0 {
      var port := s.hosts[host].nextPort;
      var next := if port == LAST_PORT then FIRST_EPHEMERAL else port + 1;
      var s1 := s.(hosts := s.hosts[host := s.hosts[host].(nextPort := next)]);
      assert Inv(s1) by { HostsInv(s, s1); }
      if NameTaken(s.socks, host, kind, InetAddr(0, port)) { PortOk(s1, host, kind, tries - 1); }
    }
  }

  lemma HostsInv(s: Net, t: Net)
    requires Inv(s) && t == s.(hosts := t.hosts) && HostsOk(t.hosts) && |t.hosts| == |s.hosts|
    ensures Inv(t)
  {
    forall j | 0 <= j < |t.socks| ensures SockOk(t.socks[j]) && t.socks[j].host < |t.hosts| {
      assert SockOk(s.socks[j]);
    }
  }

  /** Binding takes the name only if no bound or listening socket of the host
      and kind has it, and gives the socket a name. */
  lemma BindOk(s: Net, sock: nat, addr: Addr)
    requires Inv(s) && sock < |s.socks| && s.socks[sock].host < |s.hosts| && AddrFits(addr)
    ensures var (t, r) := Bind(s, sock, addr);
            && Good(s, t)
            && (r.Ok? ==>
                  && s.socks[sock].state == New && t.socks[sock].state == Bound
                  && t.socks == s.socks[sock := s.socks[sock].(local := t.socks[sock].local, state := Bound)]
                  && !NameTaken(s.socks, s.socks[sock].host, s.socks[sock].kind, t.socks[sock].local))
            && (r.Err? ==> t.socks == s.socks)
  {
    hide Inv, SockOk, Edges, Flow, RdEdge, BindPort, NameTaken, AddrFits;
    GoodRefl(s);
    var k := s.socks[sock];
    var (t, r) := Bind(s, sock, addr);
    BindPortOk(s, k, addr);
    var s1 := BindPort(s, k, addr).0;
    if r.Ok? {
      var d := k.(local := t.socks[sock].local, state := Bound);
      BoundOk(s, sock, d);
      ReplaceGood(s1, sock, d);
    } else {
      GoodRefl(s1);
    }
  }

  lemma BindPortOk(s: Net, k: Sock, addr: Addr)
    requires Inv(s) && k.host < |s.hosts| && AddrFits(addr)
    ensures var (t, p) := BindPort(s, k, addr);
            Inv(t) && t.socks == s.socks && (p.Ok? ==> AddrFits(addr.(port := p.value)))
  {
    hide Inv;
    if k.family == Inet && addr.port == 0 { PortOk(s, k.host, k.kind, PORT_TRIES); }
  }

  lemma BoundOk(s: Net, sock: nat, d: Sock)
    requires Inv(s) && sock < |s.socks| && s.socks[sock].state == New && AddrFits(d.local)
    requires d == s.socks[sock].(local := d.local, state := Bound)
    ensures SockOk(d) && RdEdge(s.socks[sock], d) && Replaceable(s.socks, sock, d)
  {
    hide WholeDgrams, Links, Queues, RefsAgree;
    assert SockOk(s.socks[sock]);
  }

  lemma ListenOk(s: Net, sock: nat, backlog: int)
    requires Inv(s) && sock < |s.socks| && s.socks[sock].host < |s.hosts|
    ensures var (t, r) := Listen(s, sock, backlog);
            && Good(s, t)
            && (r.Ok? ==>
                  t.socks[sock].state == Listening && t.socks[sock].kind == Stream
                  && 1 <= t.socks[sock].backlogMax <= BACKLOG)
  {
    hide Inv, SockOk, Edges, Flow, RdEdge, Replaceable, Bind;
    GoodRefl(s);
    var k := s.socks[sock];
    var (t, r) := Listen(s, sock, backlog);
    if k.kind == Stream && !(k.state == New && k.family != Inet) {
      var s1 := s;
      if k.state == New {
        BindOk(s, sock, InetAddr(0, 0));
        s1 := Bind(s, sock, InetAddr(0, 0)).0;
      }
      if r.Ok? {
        ListeningOk(s1, sock, t.socks[sock]);
        ReplaceGood(s1, sock, t.socks[sock]);
        GoodCompose(s, s1, t);
      }
    }
  }

  lemma ListeningOk(s: Net, sock: nat, d: Sock)
    requires Inv(s) && sock < |s.socks| && (s.socks[sock].state == Bound || s.socks[sock].state == Listening)
    requires s.socks[sock].kind == Stream && 1 <= d.backlogMax <= BACKLOG
    requires d == s.socks[sock].(state := Listening, backlogMax := d.backlogMax)
    ensures SockOk(d) && RdEdge(s.socks[sock], d) && Replaceable(s.socks, sock, d)
  {
    hide WholeDgrams, Links, RefsAgree, Queued;
    assert SockOk(s.socks[sock]);
  }

  // ---- connections --------------------------------------------------------

  lemma AcceptOk(s: Net, sock: nat)
    requires Inv(s) && sock < |s.socks|
    ensures var (t, r) := Accept(s, sock);
            && Good(s, t)
            && (r.Ok? ==>
                  && Queued(s.socks, sock, r.value) && !Queued(t.socks, sock, r.value)
                  && s.socks[sock].backlog == [r.value] + t.socks[sock].backlog
                  && r.value < |s.socks| && t.socks[r.value].state == Connected && t.socks[r.value].refs == 0)
            && (r.Err? ==> t == s)
  {
    GoodRefl(s);
    var l := s.socks[sock];
    assert SockOk(l);
    var (t, r) := Accept(s, sock);
    if r.Ok? {
      assert Queued(s.socks, sock, r.value);
      ReplaceGood(s, sock, t.socks[sock]);
    }
  }

  /** The state in which the two ends of a new connection are about to meet */
  predicate ReadyToCouple(s: Net, near: nat, far: nat, l: nat) {
    && near < |s.socks| && far < |s.socks| && l < |s.socks| && near != far
    && (s.socks[near].state == New || s.socks[near].state == Bound) && s.socks[near].kind == Stream
    && s.socks[far].state == New && s.socks[far].kind == Stream && s.socks[far].refs == 0
    && s.socks[l].state == Listening && |s.socks[l].backlog| < BACKLOG
  }

  lemma CoupleLinks(s: Net, near: nat, far: nat, l: nat, a: Addr, b: Addr)
    requires ReadyToCouple(s, near, far, l) && Links(s.socks)
    requires SockOk(s.socks[near]) && SockOk(s.socks[far])
    ensures Links(Couple(s, near, far, l, a, b).socks)
  {
    var k, m := s.socks, Couple(s, near, far, l, a, b).socks;
    forall i | 0 <= i < |m| ensures Linked(m, i) {
      assert Linked(k, i);
      if i != near && i != far && (k[i].state == Connected || k[i].state == Closed) {
        assert k[i].farEnd != near && k[i].farEnd != far;
      }
    }
  }

  lemma CoupleQueues(s: Net, near: nat, far: nat, l: nat, a: Addr, b: Addr)
    requires ReadyToCouple(s, near, far, l) && Queues(s.socks) && SockOk(s.socks[far])
    ensures Queues(Couple(s, near, far, l, a, b).socks)
  {
    var k, m := s.socks, Couple(s, near, far, l, a, b).socks;
    assert m[l].backlog == k[l].backlog + [far];
    forall i: nat, q: nat | Queued(m, i, q) ensures Queued(k, i, q) || (i == l && q == far) { }
    forall i: nat, q: nat | Queued(k, i, q) ensures q != far && q != near { }
    assert forall i :: 0 <= i < |k| && i != near && i != far && i != l ==> m[i] == k[i];
    forall x | 0 <= x < |k[l].backlog| ensures k[l].backlog[x] != far { assert Queued(k, l, k[l].backlog[x]); }
    assert NoDup(m[l].backlog);
  }

  lemma CoupleEdges(s: Net, near: nat, far: nat, l: nat, a: Addr, b: Addr)
    requires ReadyToCouple(s, near, far, l) && Links(s.socks)
    ensures Edges(s.socks, Couple(s, near, far, l, a, b).socks, -1)
  {
    var k, m := s.socks, Couple(s, near, far, l, a, b).socks;
    LinksStayInTable(k);
    forall i | 0 <= i < |k| && i != near && i != far && i != l ensures m[i] == k[i] { }
    forall i | 0 <= i < |k| && k[i].state == Connected
      ensures k[i].farEnd < |k| && k[i].farEnd != near && k[i].farEnd != far && k[i].farEnd != l
    {
      assert Linked(k, i);
    }
  }

  lemma CoupleFlow(s: Net, near: nat, far: nat, l: nat, a: Addr, b: Addr)
    requires ReadyToCouple(s, near, far, l)
    ensures Flow(s.socks, Couple(s, near, far, l, a, b).socks, -1, [])
  {
    hide FlBytes;
    var k, m := s.socks, Couple(s, near, far, l, a, b).socks;
    forall i | 0 <= i < |k| && i != near && i != far && i != l ensures m[i] == k[i] { }
    forall i | 0 <= i < |k| && Kept(k, m, i) ensures !k[i].shutRd && Pending(m[i]) == Pending(k[i]) + [] { }
  }

  lemma CoupleSocks(s: Net, near: nat, far: nat, l: nat, a: Addr, b: Addr)
    requires ReadyToCouple(s, near, far, l) && AddrFits(a) && AddrFits(b)
    requires SockOk(s.socks[near]) && SockOk(s.socks[far]) && SockOk(s.socks[l])
    ensures var k, m := s.socks, Couple(s, near, far, l, a, b).socks;
            && (forall i :: 0 <= i < |k| && i != near && i != far && i != l ==> m[i] == k[i])
            && (forall i :: 0 <= i < |k| ==>
                  m[i].flight == k[i].flight && m[i].refs == k[i].refs && m[i].host == k[i].host)
            && SockOk(m[near]) && SockOk(m[far]) && SockOk(m[l])
    ensures |Couple(s, near, far, l, a, b).socks| == |s.socks|
    ensures Couple(s, near, far, l, a, b)
            == s.(socks := Couple(s, near, far, l, a, b).socks, connections := s.connections + 1)
  {
  }

  lemma CoupleGood(s: Net, near: nat, far: nat, l: nat, a: Addr, b: Addr)
    requires Inv(s) && ReadyToCouple(s, near, far, l) && AddrFits(a) && AddrFits(b)
    ensures Good(s, Couple(s, near, far, l, a, b))
  {
    hide Edges, Flow, Links, Queues, SockOk, Couple;
    var k, t := s.socks, Couple(s, near, far, l, a, b);
    assert SockOk(k[near]) && SockOk(k[far]) && SockOk(k[l]);
    CoupleSocks(s, near, far, l, a, b);
    CoupleLinks(s, near, far, l, a, b);
    CoupleQueues(s, near, far, l, a, b);
    CoupleEdges(s, near, far, l, a, b);
    CoupleFlow(s, near, far, l, a, b);
    TotalSame(k, t.socks);
    forall i | 0 <= i < |k| ensures SockOk(t.socks[i]) && t.socks[i].host < |t.hosts| {
      assert SockOk(k[i]);
    }
  }

  /** A successful connect leaves the caller and a fresh, unreferenced socket
      pointing at each other, the fresh one queued on the listener. */
  lemma ConnectOk(s: Net, sock: nat, destHost: nat, dest: Addr)
    requires Inv(s) && sock < |s.socks| && s.socks[sock].host < |s.hosts|
    requires destHost < |s.hosts| && AddrFits(dest)
    ensures Good(s, Connect(s, sock, destHost, dest).0)
    ensures Connect(s, sock, destHost, dest).1.Ok? ==> Coupled(s, Connect(s, sock, destHost, dest).0, sock)
  {
    GoodRefl(s);
    var k := s.socks[sock];
    if k.state == New || k.state == Bound {
      var l := FirstListener(s.socks, destHost, k.kind, k.family, dest, 0);
      if l < |s.socks| && |s.socks[l].backlog| < s.socks[l].backlogMax {
        assert SockOk(s.socks[l]);
        ConnectToListener(s, sock, destHost, dest, l);
      }
    }
  }

  lemma PreparedOk(s: Net, sock: nat, near: Addr, destHost: nat)
    requires Inv(s) && sock < |s.socks| && destHost < |s.hosts| && AddrFits(near)
    requires s.socks[sock].state == New || s.socks[sock].state == Bound
    ensures var (t, r) := Prepared(s, sock, near, destHost);
            && Good(s, t)
            && (r.Ok? ==>
                  && r.value < |s.socks| && r.value != sock && s.socks[r.value].state == Free
                  && t.socks == s.socks[sock := s.socks[sock].(local := near)]
                                [r.value := FreshSock(destHost, s.socks[sock].family, s.socks[sock].kind)])
  {
    hide WholeDgrams, Links, Queues, RefsAgree, Edges, Flow;
    var k := s.socks[sock];
    assert SockOk(k);
    var d := k.(local := near);
    ReplaceGood(s, sock, d);
    var s2 := SetSock(s, sock, d);
    NewSocketOk(s2, destHost, k.family, k.kind);
    var (t, r) := Prepared(s, sock, near, destHost);
    if r.Ok? { assert SockOk(s2.socks[r.value]); }
    GoodCompose(s, s2, t);
  }

  lemma NearNameOk(s: Net, sock: nat, dest: Addr)
    requires Inv(s) && sock < |s.socks| && s.socks[sock].host < |s.hosts| && AddrFits(dest)
    ensures var (t, r) := NearName(s, sock, dest);
            Good(s, t) && t.socks == s.socks && |t.hosts| == |s.hosts| && (r.Ok? ==> AddrFits(r.value))
  {
    GoodRefl(s);
    var k := s.socks[sock];
    assert SockOk(k);
    PortOk(s, k.host, k.kind, PORT_TRIES);
  }

  lemma ConnectToListener(s: Net, sock: nat, destHost: nat, dest: Addr, l: nat)
    requires Inv(s) && sock < |s.socks| && s.socks[sock].host < |s.hosts| && l < |s.socks|
    requires destHost < |s.hosts| && AddrFits(dest)
    requires s.socks[sock].state == New || s.socks[sock].state == Bound
    requires s.socks[l].state == Listening && s.socks[l].kind == s.socks[sock].kind
    requires |s.socks[l].backlog| < BACKLOG && AddrFits(s.socks[l].local)
    ensures Good(s, ConnectTo(s, sock, destHost, dest, l).0)
    ensures ConnectTo(s, sock, destHost, dest, l).1.Ok? ==> Coupled(s, ConnectTo(s, sock, destHost, dest, l).0, sock)
  {
    hide Edges, Flow, Queues, Links, Couple, SockOk, RefsAgree, NearName, Prepared;
    var k := s.socks[sock];
    NearNameOk(s, sock, dest);
    var (s1, near) := NearName(s, sock, dest);
    if near.Ok? {
      PreparedOk(s1, sock, near.value, destHost);
      var (s3, made) := Prepared(s1, sock, near.value, destHost);
      if made.Ok? {
        CoupleStep(s1, s3, sock, made.value, l, near.value, FarName(k.family, s.socks[l].local, dest), destHost);
      }
    }
  }

  predicate Meet(s: Net, t: Net, sock: nat, far: nat) {
    && sock < |s.socks| == |t.socks| && far < |t.socks| && s.socks[far].state == Free
    && t.socks[sock].state == Connected && t.socks[sock].farEnd == far
    && t.socks[far].state == Connected && t.socks[far].farEnd == sock && t.socks[far].refs == 0
    && Pending(t.socks[sock]) == [] && Pending(t.socks[far]) == []
  }

  predicate Coupled(s: Net, t: Net, sock: nat) {
    && sock < |t.socks| && Meet(s, t, sock, t.socks[sock].farEnd)
    && exists l :: 0 <= l < |t.socks| && Queued(t.socks, l, t.socks[sock].farEnd)
  }

  lemma CoupleStep(s: Net, s3: Net, sock: nat, far: nat, l: nat, near: Addr, farLocal: Addr, host: nat)
    requires Inv(s) && Good(s, s3) && AddrFits(near) && AddrFits(farLocal)
    requires sock < |s.socks| && far < |s.socks| && far != sock && l < |s.socks|
    requires s.socks[sock].state == New || s.socks[sock].state == Bound
    requires s.socks[far].state == Free && s.socks[l].state == Listening && |s.socks[l].backlog| < BACKLOG
    requires s.socks[l].kind == s.socks[sock].kind
    requires s3.socks == s.socks[sock := s.socks[sock].(local := near)]
                              [far := FreshSock(host, s.socks[sock].family, s.socks[sock].kind)]
    ensures Good(s, Couple(s3, sock, far, l, near, farLocal))
    ensures Coupled(s, Couple(s3, sock, far, l, near, farLocal), sock)
  {
    hide WholeDgrams, Links, Queues, RefsAgree, Edges, Flow;
    assert SockOk(s.socks[l]) && SockOk(s.socks[sock]) && SockOk(s.socks[far]);
    var t := Couple(s3, sock, far, l, near, farLocal);
    CoupleGood(s3, sock, far, l, near, farLocal);
    GoodCompose(s, s3, t);
    CoupleMeets(s, s3, sock, far, l, near, farLocal);
  }

  lemma CoupleMeets(s: Net, s3: Net, sock: nat, far: nat, l: nat, near: Addr, farLocal: Addr)
    requires |s3.socks| == |s.socks| && sock < |s.socks| && far < |s.socks| && far != sock && l < |s.socks|
    requires s.socks[far].state == Free && l != sock && l != far && s3.socks[l].state == Listening
    requires s3.socks[far].refs == 0 && s3.socks[sock].rx == [] && s3.socks[sock].flight == []
    requires s3.socks[far].rx == [] && s3.socks[far].flight == []
    ensures Coupled(s, Couple(s3, sock, far, l, near, farLocal), sock)
  {
    var t := Couple(s3, sock, far, l, near, farLocal);
    var q := t.socks[l].backlog;
    assert q[|q| - 1] == far;
    assert Queued(t.socks, l, far);
  }

  // ---- datagrams ----------------------------------------------------------

  lemma BindIfNewOk(s: Net, sock: nat)
    requires Inv(s) && sock < |s.socks| && s.socks[sock].host < |s.hosts|
    ensures var (t, r) := BindIfNew(s, sock);
            Good(s, t) && (forall i :: 0 <= i < |s.socks| ==> t.socks[i].refs == s.socks[i].refs)
            && (forall i :: 0 <= i < |s.socks| && i != sock ==> t.socks[i] == s.socks[i])
            && (s.socks[sock].state != Connected ==> t.socks[sock].state != Connected)
            && t.socks[sock].kind == s.socks[sock].kind
            && (s.socks[sock].state == Connected ==> t == s)
  {
    GoodRefl(s);
    BindOk(s, sock, InetAddr(0, 0));
  }

  lemma ConnectDgramOk(s: Net, sock: nat, dest: Addr)
    requires Inv(s) && sock < |s.socks| && s.socks[sock].host < |s.hosts| && AddrFits(dest)
    requires s.socks[sock].kind == Dgram
    ensures Good(s, ConnectDgram(s, sock, dest).0)
  {
    BindIfNewOk(s, sock);
    var (s1, bound) := BindIfNew(s, sock);
    assert SockOk(s1.socks[sock]) && SockOk(s.socks[sock]);
    if bound.Ok? {
      var d := s1.socks[sock].(peer := dest, hasPeer := true);
      ReplaceGood(s1, sock, d);
      GoodCompose(s, s1, SetSock(s1, sock, d));
    }
  }

  lemma CountersGood(s: Net, t: Net)
    requires Inv(s) && t == s.(dropped := t.dropped, datagrams := t.datagrams)
    ensures Good(s, t)
  {
    GoodRefl(s);
  }

  lemma RouteOk(s: Net, k: Sock, dest: Option<(nat, Addr)>)
    requires HostsOk(s.hosts) && SockOk(k) && k.host < |s.hosts|
    ensures var r := DgramRoute(s, k, dest); r.Some? ==> AddrFits(r.value.2)
  {
  }

  lemma DgramDelivered(s: Net, host: nat, t: nat, from: Addr, data: seq<Byte>)
    requires Inv(s) && t < |s.socks| && s.socks[t].kind == Dgram && AddrFits(from) && |data| <= MAX_DGRAM
    ensures Good(s, Deliver(s, host, t, PDatagram(from, data)).0)
    ensures SameShapes(s.socks, Deliver(s, host, t, PDatagram(from, data)).0.socks)
  {
    assert SockOk(s.socks[t]);
    var p := PDatagram(from, data);
    DeliverOk(s, host, t, p);
    var (u, n) := Deliver(s, host, t, p);
    DeliveryInv(s, u, t, p, n);
    DeliveryEdges(s, u, t, p, n);
    DeliveryFlow(s, u, t, p, n);
    DeliveryShapes(s, u, t, p, n);
  }

  lemma DispatchOk(s: Net, k: Sock, route: (nat, Addr, Addr), data: seq<Byte>)
    requires Inv(s) && AddrFits(route.2) && |data| <= MAX_DGRAM
    ensures Good(s, Dispatch(s, k, route, data).0)
  {
    hide Edges, Flow, Links, Queues, SockOk, Deliver;
    GoodRefl(s);
    var (destHost, to, from) := route;
    var t := FirstReceiver(s.socks, destHost, k.family, to, from, 0);
    var u := Dispatch(s, k, route, data).0;
    if t == |s.socks| {
      CountersGood(s, u);
    } else {
      DgramDelivered(s, k.host, t, from, data);
      var s2 := Deliver(s, k.host, t, PDatagram(from, data)).0;
      CountersGood(s2, u);
      assert Edges(s.socks, u.socks, -1) && Flow(s.socks, u.socks, -1, []);
    }
  }

  lemma SendDgramOk(s: Net, sock: nat, dest: Option<(nat, Addr)>, data: seq<Byte>)
    requires Inv(s) && sock < |s.socks| && s.socks[sock].host < |s.hosts|
    requires dest.Some? ==> AddrFits(dest.value.1)
    ensures Good(s, SendDgram(s, sock, dest, data).0)
  {
    hide Edges, Flow, Links, Queues, WholeDgrams, Deliver, FirstReceiver;
    GoodRefl(s);
    BindIfNewOk(s, sock);
    var (s1, bound) := BindIfNew(s, sock);
    if |data| <= MAX_DGRAM && bound.Ok? {
      var k := s1.socks[sock];
      assert SockOk(k);
      RouteOk(s1, k, dest);
      var route := DgramRoute(s1, k, dest);
      if route.Some? {
        DispatchOk(s1, k, route.value, data);
        var u := Dispatch(s1, k, route.value, data).0;
        assert SendDgram(s, sock, dest, data) == Dispatch(s1, k, route.value, data);
        AfterBind(s, s1, u, sock);
      }
    }
  }

  /** Binding first and anything good after is good: it changes no connection. */
  lemma AfterBind(s: Net, s1: Net, u: Net, sock: nat)
    requires Good(s, s1) && Good(s1, u) && |u.socks| == |s.socks| == |s1.socks|
    requires forall i :: 0 <= i < |s.socks| ==> s1.socks[i].refs == s.socks[i].refs
    requires forall i :: 0 <= i < |s.socks| && i != sock ==> s1.socks[i] == s.socks[i]
    requires sock < |s.socks| && (s.socks[sock].state == Connected ==> s1 == s)
    ensures Good(s, u)
  {
    forall i | 0 <= i < |s.socks| && Kept(s.socks, u.socks, i) ensures Kept(s.socks, s1.socks, i) {
      assert s1.socks[i] == s.socks[i];
      assert Kept(s1.socks, u.socks, i);
    }
    GoodCompose(s, s1, u);
  }

  /** What a datagram receive returns is the oldest whole datagram of the
      ring; the rest of the ring is untouched and still whole datagrams. */
  lemma RecvDgramOk(s: Net, sock: nat, want: nat, peek: bool)
    requires Inv(s) && sock < |s.socks| && s.socks[sock].kind == Dgram
    ensures s.socks[sock].rx != [] ==> DgramHead(s.socks[sock].rx)
    ensures Good(s, RecvDgram(s, sock, want, peek).0)
    ensures forall from, data, rest ::
              (s.socks[sock].rx == EncDgram(from, data) + rest && AddrFits(from) && |data| < 0x1_0000_0000) ==>
              var (t, r) := RecvDgram(s, sock, want, peek);
              r == Ok((data[..Min(want, |data|)], from)) && (!peek ==> t.socks[sock].rx == rest)
  {
    GoodRefl(s);
    var k := s.socks[sock];
    assert SockOk(k);
    if k.rx != [] {
      var d := k.(rx := k.rx[DgramSize(k.rx)..]);
      ReplaceGood(s, sock, d);
      forall from, data, rest | k.rx == EncDgram(from, data) + rest && AddrFits(from) && |data| < 0x1_0000_0000
        ensures var (t, r) := RecvDgram(s, sock, want, peek);
                r == Ok((data[..Min(want, |data|)], from)) && (!peek ==> t.socks[sock].rx == rest)
      {
        DgramRoundTrip(from, data, rest);
      }
    }
  }
}

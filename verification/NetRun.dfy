/** Whole runs of the virtual network: what holds in every reachable state, and
    what a reader of a connection gets over time. */
module NetRun {
  import opened Wrappers
  import opened NetTypes
  import opened Wire
  import opened NetSpec
  import opened NetInv
  import opened NetSteps
  import opened NetTime
  import opened NetOpen
  import opened NetClose
  import opened NetRefs
  import opened NetProcs

  datatype Op =
    | OpSocket(host: nat, family: Family, kind: Kind)
    | OpBind(sock: nat, addr: Addr)
    | OpListen(sock: nat, backlog: int)
    | OpConnect(sock: nat, destHost: nat, dest: Addr)
    | OpAccept(sock: nat)
    | OpSend(sock: nat, data: seq<Byte>)
    | OpRecv(sock: nat, want: nat, peek: bool)
    | OpShutdown(sock: nat, read: bool, write: bool)
    | OpConnectDgram(sock: nat, dest: Addr)
    | OpSendDgram(sock: nat, to: Option<(nat, Addr)>, data: seq<Byte>)
    | OpRecvDgram(sock: nat, want: nat, peek: bool)
    | OpAddRef(pid: nat, sock: nat)
    | OpDropRef(pid: nat, sock: nat)
    | OpSetRefs(pid: nat, held: seq<nat>)
    | OpAdvance(now: nat)

  datatype Reply = Done | GotSock(n: nat) | Count(n: nat) | Data(bytes: seq<Byte>)
                 | GotDgram(bytes: seq<Byte>, from: Addr) | Failed(error: NetError) | Moved(any: bool)

  /** A caller reaches a socket through a descriptor. */
  predicate Held1(s: Net, sock: nat) { sock < |s.socks| && s.socks[sock].refs > 0 }

  /** What the callers guarantee: operations go through descriptors; a
      reference is added to an open socket that is not queued, and dropped by
      a process that holds one; and the table of references is not full. */
  predicate Enabled(s: Net, op: Op) {
    match op
    case OpSocket(host, _, _) => host < |s.hosts|
    case OpBind(sock, addr) => Held1(s, sock) && AddrFits(addr)
    case OpListen(sock, _) => Held1(s, sock)
    case OpConnect(sock, destHost, dest) => Held1(s, sock) && destHost < |s.hosts| && AddrFits(dest)
    case OpAccept(sock) => Held1(s, sock)
    case OpSend(sock, _) => Held1(s, sock)
    case OpRecv(sock, _, _) => Held1(s, sock)
    case OpShutdown(sock, _, _) => Held1(s, sock)
    case OpConnectDgram(sock, dest) => Held1(s, sock) && s.socks[sock].kind == Dgram && AddrFits(dest)
    case OpSendDgram(sock, to, _) =>
      Held1(s, sock) && s.socks[sock].kind == Dgram && (to.Some? ==> AddrFits(to.value.1))
    case OpRecvDgram(sock, _, _) => Held1(s, sock) && s.socks[sock].kind == Dgram
    case OpAddRef(pid, sock) =>
      sock < |s.socks| && s.socks[sock].state != Free && s.socks[sock].state != Closed
      && NotQueued(s.socks, sock) && FdSlot(s.fdrefs, pid, sock) < |s.fdrefs|
    case OpDropRef(pid, sock) => sock < |s.socks| && Held(s.fdrefs, pid, sock) > 0
    case OpSetRefs(pid, held) => AllReferenced(s.socks, held) && AddAll(s, pid, held).Some?
    case OpAdvance(_) => true
  }

  function Plain(r: Result<()>): Reply { match r case Ok(_) => Done case Err(e) => Failed(e) }
  function Sockets(r: Result<nat>): Reply { match r case Ok(n) => GotSock(n) case Err(e) => Failed(e) }
  function Counted(r: Result<nat>): Reply { match r case Ok(n) => Count(n) case Err(e) => Failed(e) }

  lemma Reachable(s: Net, op: Op)
    requires Inv(s) && Enabled(s, op)
    ensures FarEndsInTable(s.socks) && Releasable(s.socks)
    ensures forall i {:trigger s.socks[i].host} :: 0 <= i < |s.socks| ==> s.socks[i].host < |s.hosts|
    ensures op.OpRecvDgram? && s.socks[op.sock].rx != [] ==> DgramHead(s.socks[op.sock].rx)
    ensures op.OpDropRef? ==> FdSlot(s.fdrefs, op.pid, op.sock) < |s.fdrefs|
    ensures op.OpSetRefs? ==> SetRefs(s, op.pid, op.held).Some?
  {
    hide Held, FdSlot;
    LinksStayInTable(s.socks);
    InvReleasable(s.socks);
    forall i | 0 <= i < |s.socks| ensures s.socks[i].host < |s.hosts| { assert SockOk(s.socks[i]); }
    if op.OpRecvDgram? { assert SockOk(s.socks[op.sock]); }
    if op.OpDropRef? { DropRefOk(s, op.pid, op.sock); }
    if op.OpSetRefs? { SetRefsOk(s, op.pid, op.held); }
  }

  /** One operation: the new state and what the caller sees */
  function Step(s: Net, op: Op): (Net, Reply)
    requires Inv(s) && Enabled(s, op)
  {
    hide Inv;
    Reachable(s, op);
    match op
    case OpSocket(host, family, kind) =>
      var (t, r) := NewSocket(s, host, family, kind); (t, Sockets(r))
    case OpBind(sock, addr) => var (t, r) := Bind(s, sock, addr); (t, Plain(r))
    case OpListen(sock, backlog) => var (t, r) := Listen(s, sock, backlog); (t, Plain(r))
    case OpConnect(sock, host, dest) => var (t, r) := Connect(s, sock, host, dest); (t, Plain(r))
    case OpAccept(sock) => var (t, r) := Accept(s, sock); (t, Sockets(r))
    case OpSend(sock, data) =>
      var (t, r) := Send(s, sock, data);
      (t, Counted(r))
    case OpRecv(sock, want, peek) =>
      var (t, r) := Recv(s, sock, want, peek);
      (t, match r case Ok(b) => Data(b) case Err(e) => Failed(e))
    case OpShutdown(sock, rd, wr) => var (t, r) := Shutdown(s, sock, rd, wr); (t, Plain(r))
    case OpConnectDgram(sock, dest) => var (t, r) := ConnectDgram(s, sock, dest); (t, Plain(r))
    case OpSendDgram(sock, to, data) =>
      var (t, r) := SendDgram(s, sock, to, data); (t, Counted(r))
    case OpRecvDgram(sock, want, peek) =>
      var (t, r) := RecvDgram(s, sock, want, peek);
      (t, match r case Ok(d) => GotDgram(d.0, d.1) case Err(e) => Failed(e))
    case OpAddRef(pid, sock) => (AddRef(s, pid, sock), Done)
    case OpDropRef(pid, sock) => (DropRef(s, pid, sock), Done)
    case OpSetRefs(pid, held) => (SetRefs(s, pid, held).value, Done)
    case OpAdvance(now) => var (t, any) := Advance(s, now); (t, Moved(any))
  }

  /** The socket whose own call may change its readiness uncounted */
  function Own(op: Op): int { if op.OpShutdown? then op.sock else -1 }

  /** Stream bytes this step adds to what `b` will read */
  ghost function Accepted(s: Net, op: Op, b: nat): seq<Byte>
    requires Inv(s) && Enabled(s, op)
  {
    var reply := Step(s, op).1;
    if op.OpSend? && reply.Count? && s.socks[op.sock].farEnd == b && reply.n <= |op.data|
    then op.data[..reply.n] else []
  }

  /** Stream bytes this step hands to `b`'s reader for good */
  ghost function Returned(s: Net, op: Op, b: nat): seq<Byte>
    requires Inv(s) && Enabled(s, op)
  {
    var reply := Step(s, op).1;
    if op.OpRecv? && op.sock == b && !op.peek && reply.Data? then reply.bytes else []
  }

  /** One step conserves the bytes of every open connection. */
  ghost predicate Conserves(s: Net, op: Op)
    requires Inv(s) && Enabled(s, op)
  {
    var k, m := s.socks, Step(s, op).0.socks;
    |m| == |k| && forall b :: 0 <= b < |k| && Kept(k, m, b) ==>
      Pending(k[b]) + Accepted(s, op, b) == Returned(s, op, b) + Pending(m[b])
  }

  lemma QuietConserves(s: Net, op: Op)
    requires Inv(s) && Enabled(s, op) && !op.OpSend? && !op.OpRecv?
    requires Flow(s.socks, Step(s, op).0.socks, -1, [])
    ensures Conserves(s, op)
  {
    hide Inv, Step, Enabled, Pending;
    var k, m := s.socks, Step(s, op).0.socks;
    forall b | 0 <= b < |k| && Kept(k, m, b)
      ensures Pending(k[b]) + Accepted(s, op, b) == Returned(s, op, b) + Pending(m[b])
    { }
  }

  lemma SendStep(s: Net, op: Op)
    requires Inv(s) && Enabled(s, op) && op.OpSend?
    ensures Inv(Step(s, op).0) && Edges(s.socks, Step(s, op).0.socks, Own(op)) && Conserves(s, op)
  {
    hide Inv, Edges, Send, Pending;
    Reachable(s, op);
    SendOk(s, op.sock, op.data);
    var k, m, r := s.socks, Step(s, op).0.socks, Send(s, op.sock, op.data).1;
    forall b | 0 <= b < |k| && Kept(k, m, b)
      ensures Pending(k[b]) + Accepted(s, op, b) == Returned(s, op, b) + Pending(m[b])
    { }
  }

  lemma RecvStep(s: Net, op: Op)
    requires Inv(s) && Enabled(s, op) && op.OpRecv?
    ensures Inv(Step(s, op).0) && Edges(s.socks, Step(s, op).0.socks, Own(op)) && Conserves(s, op)
  {
    hide Inv, Edges, Recv, Pending;
    Reachable(s, op);
    RecvOk(s, op.sock, op.want, op.peek);
    var k, m, r := s.socks, Step(s, op).0.socks, Recv(s, op.sock, op.want, op.peek).1;
    forall b | 0 <= b < |k| && Kept(k, m, b)
      ensures Pending(k[b]) + Accepted(s, op, b) == Returned(s, op, b) + Pending(m[b])
    { }
  }

  lemma AdvanceStep(s: Net, op: Op)
    requires Inv(s) && Enabled(s, op) && op.OpAdvance?
    ensures Inv(Step(s, op).0) && Edges(s.socks, Step(s, op).0.socks, Own(op))
      && Flow(s.socks, Step(s, op).0.socks, -1, [])
  {
    hide Inv, Edges, Flow, Advance, DueCount, Pending, SameShapes;
    Reachable(s, op);
    AdvanceOk(s, op.now);
    CalmFlow(s, Advance(s, op.now).0.socks);
  }

  lemma OpenStep(s: Net, op: Op)
    requires Inv(s) && Enabled(s, op)
    requires op.OpSocket? || op.OpBind? || op.OpListen? || op.OpConnect? || op.OpAccept?
    ensures Good(s, Step(s, op).0)
  {
    hide Inv, Edges, Flow, NewSocket, Bind, Listen, Connect, Accept;
    Reachable(s, op);
    match op
    case OpSocket(host, family, kind) => NewSocketOk(s, host, family, kind);
    case OpBind(sock, addr) => BindOk(s, sock, addr);
    case OpListen(sock, backlog) => ListenOk(s, sock, backlog);
    case OpConnect(sock, host, dest) => ConnectOk(s, sock, host, dest);
    case OpAccept(sock) => AcceptOk(s, sock);
  }

  lemma DgramStep(s: Net, op: Op)
    requires Inv(s) && Enabled(s, op)
    requires op.OpConnectDgram? || op.OpSendDgram? || op.OpRecvDgram?
    ensures Good(s, Step(s, op).0)
  {
    hide Inv, Edges, Flow, ConnectDgram, SendDgram, RecvDgram;
    Reachable(s, op);
    match op
    case OpConnectDgram(sock, dest) => ConnectDgramOk(s, sock, dest);
    case OpSendDgram(sock, to, data) => SendDgramOk(s, sock, to, data);
    case OpRecvDgram(sock, want, peek) => RecvDgramOk(s, sock, want, peek);
  }

  lemma RefStep(s: Net, op: Op)
    requires Inv(s) && Enabled(s, op)
    requires op.OpAddRef? || op.OpDropRef? || op.OpSetRefs?
    ensures Good(s, Step(s, op).0)
  {
    hide Inv, Edges, Flow, AddRef, DropRef, SetRefs, Held, FdSlot;
    Reachable(s, op);
    match op
    case OpAddRef(pid, sock) => AddRefOk(s, pid, sock);
    case OpDropRef(pid, sock) => DropRefOk(s, pid, sock);
    case OpSetRefs(pid, held) => SetRefsOk(s, pid, held);
  }

  lemma ShutdownStep(s: Net, op: Op)
    requires Inv(s) && Enabled(s, op) && op.OpShutdown?
    ensures Inv(Step(s, op).0) && Edges(s.socks, Step(s, op).0.socks, Own(op))
      && Flow(s.socks, Step(s, op).0.socks, -1, [])
  {
    hide Inv, Edges, Flow, Shutdown;
    Reachable(s, op);
    ReferencedNotQueued(s, op.sock);
    ShutdownOk(s, op.sock, op.read, op.write);
  }

  /** Every operation a caller can make keeps the invariant, counts every edge
      but its own shutdown's, and conserves the bytes of open connections. */
  lemma StepOk(s: Net, op: Op)
    requires Inv(s) && Enabled(s, op)
    ensures Inv(Step(s, op).0) && Edges(s.socks, Step(s, op).0.socks, Own(op)) && Conserves(s, op)
  {
    hide Inv, Enabled, Edges, Flow, Step, Conserves;
    match op
    case OpSend(_, _) => SendStep(s, op);
    case OpRecv(_, _, _) => RecvStep(s, op);
    case OpAdvance(_) => AdvanceStep(s, op); QuietConserves(s, op);
    case OpShutdown(_, _, _) => ShutdownStep(s, op); QuietConserves(s, op);
    case OpAddRef(_, _) => RefStep(s, op); QuietConserves(s, op);
    case OpDropRef(_, _) => RefStep(s, op); QuietConserves(s, op);
    case OpSetRefs(_, _) => RefStep(s, op); QuietConserves(s, op);
    case OpConnectDgram(_, _) => DgramStep(s, op); QuietConserves(s, op);
    case OpSendDgram(_, _, _) => DgramStep(s, op); QuietConserves(s, op);
    case OpRecvDgram(_, _, _) => DgramStep(s, op); QuietConserves(s, op);
    case _ => OpenStep(s, op); QuietConserves(s, op);
  }

  // ---- runs ---------------------------------------------------------------

  ghost predicate Runs(s: Net, ops: seq<Op>)
    requires Inv(s)
    decreases |ops|
  {
    ops == [] || (Enabled(s, ops[0]) && (StepOk(s, ops[0]); Runs(Step(s, ops[0]).0, ops[1..])))
  }

  ghost function After(s: Net, ops: seq<Op>): (t: Net)
    requires Inv(s) && Runs(s, ops)
    ensures Inv(t) && |t.socks| == |s.socks|
    decreases |ops|
  {
    if ops == [] then s
    else
      StepOk(s, ops[0]);
      After(Step(s, ops[0]).0, ops[1..])
  }

  /** The network as a run finds it: every record zero */
  function Zeroed(hosts: seq<Host>, latency: nat): Net {
    Net(seq(MAX_SOCKETS, i => FreshSock(0, Inet, Stream).(state := Free, farEnd := 0)),
        seq(MAX_FDREFS, i => FdRef(0, 0, 0)), hosts, 0, latency, 0, 0, 0, 0, 0, 0)
  }

  lemma {:induction false} ZeroTotal(k: seq<Sock>)
    requires forall i :: 0 <= i < |k| ==> k[i].flight == []
    ensures Total(k) == 0
  {
    if k != [] {
      forall i | 0 <= i < |k[1..]| ensures k[1..][i].flight == [] { assert k[1..][i] == k[i + 1]; }
      ZeroTotal(k[1..]);
    }
  }

  lemma {:induction false} ZeroRefs(t: seq<FdRef>, x: nat)
    requires forall i :: 0 <= i < |t| ==> t[i].count == 0
    ensures RefSum(t, x) == 0
  {
    if t != [] {
      forall i | 0 <= i < |t[1..]| ensures t[1..][i].count == 0 { assert t[1..][i] == t[i + 1]; }
      ZeroRefs(t[1..], x);
    }
  }

  /** Every run starts in a state that satisfies the invariant, so every state
      it reaches does. */
  lemma ZeroedOk(hosts: seq<Host>, latency: nat)
    requires HostsOk(hosts) && hosts != []
    ensures Inv(Zeroed(hosts, latency))
  {
    var s := Zeroed(hosts, latency);
    ZeroTotal(s.socks);
    forall i | 0 <= i < |s.socks| ensures s.socks[i].refs == RefSum(s.fdrefs, i) { ZeroRefs(s.fdrefs, i); }
    forall i | 0 <= i < |s.socks| ensures SockOk(s.socks[i]) && s.socks[i].host < |hosts| { }
  }

  /** In every state a run reaches: what has landed and what is in flight fit
      their rings; a connection's far end is live and points back, so none
      names a free slot; descriptors are counted right; and the bound on the
      next arrival is no later than any. */
  lemma EveryState(hosts: seq<Host>, latency: nat, ops: seq<Op>, i: nat)
    requires HostsOk(hosts) && hosts != [] && Inv(Zeroed(hosts, latency)) && Runs(Zeroed(hosts, latency), ops)
    requires i < MAX_SOCKETS
    ensures var t := After(Zeroed(hosts, latency), ops);
            && i < |t.socks| && t.inFlight == Total(t.socks)
            && var k := t.socks[i];
               && |k.rx| + FlStream(k.flight) <= RING && FlLen(k.flight) <= RING && k.refs == RefSum(t.fdrefs, i)
               && (k.state == Connected || k.state == Closed ==>
                     k.farEnd < |t.socks| && t.socks[k.farEnd].farEnd == i
                     && (t.socks[k.farEnd].state == Connected
                         || (t.socks[k.farEnd].state == Closed && k.state == Connected)))
               && (k.flight != [] ==> t.inFlight > 0 && t.nextDue <= k.flight[0].due)
  {
    var t := After(Zeroed(hosts, latency), ops);
    hide Runs, After, Zeroed, Queues, HostsOk;
    var k := t.socks[i];
    assert SockOk(k) && Linked(t.socks, i);
    TotalUpdate(t.socks, i, k);
  }

  /** `b` is an open connection in every state of the run, its reader never
      having shut its side. */
  ghost predicate OpenThroughout(s: Net, ops: seq<Op>, b: nat)
    requires Inv(s) && Runs(s, ops)
    decreases |ops|
  {
    && b < |s.socks| && s.socks[b].state == Connected && !s.socks[b].shutRd
    && (ops != [] ==> (StepOk(s, ops[0]); OpenThroughout(Step(s, ops[0]).0, ops[1..], b)))
  }

  /** What `b`'s far end's sends were told was taken, over the run */
  ghost function AllAccepted(s: Net, ops: seq<Op>, b: nat): seq<Byte>
    requires Inv(s) && Runs(s, ops)
    decreases |ops|
  {
    if ops == [] then []
    else
      StepOk(s, ops[0]);
      Accepted(s, ops[0], b) + AllAccepted(Step(s, ops[0]).0, ops[1..], b)
  }

  /** What `b`'s receives returned for good, over the run */
  ghost function AllReturned(s: Net, ops: seq<Op>, b: nat): seq<Byte>
    requires Inv(s) && Runs(s, ops)
    decreases |ops|
  {
    if ops == [] then []
    else
      StepOk(s, ops[0]);
      Returned(s, ops[0], b) + AllReturned(Step(s, ops[0]).0, ops[1..], b)
  }

  /** First in, first out, over every run: what was pending and what the far
      end's sends added is what the reader was given, then what is in its
      ring, then what is in flight, in that order. */
  lemma {:induction false} StreamFifo(s: Net, ops: seq<Op>, b: nat)
    requires Inv(s) && Runs(s, ops) && OpenThroughout(s, ops, b)
    ensures b < |After(s, ops).socks|
    ensures Pending(s.socks[b]) + AllAccepted(s, ops, b)
            == AllReturned(s, ops, b) + Pending(After(s, ops).socks[b])
    decreases |ops|
  {
    hide Inv, Step, Pending, Accepted, Returned, Edges, Enabled;
    if ops == [] {
    } else {
      StepOk(s, ops[0]);
      var t := Step(s, ops[0]).0;
      StreamFifo(t, ops[1..], b);
      assert Kept(s.socks, t.socks, b);
      var p, a, r := Pending(s.socks[b]), Accepted(s, ops[0], b), Returned(s, ops[0], b);
      var p1, a1, r1 := Pending(t.socks[b]), AllAccepted(t, ops[1..], b), AllReturned(t, ops[1..], b);
      var p2 := Pending(After(t, ops[1..]).socks[b]);
      assert p + (a + a1) == (p + a) + a1 == (r + p1) + a1 == r + (p1 + a1) == r + (r1 + p2) == (r + r1) + p2;
    }
  }

  /** The whole life of a connection: from the connect that made it, each end
      reads exactly what the other end's sends were told was taken. */
  lemma ConnectionFifo(s: Net, op: Op, ops: seq<Op>, b: nat)
    requires Inv(s) && op.OpConnect? && Enabled(s, op) && Step(s, op).1 == Done
    requires Inv(Step(s, op).0) && Runs(Step(s, op).0, ops) && OpenThroughout(Step(s, op).0, ops, b)
    requires b == op.sock || b == Step(s, op).0.socks[op.sock].farEnd
    ensures AllAccepted(Step(s, op).0, ops, b)
            == AllReturned(Step(s, op).0, ops, b) + Pending(After(Step(s, op).0, ops).socks[b])
  {
    hide Inv, Edges, Flow, Step, Pending, OpenThroughout;
    var t := Step(s, op).0;
    FreshFromConnect(s, op, b);
    StreamFifo(t, ops, b);
    assert [] + AllAccepted(t, ops, b) == AllAccepted(t, ops, b);
  }

  /** A connect that succeeds leaves nothing pending at either end. */
  lemma FreshFromConnect(s: Net, op: Op, b: nat)
    requires Inv(s) && op.OpConnect? && Enabled(s, op) && Step(s, op).1 == Done
    requires Inv(Step(s, op).0) && (b == op.sock || b == Step(s, op).0.socks[op.sock].farEnd)
    ensures b < |Step(s, op).0.socks| && Pending(Step(s, op).0.socks[b]) == []
  {
    hide Inv, Edges, Flow, Connect;
    Reachable(s, op);
    ConnectOk(s, op.sock, op.destHost, op.dest);
  }

  // ---- end of stream ------------------------------------------------------

  /** Once the FIN of a direction has landed nothing is pending behind the
      ring, and its sender can send no more. */
  lemma FinMeansDone(s: Net, b: nat, data: seq<Byte>)
    requires Inv(s) && b < |s.socks| && s.socks[b].state == Connected && s.socks[b].fin
    requires FarEndsInTable(s.socks)
    ensures Pending(s.socks[b]) == s.socks[b].rx
    ensures Send(s, s.socks[b].farEnd, data).1 == Err(Errno(EPIPE))
      || Send(s, s.socks[b].farEnd, data).1 == Err(Errno(ENOTCONN))
  {
    assert SockOk(s.socks[b]) && Linked(s.socks, b);
    assert Linked(s.socks, s.socks[b].farEnd);
  }

  /** A reader that asks for bytes and is told end of stream, on a connection
      whose read side it never shut, has been given every byte its far end's
      sends were told was taken since the connection was made. */
  lemma EofAfterTheLastByte(s: Net, op: Op, ops: seq<Op>, b: nat, want: nat)
    requires Inv(s) && op.OpConnect? && Enabled(s, op) && Step(s, op).1 == Done
    requires Inv(Step(s, op).0) && Runs(Step(s, op).0, ops) && OpenThroughout(Step(s, op).0, ops, b)
    requires b == op.sock || b == Step(s, op).0.socks[op.sock].farEnd
    requires want > 0 && FarEndsInTable(After(Step(s, op).0, ops).socks)
    requires Recv(After(Step(s, op).0, ops), b, want, false).1 == Ok([])
    ensures AllReturned(Step(s, op).0, ops, b) == AllAccepted(Step(s, op).0, ops, b)
    ensures After(Step(s, op).0, ops).socks[b].fin
  {
    hide Inv, Edges, Flow, Step, Recv, Pending;
    var t := Step(s, op).0;
    var u := After(t, ops);
    ConnectionFifo(s, op, ops, b);
    EndsOpen(t, ops, b);
    RecvOk(u, b, want, false);
    assert AllReturned(t, ops, b) + [] == AllReturned(t, ops, b);
  }

  lemma {:induction false} EndsOpen(s: Net, ops: seq<Op>, b: nat)
    requires Inv(s) && Runs(s, ops) && OpenThroughout(s, ops, b)
    ensures b < |After(s, ops).socks| && After(s, ops).socks[b].state == Connected && !After(s, ops).socks[b].shutRd
    decreases |ops|
  {
    hide Inv, Step, Edges;
    if ops != [] {
      StepOk(s, ops[0]);
      EndsOpen(Step(s, ops[0]).0, ops[1..], b);
    }
  }

  // ---- edges --------------------------------------------------------------

  /** `b` stays under a descriptor throughout and nobody shuts it down. */
  ghost predicate WatchedThroughout(s: Net, ops: seq<Op>, b: nat)
    requires Inv(s) && Runs(s, ops)
    decreases |ops|
  {
    && b < |s.socks| && s.socks[b].refs > 0
    && (ops != [] ==>
          Own(ops[0]) != b && (StepOk(s, ops[0]); WatchedThroughout(Step(s, ops[0]).0, ops[1..], b)))
  }

  /** No edge is lost, over every run: a socket that was not readable (or not
      writable) at the start and is at the end has had its counter raised, and
      the counters never go back. */
  lemma {:induction false} NoLostEdge(s: Net, ops: seq<Op>, b: nat)
    requires Inv(s) && Runs(s, ops) && WatchedThroughout(s, ops, b)
    ensures FarEndsInTable(s.socks) && FarEndsInTable(After(s, ops).socks)
    ensures b < |s.socks| == |After(s, ops).socks|
    ensures RdEdge(s.socks[b], After(s, ops).socks[b]) && WrEdge(s.socks, After(s, ops).socks, b)
    decreases |ops|
  {
    hide Inv, Step, Enabled, Conserves, Readable, Writable;
    LinksTable(s);
    if ops != [] {
      StepOk(s, ops[0]);
      var t := Step(s, ops[0]).0;
      NoLostEdge(t, ops[1..], b);
      assert t.socks[b].refs > 0;
      assert RdEdge(s.socks[b], t.socks[b]) && WrEdge(s.socks, t.socks, b);
    }
  }

  lemma LinksTable(s: Net)
    requires Inv(s)
    ensures FarEndsInTable(s.socks)
  {
    LinksStayInTable(s.socks);
  }
}

/** What every reachable state of the virtual network satisfies, and that
    each operation keeps it. */
module NetInv {
  import opened NetTypes
  import opened Wire
  import opened NetSpec

  // ---- one socket ---------------------------------------------------------

  /** The one FIN of this direction is queued or has landed. */
  predicate FinSeen(k: Sock) { k.fin || HasFin(k.flight) }

  predicate RecOk(kind: Kind, r: Rec) {
    match r.kind
    case KBytes => kind == Stream && r.body != []
    case KFin => kind == Stream && r.body == []
    case KDgram => kind == Dgram && DgramHead(r.body) && DgramSize(r.body) == |r.body|
  }

  predicate RecsOk(kind: Kind, f: seq<Rec>) { forall i :: 0 <= i < |f| ==> RecOk(kind, f[i]) }

  /** A datagram socket's ring is whole datagrams, back to back. */
  predicate WholeDgrams(b: seq<Byte>)
    decreases |b|
  {
    b == [] || (DgramHead(b) && WholeDgrams(b[DgramSize(b)..]))
  }

  predicate SockOk(k: Sock) {
    // The window law: what is in flight fits when it lands, and a header's
    // room remains until the FIN is queued
    && |k.rx| + FlStream(k.flight) <= RING
    && FlLen(k.flight) <= (if FinSeen(k) then RING else RING - FLIGHT_HEADER)
    && RecsOk(k.kind, k.flight) && FinLast(k.flight)
    && (k.fin ==> k.kind == Stream && k.flight == [])
    && (k.kind == Dgram ==> WholeDgrams(k.rx))
    && AddrFits(k.local) && AddrFits(k.peer)
    && (k.state == New || k.state == Bound || k.state == Listening ==>
          !k.fin && !k.shutWr && !k.shutRd && (k.kind == Stream ==> k.rx == [] && k.flight == []))
    && (k.state == New || k.state == Bound ==> k.backlog == [])
    && (k.state == Listening || k.state == Connected || k.state == Closed ==> k.kind == Stream)
    && (k.state == Listening ==> |k.backlog| <= BACKLOG && 1 <= k.backlogMax <= BACKLOG)
    && (k.state == Free || k.state == Closed ==> k.refs == 0)
  }

  // ---- the table ----------------------------------------------------------

  /** The far end of a connection points back; a closed end's far end is still
      connected; and the FIN has been sent exactly when the far end shut down
      or closed. */
  predicate Linked(k: seq<Sock>, i: nat)
    requires i < |k|
  {
    var f := k[i].farEnd;
    (k[i].state == Connected || k[i].state == Closed ==>
       f < |k| && f != i && k[f].farEnd == i
       && (k[f].state == Connected || (k[f].state == Closed && k[i].state == Connected))
       && (FinSeen(k[f]) <==> k[i].shutWr || k[i].state == Closed))
  }

  predicate Links(k: seq<Sock>) { forall i :: 0 <= i < |k| ==> Linked(k, i) }

  predicate Queued(k: seq<Sock>, l: nat, q: nat) {
    l < |k| && k[l].state == Listening && q in k[l].backlog
  }

  predicate NoDup(q: seq<nat>) { forall x, y :: 0 <= x < y < |q| ==> q[x] != q[y] }

  /** Queued connections are live, unreferenced and untouched, and each is
      queued once. */
  ghost predicate Queues(k: seq<Sock>) {
    && (forall l: nat, q: nat :: Queued(k, l, q) ==>
          q < |k| && k[q].state == Connected && k[q].refs == 0 && !k[q].shutWr && !k[q].shutRd)
    && (forall l: nat, m: nat, q: nat :: Queued(k, l, q) && Queued(k, m, q) ==> l == m)
    && (forall l :: 0 <= l < |k| && k[l].state == Listening ==> NoDup(k[l].backlog))
  }

  predicate HostsOk(h: seq<Host>) {
    |h| <= MAX_HOSTS && forall i :: 0 <= i < |h| ==> h[i].addr < 0x1_0000_0000 && h[i].nextPort < 0x1_0000
  }

  predicate AllSocks(k: seq<Sock>, hosts: nat) {
    forall i {:trigger SockOk(k[i])} :: 0 <= i < |k| ==> SockOk(k[i]) && k[i].host < hosts
  }

  function Total(k: seq<Sock>): nat {
    if k == [] then 0 else |k[0].flight| + Total(k[1..])
  }

  /** `next_due` is at most the due time at the head of every flight ring. */
  predicate DueBound(k: seq<Sock>, t: nat) {
    forall i :: 0 <= i < |k| && k[i].flight != [] ==> t <= k[i].flight[0].due
  }

  predicate Accounted(s: Net) {
    s.inFlight == Total(s.socks) && (s.inFlight > 0 ==> DueBound(s.socks, s.nextDue))
  }

  // ---- events -------------------------------------------------------------

  /** The read side: turning readable raises the counter. */
  predicate RdEdge(a: Sock, b: Sock) {
    b.rdEvents >= a.rdEvents && (!Readable(a) && Readable(b) ==> b.rdEvents > a.rdEvents)
  }

  /** The write side */
  predicate WrEdge(k: seq<Sock>, m: seq<Sock>, i: nat)
    requires i < |k| == |m| && FarEndsInTable(k) && FarEndsInTable(m)
  {
    m[i].wrEvents >= k[i].wrEvents && (!Writable(k, i) && Writable(m, i) ==> m[i].wrEvents > k[i].wrEvents)
  }

  function RefSum(t: seq<FdRef>, sock: nat): nat {
    if t == [] then 0 else (if t[0].sock == sock then t[0].count else 0) + RefSum(t[1..], sock)
  }

  predicate OneEntryEach(t: seq<FdRef>) {
    forall i, j :: 0 <= i < j < |t| && t[i].count > 0 && t[j].count > 0 ==>
      t[i].pid != t[j].pid || t[i].sock != t[j].sock
  }

  predicate RefsAgree(k: seq<Sock>, t: seq<FdRef>) {
    OneEntryEach(t) && forall i :: 0 <= i < |k| ==> k[i].refs == RefSum(t, i)
  }

  /** Everything but the bound on due times, which `advance` restores last */
  ghost predicate Core(s: Net) {
    && |s.socks| == MAX_SOCKETS && |s.fdrefs| == MAX_FDREFS && HostsOk(s.hosts)
    && AllSocks(s.socks, |s.hosts|) && Links(s.socks) && Queues(s.socks)
    && RefsAgree(s.socks, s.fdrefs) && s.inFlight == Total(s.socks)
  }

  ghost predicate Inv(s: Net) {
    Core(s) && (s.inFlight > 0 ==> DueBound(s.socks, s.nextDue))
  }

  // ---- framing ------------------------------------------------------------

  /** Only traffic and event counters differ. */
  predicate SameShape(a: Sock, b: Sock) {
    b == a.(fin := b.fin, rx := b.rx, flight := b.flight, rdEvents := b.rdEvents, wrEvents := b.wrEvents)
  }

  predicate SameShapes(k: seq<Sock>, m: seq<Sock>) {
    |k| == |m| && forall i {:trigger SameShape(k[i], m[i])} :: 0 <= i < |k| ==> SameShape(k[i], m[i])
  }

  lemma ShapesKeepQueues(k: seq<Sock>, m: seq<Sock>)
    requires SameShapes(k, m) && Queues(k)
    ensures Queues(m)
  {
    forall i | 0 <= i < |k| ensures SameShape(k[i], m[i]) && m[i].backlog == k[i].backlog {
    }
    forall l: nat, q: nat | Queued(m, l, q) ensures Queued(k, l, q) {
    }
  }

  lemma ShapesKeepLinks(k: seq<Sock>, m: seq<Sock>)
    requires SameShapes(k, m) && Links(k)
    requires forall i :: 0 <= i < |k| ==> FinSeen(k[i]) == FinSeen(m[i])
    ensures Links(m)
  {
    forall i | 0 <= i < |m| ensures Linked(m, i) {
      assert Linked(k, i) && SameShape(k[i], m[i]);
      if m[i].farEnd < |m| { assert SameShape(k[m[i].farEnd], m[m[i].farEnd]); }
    }
  }

  lemma ShapesKeepRefs(k: seq<Sock>, m: seq<Sock>, t: seq<FdRef>)
    requires SameShapes(k, m) && RefsAgree(k, t)
    ensures RefsAgree(m, t)
  {
    forall i | 0 <= i < |m| ensures m[i].refs == RefSum(t, i) { assert SameShape(k[i], m[i]); }
  }

  lemma {:induction false} TotalUpdate(k: seq<Sock>, i: nat, d: Sock)
    requires i < |k|
    ensures Total(k[i := d]) == Total(k) - |k[i].flight| + |d.flight|
    ensures Total(k) >= |k[i].flight|
  {
    if i == 0 {
      assert k[0 := d][1..] == k[1..];
    } else {
      assert k[i := d][1..] == k[1..][i - 1 := d];
      TotalUpdate(k[1..], i - 1, d);
    }
  }

  lemma {:induction false} TotalZero(k: seq<Sock>)
    requires Total(k) == 0
    ensures forall i :: 0 <= i < |k| ==> k[i].flight == []
  {
    forall i | 0 <= i < |k| ensures k[i].flight == [] { TotalUpdate(k, i, k[i]); }
  }

  // ---- traffic reaching one socket ----------------------------------------

  /** What may be sent to `d`: stream traffic until its FIN, or a datagram */
  predicate PayloadFor(d: Sock, p: Payload) {
    match p
    case PBytes(_) => d.kind == Stream && !FinSeen(d) && (d.state == Connected || d.state == Closed)
    case PFin => d.kind == Stream && !FinSeen(d) && (d.state == Connected || d.state == Closed)
    case PDatagram(from, data) => d.kind == Dgram && AddrFits(from) && |data| <= MAX_DGRAM
  }

  /** Bytes of a stream still to be received: landed, then in flight */
  function Pending(d: Sock): seq<Byte> { d.rx + FlBytes(d.flight) }

  function Taken(p: Payload, n: nat): seq<Byte> {
    if p.PBytes? && n <= |p.data| then p.data[..n] else []
  }

  lemma {:induction false} DgramsAppend(b: seq<Byte>, c: seq<Byte>)
    requires WholeDgrams(b) && DgramHead(c) && DgramSize(c) == |c|
    ensures WholeDgrams(b + c)
    decreases |b|
  {
    if b == [] {
      assert b + c == c;
      assert c[DgramSize(c)..] == [];
      assert WholeDgrams(c);
    } else {
      var n := DgramSize(b);
      DgramsAppend(b[n..], c);
      assert (b + c)[..4] == b[..4] && (b + c)[11] == b[11];
      assert DgramHead(b + c) && DgramSize(b + c) == n;
      assert (b + c)[n..] == b[n..] + c;
    }
  }

  lemma EncIsWhole(from: Addr, data: seq<Byte>)
    requires AddrFits(from) && |data| <= MAX_DGRAM
    ensures DgramHead(EncDgram(from, data)) && DgramSize(EncDgram(from, data)) == |EncDgram(from, data)|
  {
    DgramRoundTrip(from, data, []);
    assert EncDgram(from, data) + [] == EncDgram(from, data);
  }

  lemma ArriveOk(d: Sock, p: Payload)
    requires SockOk(d) && PayloadFor(d, p) && d.flight == []
    ensures var (e, n) := ArriveAt(d, p);
            SockOk(e) && SameShape(d, e) && e.flight == [] && FinSeen(e) == (FinSeen(d) || p.PFin?)
            && (d.kind == Stream ==> Pending(e) == Pending(d) + Taken(p, n))
            && e.wrEvents == d.wrEvents
  {
    hide EncDgram, DgramHead, DgramSize, FromLe, Le;
    assert FlStream(d.flight) == 0;
    match p
    case PFin =>
    case PBytes(data) =>
    case PDatagram(from, data) =>
      EncIsWhole(from, data);
      DgramsAppend(d.rx, EncDgram(from, data));
  }

  lemma ArriveEdge(d: Sock, p: Payload)
    requires |d.rx| + FlStream(d.flight) <= RING && d.flight == []
    ensures RdEdge(d, ArriveAt(d, p).0) && Window(ArriveAt(d, p).0) <= Window(d)
  {
    assert FlStream(d.flight) == 0;
  }

  lemma LaunchEdge(d: Sock, due: nat, p: Payload)
    ensures LaunchRec(d, due, p).0.Some? ==>
              Window(d.(flight := d.flight + [LaunchRec(d, due, p).0.value])) <= Window(d)
  {
    var r := LaunchRec(d, due, p).0;
    if r.Some? { FlightAppend(d.flight, r.value); }
  }

  /** A record that fits joins what is in flight. */
  lemma AppendOk(d: Sock, r: Rec)
    requires SockOk(d) && RecOk(d.kind, r) && !FinSeen(d)
    requires d.kind == Stream ==> d.state == Connected || d.state == Closed
    requires |d.rx| + FlStream(d.flight) + StreamLen(r) <= RING
    requires FlLen(d.flight) + RecLen(r) <= if r.kind == KFin then RING else RING - FLIGHT_HEADER
    ensures var e := d.(flight := d.flight + [r]);
            SockOk(e) && (FinSeen(e) <==> r.kind == KFin)
            && Pending(e) == Pending(d) + if r.kind == KBytes then r.body else []
  {
    hide DgramHead, DgramSize, WholeDgrams, RecLen, StreamLen, FlLen, FlStream, FlBytes, AddrFits;
    FlightAppend(d.flight, r);
    var f := d.flight + [r];
    assert RecsOk(d.kind, f) by { forall i | 0 <= i < |f| ensures RecOk(d.kind, f[i]) { } }
    assert FinLast(f);
  }

  lemma DgramNoFin(d: Sock)
    requires SockOk(d) && d.kind == Dgram
    ensures !FinSeen(d)
  {
    hide WholeDgrams, FlLen, FlStream, AddrFits;
    if d.flight != [] { assert RecOk(d.kind, d.flight[|d.flight| - 1]); }
  }

  lemma SockRoom(d: Sock)
    requires SockOk(d)
    ensures |d.rx| + FlStream(d.flight) <= RING
    ensures FlLen(d.flight) <= if FinSeen(d) then RING else RING - FLIGHT_HEADER
  {
    hide WholeDgrams, FlLen, FlStream, AddrFits, RecsOk;
  }

  lemma LaunchOk(d: Sock, due: nat, p: Payload)
    requires SockOk(d) && PayloadFor(d, p)
    ensures var (r, n) := LaunchRec(d, due, p);
            r.Some? ==>
              var e := d.(flight := d.flight + [r.value]);
              SockOk(e) && r.value.due == due && FinSeen(e) == (FinSeen(d) || p.PFin?)
              && (d.kind == Stream ==> Pending(e) == Pending(d) + Taken(p, n))
    ensures LaunchRec(d, due, p).0.None? ==> !p.PFin? && LaunchRec(d, due, p).1 == 0
  {
    SockRoom(d);
    hide SockOk, EncDgram, DgramHead, DgramSize, FromLe, Le, WholeDgrams, FlLen, FlStream, FlBytes, Pending;
    var (r, n) := LaunchRec(d, due, p);
    if r.Some? {
      if p.PDatagram? {
        DgramNoFin(d);
        EncIsWhole(p.from, p.data);
      }
      AppendOk(d, r.value);
    }
  }

  /** What a delivery does to the state: the receiver alone changes, in its
      traffic only, and the account of records in flight stays exact. */
  predicate Delivered(s: Net, t: Net, dst: nat, p: Payload, n: nat)
    requires dst < |s.socks|
  {
    && |t.socks| == |s.socks|
    && t == s.(socks := s.socks[dst := t.socks[dst]], inFlight := t.inFlight, nextDue := t.nextDue, bytes := t.bytes)
    && SockOk(t.socks[dst]) && SameShape(s.socks[dst], t.socks[dst])
    && RdEdge(s.socks[dst], t.socks[dst]) && t.socks[dst].wrEvents == s.socks[dst].wrEvents
    && Window(t.socks[dst]) <= Window(s.socks[dst])
    && FinSeen(t.socks[dst]) == (FinSeen(s.socks[dst]) || p.PFin?)
    && (s.socks[dst].kind == Stream ==> Pending(t.socks[dst]) == Pending(s.socks[dst]) + Taken(p, n))
    && Accounted(t)
  }

  lemma ArriveDelivers(s: Net, dst: nat, p: Payload)
    requires dst < |s.socks| && SockOk(s.socks[dst]) && PayloadFor(s.socks[dst], p) && Accounted(s)
    requires s.socks[dst].flight == []
    ensures var (t, n) := Arrive(s, dst, p); Delivered(s, t, dst, p, n)
  {
    SockRoom(s.socks[dst]);
    hide SockOk, ArriveAt, PayloadFor, EncDgram, WholeDgrams, FlBytes, FlStream;
    var d := s.socks[dst];
    var (e, n) := ArriveAt(d, p);
    ArriveOk(d, p);
    ArriveEdge(d, p);
    TotalUpdate(s.socks, dst, e);
    var t := Arrive(s, dst, p).0;
    assert t.socks == s.socks[dst := e];
    assert t.socks[dst] == e;
    if t.inFlight > 0 {
      assert DueBound(s.socks, s.nextDue);
      assert DueBound(t.socks, t.nextDue);
    }
  }

  lemma LaunchDelivers(s: Net, dst: nat, due: nat, p: Payload)
    requires dst < |s.socks| && SockOk(s.socks[dst]) && PayloadFor(s.socks[dst], p) && Accounted(s)
    ensures var (t, n) := Launch(s, dst, due, p); Delivered(s, t, dst, p, n)
  {
    hide SockOk, LaunchRec, PayloadFor, EncDgram, WholeDgrams, FlBytes, FlStream, Pending, FinSeen, Window,
         Accounted;
    var d := s.socks[dst];
    var (r, n) := LaunchRec(d, due, p);
    LaunchOk(d, due, p);
    LaunchEdge(d, due, p);
    var t := Launch(s, dst, due, p).0;
    if r.Some? {
      var e := d.(flight := d.flight + [r.value]);
      LaunchAccounted(s, dst, r.value, t);
      assert t.socks == s.socks[dst := e];
      assert t.socks[dst] == e;
    } else {
      assert Pending(d) + [] == Pending(d);
      assert t == s && s.socks[dst := s.socks[dst]] == s.socks;
    }
  }

  lemma LaunchAccounted(s: Net, dst: nat, r: Rec, t: Net)
    requires dst < |s.socks| && Accounted(s)
    requires t == SetSock(s, dst, s.socks[dst].(flight := s.socks[dst].flight + [r]))
                  .(inFlight := s.inFlight + 1, nextDue := if s.inFlight == 0 then r.due else Min(s.nextDue, r.due))
    ensures Accounted(t)
  {
    var d := s.socks[dst];
    var e := d.(flight := d.flight + [r]);
    TotalUpdate(s.socks, dst, e);
    if s.inFlight == 0 { TotalZero(s.socks); }
    assert t.socks == s.socks[dst := e];
    assert DueBound(t.socks, t.nextDue);
  }

  lemma DeliverOk(s: Net, srcHost: nat, dst: nat, p: Payload)
    requires dst < |s.socks| && SockOk(s.socks[dst]) && PayloadFor(s.socks[dst], p) && Accounted(s)
    ensures Delivered(s, Deliver(s, srcHost, dst, p).0, dst, p, Deliver(s, srcHost, dst, p).1)
  {
    hide SockOk, Delivered, PayloadFor, Accounted, Arrive, Launch;
    var d := s.socks[dst];
    var delay := if d.host == srcHost then 0 else s.latency;
    if delay == 0 && d.flight == [] {
      ArriveDelivers(s, dst, p);
      assert Deliver(s, srcHost, dst, p) == Arrive(s, dst, p);
    } else {
      LaunchDelivers(s, dst, s.now + delay, p);
      assert Deliver(s, srcHost, dst, p) == Launch(s, dst, s.now + delay, p);
    }
  }
}

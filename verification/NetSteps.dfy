/** Each operation on the virtual network keeps the invariant, loses no edge
    and moves exactly the bytes it says. */
module NetSteps {
  import opened NetTypes
  import opened NetSpec
  import opened NetInv

  /** Readiness that turns on is counted, for every socket still held by a
      descriptor other than `own`, whose own call it was. */
  predicate Edges(k: seq<Sock>, m: seq<Sock>, own: int) {
    |k| == |m| && FarEndsInTable(k) && FarEndsInTable(m)
    && forall i :: 0 <= i < |k| && i != own && k[i].refs > 0 && m[i].refs > 0 ==>
         RdEdge(k[i], m[i]) && WrEdge(k, m, i)
  }

  /** The same open connection before and after */
  predicate Kept(k: seq<Sock>, m: seq<Sock>, i: nat)
    requires i < |k| == |m|
  {
    k[i].state == Connected && m[i].state == Connected && !m[i].shutRd
  }

  /** No connection's bytes move except `dst`'s, which gains `added`. */
  predicate Flow(k: seq<Sock>, m: seq<Sock>, dst: int, added: seq<Byte>) {
    |k| == |m| && forall i :: 0 <= i < |k| && Kept(k, m, i) ==>
      !k[i].shutRd && Pending(m[i]) == Pending(k[i]) + (if i == dst then added else [])
  }

  lemma LinksStayInTable(k: seq<Sock>)
    requires Links(k)
    ensures FarEndsInTable(k)
  {
    forall i | 0 <= i < |k| && k[i].state == Connected ensures k[i].farEnd < |k| { assert Linked(k, i); }
  }

  /** When only traffic changes, a window may open only for a sender that is
      told, or that has sent its FIN. */
  lemma TrafficEdges(k: seq<Sock>, m: seq<Sock>, own: int)
    requires SameShapes(k, m) && Links(k)
    requires forall i :: 0 <= i < |k| && i != own ==> RdEdge(k[i], m[i])
    requires forall i :: 0 <= i < |k| ==> m[i].wrEvents >= k[i].wrEvents
    requires forall i :: 0 <= i < |k| && k[i].state == Connected && Window(m[i]) > Window(k[i]) ==>
               FinSeen(k[i]) || (k[i].farEnd < |k| && m[k[i].farEnd].wrEvents > k[k[i].farEnd].wrEvents)
    ensures Edges(k, m, own)
  {
    LinksStayInTable(k);
    forall i | 0 <= i < |m| && m[i].state == Connected ensures m[i].farEnd < |m| {
      assert SameShape(k[i], m[i]) && Linked(k, i);
    }
    forall i | 0 <= i < |k| && i != own ensures WrEdge(k, m, i) {
      assert SameShape(k[i], m[i]) && Linked(k, i);
      var f := k[i].farEnd;
      if k[i].state == Connected { assert SameShape(k[f], m[f]) && Linked(k, f); }
    }
  }

  lemma DeliveryShapes(s: Net, t: Net, dst: nat, p: Payload, n: nat)
    requires dst < |s.socks| && Delivered(s, t, dst, p, n)
    ensures SameShapes(s.socks, t.socks)
  {
  }

  lemma DeliveryEdges(s: Net, t: Net, dst: nat, p: Payload, n: nat)
    requires Links(s.socks) && dst < |s.socks| && Delivered(s, t, dst, p, n)
    ensures Edges(s.socks, t.socks, -1)
  {
    DeliveryShapes(s, t, dst, p, n);
    TrafficEdges(s.socks, t.socks, -1);
  }

  lemma DeliveryFlow(s: Net, t: Net, dst: nat, p: Payload, n: nat)
    requires dst < |s.socks| && Delivered(s, t, dst, p, n)
    ensures s.socks[dst].kind == Stream ==> Flow(s.socks, t.socks, dst, Taken(p, n))
    ensures s.socks[dst].kind == Stream && Taken(p, n) == [] ==> Flow(s.socks, t.socks, -1, [])
    ensures s.socks[dst].kind == Dgram && SockOk(s.socks[dst]) ==> Flow(s.socks, t.socks, -1, [])
  {
    var k, m := s.socks, t.socks;
    assert SameShape(k[dst], m[dst]);
    forall i | 0 <= i < |k| && i != dst ensures Pending(m[i]) == Pending(k[i]) + [] && m[i] == k[i] {
    }
    assert Pending(k[dst]) + [] == Pending(k[dst]);
  }

  lemma DeliverySocks(s: Net, t: Net, dst: nat, p: Payload, n: nat)
    requires dst < |s.socks| && Delivered(s, t, dst, p, n) && AllSocks(s.socks, |s.hosts|)
    ensures AllSocks(t.socks, |t.hosts|)
  {
    forall i | 0 <= i < |t.socks| ensures SockOk(t.socks[i]) && t.socks[i].host < |t.hosts| {
      assert SockOk(s.socks[i]);
    }
  }

  /** A delivery that is not a FIN keeps everything. */
  lemma DeliveryInv(s: Net, t: Net, dst: nat, p: Payload, n: nat)
    requires Inv(s) && dst < |s.socks| && Delivered(s, t, dst, p, n) && !p.PFin?
    ensures Inv(t)
  {
    DeliveryShapes(s, t, dst, p, n);
    DeliverySocks(s, t, dst, p, n);
    ShapesKeepLinks(s.socks, t.socks);
    ShapesKeepQueues(s.socks, t.socks);
    ShapesKeepRefs(s.socks, t.socks, s.fdrefs);
  }

  // ---- send ---------------------------------------------------------------

  /** A send appends what it reports to its far end's pending bytes, and
      nothing when it fails. */
  lemma SendOk(s: Net, sock: nat, data: seq<Byte>)
    requires Inv(s) && sock < |s.socks| && FarEndsInTable(s.socks)
    ensures var (t, r) := Send(s, sock, data);
            && Inv(t) && Edges(s.socks, t.socks, -1)
            && (r.Ok? ==>
                  r.value <= |data| && s.socks[sock].state == Connected
                  && Flow(s.socks, t.socks, s.socks[sock].farEnd, data[..r.value]))
            && (r.Err? ==> Flow(s.socks, t.socks, -1, []))
  {
    SendSelf(s);
    var k := s.socks[sock];
    if k.state == Connected { CanDeliver(s, sock); }
    hide Inv, Core, Edges, Flow, Delivered, PayloadFor, SockOk, Deliver, FarEndsInTable;
    if k.state == Connected && !k.shutWr {
      var dst := k.farEnd;
      var p := s.socks[dst];
      if p.state == Connected && !p.shutRd && data != [] {
        SendDelivers(s, sock, data);
      }
    }
  }

  lemma SendSelf(s: Net)
    requires Inv(s) && FarEndsInTable(s.socks)
    ensures Edges(s.socks, s.socks, -1) && Flow(s.socks, s.socks, -1, [])
  {
    hide Core, Inv;
    forall i | 0 <= i < |s.socks| ensures Pending(s.socks[i]) + [] == Pending(s.socks[i]) { }
  }

  /** What a connected sender's far end may be sent */
  lemma CanDeliver(s: Net, sock: nat)
    requires Inv(s) && sock < |s.socks| && s.socks[sock].state == Connected && FarEndsInTable(s.socks)
    ensures s.socks[sock].farEnd < |s.socks| && Accounted(s) && Links(s.socks)
    ensures var d := s.socks[s.socks[sock].farEnd];
            SockOk(d) && (!s.socks[sock].shutWr && d.state == Connected ==> forall data :: PayloadFor(d, PBytes(data)))
  {
    hide WholeDgrams, FlLen, FlStream;
    assert Linked(s.socks, sock);
    assert Linked(s.socks, s.socks[sock].farEnd) && SockOk(s.socks[s.socks[sock].farEnd]);
  }

  lemma SendDelivers(s: Net, sock: nat, data: seq<Byte>)
    requires Inv(s) && sock < |s.socks| && s.socks[sock].state == Connected && FarEndsInTable(s.socks)
    requires !s.socks[sock].shutWr && s.socks[s.socks[sock].farEnd].state == Connected
    ensures var dst := s.socks[sock].farEnd;
            var (t, n) := Deliver(s, s.socks[sock].host, dst, PBytes(data));
            && Inv(t) && Edges(s.socks, t.socks, -1) && n <= |data|
            && Flow(s.socks, t.socks, dst, data[..n])
            && (n == 0 ==> Flow(s.socks, t.socks, -1, []))
  {
    CanDeliver(s, sock);
    var k := s.socks[sock];
    var dst := k.farEnd;
    var d := s.socks[dst];
    assert PayloadFor(d, PBytes(data)) && d.kind == Stream;
    hide Inv, Core, Edges, Flow, Delivered, PayloadFor, SockOk, Deliver, FarEndsInTable, Links;
    DeliverOk(s, k.host, dst, PBytes(data));
    var (t, n) := Deliver(s, k.host, dst, PBytes(data));
    TakenAtMost(s, k.host, dst, data);
    DeliveryInv(s, t, dst, PBytes(data), n);
    DeliveryEdges(s, t, dst, PBytes(data), n);
    DeliveryFlow(s, t, dst, PBytes(data), n);
  }

  lemma TakenAtMost(s: Net, srcHost: nat, dst: nat, data: seq<Byte>)
    requires dst < |s.socks|
    ensures Deliver(s, srcHost, dst, PBytes(data)).1 <= |data|
  {
  }

  /** Writability is exactly the promise that a non-empty send will not block. */
  lemma WritableIsSendable(s: Net, sock: nat, data: seq<Byte>)
    requires Inv(s) && sock < |s.socks| && FarEndsInTable(s.socks) && data != []
    ensures Writable(s.socks, sock) <==> Send(s, sock, data).1 != Err(WouldBlock)
  {
    var k := s.socks[sock];
    if k.state == Connected && !k.shutWr {
      var p := s.socks[k.farEnd];
      assert SockOk(p);
      if p.state == Connected && !p.shutRd {
        FlightBounds(p.flight);
        assert p.flight == [] ==> FlStream(p.flight) == 0 && FlLen(p.flight) == 0;
        var delay := if p.host == k.host then 0 else s.latency;
        if !(delay == 0 && p.flight == []) {
          var room := SatSub(RING, FlLen(p.flight) + 2 * FLIGHT_HEADER);
          assert p.flight == [] ==> room > 0;
          assert p.flight != [] ==> Window(p) <= room;
        }
      }
    }
  }

  // ---- receive ------------------------------------------------------------

  /** A receive returns the oldest pending bytes, in order; without `peek` they
      are gone from the ring and nothing else moves. */
  lemma RecvOk(s: Net, sock: nat, want: nat, peek: bool)
    requires Inv(s) && sock < |s.socks| && FarEndsInTable(s.socks)
    ensures var (t, r) := Recv(s, sock, want, peek);
            && Inv(t) && Edges(s.socks, t.socks, -1)
            && (r.Ok? && !peek ==> Removed(s.socks, t.socks, sock, r.value))
            && (r.Err? || peek ==> t == s)
            && (r.Ok? ==> r.value <= Pending(s.socks[sock]) && |r.value| <= want)
            && (r == Ok([]) && want > 0 && !s.socks[sock].shutRd ==>
                  s.socks[sock].fin && Pending(s.socks[sock]) == [])
  {
    var k := s.socks[sock];
    assert Linked(s.socks, sock) && SockOk(k);
    var (t, r) := Recv(s, sock, want, peek);
    if t == s {
      SameEdges(s.socks);
      if k.state == Connected && k.rx == [] && !peek {
        assert Removed(s.socks, t.socks, sock, []) by { FlowSame(s.socks); }
      }
    } else {
      RecvRemoves(s, sock, Min(want, |k.rx|));
    }
  }

  /** Only `i`'s pending bytes change: `out` is gone from their front. */
  predicate Removed(k: seq<Sock>, m: seq<Sock>, i: nat, out: seq<Byte>) {
    i < |k| == |m| && out + Pending(m[i]) == Pending(k[i])
    && forall j :: 0 <= j < |k| && j != i && Kept(k, m, j) ==> !k[j].shutRd && Pending(m[j]) == Pending(k[j])
  }

  lemma SameEdges(k: seq<Sock>)
    requires Links(k)
    ensures Edges(k, k, -1)
  {
    LinksStayInTable(k);
  }

  lemma FlowSame(k: seq<Sock>)
    ensures Flow(k, k, -1, [])
    ensures forall i :: 0 <= i < |k| ==> Removed(k, k, i, [])
  {
    forall i | 0 <= i < |k| ensures Pending(k[i]) + [] == Pending(k[i]) == [] + Pending(k[i]) { }
  }

  lemma SkipOk(k: Sock, n: nat)
    requires SockOk(k) && k.state == Connected && n <= |k.rx|
    ensures SockOk(k.(rx := k.rx[n..])) && SameShape(k, k.(rx := k.rx[n..]))
    ensures k.rx[..n] + Pending(k.(rx := k.rx[n..])) == Pending(k)
    ensures RdEdge(k, k.(rx := k.rx[n..]))
  {
  }

  lemma BumpOk(k: Sock)
    ensures var b := k.(wrEvents := k.wrEvents + 1);
            SameShape(k, b) && (SockOk(k) ==> SockOk(b)) && RdEdge(k, b) && FinSeen(k) == FinSeen(b)
            && Pending(b) == Pending(k) && b.flight == k.flight && b.fin == k.fin && Window(b) == Window(k)
  {
  }

  function Skipped(s: Net, sock: nat, n: nat): Net
    requires sock < |s.socks| && n <= |s.socks[sock].rx| && s.socks[sock].farEnd < |s.socks|
  {
    WrBump(SetSock(s, sock, s.socks[sock].(rx := s.socks[sock].rx[n..])), s.socks[sock].farEnd)
  }

  lemma SkippedAt(s: Net, sock: nat, n: nat)
    requires sock < |s.socks| && n <= |s.socks[sock].rx| && s.socks[sock].farEnd < |s.socks|
    requires s.socks[sock].farEnd != sock
    ensures var k, m, f := s.socks, Skipped(s, sock, n).socks, s.socks[sock].farEnd;
            |m| == |k| && (forall i :: 0 <= i < |k| && i != sock && i != f ==> m[i] == k[i])
            && m[sock] == k[sock].(rx := k[sock].rx[n..]) && m[f] == k[f].(wrEvents := k[f].wrEvents + 1)
  {}

  /** A record before and after a step that neither lands nor launches */
  predicate Untouched(a: Sock, b: Sock, own: bool) {
    SameShape(a, b) && FinSeen(a) == FinSeen(b) && RdEdge(a, b) && b.flight == a.flight && b.fin == a.fin
    && (SockOk(a) ==> SockOk(b)) && (!own ==> Pending(b) == Pending(a) && Window(b) == Window(a))
  }

  lemma SkipUntouched(k: Sock, n: nat)
    requires SockOk(k) && k.state == Connected && n <= |k.rx|
    ensures Untouched(k, k.(rx := k.rx[n..]), true)
  {
    SkipOk(k, n);
    hide SockOk, Pending, Window;
  }

  lemma BumpUntouched(k: Sock)
    ensures Untouched(k, k, false) && Untouched(k, k.(wrEvents := k.wrEvents + 1), false)
  {
    BumpOk(k);
    hide SockOk, Pending, Window, FinSeen, Readable;
  }

  /** How the two records a receive touches look afterwards */
  lemma SkippedSocks(s: Net, sock: nat, n: nat)
    requires sock < |s.socks| && n <= |s.socks[sock].rx| && s.socks[sock].farEnd < |s.socks|
    requires s.socks[sock].farEnd != sock && SockOk(s.socks[sock]) && s.socks[sock].state == Connected
    ensures var k, m, f := s.socks, Skipped(s, sock, n).socks, s.socks[sock].farEnd;
            |m| == |k| && (forall i :: 0 <= i < |k| && i != sock && i != f ==> m[i] == k[i])
            && m[sock] == k[sock].(rx := k[sock].rx[n..]) && m[f] == k[f].(wrEvents := k[f].wrEvents + 1)
    ensures var k, m := s.socks, Skipped(s, sock, n).socks;
            forall i :: 0 <= i < |k| ==>
              SameShape(k[i], m[i]) && FinSeen(k[i]) == FinSeen(m[i]) && RdEdge(k[i], m[i])
              && m[i].flight == k[i].flight && m[i].fin == k[i].fin && (SockOk(k[i]) ==> SockOk(m[i]))
              && (i != sock ==> Pending(m[i]) == Pending(k[i]) && Window(m[i]) == Window(k[i]))
  {
    var k, m, f := s.socks, Skipped(s, sock, n).socks, s.socks[sock].farEnd;
    SkippedAt(s, sock, n);
    SkipUntouched(k[sock], n);
    forall i | 0 <= i < |k| ensures Untouched(k[i], m[i], i == sock) {
      BumpUntouched(k[i]);
    }
    hide SockOk, FinSeen, Pending, Window, RdEdge, SameShape, Skipped;
  }

  lemma RecvRemoves(s: Net, sock: nat, n: nat)
    requires Inv(s) && sock < |s.socks| && s.socks[sock].state == Connected
    requires s.socks[sock].farEnd < |s.socks| && n <= |s.socks[sock].rx|
    ensures var t := Skipped(s, sock, n);
            Inv(t) && Edges(s.socks, t.socks, -1) && Removed(s.socks, t.socks, sock, s.socks[sock].rx[..n])
  {
    var k, t := s.socks, Skipped(s, sock, n);
    assert Linked(k, sock) && SockOk(k[sock]);
    SkippedSocks(s, sock, n);
    SkipOk(k[sock], n);
    assert SameShapes(k, t.socks);
    TrafficInv(s, t);
    SkippedEdges(s, sock, n);
  }

  lemma SkippedEdges(s: Net, sock: nat, n: nat)
    requires Inv(s) && sock < |s.socks| && s.socks[sock].state == Connected
    requires s.socks[sock].farEnd < |s.socks| && n <= |s.socks[sock].rx|
    ensures Edges(s.socks, Skipped(s, sock, n).socks, -1)
  {
    var k, m := s.socks, Skipped(s, sock, n).socks;
    assert Linked(k, sock) && SockOk(k[sock]);
    SkippedSocks(s, sock, n);
    TrafficEdges(k, m, -1);
  }

  /** A step that changes receive rings and counters only, socket by socket */
  lemma TrafficInv(s: Net, t: Net)
    requires Inv(s) && t == s.(socks := t.socks) && SameShapes(s.socks, t.socks)
    requires forall i :: 0 <= i < |s.socks| ==>
               t.socks[i].flight == s.socks[i].flight && t.socks[i].fin == s.socks[i].fin
               && (SockOk(s.socks[i]) ==> SockOk(t.socks[i]))
    ensures Inv(t)
  {
    ShapesKeepLinks(s.socks, t.socks);
    ShapesKeepQueues(s.socks, t.socks);
    ShapesKeepRefs(s.socks, t.socks, s.fdrefs);
    TotalSame(s.socks, t.socks);
    forall i | 0 <= i < |t.socks| ensures SockOk(t.socks[i]) && t.socks[i].host < |t.hosts| {
      assert SameShape(s.socks[i], t.socks[i]) && SockOk(s.socks[i]);
    }
  }

  lemma {:induction false} TotalSame(k: seq<Sock>, m: seq<Sock>)
    requires |k| == |m| && forall i :: 0 <= i < |k| ==> m[i].flight == k[i].flight
    ensures Total(k) == Total(m)
  {
    if k != [] {
      forall i | 0 <= i < |k[1..]| ensures m[1..][i].flight == k[1..][i].flight {
        assert m[1..][i] == m[i + 1] && k[1..][i] == k[i + 1];
      }
      TotalSame(k[1..], m[1..]);
    }
  }
}

/** Shutting down, closing and counting descriptors keep the invariant. */
module NetClose {
  import opened NetTypes
  import opened NetSpec
  import opened NetInv
  import opened NetSteps

  predicate NotQueued(k: seq<Sock>, q: nat) {
    forall l: nat :: l < |k| ==> !Queued(k, l, q)
  }

  lemma ReferencedNotQueued(s: Net, q: nat)
    requires Inv(s) && q < |s.socks| && (s.socks[q].refs > 0 || s.socks[q].state != Connected)
    ensures NotQueued(s.socks, q)
  {
  }

  lemma InvReleasable(k: seq<Sock>)
    requires Links(k) && Queues(k)
    ensures Releasable(k)
  {
    LinksStayInTable(k);
    forall i, x | 0 <= i < |k| && k[i].state == Listening && 0 <= x < |k[i].backlog|
      ensures k[i].backlog[x] < |k| && k[k[i].backlog[x]].farEnd < |k|
    {
      var q := k[i].backlog[x];
      assert Queued(k, i, q);
      assert Linked(k, q);
    }
  }

  // ---- the two ends of one connection --------------------------------------

  /** `a` is a connected end whose far end is `b`; nothing else differs. */
  predicate Pair(k: seq<Sock>, m: seq<Sock>, a: nat, b: nat) {
    && |k| == |m| && a < |k| && b < |k| && a != b
    && k[a].state == Connected && k[a].farEnd == b
    && forall i {:trigger m[i]} {:trigger k[i]} :: 0 <= i < |k| && i != a && i != b ==> m[i] == k[i]
  }

  lemma Strangers(k: seq<Sock>, a: nat, b: nat)
    requires Links(k) && a < |k| && b < |k| && k[a].state == Connected && k[a].farEnd == b
    ensures forall i :: 0 <= i < |k| && i != a && i != b && (k[i].state == Connected || k[i].state == Closed) ==>
              k[i].farEnd < |k| && k[i].farEnd != a && k[i].farEnd != b
  {
    forall i | 0 <= i < |k| && i != a && i != b && (k[i].state == Connected || k[i].state == Closed)
      ensures k[i].farEnd < |k| && k[i].farEnd != a && k[i].farEnd != b
    {
      assert Linked(k, i) && Linked(k, a);
    }
  }

  /** The sending end stops for good and its FIN is on the way. */
  lemma FinLinks(k: seq<Sock>, m: seq<Sock>, a: nat, b: nat)
    requires Links(k) && Pair(k, m, a, b)
    requires k[b].state == Connected || m[a].state == Connected
    requires SameShape(k[b], m[b]) && FinSeen(m[b])
    requires m[a].farEnd == b && FinSeen(m[a]) == FinSeen(k[a])
    requires (m[a].state == Connected && m[a].shutWr) || m[a].state == Closed
    ensures Links(m)
  {
    Strangers(k, a, b);
    forall i | 0 <= i < |m| ensures Linked(m, i) {
      assert Linked(k, i) && Linked(k, a) && Linked(k, b);
    }
  }

  lemma FinQueues(k: seq<Sock>, m: seq<Sock>, a: nat, b: nat)
    requires Queues(k) && Pair(k, m, a, b) && NotQueued(k, a)
    requires SameShape(k[b], m[b]) && k[b].state != Listening && m[a].state != Listening
    ensures Queues(m)
  {
    forall l: nat, q: nat | Queued(m, l, q) ensures Queued(k, l, q) && q != a {
      assert !Queued(k, l, a);
    }
    forall l: nat | l < |k| && m[l].state == Listening ensures m[l] == k[l] { }
  }

  lemma PairEdges(k: seq<Sock>, m: seq<Sock>, a: nat, b: nat, own: int)
    requires Links(k) && FarEndsInTable(m) && Pair(k, m, a, b)
    requires own == a || m[a].refs == 0
    requires m[b].refs > 0 && k[b].refs > 0 ==>
               RdEdge(k[b], m[b])
               && (m[b].wrEvents > k[b].wrEvents
                   || (SameShape(k[b], m[b]) && m[b].wrEvents == k[b].wrEvents && m[a].state == k[a].state
                       && m[a].shutRd == k[a].shutRd && Window(m[a]) == Window(k[a]) && k[b].farEnd == a))
    ensures Edges(k, m, own)
  {
    LinksStayInTable(k);
    Strangers(k, a, b);
    forall i | 0 <= i < |k| && i != own && k[i].refs > 0 && m[i].refs > 0
      ensures RdEdge(k[i], m[i]) && WrEdge(k, m, i)
    {
      assert Linked(k, i);
      if i != b {
        assert m[i] == k[i];
        if k[i].state == Connected { assert m[k[i].farEnd] == k[k[i].farEnd]; }
      }
    }
  }

  lemma PairFlow(k: seq<Sock>, m: seq<Sock>, a: nat, b: nat)
    requires Pair(k, m, a, b)
    requires m[a].state == Connected ==> m[a].shutRd || (Pending(m[a]) == Pending(k[a]) && !k[a].shutRd)
    requires m[b].state == Connected ==> Pending(m[b]) == Pending(k[b]) && m[b].shutRd == k[b].shutRd
    ensures Flow(k, m, -1, [])
  {
    forall i | 0 <= i < |k| && Kept(k, m, i) ensures !k[i].shutRd && Pending(m[i]) == Pending(k[i]) + [] { }
  }

  lemma PairTotal(k: seq<Sock>, m: seq<Sock>, a: nat, b: nat)
    requires Pair(k, m, a, b) && m[a].flight == k[a].flight
    ensures Total(m) == Total(k) - |k[b].flight| + |m[b].flight|
  {
    TotalUpdate(k, b, m[b]);
    TotalSame(k[b := m[b]], m);
  }

  /** The invariant of the rest of the state, once the table's parts hold */
  lemma PairInv(s: Net, t: Net, a: nat, b: nat)
    requires Inv(s) && Pair(s.socks, t.socks, a, b) && Links(t.socks) && Queues(t.socks)
    requires t.fdrefs == s.fdrefs && t.hosts == s.hosts
    requires SockOk(t.socks[a]) && SockOk(t.socks[b])
    requires t.socks[a].host == s.socks[a].host && t.socks[b].host == s.socks[b].host
    requires t.socks[a].refs == s.socks[a].refs && t.socks[b].refs == s.socks[b].refs
    requires Accounted(t)
    ensures Inv(t)
  {
    var k, m := s.socks, t.socks;
    forall i | 0 <= i < |m| ensures SockOk(m[i]) && m[i].host < |t.hosts| && m[i].refs == k[i].refs {
      assert SockOk(k[i]);
    }
  }

  // ---- shutdown -----------------------------------------------------------

  function ShutRd(s: Net, sock: nat): Net
    requires sock < |s.socks| && s.socks[sock].farEnd < |s.socks|
  {
    WrBump(SetSock(s, sock, s.socks[sock].(shutRd := true, rx := [])), s.socks[sock].farEnd)
  }

  lemma ShutRdLinks(s: Net, sock: nat)
    requires Inv(s) && sock < |s.socks| && s.socks[sock].state == Connected && s.socks[sock].farEnd < |s.socks|
    requires NotQueued(s.socks, sock)
    ensures Links(ShutRd(s, sock).socks) && Queues(ShutRd(s, sock).socks)
  {
    var k, m := s.socks, ShutRd(s, sock).socks;
    assert Linked(k, sock);
    forall i | 0 <= i < |m| ensures Linked(m, i) { assert Linked(k, i); }
    forall l: nat, q: nat | Queued(m, l, q) ensures Queued(k, l, q) && q != sock {
      assert !Queued(k, l, sock);
    }
    forall l: nat | l < |k| && m[l].state == Listening ensures m[l] == k[l] { }
  }

  lemma ShutRdSelf(k: Sock)
    requires SockOk(k) && k.state == Connected
    ensures SockOk(k.(shutRd := true, rx := []))
  {
  }

  lemma ShutRdSocks(s: Net, sock: nat)
    requires Inv(s) && sock < |s.socks| && s.socks[sock].state == Connected && s.socks[sock].farEnd < |s.socks|
    ensures var k, t, f := s.socks, ShutRd(s, sock), s.socks[sock].farEnd;
            && Pair(k, t.socks, sock, f) && t == s.(socks := t.socks)
            && t.socks[sock] == k[sock].(shutRd := true, rx := [])
            && t.socks[f] == k[f].(wrEvents := k[f].wrEvents + 1)
            && SockOk(t.socks[sock]) && SockOk(t.socks[f]) && RdEdge(k[f], t.socks[f])
            && Pending(t.socks[f]) == Pending(k[f]) && k[f].farEnd == sock
  {
    hide Queues;
    var k, f := s.socks, s.socks[sock].farEnd;
    assert Linked(k, sock) && SockOk(k[sock]) && SockOk(k[f]);
    ShutRdSelf(k[sock]);
    BumpOk(k[f]);
  }

  lemma ShutRdOk(s: Net, sock: nat)
    requires Inv(s) && sock < |s.socks| && s.socks[sock].state == Connected && s.socks[sock].farEnd < |s.socks|
    requires NotQueued(s.socks, sock)
    ensures Inv(ShutRd(s, sock)) && Edges(s.socks, ShutRd(s, sock).socks, sock)
    ensures Flow(s.socks, ShutRd(s, sock).socks, -1, [])
  {
    hide SockOk, Queues, ShutRd, Pending, RdEdge;
    var k, t, f := s.socks, ShutRd(s, sock), s.socks[sock].farEnd;
    ShutRdSocks(s, sock);
    ShutRdLinks(s, sock);
    LinksStayInTable(t.socks);
    PairEdges(k, t.socks, sock, f, sock);
    PairFlow(k, t.socks, sock, f);
    PairTotal(k, t.socks, sock, f);
    PairInv(s, t, sock, f);
  }

  /** The state as the FIN sets out: `a` has stopped sending, one way or the
      other, and `b` has been delivered the FIN. */
  lemma FinOk(s: Net, t: Net, a: nat, b: nat, own: int)
    requires Inv(s) && Pair(s.socks, t.socks, a, b) && NotQueued(s.socks, a)
    requires s.socks[b].state == Connected || t.socks[a].state == Connected
    requires t == s.(socks := t.socks, inFlight := t.inFlight, nextDue := t.nextDue, bytes := t.bytes)
    requires SockOk(t.socks[a]) && SockOk(t.socks[b]) && Accounted(t)
    requires SameShape(s.socks[b], t.socks[b]) && FinSeen(t.socks[b]) && RdEdge(s.socks[b], t.socks[b])
    requires Pending(t.socks[b]) == Pending(s.socks[b])
    requires t.socks[a] == s.socks[a].(state := t.socks[a].state, shutWr := t.socks[a].shutWr)
    requires (t.socks[a].state == Connected && t.socks[a].shutWr && own == a
      && t.socks[b].wrEvents == s.socks[b].wrEvents)
             || (t.socks[a].state == Closed && t.socks[a].refs == 0 && t.socks[b].wrEvents > s.socks[b].wrEvents)
    ensures Inv(t) && Edges(s.socks, t.socks, own) && Flow(s.socks, t.socks, -1, [])
  {
    hide WholeDgrams, SockOk;
    var k, m := s.socks, t.socks;
    assert Linked(k, a) && Linked(k, b);
    FinLinks(k, m, a, b);
    FinQueues(k, m, a, b);
    LinksStayInTable(m);
    PairEdges(k, m, a, b, own);
    PairFlow(k, m, a, b);
    PairInv(s, t, a, b);
  }

  function ShutWr(s: Net, sock: nat): Net
    requires sock < |s.socks| && s.socks[sock].farEnd < |s.socks|
  {
    var k := s.socks[sock];
    Deliver(SetSock(s, sock, k.(shutWr := true)), k.host, k.farEnd, PFin).0
  }

  lemma ShutWrSelf(k: Sock)
    requires SockOk(k) && k.state == Connected
    ensures SockOk(k.(shutWr := true))
  {
  }

  /** A FIN is delivered to a connected end that has not had one. */
  lemma FinDelivery(s: Net, host: nat, b: nat)
    requires b < |s.socks| && SockOk(s.socks[b]) && !FinSeen(s.socks[b]) && Accounted(s)
    requires s.socks[b].state == Connected || s.socks[b].state == Closed
    ensures var t := Deliver(s, host, b, PFin).0;
            && |t.socks| == |s.socks|
            && t == s.(socks := s.socks[b := t.socks[b]], inFlight := t.inFlight, nextDue := t.nextDue,
                 bytes := t.bytes)
            && SockOk(t.socks[b]) && SameShape(s.socks[b], t.socks[b]) && FinSeen(t.socks[b])
            && RdEdge(s.socks[b], t.socks[b]) && t.socks[b].wrEvents == s.socks[b].wrEvents
            && Pending(t.socks[b]) == Pending(s.socks[b]) && Accounted(t)
  {
    DeliverOk(s, host, b, PFin);
    assert Pending(s.socks[b]) + [] == Pending(s.socks[b]);
  }

  lemma ShutWrOk(s: Net, sock: nat)
    requires Inv(s) && sock < |s.socks| && s.socks[sock].state == Connected && s.socks[sock].farEnd < |s.socks|
    requires NotQueued(s.socks, sock) && !s.socks[sock].shutWr
    ensures Inv(ShutWr(s, sock)) && Edges(s.socks, ShutWr(s, sock).socks, sock)
    ensures Flow(s.socks, ShutWr(s, sock).socks, -1, [])
    ensures forall i :: 0 <= i < |s.socks| ==> ShutWr(s, sock).socks[i].shutRd == s.socks[i].shutRd
  {
    hide WholeDgrams, SockOk, Deliver, Edges, Flow, Queues;
    var k, f, t := s.socks, s.socks[sock].farEnd, ShutWr(s, sock);
    assert Linked(k, sock) && SockOk(k[sock]) && SockOk(k[f]);
    var d := k[sock].(shutWr := true);
    ShutWrSelf(k[sock]);
    TotalUpdate(k, sock, d);
    var s1 := SetSock(s, sock, d);
    FinDelivery(s1, k[sock].host, f);
    assert t.socks == s1.socks[f := t.socks[f]];
    FinOk(s, t, sock, f, sock);
  }

  lemma FlowCompose(k: seq<Sock>, m: seq<Sock>, n: seq<Sock>)
    requires Flow(k, m, -1, []) && Flow(m, n, -1, [])
    requires forall i :: 0 <= i < |k| && Kept(k, n, i) ==> Kept(k, m, i)
    ensures Flow(k, n, -1, [])
  {
    forall i | 0 <= i < |k| && Kept(k, n, i) ensures !k[i].shutRd && Pending(n[i]) == Pending(k[i]) + [] {
      assert Kept(k, m, i) && Kept(m, n, i);
    }
  }

  /** A caller's shutdown: only its own readiness may change without a count. */
  lemma ShutdownOk(s: Net, sock: nat, read: bool, write: bool)
    requires Inv(s) && sock < |s.socks| && FarEndsInTable(s.socks) && NotQueued(s.socks, sock)
    ensures var t := Shutdown(s, sock, read, write).0;
            Inv(t) && Edges(s.socks, t.socks, sock) && Flow(s.socks, t.socks, -1, [])
  {
    hide SockOk, WholeDgrams, Deliver, Queues;
    var k := s.socks[sock];
    SameEdges(s.socks);
    FlowSame(s.socks);
    if k.state == Connected {
      assert Linked(s.socks, sock);
      var s1 := if read then ShutRd(s, sock) else s;
      if read { ShutRdOk(s, sock); }
      if write && !k.shutWr {
        assert NotQueued(s1.socks, sock) by {
          forall l: nat | l < |s1.socks| ensures !Queued(s1.socks, l, sock) { assert !Queued(s.socks, l, sock); }
        }
        ShutWrOk(s1, sock);
        ShutCompose(s, s1, ShutWr(s1, sock), sock);
      }
    }
  }

  lemma ShutCompose(s: Net, s1: Net, t: Net, sock: nat)
    requires sock < |s.socks| && Edges(s.socks, s1.socks, sock) && Edges(s1.socks, t.socks, sock)
    requires Flow(s.socks, s1.socks, -1, []) && Flow(s1.socks, t.socks, -1, [])
    requires |s1.socks| == |t.socks| == |s.socks|
    requires forall i :: 0 <= i < |s.socks| ==>
      s1.socks[i].refs == s.socks[i].refs && s1.socks[i].state == s.socks[i].state
    requires forall i :: 0 <= i < |s.socks| ==> t.socks[i].shutRd == s1.socks[i].shutRd
    ensures Edges(s.socks, t.socks, sock) && Flow(s.socks, t.socks, -1, [])
  {
    var k, m, n := s.socks, s1.socks, t.socks;
    forall i | 0 <= i < |k| && i != sock && k[i].refs > 0 && n[i].refs > 0
      ensures RdEdge(k[i], n[i]) && WrEdge(k, n, i)
    {
      assert RdEdge(k[i], m[i]) && WrEdge(k, m, i) && RdEdge(m[i], n[i]) && WrEdge(m, n, i);
    }
    FlowCompose(k, m, n);
  }
}

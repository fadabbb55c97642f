/** Records in flight land when the clock reaches them: never early, never out
    of order, and none that is due stays behind. */
module NetTime {
  import opened NetTypes
  import opened Wire
  import opened NetSpec
  import opened NetInv
  import opened NetSteps

  /** Records at the head of a flight ring that are due at `now` */
  function DueCount(f: seq<Rec>, now: nat): (n: nat)
    ensures n <= |f|
    ensures forall i :: 0 <= i < n ==> f[i].due <= now
    ensures n < |f| ==> f[n].due > now
  {
    if f == [] || f[0].due > now then 0 else 1 + DueCount(f[1..], now)
  }

  lemma LandOk(d: Sock)
    requires SockOk(d) && d.flight != []
    ensures var e := LandOn(d).0;
            && SockOk(e) && SameShape(d, e) && FinSeen(e) == FinSeen(d) && RdEdge(d, e)
            && e.flight == d.flight[1..] && e.wrEvents == d.wrEvents
            && (d.kind == Stream ==> Pending(e) == Pending(d))
            && (d.kind == Stream && Window(e) > Window(d) ==> d.flight[0].kind == KBytes || FinSeen(d))
  {
    assert RecOk(d.kind, d.flight[0]);
    match d.flight[0].kind
    case KFin => LandFin(d);
    case KBytes => LandBytes(d);
    case KDgram => LandAny(d);
  }

  lemma LandAny(d: Sock)
    requires SockOk(d) && d.flight != [] && d.flight[0].kind == KDgram && d.kind == Dgram
    ensures var e := LandOn(d).0;
            && SockOk(e) && SameShape(d, e) && FinSeen(e) == FinSeen(d) && RdEdge(d, e)
            && e.flight == d.flight[1..] && e.wrEvents == d.wrEvents
  {
    LandDgram(d);
    DgramFlight(d);
    DgramFlight(LandOn(d).0);
    hide SockOk, WholeDgrams, DgramHead, DgramSize, EncDgram, AddrFits;
  }

  lemma LandFin(d: Sock)
    requires SockOk(d) && d.flight != [] && d.flight[0].kind == KFin
    ensures var e := LandOn(d).0;
            && SockOk(e) && SameShape(d, e) && FinSeen(e) == FinSeen(d) && RdEdge(d, e)
            && Pending(e) == Pending(d) && (Window(e) > Window(d) ==> FinSeen(d))
  {
    hide WholeDgrams, DgramHead, DgramSize, EncDgram, AddrFits;
    assert RecOk(d.kind, d.flight[0]);
    assert d.flight[1..] == [];
  }

  lemma LandBytes(d: Sock)
    requires SockOk(d) && d.flight != [] && d.flight[0].kind == KBytes
    ensures var e := LandOn(d).0;
            SockOk(e) && SameShape(d, e) && FinSeen(e) == FinSeen(d) && RdEdge(d, e) && Pending(e) == Pending(d)
  {
    hide WholeDgrams, DgramHead, DgramSize, EncDgram, AddrFits, Window;
    var r := d.flight[0];
    assert RecOk(d.kind, r);
    assert d.flight == [r] + d.flight[1..];
    assert d.rx + FlBytes(d.flight) == (d.rx + r.body) + FlBytes(d.flight[1..]);
  }

  lemma DgramFlight(d: Sock)
    requires RecsOk(d.kind, d.flight) && d.kind == Dgram
    ensures FlStream(d.flight) == 0 && !HasFin(d.flight)
  {
    forall i | 0 <= i < |d.flight| ensures d.flight[i].kind == KDgram { assert RecOk(d.kind, d.flight[i]); }
    NoBytes(d.flight);
  }

  lemma LandDgram(d: Sock)
    requires SockOk(d) && d.flight != [] && d.flight[0].kind == KDgram
    ensures SockOk(LandOn(d).0)
  {
    var e := LandOn(d).0;
    assert RecOk(d.kind, d.flight[0]);
    DgramFlight(d);
    forall i | 0 <= i < |e.flight| ensures RecOk(e.kind, e.flight[i]) { assert e.flight[i] == d.flight[i + 1]; }
    DgramFlight(e);
    assert FlLen(e.flight) <= FlLen(d.flight);
    if e.rx != d.rx { DgramsAppend(d.rx, d.flight[0].body); }
  }

  predicate Bumped(a: Sock, b: Sock) { b == a || b == a.(wrEvents := a.wrEvents + 1) }

  /** The records after one landing on `i` */
  lemma LandSocks(s: Net, i: nat)
    requires Core(s) && i < |s.socks| && s.socks[i].flight != [] && FarEndsInTable(s.socks)
    ensures var k, m := s.socks, LandHead(s, i).socks;
            |m| == |k| && (forall j :: 0 <= j < |k| && j != i ==> Bumped(k[j], m[j]))
            && m[i] == LandOn(k[i]).0
            && (k[i].flight[0].kind == KBytes && k[i].state == Connected ==>
                  m[k[i].farEnd].wrEvents > k[k[i].farEnd].wrEvents)
  {
    assert Linked(s.socks, i);
    var d := LandOn(s.socks[i]).0;
    assert d.state == s.socks[i].state && d.farEnd == s.socks[i].farEnd;
  }

  lemma CoreSocks(s: Net)
    requires Core(s)
    ensures forall j :: 0 <= j < |s.socks| ==> SockOk(s.socks[j])
  {
    hide SockOk, Links, Queues, RefsAgree;
  }

  /** A record before and after a landing, its own or another's */
  predicate LandKeeps(a: Sock, b: Sock, own: bool) {
    SameShape(a, b) && SockOk(b) && FinSeen(b) == FinSeen(a) && RdEdge(a, b) && b.wrEvents >= a.wrEvents
    && (a.kind == Stream ==> Pending(b) == Pending(a))
    && (!own ==> b.flight == a.flight && Window(b) == Window(a))
  }

  lemma KeepsMeans(a: Sock, b: Sock, own: bool)
    requires LandKeeps(a, b, own)
    ensures SameShape(a, b) && SockOk(b) && FinSeen(b) == FinSeen(a) && RdEdge(a, b) && b.wrEvents >= a.wrEvents
    ensures a.kind == Stream ==> Pending(b) == Pending(a)
    ensures !own ==> b.flight == a.flight && Window(b) == Window(a)
  {
    hide SockOk, FinSeen, Pending, Window, RdEdge;
  }

  lemma LandKept(d: Sock)
    requires SockOk(d) && d.flight != []
    ensures LandKeeps(d, LandOn(d).0, true)
  {
    LandOk(d);
    hide SockOk, FinSeen, Pending, Window, RdEdge, LandOn;
  }

  lemma BumpKept(k: Sock, m: Sock)
    requires SockOk(k) && Bumped(k, m)
    ensures LandKeeps(k, m, false)
  {
    BumpOk(k);
    hide SockOk, FinSeen, Pending, Window, Readable;
  }

  /** One record of the table across the landing */
  lemma LandAt(s: Net, i: nat, j: nat)
    requires Core(s) && i < |s.socks| && s.socks[i].flight != [] && FarEndsInTable(s.socks) && j < |s.socks|
    ensures LandKeeps(s.socks[j], LandHead(s, i).socks[j], j == i)
  {
    CoreSocks(s);
    LandSocks(s, i);
    hide *;
    if j == i { LandKept(s.socks[i]); } else { BumpKept(s.socks[j], LandHead(s, i).socks[j]); }
  }

  lemma LandShapes(s: Net, i: nat)
    requires Core(s) && i < |s.socks| && s.socks[i].flight != [] && FarEndsInTable(s.socks)
    ensures var k, m := s.socks, LandHead(s, i).socks;
            SameShapes(k, m)
            && forall j :: 0 <= j < |k| ==>
                 SockOk(m[j]) && FinSeen(m[j]) == FinSeen(k[j]) && RdEdge(k[j], m[j]) && m[j].wrEvents >= k[j].wrEvents
                 && (k[j].kind == Stream ==> Pending(m[j]) == Pending(k[j]))
                 && (j != i ==> m[j].flight == k[j].flight && Window(m[j]) == Window(k[j]))
  {
    var k, m := s.socks, LandHead(s, i).socks;
    hide Core, LandHead, LandOn, SockOk, FinSeen, Pending, Window, RdEdge, SameShape, LandKeeps;
    forall j | 0 <= j < |k|
      ensures SameShape(k[j], m[j]) && SockOk(m[j]) && FinSeen(m[j]) == FinSeen(k[j]) && RdEdge(k[j], m[j])
              && m[j].wrEvents >= k[j].wrEvents && (k[j].kind == Stream ==> Pending(m[j]) == Pending(k[j]))
              && (j != i ==> m[j].flight == k[j].flight && Window(m[j]) == Window(k[j]))
    {
      LandAt(s, i, j);
      KeepsMeans(k[j], m[j], j == i);
    }
    assert SameShapes(k, m);
  }

  lemma LandEdges(s: Net, i: nat)
    requires Core(s) && i < |s.socks| && s.socks[i].flight != [] && FarEndsInTable(s.socks)
    ensures Edges(s.socks, LandHead(s, i).socks, -1)
  {
    LandSocks(s, i);
    LandShapes(s, i);
    assert Linked(s.socks, i) && SockOk(s.socks[i]);
    LandOk(s.socks[i]);
    TrafficEdges(s.socks, LandHead(s, i).socks, -1);
  }

  lemma {:induction false} TotalOne(k: seq<Sock>, m: seq<Sock>, i: nat)
    requires i < |k| == |m| && forall j :: 0 <= j < |k| && j != i ==> m[j].flight == k[j].flight
    ensures Total(m) == Total(k) - |k[i].flight| + |m[i].flight|
  {
    TotalUpdate(k, i, m[i]);
    TotalSame(k[i := m[i]], m);
  }

  /** One landing keeps everything but the bound on due times. */
  lemma LandCore(s: Net, i: nat)
    requires Core(s) && i < |s.socks| && s.socks[i].flight != [] && FarEndsInTable(s.socks)
    ensures Core(LandHead(s, i)) && SameShapes(s.socks, LandHead(s, i).socks)
    ensures LandHead(s, i).socks[i].flight == s.socks[i].flight[1..]
  {
    var t := LandHead(s, i);
    LandShapes(s, i);
    LandSocks(s, i);
    ShapesKeepLinks(s.socks, t.socks);
    ShapesKeepQueues(s.socks, t.socks);
    ShapesKeepRefs(s.socks, t.socks, s.fdrefs);
    TotalOne(s.socks, t.socks, i);
    TotalUpdate(s.socks, i, s.socks[i]);
    assert SockOk(s.socks[i]);
    LandOk(s.socks[i]);
    forall j | 0 <= j < |t.socks| ensures SockOk(t.socks[j]) && t.socks[j].host < |t.hosts| {
      assert SameShape(s.socks[j], t.socks[j]) && SockOk(s.socks[j]);
    }
  }

  // ---- many landings ------------------------------------------------------

  /** Names, descriptors and the clock are untouched. */
  predicate SameRest(s: Net, t: Net) {
    t == s.(socks := t.socks, inFlight := t.inFlight, bytes := t.bytes, dropped := t.dropped)
  }

  /** Nothing but traffic changes; streams keep their pending bytes. */
  predicate Calm(k: seq<Sock>, m: seq<Sock>) {
    SameShapes(k, m) && Edges(k, m, -1)
    && forall i {:trigger Pending(m[i])} :: 0 <= i < |k| && k[i].kind == Stream ==> Pending(m[i]) == Pending(k[i])
  }

  lemma EdgesCompose(k: seq<Sock>, m: seq<Sock>, n: seq<Sock>, own: int)
    requires Edges(k, m, own) && Edges(m, n, own)
    requires forall i :: 0 <= i < |k| && k[i].refs > 0 && n[i].refs > 0 ==> m[i].refs > 0
    ensures Edges(k, n, own)
  {
    forall i | 0 <= i < |k| && i != own && k[i].refs > 0 && n[i].refs > 0
      ensures RdEdge(k[i], n[i]) && WrEdge(k, n, i)
    {
      assert RdEdge(k[i], m[i]) && WrEdge(k, m, i) && RdEdge(m[i], n[i]) && WrEdge(m, n, i);
    }
  }

  lemma CalmCompose(k: seq<Sock>, m: seq<Sock>, n: seq<Sock>)
    requires Calm(k, m) && Calm(m, n)
    ensures Calm(k, n)
  {
    forall i | 0 <= i < |k| ensures SameShape(k[i], n[i]) && k[i].refs == m[i].refs {
      assert SameShape(k[i], m[i]) && SameShape(m[i], n[i]);
    }
    EdgesCompose(k, m, n, -1);
    forall i | 0 <= i < |k| && k[i].kind == Stream ensures Pending(n[i]) == Pending(k[i]) {
      assert SameShape(k[i], m[i]);
      assert Pending(m[i]) == Pending(k[i]);
    }
  }

  lemma LandCalm(s: Net, i: nat)
    requires Core(s) && i < |s.socks| && s.socks[i].flight != [] && FarEndsInTable(s.socks)
    ensures Calm(s.socks, LandHead(s, i).socks)
  {
    LandShapes(s, i);
    LandEdges(s, i);
  }

  lemma CalmRefl(s: Net)
    requires Core(s)
    ensures Calm(s.socks, s.socks)
  {
    LinksStayInTable(s.socks);
    forall i | 0 <= i < |s.socks| ensures SameShape(s.socks[i], s.socks[i]) { }
  }

  /** Exactly the due records at the head of `i`'s ring land. */
  lemma {:induction false} AdvanceSockOk(s: Net, i: nat, now: nat)
    requires Core(s) && i < |s.socks| && FarEndsInTable(s.socks)
    ensures var t := AdvanceSock(s, i, now);
            && Core(t) && Calm(s.socks, t.socks) && SameRest(s, t)
            && t.socks[i].flight == s.socks[i].flight[DueCount(s.socks[i].flight, now)..]
            && forall j :: 0 <= j < |s.socks| && j != i ==> t.socks[j].flight == s.socks[j].flight
    decreases |s.socks[i].flight|
  {
    CalmRefl(s);
    var f := s.socks[i].flight;
    if f != [] && f[0].due <= now {
      var u := LandHead(s, i);
      LandCore(s, i);
      LandCalm(s, i);
      LandShapes(s, i);
      AdvanceSockOk(u, i, now);
      CalmCompose(s.socks, u.socks, AdvanceSock(u, i, now).socks);
      var n := DueCount(f[1..], now);
      assert f[1..][n..] == f[1 + n..];
    }
  }

  lemma {:induction false} AdvanceFromOk(s: Net, i: nat, now: nat)
    requires Core(s) && i <= |s.socks| && FarEndsInTable(s.socks)
    ensures var t := AdvanceFrom(s, i, now);
            && Core(t) && Calm(s.socks, t.socks) && SameRest(s, t)
            && forall j :: 0 <= j < |s.socks| ==>
                 t.socks[j].flight == if j < i then s.socks[j].flight
                                      else s.socks[j].flight[DueCount(s.socks[j].flight, now)..]
    decreases |s.socks| - i
  {
    CalmRefl(s);
    if i < |s.socks| {
      var u := AdvanceSock(s, i, now);
      AdvanceSockOk(s, i, now);
      AdvanceFromOk(u, i + 1, now);
      CalmCompose(s.socks, u.socks, AdvanceFrom(u, i + 1, now).socks);
    }
  }

  // ---- what lands ------------------------------------------------------------

  /** A receive ring once these records have landed one by one: bytes are
      appended, and a datagram if all of it fits. */
  function RxAfter(rx: seq<Byte>, f: seq<Rec>): seq<Byte>
    decreases |f|
  {
    if f == [] then rx
    else RxAfter(if f[0].kind == KFin || Lost(rx, f[0]) then rx else rx + f[0].body, f[1..])
  }

  /** A datagram there is no room for */
  predicate Lost(rx: seq<Byte>, r: Rec) { r.kind == KDgram && |rx| + |r.body| > RING }

  function LostOf(rx: seq<Byte>, f: seq<Rec>): nat
    decreases |f|
  {
    if f == [] then 0
    else if Lost(rx, f[0]) then 1 + LostOf(rx, f[1..])
    else LostOf(if f[0].kind == KFin then rx else rx + f[0].body, f[1..])
  }

  predicate AnyFin(f: seq<Rec>) { exists i :: 0 <= i < |f| && f[i].kind == KFin }

  /** A socket once these records have landed on it */
  predicate Landed(a: Sock, b: Sock, f: seq<Rec>) {
    b.rx == RxAfter(a.rx, f) && b.fin == (a.fin || AnyFin(f)) && b.rdEvents == a.rdEvents + |f|
  }

  /** Datagrams lost from the `i`th socket on when all that is due lands */
  function LostFrom(k: seq<Sock>, i: nat, now: nat): nat
    requires i <= |k|
    decreases |k| - i
  {
    if i == |k| then 0 else LostOf(k[i].rx, Due(k[i], now)) + LostFrom(k, i + 1, now)
  }

  function Due(d: Sock, now: nat): seq<Rec> { d.flight[..DueCount(d.flight, now)] }

  lemma LandOnLands(d: Sock, f: seq<Rec>)
    requires d.flight != [] && |d.rx| <= RING
    requires RecOk(d.kind, d.flight[0])
    ensures var (e, _, lost) := LandOn(d);
            && e.rx == (if d.flight[0].kind == KFin || Lost(d.rx, d.flight[0]) then d.rx else d.rx + d.flight[0].body)
            && e.fin == (d.fin || d.flight[0].kind == KFin) && e.rdEvents == d.rdEvents + 1
            && lost == (if Lost(d.rx, d.flight[0]) then 1 else 0)
  {
    hide DgramHead, DgramSize, WholeDgrams;
  }

  /** Traffic of a socket that nothing lands on */
  predicate SameTraffic(a: Sock, b: Sock) {
    b.rx == a.rx && b.fin == a.fin && b.rdEvents == a.rdEvents && b.flight == a.flight
  }

  lemma OneLands(s: Net, i: nat, f: seq<Rec>)
    requires Core(s) && i < |s.socks| && s.socks[i].flight != [] && FarEndsInTable(s.socks)
    ensures var u, r := LandHead(s, i), s.socks[i].flight[0];
            && |u.socks| == |s.socks| && u.dropped == s.dropped + (if Lost(s.socks[i].rx, r) then 1 else 0)
            && (forall j :: 0 <= j < |s.socks| && j != i ==> SameTraffic(s.socks[j], u.socks[j]))
            && RxAfter(u.socks[i].rx, f) == RxAfter(s.socks[i].rx, [r] + f)
            && LostOf(u.socks[i].rx, f) + u.dropped == LostOf(s.socks[i].rx, [r] + f) + s.dropped
            && u.socks[i].fin == (s.socks[i].fin || r.kind == KFin) && u.socks[i].rdEvents == s.socks[i].rdEvents + 1
  {
    CoreSocks(s);
    LandSocks(s, i);
    assert SockOk(s.socks[i]) && RecOk(s.socks[i].kind, s.socks[i].flight[0]);
    hide Core, SockOk, RecOk;
    LandOnLands(s.socks[i], f);
    assert ([s.socks[i].flight[0]] + f)[1..] == f;
  }

  lemma JustCore(s: Net, i: nat)
    requires Core(s) && i < |s.socks| && s.socks[i].flight != [] && FarEndsInTable(s.socks)
    ensures Core(LandHead(s, i)) && LandHead(s, i).socks[i].flight == s.socks[i].flight[1..]
  {
    hide Core, LandHead, FarEndsInTable;
    LandCore(s, i);
  }

  lemma DueFirst(a: Sock, b: Sock, now: nat)
    requires a.flight != [] && a.flight[0].due <= now && b.flight == a.flight[1..]
    ensures Due(a, now) == [a.flight[0]] + Due(b, now)
  {
  }

  lemma NotDue(d: Sock, now: nat)
    requires d.flight == [] || d.flight[0].due > now
    ensures Due(d, now) == []
  {
  }

  lemma TrafficRefl(k: seq<Sock>)
    ensures forall j :: 0 <= j < |k| ==> SameTraffic(k[j], k[j])
  {
  }

  lemma TrafficTrans(k: seq<Sock>, m: seq<Sock>, n: seq<Sock>, i: nat)
    requires |k| == |m| == |n|
    requires forall j :: 0 <= j < |k| && j != i ==> SameTraffic(k[j], m[j])
    requires forall j :: 0 <= j < |m| && j != i ==> SameTraffic(m[j], n[j])
    ensures forall j :: 0 <= j < |k| && j != i ==> SameTraffic(k[j], n[j])
  {
    forall j | 0 <= j < |k| && j != i ensures SameTraffic(k[j], n[j]) {
      assert SameTraffic(k[j], m[j]) && SameTraffic(m[j], n[j]);
    }
  }

  /** What is due for the `i`th socket lands on it, and on no other. */
  lemma {:induction false} SockLands(s: Net, i: nat, now: nat)
    requires Core(s) && i < |s.socks| && FarEndsInTable(s.socks)
    ensures var t, due := AdvanceSock(s, i, now), Due(s.socks[i], now);
            && |t.socks| == |s.socks| && Landed(s.socks[i], t.socks[i], due)
            && t.dropped == s.dropped + LostOf(s.socks[i].rx, due)
            && forall j :: 0 <= j < |s.socks| && j != i ==> SameTraffic(s.socks[j], t.socks[j])
    decreases |s.socks[i].flight|
  {
    var f := s.socks[i].flight;
    var due := Due(s.socks[i], now);
    hide Core, RxAfter, LostOf, LandHead, AnyFin, Landed, Due, Lost, SameTraffic, FarEndsInTable;
    if f != [] && f[0].due <= now {
      var u := LandHead(s, i);
      JustCore(s, i);
      LandHeadStays(s, i);
      SockLands(u, i, now);
      var rest := Due(u.socks[i], now);
      DueFirst(s.socks[i], u.socks[i], now);
      OneLands(s, i, rest);
      TrafficTrans(s.socks, u.socks, AdvanceSock(u, i, now).socks, i);
      LandedFirst(s.socks[i], u.socks[i], AdvanceSock(u, i, now).socks[i], f[0], rest);
    } else {
      NotDue(s.socks[i], now);
      NoneLanded(s.socks[i]);
      TrafficRefl(s.socks);
    }
  }

  lemma LandedFirst(a: Sock, b: Sock, c: Sock, r: Rec, rest: seq<Rec>)
    requires RxAfter(b.rx, rest) == RxAfter(a.rx, [r] + rest) && b.fin == (a.fin || r.kind == KFin)
    requires b.rdEvents == a.rdEvents + 1 && Landed(b, c, rest)
    ensures Landed(a, c, [r] + rest)
  {
    hide RxAfter, AnyFin;
    FinFirst(r, rest);
  }

  lemma NoneLanded(d: Sock)
    ensures Landed(d, d, []) && LostOf(d.rx, []) == 0
  {
  }

  lemma FinFirst(r: Rec, f: seq<Rec>)
    ensures AnyFin([r] + f) == (r.kind == KFin || AnyFin(f))
  {
    var g := [r] + f;
    if AnyFin(f) {
      var i :| 0 <= i < |f| && f[i].kind == KFin;
      assert g[i + 1].kind == KFin;
    }
    if r.kind == KFin { assert g[0].kind == KFin; }
  }

  lemma {:induction false} AllLand(s: Net, i: nat, now: nat)
    requires Core(s) && i <= |s.socks| && FarEndsInTable(s.socks)
    ensures var t := AdvanceFrom(s, i, now);
            && |t.socks| == |s.socks| && t.dropped == s.dropped + LostFrom(s.socks, i, now)
            && forall j :: 0 <= j < |s.socks| ==>
                 if j < i then SameTraffic(s.socks[j], t.socks[j])
                   else Landed(s.socks[j], t.socks[j], Due(s.socks[j], now))
    decreases |s.socks| - i
  {
    hide Core, RxAfter, LostOf, AdvanceSock, AnyFin;
    if i < |s.socks| {
      var u := AdvanceSock(s, i, now);
      SockLands(s, i, now);
      AdvanceSockOk(s, i, now);
      AllLand(u, i + 1, now);
      SameLost(s.socks, u.socks, i + 1, now);
    }
  }

  lemma {:induction false} SameLost(k: seq<Sock>, m: seq<Sock>, i: nat, now: nat)
    requires i <= |k| == |m| && forall j :: i <= j < |k| ==> SameTraffic(k[j], m[j])
    ensures LostFrom(m, i, now) == LostFrom(k, i, now)
    decreases |k| - i
  {
    if i < |k| { SameLost(k, m, i + 1, now); }
  }

  lemma {:induction false} NoneLost(k: seq<Sock>, i: nat, now: nat)
    requires i <= |k| && forall j :: i <= j < |k| ==> DueCount(k[j].flight, now) == 0
    ensures LostFrom(k, i, now) == 0
    decreases |k| - i
  {
    if i < |k| {
      assert Due(k[i], now) == [];
      NoneLost(k, i + 1, now);
    }
  }

  /** Payload bytes these records bring: of a datagram, what its header says,
      if there is room for it. */
  function BytesOf(rx: seq<Byte>, f: seq<Rec>): nat
    decreases |f|
  {
    if f == [] then 0
    else
      match f[0].kind
      case KFin => BytesOf(rx, f[1..])
      case KBytes => |f[0].body| + BytesOf(rx + f[0].body, f[1..])
      case KDgram =>
        if |rx| + |f[0].body| > RING then BytesOf(rx, f[1..])
        else (if |f[0].body| >= 4 then FromLe(f[0].body[..4]) else 0) + BytesOf(rx + f[0].body, f[1..])
  }

  function BytesFrom(k: seq<Sock>, i: nat, now: nat): nat
    requires i <= |k|
    decreases |k| - i
  {
    if i == |k| then 0 else BytesOf(k[i].rx, Due(k[i], now)) + BytesFrom(k, i + 1, now)
  }

  lemma OneBrings(s: Net, i: nat, f: seq<Rec>)
    requires Core(s) && i < |s.socks| && s.socks[i].flight != [] && FarEndsInTable(s.socks)
    ensures var u, r := LandHead(s, i), s.socks[i].flight[0];
            |u.socks| == |s.socks| && u.bytes + BytesOf(u.socks[i].rx, f) == s.bytes + BytesOf(s.socks[i].rx, [r] + f)
  {
    CoreSocks(s);
    LandSocks(s, i);
    assert SockOk(s.socks[i]);
    hide Core, SockOk, RecOk, FromLe;
    var r := s.socks[i].flight[0];
    assert ([r] + f)[1..] == f && ([r] + f)[0] == r;
  }

  lemma {:induction false} SockBrings(s: Net, i: nat, now: nat)
    requires Core(s) && i < |s.socks| && FarEndsInTable(s.socks)
    ensures AdvanceSock(s, i, now).bytes == s.bytes + BytesOf(s.socks[i].rx, Due(s.socks[i], now))
    decreases |s.socks[i].flight|
  {
    var f := s.socks[i].flight;
    hide Core, BytesOf, LandHead, Due, FarEndsInTable;
    if f != [] && f[0].due <= now {
      var u := LandHead(s, i);
      JustCore(s, i);
      LandHeadStays(s, i);
      SockBrings(u, i, now);
      DueFirst(s.socks[i], u.socks[i], now);
      OneBrings(s, i, Due(u.socks[i], now));
    } else {
      NotDue(s.socks[i], now);
      NoneBring(s.socks[i].rx);
    }
  }

  lemma NoneBring(rx: seq<Byte>)
    ensures BytesOf(rx, []) == 0
  {
  }

  lemma {:induction false} AllBring(s: Net, i: nat, now: nat)
    requires Core(s) && i <= |s.socks| && FarEndsInTable(s.socks)
    ensures AdvanceFrom(s, i, now).bytes == s.bytes + BytesFrom(s.socks, i, now)
    decreases |s.socks| - i
  {
    hide Core, BytesOf, AdvanceSock, RxAfter, LostOf, AnyFin;
    if i < |s.socks| {
      var u := AdvanceSock(s, i, now);
      SockBrings(s, i, now);
      SockLands(s, i, now);
      AdvanceSockOk(s, i, now);
      AllBring(u, i + 1, now);
      SameBytes(s.socks, u.socks, i + 1, now);
    }
  }

  lemma {:induction false} SameBytes(k: seq<Sock>, m: seq<Sock>, i: nat, now: nat)
    requires i <= |k| == |m| && forall j :: i <= j < |k| ==> SameTraffic(k[j], m[j])
    ensures BytesFrom(m, i, now) == BytesFrom(k, i, now)
    decreases |k| - i
  {
    if i < |k| { SameBytes(k, m, i + 1, now); }
  }

  lemma {:induction false} NothingBrought(k: seq<Sock>, i: nat, now: nat)
    requires i <= |k| && forall j :: i <= j < |k| ==> DueCount(k[j].flight, now) == 0
    ensures BytesFrom(k, i, now) == 0
    decreases |k| - i
  {
    if i < |k| {
      assert Due(k[i], now) == [];
      NothingBrought(k, i + 1, now);
    }
  }

  /** The run's count of bytes delivered grows by what lands; and the network
      says whether it looked. */
  lemma AdvanceBrings(s: Net, now: nat)
    requires Inv(s) && FarEndsInTable(s.socks)
    ensures var (t, moved) := Advance(s, now);
            && t.bytes == s.bytes + BytesFrom(s.socks, 0, now)
            && (moved <==> s.inFlight > 0 && s.nextDue <= now)
            && t.datagrams == s.datagrams && t.connections == s.connections
  {
    hide Core, BytesOf;
    if s.inFlight == 0 || s.nextDue > now {
      NothingIsDue(s, now);
      NothingBrought(s.socks, 0, now);
    } else {
      CoreNow(s, now);
      AllBring(s.(now := now), 0, now);
      AdvanceFromOk(s.(now := now), 0, now);
    }
  }

  /** On a stream no byte that is due is lost. */
  lemma {:induction false} StreamsLand(rx: seq<Byte>, f: seq<Rec>)
    requires forall i {:trigger f[i]} :: 0 <= i < |f| ==> f[i].kind == KBytes || (f[i].kind == KFin && f[i].body == [])
    ensures RxAfter(rx, f) == rx + FlBytes(f) && LostOf(rx, f) == 0
    decreases |f|
  {
    if f != [] {
      var rest := f[1..];
      forall i {:trigger rest[i]} | 0 <= i < |rest|
        ensures rest[i].kind == KBytes || (rest[i].kind == KFin && rest[i].body == [])
      {
        assert rest[i] == f[i + 1];
      }
      if f[0].kind == KFin {
        StreamsLand(rx, rest);
        assert FlBytes(f) == [] + FlBytes(rest) == FlBytes(rest);
      } else {
        StreamsLand(rx + f[0].body, rest);
        assert (rx + f[0].body) + FlBytes(rest) == rx + (f[0].body + FlBytes(rest));
      }
    }
  }

  lemma AdvanceLands(s: Net, now: nat)
    requires Inv(s) && FarEndsInTable(s.socks)
    ensures var t := Advance(s, now).0;
            && |t.socks| == |s.socks| && t.dropped == s.dropped + LostFrom(s.socks, 0, now)
            && forall j :: 0 <= j < |s.socks| ==> Landed(s.socks[j], t.socks[j], Due(s.socks[j], now))
  {
    hide Core, RxAfter, LostOf, AnyFin;
    var s0 := s.(now := now);
    if s.inFlight == 0 || s.nextDue > now {
      NothingIsDue(s, now);
      NoneLost(s.socks, 0, now);
      forall j | 0 <= j < |s.socks| ensures Landed(s.socks[j], s.socks[j], Due(s.socks[j], now)) {
        assert Due(s.socks[j], now) == [];
        NoneLanded(s.socks[j]);
      }
    } else {
      CoreNow(s, now);
      AllLand(s0, 0, now);
    }
  }

  lemma CoreNow(s: Net, now: nat)
    requires Inv(s)
    ensures Core(s.(now := now))
  {
  }

  lemma NothingIsDue(s: Net, now: nat)
    requires Inv(s) && (s.inFlight == 0 || s.nextDue > now)
    ensures forall j :: 0 <= j < |s.socks| ==> DueCount(s.socks[j].flight, now) == 0
  {
    if s.inFlight == 0 { TotalZero(s.socks); }
  }

  lemma AdvanceCalm(s: Net, now: nat)
    requires Inv(s) && FarEndsInTable(s.socks)
    ensures var (t, moved) := Advance(s, now);
            && Inv(t) && Calm(s.socks, t.socks) && t.now == now
            && (forall j :: 0 <= j < |s.socks| ==>
                  t.socks[j].flight == s.socks[j].flight[DueCount(s.socks[j].flight, now)..])
            && (forall j :: 0 <= j < |t.socks| && t.socks[j].flight != [] ==> t.socks[j].flight[0].due > now)
            && (!moved ==> t == s.(now := now))
  {
    var s0 := s.(now := now);
    CalmRefl(s);
    if s.inFlight == 0 || s.nextDue > now {
      if s.inFlight == 0 { TotalZero(s.socks); }
      forall j | 0 <= j < |s.socks| ensures DueCount(s.socks[j].flight, now) == 0 { }
    } else {
      AdvanceFromOk(s0, 0, now);
      var s1 := AdvanceFrom(s0, 0, now);
      var t := Advance(s, now).0;
      assert t == s1.(nextDue := EarliestHead(s1.socks, 0));
      assert Core(t);
      assert DueBound(t.socks, t.nextDue);
    }
  }

  /** When the clock moves to `now`, of every flight ring exactly the records
      due by then (up to the first that is not) land; streams keep their
      pending bytes; no head is due any more; and the next due time is again a
      bound from below. Each socket is as its records leave it, and the
      datagrams there was no room for are counted. */
  lemma AdvanceOk(s: Net, now: nat)
    requires Inv(s) && FarEndsInTable(s.socks)
    ensures var (t, moved) := Advance(s, now);
            && Inv(t) && Calm(s.socks, t.socks) && t.now == now
            && (forall j :: 0 <= j < |s.socks| ==>
                  t.socks[j].flight == s.socks[j].flight[DueCount(s.socks[j].flight, now)..])
            && (forall j :: 0 <= j < |t.socks| && t.socks[j].flight != [] ==> t.socks[j].flight[0].due > now)
            && (forall j :: 0 <= j < |s.socks| ==> Landed(s.socks[j], t.socks[j], Due(s.socks[j], now)))
            && t.dropped == s.dropped + LostFrom(s.socks, 0, now)
            && (!moved ==> t == s.(now := now))
  {
    hide *;
    AdvanceCalm(s, now);
    AdvanceLands(s, now);
  }

  lemma CalmFlow(s: Net, m: seq<Sock>)
    requires Inv(s) && Calm(s.socks, m)
    ensures Flow(s.socks, m, -1, [])
  {
    hide WholeDgrams, Edges, Links, Queues;
    var k := s.socks;
    forall i | 0 <= i < |k| && Kept(k, m, i) ensures !k[i].shutRd && Pending(m[i]) == Pending(k[i]) + [] {
      assert SockOk(k[i]) && SameShape(k[i], m[i]);
      assert Pending(m[i]) == Pending(k[i]);
    }
  }
}

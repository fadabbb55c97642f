/** Datagrams, case by case (`netstate.rs`): where one goes, the address it
    seems to come from, when it lands, and what becomes of one that nobody can
    take. */
module NetDgrams {
  import opened Wrappers
  import opened NetTypes
  import opened Wire
  import opened NetSpec
  import opened NetRules

  /** `h` is the host that answers at `ip`: the asking one for loopback
      addresses, else the first with that address; the asking one if there is
      none. */
  predicate AnswersAt(hosts: seq<Host>, from: nat, ip: nat, h: nat) {
    if ip / 0x100_0000 != 127 && exists i :: 0 <= i < |hosts| && hosts[i].addr == ip then
      h < |hosts| && hosts[h].addr == ip && forall i :: 0 <= i < h ==> hosts[i].addr != ip
    else h == from
  }

  /** The name a datagram to `dest` bears: an inet socket's port, at loopback
      if that is where it goes, else at the host's own address. */
  function SeenFrom(s: Net, k: Sock, dest: Addr): Addr
    requires k.host < |s.hosts|
  {
    if k.family != Inet then k.local
    else Addr(Inet, k.local.port, if dest.ip / 0x100_0000 == 127 then 0x7F00_0001
      else s.hosts[k.host].addr, k.local.path)
  }

  lemma RouteRule(s: Net, k: Sock, dest: Option<(nat, Addr)>)
    requires k.host < |s.hosts|
    ensures match DgramRoute(s, k, dest)
            case None => dest.None? && !k.hasPeer
            case Some(r) =>
              && (dest.Some? || k.hasPeer)
              && r.1 == (if dest.Some? then dest.value.1 else k.peer)
              && (if dest.Some? then r.0 == dest.value.0
                  else if k.family == Inet then AnswersAt(s.hosts, k.host, k.peer.ip, r.0) else r.0 == k.host)
              && r.2 == SeenFrom(s, k, r.1)
  {
  }

  /** `t` may be given a datagram from `from` to `dest`: it is bound there, at
      any address, at loopback or at the one asked for, and it has no default
      peer or the sender is it. */
  predicate Gets(t: Sock, host: nat, family: Family, dest: Addr, from: Addr) {
    && t.kind == Dgram && t.state == Bound && t.host == host && t.local.family == dest.family
    && (if dest.family == Inet then t.local.port == dest.port else dest.family == Unix && t.local.path == dest.path)
    && (family != Inet || t.local.ip == 0 || (t.local.ip / 0x100_0000 == 127 && dest.ip / 0x100_0000 == 127)
        || t.local.ip == dest.ip)
    && (t.hasPeer ==>
          t.peer.family == from.family && t.peer.ip == from.ip
          && if from.family == Inet then t.peer.port == from.port else from.family == Unix && t.peer.path == from.path)
  }

  lemma SameGetters(host: nat, family: Family, dest: Addr, from: Addr)
    ensures forall t: Sock :: IsReceiverFor(t, host, family, dest, from) <==> Gets(t, host, family, dest, from)
  {
  }

  predicate FirstGets(k: seq<Sock>, f: nat, host: nat, family: Family, dest: Addr, from: Addr) {
    f < |k| && Gets(k[f], host, family, dest, from) && forall m :: 0 <= m < f ==> !Gets(k[m], host, family, dest, from)
  }

  /** There is room for the whole datagram, in the ring or among what is under
      way. */
  predicate Fits(s: Net, from: nat, f: Sock, size: nat) {
    if AtOnce(s, from, f) then |f.rx| + size <= 65536 else FlLen(f.flight) + 26 + size <= 65536
  }

  /** One datagram on its way to the `f`th socket, or there; the receiver is
      told of one that finds no room in its ring, too. */
  predicate Sent(s: Net, t: Net, from: nat, f: nat, enc: seq<Byte>, size: nat)
    requires f < |s.socks|
  {
    var d := s.socks[f];
    if AtOnce(s, from, d) then
      if Fits(s, from, d, |enc|) then
        t == s.(socks := s.socks[f := d.(rx := d.rx + enc, rdEvents := d.rdEvents + 1)], bytes := s.bytes + size)
      else t == s.(socks := s.socks[f := d.(rdEvents := d.rdEvents + 1)])
    else if Fits(s, from, d, |enc|) then InFlight(s, t, f, Rec(DueTime(s, from, d), KDgram, enc))
    else t == s
  }

  lemma DeliverDgram(s: Net, from: nat, f: nat, sender: Addr, data: seq<Byte>)
    requires f < |s.socks|
    ensures var (t, n) := Deliver(s, from, f, PDatagram(sender, data));
            && Sent(s, t, from, f, EncDgram(sender, data), |data|)
            && n == if Fits(s, from, s.socks[f], |EncDgram(sender, data)|) then |data| else 0
  {
    hide EncDgram;
  }

  /** The reply, and the counts of datagrams sent and lost: one that nobody
      takes, or that there is no room for, is lost without a word on an inet
      socket; on a UNIX-domain one the sender is told. */
  lemma DispatchRule(s: Net, k: Sock, host: nat, dest: Addr, from: Addr, data: seq<Byte>)
    ensures var (t, r) := Dispatch(s, k, (host, dest, from), data);
            && ((forall f :: 0 <= f < |s.socks| ==> !Gets(s.socks[f], host, k.family, dest, from)) ==>
                  (t, r) == if k.family == Unix then (s, Err(Errno(ECONNREFUSED)))
                            else (s.(datagrams := s.datagrams + 1, dropped := s.dropped + 1), Ok(|data|)))
            && (forall f: nat :: FirstGets(s.socks, f, host, k.family, dest, from) ==>
                  exists u :: Sent(s, u, k.host, f, EncDgram(from, data), |data|)
                    && (t, r) == if Fits(s, k.host, s.socks[f], 12 + |from.path| + |data|) || data == [] then
                                   (u.(datagrams := u.datagrams + 1), Ok(|data|))
                                 else if k.family == Unix then (u, Err(WouldBlock))
                                 else (u.(datagrams := u.datagrams + 1, dropped := u.dropped + 1), Ok(|data|)))
  {
    SameGetters(host, k.family, dest, from);
    hide EncDgram, Deliver, Gets, IsReceiverFor, Fits, Sent;
    var i := FirstReceiver(s.socks, host, k.family, dest, from, 0);
    if i < |s.socks| {
      assert FirstGets(s.socks, i, host, k.family, dest, from);
      forall f: nat | FirstGets(s.socks, f, host, k.family, dest, from) ensures f == i { }
      DispatchTo(s, k, host, dest, from, data, i);
    }
  }

  lemma DispatchTo(s: Net, k: Sock, host: nat, dest: Addr, from: Addr, data: seq<Byte>, i: nat)
    requires i < |s.socks| && FirstReceiver(s.socks, host, k.family, dest, from, 0) == i
    ensures var (t, r) := Dispatch(s, k, (host, dest, from), data);
            exists u :: Sent(s, u, k.host, i, EncDgram(from, data), |data|)
              && (t, r) == if Fits(s, k.host, s.socks[i], 12 + |from.path| + |data|) || data == [] then
                             (u.(datagrams := u.datagrams + 1), Ok(|data|))
                           else if k.family == Unix then (u, Err(WouldBlock))
                           else (u.(datagrams := u.datagrams + 1, dropped := u.dropped + 1), Ok(|data|))
  {
    hide EncDgram, Deliver, IsReceiverFor, Fits, Sent, FirstReceiver;
    DeliverDgram(s, k.host, i, from, data);
    var u := Deliver(s, k.host, i, PDatagram(from, data)).0;
    assert Sent(s, u, k.host, i, EncDgram(from, data), |data|);
  }

  /** A datagram send: at most 60 KB; a new inet socket is bound to a port of
      its own first; and there must be a destination. */
  lemma SendDgramRule(s: Net, sock: nat, dest: Option<(nat, Addr)>, data: seq<Byte>)
    requires sock < |s.socks| && s.socks[sock].host < |s.hosts|
    ensures var (t, r) := SendDgram(s, sock, dest, data);
            var own := s.socks[sock].state == New && s.socks[sock].family == Inet;
            var (u, b) := if own then Bind(s, sock, Addr(Inet, 0, 0, [])) else (s, Ok(()));
            if |data| > 61440 then (t, r) == (s, Err(Errno(EMSGSIZE)))
            else if b.Err? then (t, r) == (u, Err(b.error))
            else
              && |u.socks| == |s.socks| && u.socks[sock].host < |u.hosts|
              && var k := u.socks[sock];
                 if dest.None? && !k.hasPeer then (t, r) == (u, Err(Errno(EDESTADDRREQ)))
                 else
                   exists host: nat ::
                     var to := if dest.Some? then dest.value.1 else k.peer;
                     && (if dest.Some? then host == dest.value.0
                         else if k.family == Inet then AnswersAt(u.hosts, k.host, k.peer.ip, host) else host == k.host)
                     && (t, r) == Dispatch(u, k, (host, to, SeenFrom(u, k, to)), data)
  {
    hide Bind, Dispatch, DgramRoute, AnswersAt, SeenFrom;
    var (u, b) := BindIfNew(s, sock);
    if |data| <= 61440 && b.Ok? {
      RouteRule(u, u.socks[sock], dest);
      if dest.Some? || u.socks[sock].hasPeer {
        var route := DgramRoute(u, u.socks[sock], dest).value;
        assert SendDgram(s, sock, dest, data) == Dispatch(u, u.socks[sock], route, data);
        assert route == (route.0, route.1, route.2);
      }
    }
  }

  /** A datagram socket may be given a default peer; a new inet one gets a port. */
  lemma ConnectDgramRule(s: Net, sock: nat, dest: Addr)
    requires sock < |s.socks| && s.socks[sock].host < |s.hosts|
    ensures var (t, r) := ConnectDgram(s, sock, dest);
            var own := s.socks[sock].state == New && s.socks[sock].family == Inet;
            var (u, b) := if own then Bind(s, sock, Addr(Inet, 0, 0, [])) else (s, Ok(()));
            if b.Err? then (t, r) == (u, b)
            else
              r == Ok(()) && |u.socks| == |s.socks|
              && t == u.(socks := u.socks[sock := u.socks[sock].(peer := dest, hasPeer := true)])
  {
    hide Bind;
  }

  /** A datagram receive takes one whole datagram off the ring, however little
      of it is wanted, unless it peeks. */
  lemma RecvDgramRule(s: Net, sock: nat, want: nat, peek: bool, from: Addr, data: seq<Byte>, rest: seq<Byte>)
    requires sock < |s.socks| && AddrFits(from) && |data| < 0x1_0000_0000
    requires s.socks[sock].rx == EncDgram(from, data) + rest
    ensures DgramHead(s.socks[sock].rx)
    ensures RecvDgram(s, sock, want, peek)
            == (if peek then s else s.(socks := s.socks[sock := s.socks[sock].(rx := rest)]),
                Ok((if want < |data| then data[..want] else data, from)))
  {
    DgramRoundTrip(from, data, rest);
    assert data[..|data|] == data;
    assert EncDgram(from, data) != [] && s.socks[sock].rx != [];
    hide EncDgram, DgramHead, DgramData, DgramFrom, DgramSize;
  }

  lemma NoDgramYet(s: Net, sock: nat, want: nat, peek: bool)
    requires sock < |s.socks| && s.socks[sock].rx == []
    ensures RecvDgram(s, sock, want, peek) == (s, Err(WouldBlock))
  {
  }
}

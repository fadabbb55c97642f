/** The virtual kqueue (`kq.rs`), field by field: when a registration fires,
    what its event says, and what is left of it. */
module KqRules {
  import opened Wrappers
  import opened NetTypes
  import opened Wire
  import opened NetSpec
  import opened NetRules
  import opened Kq

  /** There is something to read, or to accept, or nothing ever will be. */
  predicate CanRead(k: Sock) {
    if k.kind == Dgram then k.rx != []
    else if k.state == Listening then k.backlog != []
    else if k.state == Connected then k.rx != [] || k.fin || k.shutRd
    else true
  }

  /** There is room for a byte at the far end, or no byte can be sent. */
  predicate CanWrite(k: seq<Sock>, i: nat)
    requires i < |k| && (k[i].state == Connected ==> k[i].farEnd < |k|)
  {
    var s := k[i];
    if s.state != Connected then true
    else
      var f := k[s.farEnd];
      s.shutWr || f.state != Connected || f.shutRd || Room(f, f.flight == []) > 0
  }

  /** A registration fires while it is on and its socket is ready, edge-triggered
      only if the socket's counter has moved since it last did. */
  lemma FiresRule(s: Net, r: Reg)
    requires r.sock < |s.socks| && FarEndsInTable(s.socks)
    ensures Fires(s, r) <==>
              && r.enabled
              && (if r.filter == Read then CanRead(s.socks[r.sock]) else CanWrite(s.socks, r.sock))
              && (r.flags.clear ==>
                    r.seen != Some(if r.filter == Read then s.socks[r.sock].rdEvents else s.socks[r.sock].wrEvents))
  {
  }

  /** What an event says: the descriptor and what the caller gave with it; end
      of stream once a connection's FIN has landed; and as data how many bytes
      can be read, of a listener whether there is a connection to accept. */
  lemma ReportRule(s: Net, r: Reg)
    requires r.sock < |s.socks| && FarEndsInTable(s.socks)
    ensures var e, k := Report(s, r), s.socks[r.sock];
            && e.fd == r.fd && e.filter == r.filter && e.udata == r.udata
            && (e.flags.eof <==> r.flags.eof || (r.filter == Read && k.kind == Stream && k.state == Connected && k.fin))
            && e.flags == r.flags.(add := true, eof := e.flags.eof)
            && (r.filter == Write ==> e.data == 0)
            && (r.filter == Read && k.state == Listening && k.kind == Stream ==>
                 e.data == if k.backlog == [] then 0 else 1)
            && (r.filter == Read && k.state != Listening && k.kind == Stream ==> e.data == |k.rx|)
            && (r.filter == Read && k.state != Listening && k.rx == [] ==> e.data == 0)
  {
    hide FromLe;
  }

  /** Of a datagram socket, the payload of its first datagram */
  lemma DgramReport(s: Net, r: Reg, from: Addr, data: seq<Byte>, rest: seq<Byte>)
    requires r.sock < |s.socks| && FarEndsInTable(s.socks) && r.filter == Read
    requires s.socks[r.sock].kind == Dgram && s.socks[r.sock].state != Listening
    requires s.socks[r.sock].rx == EncDgram(from, data) + rest && |data| < 0x1_0000_0000
    ensures Report(s, r).data == |data|
  {
    LeRoundTrip(|data|, 4);
    Widths();
    var rx := s.socks[r.sock].rx;
    hide FromLe, Le;
    assert EncDgram(from, data)[..4] == Le(|data|, 4);
    assert rx[..4] == Le(|data|, 4);
  }

  /** Once it has fired a one-shot registration is gone; any other has seen the
      socket's counter, and is off if it fires once per enabling. */
  lemma FiredRule(s: Net, r: Reg)
    requires r.sock < |s.socks| && FarEndsInTable(s.socks)
    ensures var count := if r.filter == Read then s.socks[r.sock].rdEvents else s.socks[r.sock].wrEvents;
            Fired(s, r) == if r.flags.oneshot then None
                           else Some(r.(seen := Some(count), enabled := r.enabled && !r.flags.dispatch))
  {
  }

  /** Events come in the order of their registrations: the one of the `i`th is
      behind those of the firing ones in front of it, as far as there is room. */
  lemma {:induction false} CollectedAt(s: Net, regs: seq<Reg>, room: nat, i: nat)
    requires SocksInTable(s, regs) && i < |regs| && Fires(s, regs[i]) && FireCount(s, regs[..i]) < room
    ensures FireCount(s, regs[..i]) < |Collected(s, regs, room).0|
    ensures Collected(s, regs, room).0[FireCount(s, regs[..i])] == Report(s, regs[i])
    decreases i
  {
    hide Fires, Report, Fired;
    if i > 0 {
      assert regs[..i][1..] == regs[1..][..i - 1];
      CollectedAt(s, regs[1..], if Fires(s, regs[0]) then room - 1 else room, i - 1);
    } else {
      assert regs[..0] == [];
    }
  }

  /** What a call leaves of a registration: itself, unless its event was reported */
  function LeftOf(s: Net, regs: seq<Reg>, room: nat, i: nat): seq<Reg>
    requires SocksInTable(s, regs) && i < |regs|
  {
    if Fires(s, regs[i]) && FireCount(s, regs[..i]) < room then
      match Fired(s, regs[i]) case Some(r) => [r] case None => []
    else [regs[i]]
  }

  function AllLeft(s: Net, regs: seq<Reg>, room: nat, i: nat): seq<Reg>
    requires SocksInTable(s, regs) && i <= |regs|
    decreases |regs| - i
  {
    if i == |regs| then [] else LeftOf(s, regs, room, i) + AllLeft(s, regs, room, i + 1)
  }

  lemma LeftMoves(s: Net, regs: seq<Reg>, room: nat, less: nat, i: nat)
    requires SocksInTable(s, regs) && 0 < i < |regs| && room > 0
    requires less == if Fires(s, regs[0]) then room - 1 else room
    ensures LeftOf(s, regs, room, i) == LeftOf(s, regs[1..], less, i - 1)
  {
    hide Fires, Fired;
    assert regs[..i][1..] == regs[1..][..i - 1];
  }

  lemma {:induction false} AllMoves(s: Net, regs: seq<Reg>, room: nat, less: nat, i: nat)
    requires SocksInTable(s, regs) && 0 < i <= |regs| && room > 0
    requires less == if Fires(s, regs[0]) then room - 1 else room
    ensures AllLeft(s, regs, room, i) == AllLeft(s, regs[1..], less, i - 1)
    decreases |regs| - i
  {
    hide Fires, LeftOf;
    if i < |regs| {
      LeftMoves(s, regs, room, less, i);
      AllMoves(s, regs, room, less, i + 1);
    }
  }

  lemma {:induction false} NoRoomLeft(s: Net, regs: seq<Reg>, i: nat)
    requires SocksInTable(s, regs) && i <= |regs|
    ensures AllLeft(s, regs, 0, i) == regs[i..]
    decreases |regs| - i
  {
    hide Fires, Fired, FireCount;
    if i < |regs| {
      NoRoomLeft(s, regs, i + 1);
      assert regs[i..] == [regs[i]] + regs[i + 1..];
    }
  }

  /** The registrations afterwards are what is left of each, in their order. */
  lemma {:induction false} CollectLeaves(s: Net, regs: seq<Reg>, room: nat)
    requires SocksInTable(s, regs)
    ensures Collected(s, regs, room).1 == AllLeft(s, regs, room, 0)
    decreases |regs|
  {
    hide Fires, Fired, Report;
    if room == 0 {
      NoRoomLeft(s, regs, 0);
      assert regs[0..] == regs;
    } else if regs != [] {
      var less := if Fires(s, regs[0]) then room - 1 else room;
      CollectLeaves(s, regs[1..], less);
      AllMoves(s, regs, room, less, 1);
      assert regs[..0] == [];
    }
  }

  /** A registration added, or added again, has the caller's flags and what it
      gave with it, and has seen nothing; switching it on forgets what one that
      fires once per enabling has seen; off is off. */
  lemma AppliedRule(r: Reg, ev: Change, sock: nat)
    ensures var m, add := Applied(r, ev, sock), ev.flags.add;
            && m.fd == r.fd && m.filter == r.filter
            && m.sock == (if add then sock else r.sock) && m.udata == (if add then ev.udata else r.udata)
            && m.flags == (if add then Flags(false, false, false, false, ev.flags.clear, ev.flags.oneshot,
                                             ev.flags.dispatch, false) else r.flags)
            && m.enabled == (!ev.flags.disable && (ev.flags.enable || r.enabled))
            && m.seen == if add || (ev.flags.enable && m.flags.dispatch) then None else r.seen
  {
  }

  lemma {:induction false} FirstIndex(regs: seq<Reg>, ev: Change, at: nat)
    requires at <= |regs| && (at < |regs| ==> regs[at].fd == ev.fd && regs[at].filter == ev.filter)
    requires forall j :: 0 <= j < at ==> regs[j].fd != ev.fd || regs[j].filter != ev.filter
    ensures IndexOf(regs, ev) == at
    decreases at
  {
    if at > 0 { FirstIndex(regs[1..], ev, at - 1); }
  }

  /** Where the change is made: at the first registration of that descriptor and
      filter, else behind them all, switched on; and the others keep their
      places. */
  lemma ChangedRule(regs: seq<Reg>, ev: Change, sock: nat, at: nat)
    requires at <= |regs| && (at < |regs| ==> regs[at].fd == ev.fd && regs[at].filter == ev.filter)
    requires forall j :: 0 <= j < at ==> regs[j].fd != ev.fd || regs[j].filter != ev.filter
    ensures Changed(regs, ev, sock)
            == if ev.flags.delete then (if at < |regs| then regs[..at] + regs[at + 1..] else regs)
               else if at < |regs| then regs[at := Applied(regs[at], ev, sock)]
               else if ev.flags.add then
                 regs + [Applied(Reg(ev.fd, sock, ev.filter,
                                     Flags(false, false, false, false, false, false, false, false), 0, true, None),
                                 ev, sock)]
               else regs
  {
    hide Applied, IndexOf;
    FirstIndex(regs, ev, at);
  }
}

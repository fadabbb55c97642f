/** Virtual registrations of a kqueue (`kq.rs`): how they change, what one
    `kevent` call collects, and that no edge of the network escapes it. */
module Kq {
  import opened Wrappers
  import opened NetTypes
  import opened Wire
  import opened NetSpec
  import opened NetInv
  import opened NetRun

  datatype Filter = Read | Write

  /** The flag bits of a change or an event this layer looks at */
  datatype Flags = Flags(add: bool, delete: bool, enable: bool, disable: bool,
                         clear: bool, oneshot: bool, dispatch: bool, eof: bool)

  datatype Change = Change(fd: int, filter: Filter, flags: Flags, udata: int)
  datatype Reg = Reg(fd: int, sock: nat, filter: Filter, flags: Flags, udata: int,
                     enabled: bool, seen: Option<nat>)
  datatype Event = Event(fd: int, filter: Filter, flags: Flags, data: nat, udata: int)
  datatype Snapshot = Snapshot(ready: bool, eof: bool, data: nat, events: nat)

  const NO_FLAGS := Flags(false, false, false, false, false, false, false, false)

  // ---- what a socket shows --------------------------------------------------

  /** Bytes `FIONREAD` reports */
  function PendingBytes(k: Sock): nat {
    if k.kind != Dgram || |k.rx| < 4 then |k.rx| else FromLe(k.rx[..4])
  }

  function SnapshotOf(s: Net, sock: nat, filter: Filter): Snapshot
    requires sock < |s.socks| && FarEndsInTable(s.socks)
  {
    var k := s.socks[sock];
    match filter
    case Read =>
      Snapshot(Readable(k), k.kind != Dgram && k.state == Connected && k.fin,
               if k.state == Listening then (if Readable(k) then 1 else 0) else PendingBytes(k),
               k.rdEvents)
    case Write => Snapshot(Writable(s.socks, sock), false, 0, k.wrEvents)
  }

  /** Whether a registration has something to report */
  predicate Fires(s: Net, r: Reg)
    requires r.sock < |s.socks| && FarEndsInTable(s.socks)
  {
    var snap := SnapshotOf(s, r.sock, r.filter);
    r.enabled && snap.ready && !(r.flags.clear && r.seen == Some(snap.events))
  }

  function Report(s: Net, r: Reg): Event
    requires r.sock < |s.socks| && FarEndsInTable(s.socks)
  {
    var snap := SnapshotOf(s, r.sock, r.filter);
    Event(r.fd, r.filter, r.flags.(add := true, eof := r.flags.eof || snap.eof), snap.data, r.udata)
  }

  /** The registration once it has fired: gone, silent, or seen */
  function Fired(s: Net, r: Reg): Option<Reg>
    requires r.sock < |s.socks| && FarEndsInTable(s.socks)
  {
    var r1 := r.(seen := Some(SnapshotOf(s, r.sock, r.filter).events));
    if r.flags.oneshot then None
    else if r.flags.dispatch then Some(r1.(enabled := false))
    else Some(r1)
  }

  predicate SocksInTable(s: Net, regs: seq<Reg>) {
    FarEndsInTable(s.socks) && forall i :: 0 <= i < |regs| ==> regs[i].sock < |s.socks|
  }

  // ---- one call -------------------------------------------------------------

  /** Events of the first `room` registrations that fire, in order, and the
      registrations left */
  function Collected(s: Net, regs: seq<Reg>, room: nat): (r: (seq<Event>, seq<Reg>))
    requires SocksInTable(s, regs)
  {
    if regs == [] || room == 0 then ([], regs)
    else if !Fires(s, regs[0]) then
      var (out, rest) := Collected(s, regs[1..], room);
      (out, [regs[0]] + rest)
    else
      var (out, rest) := Collected(s, regs[1..], room - 1);
      ([Report(s, regs[0])] + out,
       match Fired(s, regs[0]) case Some(r) => [r] + rest case None => rest)
  }

  function FireCount(s: Net, regs: seq<Reg>): nat
    requires SocksInTable(s, regs)
  {
    if regs == [] then 0 else (if Fires(s, regs[0]) then 1 else 0) + FireCount(s, regs[1..])
  }

  /** With room for all of them, exactly the registrations that fire are
      reported. */
  lemma {:induction false} AllAreReported(s: Net, regs: seq<Reg>, room: nat, i: nat)
    requires SocksInTable(s, regs) && FireCount(s, regs) <= room && i < |regs|
    ensures |Collected(s, regs, room).0| == FireCount(s, regs)
    ensures Fires(s, regs[i]) ==> Report(s, regs[i]) in Collected(s, regs, room).0
  {
    if room == 0 {
      NoneFire(s, regs, i);
    } else if i > 0 {
      AllAreReported(s, regs[1..], if Fires(s, regs[0]) then room - 1 else room, i - 1);
    } else if |regs| > 1 {
      AllAreReported(s, regs[1..], if Fires(s, regs[0]) then room - 1 else room, 0);
    }
  }

  lemma {:induction false} NoneFire(s: Net, regs: seq<Reg>, i: nat)
    requires SocksInTable(s, regs) && FireCount(s, regs) == 0 && i < |regs|
    ensures !Fires(s, regs[i])
  {
    if i > 0 { NoneFire(s, regs[1..], i - 1); }
  }

  /** Nothing else is reported, and never more than there is room for. */
  lemma {:induction false} OnlyFiring(s: Net, regs: seq<Reg>, room: nat)
    requires SocksInTable(s, regs)
    ensures |Collected(s, regs, room).0| <= room
    ensures forall e :: e in Collected(s, regs, room).0 ==>
              exists i :: 0 <= i < |regs| && Fires(s, regs[i]) && e == Report(s, regs[i])
  {
    if regs != [] && room > 0 {
      var fires := Fires(s, regs[0]);
      OnlyFiring(s, regs[1..], if fires then room - 1 else room);
      forall e | e in Collected(s, regs, room).0
        ensures exists i :: 0 <= i < |regs| && Fires(s, regs[i]) && e == Report(s, regs[i])
      {
        if e in Collected(s, regs[1..], if fires then room - 1 else room).0 {
          var i :| 0 <= i < |regs[1..]| && Fires(s, regs[1..][i]) && e == Report(s, regs[1..][i]);
          assert Fires(s, regs[i + 1]) && e == Report(s, regs[i + 1]);
        }
      }
    }
  }

  /** One-shot, dispatch and edge-triggered registrations that were reported
      stay silent in a second call over the same network state: only the
      level-triggered ones report again. */
  lemma {:induction false} SecondCall(s: Net, regs: seq<Reg>, room: nat)
    requires SocksInTable(s, regs) && FireCount(s, regs) <= room
    ensures SocksInTable(s, Collected(s, regs, room).1)
    ensures forall r :: r in Collected(s, regs, room).1 && Fires(s, r) ==>
              !r.flags.oneshot && !r.flags.dispatch && !r.flags.clear
  {
    var left := Collected(s, regs, room).1;
    if regs == [] {
    } else if room == 0 {
      forall r | r in left ensures !Fires(s, r) {
        var i :| 0 <= i < |regs| && r == regs[i];
        NoneFire(s, regs, i);
      }
    } else {
      var fires := Fires(s, regs[0]);
      var rest := Collected(s, regs[1..], if fires then room - 1 else room).1;
      SecondCall(s, regs[1..], if fires then room - 1 else room);
      forall r | r in left && r !in rest
        ensures !Fires(s, r) || (!r.flags.oneshot && !r.flags.dispatch && !r.flags.clear)
      {
      }
      forall i | 0 <= i < |left| ensures left[i].sock < |s.socks| {
        if left[i] in rest {
          var j :| 0 <= j < |rest| && rest[j] == left[i];
        }
      }
    }
  }

  // ---- no lost edge ---------------------------------------------------------

  /** What has been seen is not ahead of the socket's counter. */
  predicate NotAhead(s: Net, r: Reg)
    requires r.sock < |s.socks| && FarEndsInTable(s.socks)
  {
    r.seen.Some? ==> r.seen.value <= SnapshotOf(s, r.sock, r.filter).events
  }

  /** Over every run in which the socket stays under a descriptor and is not
      shut by its own side: if it was not ready (to read, or to write) at the
      start and is at the end, an enabled registration fires at the end,
      edge-triggered or not. */
  lemma EveryEdgeFires(s: Net, ops: seq<Op>, r: Reg)
    requires Inv(s) && Runs(s, ops) && WatchedThroughout(s, ops, r.sock)
    requires FarEndsInTable(s.socks) && FarEndsInTable(After(s, ops).socks)
    requires r.sock < |s.socks| && r.enabled && NotAhead(s, r)
    requires !SnapshotOf(s, r.sock, r.filter).ready && SnapshotOf(After(s, ops), r.sock, r.filter).ready
    ensures Fires(After(s, ops), r)
  {
    hide Inv, Runs, Readable, Writable;
    NoLostEdge(s, ops, r.sock);
  }

  /** What a call leaves behind is not ahead, nor is it after any further run. */
  lemma StaysNotAhead(s: Net, ops: seq<Op>, r: Reg)
    requires Inv(s) && Runs(s, ops) && WatchedThroughout(s, ops, r.sock)
    requires FarEndsInTable(s.socks) && FarEndsInTable(After(s, ops).socks)
    requires r.sock < |s.socks|
    ensures Fires(s, r) && Fired(s, r).Some? ==> NotAhead(s, Fired(s, r).value)
    ensures NotAhead(s, r) ==> NotAhead(After(s, ops), r)
  {
    hide Inv, Runs, Readable, Writable;
    NoLostEdge(s, ops, r.sock);
  }

  // ---- changes --------------------------------------------------------------

  predicate Same(r: Reg, ev: Change) { r.fd == ev.fd && r.filter == ev.filter }

  predicate OneEach(regs: seq<Reg>) {
    forall i, j :: 0 <= i < j < |regs| ==> regs[i].fd != regs[j].fd || regs[i].filter != regs[j].filter
  }

  /** The flags a registration keeps */
  function Kept3(f: Flags): Flags {
    NO_FLAGS.(clear := f.clear, oneshot := f.oneshot, dispatch := f.dispatch)
  }

  /** What a change makes of the registration it names */
  function Applied(r: Reg, ev: Change, sock: nat): Reg {
    var r1 := if ev.flags.add
              then r.(flags := Kept3(ev.flags), udata := ev.udata, sock := sock, seen := None) else r;
    var r2 := if ev.flags.enable
              then r1.(enabled := true, seen := if r1.flags.dispatch then None else r1.seen) else r1;
    if ev.flags.disable then r2.(enabled := false) else r2
  }

  /** The registrations but those at the positions `gone` */
  function Without(regs: seq<Reg>, gone: seq<nat>): seq<Reg>
    requires forall j :: 0 <= j < |gone| ==> gone[j] < |regs|
    requires forall j, k :: 0 <= j < k < |gone| ==> gone[j] < gone[k]
    decreases |gone|
  {
    if gone == [] then regs
    else
      var last := gone[|gone| - 1];
      Without(regs[..last], gone[..|gone| - 1]) + regs[last + 1..]
  }

  lemma WithoutNone(regs: seq<Reg>)
    ensures Without(regs, []) == regs
  {
  }

  lemma WithoutMore(regs: seq<Reg>, gone: seq<nat>, tail: seq<Reg>)
    requires forall j :: 0 <= j < |gone| ==> gone[j] < |regs|
    requires forall j, k :: 0 <= j < k < |gone| ==> gone[j] < gone[k]
    ensures Without(regs + tail, gone) == Without(regs, gone) + tail
  {
    if gone != [] {
      var last := gone[|gone| - 1];
      assert (regs + tail)[..last] == regs[..last] && (regs + tail)[last + 1..] == regs[last + 1..] + tail;
    }
  }

  lemma WithoutLast(regs: seq<Reg>, gone: seq<nat>, r: Reg)
    requires forall j :: 0 <= j < |gone| ==> gone[j] < |regs|
    requires forall j, k :: 0 <= j < k < |gone| ==> gone[j] < gone[k]
    ensures Without(regs + [r], gone + [|regs|]) == Without(regs, gone)
  {
    assert (gone + [|regs|])[..|gone|] == gone && (regs + [r])[..|regs|] == regs && (regs + [r])[|regs| + 1..] == [];
  }

  /** The first registration a change names; their number if none */
  function IndexOf(regs: seq<Reg>, ev: Change): (at: nat)
    ensures at <= |regs| && (at < |regs| ==> Same(regs[at], ev))
    ensures forall j :: 0 <= j < at ==> !Same(regs[j], ev)
  {
    if regs == [] || Same(regs[0], ev) then 0 else 1 + IndexOf(regs[1..], ev)
  }

  function Changed(regs: seq<Reg>, ev: Change, sock: nat): seq<Reg> {
    var at := IndexOf(regs, ev);
    if ev.flags.delete then (if at < |regs| then regs[..at] + regs[at + 1..] else regs)
    else if at < |regs| then regs[at := Applied(regs[at], ev, sock)]
    else if ev.flags.add then
      regs + [Applied(Reg(ev.fd, sock, ev.filter, NO_FLAGS, 0, true, None), ev, sock)]
    else regs
  }

  /** A change leaves one registration a descriptor and filter at most, touches
      no other than the one it names, removes that one when it deletes, and
      otherwise leaves it re-armed if it adds and on or off as it asks. */
  lemma ChangedMeans(regs: seq<Reg>, ev: Change, sock: nat)
    requires OneEach(regs)
    ensures var m := Changed(regs, ev, sock);
            && OneEach(m)
            && (forall r :: !Same(r, ev) ==> (r in m <==> r in regs))
            && ((exists r :: r in m && Same(r, ev)) <==>
                !ev.flags.delete && (ev.flags.add || exists r :: r in regs && Same(r, ev)))
            && (forall r :: r in m && Same(r, ev) ==>
                  && (ev.flags.add ==>
                       r.sock == sock && r.udata == ev.udata && r.flags == Kept3(ev.flags) && r.seen == None)
                  && (ev.flags.enable && r.flags.dispatch ==> r.seen == None)
                  && (ev.flags.disable ==> !r.enabled)
                  && (ev.flags.enable && !ev.flags.disable ==> r.enabled))
  {
    var m, at := Changed(regs, ev, sock), IndexOf(regs, ev);
    hide IndexOf;
    forall j | 0 <= j < |regs| && j != at && at < |regs| ensures !Same(regs[j], ev) { }
    if ev.flags.delete {
      hide Applied;
      forall r | !Same(r, ev) && r in regs ensures r in m {
        var j :| 0 <= j < |regs| && regs[j] == r;
        if at < |regs| { assert j < at ==> m[j] == r; assert j > at ==> m[j - 1] == r; }
      }
    } else if at < |regs| {
      assert m[at] == Applied(regs[at], ev, sock) && Same(m[at], ev) && regs[at] in regs;
      forall r | !Same(r, ev) && r in regs ensures r in m {
        var j :| 0 <= j < |regs| && regs[j] == r;
        assert m[j] == r;
      }
    } else if ev.flags.add {
      assert m[|regs|] == Applied(Reg(ev.fd, sock, ev.filter, NO_FLAGS, 0, true, None), ev, sock)
        && Same(m[|regs|], ev);
    }
  }

  /** Half way: what has been reported and what has fired, and what is still to
      be collected from position `i` on. */
  ghost predicate Half(s: Net, was: seq<Reg>, regs: seq<Reg>, i: nat, out: seq<Event>, gone: seq<nat>, room: nat) {
    && i <= |regs| == |was| && |out| <= room && regs[i..] == was[i..] && SocksInTable(s, regs) && SocksInTable(s, was)
    && (forall j :: 0 <= j < |gone| ==> gone[j] < i)
    && (forall j, k :: 0 <= j < k < |gone| ==> gone[j] < gone[k])
    && Collected(s, was, room).0 == out + Collected(s, was[i..], room - |out|).0
    && Collected(s, was, room).1 == Without(regs[..i], gone) + Collected(s, was[i..], room - |out|).1
  }

  lemma HalfStart(s: Net, was: seq<Reg>, room: nat)
    requires SocksInTable(s, was)
    ensures Half(s, was, was, 0, [], [], room)
  {
    hide Collected, Fires;
    WithoutNone(was[..0]);
    assert was[0..] == was;
    assert [] + Collected(s, was, room).0 == Collected(s, was, room).0;
    assert Without(was[..0], []) + Collected(s, was, room).1 == Collected(s, was, room).1;
  }

  lemma HalfBounds(s: Net, was: seq<Reg>, regs: seq<Reg>, i: nat, out: seq<Event>, gone: seq<nat>, room: nat)
    requires Half(s, was, regs, i, out, gone, room)
    ensures i <= |regs| && |out| <= room && SocksInTable(s, regs)
  {
    hide Collected, Without;
  }

  /** One registration visited */
  lemma HalfStep(s: Net, was: seq<Reg>, regs: seq<Reg>, regs2: seq<Reg>, i: nat, out: seq<Event>, gone: seq<nat>,
    room: nat,
                 e: Option<Event>, once: bool)
    requires Half(s, was, regs, i, out, gone, room) && i < |regs| && |out| < room
    requires |regs2| == |regs| && regs2 == regs[i := regs2[i]] && SocksInTable(s, regs2)
    requires e == if Fires(s, regs[i]) then Some(Report(s, regs[i])) else None
    requires e.None? ==> regs2 == regs && !once
    requires e.Some? ==> Fired(s, regs[i]) == if once then None else Some(regs2[i])
    ensures Half(s, was, regs2, i + 1, if e.Some? then out + [e.value] else out,
                 if once then gone + [i] else gone, room)
  {
    hide Collected, Fires, Fired, Report, Without;
    HalfLists(s, was, regs, regs2, i, out, gone, room);
    var room2: nat := room - |out|;
    var rest := Collected(s, was[i + 1..], if e.Some? then room2 - 1 else room2);
    Unrolled(s, was, i, room2);
    var done, now := regs[..i], regs2[i];
    WithoutLast(done, gone, now);
    WithoutMore(done, gone, [now]);
    assert Without(done, gone) + ([now] + rest.1) == Without(done, gone) + [now] + rest.1;
    if e.Some? {
      assert out + ([e.value] + rest.0) == out + [e.value] + rest.0;
    }
  }

  lemma HalfLists(s: Net, was: seq<Reg>, regs: seq<Reg>, regs2: seq<Reg>, i: nat, out: seq<Event>, gone: seq<nat>,
    room: nat)
    requires Half(s, was, regs, i, out, gone, room) && i < |regs|
    requires |regs2| == |regs| && regs2 == regs[i := regs2[i]]
    ensures regs[i] == was[i] && regs2[..i] == regs[..i] && regs2[..i + 1] == regs[..i] + [regs2[i]]
    ensures regs2[i + 1..] == was[i + 1..]
  {
    hide Collected, Without, SocksInTable;
    assert regs[i] == regs[i..][0] && was[i] == was[i..][0];
    assert regs2[i + 1..] == regs[i..][1..] && was[i + 1..] == was[i..][1..];
  }

  lemma Unrolled(s: Net, was: seq<Reg>, i: nat, room: nat)
    requires SocksInTable(s, was) && i < |was| && room > 0
    ensures SocksInTable(s, was[i..]) && SocksInTable(s, was[i + 1..])
    ensures var r := was[i];
            Collected(s, was[i..], room) ==
            if !Fires(s, r) then
              var rest := Collected(s, was[i + 1..], room);
              (rest.0, [r] + rest.1)
            else
              var rest := Collected(s, was[i + 1..], room - 1);
              ([Report(s, r)] + rest.0, match Fired(s, r) case Some(m) => [m] + rest.1 case None => rest.1)
  {
    hide Fires, Fired, Report;
    assert was[i..][0] == was[i] && was[i..][1..] == was[i + 1..];
  }

  lemma HalfEnd(s: Net, was: seq<Reg>, regs: seq<Reg>, i: nat, out: seq<Event>, gone: seq<nat>, room: nat)
    requires Half(s, was, regs, i, out, gone, room) && (i == |regs| || |out| == room)
    ensures (forall j :: 0 <= j < |gone| ==> gone[j] < |regs|)
      && (forall j, k :: 0 <= j < k < |gone| ==> gone[j] < gone[k])
    ensures Collected(s, was, room) == (out, Without(regs, gone))
  {
    assert Collected(s, was[i..], room - |out|) == ([], was[i..]);
    hide Collected, Without;
    assert out + [] == out;
    assert regs == regs[..i] + was[i..];
    WithoutMore(regs[..i], gone, was[i..]);
  }

  class Queue {
    var regs: seq<Reg>

    method Find(ev: Change) returns (at: nat)
      ensures at == IndexOf(regs, ev)
    {
      at := 0;
      assert regs[0..] == regs;
      while at < |regs| && !Same(regs[at], ev)
        invariant at <= |regs| && IndexOf(regs, ev) == at + IndexOf(regs[at..], ev)
      {
        assert regs[at..][1..] == regs[at + 1..];
        at := at + 1;
      }
    }

    /** One entry of a caller's change list */
    method Change(ev: Change, sock: nat)
      modifies this
      ensures regs == Changed(old(regs), ev, sock)
    {
      var at := Find(ev);
      if ev.flags.delete {
        if at < |regs| { regs := regs[..at] + regs[at + 1..]; }
        return;
      }
      if at == |regs| {
        if !ev.flags.add { return; }
        regs := regs + [Reg(ev.fd, sock, ev.filter, NO_FLAGS, 0, true, None)];
      }
      if ev.flags.add {
        regs := regs[at := regs[at].(flags := Kept3(ev.flags), udata := ev.udata, sock := sock, seen := None)];
      }
      if ev.flags.enable {
        regs := regs[at := regs[at].(enabled := true)];
        if regs[at].flags.dispatch { regs := regs[at := regs[at].(seen := None)]; }
      }
      if ev.flags.disable {
        regs := regs[at := regs[at].(enabled := false)];
      }
    }

    /** One registration: its event if it fires, and whether it is then to go */
    method Visit(s: Net, i: nat) returns (e: Option<Event>, once: bool)
      requires SocksInTable(s, regs) && i < |regs|
      modifies this
      ensures |regs| == |old(regs)| && regs == old(regs)[i := regs[i]] && SocksInTable(s, regs)
      ensures e == if Fires(s, old(regs)[i]) then Some(Report(s, old(regs)[i])) else None
      ensures e.None? ==> regs == old(regs) && !once
      ensures e.Some? ==> Fired(s, old(regs)[i]) == if once then None else Some(regs[i])
    {
      var r := regs[i];
      e, once := None, false;
      if !r.enabled { return; }
      var snap := SnapshotOf(s, r.sock, r.filter);
      if !snap.ready || (r.flags.clear && r.seen == Some(snap.events)) { return; }
      regs := regs[i := r.(seen := Some(snap.events))];
      e := Some(Event(r.fd, r.filter, r.flags.(add := true, eof := r.flags.eof || snap.eof), snap.data, r.udata));
      if r.flags.oneshot {
        once := true;
      } else if r.flags.dispatch {
        regs := regs[i := regs[i].(enabled := false)];
      }
    }

    /** Events the registrations have now, up to `room`. One-shot ones that
        fired are removed afterwards, last first. */
    method Collect(s: Net, room: nat) returns (out: seq<Event>)
      requires SocksInTable(s, regs)
      modifies this
      ensures (out, regs) == Collected(s, old(regs), room)
    {
      hide Fires, Fired, Report, Without, Collected, Half;
      ghost var was := regs;
      out := [];
      var gone: seq<nat> := [];
      var i := 0;
      HalfStart(s, was, room);
      while i < |regs| && |out| < room
        invariant i <= |regs| && Half(s, was, regs, i, out, gone, room)
      {
        HalfBounds(s, was, regs, i, out, gone, room);
        ghost var before := regs;
        var e, once := Visit(s, i);
        HalfStep(s, was, before, regs, i, out, gone, room, e, once);
        if e.Some? { out := out + [e.value]; }
        if once { gone := gone + [i]; }
        i := i + 1;
      }
      HalfBounds(s, was, regs, i, out, gone, room);
      HalfEnd(s, was, regs, i, out, gone, room);
      RemoveFired(gone);
    }

    method RemoveFired(gone: seq<nat>)
      requires forall j :: 0 <= j < |gone| ==> gone[j] < |regs|
      requires forall j, k :: 0 <= j < k < |gone| ==> gone[j] < gone[k]
      modifies this
      ensures regs == Without(old(regs), gone)
    {
      var k := |gone|;
      assert gone[..k] == gone;
      while k > 0
        invariant k <= |gone| && forall j :: 0 <= j < k ==> gone[j] < |regs|
        invariant Without(old(regs), gone) == Without(regs, gone[..k])
      {
        var at := gone[k - 1];
        assert gone[..k][..k - 1] == gone[..k - 1];
        WithoutMore(regs[..at], gone[..k - 1], regs[at + 1..]);
        regs := regs[..at] + regs[at + 1..];
        k := k - 1;
      }
    }
  }
}

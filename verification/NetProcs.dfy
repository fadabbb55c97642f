/** Replacing everything one process holds */
module NetProcs {
  import opened NetTypes
  import opened NetSpec
  import opened NetInv
  import opened NetSteps
  import opened NetOpen
  import opened NetClose
  import opened NetRefs

  /** Other processes hold what they held. */
  ghost predicate OthersHold(t: seq<FdRef>, u: seq<FdRef>, pid: nat) {
    forall p: nat, x: nat :: p != pid ==> Held(u, p, x) == Held(t, p, x)
  }

  /** Every socket under a descriptor keeps its state. */
  predicate OpenKept(k: seq<Sock>, m: seq<Sock>) {
    |k| == |m| && forall i {:trigger m[i]} {:trigger k[i]} :: 0 <= i < |k| ==>
      m[i].shutRd == k[i].shutRd && (m[i].state == Connected ==> k[i].state == Connected)
      && (k[i].refs > 0 && m[i].refs > 0 ==> m[i].state == k[i].state)
  }

  lemma OpenKeptCompose(k: seq<Sock>, m: seq<Sock>, n: seq<Sock>)
    requires OpenKept(k, m) && OpenKept(m, n)
    requires forall i :: 0 <= i < |k| && k[i].refs > 0 && n[i].refs > 0 ==> m[i].refs > 0
    ensures OpenKept(k, n)
  {
  }

  lemma ProcCompose(s: Net, t: Net, u: Net)
    requires Good(s, t) && Good(t, u) && OpenKept(s.socks, t.socks) && OpenKept(t.socks, u.socks)
    requires forall i :: 0 <= i < |s.socks| && s.socks[i].refs > 0 && u.socks[i].refs > 0 ==> t.socks[i].refs > 0
    ensures Good(s, u) && OpenKept(s.socks, u.socks)
  {
    hide Inv, Edges, Flow;
    OpenKeptCompose(s.socks, t.socks, u.socks);
    GoodCompose(s, t, u);
  }

  // ---- additions ----------------------------------------------------------

  predicate AllReferenced(k: seq<Sock>, held: seq<nat>) {
    forall x :: 0 <= x < |held| ==> held[x] < |k| && k[held[x]].refs > 0
  }

  lemma ReferencedIsOpen(s: Net, q: nat)
    requires Inv(s) && q < |s.socks| && s.socks[q].refs > 0
    ensures NotQueued(s.socks, q) && s.socks[q].state != Free && s.socks[q].state != Closed
  {
    assert SockOk(s.socks[q]);
  }

  lemma AddStep(s: Net, pid: nat, sock: nat)
    requires Inv(s) && sock < |s.socks| && s.socks[sock].refs > 0 && FdSlot(s.fdrefs, pid, sock) < |s.fdrefs|
    ensures var t := AddRef(s, pid, sock);
            && Good(s, t) && OpenKept(s.socks, t.socks) && OthersHold(s.fdrefs, t.fdrefs, pid)
            && HeldIs(s.fdrefs, t.fdrefs, pid, sock, Held(s.fdrefs, pid, sock) + 1)
            && (forall i :: 0 <= i < |s.socks| ==> t.socks[i].refs >= s.socks[i].refs)
  {
    hide Good, Held, FdSlot;
    ReferencedIsOpen(s, sock);
    AddRefOk(s, pid, sock);
  }

  lemma {:induction false} AddAllOk(s: Net, pid: nat, held: seq<nat>)
    requires Inv(s) && AllReferenced(s.socks, held)
    ensures var r := AddAll(s, pid, held);
            r.Some? ==>
              var t := r.value;
              && Good(s, t) && OpenKept(s.socks, t.socks) && OthersHold(s.fdrefs, t.fdrefs, pid)
              && (forall x: nat :: Held(t.fdrefs, pid, x) == Held(s.fdrefs, pid, x) + multiset(held)[x])
              && (forall i :: 0 <= i < |s.socks| ==> t.socks[i].refs >= s.socks[i].refs)
    decreases |held|
  {
    hide Held, FdSlot, Inv, Edges, Flow, AddRef;
    if held == [] {
      GoodRefl(s);
    } else if FdSlot(s.fdrefs, pid, held[0]) < |s.fdrefs| {
      var t := AddRef(s, pid, held[0]);
      AddStep(s, pid, held[0]);
      assert AllReferenced(t.socks, held[1..]);
      AddAllOk(t, pid, held[1..]);
      assert held == [held[0]] + held[1..];
      if AddAll(s, pid, held).Some? {
        ProcCompose(s, t, AddAll(s, pid, held).value);
      }
    }
  }

  // ---- removals -----------------------------------------------------------

  lemma DropStep(s: Net, pid: nat, sock: nat)
    requires Inv(s) && sock < |s.socks| && Held(s.fdrefs, pid, sock) > 0
    ensures FdSlot(s.fdrefs, pid, sock) < |s.fdrefs| && Releasable(s.socks)
    ensures var t := DropRef(s, pid, sock);
            && Good(s, t) && OpenKept(s.socks, t.socks) && OthersHold(s.fdrefs, t.fdrefs, pid)
            && HeldIs(s.fdrefs, t.fdrefs, pid, sock, Held(s.fdrefs, pid, sock) - 1)
            && (forall i :: 0 <= i < |s.socks| ==> t.socks[i].refs <= s.socks[i].refs)
  {
    hide Good, Held, FdSlot, DropRef, Inv;
    DropRefOk(s, pid, sock);
  }

  /** The drops that a successful replacement makes, `n` for one socket */
  ghost predicate Dropped(s: Net, t: Net, pid: nat) {
    && Good(s, t) && OpenKept(s.socks, t.socks) && OthersHold(s.fdrefs, t.fdrefs, pid)
    && (forall i :: 0 <= i < |s.socks| ==> t.socks[i].refs <= s.socks[i].refs)
  }

  lemma DroppedCompose(s: Net, t: Net, u: Net, pid: nat)
    requires Dropped(s, t, pid) && Dropped(t, u, pid)
    ensures Dropped(s, u, pid)
  {
    hide Good, Held;
    assert forall i :: 0 <= i < |s.socks| && s.socks[i].refs > 0 && u.socks[i].refs > 0 ==> t.socks[i].refs > 0;
    ProcCompose(s, t, u);
  }

  lemma DroppedRefl(s: Net, pid: nat)
    requires Inv(s)
    ensures Dropped(s, s, pid)
  {
    GoodRefl(s);
  }

  lemma {:induction false} DropTimesOk(s: Net, pid: nat, sock: nat, n: nat)
    requires Inv(s) && sock < |s.socks| && Held(s.fdrefs, pid, sock) >= n
    ensures var r := DropTimes(s, pid, sock, n);
            && r.Some? && Dropped(s, r.value, pid)
            && HeldIs(s.fdrefs, r.value.fdrefs, pid, sock, Held(s.fdrefs, pid, sock) - n)
    decreases n
  {
    hide Held, FdSlot, Inv, Edges, Flow, DropRef;
    if n == 0 {
      DroppedRefl(s, pid);
    } else {
      DropStep(s, pid, sock);
      var t := DropRef(s, pid, sock);
      DropTimesOk(t, pid, sock, n - 1);
      DroppedCompose(s, t, DropTimes(t, pid, sock, n - 1).value, pid);
    }
  }

  lemma {:induction false} DropOldOk(s: Net, before: seq<FdRef>, pid: nat, sock: nat)
    requires Inv(s) && sock <= |s.socks|
    requires forall x: nat :: x >= sock ==> Held(s.fdrefs, pid, x) >= Held(before, pid, x)
    ensures var r := DropOld(s, before, pid, sock);
            && r.Some? && Dropped(s, r.value, pid)
            && (forall x: nat :: x < |s.socks| ==>
                  Held(r.value.fdrefs, pid, x)
                  == Held(s.fdrefs, pid, x) - (if x >= sock then Held(before, pid, x) else 0))
    decreases |s.socks| - sock
  {
    hide Held, Inv, Edges, Flow, DropTimes, OpenKept;
    if sock == |s.socks| {
      DroppedRefl(s, pid);
    } else {
      DropTimesOk(s, pid, sock, Held(before, pid, sock));
      var t := DropTimes(s, pid, sock, Held(before, pid, sock)).value;
      DropOldOk(t, before, pid, sock + 1);
      DroppedCompose(s, t, DropOld(t, before, pid, sock + 1).value, pid);
    }
  }

  /** After `set_refs` the process holds exactly the multiplicities of `held`,
      other processes hold what they held, and no socket that stays under a
      descriptor is closed on the way, since additions come first. It goes
      through exactly when the additions find room in the table. */
  lemma SetRefsOk(s: Net, pid: nat, held: seq<nat>)
    requires Inv(s) && AllReferenced(s.socks, held)
    ensures SetRefs(s, pid, held).Some? <==> AddAll(s, pid, held).Some?
    ensures SetRefs(s, pid, held).Some? ==>
              var t := SetRefs(s, pid, held).value;
              && Good(s, t) && OpenKept(s.socks, t.socks) && OthersHold(s.fdrefs, t.fdrefs, pid)
              && (forall x: nat :: x < |s.socks| ==> Held(t.fdrefs, pid, x) == multiset(held)[x])
  {
    hide Held, Inv, Edges, Flow;
    AddAllOk(s, pid, held);
    if AddAll(s, pid, held).Some? {
      var t := AddAll(s, pid, held).value;
      DropOldOk(t, s.fdrefs, pid, 0);
      var u := DropOld(t, s.fdrefs, pid, 0).value;
      assert forall i :: 0 <= i < |s.socks| && s.socks[i].refs > 0 && u.socks[i].refs > 0 ==> t.socks[i].refs > 0;
      ProcCompose(s, t, u);
    }
  }

  /** A process that is gone holds nothing, whatever the table's state. */
  lemma ProcessDiedOk(s: Net, pid: nat)
    requires Inv(s)
    ensures SetRefs(s, pid, []).Some?
    ensures var t := SetRefs(s, pid, []).value;
            && Good(s, t) && OpenKept(s.socks, t.socks) && OthersHold(s.fdrefs, t.fdrefs, pid)
            && forall x: nat :: x < |s.socks| ==> Held(t.fdrefs, pid, x) == 0
  {
    SetRefsOk(s, pid, []);
  }
}

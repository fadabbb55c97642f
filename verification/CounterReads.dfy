/** An `mrs` of the virtual count becomes a call of the supervisor's entry
    (Builder::counter_stub in src/rewrite.rs; the entry's contract is
    _rewrite_counter_read in supervisor/src/sched.rs). */
module CounterReads {
  import opened Wrappers
  import opened Arm
  import opened ArmMachine
  import opened Trampoline
  import opened Sites

  ghost predicate IsCounterStub(site: bv64, rt: bv8, base: bv64, at: nat, ws: seq<bv32>) {
    && |ws| == 8
    && ws[0] == STR_X30_PRE
    && ws[1] == STP_X0_X1_PRE
    && EncMovz(0, STUB_BASE) == Some(ws[2])
    && ws[3] == EncLdr(1, 0, COUNTER_ENTRY_OFFSET)
    && ws[4] == BLR_X1
    && ws[5] == rt as bv32
    && ws[6] == LDR_X30_POST
    && EncB(Addr(base, at + 7), Add(site, 4)) == Some(ws[7])
  }

  function Top(s: State): bv64 { Sub(s.sp, 16) }

  /** After the two pushes. */
  function Stacked(s: State): State {
    s.(sp := Top(s), mem := Write(s.mem, Top(s), s.x[30]))
  }

  /** The entry is called from word 4; the word after the call names the
      register. */
  function Asked(s: State, base: bv64, at: nat): State {
    s.(pc := Read(s.mem, COUNTER_ENTRY), sp := Pair(Top(s)), mem := Pushed(Stacked(s)),
       x := Scratch(s.x, STUB_BASE, Read(s.mem, COUNTER_ENTRY))[30 := Addr(base, at + 5)])
  }

  /** What the supervisor's entry answers with: the pair pushed for it is off the
      stack, the count is in the register named, and nothing else differs. */
  predicate Answers(e: State, r: State, top: bv64, rt: bv8, v: bv64) {
    && r.pc == Add(e.x[30], 4) && r.sp == top && r.flags == e.flags && r.vectors == e.vectors
    && Read(r.mem, top) == Read(e.mem, top)
    && (forall i :: 0 <= i < 30 ==>
          r.x[i] == if i == rt as nat then v
                    else if i == 0 then Read(e.mem, Pair(top))
                    else if i == 1 then Read(e.mem, Pair1(top))
                    else e.x[i])
  }

  lemma StackedKeeps(s: State)
    requires Roomy(s.sp)
    ensures var m := Pushed(Stacked(s));
            && Read(m, COUNTER_ENTRY) == Read(s.mem, COUNTER_ENTRY)
            && Read(m, Top(s)) == s.x[30] && Read(m, Pair(Top(s))) == s.x[0] && Read(m, Pair1(Top(s))) == s.x[1]
  {
    var top := Top(s);
    var m0 := Stacked(s).mem;
    var m1 := Write(m0, Pair(top), s.x[0]);
    TopDistinct(top);
    Distinct(top);
    hide Pair, Pair1, Sub, Write, Read;
    ReadWrite(s.mem, top, s.x[30], COUNTER_ENTRY);
    ReadWrite(m0, Pair(top), s.x[0], COUNTER_ENTRY);
    ReadWrite(m1, Pair1(top), s.x[1], COUNTER_ENTRY);
    ReadWrite(s.mem, top, s.x[30], top);
    ReadWrite(m0, Pair(top), s.x[0], top);
    ReadWrite(m1, Pair1(top), s.x[1], top);
    ReadWrite(m0, Pair(top), s.x[0], Pair(top));
    ReadWrite(m1, Pair1(top), s.x[1], Pair(top));
    ReadWrite(m1, Pair1(top), s.x[1], Pair1(top));
  }

  lemma Pushes(env: Env, text: Text, site: bv64, rt: bv8, base: bv64, at: nat, ws: seq<bv32>, s: State)
    requires IsCounterStub(site, rt, base, at, ws) && Placed(text, base, at, ws) && s.pc == Addr(base, at)
    ensures Reaches(env, text, s, Stacked(s).(pc := Addr(base, at + 2), sp := Pair(Top(s)), mem := Pushed(Stacked(s))))
  {
    Stack(Top(s));
    hide Exec, Addr, Placed, Reaches, EncMovz, EncLdr, EncB, Add, Sub, Write, Read, Pair, Pair1;
    var s1 := Stacked(s).(pc := Addr(base, at + 1));
    RunsPush(env, s);
    Follows(base, at);
    One(env, text, base, at, ws, 0, s, s1);
    RunsStp(env, s1);
    Follows(base, at + 1);
    More(env, text, base, at, ws, 1, s, s1,
      s1.(pc := Addr(base, at + 2), sp := Pair(Top(s)), mem := Pushed(Stacked(s))));
  }

  lemma Asks(env: Env, text: Text, site: bv64, rt: bv8, base: bv64, at: nat, ws: seq<bv32>, s: State, t: State)
    requires IsCounterStub(site, rt, base, at, ws) && Placed(text, base, at, ws)
    requires t == s.(pc := Addr(base, at + 2), sp := Pair(Top(s)), mem := Pushed(Stacked(s)))
    requires Read(t.mem, COUNTER_ENTRY) == Read(s.mem, COUNTER_ENTRY)
    ensures Reaches(env, text, t, Asked(s, base, at))
  {
    Places();
    ScratchIs(s.x, STUB_BASE, Read(s.mem, COUNTER_ENTRY));
    hide Exec, Addr, Placed, Reaches, EncMovz, EncLdr, EncB, Add, Sub, Write, Read, Pair, Pair1, Pushed, Stacked,
         Top;
    var t1 := t.(pc := Addr(base, at + 3), x := s.x[0 := STUB_BASE]);
    RunsMovz(env, ws[2], t);
    Follows(base, at + 2);
    One(env, text, base, at, ws, 2, t, t1);
    var t2 := t1.(pc := Addr(base, at + 4), x := Scratch(s.x, STUB_BASE, Read(s.mem, COUNTER_ENTRY)));
    RunsLdr(env, t1, 1, COUNTER_ENTRY_OFFSET, COUNTER_ENTRY, ws[3]);
    Follows(base, at + 3);
    More(env, text, base, at, ws, 3, t, t1, t2);
    hide Scratch;
    RunsBlr(env, t2);
    Follows(base, at + 4);
    More(env, text, base, at, ws, 4, t, t2, Asked(s, base, at));
  }

  /** Back from the entry: x30 is popped and the site's successor reached. */
  lemma Leaves(env: Env, text: Text, site: bv64, rt: bv8, base: bv64, at: nat, ws: seq<bv32>, s: State, r: State,
    v: bv64)
    requires IsCounterStub(site, rt, base, at, ws) && Placed(text, base, at, ws) && rt < 29
    requires r.pc == Addr(base, at + 6) && r.sp == Top(s) && r.flags == s.flags && r.vectors == s.vectors
    requires Read(r.mem, Top(s)) == s.x[30]
    requires forall i :: 0 <= i < 30 ==> r.x[i] == if i == rt as nat then v else s.x[i]
    ensures Reaches(env, text, r, s.(pc := Add(site, 4), x := Put(s.x, rt, v), mem := r.mem))
  {
    UnSub(s.sp);
    Restored(s.x, r.x, rt, v);
    hide Exec, Addr, Placed, Reaches, EncMovz, EncLdr, EncB, Add, Sub, Read, Put;
    var t := r.(pc := Addr(base, at + 7), sp := s.sp, x := r.x[30 := s.x[30]]);
    RunsPop(env, r);
    Follows(base, at + 6);
    One(env, text, base, at, ws, 6, r, t);
    RunsB(env, t, Add(site, 4), ws[7]);
    More(env, text, base, at, ws, 7, r, t, t.(pc := Add(site, 4)));
  }

  lemma Restored(x: Regs, y: Regs, rt: bv8, v: bv64)
    requires rt < 29 && forall i :: 0 <= i < 30 ==> y[i] == if i == rt as nat then v else x[i]
    ensures y[30 := x[30]] == Put(x, rt, v)
  {
    RegIsLow(rt);
  }

  lemma RegIsLow(rt: bv8)
    requires rt < 29
    ensures rt as nat < 29
  {}

  /** From the site to the two pushes. */
  lemma Starts(env: Env, text: Text, site: bv64, rt: bv8, base: bv64, at: nat, ws: seq<bv32>, s: State, t: State)
    requires s.pc == site && At(site) in text && EncB(site, Addr(base, at)) == Some(text[At(site)])
    requires IsCounterStub(site, rt, base, at, ws) && Placed(text, base, at, ws)
    requires t == s.(pc := Addr(base, at + 2), sp := Pair(Top(s)), mem := Pushed(Stacked(s)))
    ensures Reaches(env, text, s, t)
  {
    var s0 := s.(pc := Addr(base, at));
    assert Top(s0) == Top(s) by {
      hide Sub;
    }
    SamePushes(s, s0);
    assert Stacked(s).(pc := t.pc, sp := t.sp, mem := t.mem) == t by {
      hide Pushed, Sub, Pair, Write;
    }
    hide *;
    Step0(env, text, s, Addr(base, at));
    Pushes(env, text, site, rt, base, at, ws, s0);
    ReachesTrans(env, text, s, s0, t);
  }

  lemma AskedIs(s: State, base: bv64, at: nat)
    ensures var e := Asked(s, base, at);
            && e.x[30] == Addr(base, at + 5) && e.flags == s.flags && e.vectors == s.vectors
            && e.mem == Pushed(Stacked(s)) && forall i :: 2 <= i < 30 ==> e.x[i] == s.x[i]
  {
    ScratchIs(s.x, STUB_BASE, Read(s.mem, COUNTER_ENTRY));
    hide Pushed, Stacked, Top, Scratch, Read, Pair, Addr;
  }

  /** What the entry's answer leaves in place. */
  lemma Answered(env: Env, s: State, base: bv64, at: nat, rt: bv8, v: bv64)
    requires Roomy(s.sp) && var e := Asked(s, base, at); Answers(e, env.outside(e), Top(s), rt, v)
    ensures var r := env.outside(Asked(s, base, at));
            && r.pc == Addr(base, at + 6) && r.sp == Top(s) && r.flags == s.flags && r.vectors == s.vectors
            && Read(r.mem, Top(s)) == s.x[30]
            && forall i :: 0 <= i < 30 ==> r.x[i] == if i == rt as nat then v else s.x[i]
  {
    hide Pushed, Stacked, Top, Scratch, Read, Pair, Pair1, Addr, Add, Asked, Roomy;
    StackedKeeps(s);
    AskedIs(s, base, at);
    Follows(base, at + 5);
  }

  /** A hooked counter read does what `mrs` does, with the entry's answer for
      the count: the register is written, the program goes on after the site
      and every other register, sp and the flags are as they were. */
  lemma CounterRuns(env: Env, text: Text, site: bv64, rt: bv8, base: bv64, at: nat, ws: seq<bv32>, s: State, v: bv64)
    requires rt < 29 && s.pc == site && At(site) in text && EncB(site, Addr(base, at)) == Some(text[At(site)])
    requires IsCounterStub(site, rt, base, at, ws) && Placed(text, base, at, ws) && Roomy(s.sp)
    requires var e := Asked(s, base, at);
             At(e.pc) !in text && Answers(e, env.outside(e), Top(s), rt, v)
    ensures Reaches(env, text, s,
                    s.(pc := Add(site, 4), x := Put(s.x, rt, v), mem := env.outside(Asked(s, base, at)).mem))
  {
    Answered(env, s, base, at, rt, v);
    StackedKeeps(s);
    var e := Asked(s, base, at);
    var r := env.outside(e);
    Outside(env, text, e);
    hide *;
    var t := s.(pc := Addr(base, at + 2), sp := Pair(Top(s)), mem := Pushed(Stacked(s)));
    Starts(env, text, site, rt, base, at, ws, s, t);
    Asks(env, text, site, rt, base, at, ws, s, t);
    ReachesTrans(env, text, s, t, e);
    ReachesTrans(env, text, s, e, r);
    Leaves(env, text, site, rt, base, at, ws, s, r, v);
    ReachesTrans(env, text, s, r, s.(pc := Add(site, 4), x := Put(s.x, rt, v), mem := r.mem));
  }

  lemma Outside(env: Env, text: Text, e: State)
    requires At(e.pc) !in text
    ensures Reaches(env, text, e, env.outside(e))
  {
    hide Reaches;
    Once(env, text, e, env.outside(e));
  }

  lemma SamePushes(s: State, s0: State)
    requires s0 == s.(pc := s0.pc)
    ensures Stacked(s0) == Stacked(s).(pc := s0.pc) && Pushed(Stacked(s0)) == Pushed(Stacked(s))
  {
    hide Sub, Write, Pair, Pair1;
  }

  lemma Step0(env: Env, text: Text, s: State, start: bv64)
    requires At(s.pc) in text && EncB(s.pc, start) == Some(text[At(s.pc)])
    ensures Reaches(env, text, s, s.(pc := start))
  {
    hide Exec, EncB, Reaches;
    RunsB(env, s, start, text[At(s.pc)]);
    Once(env, text, s, s.(pc := start));
  }
}

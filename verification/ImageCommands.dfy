/** The load commands of the rewritten file (emit in src/macho.rs): a new
    segment in front of __LINKEDIT, every offset into __LINKEDIT moved, and
    what may be given up for want of room. */
module ImageCommands {
  import opened Wrappers
  import opened Wire
  import opened MachO

  const B_RANGE: nat := 0x800_0000
  /** What signing the file adds to its commands */
  const SIGNATURE_SIZE: nat := 16

  function RoundUp(v: nat, align: nat): nat
    requires align > 0
  {
    (v + align - 1) / align * align
  }

  function Zeros(n: nat): (b: seq<Byte>)
    ensures |b| == n
  {
    seq(n, _ => 0)
  }

  // ---- offsets into __LINKEDIT ------------------------------------------------

  predicate IsLinkeditData(cmd: nat) {
    cmd in {LC_CODE_SIGNATURE, LC_SEGMENT_SPLIT_INFO, LC_FUNCTION_STARTS, LC_DATA_IN_CODE, LC_DYLIB_CODE_SIGN_DRS,
            LC_LINKER_OPTIMIZATION_HINT, LC_DYLD_EXPORTS_TRIE, LC_DYLD_CHAINED_FIXUPS, LC_ATOM_INFO}
  }

  /** Where a command holds offsets into __LINKEDIT */
  function FieldsOf(cmd: nat): (fields: seq<nat>)
    ensures Spaced(fields, 8)
  {
    if IsLinkeditData(cmd) then [8]
    else if cmd == LC_SYMTAB then [8, 16]
    else if cmd == LC_DYSYMTAB then [32, 40, 48, 56, 64, 72]
    else if cmd == LC_DYLD_INFO || cmd == LC_DYLD_INFO_ONLY then [8, 16, 24, 32, 40]
    else []
  }

  predicate Spaced(fields: seq<nat>, from: nat) {
    && (forall i {:trigger fields[i]} :: 0 <= i < |fields| ==> fields[i] >= from)
    && (forall i, j {:trigger fields[i], fields[j]} :: 0 <= i < j < |fields| ==> fields[i] + 4 <= fields[j])
  }

  function Bump(b: seq<Byte>, at: nat, delta: nat): (r: seq<Byte>)
    ensures |r| == |b|
  {
    if Word(b, at) != 0 then Put(b, at, Le(Word(b, at) + delta, 4)) else b
  }

  function Shifted(b: seq<Byte>, fields: seq<nat>, delta: nat): (r: seq<Byte>)
    ensures |r| == |b|
    decreases |fields|
  {
    if fields == [] then b else Shifted(Bump(b, fields[0], delta), fields[1..], delta)
  }

  method ShiftOffsets(cmd: nat, bytes: seq<Byte>, delta: nat) returns (b: seq<Byte>)
    ensures b == Shifted(bytes, FieldsOf(cmd), delta)
  {
    hide Bump;
    b := bytes;
    var fields := FieldsOf(cmd);
    for i := 0 to |fields|
      invariant Shifted(bytes, fields, delta) == Shifted(b, fields[i..], delta)
    {
      assert fields[i..][1..] == fields[i + 1..];
      b := Bump(b, fields[i], delta);
    }
  }

  lemma BumpOther(b: seq<Byte>, at: nat, delta: nat, lo: nat, hi: nat)
    requires lo <= hi <= |b| && (hi <= at || at + 4 <= lo)
    ensures Bump(b, at, delta)[lo..hi] == b[lo..hi]
  {
    hide Le;
    if Word(b, at) != 0 { PutOther(b, at, Le(Word(b, at) + delta, 4), lo, hi); }
  }

  lemma BumpWord(b: seq<Byte>, at: nat, delta: nat)
    requires Word(b, at) + delta < TWO32
    ensures Word(Bump(b, at, delta), at) == if Word(b, at) == 0 then 0 else Word(b, at) + delta
  {
    if Word(b, at) != 0 { PutWord(b, at, Word(b, at) + delta); }
  }

  /** What lies between the fields stays. */
  lemma {:induction false} ShiftedOther(b: seq<Byte>, fields: seq<nat>, delta: nat, lo: nat, hi: nat)
    requires lo <= hi <= |b|
    requires forall i {:trigger fields[i]} :: 0 <= i < |fields| ==> hi <= fields[i] || fields[i] + 4 <= lo
    ensures Shifted(b, fields, delta)[lo..hi] == b[lo..hi]
    decreases |fields|
  {
    hide Bump;
    if fields != [] {
      BumpOther(b, fields[0], delta, lo, hi);
      ShiftedOther(Bump(b, fields[0], delta), fields[1..], delta, lo, hi);
    }
  }

  lemma SameWord(b: seq<Byte>, c: seq<Byte>, at: nat)
    requires |b| == |c| && (at + 4 <= |b| ==> b[at..at + 4] == c[at..at + 4])
    ensures Word(b, at) == Word(c, at)
  {
  }

  lemma SameLong(b: seq<Byte>, c: seq<Byte>, at: nat)
    requires |b| == |c| && (at + 8 <= |b| ==> b[at..at + 8] == c[at..at + 8])
    ensures Long(b, at) == Long(c, at)
  {
  }

  /** Every field moves by delta, unless it says that there is nothing. */
  lemma {:induction false} ShiftedWord(b: seq<Byte>, fields: seq<nat>, delta: nat, i: nat)
    requires i < |fields| && Spaced(fields, 8) && Word(b, fields[i]) + delta < TWO32
    ensures Word(Shifted(b, fields, delta), fields[i])
            == if Word(b, fields[i]) == 0 then 0 else Word(b, fields[i]) + delta
    decreases |fields|
  {
    hide Bump, Word;
    var c, at := Bump(b, fields[0], delta), fields[i];
    if i == 0 {
      BumpWord(b, at, delta);
      if at + 4 <= |b| { ShiftedOther(c, fields[1..], delta, at, at + 4); }
      SameWord(Shifted(c, fields[1..], delta), c, at);
    } else {
      if at + 4 <= |b| { BumpOther(b, fields[0], delta, at, at + 4); }
      SameWord(c, b, at);
      ShiftedWord(c, fields[1..], delta, i - 1);
    }
  }

  // ---- the plan -----------------------------------------------------------------

  function AbsDiff(a: nat, b: nat): nat { if a >= b then a - b else b - a }

  /** The address of the new segment: where __LINKEDIT was */
  function PlanLayout(f: File): (r: Result<nat>)
    ensures r.Ok? ==> FirstNamed(f.segments, LINKEDIT).Some? && r.value == FirstNamed(f.segments, LINKEDIT).value.vmaddr
  {
    var linkedit, text := FirstNamed(f.segments, LINKEDIT), FirstNamed(f.segments, TEXT);
    if linkedit.None? || text.None? then Err(MissingSegment)
    else
      var l, t := linkedit.value, text.value;
      if l.fileoff % PAGE != 0 || l.vmaddr % PAGE != 0 then Err(BadLayout)
      else if exists s :: s in f.segments && s.fileoff > l.fileoff then Err(BadLayout)
      else if AbsDiff(l.vmaddr, t.vmaddr + t.vmsize) >= B_RANGE then Err(BadLayout)
      else Ok(l.vmaddr)
  }

  /** __LINKEDIT as it was, the room made in front of it, and what is left of
      it without a signature */
  datatype Plan = Plan(linkedit: Segment, inserted: nat, size: nat)

  function PlanOf(f: File, stub: seq<Byte>): (r: Result<Plan>)
    ensures r.Ok? ==> FirstNamed(f.segments, LINKEDIT) == Some(r.value.linkedit)
                      && r.value.size <= r.value.linkedit.filesize && |stub| <= r.value.inserted
  {
    match PlanLayout(f)
    case Err(e) => Err(e)
    case Ok(_) =>
      var l, inserted := FirstNamed(f.segments, LINKEDIT).value, RoundUp(|stub|, PAGE);
      match DataOf(f, LC_CODE_SIGNATURE)
      case None => Ok(Plan(l, inserted, l.filesize))
      case Some((at, n)) =>
        if at < l.fileoff || at + n > l.fileoff + l.filesize then Err(BadLayout)
        else Ok(Plan(l, inserted, at - l.fileoff))
  }

  // ---- the commands ---------------------------------------------------------------

  function Padded(name: seq<Byte>, n: nat): (b: seq<Byte>)
    requires |name| <= n
    ensures |b| == n
  {
    name + Zeros(n - |name|)
  }

  const READ_EXECUTE: nat := 5

  function SegmentCommand(name: seq<Byte>, vmaddr: nat, size: nat, fileoff: nat, prot: nat): Command
    requires |name| <= 16
  {
    Command(LC_SEGMENT_64,
            Le(LC_SEGMENT_64, 4) + Le(SEGMENT_SIZE, 4) + Padded(name, 16) + Le(vmaddr, 8) + Le(size, 8) + Le(fileoff, 8)
            + Le(size, 8) + Le(prot, 4) + Le(prot, 4) + Zeros(8))
  }

  /** __LINKEDIT, moved behind the new segment */
  function Moved(b: seq<Byte>, p: Plan): (r: seq<Byte>)
    requires |b| >= SEGMENT_SIZE
    ensures |r| == |b|
  {
    Put(Put(Put(Put(b, 24, Le(p.linkedit.vmaddr + p.inserted, 8)), 32, Le(RoundUp(p.size, PAGE), 8)),
            40, Le(p.linkedit.fileoff + p.inserted, 8)), 48, Le(p.size, 8))
  }

  /** Commands that nothing needs at run time, and in which order they go */
  function Droppable(f: File, c: Command): Option<nat> {
    if c.cmd == LC_DATA_IN_CODE then
      match DataOf(f, LC_DATA_IN_CODE)
      case None => Some(0)
      case Some((_, n)) => if n == 0 then Some(0) else None
    else if c.cmd == LC_SOURCE_VERSION then Some(1)
    else if c.cmd == LC_FUNCTION_STARTS then Some(2)
    else None
  }

  predicate IsMoved(f: File, p: Plan, i: nat)
    requires i < |f.commands|
  {
    i == p.linkedit.index && |f.commands[i].bytes| >= SEGMENT_SIZE
  }

  /** What becomes of a command */
  function NewOf(f: File, p: Plan, i: nat): seq<Command>
    requires i < |f.commands|
  {
    var c := f.commands[i];
    if c.cmd == LC_CODE_SIGNATURE then []
    else if IsMoved(f, p, i) then
      (if p.inserted > 0
       then [SegmentCommand(STUB, p.linkedit.vmaddr, p.inserted, p.linkedit.fileoff, READ_EXECUTE)] else [])
      + [Command(c.cmd, Moved(c.bytes, p))]
    else [Command(c.cmd, Shifted(c.bytes, FieldsOf(c.cmd), p.inserted))]
  }

  function NewFrom(f: File, p: Plan, i: nat): seq<Command>
    requires i <= |f.commands|
    decreases |f.commands| - i
  {
    if i == |f.commands| then [] else NewOf(f, p, i) + NewFrom(f, p, i + 1)
  }

  /** A new command that may go: its place, and its rank */
  datatype Spare = Spare(at: nat, rank: nat)

  function SparesOf(f: File, p: Plan, i: nat, at: nat): seq<Spare>
    requires i < |f.commands|
  {
    var c := f.commands[i];
    if c.cmd == LC_CODE_SIGNATURE || IsMoved(f, p, i) || Droppable(f, c).None? then []
    else [Spare(at, Droppable(f, c).value)]
  }

  function SparesFrom(f: File, p: Plan, i: nat, at: nat): seq<Spare>
    requires i <= |f.commands|
    decreases |f.commands| - i
  {
    if i == |f.commands| then []
    else SparesOf(f, p, i, at) + SparesFrom(f, p, i + 1, at + |NewOf(f, p, i)|)
  }

  method AddCommand(f: File, p: Plan, i: nat, commands: seq<Command>, spares: seq<Spare>)
    returns (cs: seq<Command>, ss: seq<Spare>)
    requires i < |f.commands|
    ensures cs == commands + NewOf(f, p, i) && ss == spares + SparesOf(f, p, i, |commands|)
  {
    hide Droppable, Shifted, SegmentCommand, Moved, IsMoved, FieldsOf;
    var c := f.commands[i];
    cs, ss := commands, spares;
    if c.cmd == LC_CODE_SIGNATURE {
    } else if IsMoved(f, p, i) {
      if p.inserted > 0 {
        cs := cs + [SegmentCommand(STUB, p.linkedit.vmaddr, p.inserted, p.linkedit.fileoff, READ_EXECUTE)];
      }
      MovedLong(f, p, i);
      cs := cs + [Command(c.cmd, Moved(c.bytes, p))];
    } else {
      var rank := Droppable(f, c);
      if rank.Some? { ss := ss + [Spare(|cs|, rank.value)]; }
      var b := ShiftOffsets(c.cmd, c.bytes, p.inserted);
      cs := cs + [Command(c.cmd, b)];
    }
  }

  lemma MovedLong(f: File, p: Plan, i: nat)
    requires i < |f.commands| && IsMoved(f, p, i)
    ensures |f.commands[i].bytes| >= SEGMENT_SIZE
  {
  }

  method Assemble(f: File, p: Plan) returns (commands: seq<Command>, spares: seq<Spare>)
    ensures commands == NewFrom(f, p, 0) && spares == SparesFrom(f, p, 0, 0)
  {
    hide NewOf, SparesOf;
    commands, spares := [], [];
    for i := 0 to |f.commands|
      invariant NewFrom(f, p, 0) == commands + NewFrom(f, p, i)
      invariant SparesFrom(f, p, 0, 0) == spares + SparesFrom(f, p, i, |commands|)
    {
      ghost var was, had := commands, spares;
      commands, spares := AddCommand(f, p, i, commands, spares);
      assert was + (NewOf(f, p, i) + NewFrom(f, p, i + 1)) == commands + NewFrom(f, p, i + 1);
      assert had + (SparesOf(f, p, i, |was|) + SparesFrom(f, p, i + 1, |commands|))
        == spares + SparesFrom(f, p, i + 1, |commands|);
    }
  }

  /** How the spares lie: in order, each the place of a command that may go */
  predicate SpareOk(f: File, cs: seq<Command>, s: Spare, base: nat) {
    && base <= s.at < base + |cs| && s.rank < 3
    && match s.rank
       case 0 => cs[s.at - base].cmd == LC_DATA_IN_CODE
       case 1 => cs[s.at - base].cmd == LC_SOURCE_VERSION
       case _ => cs[s.at - base].cmd == LC_FUNCTION_STARTS
  }

  lemma SpareHere(f: File, p: Plan, i: nat, at: nat)
    requires i < |f.commands|
    ensures var n, s := NewOf(f, p, i), SparesOf(f, p, i, at);
            |s| <= 1 && (s != [] ==> SpareOk(f, n, s[0], at))
  {
    hide Shifted, SegmentCommand, Moved, IsMoved, FieldsOf;
  }

  lemma SpareIn(f: File, n: seq<Command>, rest: seq<Command>, s: Spare, at: nat)
    ensures SpareOk(f, n, s, at) ==> SpareOk(f, n + rest, s, at)
    ensures SpareOk(f, rest, s, at + |n|) ==> SpareOk(f, n + rest, s, at)
  {
  }

  predicate SparesOk(f: File, cs: seq<Command>, ss: seq<Spare>, at: nat) {
    (forall j {:trigger ss[j]} :: 0 <= j < |ss| ==> SpareOk(f, cs, ss[j], at)) && Ascending(ss)
  }

  lemma {:induction false} SparesLie(f: File, p: Plan, i: nat, at: nat)
    requires i <= |f.commands|
    ensures SparesOk(f, NewFrom(f, p, i), SparesFrom(f, p, i, at), at)
    decreases |f.commands| - i
  {
    hide NewOf, SparesOf, SpareOk;
    if i < |f.commands| {
      var n, s := NewOf(f, p, i), SparesOf(f, p, i, at);
      var rest, more := NewFrom(f, p, i + 1), SparesFrom(f, p, i + 1, at + |n|);
      SparesLie(f, p, i + 1, at + |n|);
      SpareHere(f, p, i, at);
      Joined(f, n, rest, s, more, at);
    }
  }

  lemma Joined(f: File, n: seq<Command>, rest: seq<Command>, s: seq<Spare>, more: seq<Spare>, at: nat)
    requires |s| <= 1 && (s != [] ==> SpareOk(f, n, s[0], at)) && SparesOk(f, rest, more, at + |n|)
    ensures SparesOk(f, n + rest, s + more, at)
  {
    var ss := s + more;
    forall j {:trigger ss[j]} | 0 <= j < |ss|
      ensures SpareOk(f, n + rest, ss[j], at) && (if j < |s| then ss[j].at < at + |n| else ss[j].at >= at + |n|)
    {
      SpareIn(f, n, rest, ss[j], at);
      if j >= |s| { assert ss[j] == more[j - |s|]; }
    }
    forall j, k {:trigger ss[j], ss[k]} | 0 <= j < k < |ss| ensures ss[j].at < ss[k].at {
      if j >= |s| { assert ss[j] == more[j - |s|] && ss[k] == more[k - |s|]; }
    }
  }

  // ---- making room ----------------------------------------------------------------

  /** The least offset of a section that is in the file */
  function FirstSection(ss: seq<Section>): Option<nat> {
    if ss == [] then None
    else Nearer(if ss[0].offset != 0 then Some(ss[0].offset) else None, FirstSection(ss[1..]))
  }

  function FirstOffset(segs: seq<Segment>): Option<nat> {
    if segs == [] then None else Nearer(FirstSection(segs[0].sections), FirstOffset(segs[1..]))
  }

  function Nearer(a: Option<nat>, b: Option<nat>): Option<nat> {
    if a.None? then b else if b.None? || a.value <= b.value then a else b
  }

  /** What the header and the commands may grow to */
  function Room(f: File): nat {
    var end := HEADER_SIZE + f.header.sizeofcmds;
    match FirstOffset(f.segments)
    case None => f.header.sizeofcmds
    case Some(first) => if first >= end then first - HEADER_SIZE else f.header.sizeofcmds
  }

  /** No section starts before the room ends, unless one started too early
      before. */
  lemma {:induction false} RoomIsFree(f: File, segs: seq<Segment>, i: nat, j: nat)
    requires i < |segs| && j < |segs[i].sections| && segs[i].sections[j].offset != 0
    ensures FirstOffset(segs).Some? && FirstOffset(segs).value <= segs[i].sections[j].offset
    decreases |segs|
  {
    if i == 0 {
      FirstSectionIs(segs[0].sections, j);
    } else {
      RoomIsFree(f, segs[1..], i - 1, j);
    }
  }

  lemma {:induction false} FirstSectionIs(ss: seq<Section>, j: nat)
    requires j < |ss| && ss[j].offset != 0
    ensures FirstSection(ss).Some? && FirstSection(ss).value <= ss[j].offset
    decreases |ss|
  {
    if j > 0 { FirstSectionIs(ss[1..], j - 1); }
  }

  function WithRank(ss: seq<Spare>, rank: nat): seq<Spare> {
    if ss == [] then [] else (if ss[0].rank == rank then [ss[0]] else []) + WithRank(ss[1..], rank)
  }

  /** The spares in the order they go: by rank, and in file order within one */
  function ByRank(ss: seq<Spare>): seq<Spare> { WithRank(ss, 0) + WithRank(ss, 1) + WithRank(ss, 2) }

  function SizeAt(cs: seq<Command>, dropped: seq<Spare>): nat
    requires forall j {:trigger dropped[j]} :: 0 <= j < |dropped| ==> dropped[j].at < |cs|
    decreases |dropped|
  {
    if dropped == [] then 0
    else SizeAt(cs, dropped[..|dropped| - 1]) + |cs[dropped[|dropped| - 1].at].bytes|
  }

  predicate InRange(cs: seq<Command>, ss: seq<Spare>) { forall j {:trigger ss[j]} :: 0 <= j < |ss| ==> ss[j].at < |cs| }

  /** Without the first k of the spares the commands fit, the signature to come
      included. */
  predicate Fits(cs: seq<Command>, ranked: seq<Spare>, k: nat, room: nat)
    requires k <= |ranked| && InRange(cs, ranked)
  {
    Size(cs) + SIGNATURE_SIZE <= room + SizeAt(cs, ranked[..k])
  }

  /** As many of the spares as it takes, and no more */
  method ChooseDrops(cs: seq<Command>, ranked: seq<Spare>, room: nat) returns (k: nat)
    requires InRange(cs, ranked)
    ensures k <= |ranked| && (k < |ranked| ==> Fits(cs, ranked, k, room))
    ensures forall j: nat {:trigger Fits(cs, ranked, j, room)} :: j < k ==> !Fits(cs, ranked, j, room)
  {
    k := 0;
    while k < |ranked| && !Fits(cs, ranked, k, room)
      invariant k <= |ranked|
      invariant forall j: nat {:trigger Fits(cs, ranked, j, room)} :: j < k ==> !Fits(cs, ranked, j, room)
    {
      k := k + 1;
    }
  }

  function Places(ss: seq<Spare>): set<nat> { set j: nat | j < |ss| :: ss[j].at }

  /** The commands but those at the places dropped */
  function Without(cs: seq<Command>, dropped: set<nat>): seq<Command> {
    if cs == [] then []
    else Without(cs[..|cs| - 1], dropped) + (if |cs| - 1 in dropped then [] else [cs[|cs| - 1]])
  }

  /** Dropped commands are taken out, the last first. */
  method Drop(cs: seq<Command>, dropped: set<nat>) returns (kept: seq<Command>)
    ensures kept == Without(cs, dropped)
  {
    kept := cs;
    var i := |cs|;
    ghost var tail := [];
    assert cs[..i] == cs;
    while i > 0
      invariant i <= |cs| && kept == cs[..i] + tail
      invariant Without(cs[..i], dropped) + tail == Without(cs, dropped)
    {
      i := i - 1;
      WithoutLast(cs, i, dropped);
      if i in dropped {
        kept := kept[..i] + kept[i + 1..];
      } else {
        tail := [cs[i]] + tail;
      }
    }
  }

  lemma WithoutLast(cs: seq<Command>, i: nat, dropped: set<nat>)
    requires i < |cs|
    ensures Without(cs[..i + 1], dropped) == Without(cs[..i], dropped) + (if i in dropped then [] else [cs[i]])
    ensures cs[..i + 1] == cs[..i] + [cs[i]]
  {
    assert cs[..i + 1][..i] == cs[..i] && cs[..i + 1][i] == cs[i];
  }

  // ---- what dropping comes to ------------------------------------------------------------

  lemma {:induction false} SizeLast(cs: seq<Command>)
    requires cs != []
    ensures Size(cs) == Size(cs[..|cs| - 1]) + |cs[|cs| - 1].bytes|
    decreases |cs|
  {
    if |cs| > 1 {
      SizeLast(cs[1..]);
      assert cs[1..][..|cs| - 2] == cs[..|cs| - 1][1..];
    }
  }

  lemma {:induction false} SizePlus(cs: seq<Command>, ds: seq<Command>)
    ensures Size(cs + ds) == Size(cs) + Size(ds)
    decreases |cs|
  {
    if cs == [] {
      assert cs + ds == ds;
    } else {
      assert (cs + ds)[1..] == cs[1..] + ds;
      SizePlus(cs[1..], ds);
    }
  }

  /** One more is dropped. */
  lemma {:induction false} WithoutOne(cs: seq<Command>, dropped: set<nat>, at: nat)
    requires at !in dropped
    ensures Size(Without(cs, dropped + {at})) + (if at < |cs| then |cs[at].bytes| else 0) == Size(Without(cs, dropped))
    decreases |cs|
  {
    if cs != [] {
      var n := |cs| - 1;
      WithoutOne(cs[..n], dropped, at);
      SizePlus(Without(cs[..n], dropped), if n in dropped then [] else [cs[n]]);
      SizePlus(Without(cs[..n], dropped + {at}), if n in dropped + {at} then [] else [cs[n]]);
      assert Size([cs[n]]) == |cs[n].bytes| + Size([]);
    }
  }

  lemma {:induction false} WithoutNone(cs: seq<Command>)
    ensures Without(cs, {}) == cs
    decreases |cs|
  {
    if cs != [] { WithoutNone(cs[..|cs| - 1]); }
  }

  lemma PlacesLast(ss: seq<Spare>)
    requires ss != [] && forall j, k {:trigger ss[j], ss[k]} :: 0 <= j < k < |ss| ==> ss[j].at != ss[k].at
    ensures var n := |ss| - 1; Places(ss) == Places(ss[..n]) + {ss[n].at} && ss[n].at !in Places(ss[..n])
  {
    var n := |ss| - 1;
    var rest := ss[..n];
    forall x | x in Places(ss) ensures x in Places(rest) + {ss[n].at} {
      var j: nat :| j < |ss| && ss[j].at == x;
      if j < n { assert rest[j].at == x; }
    }
    forall x | x in Places(rest) ensures x in Places(ss) && x != ss[n].at {
      var j: nat :| j < |rest| && rest[j].at == x;
      assert ss[j].at == x;
    }
    assert ss[n].at in Places(ss);
  }

  /** What is kept is what there was less what was dropped. */
  lemma {:induction false} KeptSize(cs: seq<Command>, ss: seq<Spare>)
    requires InRange(cs, ss) && forall j, k {:trigger ss[j], ss[k]} :: 0 <= j < k < |ss| ==> ss[j].at != ss[k].at
    ensures Size(Without(cs, Places(ss))) + SizeAt(cs, ss) == Size(cs)
    decreases |ss|
  {
    if ss == [] {
      assert Places(ss) == {};
      WithoutNone(cs);
    } else {
      var n := |ss| - 1;
      var rest := ss[..n];
      KeptSize(cs, rest);
      PlacesLast(ss);
      WithoutOne(cs, Places(rest), ss[n].at);
    }
  }

  /** Every command kept was there, and every other one in its turn. */
  lemma {:induction false} KeptIsOf(cs: seq<Command>, dropped: set<nat>, c: Command)
    requires c in Without(cs, dropped)
    ensures exists i: nat :: i < |cs| && i !in dropped && cs[i] == c
    decreases |cs|
  {
    var n := |cs| - 1;
    if c in Without(cs[..n], dropped) {
      KeptIsOf(cs[..n], dropped, c);
      var i: nat :| i < |cs[..n]| && i !in dropped && cs[..n][i] == c;
      assert cs[i] == c;
    } else {
      assert cs[n] == c;
    }
  }

  lemma {:induction false} KeptAll(cs: seq<Command>, dropped: set<nat>, i: nat)
    requires i < |cs| && i !in dropped
    ensures cs[i] in Without(cs, dropped)
    decreases |cs|
  {
    var n := |cs| - 1;
    if i < n { KeptAll(cs[..n], dropped, i); }
  }

  // ---- ranks ---------------------------------------------------------------------

  predicate Ascending(ss: seq<Spare>) {
    forall j, k {:trigger ss[j], ss[k]} :: 0 <= j < k < |ss| ==> ss[j].at < ss[k].at
  }

  lemma {:induction false} WithRankHas(ss: seq<Spare>, rank: nat, s: Spare)
    ensures s in WithRank(ss, rank) <==> s in ss && s.rank == rank
    decreases |ss|
  {
    if ss != [] { WithRankHas(ss[1..], rank, s); }
  }

  lemma {:induction false} WithRankAscends(ss: seq<Spare>, rank: nat)
    requires Ascending(ss)
    ensures Ascending(WithRank(ss, rank))
    decreases |ss|
  {
    if ss != [] {
      WithRankAscends(ss[1..], rank);
      var rest, r := WithRank(ss[1..], rank), WithRank(ss, rank);
      if ss[0].rank == rank {
        forall k | 0 < k < |r| ensures ss[0].at < r[k].at {
          WithRankHas(ss[1..], rank, r[k]);
          assert r[k] == rest[k - 1];
          var i: nat :| i < |ss[1..]| && ss[1..][i] == r[k];
          Further(ss, 0, i + 1);
        }
      }
    }
  }

  predicate Ordered(ss: seq<Spare>, r: seq<Spare>, lo: nat, hi: nat) {
    && (forall j {:trigger r[j]} :: 0 <= j < |r| ==> r[j] in ss && lo <= r[j].rank < hi)
    && (forall s {:trigger s in r} :: s in ss && lo <= s.rank < hi ==> s in r)
    && (forall j, k {:trigger r[j], r[k]} :: 0 <= j < k < |r| ==> r[j].rank <= r[k].rank && r[j].at != r[k].at)
  }

  lemma OneRank(ss: seq<Spare>, rank: nat)
    requires Ascending(ss)
    ensures Ordered(ss, WithRank(ss, rank), rank, rank + 1)
  {
    hide WithRank;
    var r := WithRank(ss, rank);
    WithRankAscends(ss, rank);
    forall s ensures s in r <==> s in ss && s.rank == rank { WithRankHas(ss, rank, s); }
    forall j {:trigger r[j]} | 0 <= j < |r| ensures r[j] in ss && r[j].rank == rank { assert r[j] in r; }
  }

  lemma Ranks(ss: seq<Spare>, a: seq<Spare>, b: seq<Spare>, lo: nat, mid: nat, hi: nat)
    requires Ascending(ss) && lo <= mid <= hi && Ordered(ss, a, lo, mid) && Ordered(ss, b, mid, hi)
    ensures Ordered(ss, a + b, lo, hi)
  {
    var r := a + b;
    forall j, k {:trigger r[j], r[k]} | 0 <= j < k < |r| ensures r[j].rank <= r[k].rank && r[j].at != r[k].at {
      if j < |a| <= k {
        assert r[j] == a[j] && r[k] == b[k - |a|];
        if r[j].at == r[k].at { SamePlace(ss, r[j], r[k]); }
      } else if j >= |a| {
        assert r[j] == b[j - |a|] && r[k] == b[k - |a|];
      } else {
        assert r[j] == a[j] && r[k] == a[k];
      }
    }
  }

  /** All spares go in order of rank, none twice. */
  lemma ByRankIs(ss: seq<Spare>)
    requires Ascending(ss)
    ensures Ordered(ss, ByRank(ss), 0, 3)
  {
    hide WithRank, Ordered, Ascending;
    OneRank(ss, 0);
    OneRank(ss, 1);
    OneRank(ss, 2);
    Ranks(ss, WithRank(ss, 0), WithRank(ss, 1), 0, 1, 2);
    Ranks(ss, WithRank(ss, 0) + WithRank(ss, 1), WithRank(ss, 2), 0, 2, 3);
  }

  lemma SamePlace(ss: seq<Spare>, s: Spare, t: Spare)
    requires Ascending(ss) && s in ss && t in ss && s.at == t.at
    ensures s == t
  {
    var j: nat :| j < |ss| && ss[j] == s;
    var k: nat :| k < |ss| && ss[k] == t;
    if j < k {
      Further(ss, j, k);
    } else if k < j {
      Further(ss, k, j);
    }
  }

  lemma Further(ss: seq<Spare>, j: nat, k: nat)
    requires Ascending(ss) && j < k < |ss|
    ensures ss[j].at < ss[k].at
  {
  }
}

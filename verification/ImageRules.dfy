/** The Mach-O reader and writer (src/macho.rs) field by field: what is read
    from where, when the layout is supported, how much room there is, and which
    commands may be given up for want of it. */
module ImageRules {
  import opened Wrappers
  import opened Wire
  import opened MachO
  import opened ImageCommands
  import opened ImageWriter
  import opened ImageReads

  // ---- reading ----------------------------------------------------------------

  /** A file that is read is a 64-bit Mach-O executable for arm64; its header
      counts the commands, which start at byte 32, and says how long they are. */
  lemma HeaderLayout(data: seq<Byte>)
    requires Parsed(data).Ok?
    ensures var f := Parsed(data).value;
            && |data| >= 32 && f.data == data
            && FromLe(data[0..4]) == 0xFEED_FACF && FromLe(data[4..8]) == 0x100_000C && FromLe(data[12..16]) == 2
            && f.header == Header(0x100_000C, 2, FromLe(data[16..20]), FromLe(data[20..24]))
            && |f.commands| == f.header.ncmds
            && (f.commands != [] ==> CommandHere(data, 32, f.commands[0]))
  {
    hide FromLe, ParseSegment, SegmentsOf;
    var n := HeaderOf(data).ncmds;
    WalkLong(data, 32, n, 0);
    if n > 0 {
      WalkStep(data, 32, n, 0);
      hide Walk;
      FirstHere(data, 32, 0);
    }
  }

  lemma {:induction false} WalkLong(data: seq<Byte>, at: nat, n: nat, index: nat)
    requires Walk(data, at, n, index).Ok?
    ensures |Walk(data, at, n, index).value| == n
    decreases n
  {
    hide CommandAt;
    if n > 0 { WalkLong(data, at + |CommandAt(data, at, index).value.bytes|, n - 1, index + 1); }
  }

  /** A command says what it is and how long it is. */
  predicate CommandHere(data: seq<Byte>, at: nat, c: Command) {
    at + 8 <= |data| && c.cmd == FromLe(data[at..at + 4])
    && at + FromLe(data[at + 4..at + 8]) <= |data| && c.bytes == data[at..at + FromLe(data[at + 4..at + 8])]
  }

  lemma FirstHere(data: seq<Byte>, at: nat, index: nat)
    requires CommandAt(data, at, index).Ok?
    ensures CommandHere(data, at, CommandAt(data, at, index).value)
  {
    hide FromLe, ParseSegment;
  }

  /** Each command starts where the one before it ends. */
  lemma {:induction false} NextHere(data: seq<Byte>, at: nat, n: nat, index: nat, i: nat)
    requires Walk(data, at, n, index).Ok? && i < n
    ensures |Walk(data, at, n, index).value| == n
    ensures var cs := Walk(data, at, n, index).value; CommandHere(data, at + Size(cs[..i]), cs[i])
    decreases n
  {
    hide CommandAt, CommandHere;
    WalkLong(data, at, n, index);
    WalkStep(data, at, n, index);
    var c := CommandAt(data, at, index).value;
    var cs := Walk(data, at, n, index).value;
    if i == 0 {
      FirstHere(data, at, index);
      assert cs[..0] == [];
    } else {
      NextHere(data, at + |c.bytes|, n - 1, index + 1, i - 1);
      assert cs[..i][1..] == cs[1..][..i - 1];
    }
  }

  /** The fields of a segment command, and of its sections behind it */
  lemma SegmentLayout(index: nat, b: seq<Byte>)
    ensures ParseSegment(index, b).Some? <==> |b| >= 72 && 72 + 80 * FromLe(b[64..68]) <= |b|
    ensures ParseSegment(index, b).Some? ==>
              var s := ParseSegment(index, b).value;
              && s.index == index && s.name == Name(b[8..24])
              && s.vmaddr == FromLe(b[24..32]) && s.vmsize == FromLe(b[32..40])
              && s.fileoff == FromLe(b[40..48]) && s.filesize == FromLe(b[48..56]) && s.prot == FromLe(b[60..64])
              && |s.sections| == FromLe(b[64..68])
              && forall j {:trigger s.sections[j]} :: 0 <= j < |s.sections| ==>
                   var at := 72 + 80 * j;
                   at + 80 <= |b| && SectionIs(s.sections[j], b[at..at + 80])
  {
    hide FromLe, Name, ParseSection;
    if ParseSegment(index, b).Some? {
      var s := ParseSegment(index, b).value;
      forall j {:trigger s.sections[j]} | 0 <= j < |s.sections|
        ensures 72 + 80 * j + 80 <= |b| && SectionIs(s.sections[j], b[72 + 80 * j..72 + 80 * j + 80])
      {
        SectionWithin(Word(b, 64), j, |b|);
        SectionRead(b[72 + 80 * j..72 + 80 * j + 80]);
      }
    }
  }

  predicate SectionIs(s: Section, b: seq<Byte>)
    requires |b| == 80
  {
    s.name == Name(b[..16]) && s.addr == FromLe(b[32..40]) && s.size == FromLe(b[40..48])
      && s.offset == FromLe(b[48..52])
  }

  lemma SectionRead(b: seq<Byte>)
    requires |b| == 80
    ensures SectionIs(ParseSection(b), b)
  {
    hide FromLe, Name;
  }

  /** A name is what stands in front of the first zero byte. */
  lemma {:induction false} NameIs(b: seq<Byte>)
    ensures var n := Name(b);
            && n <= b && (forall i :: 0 <= i < |n| ==> n[i] != 0) && (|n| < |b| ==> b[|n|] == 0)
  {
    if b != [] && b[0] != 0 { NameIs(b[1..]); }
  }

  // ---- lookups ------------------------------------------------------------------

  /** The first segment of that name */
  lemma {:induction false} FirstNamedIs(segs: seq<Segment>, name: seq<Byte>)
    ensures match FirstNamed(segs, name)
            case None => forall i :: 0 <= i < |segs| ==> segs[i].name != name
            case Some(s) =>
              exists i :: 0 <= i < |segs| && segs[i] == s && s.name == name && forall j :: 0 <= j < i ==>
                segs[j].name != name
    decreases |segs|
  {
    if segs != [] && segs[0].name != name {
      FirstNamedIs(segs[1..], name);
      var r := FirstNamed(segs[1..], name);
      if r.Some? {
        var i :| 0 <= i < |segs[1..]| && segs[1..][i] == r.value && r.value.name == name
                 && forall j :: 0 <= j < i ==> segs[1..][j].name != name;
        forall j | 0 <= j < i + 1 ensures segs[j].name != name { if j > 0 { assert segs[1..][j - 1] == segs[j]; } }
        assert segs[i + 1] == r.value;
      } else {
        forall i | 0 <= i < |segs| ensures segs[i].name != name { if i > 0 { assert segs[1..][i - 1] == segs[i]; } }
      }
    } else if segs != [] {
      assert segs[0] == FirstNamed(segs, name).value;
    }
  }

  /** The first command of that kind says where its data is, in its third and
      fourth words. */
  lemma {:induction false} DataIs(cs: seq<Command>, cmd: nat)
    ensures match FirstCommand(cs, cmd)
            case None => forall i :: 0 <= i < |cs| ==> cs[i].cmd != cmd
            case Some(c) =>
              exists i :: 0 <= i < |cs| && cs[i] == c && c.cmd == cmd && forall j :: 0 <= j < i ==> cs[j].cmd != cmd
    decreases |cs|
  {
    if cs != [] && cs[0].cmd != cmd {
      DataIs(cs[1..], cmd);
      var r := FirstCommand(cs[1..], cmd);
      if r.Some? {
        var i :| 0 <= i < |cs[1..]| && cs[1..][i] == r.value && r.value.cmd == cmd
                 && forall j :: 0 <= j < i ==> cs[1..][j].cmd != cmd;
        forall j | 0 <= j < i + 1 ensures cs[j].cmd != cmd { if j > 0 { assert cs[1..][j - 1] == cs[j]; } }
        assert cs[i + 1] == r.value;
      } else {
        forall i | 0 <= i < |cs| ensures cs[i].cmd != cmd { if i > 0 { assert cs[1..][i - 1] == cs[i]; } }
      }
    } else if cs != [] {
      assert cs[0] == FirstCommand(cs, cmd).value;
    }
  }

  /** ... its data's place and size */
  lemma DataPlace(f: File, cmd: nat)
    ensures match FirstCommand(f.commands, cmd)
            case None => DataOf(f, cmd) == None
            case Some(c) =>
              DataOf(f, cmd) == if |c.bytes| < 16 then None else Some((FromLe(c.bytes[8..12]), FromLe(c.bytes[12..16])))
  {
    hide FromLe, FirstCommand;
  }

  /** An address is in the file where the first segment that has it in memory,
      and has anything in the file, says; behind what that has it is not. */
  lemma {:induction false} OffsetIs(segs: seq<Segment>, addr: nat)
    ensures match FirstCovering(segs, addr)
            case None => forall i :: 0 <= i < |segs| ==> !Spans(segs[i], addr)
            case Some(s) =>
              exists i :: 0 <= i < |segs| && segs[i] == s && Spans(s, addr) && forall j :: 0 <= j < i ==>
                !Spans(segs[j], addr)
    decreases |segs|
  {
    if segs != [] && !Covers(segs[0], addr) {
      OffsetIs(segs[1..], addr);
      var r := FirstCovering(segs[1..], addr);
      if r.Some? {
        var i :| 0 <= i < |segs[1..]| && segs[1..][i] == r.value && Spans(r.value, addr)
                 && forall j :: 0 <= j < i ==> !Spans(segs[1..][j], addr);
        forall j | 0 <= j < i + 1 ensures !Spans(segs[j], addr) { if j > 0 { assert segs[1..][j - 1] == segs[j]; } }
        assert segs[i + 1] == r.value;
      } else {
        forall i | 0 <= i < |segs| ensures !Spans(segs[i], addr) { if i > 0 { assert segs[1..][i - 1] == segs[i]; } }
      }
    } else if segs != [] {
      assert segs[0] == FirstCovering(segs, addr).value && Spans(segs[0], addr);
    }
  }

  predicate Spans(s: Segment, addr: nat) { s.filesize > 0 && s.vmaddr <= addr < s.vmaddr + s.vmsize }

  lemma OffsetPlace(f: File, addr: nat)
    ensures match FirstCovering(f.segments, addr)
            case None => OffsetOf(f, addr) == None
            case Some(s) =>
              OffsetOf(f, addr)
              == if addr < s.vmaddr + s.filesize then Some(s.fileoff + (addr - s.vmaddr)) else None
  {
    hide FirstCovering;
  }

  // ---- the layout --------------------------------------------------------------------

  /** The layout is supported when there are both segments, __LINKEDIT starts on
      a page of 16 KB in the file and in memory, no segment starts behind it in
      the file, it is within a branch of the end of __TEXT, and a signature, if
      there is one, lies in it. Room is made for the new segment in whole pages,
      and __LINKEDIT ends where the signature began. */
  lemma PlanRule(f: File, stub: seq<Byte>)
    ensures var l, t := FirstNamed(f.segments, LINKEDIT), FirstNamed(f.segments, TEXT);
            if l.None? || t.None? then PlanOf(f, stub) == Err(MissingSegment)
            else
              var at, gap := l.value.fileoff, l.value.vmaddr - (t.value.vmaddr + t.value.vmsize);
              var s := DataOf(f, 0x1D);
              if at % 0x4000 != 0 || l.value.vmaddr % 0x4000 != 0 || gap <= -0x800_0000 || gap >= 0x800_0000
                 || (exists i :: 0 <= i < |f.segments| && f.segments[i].fileoff > at)
                 || (s.Some? && (s.value.0 < at || s.value.0 + s.value.1 > at + l.value.filesize))
              then PlanOf(f, stub) == Err(BadLayout)
              else
                && PlanOf(f, stub).Ok?
                && var p := PlanOf(f, stub).value;
                   && p.linkedit == l.value && p.size == (if s.Some? then s.value.0 - at else l.value.filesize)
                   && p.inserted % 0x4000 == 0 && |stub| <= p.inserted < |stub| + 0x4000
  {
    hide FirstNamed, DataOf, RoundUp;
    InPages(|stub|);
    var l := FirstNamed(f.segments, LINKEDIT);
    if l.Some? && (exists s :: s in f.segments && s.fileoff > l.value.fileoff) {
      var s :| s in f.segments && s.fileoff > l.value.fileoff;
      var i :| 0 <= i < |f.segments| && f.segments[i] == s;
    }
  }

  /** The least whole number of pages that holds as much */
  lemma InPages(n: nat)
    ensures var r := RoundUp(n, 0x4000); r % 0x4000 == 0 && n <= r < n + 0x4000
  {
  }

  /** The bytes of the new segment's command: read and execute, no sections */
  lemma StubCommand(vmaddr: nat, size: nat, fileoff: nat)
    requires vmaddr < TWO64 && size < TWO64 && fileoff < TWO64
    ensures var c := SegmentCommand(STUB, vmaddr, size, fileoff, READ_EXECUTE);
            && c.cmd == 0x19 && |c.bytes| == 72 && FromLe(c.bytes[0..4]) == 0x19 && FromLe(c.bytes[4..8]) == 72
            && c.bytes[8..24] == [95, 95, 83, 84, 85, 66, 0, 0, 0, 0, 0, 0, 0, 0, 0, 0]
            && FromLe(c.bytes[24..32]) == vmaddr && FromLe(c.bytes[32..40]) == FromLe(c.bytes[48..56]) == size
            && FromLe(c.bytes[40..48]) == fileoff
            && FromLe(c.bytes[56..60]) == FromLe(c.bytes[60..64]) == 5 && FromLe(c.bytes[64..68]) == 0
  {
    SegmentPieces(STUB, vmaddr, size, fileoff, READ_EXECUTE);
    StubName();
    var b := SegmentCommand(STUB, vmaddr, size, fileoff, READ_EXECUTE).bytes;
    hide *;
    WrittenWord(b, 0, 0x19);
    WrittenWord(b, 4, 72);
    WrittenLong(b, 24, vmaddr);
    WrittenLong(b, 32, size);
    WrittenLong(b, 40, fileoff);
    WrittenLong(b, 48, size);
    WrittenWord(b, 56, 5);
    WrittenWord(b, 60, 5);
    AllZeros(4);
  }

  /** What becomes of a command: a signature goes; __LINKEDIT is moved, and the
      new segment put in front of it unless it would be empty; any other stays
      one command. */
  lemma WhatBecomes(f: File, p: Plan, i: nat)
    requires i < |f.commands|
    ensures f.commands[i].cmd == 0x1D ==> NewOf(f, p, i) == []
    ensures f.commands[i].cmd != 0x1D && i == p.linkedit.index && |f.commands[i].bytes| >= 72 ==>
              NewOf(f, p, i)
              == (if p.inserted == 0 then []
                  else [SegmentCommand(STUB, p.linkedit.vmaddr, p.inserted, p.linkedit.fileoff, READ_EXECUTE)])
                 + [Command(f.commands[i].cmd, Moved(f.commands[i].bytes, p))]
    ensures f.commands[i].cmd != 0x1D && i != p.linkedit.index ==> |NewOf(f, p, i)| == 1
  {
    hide Moved, SegmentCommand, Shifted;
  }

  lemma StubName()
    ensures Padded(STUB, 16) == [95, 95, 83, 84, 85, 66, 0, 0, 0, 0, 0, 0, 0, 0, 0, 0]
    ensures forall a: nat, b: nat, c: nat {:trigger SegmentCommand(STUB, a, b, c, READ_EXECUTE)} ::
              SegmentCommand(STUB, a, b, c, READ_EXECUTE).cmd == 0x19
  {
    hide Le;
  }

  lemma WrittenWord(b: seq<Byte>, at: nat, v: nat)
    requires at + 4 <= |b| && b[at..at + 4] == Le(v, 4) && v < TWO32
    ensures FromLe(b[at..at + 4]) == v
  {
    Widths();
    LeRoundTrip(v, 4);
  }

  lemma WrittenLong(b: seq<Byte>, at: nat, v: nat)
    requires at + 8 <= |b| && b[at..at + 8] == Le(v, 8) && v < TWO64
    ensures FromLe(b[at..at + 8]) == v
  {
    Widths();
    LeRoundTrip(v, 8);
  }

  /** What is not such a file is refused, and why. */
  lemma HeaderRefused(data: seq<Byte>)
    ensures |data| < 4 ==> Parsed(data) == Err(Truncated)
    ensures |data| >= 4 && FromLe(data[0..4]) != 0xFEED_FACF ==> Parsed(data) == Err(BadMagic(FromLe(data[0..4])))
    ensures |data| >= 4 && FromLe(data[0..4]) == 0xFEED_FACF && |data| < 32 ==> Parsed(data) == Err(Truncated)
    ensures |data| >= 32 && FromLe(data[0..4]) == 0xFEED_FACF
            && (FromLe(data[4..8]) != 0x100_000C || FromLe(data[12..16]) != 2) ==>
                 Parsed(data) == Err(NotArm64Executable)
  {
    hide FromLe, Walk, SegmentsOf;
  }

  // ---- room, and what is given up for it ------------------------------------------------

  /** `o` is where the first section in the file starts. */
  ghost predicate FirstStart(segs: seq<Segment>, o: nat) {
    && (exists i, j :: 0 <= i < |segs| && 0 <= j < |segs[i].sections| && segs[i].sections[j].offset == o) && o != 0
    && forall i, j {:trigger segs[i].sections[j]} ::
         0 <= i < |segs| && 0 <= j < |segs[i].sections| && segs[i].sections[j].offset != 0 ==>
           o <= segs[i].sections[j].offset
  }

  lemma {:induction false} SectionFound(ss: seq<Section>)
    ensures FirstSection(ss).Some? ==>
              exists j :: 0 <= j < |ss| && ss[j].offset == FirstSection(ss).value && ss[j].offset != 0
  {
    if ss != [] {
      SectionFound(ss[1..]);
      if FirstSection(ss[1..]).Some? {
        var j :| 0 <= j < |ss[1..]| && ss[1..][j].offset == FirstSection(ss[1..]).value && ss[1..][j].offset != 0;
        assert ss[j + 1] == ss[1..][j];
      }
    }
  }

  lemma {:induction false} OffsetFound(segs: seq<Segment>)
    ensures FirstOffset(segs).Some? ==>
              FirstOffset(segs).value != 0
              && exists i, j :: 0 <= i < |segs| && 0 <= j < |segs[i].sections|
                                && segs[i].sections[j].offset == FirstOffset(segs).value
  {
    hide FirstSection;
    if segs != [] {
      OffsetFound(segs[1..]);
      SectionFound(segs[0].sections);
      var rest := FirstOffset(segs[1..]);
      if rest.Some? {
        var i, j :| 0 <= i < |segs[1..]| && 0 <= j < |segs[1..][i].sections|
                    && segs[1..][i].sections[j].offset == rest.value;
        assert segs[i + 1] == segs[1..][i] && segs[i + 1].sections[j].offset == rest.value;
      }
      var first := FirstSection(segs[0].sections);
      if first.Some? {
        var j :| 0 <= j < |segs[0].sections| && segs[0].sections[j].offset == first.value && first.value != 0;
        assert segs[0].sections[j].offset == first.value;
      }
    }
  }

  /** The commands may grow up to the first section behind them, if there is
      one and it lies behind them; else not at all. */
  lemma RoomRule(f: File)
    ensures (exists o: nat :: FirstStart(f.segments, o) && o >= 32 + f.header.sizeofcmds) ==>
              FirstStart(f.segments, 32 + Room(f))
    ensures !(exists o: nat :: FirstStart(f.segments, o) && o >= 32 + f.header.sizeofcmds) ==>
              Room(f) == f.header.sizeofcmds
  {
    OffsetFound(f.segments);
    var first := FirstOffset(f.segments);
    forall i, j {:trigger f.segments[i].sections[j]} | 0 <= i < |f.segments| && 0 <= j < |f.segments[i].sections|
      && f.segments[i].sections[j].offset != 0
      ensures first.Some? && first.value <= f.segments[i].sections[j].offset
    {
      RoomIsFree(f, f.segments, i, j);
    }
    hide FirstOffset;
    if first.Some? { assert FirstStart(f.segments, first.value); }
  }

  /** Whether the run time does without: an empty table of data in code (or one
      too short to say), the source version, function starts */
  predicate MayGo(f: File, cmd: nat) {
    || (cmd == 0x29 && (DataOf(f, 0x29).None? || DataOf(f, 0x29).value.1 == 0))
    || cmd == 0x2A || cmd == 0x26
  }

  lemma DroppableIs(f: File, c: Command)
    ensures Droppable(f, c).Some? <==> MayGo(f, c.cmd)
  {
    hide DataOf;
  }

  /** What may go is, of the new commands, every one of those kinds. */
  lemma {:induction false} SparesAreAll(f: File, p: Plan, i: nat, at: nat, x: nat)
    requires i <= |f.commands| && at <= x < at + |NewFrom(f, p, i)|
    requires p.linkedit.index < |f.commands| ==> f.commands[p.linkedit.index].cmd == 0x19
    ensures (exists s :: s in SparesFrom(f, p, i, at) && s.at == x) <==> MayGo(f, NewFrom(f, p, i)[x - at].cmd)
    decreases |f.commands| - i
  {
    hide NewOf, SparesOf, MayGo;
    var n, s := NewOf(f, p, i), SparesOf(f, p, i, at);
    SpareHere(f, p, i, at);
    SparesLie(f, p, i + 1, at + |n|);
    var more := SparesFrom(f, p, i + 1, at + |n|);
    forall t | t in more ensures t.at >= at + |n| {
      var j: nat :| j < |more| && more[j] == t;
      assert SpareOk(f, NewFrom(f, p, i + 1), more[j], at + |n|);
    }
    if x < at + |n| {
      SparesHere(f, p, i, at, x);
      assert NewFrom(f, p, i)[x - at] == n[x - at];
    } else {
      SparesAreAll(f, p, i + 1, at + |n|, x);
      assert NewFrom(f, p, i)[x - at] == NewFrom(f, p, i + 1)[x - (at + |n|)];
    }
  }

  lemma SparesHere(f: File, p: Plan, i: nat, at: nat, x: nat)
    requires i < |f.commands| && at <= x < at + |NewOf(f, p, i)|
    requires p.linkedit.index < |f.commands| ==> f.commands[p.linkedit.index].cmd == 0x19
    ensures (exists s :: s in SparesOf(f, p, i, at) && s.at == x) <==> MayGo(f, NewOf(f, p, i)[x - at].cmd)
  {
    hide Droppable, Shifted, Moved, DataOf, FieldsOf;
    DroppableIs(f, f.commands[i]);
    if SparesOf(f, p, i, at) != [] { assert SparesOf(f, p, i, at)[0].at == at; }
  }

  /** With every spare gone, all of those kinds are gone and nothing else: a
      table of data in code that has entries stays, always. */
  lemma WhatGoes(f: File, p: Plan, k: nat, x: nat)
    requires k <= |Spares(f, p)| && x < |NewFrom(f, p, 0)|
    requires p.linkedit.index < |f.commands| ==> f.commands[p.linkedit.index].cmd == 0x19
    ensures x in Places(Spares(f, p)[..k]) ==> MayGo(f, NewFrom(f, p, 0)[x].cmd)
    ensures k == |Spares(f, p)| && MayGo(f, NewFrom(f, p, 0)[x].cmd) ==> x in Places(Spares(f, p)[..k])
  {
    hide NewFrom, SparesFrom, Spares, MayGo;
    SparesAre(f, p);
    SparesAreAll(f, p, 0, 0, x);
    var ss, r := SparesFrom(f, p, 0, 0), Spares(f, p);
    if x in Places(r[..k]) {
      var j: nat :| j < |r[..k]| && r[..k][j].at == x;
      assert r[j] in ss;
    }
    if k == |r| && MayGo(f, NewFrom(f, p, 0)[x].cmd) {
      var s :| s in ss && s.at == x;
      RankSmall(f, p, s);
      assert s in r;
      var j: nat :| j < |r| && r[j] == s;
      assert r[..k][j].at == x;
    }
  }

  lemma RankSmall(f: File, p: Plan, s: Spare)
    requires s in SparesFrom(f, p, 0, 0)
    ensures s.rank < 3
  {
    hide NewFrom, SparesFrom;
    SparesLie(f, p, 0, 0);
    var ss := SparesFrom(f, p, 0, 0);
    var j: nat :| j < |ss| && ss[j] == s;
    assert SpareOk(f, NewFrom(f, p, 0), ss[j], 0);
  }

  /** They go in this order: data in code, the source version, function starts. */
  lemma GoesBefore(f: File, p: Plan, k: nat, x: nat, y: nat)
    requires k <= |Spares(f, p)| && x < |NewFrom(f, p, 0)| && y < |NewFrom(f, p, 0)|
    requires p.linkedit.index < |f.commands| ==> f.commands[p.linkedit.index].cmd == 0x19
    requires var c, d := NewFrom(f, p, 0)[x].cmd, NewFrom(f, p, 0)[y].cmd;
             (c == 0x29 && MayGo(f, 0x29) && d in {0x2A, 0x26}) || (c == 0x2A && d == 0x26)
    requires y in Places(Spares(f, p)[..k])
    ensures x in Places(Spares(f, p)[..k])
  {
    hide NewFrom, SparesFrom, Spares, MayGo;
    assert MayGo(f, NewFrom(f, p, 0)[x].cmd) by { AlwaysMay(f); }
    SparesAre(f, p);
    SparesAreAll(f, p, 0, 0, x);
    var cs, ss, r := NewFrom(f, p, 0), SparesFrom(f, p, 0, 0), Spares(f, p);
    var s :| s in ss && s.at == x;
    var i: nat :| i < |ss| && ss[i] == s;
    assert SpareOk(f, cs, ss[i], 0);
    var j: nat :| j < |r[..k]| && r[..k][j].at == y;
    assert r[j] in ss;
    var m: nat :| m < |ss| && ss[m] == r[j];
    assert SpareOk(f, cs, ss[m], 0);
    assert s in r;
    var n: nat :| n < |r| && r[n] == s;
    if n >= k { NoLower(ss, r, j, n); }
    assert r[..k][n].at == x;
  }

  lemma AlwaysMay(f: File)
    ensures MayGo(f, 0x2A) && MayGo(f, 0x26)
  {
  }
}

/** A file whose code signature is not the last thing in it, and what is left
    of it (emit in src/macho.rs). */
module ImageExample {
  import opened Wrappers
  import opened Wire
  import opened MachO
  import opened ImageCommands
  import opened ImageWriter
  import opened ImageReads

  // ---- three commands ------------------------------------------------------------

  const FIRST_SECTION: nat := 0x1000

  /** __TEXT of one page, its one section at 0x1000 of the file */
  function TextCommand(): Command { Command(LC_SEGMENT_64, TextFields() + SectionFields()) }

  function TextFields(): (b: seq<Byte>)
    ensures |b| == SEGMENT_SIZE
  {
    SegmentPieces(TEXT, 0, PAGE, 0, READ_EXECUTE);
    var b := SegmentCommand(TEXT, 0, PAGE, 0, READ_EXECUTE).bytes;
    Put(Put(b, 4, Le(SEGMENT_SIZE + SECTION_SIZE, 4)), 64, Le(1, 4))
  }

  function SectionFields(): (b: seq<Byte>)
    ensures |b| == SECTION_SIZE
  {
    Put(Zeros(SECTION_SIZE), 48, Le(FIRST_SECTION, 4))
  }

  /** __LINKEDIT, the page behind it */
  function LinkeditCommand(): Command { SegmentCommand(LINKEDIT, PAGE, PAGE, PAGE, 1) }

  /** A signature of 16 bytes at its start */
  function SignatureCommand(): Command {
    Command(LC_CODE_SIGNATURE, Le(LC_CODE_SIGNATURE, 4) + Le(16, 4) + Le(PAGE, 4) + Le(16, 4))
  }

  lemma SameField(b: seq<Byte>, at: nat, v: seq<Byte>, lo: nat)
    requires at + |v| <= |b|
    ensures lo + 4 <= at || at + |v| <= lo ==> Word(Put(b, at, v), lo) == Word(b, lo)
    ensures lo + 8 <= at || at + |v| <= lo ==> Long(Put(b, at, v), lo) == Long(b, lo)
  {
    hide FromLe;
    var c := Put(b, at, v);
    if lo + 4 <= |b| && (lo + 4 <= at || at + |v| <= lo) { PutOther(b, at, v, lo, lo + 4); }
    if lo + 8 <= |b| && (lo + 8 <= at || at + |v| <= lo) { PutOther(b, at, v, lo, lo + 8); }
  }

  lemma PrefixFields(a: seq<Byte>, b: seq<Byte>, at: nat)
    requires at + 8 <= |a|
    ensures Word(a + b, at) == Word(a, at) && Word(a + b, at + 4) == Word(a, at + 4) && Long(a + b, at) == Long(a, at)
  {
    assert (a + b)[at..at + 4] == a[at..at + 4] && (a + b)[at + 4..at + 8] == a[at + 4..at + 8];
    assert (a + b)[at..at + 8] == a[at..at + 8];
  }

  /** A segment with sections, from its fields */
  lemma Sectioned(b: seq<Byte>, index: nat, s: seq<Byte>)
    requires |b| == SEGMENT_SIZE + SECTION_SIZE && Word(b, 64) == 1 && b[SEGMENT_SIZE..] == s
    ensures ParseSegment(index, b)
            == Some(Segment(index, Name(b[8..24]), Long(b, 24), Long(b, 32), Long(b, 40), Long(b, 48), Word(b, 60),
                            [ParseSection(s)]))
  {
    hide Word, Long, Name, ParseSection;
    assert b[SEGMENT_SIZE..SEGMENT_SIZE + SECTION_SIZE] == s;
    assert ParseSegment(index, b).value.sections == [ParseSection(s)];
  }

  /** Field by field the segment is as it was, but for its size and its count of
      sections. */
  lemma TextFieldsAre()
    ensures var b := TextFields();
            && Word(b, 0) == LC_SEGMENT_64 && Word(b, 4) == SEGMENT_SIZE + SECTION_SIZE && Word(b, 64) == 1
            && Long(b, 24) == 0 && Long(b, 32) == PAGE && Long(b, 40) == 0 && Long(b, 48) == PAGE
            && Word(b, 60) == READ_EXECUTE && Name(b[8..24]) == TEXT
  {
    SegmentPieces(TEXT, 0, PAGE, 0, READ_EXECUTE);
    var b0 := SegmentCommand(TEXT, 0, PAGE, 0, READ_EXECUTE).bytes;
    var v, w := Le(SEGMENT_SIZE + SECTION_SIZE, 4), Le(1, 4);
    var b1 := Put(b0, 4, v);
    assert TextFields() == Put(b1, 64, w);
    hide Le, SegmentCommand, FromLe, Name, Put, Word, Long, TextFields;
    FieldsOfText(b0);
    PutWord(b0, 4, SEGMENT_SIZE + SECTION_SIZE);
    PutWord(b1, 64, 1);
    SameField(b1, 64, w, 4);
    Unmoved(b0, b1, v, w);
  }

  lemma FieldsOfText(b: seq<Byte>)
    requires b == SegmentCommand(TEXT, 0, PAGE, 0, READ_EXECUTE).bytes
    ensures |b| == SEGMENT_SIZE && Word(b, 0) == LC_SEGMENT_64 && Long(b, 24) == 0 && Long(b, 32) == PAGE
    ensures Long(b, 40) == 0 && Long(b, 48) == PAGE && Word(b, 60) == READ_EXECUTE && Name(b[8..24]) == TEXT
  {
    hide Le, SegmentCommand, FromLe, Name, Pow256;
    SegmentPieces(TEXT, 0, PAGE, 0, READ_EXECUTE);
    Widths();
    LeRoundTrip(LC_SEGMENT_64, 4);
    LeRoundTrip(0, 8);
    LeRoundTrip(PAGE, 8);
    LeRoundTrip(READ_EXECUTE, 4);
    NameEnds(TEXT, 10);
  }

  lemma Unmoved(b0: seq<Byte>, b1: seq<Byte>, v: seq<Byte>, w: seq<Byte>)
    requires |b0| == SEGMENT_SIZE && |v| == |w| == 4 && b1 == Put(b0, 4, v)
    ensures var b := Put(b1, 64, w);
            && Word(b, 0) == Word(b0, 0) && Long(b, 24) == Long(b0, 24) && Long(b, 32) == Long(b0, 32)
            && Long(b, 40) == Long(b0, 40) && Long(b, 48) == Long(b0, 48) && Word(b, 60) == Word(b0, 60)
            && b[8..24] == b0[8..24]
  {
    hide Put, Word, Long;
    UnmovedField(b0, b1, v, w, 0);
    UnmovedField(b0, b1, v, w, 24);
    UnmovedField(b0, b1, v, w, 32);
    UnmovedField(b0, b1, v, w, 40);
    UnmovedField(b0, b1, v, w, 48);
    UnmovedField(b0, b1, v, w, 60);
    PutOther(b0, 4, v, 8, 24);
    PutOther(b1, 64, w, 8, 24);
  }

  lemma UnmovedField(b0: seq<Byte>, b1: seq<Byte>, v: seq<Byte>, w: seq<Byte>, at: nat)
    requires |b0| == SEGMENT_SIZE && |v| == |w| == 4 && b1 == Put(b0, 4, v) && (at == 0 || 8 <= at <= 60)
    ensures Word(Put(b1, 64, w), at) == Word(b0, at)
    ensures 8 <= at <= 56 ==> Long(Put(b1, 64, w), at) == Long(b0, at)
  {
    hide Put, Word, Long;
    SameField(b0, 4, v, at);
    SameField(b1, 64, w, at);
  }

  lemma TextReads(index: nat)
    ensures Proper(TextCommand(), index)
    ensures ParseSegment(index, TextCommand().bytes)
            == Some(Segment(index, TEXT, 0, PAGE, 0, PAGE, READ_EXECUTE, [ParseSection(SectionFields())]))
  {
    var a, s := TextFields(), SectionFields();
    var b := TextCommand().bytes;
    TextFieldsAre();
    hide TextFields, SectionFields, Word, Long, Name, ParseSegment, ParseSection;
    PrefixFields(a, s, 0);
    PrefixFields(a, s, 24);
    PrefixFields(a, s, 32);
    PrefixFields(a, s, 40);
    PrefixFields(a, s, 48);
    PrefixFields(a, s, 56);
    PrefixFields(a, s, 64);
    assert b[8..24] == a[8..24] && b[SEGMENT_SIZE..] == s;
    Sectioned(b, index, s);
  }

  lemma SectionReads()
    ensures ParseSection(SectionFields()).offset == FIRST_SECTION
  {
    hide Name, Long;
    PutWord(Zeros(SECTION_SIZE), 48, FIRST_SECTION);
  }

  lemma FourWords(x: nat, y: nat, z: nat, w: nat, b: seq<Byte>)
    requires x < TWO32 && y < TWO32 && z < TWO32 && w < TWO32 && b == Le(x, 4) + Le(y, 4) + Le(z, 4) + Le(w, 4)
    ensures |b| == 16 && Word(b, 0) == x && Word(b, 4) == y && Word(b, 8) == z && Word(b, 12) == w
  {
    hide Le, FromLe, Pow256;
    Widths();
    LeRoundTrip(x, 4);
    LeRoundTrip(y, 4);
    LeRoundTrip(z, 4);
    LeRoundTrip(w, 4);
    FourSlices(Le(x, 4), Le(y, 4), Le(z, 4), Le(w, 4), b);
  }

  lemma FourSlices(x: seq<Byte>, y: seq<Byte>, z: seq<Byte>, w: seq<Byte>, b: seq<Byte>)
    requires |x| == |y| == |z| == |w| == 4 && b == x + y + z + w
    ensures |b| == 16 && b[0..4] == x && b[4..8] == y && b[8..12] == z && b[12..16] == w
  {
  }

  lemma SignatureReads(index: nat)
    ensures var b := SignatureCommand().bytes;
            Proper(SignatureCommand(), index) && |b| == 16 && Word(b, 8) == PAGE && Word(b, 12) == 16
  {
    hide Le, Word;
    FourWords(LC_CODE_SIGNATURE, 16, PAGE, 16, SignatureCommand().bytes);
  }

  function HeaderBytes(): (b: seq<Byte>)
    ensures |b| == HEADER_SIZE
  {
    (Le(MAGIC, 4) + Le(CPU_TYPE_ARM64, 4) + Le(0, 4) + Le(EXECUTE, 4)) + (Le(3, 4) + Le(240, 4) + Le(0, 4) + Le(0, 4))
  }

  lemma HeaderReads()
    ensures var b := HeaderBytes();
            && Word(b, 0) == MAGIC && Word(b, 4) == CPU_TYPE_ARM64 && Word(b, 12) == EXECUTE && Word(b, 16) == 3
            && Word(b, 20) == 240
  {
    var x := Le(MAGIC, 4) + Le(CPU_TYPE_ARM64, 4) + Le(0, 4) + Le(EXECUTE, 4);
    var y := Le(3, 4) + Le(240, 4) + Le(0, 4) + Le(0, 4);
    assert HeaderBytes() == x + y;
    HeaderFields(x, y);
  }

  lemma HeaderFields(x: seq<Byte>, y: seq<Byte>)
    requires x == Le(MAGIC, 4) + Le(CPU_TYPE_ARM64, 4) + Le(0, 4) + Le(EXECUTE, 4)
    requires y == Le(3, 4) + Le(240, 4) + Le(0, 4) + Le(0, 4)
    ensures var b := x + y;
            && Word(b, 0) == MAGIC && Word(b, 4) == CPU_TYPE_ARM64 && Word(b, 12) == EXECUTE && Word(b, 16) == 3
            && Word(b, 20) == 240
  {
    hide Le, Word;
    FourWords(MAGIC, CPU_TYPE_ARM64, 0, EXECUTE, x);
    FourWords(3, 240, 0, 0, y);
    PrefixFields(x, y, 0);
    PrefixFields(x, y, 8);
    SuffixWord(x, y, 0);
    SuffixWord(x, y, 4);
  }

  lemma SuffixWord(a: seq<Byte>, b: seq<Byte>, at: nat)
    requires at + 4 <= |b|
    ensures Word(a + b, |a| + at) == Word(b, at)
  {
    hide FromLe;
    assert (a + b)[|a| + at..|a| + at + 4] == b[at..at + 4];
  }

  // ---- the file ----------------------------------------------------------------------

  /** What the three commands say */
  predicate Parts(t: Command, l: Command, g: Command, ts: Segment, ls: Segment) {
    && t.cmd == l.cmd == LC_SEGMENT_64 && g.cmd == LC_CODE_SIGNATURE
    && |t.bytes| == SEGMENT_SIZE + SECTION_SIZE && |l.bytes| == SEGMENT_SIZE && |g.bytes| == 16
    && Proper(t, 0) && Proper(l, 1) && Proper(g, 2)
    && ParseSegment(0, t.bytes) == Some(ts) && ParseSegment(1, l.bytes) == Some(ls)
    && ts.name == TEXT && ts.vmaddr == 0 && ts.vmsize == PAGE && ts.fileoff == 0
    && |ts.sections| == 1 && ts.sections[0].offset == FIRST_SECTION
    && ls.name == LINKEDIT && ls.index == 1 && ls.vmaddr == ls.fileoff == ls.filesize == PAGE && ls.sections == []
    && Word(g.bytes, 8) == PAGE && Word(g.bytes, 12) == 16
  }

  lemma TheParts()
    ensures var sec := ParseSection(SectionFields());
            Parts(TextCommand(), LinkeditCommand(), SignatureCommand(),
                  Segment(0, TEXT, 0, PAGE, 0, PAGE, READ_EXECUTE, [sec]),
                  Segment(1, LINKEDIT, PAGE, PAGE, PAGE, PAGE, 1, []))
  {
    TextReads(0);
    SectionReads();
    SignatureReads(2);
    TheLinkedit();
    hide ParseSegment, TextFields, SectionFields, Le, Proper, LinkeditCommand, SignatureCommand, ParseSection, Word;
    assert SignatureCommand().cmd == LC_CODE_SIGNATURE by { SignatureKind(); }
  }

  lemma SignatureKind()
    ensures SignatureCommand().cmd == LC_CODE_SIGNATURE
  {
  }

  lemma TheLinkedit()
    ensures var c := LinkeditCommand();
            && c.cmd == LC_SEGMENT_64 && |c.bytes| == SEGMENT_SIZE && Proper(c, 1)
            && ParseSegment(1, c.bytes) == Some(Segment(1, LINKEDIT, PAGE, PAGE, PAGE, PAGE, 1, []))
  {
    hide Le, ParseSegment, Sane;
    SegmentReads(LINKEDIT, PAGE, PAGE, PAGE, 1, 1);
    SegmentPieces(LINKEDIT, PAGE, PAGE, PAGE, 1);
    SaneIsProper(LinkeditCommand(), 1);
  }

  /** Header and commands, and from the second page on sixteen bytes of
      signature, and ones */
  predicate IsData(d: seq<Byte>, h: seq<Byte>, t: Command, l: Command, g: Command) {
    && |d| == 2 * PAGE && |h| == HEADER_SIZE && d[..HEADER_SIZE] == h
    && HEADER_SIZE + |t.bytes| + |l.bytes| + |g.bytes| <= PAGE
    && d[HEADER_SIZE..HEADER_SIZE + |t.bytes| + |l.bytes| + |g.bytes|] == t.bytes + l.bytes + g.bytes
    && (forall x {:trigger d[x]} :: PAGE + 16 <= x < 2 * PAGE ==> d[x] == 1)
    && Word(h, 0) == MAGIC && Word(h, 4) == CPU_TYPE_ARM64 && Word(h, 12) == EXECUTE && Word(h, 16) == 3
         && Word(h, 20) == 240
  }

  function EarlyFile(d: seq<Byte>, t: Command, l: Command, g: Command, ts: Segment, ls: Segment): File {
    File(d, Header(CPU_TYPE_ARM64, EXECUTE, 3, 240), [t, l, g], [ts, ls])
  }

  lemma Three(t: Command, l: Command, g: Command)
    ensures var cs := [t, l, g];
            && cs[1..] == [l, g] && [l, g][1..] == [g] && [g][1..] == []
            && Bytes(cs) == t.bytes + l.bytes + g.bytes && Size(cs) == |t.bytes| + |l.bytes| + |g.bytes|
  {
    assert [t, l, g][1..] == [l, g] && [l, g][1..] == [g] && [g][1..] == [];
    assert Bytes([g]) == g.bytes + Bytes([]) && Bytes([l, g]) == l.bytes + Bytes([g]);
    assert Size([g]) == |g.bytes| + Size([]) && Size([l, g]) == |l.bytes| + Size([g]);
  }

  lemma EarlySegments(t: Command, l: Command, g: Command, ts: Segment, ls: Segment)
    requires Parts(t, l, g, ts, ls)
    ensures SegmentsOf([t, l, g], 0) == [ts, ls]
  {
    Three(t, l, g);
    hide ParseSegment, Proper, Word, Bytes, Size;
    assert SegmentsOf([], 3) == [];
    assert SegmentsOf([g], 2) == [] && SegmentsOf([l, g], 1) == [ls];
  }

  lemma EarlyIsRead(d: seq<Byte>, h: seq<Byte>, t: Command, l: Command, g: Command, ts: Segment, ls: Segment)
    requires Parts(t, l, g, ts, ls) && IsData(d, h, t, l, g)
    ensures Parsed(d) == Ok(EarlyFile(d, t, l, g, ts, ls))
  {
    Three(t, l, g);
    EarlySegments(t, l, g, ts, ls);
    hide ParseSegment, Proper, Walk, SegmentsOf, Bytes, Size, FromLe;
    FrontWord(d, h, HEADER_SIZE, 0);
    FrontWord(d, h, HEADER_SIZE, 4);
    FrontWord(d, h, HEADER_SIZE, 12);
    FrontWord(d, h, HEADER_SIZE, 16);
    FrontWord(d, h, HEADER_SIZE, 20);
    WalkReads(d, HEADER_SIZE, [t, l, g], 0);
  }

  lemma EarlyRoom(f: File, ts: Segment, ls: Segment)
    requires f.segments == [ts, ls] && f.header.sizeofcmds == 240 && ls.sections == []
    requires |ts.sections| == 1 && ts.sections[0].offset == FIRST_SECTION
    ensures Room(f) == FIRST_SECTION - HEADER_SIZE
  {
    assert ts.sections[1..] == [];
    assert FirstSection(ts.sections) == Some(FIRST_SECTION);
    assert [ts, ls][1..] == [ls] && [ls][1..] == [];
    assert FirstOffset([ls]) == None;
  }

  lemma EarlyNamed(ts: Segment, ls: Segment)
    requires ts.name == TEXT && ls.name == LINKEDIT
    ensures FirstNamed([ts, ls], TEXT) == Some(ts) && FirstNamed([ts, ls], LINKEDIT) == Some(ls)
  {
    assert TEXT[2] != LINKEDIT[2];
    assert [ts, ls][1..] == [ls];
  }

  lemma EarlyIsWellFormed(d: seq<Byte>, h: seq<Byte>, t: Command, l: Command, g: Command, ts: Segment, ls: Segment)
    requires Parts(t, l, g, ts, ls) && IsData(d, h, t, l, g)
    ensures WellFormed(EarlyFile(d, t, l, g, ts, ls))
  {
    EarlyIsRead(d, h, t, l, g, ts, ls);
    EarlyRoom(EarlyFile(d, t, l, g, ts, ls), ts, ls);
    EarlyNamed(ts, ls);
    hide Room, ParseSegment, Parsed, Proper, FirstNamed, Word;
  }

  lemma EarlySignature(f: File, t: Command, l: Command, g: Command, ts: Segment, ls: Segment)
    requires Parts(t, l, g, ts, ls) && f.commands == [t, l, g]
    ensures DataOf(f, LC_CODE_SIGNATURE) == Some((PAGE, 16))
  {
    hide ParseSegment, Proper, Word;
    assert [t, l, g][1..] == [l, g] && [l, g][1..] == [g];
    assert FirstCommand([g], LC_CODE_SIGNATURE) == Some(g);
    assert FirstCommand([l, g], LC_CODE_SIGNATURE) == Some(g);
  }

  lemma EarlyPlan(f: File, t: Command, l: Command, g: Command, ts: Segment, ls: Segment, stub: seq<Byte>)
    requires Parts(t, l, g, ts, ls) && f.commands == [t, l, g] && f.segments == [ts, ls]
    ensures PlanOf(f, stub) == Ok(Plan(ls, RoundUp(|stub|, PAGE), 0))
  {
    EarlySignature(f, t, l, g, ts, ls);
    EarlyNamed(ts, ls);
    hide ParseSegment, Proper, Word, RoundUp, FirstNamed, DataOf;
  }

  /** A command and the new segment at most */
  lemma OneSize(f: File, p: Plan, i: nat)
    requires i < |f.commands|
    ensures Size(NewOf(f, p, i)) <= |f.commands[i].bytes| + SEGMENT_SIZE
  {
    var c := f.commands[i];
    if c.cmd == LC_CODE_SIGNATURE {
    } else if IsMoved(f, p, i) {
      var stub := SegmentCommand(STUB, p.linkedit.vmaddr, p.inserted, p.linkedit.fileoff, READ_EXECUTE);
      SegmentPieces(STUB, p.linkedit.vmaddr, p.inserted, p.linkedit.fileoff, READ_EXECUTE);
      hide SegmentCommand, Moved;
      SizeOne(stub);
      SizeOne(Command(c.cmd, Moved(c.bytes, p)));
      SizePlus([stub], [Command(c.cmd, Moved(c.bytes, p))]);
      assert [] + [Command(c.cmd, Moved(c.bytes, p))] == [Command(c.cmd, Moved(c.bytes, p))];
    } else {
      SizeOne(Command(c.cmd, Shifted(c.bytes, FieldsOf(c.cmd), p.inserted)));
    }
  }

  lemma SizeOne(c: Command)
    ensures Size([c]) == |c.bytes|
  {
    assert [c][1..] == [];
  }

  /** The new commands take less than the first section leaves. */
  lemma EarlyFits(f: File, p: Plan, t: Command, l: Command, g: Command, ts: Segment, ls: Segment)
    requires Parts(t, l, g, ts, ls) && f.commands == [t, l, g] && f.segments == [ts, ls] && f.header.sizeofcmds == 240
    ensures Size(Kept(f, p, |Spares(f, p)|)) + SIGNATURE_SIZE <= Room(f)
  {
    EarlyRoom(f, ts, ls);
    NewSize(f, p, t, l, g, ts, ls);
    KeptFits(f, p, |Spares(f, p)|);
    hide Room, Size, Kept, NewFrom, Spares, ParseSegment, Proper, Word;
  }

  lemma NewSize(f: File, p: Plan, t: Command, l: Command, g: Command, ts: Segment, ls: Segment)
    requires Parts(t, l, g, ts, ls) && f.commands == [t, l, g]
    ensures Size(NewFrom(f, p, 0)) <= 600
  {
    hide NewOf, Proper, ParseSegment, Word, Size;
    assert NewFrom(f, p, 3) == [];
    assert NewFrom(f, p, 2) == NewOf(f, p, 2) + [];
    assert NewFrom(f, p, 1) == NewOf(f, p, 1) + (NewOf(f, p, 2) + []);
    assert NewFrom(f, p, 0) == NewOf(f, p, 0) + (NewOf(f, p, 1) + (NewOf(f, p, 2) + []));
    OneSize(f, p, 0);
    OneSize(f, p, 1);
    OneSize(f, p, 2);
    SizePlus(NewOf(f, p, 0), NewOf(f, p, 1) + (NewOf(f, p, 2) + []));
    SizePlus(NewOf(f, p, 1), NewOf(f, p, 2) + []);
    assert NewOf(f, p, 2) + [] == NewOf(f, p, 2);
  }

  /** A file that can be read, with a signature of sixteen bytes and a page of
      ones behind it in __LINKEDIT: written again, it has none of them. */
  method EarlySignatureTakesTheRest(stub: seq<Byte>) returns (f: File, out: seq<Byte>)
    ensures WellFormed(f) && DataOf(f, LC_CODE_SIGNATURE) == Some((PAGE, 16)) && |f.data| == 2 * PAGE
    ensures FirstNamed(f.segments, LINKEDIT).Some?
            && FirstNamed(f.segments, LINKEDIT).value.fileoff == FirstNamed(f.segments, LINKEDIT).value.filesize == PAGE
    ensures forall x {:trigger f.data[x]} :: PAGE + 16 <= x < 2 * PAGE ==> f.data[x] == 1
    ensures PlanOf(f, stub).Ok? && exists k :: Emitted(f, PlanOf(f, stub).value, k, [], stub, out)
    ensures |out| == PAGE + RoundUp(|stub|, PAGE) && out[PAGE..PAGE + |stub|] == stub
    ensures forall x {:trigger out[x]} :: PAGE + |stub| <= x < |out| ==> out[x] == 0
  {
    var h, t, l, g := HeaderBytes(), TextCommand(), LinkeditCommand(), SignatureCommand();
    TheParts();
    HeaderReads();
    var ts := Segment(0, TEXT, 0, PAGE, 0, PAGE, READ_EXECUTE, [ParseSection(SectionFields())]);
    var ls := Segment(1, LINKEDIT, PAGE, PAGE, PAGE, PAGE, 1, []);
    hide HeaderBytes, TextCommand, LinkeditCommand, SignatureCommand, ParseSection, SectionFields, Word;
    f, out := Rewrite(h, t, l, g, ts, ls, stub);
  }

  method Rewrite(h: seq<Byte>, t: Command, l: Command, g: Command, ts: Segment, ls: Segment, stub: seq<Byte>)
    returns (f: File, out: seq<Byte>)
    requires Parts(t, l, g, ts, ls) && |h| == HEADER_SIZE
    requires Word(h, 0) == MAGIC && Word(h, 4) == CPU_TYPE_ARM64 && Word(h, 12) == EXECUTE && Word(h, 16) == 3
      && Word(h, 20) == 240
    ensures WellFormed(f) && DataOf(f, LC_CODE_SIGNATURE) == Some((PAGE, 16)) && |f.data| == 2 * PAGE
    ensures FirstNamed(f.segments, LINKEDIT) == Some(ls)
    ensures forall x {:trigger f.data[x]} :: PAGE + 16 <= x < 2 * PAGE ==> f.data[x] == 1
    ensures PlanOf(f, stub).Ok? && exists k :: Emitted(f, PlanOf(f, stub).value, k, [], stub, out)
    ensures |out| == PAGE + RoundUp(|stub|, PAGE) && out[PAGE..PAGE + |stub|] == stub
    ensures forall x {:trigger out[x]} :: PAGE + |stub| <= x < |out| ==> out[x] == 0
  {
    var front := h + (t.bytes + l.bytes + g.bytes);
    var d := front + Zeros(PAGE + 16 - |front|) + seq(PAGE - 16, _ => 1);
    Laid(h, t, l, g, d);
    EarlyIsRead(d, h, t, l, g, ts, ls);
    EarlyIsWellFormed(d, h, t, l, g, ts, ls);
    var r := Parse(d);
    f := r.value;
    EarlySignature(f, t, l, g, ts, ls);
    EarlyPlan(f, t, l, g, ts, ls, stub);
    EarlyNamed(ts, ls);
    EarlyFits(f, Plan(ls, RoundUp(|stub|, PAGE), 0), t, l, g, ts, ls);
    hide Kept, Spares, Room, Size, HeadIs, PatchesMade, WellFormed, RoundUp, Parsed, PlanOf, FirstNamed, DataOf;
    ghost var k;
    var e;
    e, k := Emit(f, [], stub);
    out := e.value;
  }

  lemma Laid(h: seq<Byte>, t: Command, l: Command, g: Command, d: seq<Byte>)
    requires |h| == HEADER_SIZE && |t.bytes| == SEGMENT_SIZE + SECTION_SIZE && |l.bytes| == SEGMENT_SIZE
      && |g.bytes| == 16
    requires Word(h, 0) == MAGIC && Word(h, 4) == CPU_TYPE_ARM64 && Word(h, 12) == EXECUTE && Word(h, 16) == 3
      && Word(h, 20) == 240
    requires var front := h + (t.bytes + l.bytes + g.bytes);
             d == front + Zeros(PAGE + 16 - |front|) + seq(PAGE - 16, _ => 1)
    ensures IsData(d, h, t, l, g)
  {
    hide Word;
  }
}

/** What the rewritten file says (emit in src/macho.rs): it reads back as the
    kept commands, the new segment stands where __LINKEDIT did, and whatever
    was in __LINKEDIT is found through its moved offset. */
module ImageReads {
  import opened Wrappers
  import opened Wire
  import opened MachO
  import opened ImageCommands
  import opened ImageWriter

  // ---- commands that read back --------------------------------------------------

  /** A command that says what it is, wherever it stands */
  predicate Sane(c: Command) {
    && |c.bytes| >= 8 && Word(c.bytes, 0) == c.cmd && Word(c.bytes, 4) == |c.bytes|
    && (c.cmd == LC_SEGMENT_64 ==>
         |c.bytes| >= SEGMENT_SIZE && SEGMENT_SIZE + Word(c.bytes, 64) * SECTION_SIZE <= |c.bytes|)
  }

  lemma SaneIsProper(c: Command, index: nat)
    requires Sane(c)
    ensures Proper(c, index)
  {
  }

  lemma ReadIsSane(data: seq<Byte>, at: nat, index: nat)
    requires CommandAt(data, at, index).Ok? && |CommandAt(data, at, index).value.bytes| >= 8
    ensures Sane(CommandAt(data, at, index).value)
  {
    var c := CommandAt(data, at, index).value;
    SlicedWord(data, at, c.bytes, 0);
    SlicedWord(data, at, c.bytes, 4);
  }

  lemma {:induction false} WalkIsSane(data: seq<Byte>, at: nat, n: nat, index: nat, i: nat)
    requires Walk(data, at, n, index).Ok? && i < |Walk(data, at, n, index).value|
    requires |Walk(data, at, n, index).value[i].bytes| >= 8
    ensures Sane(Walk(data, at, n, index).value[i])
    decreases n
  {
    hide CommandAt, Sane;
    if i == 0 {
      ReadIsSane(data, at, index);
    } else {
      var c := CommandAt(data, at, index).value;
      WalkIsSane(data, at + |c.bytes|, n - 1, index + 1, i - 1);
    }
  }

  lemma ShiftedIsSane(c: Command, delta: nat)
    requires Sane(c)
    ensures Sane(Command(c.cmd, Shifted(c.bytes, FieldsOf(c.cmd), delta)))
  {
    hide Bump;
    var b := Shifted(c.bytes, FieldsOf(c.cmd), delta);
    ShiftedOther(c.bytes, FieldsOf(c.cmd), delta, 0, 4);
    ShiftedOther(c.bytes, FieldsOf(c.cmd), delta, 4, 8);
    SameWord(b, c.bytes, 0);
    SameWord(b, c.bytes, 4);
    if c.cmd == LC_SEGMENT_64 { assert FieldsOf(c.cmd) == []; }
  }

  /** Moving changes the four fields and nothing else. */
  lemma MovedFields(b: seq<Byte>, p: Plan)
    requires |b| >= SEGMENT_SIZE
    requires p.linkedit.vmaddr + p.inserted < TWO64 && p.linkedit.fileoff + p.inserted < TWO64
    requires RoundUp(p.size, PAGE) < TWO64 && p.size < TWO64
    ensures var m := Moved(b, p);
            && Long(m, 24) == p.linkedit.vmaddr + p.inserted && Long(m, 32) == RoundUp(p.size, PAGE)
            && Long(m, 40) == p.linkedit.fileoff + p.inserted && Long(m, 48) == p.size
  {
    hide Put, Long, Le, RoundUp;
    var v0, v1, v2, v3 := p.linkedit.vmaddr + p.inserted, RoundUp(p.size, PAGE), p.linkedit.fileoff + p.inserted,
      p.size;
    var b0 := Put(b, 24, Le(v0, 8));
    var b1 := Put(b0, 32, Le(v1, 8));
    var b2 := Put(b1, 40, Le(v2, 8));
    PutLong(b, 24, v0);
    PutLong(b0, 32, v1);
    PutLong(b1, 40, v2);
    PutLong(b2, 48, v3);
    OtherLong(b0, 32, v1, 24);
    OtherLong(b1, 40, v2, 24);
    OtherLong(b1, 40, v2, 32);
    OtherLong(b2, 48, v3, 24);
    OtherLong(b2, 48, v3, 32);
    OtherLong(b2, 48, v3, 40);
  }

  lemma OtherLong(b: seq<Byte>, at: nat, v: nat, other: nat)
    requires at + 8 <= |b| && (other + 8 <= at || at + 8 <= other) && other + 8 <= |b|
    ensures Long(Put(b, at, Le(v, 8)), other) == Long(b, other)
  {
    PutOther(b, at, Le(v, 8), other, other + 8);
    SameLong(Put(b, at, Le(v, 8)), b, other);
  }

  lemma MovedElsewhere(b: seq<Byte>, p: Plan, lo: nat, hi: nat)
    requires |b| >= SEGMENT_SIZE && lo <= hi <= |b| && (hi <= 24 || lo >= 56)
    ensures Moved(b, p)[lo..hi] == b[lo..hi]
  {
    hide Put, Le, RoundUp;
    var b0 := Put(b, 24, Le(p.linkedit.vmaddr + p.inserted, 8));
    var b1 := Put(b0, 32, Le(RoundUp(p.size, PAGE), 8));
    var b2 := Put(b1, 40, Le(p.linkedit.fileoff + p.inserted, 8));
    PutOther(b, 24, Le(p.linkedit.vmaddr + p.inserted, 8), lo, hi);
    PutOther(b0, 32, Le(RoundUp(p.size, PAGE), 8), lo, hi);
    PutOther(b1, 40, Le(p.linkedit.fileoff + p.inserted, 8), lo, hi);
    PutOther(b2, 48, Le(p.size, 8), lo, hi);
  }

  lemma MovedIsSane(c: Command, p: Plan)
    requires Sane(c) && |c.bytes| >= SEGMENT_SIZE
    ensures Sane(Command(c.cmd, Moved(c.bytes, p)))
  {
    hide Moved;
    MovedElsewhere(c.bytes, p, 0, 4);
    MovedElsewhere(c.bytes, p, 4, 8);
    MovedElsewhere(c.bytes, p, 64, 68);
    SameWord(Moved(c.bytes, p), c.bytes, 0);
    SameWord(Moved(c.bytes, p), c.bytes, 4);
    SameWord(Moved(c.bytes, p), c.bytes, 64);
  }

  // ---- the new segment ----------------------------------------------------------

  lemma {:induction false} AllZeros(n: nat)
    ensures FromLe(Zeros(n)) == 0
  {
    if n > 0 {
      assert Zeros(n)[1..] == Zeros(n - 1);
      AllZeros(n - 1);
    }
  }

  /** The pieces of a segment command */
  lemma SegmentPieces(name: seq<Byte>, vmaddr: nat, size: nat, fileoff: nat, prot: nat)
    requires |name| <= 16
    ensures var b := SegmentCommand(name, vmaddr, size, fileoff, prot).bytes;
            && |b| == SEGMENT_SIZE && b[0..4] == Le(LC_SEGMENT_64, 4) && b[4..8] == Le(SEGMENT_SIZE, 4)
            && b[8..24] == Padded(name, 16) && b[24..32] == Le(vmaddr, 8) && b[32..40] == Le(size, 8)
            && b[40..48] == Le(fileoff, 8) && b[48..56] == Le(size, 8) && b[56..60] == b[60..64] == Le(prot, 4)
                 && b[64..68] == Zeros(4)
  {
    hide Le, Padded;
    var b := SegmentCommand(name, vmaddr, size, fileoff, prot).bytes;
    var h := Le(LC_SEGMENT_64, 4) + Le(SEGMENT_SIZE, 4) + Padded(name, 16);
    var m := Le(vmaddr, 8) + Le(size, 8) + Le(fileoff, 8) + Le(size, 8);
    var t := Le(prot, 4) + Le(prot, 4) + Zeros(8);
    assert b == h + m + t;
    hide SegmentCommand;
    Piece(b, h, m, t);
    Three(Le(LC_SEGMENT_64, 4), Le(SEGMENT_SIZE, 4), Padded(name, 16), h);
    Four(Le(vmaddr, 8), Le(size, 8), Le(fileoff, 8), Le(size, 8), m);
    assert t[0..4] == Le(prot, 4) && t[4..8] == Le(prot, 4) && t[8..12] == Zeros(4);
  }

  lemma Three(x: seq<Byte>, y: seq<Byte>, z: seq<Byte>, b: seq<Byte>)
    requires |x| == 4 && |y| == 4 && |z| == 16 && b == x + y + z
    ensures |b| == 24 && b[0..4] == x && b[4..8] == y && b[8..24] == z
  {
  }

  lemma Four(x: seq<Byte>, y: seq<Byte>, z: seq<Byte>, w: seq<Byte>, b: seq<Byte>)
    requires |x| == |y| == |z| == |w| == 8 && b == x + y + z + w
    ensures |b| == 32 && b[0..8] == x && b[8..16] == y && b[16..24] == z && b[24..32] == w
  {
  }

  lemma Piece(b: seq<Byte>, h: seq<Byte>, m: seq<Byte>, t: seq<Byte>)
    requires b == h + m + t && |h| == 24 && |m| == 32 && |t| == 16
    ensures b[0..4] == h[0..4] && b[4..8] == h[4..8] && b[8..24] == h[8..24]
    ensures b[24..32] == m[0..8] && b[32..40] == m[8..16] && b[40..48] == m[16..24] && b[48..56] == m[24..32]
    ensures b[56..60] == t[0..4] && b[60..64] == t[4..8] && b[64..68] == t[8..12]
  {
  }

  lemma {:induction false} NameEnds(name: seq<Byte>, n: nat)
    requires forall i :: 0 <= i < |name| ==> name[i] != 0
    ensures Name(name + Zeros(n)) == name
    decreases |name|
  {
    if name != [] {
      assert (name + Zeros(n))[1..] == name[1..] + Zeros(n);
      NameEnds(name[1..], n);
    }
  }

  /** A segment command, as a reader sees it */
  lemma SegmentReads(name: seq<Byte>, vmaddr: nat, size: nat, fileoff: nat, prot: nat, index: nat)
    requires |name| <= 16 && forall i :: 0 <= i < |name| ==> name[i] != 0
    requires vmaddr < TWO64 && size < TWO64 && fileoff < TWO64 && prot < TWO32
    ensures var c := SegmentCommand(name, vmaddr, size, fileoff, prot);
            && Sane(c)
            && ParseSegment(index, c.bytes) == Some(Segment(index, name, vmaddr, size, fileoff, size, prot, []))
  {
    SegmentIsSane(name, vmaddr, size, fileoff, prot);
    SegmentPieces(name, vmaddr, size, fileoff, prot);
    var b := SegmentCommand(name, vmaddr, size, fileoff, prot).bytes;
    hide Le, SegmentCommand, FromLe, Name, Sane, ParseSegment;
    Widths();
    LeRoundTrip(vmaddr, 8);
    LeRoundTrip(size, 8);
    LeRoundTrip(fileoff, 8);
    LeRoundTrip(prot, 4);
    AllZeros(4);
    NameEnds(name, 16 - |name|);
    Bare(b, index);
  }

  /** The new segment among them */
  lemma StubReads(p: Plan, index: nat)
    requires p.linkedit.vmaddr < TWO64 && p.inserted < TWO64 && p.linkedit.fileoff < TWO64
    ensures var c := SegmentCommand(STUB, p.linkedit.vmaddr, p.inserted, p.linkedit.fileoff, READ_EXECUTE);
            && Sane(c)
            && ParseSegment(index, c.bytes)
                 == Some(Segment(index, STUB, p.linkedit.vmaddr, p.inserted, p.linkedit.fileoff,
                                                            p.inserted, READ_EXECUTE, []))
  {
    hide SegmentCommand, ParseSegment, Sane;
    SegmentReads(STUB, p.linkedit.vmaddr, p.inserted, p.linkedit.fileoff, READ_EXECUTE, index);
  }

  /** A segment without sections */
  lemma Bare(b: seq<Byte>, index: nat)
    requires |b| == SEGMENT_SIZE && Word(b, 64) == 0
    ensures ParseSegment(index, b)
            == Some(Segment(index, Name(b[8..24]), Long(b, 24), Long(b, 32), Long(b, 40), Long(b, 48), Word(b, 60), []))
  {
    hide Word, Long, Name;
    assert |ParseSegment(index, b).value.sections| == 0;
  }

  lemma SegmentIsSane(name: seq<Byte>, vmaddr: nat, size: nat, fileoff: nat, prot: nat)
    requires |name| <= 16
    ensures Sane(SegmentCommand(name, vmaddr, size, fileoff, prot))
  {
    SegmentPieces(name, vmaddr, size, fileoff, prot);
    hide Le, FromLe;
    Widths();
    LeRoundTrip(LC_SEGMENT_64, 4);
    LeRoundTrip(SEGMENT_SIZE, 4);
    AllZeros(4);
  }

  /** __LINKEDIT, as a reader sees it: further on, and without its signature */
  lemma MovedReads(p: Plan, b: seq<Byte>, i: nat, index: nat)
    requires ParseSegment(i, b) == Some(p.linkedit)
    requires p.linkedit.vmaddr + p.inserted < TWO64 && p.linkedit.fileoff + p.inserted < TWO64
    requires RoundUp(p.size, PAGE) < TWO64 && p.size < TWO64
    ensures |b| >= SEGMENT_SIZE && ParseSegment(index, Moved(b, p)).Some?
    ensures var s := ParseSegment(index, Moved(b, p)).value;
            && s.name == p.linkedit.name && s.vmaddr == p.linkedit.vmaddr + p.inserted
            && s.fileoff == p.linkedit.fileoff + p.inserted && s.filesize == p.size
  {
    hide Moved, RoundUp;
    MovedFields(b, p);
    MovedElsewhere(b, p, 8, 24);
    MovedElsewhere(b, p, 64, 68);
    SameWord(Moved(b, p), b, 64);
  }

  // ---- all the commands ----------------------------------------------------------

  lemma NewIsSane(f: File, p: Plan, i: nat, c: Command)
    requires i < |f.commands| && Sane(f.commands[i]) && c in NewOf(f, p, i)
    ensures Sane(c)
  {
    hide Sane, Shifted, SegmentCommand, Moved;
    var d := f.commands[i];
    if IsMoved(f, p, i) {
      SegmentIsSane(STUB, p.linkedit.vmaddr, p.inserted, p.linkedit.fileoff, READ_EXECUTE);
      MovedIsSane(d, p);
    } else {
      ShiftedIsSane(d, p.inserted);
    }
  }

  lemma {:induction false} NewAreSane(f: File, p: Plan, i: nat, c: Command)
    requires i <= |f.commands| && (forall d :: d in f.commands ==> Sane(d)) && c in NewFrom(f, p, i)
    ensures Sane(c)
    decreases |f.commands| - i
  {
    hide Sane, NewOf;
    if c in NewOf(f, p, i) {
      NewIsSane(f, p, i, c);
    } else {
      NewAreSane(f, p, i + 1, c);
    }
  }

  lemma CommandsAreSane(f: File, c: Command)
    requires WellFormed(f) && c in f.commands
    ensures Sane(c)
  {
    hide Sane, Room, PlanOf;
    var i: nat :| i < |f.commands| && f.commands[i] == c;
    WalkIsSane(f.data, HEADER_SIZE, f.header.ncmds, 0, i);
  }

  lemma KeptAreSane(f: File, p: Plan, k: nat, c: Command)
    requires WellFormed(f) && k <= |Spares(f, p)| && c in Kept(f, p, k)
    ensures Sane(c)
  {
    hide Sane, WellFormed, NewFrom, Without, Spares, Places;
    forall d | d in f.commands ensures Sane(d) { CommandsAreSane(f, d); }
    KeptIsOf(NewFrom(f, p, 0), Places(Spares(f, p)[..k]), c);
    NewAreSane(f, p, 0, c);
  }

  // ---- reading back ---------------------------------------------------------------

  /** Patches are of words behind the room for commands. */
  predicate InSections(f: File, patches: seq<Patch>) {
    forall i: nat {:trigger patches[i]} :: i < |patches| && OffsetOf(f, patches[i].addr).Some? ==>
      OffsetOf(f, patches[i].addr).value >= HEADER_SIZE + Room(f)
  }

  lemma FrontStays(f: File, head: seq<Byte>, front: seq<Byte>, patches: seq<Patch>, n: nat)
    requires InSections(f, patches) && PatchesMade(f, head, front, patches, |patches|)
    requires n <= HEADER_SIZE + Room(f) && n <= |head|
    ensures |front| == |head| && front[..n] == head[..n]
  {
    hide OffsetOf, Room, Le;
    forall x: nat | x < n ensures front[x] == head[x] {
      forall i: nat {:trigger patches[i]} | i < |patches| ensures !Hits(f, patches[i], x) { }
    }
  }

  lemma HeadWords(old_: seq<Byte>, head: seq<Byte>, kept: seq<Command>, oldEnd: nat, out: seq<Byte>)
    requires HeadIs(old_, head, kept, oldEnd) && |out| >= |head|
    requires out[..HEADER_SIZE + Size(kept)] == head[..HEADER_SIZE + Size(kept)]
    requires |kept| < TWO32 && Size(kept) < TWO32
    ensures Word(out, 0) == Word(old_, 0) && Word(out, 4) == Word(old_, 4) && Word(out, 12) == Word(old_, 12)
    ensures Word(out, 16) == |kept| && Word(out, 20) == Size(kept)
    ensures out[HEADER_SIZE..HEADER_SIZE + Size(kept)] == Bytes(kept)
  {
    hide Le, Size, Bytes;
    var end := HEADER_SIZE + Size(kept);
    Widths();
    LeRoundTrip(|kept|, 4);
    LeRoundTrip(Size(kept), 4);
    FrontParts(out, head, end);
    FrontWords(old_, head, 16);
  }

  lemma FrontParts(out: seq<Byte>, head: seq<Byte>, end: nat)
    requires HEADER_SIZE <= end <= |head| <= |out| && out[..end] == head[..end]
    ensures Word(out, 0) == Word(head, 0) && Word(out, 4) == Word(head, 4) && Word(out, 12) == Word(head, 12)
    ensures Word(out, 16) == Word(head, 16) && Word(out, 20) == Word(head, 20)
    ensures out[HEADER_SIZE..end] == head[HEADER_SIZE..end]
  {
    hide Word;
    FrontWord(out, head, end, 0);
    FrontWord(out, head, end, 4);
    FrontWord(out, head, end, 12);
    FrontWord(out, head, end, 16);
    FrontWord(out, head, end, 20);
    var a, b := out[..end], head[..end];
    assert out[HEADER_SIZE..end] == a[HEADER_SIZE..] && head[HEADER_SIZE..end] == b[HEADER_SIZE..];
  }

  lemma FrontWord(a: seq<Byte>, b: seq<Byte>, n: nat, at: nat)
    requires at + 4 <= n && n <= |a| && n <= |b| && a[..n] == b[..n]
    ensures Word(a, at) == Word(b, at)
  {
    var c, d := a[..n], b[..n];
    assert a[at..at + 4] == c[at..at + 4] && b[at..at + 4] == d[at..at + 4];
  }

  lemma FrontWords(a: seq<Byte>, b: seq<Byte>, n: nat)
    requires n >= 16 && n <= |a| && n <= |b| && a[..n] == b[..n]
    ensures Word(a, 0) == Word(b, 0) && Word(a, 4) == Word(b, 4) && Word(a, 12) == Word(b, 12)
  {
    hide Word;
    FrontWord(a, b, n, 0);
    FrontWord(a, b, n, 4);
    FrontWord(a, b, n, 12);
  }

  lemma {:induction false} CommandsAreFew(cs: seq<Command>)
    requires forall c :: c in cs ==> |c.bytes| >= 8
    ensures 8 * |cs| <= Size(cs)
  {
    if cs != [] { CommandsAreFew(cs[1..]); }
  }

  /** The rewritten file is read as the kept commands and nothing else. */
  lemma ReadsBack(f: File, p: Plan, k: nat, patches: seq<Patch>, stub: seq<Byte>, out: seq<Byte>)
    requires WellFormed(f) && Emitted(f, p, k, patches, stub, out) && InSections(f, patches)
    ensures var kept := Kept(f, p, k);
            Parsed(out) == Ok(File(out, Header(f.header.cputype, f.header.filetype, |kept|, Size(kept)), kept,
                                   SegmentsOf(kept, 0)))
  {
    hide Room, Size, Bytes, Kept, Spares, HeadIs, PatchesMade, OffsetOf, Sane, InSections, Walk, Proper, SegmentsOf,
         FromLe;
    var kept, at := Kept(f, p, k), p.linkedit.fileoff;
    var head :| HeadIs(f.data[..at], head, kept, HEADER_SIZE + f.header.sizeofcmds)
                && PatchesMade(f, head, out[..at], patches, |patches|);
    forall c | c in kept ensures Sane(c) && |c.bytes| >= 8 { KeptAreSane(f, p, k, c); SaneLong(c); }
    CommandsAreFew(kept);
    RoomIsSmall(f);
    HeadLong(f.data[..at], head, kept, HEADER_SIZE + f.header.sizeofcmds);
    var end := HEADER_SIZE + Size(kept);
    FrontStays(f, head, out[..at], patches, end);
    assert out[..end] == out[..at][..end];
    HeadWords(f.data[..at], head, kept, HEADER_SIZE + f.header.sizeofcmds, out);
    WasRead(f, at);
    forall i {:trigger kept[i]} | 0 <= i < |kept| ensures Proper(kept[i], 0 + i) { SaneIsProper(kept[i], i); }
    WalkReads(out, HEADER_SIZE, kept, 0);
  }

  lemma SaneLong(c: Command)
    requires Sane(c)
    ensures |c.bytes| >= 8
  {
  }

  lemma WasRead(f: File, at: nat)
    requires WellFormed(f) && HEADER_SIZE <= at <= |f.data|
    ensures var d := f.data[..at];
            && Word(d, 0) == MAGIC && Word(d, 4) == f.header.cputype == CPU_TYPE_ARM64
            && Word(d, 12) == f.header.filetype == EXECUTE
  {
    hide Walk, SegmentsOf, Room, FromLe;
    assert f.data[..at][..at] == f.data[..at];
    FrontWords(f.data, f.data[..at], at);
  }

  // ---- what has moved ---------------------------------------------------------------

  /** What is left of __LINKEDIT is found as far on as was inserted. */
  lemma LinkeditMoved(f: File, p: Plan, k: nat, patches: seq<Patch>, stub: seq<Byte>, out: seq<Byte>, at: nat, n: nat)
    requires Emitted(f, p, k, patches, stub, out) && p.linkedit.fileoff <= at && at + n <= p.linkedit.fileoff + p.size
    ensures at + p.inserted + n <= |out| && out[at + p.inserted..at + p.inserted + n] == f.data[at..at + n]
  {
    hide Kept, Room, Size, Spares, HeadIs, PatchesMade;
    var start := p.linkedit.fileoff;
    SubSlice(out, start + p.inserted, p.size, at - start, at - start + n);
    SubSlice(f.data, start, p.size, at - start, at - start + n);
  }

  /** Where the commands that have data in __LINKEDIT say so: the code
      signature, split info, function starts, data in code, code signing
      requirements, optimization hints, exports trie, chained fixups and atom
      info at byte 8; the symbol table (2) for its symbols and its strings; the
      dynamic symbol table (11) for six tables; and the dyld info, either kind,
      for five. */
  predicate HoldsOffset(cmd: nat, at: nat) {
    || (at == 8 && cmd in {0x1D, 0x1E, 0x26, 0x29, 0x2B, 0x2E, 0x8000_0033, 0x8000_0034, 0x36})
    || (cmd == 2 && (at == 8 || at == 16))
    || (cmd == 11 && (at == 32 || at == 40 || at == 48 || at == 56 || at == 64 || at == 72))
    || ((cmd == 0x22 || cmd == 0x8000_0022) && (at == 8 || at == 16 || at == 24 || at == 32 || at == 40))
  }

  lemma FieldsHold(cmd: nat, at: nat)
    ensures HoldsOffset(cmd, at) <==> exists j: nat :: j < |FieldsOf(cmd)| && FieldsOf(cmd)[j] == at
  {
    var fs := FieldsOf(cmd);
    if IsLinkeditData(cmd) {
      assert fs[0] == 8;
    } else if cmd == LC_SYMTAB {
      assert fs[0] == 8 && fs[1] == 16;
    } else if cmd == LC_DYSYMTAB {
      assert fs[0] == 32 && fs[1] == 40 && fs[2] == 48 && fs[3] == 56 && fs[4] == 64 && fs[5] == 72;
    } else if cmd == LC_DYLD_INFO || cmd == LC_DYLD_INFO_ONLY {
      assert fs[0] == 8 && fs[1] == 16 && fs[2] == 24 && fs[3] == 32 && fs[4] == 40;
    }
  }

  /** A command other than the signature and __LINKEDIT itself stays one
      command of its kind, of which only such offsets may differ: each moves by
      what was inserted, unless it is zero. */
  lemma OnlyOffsetsMove(f: File, p: Plan, i: nat)
    requires i < |f.commands| && f.commands[i].cmd != 0x1D && !IsMoved(f, p, i)
    ensures |NewOf(f, p, i)| == 1
    ensures var c, d := f.commands[i], NewOf(f, p, i)[0];
            && d.cmd == c.cmd && |d.bytes| == |c.bytes|
            && (forall at: nat :: HoldsOffset(c.cmd, at) && Word(c.bytes, at) + p.inserted < 0x1_0000_0000 ==>
                  Word(d.bytes, at) == if Word(c.bytes, at) == 0 then 0 else Word(c.bytes, at) + p.inserted)
            && (forall x: nat {:trigger d.bytes[x]} ::
                  (x < |c.bytes| && forall at: nat {:trigger HoldsOffset(c.cmd, at)} ::
                     HoldsOffset(c.cmd, at) ==> x < at || x >= at + 4) ==>
                     d.bytes[x] == c.bytes[x])
  {
    hide Word, Shifted, FieldsOf, HoldsOffset, IsMoved;
    var c, fs := f.commands[i], FieldsOf(f.commands[i].cmd);
    var d := NewOf(f, p, i)[0];
    forall at: nat | HoldsOffset(c.cmd, at) && Word(c.bytes, at) + p.inserted < 0x1_0000_0000
      ensures Word(d.bytes, at) == if Word(c.bytes, at) == 0 then 0 else Word(c.bytes, at) + p.inserted
    {
      FieldsHold(c.cmd, at);
      var j: nat :| j < |fs| && fs[j] == at;
      ShiftedWord(c.bytes, fs, p.inserted, j);
    }
    forall x: nat {:trigger d.bytes[x]}
      | x < |c.bytes| && forall at: nat {:trigger HoldsOffset(c.cmd, at)} :: HoldsOffset(c.cmd, at) ==>
        x < at || x >= at + 4
      ensures d.bytes[x] == c.bytes[x]
    {
      forall j {:trigger fs[j]} | 0 <= j < |fs| ensures x + 1 <= fs[j] || fs[j] + 4 <= x { FieldsHold(c.cmd, fs[j]); }
      ShiftedOther(c.bytes, fs, p.inserted, x, x + 1);
      assert d.bytes[x..x + 1][0] == c.bytes[x..x + 1][0];
    }
  }

  /** Whatever a command said was in __LINKEDIT, its new version says where:
      each offset it holds leads to the same bytes. */
  lemma OffsetsReadTheSame(f: File, p: Plan, k: nat, patches: seq<Patch>, stub: seq<Byte>, out: seq<Byte>,
                           i: nat, at: nat, n: nat)
    requires Emitted(f, p, k, patches, stub, out) && i < |f.commands|
    requires f.commands[i].cmd != 0x1D && !IsMoved(f, p, i) && HoldsOffset(f.commands[i].cmd, at)
    requires var v := Word(f.commands[i].bytes, at);
             v != 0 && p.linkedit.fileoff <= v && v + n <= p.linkedit.fileoff + p.size
             && v + p.inserted < 0x1_0000_0000
    ensures |NewOf(f, p, i)| == 1 && NewOf(f, p, i)[0].cmd == f.commands[i].cmd
    ensures var v, w := Word(f.commands[i].bytes, at), Word(NewOf(f, p, i)[0].bytes, at);
            w + n <= |out| && out[w..w + n] == f.data[v..v + n]
  {
    hide Emitted, Word, NewOf, IsMoved, HoldsOffset;
    OnlyOffsetsMove(f, p, i);
    LinkeditMoved(f, p, k, patches, stub, out, Word(f.commands[i].bytes, at), n);
  }

  /** Behind the commands' room a byte in front of __LINKEDIT differs only where
      a patch is made; a patch no later one touches stands. */
  lemma OnlyPatchesDiffer(f: File, p: Plan, k: nat, patches: seq<Patch>, stub: seq<Byte>, out: seq<Byte>)
    requires WellFormed(f) && FirstNamed(f.segments, LINKEDIT) == Some(p.linkedit)
      && Emitted(f, p, k, patches, stub, out)
    ensures forall x: nat {:trigger out[x]} ::
              (HEADER_SIZE + Room(f) <= x < p.linkedit.fileoff
               && forall i: nat {:trigger patches[i]} :: i < |patches| ==> !Hits(f, patches[i], x)) ==>
                    out[x] == f.data[x]
    ensures forall i: nat {:trigger patches[i]} :: i < |patches| ==>
              GoodPatch(f, patches[i], |out|) && (Last(f, patches, i, |patches|) ==> Stands(f, out, patches[i]))
  {
    hide Size, Spares, Kept, Parsed, OffsetOf, Le;
    var at := p.linkedit.fileoff;
    var head :| HeadIs(f.data[..at], head, Kept(f, p, k), HEADER_SIZE + f.header.sizeofcmds)
                && PatchesMade(f, head, out[..at], patches, |patches|);
    forall x: nat {:trigger out[x]} | HEADER_SIZE + Room(f) <= x < at
      && forall i: nat {:trigger patches[i]} :: i < |patches| ==> !Hits(f, patches[i], x)
      ensures out[x] == f.data[x]
    {
      assert out[..at][x] == head[x] == f.data[..at][x];
    }
    forall i: nat {:trigger patches[i]} | i < |patches|
      ensures GoodPatch(f, patches[i], |out|) && (Last(f, patches, i, |patches|) ==> Stands(f, out, patches[i]))
    {
      assert GoodPatch(f, patches[i], |head|);
      StandsIn(f, patches[i], out[..at], out, at);
    }
  }

  lemma StandsIn(f: File, q: Patch, front: seq<Byte>, out: seq<Byte>, at: nat)
    requires at <= |out| && front == out[..at] && GoodPatch(f, q, at)
    ensures GoodPatch(f, q, |out|) && Stands(f, front, q) == Stands(f, out, q)
  {
    hide OffsetOf, Le;
    var a := OffsetOf(f, q.addr).value;
    assert out[a..a + 4] == front[a..a + 4];
  }

  /** There is room for a signature in front of every section that lay behind
      the old commands. */
  lemma SignatureFits(f: File, p: Plan, k: nat, patches: seq<Patch>, stub: seq<Byte>, out: seq<Byte>, i: nat, j: nat)
    requires Emitted(f, p, k, patches, stub, out) && i < |f.segments| && j < |f.segments[i].sections|
    requires f.segments[i].sections[j].offset != 0
    requires FirstOffset(f.segments).Some? ==> FirstOffset(f.segments).value >= HEADER_SIZE + f.header.sizeofcmds
    ensures HEADER_SIZE + Size(Kept(f, p, k)) + SIGNATURE_SIZE <= f.segments[i].sections[j].offset
  {
    hide Size, Spares, Kept, HeadIs, PatchesMade;
    RoomIsFree(f, f.segments, i, j);
  }

  /** Of __LINKEDIT the signature alone is dropped exactly if nothing lies
      behind it, which the check for its place does not ask. */
  lemma SignatureAlone(f: File, p: Plan, stub: seq<Byte>, at: nat, n: nat)
    requires PlanOf(f, stub) == Ok(p) && DataOf(f, LC_CODE_SIGNATURE) == Some((at, n))
    ensures (forall x: nat {:trigger IsKept(p, x)} ::
               p.linkedit.fileoff <= x < p.linkedit.fileoff + p.linkedit.filesize ==>
               (at <= x < at + n) || IsKept(p, x))
            <==> at + n == p.linkedit.fileoff + p.linkedit.filesize
  {
    hide PlanLayout;
    if at + n < p.linkedit.fileoff + p.linkedit.filesize { assert !IsKept(p, at + n); }
  }

  predicate IsKept(p: Plan, x: nat) { x < p.linkedit.fileoff + p.size }

  // ---- what has gone -----------------------------------------------------------------

  /** A command that went may go, and went in its turn: every spare of a lower
      rank went before it. */
  lemma OnlySparesGo(f: File, p: Plan, k: nat, i: nat)
    requires k <= |Spares(f, p)| && i < |NewFrom(f, p, 0)| && i in Places(Spares(f, p)[..k])
    ensures NewFrom(f, p, 0)[i].cmd in {LC_DATA_IN_CODE, LC_SOURCE_VERSION, LC_FUNCTION_STARTS}
    ensures exists j: nat :: j < k && Spares(f, p)[j].at == i
                             && forall s :: s in SparesFrom(f, p, 0, 0) && s.rank < Spares(f, p)[j].rank ==>
                                  s in Spares(f, p)[..k]
  {
    hide NewFrom, SparesFrom, Spares;
    SparesAre(f, p);
    var cs, ss, r := NewFrom(f, p, 0), SparesFrom(f, p, 0, 0), Spares(f, p);
    var j: nat :| j < |r[..k]| && r[..k][j].at == i;
    assert r[j] in ss;
    var n: nat :| n < |ss| && ss[n] == r[j];
    assert SpareOk(f, cs, ss[n], 0);
    forall s | s in ss && s.rank < r[j].rank ensures s in r[..k] {
      assert s in r;
      var m: nat :| m < |r| && r[m] == s;
      if m > j { NoLower(ss, r, j, m); }
      assert r[..k][m] == s;
    }
  }

  lemma NoLower(ss: seq<Spare>, r: seq<Spare>, j: nat, m: nat)
    requires Ordered(ss, r, 0, 3) && j < m < |r|
    ensures r[j].rank <= r[m].rank
  {
  }

  /** Any other command of the new file is kept. */
  lemma OthersStay(f: File, p: Plan, k: nat, c: Command)
    requires k <= |Spares(f, p)| && c in NewFrom(f, p, 0)
    requires c.cmd !in {LC_DATA_IN_CODE, LC_SOURCE_VERSION, LC_FUNCTION_STARTS}
    ensures c in Kept(f, p, k)
  {
    hide NewFrom, SparesFrom, Spares, Places, Without;
    var i: nat :| i < |NewFrom(f, p, 0)| && NewFrom(f, p, 0)[i] == c;
    if i in Places(Spares(f, p)[..k]) { OnlySparesGo(f, p, k, i); }
    KeptAll(NewFrom(f, p, 0), Places(Spares(f, p)[..k]), i);
  }

  lemma {:induction false} NewHas(f: File, p: Plan, i: nat, j: nat, c: Command)
    requires i <= j < |f.commands| && c in NewOf(f, p, j)
    ensures c in NewFrom(f, p, i)
    decreases j - i
  {
    hide NewOf;
    if i < j { NewHas(f, p, i + 1, j, c); }
  }

  lemma {:induction false} NamedIs(cs: seq<Command>, index: nat, name: seq<Byte>)
    requires FirstNamed(SegmentsOf(cs, index), name).Some?
    ensures var s := FirstNamed(SegmentsOf(cs, index), name).value;
            && index <= s.index < index + |cs| && cs[s.index - index].cmd == LC_SEGMENT_64 && s.name == name
            && ParseSegment(s.index, cs[s.index - index].bytes) == Some(s)
    decreases |cs|
  {
    hide ParseSegment;
    if cs != [] {
      var segs, rest := SegmentsOf(cs, index), SegmentsOf(cs[1..], index + 1);
      if cs[0].cmd == LC_SEGMENT_64 && ParseSegment(index, cs[0].bytes).Some? {
        assert segs[1..] == rest;
        ParsedIndex(index, cs[0].bytes);
        if segs[0].name != name { NamedIs(cs[1..], index + 1, name); }
      } else {
        NamedIs(cs[1..], index + 1, name);
      }
    }
  }

  lemma ParsedIndex(index: nat, b: seq<Byte>)
    requires ParseSegment(index, b).Some?
    ensures ParseSegment(index, b).value.index == index && |b| >= SEGMENT_SIZE
  {
  }

  /** The new file has a segment with the trampolines where __LINKEDIT was, in
      memory and in the file, and __LINKEDIT right behind it. */
  lemma StubTakesThePlace(f: File, p: Plan, k: nat, stub: seq<Byte>, index: nat)
    requires WellFormed(f) && PlanOf(f, stub) == Ok(p) && k <= |Spares(f, p)|
    requires p.linkedit.vmaddr + p.inserted < TWO64 && p.linkedit.fileoff + p.inserted < TWO64
      && RoundUp(p.size, PAGE) < TWO64
    ensures exists c: Command ::
              && c in Kept(f, p, k) && c.cmd == LC_SEGMENT_64 && ParseSegment(index, c.bytes).Some?
              && var s := ParseSegment(index, c.bytes).value;
                 s.name == LINKEDIT && s.vmaddr == p.linkedit.vmaddr + p.inserted
                   && s.fileoff == p.linkedit.fileoff + p.inserted
                 && s.filesize == p.size
    ensures p.inserted > 0 ==> exists c: Command ::
              && c in Kept(f, p, k) && c.cmd == LC_SEGMENT_64
              && ParseSegment(index, c.bytes)
                 == Some(Segment(index, STUB, p.linkedit.vmaddr, p.inserted, p.linkedit.fileoff, p.inserted,
                   READ_EXECUTE, []))
  {
    hide ParseSegment, Kept, NewFrom, Spares, Room, RoundUp, SegmentCommand, Moved;
    NamedIs(f.commands, 0, LINKEDIT);
    var i := p.linkedit.index;
    var b := f.commands[i].bytes;
    ParsedIndex(i, b);
    SizeIsSmall(f, p, stub, i);
    MovedReads(p, b, i, index);
    var moved := Command(LC_SEGMENT_64, Moved(b, p));
    assert moved in NewOf(f, p, i);
    NewHas(f, p, 0, i, moved);
    OthersStay(f, p, k, moved);
    if p.inserted > 0 {
      var c := SegmentCommand(STUB, p.linkedit.vmaddr, p.inserted, p.linkedit.fileoff, READ_EXECUTE);
      assert c in NewOf(f, p, i);
      NewHas(f, p, 0, i, c);
      IsSegmentCommand(p);
      OthersStay(f, p, k, c);
      StubReads(p, index);
    }
  }

  lemma IsSegmentCommand(p: Plan)
    ensures SegmentCommand(STUB, p.linkedit.vmaddr, p.inserted, p.linkedit.fileoff, READ_EXECUTE).cmd == LC_SEGMENT_64
  {
  }

  lemma SizeIsSmall(f: File, p: Plan, stub: seq<Byte>, i: nat)
    requires PlanOf(f, stub) == Ok(p) && i < |f.commands| && ParseSegment(i, f.commands[i].bytes) == Some(p.linkedit)
    ensures p.size < TWO64
  {
    hide PlanOf;
    Widths();
    var b := f.commands[i].bytes;
    if 48 + 8 <= |b| { FromLeBound(b[48..56]); }
  }

  // ---- the room is small ---------------------------------------------------------------

  predicate Small(segs: seq<Segment>) {
    forall i, j {:trigger segs[i].sections[j]} :: 0 <= i < |segs| && 0 <= j < |segs[i].sections| ==>
      segs[i].sections[j].offset < TWO32
  }

  lemma {:induction false} SegmentsAreSmall(cs: seq<Command>, index: nat)
    ensures Small(SegmentsOf(cs, index))
    decreases |cs|
  {
    hide ParseSegment;
    if cs != [] {
      SegmentsAreSmall(cs[1..], index + 1);
      if cs[0].cmd == LC_SEGMENT_64 && ParseSegment(index, cs[0].bytes).Some? { ParsedSmall(index, cs[0].bytes); }
    }
  }

  lemma ParsedSmall(index: nat, b: seq<Byte>)
    requires ParseSegment(index, b).Some?
    ensures Small([ParseSegment(index, b).value])
  {
    hide Word, Long, Name;
    var s := ParseSegment(index, b).value;
    forall j | 0 <= j < |s.sections| ensures s.sections[j].offset < TWO32 {
      SectionWithin(Word(b, 64), j, |b|);
      WordBound(b[SEGMENT_SIZE + j * SECTION_SIZE..SEGMENT_SIZE + j * SECTION_SIZE + SECTION_SIZE], 48);
    }
  }

  lemma {:induction false} FirstIsSmall(segs: seq<Segment>)
    requires Small(segs)
    ensures FirstOffset(segs).Some? ==> FirstOffset(segs).value < TWO32
  {
    if segs != [] {
      assert Small(segs[1..]) by {
        forall i, j {:trigger segs[1..][i].sections[j]} | 0 <= i < |segs[1..]| && 0 <= j < |segs[1..][i].sections|
          ensures segs[1..][i].sections[j].offset < TWO32
        {
          assert segs[1..][i] == segs[i + 1] && segs[i + 1].sections[j].offset < TWO32;
        }
      }
      FirstIsSmall(segs[1..]);
      forall j | 0 <= j < |segs[0].sections| ensures segs[0].sections[j].offset < TWO32 { }
      SectionIsSmall(segs[0].sections);
    }
  }

  lemma {:induction false} SectionIsSmall(ss: seq<Section>)
    requires forall j :: 0 <= j < |ss| ==> ss[j].offset < TWO32
    ensures FirstSection(ss).Some? ==> FirstSection(ss).value < TWO32
  {
    if ss != [] { SectionIsSmall(ss[1..]); }
  }

  lemma RoomIsSmall(f: File)
    requires WellFormed(f)
    ensures Room(f) < TWO32
  {
    hide Word;
    SegmentsAreSmall(f.commands, 0);
    FirstIsSmall(f.segments);
    WordBound(f.data, 20);
  }
}

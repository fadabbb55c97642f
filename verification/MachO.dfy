/** Mach-O executables as the rewriter reads them (src/macho.rs): the header, its
    commands, and the segments they describe. */
module MachO {
  import opened Wrappers
  import opened Wire
  import NT = NetTypes

  type Byte = NT.Byte

  const MAGIC: nat := 0xFEED_FACF
  const CPU_TYPE_ARM64: nat := 0x0100_000C
  const EXECUTE: nat := 2
  const PAGE: nat := 0x4000
  const HEADER_SIZE: nat := 32
  const SEGMENT_SIZE: nat := 72
  const SECTION_SIZE: nat := 80
  const TWO32: nat := 0x1_0000_0000
  const TWO64: nat := 0x1_0000_0000_0000_0000

  const LC_SEGMENT_64: nat := 0x19
  const LC_SYMTAB: nat := 0x2
  const LC_DYSYMTAB: nat := 0xB
  const LC_SOURCE_VERSION: nat := 0x2A
  const LC_DYLD_INFO: nat := 0x22
  const LC_DYLD_INFO_ONLY: nat := 0x8000_0022
  const LC_CODE_SIGNATURE: nat := 0x1D
  const LC_SEGMENT_SPLIT_INFO: nat := 0x1E
  const LC_FUNCTION_STARTS: nat := 0x26
  const LC_DATA_IN_CODE: nat := 0x29
  const LC_DYLIB_CODE_SIGN_DRS: nat := 0x2B
  const LC_LINKER_OPTIMIZATION_HINT: nat := 0x2E
  const LC_DYLD_EXPORTS_TRIE: nat := 0x8000_0033
  const LC_DYLD_CHAINED_FIXUPS: nat := 0x8000_0034
  const LC_ATOM_INFO: nat := 0x36

  /** The names "__TEXT", "__LINKEDIT" and "__STUB" */
  const TEXT: seq<Byte> := [95, 95, 84, 69, 88, 84]
  const LINKEDIT: seq<Byte> := [95, 95, 76, 73, 78, 75, 69, 68, 73, 84]
  const STUB: seq<Byte> := [95, 95, 83, 84, 85, 66]

  datatype Error =
    | Truncated | BadMagic(magic: nat) | NotArm64Executable | MissingSegment | BadLayout
    | NoHeaderRoom(need: nat, have: nat)

  datatype Result<T> = Ok(value: T) | Err(error: Error)

  datatype Header = Header(cputype: nat, filetype: nat, ncmds: nat, sizeofcmds: nat)

  /** bytes: the whole command, its kind and size included. */
  datatype Command = Command(cmd: nat, bytes: seq<Byte>)

  datatype Section = Section(name: seq<Byte>, addr: nat, size: nat, offset: nat)

  datatype Segment = Segment(
    index: nat, name: seq<Byte>, vmaddr: nat, vmsize: nat, fileoff: nat, filesize: nat, prot: nat,
      sections: seq<Section>)

  datatype File = File(data: seq<Byte>, header: Header, commands: seq<Command>, segments: seq<Segment>)

  // ---- fields ---------------------------------------------------------------

  /** A word of the file, zero when there is none */
  function Word(b: seq<Byte>, at: nat): nat { if at + 4 <= |b| then FromLe(b[at..at + 4]) else 0 }

  function Long(b: seq<Byte>, at: nat): nat { if at + 8 <= |b| then FromLe(b[at..at + 8]) else 0 }

  /** `v` in place of the bytes from `at` on */
  function Put(b: seq<Byte>, at: nat, v: seq<Byte>): (r: seq<Byte>)
    requires at + |v| <= |b|
    ensures |r| == |b|
  {
    b[..at] + v + b[at + |v|..]
  }

  lemma PutSame(b: seq<Byte>, at: nat, v: seq<Byte>)
    requires at + |v| <= |b|
    ensures Put(b, at, v)[at..at + |v|] == v
  {
  }

  lemma PutOther(b: seq<Byte>, at: nat, v: seq<Byte>, lo: nat, hi: nat)
    requires at + |v| <= |b| && lo <= hi <= |b| && (hi <= at || at + |v| <= lo)
    ensures Put(b, at, v)[lo..hi] == b[lo..hi]
  {
  }

  lemma {:induction false} FromLeBound(b: seq<Byte>)
    ensures FromLe(b) < Pow256(|b|)
  {
    if b != [] { FromLeBound(b[1..]); }
  }

  lemma WordBound(b: seq<Byte>, at: nat)
    ensures Word(b, at) < TWO32
  {
    Widths();
    if at + 4 <= |b| { FromLeBound(b[at..at + 4]); }
  }

  /** A field written and read back */
  lemma PutWord(b: seq<Byte>, at: nat, v: nat)
    requires at + 4 <= |b| && v < TWO32
    ensures Word(Put(b, at, Le(v, 4)), at) == v
  {
    Widths();
    LeRoundTrip(v, 4);
    PutSame(b, at, Le(v, 4));
  }

  lemma PutLong(b: seq<Byte>, at: nat, v: nat)
    requires at + 8 <= |b| && v < TWO64
    ensures Long(Put(b, at, Le(v, 8)), at) == v
  {
    Widths();
    LeRoundTrip(v, 8);
    PutSame(b, at, Le(v, 8));
  }

  /** A name ends at its first zero byte. */
  function Name(b: seq<Byte>): seq<Byte> {
    if b == [] || b[0] == 0 then [] else [b[0]] + Name(b[1..])
  }

  // ---- reading --------------------------------------------------------------

  function ParseSection(b: seq<Byte>): Section
    requires |b| == SECTION_SIZE
  {
    Section(Name(b[..16]), Long(b, 32), Long(b, 40), Word(b, 48))
  }

  function ParseSegment(index: nat, b: seq<Byte>): Option<Segment> {
    if |b| < SEGMENT_SIZE then None
    else
      var n := Word(b, 64);
      if SEGMENT_SIZE + n * SECTION_SIZE > |b| then None
      else Some(Segment(index, Name(b[8..24]), Long(b, 24), Long(b, 32), Long(b, 40), Long(b, 48), Word(b, 60),
                        seq(n, k requires 0 <= k < n =>
                          SectionWithin(n, k, |b|);
                          var at := SEGMENT_SIZE + k * SECTION_SIZE;
                          ParseSection(b[at..at + SECTION_SIZE]))))
  }

  lemma SectionWithin(n: nat, k: nat, size: nat)
    requires k < n && SEGMENT_SIZE + n * SECTION_SIZE <= size
    ensures SEGMENT_SIZE + k * SECTION_SIZE + SECTION_SIZE <= size
  {
  }

  /** The `n` commands from `at` on, the first being number `index` */
  function Walk(data: seq<Byte>, at: nat, n: nat, index: nat): Result<seq<Command>>
    decreases n
  {
    if n == 0 then Ok([])
    else
      match CommandAt(data, at, index)
      case Err(e) => Err(e)
      case Ok(c) =>
        match Walk(data, at + |c.bytes|, n - 1, index + 1)
        case Err(e) => Err(e)
        case Ok(cs) => Ok([c] + cs)
  }

  function CommandAt(data: seq<Byte>, at: nat, index: nat): Result<Command> {
    if at + 8 > |data| || at + Word(data, at + 4) > |data| then Err(Truncated)
    else
      var c := Command(Word(data, at), data[at..at + Word(data, at + 4)]);
      if c.cmd == LC_SEGMENT_64 && ParseSegment(index, c.bytes).None? then Err(Truncated) else Ok(c)
  }

  function SegmentsOf(cs: seq<Command>, index: nat): seq<Segment> {
    if cs == [] then []
    else
      var rest := SegmentsOf(cs[1..], index + 1);
      if cs[0].cmd == LC_SEGMENT_64 && ParseSegment(index, cs[0].bytes).Some?
      then [ParseSegment(index, cs[0].bytes).value] + rest else rest
  }

  function HeaderOf(data: seq<Byte>): Header {
    Header(Word(data, 4), Word(data, 12), Word(data, 16), Word(data, 20))
  }

  /** What reading comes to */
  function Parsed(data: seq<Byte>): Result<File> {
    if |data| < 4 then Err(Truncated)
    else if Word(data, 0) != MAGIC then Err(BadMagic(Word(data, 0)))
    else if |data| < HEADER_SIZE then Err(Truncated)
    else
      var h := HeaderOf(data);
      if h.cputype != CPU_TYPE_ARM64 || h.filetype != EXECUTE then Err(NotArm64Executable)
      else
        match Walk(data, HEADER_SIZE, h.ncmds, 0)
        case Err(e) => Err(e)
        case Ok(cs) => Ok(File(data, h, cs, SegmentsOf(cs, 0)))
  }

  function After(cs: seq<Command>, r: Result<seq<Command>>): Result<seq<Command>> {
    match r case Err(e) => Err(e) case Ok(rest) => Ok(cs + rest)
  }

  lemma AfterMore(cs: seq<Command>, c: Command, r: Result<seq<Command>>)
    ensures After(cs, After([c], r)) == After(cs + [c], r)
  {
    if r.Ok? { assert cs + ([c] + r.value) == cs + [c] + r.value; }
  }

  lemma {:induction false} SegmentsMore(cs: seq<Command>, c: Command, index: nat)
    ensures SegmentsOf(cs + [c], index)
            == SegmentsOf(cs, index)
               + if c.cmd == LC_SEGMENT_64 && ParseSegment(index + |cs|, c.bytes).Some?
                 then [ParseSegment(index + |cs|, c.bytes).value] else []
  {
    hide ParseSegment;
    if cs == [] {
      assert (cs + [c])[1..] == [];
    } else {
      assert (cs + [c])[1..] == cs[1..] + [c];
      SegmentsMore(cs[1..], c, index + 1);
    }
  }

  lemma AfterErr(cs: seq<Command>, e: Error)
    ensures After(cs, Err(e)) == Err(e)
  {
  }

  lemma NothingWalked(data: seq<Byte>, n: nat)
    ensures Walk(data, HEADER_SIZE, n, 0) == After([], Walk(data, HEADER_SIZE, n, 0)) && SegmentsOf([], 0) == []
  {
    hide Walk;
    var r := Walk(data, HEADER_SIZE, n, 0);
    if r.Ok? { assert [] + r.value == r.value; }
  }

  lemma NothingLeft(data: seq<Byte>, at: nat, cs: seq<Command>)
    ensures After(cs, Walk(data, at, 0, |cs|)) == Ok(cs)
  {
    assert cs + [] == cs;
  }

  lemma WalkStep(data: seq<Byte>, at: nat, n: nat, index: nat)
    requires n > 0
    ensures Walk(data, at, n, index)
            == match CommandAt(data, at, index)
               case Err(e) => Err(e)
               case Ok(c) => After([c], Walk(data, at + |c.bytes|, n - 1, index + 1))
  {
    hide CommandAt;
  }

  lemma IsSegment(data: seq<Byte>, at: nat, index: nat)
    requires CommandAt(data, at, index).Ok? && CommandAt(data, at, index).value.cmd == LC_SEGMENT_64
    ensures ParseSegment(index, CommandAt(data, at, index).value.bytes).Some?
  {
    hide ParseSegment;
  }

  method Parse(data: seq<Byte>) returns (r: Result<File>)
    ensures r == Parsed(data)
  {
    hide ParseSegment, Word, CommandAt, SegmentsOf, After, Walk;
    if |data| < 4 { return Err(Truncated); }
    if Word(data, 0) != MAGIC { return Err(BadMagic(Word(data, 0))); }
    if |data| < HEADER_SIZE { return Err(Truncated); }
    var h := HeaderOf(data);
    if h.cputype != CPU_TYPE_ARM64 || h.filetype != EXECUTE { return Err(NotArm64Executable); }
    var commands: seq<Command>, segments: seq<Segment> := [], [];
    var at: nat, n := HEADER_SIZE, h.ncmds;
    NothingWalked(data, n);
    while |commands| < n
      invariant |commands| <= n && segments == SegmentsOf(commands, 0)
      invariant Walk(data, HEADER_SIZE, n, 0) == After(commands, Walk(data, at, n - |commands|, |commands|))
    {
      var k := |commands|;
      var next := CommandAt(data, at, k);
      WalkStep(data, at, n - k, k);
      if next.Err? {
        AfterErr(commands, next.error);
        return Err(next.error);
      }
      var c := next.value;
      SegmentsMore(commands, c, 0);
      AfterMore(commands, c, Walk(data, at + |c.bytes|, n - k - 1, k + 1));
      if c.cmd == LC_SEGMENT_64 {
        IsSegment(data, at, k);
        segments := segments + [ParseSegment(k, c.bytes).value];
      }
      commands := commands + [c];
      at := at + |c.bytes|;
    }
    NothingLeft(data, at, commands);
    return Ok(File(data, h, commands, segments));
  }

  // ---- commands in a row ----------------------------------------------------

  function Size(cs: seq<Command>): nat {
    if cs == [] then 0 else |cs[0].bytes| + Size(cs[1..])
  }

  function Bytes(cs: seq<Command>): (b: seq<Byte>)
    ensures |b| == Size(cs)
  {
    if cs == [] then [] else cs[0].bytes + Bytes(cs[1..])
  }

  /** A command that says what it is, at the `index`th place */
  predicate Proper(c: Command, index: nat) {
    && |c.bytes| >= 8 && Word(c.bytes, 0) == c.cmd && Word(c.bytes, 4) == |c.bytes|
    && (c.cmd == LC_SEGMENT_64 ==> ParseSegment(index, c.bytes).Some?)
  }

  lemma SlicedWord(data: seq<Byte>, at: nat, b: seq<Byte>, off: nat)
    requires at + |b| <= |data| && data[at..at + |b|] == b && off + 4 <= |b|
    ensures Word(data, at + off) == Word(b, off)
  {
    SubSlice(data, at, |b|, off, off + 4);
  }

  lemma SubSlice(data: seq<Byte>, at: nat, n: nat, lo: nat, hi: nat)
    requires at + n <= |data| && lo <= hi <= n
    ensures data[at..at + n][lo..hi] == data[at + lo..at + hi]
  {
    var d := data[at..at + n];
    forall k | 0 <= k < hi - lo ensures d[lo..hi][k] == data[at + lo..at + hi][k] {
      assert d[lo + k] == data[at + (lo + k)];
    }
    assert d[lo..hi] == data[at + lo..at + hi];
  }

  lemma Parts(data: seq<Byte>, at: nat, x: seq<Byte>, y: seq<Byte>)
    requires at + |x| + |y| <= |data| && data[at..at + |x| + |y|] == x + y
    ensures data[at..at + |x|] == x && data[at + |x|..at + |x| + |y|] == y
  {
    var d := data[at..at + |x| + |y|];
    assert data[at..at + |x|] == d[..|x|] && data[at + |x|..at + |x| + |y|] == d[|x|..];
  }

  /** Commands written one after the other are read back as they were. */
  lemma {:induction false} WalkReads(data: seq<Byte>, at: nat, cs: seq<Command>, index: nat)
    requires at + Size(cs) <= |data| && data[at..at + Size(cs)] == Bytes(cs)
    requires forall i {:trigger cs[i]} :: 0 <= i < |cs| ==> Proper(cs[i], index + i)
    ensures Walk(data, at, |cs|, index) == Ok(cs)
    decreases |cs|
  {
    hide ParseSegment, Proper, Word, CommandAt;
    if cs != [] {
      var c, rest := cs[0], cs[1..];
      assert Proper(cs[0], index + 0);
      Parts(data, at, c.bytes, Bytes(rest));
      FirstReads(data, at, c, index);
      forall i {:trigger rest[i]} | 0 <= i < |rest| ensures Proper(rest[i], index + 1 + i) {
        assert rest[i] == cs[i + 1] && Proper(cs[i + 1], index + (i + 1));
      }
      WalkReads(data, at + |c.bytes|, rest, index + 1);
      assert [c] + rest == cs && |rest| == |cs| - 1;
    }
  }

  lemma FirstReads(data: seq<Byte>, at: nat, c: Command, index: nat)
    requires at + |c.bytes| <= |data| && data[at..at + |c.bytes|] == c.bytes && Proper(c, index)
    ensures CommandAt(data, at, index) == Ok(c)
  {
    hide ParseSegment;
    SlicedWord(data, at, c.bytes, 0);
    SlicedWord(data, at, c.bytes, 4);
  }

  // ---- what the reader is asked ---------------------------------------------

  function FirstNamed(segs: seq<Segment>, name: seq<Byte>): Option<Segment> {
    if segs == [] then None else if segs[0].name == name then Some(segs[0]) else FirstNamed(segs[1..], name)
  }

  function FirstCommand(cs: seq<Command>, cmd: nat): Option<Command> {
    if cs == [] then None else if cs[0].cmd == cmd then Some(cs[0]) else FirstCommand(cs[1..], cmd)
  }

  /** Where a command's data lies, and how much there is */
  function DataOf(f: File, cmd: nat): Option<(nat, nat)> {
    match FirstCommand(f.commands, cmd)
    case None => None
    case Some(c) => if |c.bytes| >= 16 then Some((Word(c.bytes, 8), Word(c.bytes, 12))) else None
  }

  predicate Covers(s: Segment, addr: nat) { s.filesize > 0 && s.vmaddr <= addr < s.vmaddr + s.vmsize }

  function FirstCovering(segs: seq<Segment>, addr: nat): (r: Option<Segment>)
    ensures r.Some? ==> r.value in segs && Covers(r.value, addr)
  {
    if segs == [] then None else if Covers(segs[0], addr) then Some(segs[0]) else FirstCovering(segs[1..], addr)
  }

  /** Where in the file an address is, if it is in the file */
  function OffsetOf(f: File, addr: nat): Option<nat> {
    match FirstCovering(f.segments, addr)
    case None => None
    case Some(s) => var at: nat := addr - s.vmaddr; if at < s.filesize then Some(s.fileoff + at) else None
  }
}

/** The fixed ring buffers of a socket record, and how the record's bytes stand
    for the queues of `NetSpec`. */
module Rings {
  import opened NetTypes
  import opened Wire
  import opened NetSpec

  type Ring = r: seq<Byte> | |r| == RING witness seq(RING, i => 0)

  /** Where byte `j` from `head` lies */
  function Slot(head: nat, j: nat): (at: nat)
    ensures at < RING
  {
    (head + j) % RING
  }

  /** The `len` bytes from `head` on, wrapping at the end */
  function Contents(r: Ring, head: nat, len: nat): (b: seq<Byte>)
    requires head < RING && len <= RING
    ensures |b| == len
  {
    seq(len, j requires 0 <= j < len => r[Slot(head, j)])
  }

  /** Copying `bytes` in behind the contents, one at a time */
  method Push(r: Ring, head: nat, len: nat, bytes: seq<Byte>) returns (out: Ring)
    requires head < RING && len + |bytes| <= RING
    ensures Contents(out, head, len + |bytes|) == Contents(r, head, len) + bytes
  {
    out := r;
    var at := (head + len) % RING;
    for i := 0 to |bytes|
      invariant at == (head + len + i) % RING
      invariant Contents(out, head, len + i) == Contents(r, head, len) + bytes[..i]
    {
      PushOne(out, head, len + i, bytes[i]);
      assert bytes[..i] + [bytes[i]] == bytes[..i + 1];
      out := out[at := bytes[i]];
      at := (at + 1) % RING;
    }
    assert bytes[..|bytes|] == bytes;
  }

  lemma PushOne(r: Ring, head: nat, len: nat, b: Byte)
    requires head < RING && len < RING
    ensures Contents(r[Slot(head, len) := b], head, len + 1) == Contents(r, head, len) + [b]
  {
    var s := r[Slot(head, len) := b];
    forall j: nat | j < len ensures s[Slot(head, j)] == r[Slot(head, j)] { }
  }

  /** `n` bytes of the contents from `offset` on, copied one at a time */
  method Peek(r: Ring, head: nat, len: nat, offset: nat, n: nat) returns (out: seq<Byte>)
    requires head < RING && offset + n <= len <= RING
    ensures out == Contents(r, head, len)[offset..offset + n]
  {
    out := [];
    var at := (head + offset) % RING;
    for i := 0 to n
      invariant at == (head + offset + i) % RING
      invariant out == Contents(r, head, len)[offset..offset + i]
    {
      out := out + [r[at]];
      at := (at + 1) % RING;
    }
  }

  /** Moving the head over `n` bytes drops them from the front. */
  lemma SkipContents(r: Ring, head: nat, len: nat, n: nat)
    requires head < RING && n <= len <= RING
    ensures Contents(r, (head + n) % RING, len - n) == Contents(r, head, len)[n..]
  {
    forall j: nat | j < len - n
      ensures Contents(r, (head + n) % RING, len - n)[j] == Contents(r, head, len)[n..][j]
    {
      SlotMoved(head, n, j);
      hide Slot;
    }
  }

  lemma SlotMoved(head: nat, n: nat, j: nat)
    requires head < RING && n <= RING
    ensures Slot((head + n) % RING, j) == Slot(head, n + j)
  {
    if head + n >= RING {
      assert (head + n) % RING == head + n - RING;
      assert head + (n + j) == (head + n - RING + j) + RING;
    }
  }

  // ---- records ------------------------------------------------------------

  /** A socket as it lies in the table: counters, heads and lengths, and the
      two rings themselves */
  datatype CSock = CSock(
    state: SockState, kind: Kind, family: Family,
    fin: bool, shutWr: bool, shutRd: bool, hasPeer: bool,
    host: nat, refs: nat, farEnd: nat,
    local: Addr, peer: Addr,
    backlog: seq<nat>, backlogLen: nat, backlogMax: nat,
    rxHead: nat, rxLen: nat, rdEvents: nat, wrEvents: nat,
    flHead: nat, flLen: nat, flStream: nat,
    rx: Ring, flight: Ring)

  /** The record is well formed and its flight ring holds the records `f`. */
  predicate COk(c: CSock, f: seq<Rec>) {
    && |c.backlog| == BACKLOG && c.backlogLen <= BACKLOG
    && c.rxHead < RING && c.rxLen <= RING && c.flHead < RING && c.flLen <= RING
    && Contents(c.flight, c.flHead, c.flLen) == EncFlight(f)
    && c.flStream == FlStream(f) && c.rxLen + c.flStream <= RING
    && forall i :: 0 <= i < |f| ==> RecFits(f[i])
  }

  /** The socket a record stands for */
  function Abs(c: CSock, f: seq<Rec>): Sock
    requires COk(c, f)
  {
    Sock(c.state, c.kind, c.family, c.fin, c.shutWr, c.shutRd, c.hasPeer, c.host, c.refs, c.farEnd,
         c.local, c.peer, c.backlog[..c.backlogLen], c.backlogMax,
         Contents(c.rx, c.rxHead, c.rxLen), c.rdEvents, c.wrEvents, f)
  }

  /** A record's bytes determine the socket: there is one way to read them. */
  lemma AbsUnique(c: CSock, f: seq<Rec>, g: seq<Rec>)
    requires COk(c, f) && COk(c, g)
    ensures f == g
  {
    EncFlightInjective(f, g);
  }

  lemma FlightLen(c: CSock, f: seq<Rec>)
    requires COk(c, f)
    ensures c.flLen == FlLen(f) && (c.flLen == 0 <==> f == [])
  {
    assert |EncFlight(f)| == c.flLen;
  }

  /** The rings, their heads and lengths are the same in both records. */
  predicate SameRings(c: CSock, d: CSock) {
    && |d.backlog| == BACKLOG && d.backlogLen <= BACKLOG
    && d.rxHead == c.rxHead && d.rxLen == c.rxLen && d.rx == c.rx
    && d.flHead == c.flHead && d.flLen == c.flLen && d.flStream == c.flStream && d.flight == c.flight
  }

  /** The socket with everything but its traffic taken from the record */
  function Recast(k: Sock, c: CSock): Sock
    requires c.backlogLen <= |c.backlog|
  {
    Sock(c.state, c.kind, c.family, c.fin, c.shutWr, c.shutRd, c.hasPeer, c.host, c.refs, c.farEnd,
         c.local, c.peer, c.backlog[..c.backlogLen], c.backlogMax, k.rx, c.rdEvents, c.wrEvents, k.flight)
  }

  lemma PlainOk(c: CSock, d: CSock, f: seq<Rec>)
    requires COk(c, f) && SameRings(c, d)
    ensures COk(d, f) && Abs(d, f) == Recast(Abs(c, f), d)
  {
  }

  // ---- what each ring operation does to the socket --------------------------

  method RingPush(c: CSock, ghost f: seq<Rec>, bytes: seq<Byte>) returns (d: CSock)
    requires COk(c, f) && c.rxLen + |bytes| + c.flStream <= RING
    ensures COk(d, f) && Abs(d, f) == Abs(c, f).(rx := Abs(c, f).rx + bytes)
    ensures d == c.(rx := d.rx, rxLen := c.rxLen + |bytes|)
  {
    var rx := Push(c.rx, c.rxHead, c.rxLen, bytes);
    d := c.(rx := rx, rxLen := c.rxLen + |bytes|);
  }

  method RingSkip(c: CSock, ghost f: seq<Rec>, n: nat) returns (d: CSock)
    requires COk(c, f) && n <= c.rxLen
    ensures COk(d, f) && Abs(d, f) == Abs(c, f).(rx := Abs(c, f).rx[n..])
  {
    SkipContents(c.rx, c.rxHead, c.rxLen, n);
    d := c.(rxHead := (c.rxHead + n) % RING, rxLen := c.rxLen - n);
  }

  /** Writing a whole record behind those in flight, header first */
  method FlightPush(c: CSock, ghost f: seq<Rec>, r: Rec) returns (d: CSock)
    requires COk(c, f) && RecFits(r) && c.flLen + RecLen(r) <= RING
    requires c.rxLen + c.flStream + StreamLen(r) <= RING
    ensures COk(d, f + [r]) && Abs(d, f + [r]) == Abs(c, f).(flight := f + [r])
  {
    EncFlightAppend(f, r);
    FlightAppend(f, r);
    var header := RecHeader(r);
    var fl := Push(c.flight, c.flHead, c.flLen, header);
    fl := Push(fl, c.flHead, c.flLen + |header|, r.body);
    assert Contents(fl, c.flHead, c.flLen + RecLen(r)) == EncFlight(f) + EncRec(r);
    d := c.(flight := fl, flLen := c.flLen + RecLen(r), flStream := c.flStream + StreamLen(r));
  }

  /** A stretch of a flight ring that is read as the records `f` */
  predicate Reads(r: Ring, head: nat, len: nat, f: seq<Rec>) {
    && head < RING && len <= RING && Contents(r, head, len) == EncFlight(f)
    && forall i :: 0 <= i < |f| ==> RecFits(f[i])
  }

  /** The header of the oldest record, read back from the ring's bytes */
  method HeadHeader(r: Ring, head: nat, len: nat, ghost f: seq<Rec>) returns (due: nat, kind: RecKind, body: nat)
    requires Reads(r, head, len, f) && len > 0
    ensures f != [] && due == f[0].due && kind == f[0].kind && body == |f[0].body|
    ensures FLIGHT_HEADER + body <= len
    ensures FLIGHT_HEADER + body == len ==> |f| == 1
  {
    assert |EncFlight(f)| == len;
    assert EncFlight(f) == (RecHeader(f[0]) + f[0].body) + EncFlight(f[1..]);
    var h := Peek(r, head, len, 0, FLIGHT_HEADER);
    HeaderRoundTrip(f[0]);
    assert h == RecHeader(f[0]);
    due, kind, body := HeaderDue(h), HeaderKind(h), HeaderLen(h);
  }

  /** Behind the oldest record's header lie its body and the other records. */
  lemma AfterHeader(r: Ring, head: nat, len: nat, f: seq<Rec>)
    requires Reads(r, head, len, f) && f != []
    ensures FLIGHT_HEADER + |f[0].body| <= len
    ensures Contents(r, (head + FLIGHT_HEADER) % RING, len - FLIGHT_HEADER) == f[0].body + EncFlight(f[1..])
    ensures Reads(r, (head + RecLen(f[0])) % RING, len - RecLen(f[0]), f[1..])
  {
    assert |EncFlight(f)| == len;
    assert EncFlight(f) == (RecHeader(f[0]) + f[0].body) + EncFlight(f[1..]);
    SkipContents(r, head, len, FLIGHT_HEADER);
    SkipContents(r, head, len, RecLen(f[0]));
    hide Contents;
    ThreeParts(EncFlight(f), RecHeader(f[0]), f[0].body, EncFlight(f[1..]));
  }

  lemma ThreeParts(s: seq<Byte>, a: seq<Byte>, b: seq<Byte>, c: seq<Byte>)
    requires s == (a + b) + c
    ensures s[|a|..] == b + c && s[|a| + |b|..] == c
  {
  }

  /** Walk the headers of a flight ring, taking every record off the account
      of records in flight. */
  method DiscardFlight(c: CSock, ghost f: seq<Rec>, inFlight: nat) returns (left: nat)
    requires COk(c, f)
    ensures left == SatSub(inFlight, |f|)
  {
    var head: nat, len: nat := c.flHead, c.flLen;
    ghost var n := 0;
    left := inFlight;
    while len >= FLIGHT_HEADER
      invariant n <= |f| && Reads(c.flight, head, len, f[n..]) && left == SatSub(inFlight, n)
      decreases len
    {
      var due, kind, body := HeadHeader(c.flight, head, len, f[n..]);
      AfterHeader(c.flight, head, len, f[n..]);
      assert f[n..][1..] == f[n + 1..];
      var record := Min(FLIGHT_HEADER + body, len);
      head, len := (head + record) % RING, len - record;
      left := SatSub(left, 1);
      n := n + 1;
    }
    ShortFlight(f[n..]);
  }

  lemma ShortFlight(f: seq<Rec>)
    requires |EncFlight(f)| < FLIGHT_HEADER
    ensures f == []
  {
    FlightBounds(f);
  }

  /** One chunk of `land`: copied out, skipped, and pushed on */
  method MoveChunk(fl: Ring, head: nat, len: nat, rx: Ring, rxHead: nat, rxLen: nat, step: nat)
    returns (out: Ring)
    requires head < RING && step <= len <= RING && rxHead < RING && rxLen + step <= RING
    ensures Contents(out, rxHead, rxLen + step)
            == Contents(rx, rxHead, rxLen) + Contents(fl, head, len)[..step]
    ensures Contents(fl, (head + step) % RING, len - step) == Contents(fl, head, len)[step..]
  {
    var chunk := Peek(fl, head, len, 0, step);
    SkipContents(fl, head, len, step);
    out := Push(rx, rxHead, rxLen, chunk);
  }

  /** Move `n` bytes from the front of a flight ring to a receive ring, at
      most 256 at a time. */
  method Land(fl: Ring, from: nat, size: nat, rx0: Ring, rxHead: nat, rxLen0: nat, n: nat)
    returns (rx: Ring, head: nat)
    requires from < RING && n <= size <= RING && rxHead < RING && rxLen0 + n <= RING
    ensures head == (from + n) % RING
    ensures Contents(rx, rxHead, rxLen0 + n) == Contents(rx0, rxHead, rxLen0) + Contents(fl, from, size)[..n]
  {
    hide Contents;
    rx, head := rx0, from;
    var left: nat := n;
    ghost var all := Contents(fl, from, size);
    ghost var was := Contents(rx0, rxHead, rxLen0);
    assert was + all[..0] == was && all[0..] == all;
    while left > 0
      invariant left <= n && head == (from + (n - left)) % RING
      invariant Contents(fl, head, size - (n - left)) == all[n - left..]
      invariant Contents(rx, rxHead, rxLen0 + (n - left)) == was + all[..n - left]
    {
      var step := Min(left, 256);
      rx := MoveChunk(fl, head, size - (n - left), rx, rxHead, rxLen0 + (n - left), step);
      TakeMore(was, all, n - left, step);
      TurnMore(from, n - left, step);
      head := (head + step) % RING;
      left := left - step;
    }
  }

  lemma TakeMore(was: seq<Byte>, s: seq<Byte>, a: nat, b: nat)
    requires a + b <= |s|
    ensures was + s[..a] + s[a..][..b] == was + s[..a + b] && s[a..][b..] == s[a + b..]
  {
    assert s[..a] + s[a..][..b] == s[..a + b];
  }

  lemma TurnMore(from: nat, a: nat, b: nat)
    ensures ((from + a) % RING + b) % RING == (from + (a + b)) % RING
  {
  }

  /** The record with the head of its flight ring moved over the oldest
      record, and `rx` as its receive ring's new bytes */
  function Past(c: CSock, f: seq<Rec>, rx: Ring, n: nat): CSock
    requires COk(c, f) && f != [] && RecLen(f[0]) <= c.flLen && StreamLen(f[0]) <= c.flStream
  {
    c.(flHead := (c.flHead + RecLen(f[0])) % RING, flLen := c.flLen - RecLen(f[0]),
       flStream := c.flStream - StreamLen(f[0]), rx := rx, rxLen := c.rxLen + n)
  }

  lemma PastOk(c: CSock, f: seq<Rec>, rx: Ring, n: nat)
    requires COk(c, f) && f != [] && c.rxLen + n + FlStream(f[1..]) <= RING
    ensures RecLen(f[0]) <= c.flLen && StreamLen(f[0]) <= c.flStream
    ensures COk(Past(c, f, rx, n), f[1..])
    ensures Abs(Past(c, f, rx, n), f[1..])
            == Abs(c, f).(flight := f[1..], rx := Contents(rx, c.rxHead, c.rxLen + n))
  {
    hide Contents, EncFlight;
    AfterHeader(c.flight, c.flHead, c.flLen, f);
  }

  lemma HeadFacts(c: CSock, f: seq<Rec>)
    requires COk(c, f) && f != []
    ensures c.rxHead < RING && c.flHead < RING && c.rxLen + c.flStream <= RING && c.flLen <= RING
    ensures RecLen(f[0]) <= c.flLen && StreamLen(f[0]) + FlStream(f[1..]) == c.flStream
    ensures var at := (c.flHead + FLIGHT_HEADER) % RING;
            var behind := Contents(c.flight, at, c.flLen - FLIGHT_HEADER);
            |behind| >= |f[0].body| && behind[..|f[0].body|] == f[0].body
            && (|f[0].body| >= 4 ==> behind[0..4] == f[0].body[..4])
  {
    AfterHeader(c.flight, c.flHead, c.flLen, f);
  }

  /** Only the event counter and the FIN differ. */
  lemma TouchOk(c: CSock, d: CSock, f: seq<Rec>)
    requires COk(c, f) && d == c.(fin := d.fin, rdEvents := d.rdEvents)
    ensures COk(d, f) && Abs(d, f) == Abs(c, f).(fin := d.fin, rdEvents := d.rdEvents)
  {
  }

  lemma AbsFields(c: CSock, f: seq<Rec>)
    requires COk(c, f)
    ensures Abs(c, f).rx == Contents(c.rx, c.rxHead, c.rxLen) && |Abs(c, f).rx| == c.rxLen
    ensures Abs(c, f).flight == f && Abs(c, f).fin == c.fin && Abs(c, f).rdEvents == c.rdEvents
  {
  }

  /** Stream bytes land: they always fit. */
  method LandBytes(c: CSock, ghost f: seq<Rec>, len: nat) returns (d: CSock)
    requires COk(c, f) && f != [] && KBytes == f[0].kind && len == |f[0].body|
    ensures COk(d, f[1..])
    ensures (Abs(d, f[1..]), len, 0) == LandOn(Abs(c, f))
  {
    hide Contents, EncFlight, Abs, COk;
    HeadFacts(c, f);
    AbsFields(c, f);
    var at, size := (c.flHead + FLIGHT_HEADER) % RING, c.flLen - FLIGHT_HEADER;
    var rx, head := Land(c.flight, at, size, c.rx, c.rxHead, c.rxLen, len);
    PastOk(c, f, rx, len);
    TurnMore(c.flHead, FLIGHT_HEADER, len);
    d := c.(flHead := head, flLen := size - len, rdEvents := c.rdEvents + 1,
            rx := rx, rxLen := c.rxLen + len, flStream := c.flStream - len);
    TouchOk(Past(c, f, rx, len), d, f[1..]);
  }

  method DropDgram(c: CSock, ghost f: seq<Rec>, len: nat) returns (d: CSock)
    requires COk(c, f) && f != [] && KDgram == f[0].kind && len == |f[0].body|
    ensures COk(d, f[1..])
    ensures Abs(d, f[1..]) == Abs(c, f).(flight := f[1..], rdEvents := c.rdEvents + 1)
  {
    hide Contents, EncFlight, Abs, COk;
    HeadFacts(c, f);
    AbsFields(c, f);
    var at, size := (c.flHead + FLIGHT_HEADER) % RING, c.flLen - FLIGHT_HEADER;
    PastOk(c, f, c.rx, 0);
    d := c.(flHead := (at + len) % RING, flLen := size - len, rdEvents := c.rdEvents + 1);
    TouchOk(Past(c, f, c.rx, 0), d, f[1..]);
  }

  method KeepDgram(c: CSock, ghost f: seq<Rec>, len: nat) returns (d: CSock)
    requires COk(c, f) && f != [] && KDgram == f[0].kind && len == |f[0].body| && c.flStream == 0
    requires len <= RING - c.rxLen
    ensures COk(d, f[1..])
    ensures Abs(d, f[1..]) == Abs(c, f).(flight := f[1..], rx := Abs(c, f).rx + f[0].body, rdEvents := c.rdEvents + 1)
  {
    hide Contents, EncFlight, Abs, COk;
    HeadFacts(c, f);
    AbsFields(c, f);
    var at, size := (c.flHead + FLIGHT_HEADER) % RING, c.flLen - FLIGHT_HEADER;
    var rx, head := Land(c.flight, at, size, c.rx, c.rxHead, c.rxLen, len);
    PastOk(c, f, rx, len);
    TurnMore(c.flHead, FLIGHT_HEADER, len);
    d := c.(flHead := head, flLen := size - len, rdEvents := c.rdEvents + 1, rx := rx, rxLen := c.rxLen + len);
    TouchOk(Past(c, f, rx, len), d, f[1..]);
  }

  /** A datagram lands whole, or is lost for want of room. */
  method LandDgram(c: CSock, ghost f: seq<Rec>, len: nat) returns (d: CSock, taken: nat, lost: nat)
    requires COk(c, f) && f != [] && KDgram == f[0].kind && len == |f[0].body| && c.flStream == 0
    ensures COk(d, f[1..])
    ensures (Abs(d, f[1..]), taken, lost) == LandOn(Abs(c, f))
  {
    hide Contents, EncFlight, Abs, COk;
    HeadFacts(c, f);
    AbsFields(c, f);
    var at, size := (c.flHead + FLIGHT_HEADER) % RING, c.flLen - FLIGHT_HEADER;
    var header := Peek(c.flight, at, size, 0, Min(4, len));
    if len <= RING - c.rxLen {
      d := KeepDgram(c, f, len);
      taken, lost := if len >= 4 then FromLe(header) else 0, 0;
    } else {
      d := DropDgram(c, f, len);
      taken, lost := 0, 1;
    }
  }

  /** The oldest record lands: what `NetSpec.LandOn` says, in the bytes. */
  method LandHeadOn(c: CSock, ghost f: seq<Rec>, kind: RecKind, len: nat)
    returns (d: CSock, taken: nat, lost: nat)
    requires COk(c, f) && f != [] && kind == f[0].kind && len == |f[0].body|
    requires (kind == KDgram ==> c.flStream == 0) && (kind == KFin ==> len == 0)
    ensures COk(d, f[1..])
    ensures (Abs(d, f[1..]), taken, lost) == LandOn(Abs(c, f))
  {
    hide Contents, EncFlight, Abs, COk;
    HeadFacts(c, f);
    AbsFields(c, f);
    taken, lost := 0, 0;
    match kind {
      case KFin =>
        PastOk(c, f, c.rx, 0);
        d := c.(flHead := (c.flHead + FLIGHT_HEADER) % RING, flLen := c.flLen - FLIGHT_HEADER,
                rdEvents := c.rdEvents + 1, fin := true);
        TouchOk(Past(c, f, c.rx, 0), d, f[1..]);
      case KBytes =>
        d := LandBytes(c, f, len);
        taken := len;
      case KDgram =>
        d, taken, lost := LandDgram(c, f, len);
    }
  }
}

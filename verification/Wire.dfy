/** Little-endian fields: the bytes of a datagram in a receive ring, and of a
    record in a flight ring. */
module Wire {
  import opened NetTypes

  /** The low `n` bytes of `v`, least significant first */
  function Le(v: nat, n: nat): (b: seq<Byte>)
    ensures |b| == n
  {
    if n == 0 then [] else [v % 256] + Le(v / 256, n - 1)
  }

  function FromLe(b: seq<Byte>): nat {
    if b == [] then 0 else b[0] + 256 * FromLe(b[1..])
  }

  function Pow256(n: nat): (p: nat)
    ensures p >= 1
  {
    if n == 0 then 1 else 256 * Pow256(n - 1)
  }

  lemma {:induction false} LeRoundTrip(v: nat, n: nat)
    requires v < Pow256(n)
    ensures FromLe(Le(v, n)) == v
  {
    if n > 0 {
      LeRoundTrip(v / 256, n - 1);
      assert Le(v, n)[1..] == Le(v / 256, n - 1);
    }
  }

  lemma Widths()
    ensures Pow256(2) == 0x1_0000 && Pow256(4) == 0x1_0000_0000 && Pow256(8) == 0x1_0000_0000_0000_0000
  {
    assert Pow256(2) == 256 * Pow256(1) == 256 * 256 * Pow256(0);
    assert Pow256(4) == 256 * Pow256(3) == 256 * 256 * Pow256(2);
    assert Pow256(6) == 256 * Pow256(5) == 256 * 256 * Pow256(4);
    assert Pow256(8) == 256 * Pow256(7) == 256 * 256 * Pow256(6);
  }

  // ---- datagrams in a receive ring ----------------------------------------

  function FamilyCode(f: Family): Byte {
    match f case NoFamily => 0 case Inet => 1 case Unix => 2
  }

  function FamilyOf(b: Byte): Family {
    if b == 1 then Inet else if b == 2 then Unix else NoFamily
  }

  predicate AddrFits(a: Addr) { a.port < 0x1_0000 && a.ip < 0x1_0000_0000 && |a.path| <= 104 }

  /** A datagram in a ring: twelve bytes of header naming payload size and
      sender, the sender's path, the payload */
  function EncDgram(from: Addr, data: seq<Byte>): (b: seq<Byte>)
    ensures |b| == DGRAM_HEADER + |from.path| + |data|
  {
    Le(|data|, 4) + Le(from.ip, 4) + Le(from.port, 2)
    + [FamilyCode(from.family)] + [|from.path| % 256] + from.path + data
  }

  predicate DgramHead(b: seq<Byte>) {
    |b| >= DGRAM_HEADER && |b| >= DgramSize(b)
  }

  /** Bytes the datagram at the head of `b` occupies */
  function DgramSize(b: seq<Byte>): nat
    requires |b| >= DGRAM_HEADER
  {
    DGRAM_HEADER + b[11] + FromLe(b[..4])
  }

  function DgramFrom(b: seq<Byte>): Addr
    requires DgramHead(b)
  {
    Addr(FamilyOf(b[10]), FromLe(b[8..10]), FromLe(b[4..8]), b[DGRAM_HEADER..DGRAM_HEADER + b[11]])
  }

  function DgramData(b: seq<Byte>): seq<Byte>
    requires DgramHead(b)
  {
    b[DGRAM_HEADER + b[11]..DgramSize(b)]
  }

  /** Reading the head of a ring that starts with an encoded datagram gives
      back its source, its payload and exactly its extent. */
  lemma DgramRoundTrip(from: Addr, data: seq<Byte>, rest: seq<Byte>)
    requires AddrFits(from) && |data| < 0x1_0000_0000
    ensures DgramHead(EncDgram(from, data) + rest)
    ensures DgramFrom(EncDgram(from, data) + rest) == from
    ensures DgramData(EncDgram(from, data) + rest) == data
    ensures DgramSize(EncDgram(from, data) + rest) == |EncDgram(from, data)|
  {
    var b := EncDgram(from, data) + rest;
    Widths();
    LeRoundTrip(|data|, 4);
    LeRoundTrip(from.ip, 4);
    LeRoundTrip(from.port, 2);
    assert b[..4] == Le(|data|, 4);
    assert b[4..8] == Le(from.ip, 4);
    assert b[8..10] == Le(from.port, 2);
    assert b[10] == FamilyCode(from.family) && b[11] == |from.path|;
    assert b[12..12 + |from.path|] == from.path;
    assert b[12 + |from.path|..12 + |from.path| + |data|] == data;
  }

  // ---- records in a flight ring -------------------------------------------

  function KindCode(k: RecKind): Byte {
    match k case KBytes => 1 case KDgram => 2 case KFin => 3
  }

  /** `advance` takes every other code for a datagram. */
  function RecKindOf(b: Byte): RecKind {
    if b == 3 then KFin else if b == 1 then KBytes else KDgram
  }

  predicate RecFits(r: Rec) { r.due < 0x1_0000_0000_0000_0000 && |r.body| < 0x1_0000_0000 }

  function RecHeader(r: Rec): (b: seq<Byte>)
    ensures |b| == FLIGHT_HEADER
  {
    Le(r.due, 8) + [KindCode(r.kind)] + Le(|r.body|, 4)
  }

  function EncRec(r: Rec): (b: seq<Byte>)
    ensures |b| == RecLen(r)
  {
    RecHeader(r) + r.body
  }

  /** The bytes of a whole flight ring */
  function EncFlight(f: seq<Rec>): (b: seq<Byte>)
    ensures |b| == FlLen(f)
  {
    if f == [] then [] else EncRec(f[0]) + EncFlight(f[1..])
  }

  function HeaderDue(h: seq<Byte>): nat requires |h| == FLIGHT_HEADER { FromLe(h[..8]) }
  function HeaderKind(h: seq<Byte>): RecKind requires |h| == FLIGHT_HEADER { RecKindOf(h[8]) }
  function HeaderLen(h: seq<Byte>): nat requires |h| == FLIGHT_HEADER { FromLe(h[9..]) }

  lemma HeaderRoundTrip(r: Rec)
    requires RecFits(r)
    ensures HeaderDue(RecHeader(r)) == r.due
    ensures HeaderKind(RecHeader(r)) == r.kind
    ensures HeaderLen(RecHeader(r)) == |r.body|
  {
    var h := RecHeader(r);
    Widths();
    LeRoundTrip(r.due, 8);
    LeRoundTrip(|r.body|, 4);
    assert h[..8] == Le(r.due, 8);
    assert h[9..] == Le(|r.body|, 4);
  }

  lemma {:induction false} EncFlightAppend(f: seq<Rec>, r: Rec)
    ensures EncFlight(f + [r]) == EncFlight(f) + EncRec(r)
  {
    if f == [] {
      assert f + [r] == [r];
      assert EncFlight([r]) == EncRec(r) + EncFlight([]);
    } else {
      assert (f + [r])[0] == f[0] && (f + [r])[1..] == f[1..] + [r];
      EncFlightAppend(f[1..], r);
    }
  }

  /** Two flights of well-sized records that read the same are the same: the
      bytes determine the records. */
  lemma {:induction false} EncFlightInjective(f: seq<Rec>, g: seq<Rec>)
    requires forall i :: 0 <= i < |f| ==> RecFits(f[i])
    requires forall i :: 0 <= i < |g| ==> RecFits(g[i])
    requires EncFlight(f) == EncFlight(g)
    ensures f == g
  {
    if f == [] || g == [] {
      assert |EncFlight(f)| == |EncFlight(g)|;
    } else {
      var e := EncFlight(f);
      HeaderRoundTrip(f[0]);
      HeaderRoundTrip(g[0]);
      assert e[..FLIGHT_HEADER] == RecHeader(f[0]) == RecHeader(g[0]);
      var n := RecLen(f[0]);
      assert e[FLIGHT_HEADER..n] == f[0].body == g[0].body;
      assert e[n..] == EncFlight(f[1..]) == EncFlight(g[1..]);
      EncFlightInjective(f[1..], g[1..]);
      assert f == [f[0]] + f[1..] && g == [g[0]] + g[1..];
    }
  }
}

/** The records of the virtual network (`netstate.rs`) and the arithmetic of a
    socket's flight ring. */
module NetTypes {

  type Byte = b: int | 0 <= b < 256

  const MAX_HOSTS: nat := 32
  const MAX_SOCKETS: nat := 256
  const MAX_FDREFS: nat := 1024
  const RING: nat := 65536
  const BACKLOG: nat := 32
  const NO_SOCK: nat := 0xFFFF_FFFF
  const LOOPBACK: nat := 0x7F00_0001
  const FIRST_EPHEMERAL: nat := 49152
  const LAST_PORT: nat := 65535
  const MAX_DGRAM: nat := 61440
  const DGRAM_HEADER: nat := 12
  /** Due time, kind and payload length in front of every record in flight */
  const FLIGHT_HEADER: nat := 13
  /** `u64::MAX`: no record is due */
  const NEVER: nat := 0xFFFF_FFFF_FFFF_FFFF


  datatype Family = NoFamily | Inet | Unix
  datatype Kind = Stream | Dgram
  datatype SockState = Free | New | Bound | Listening | Connected | Closed

  datatype Addr = Addr(family: Family, port: nat, ip: nat, path: seq<Byte>)
  const NO_ADDR := Addr(NoFamily, 0, 0, [])

  function InetAddr(ip: nat, port: nat): Addr { Addr(Inet, port, ip, []) }

  /** Two addresses a single host could not tell apart */
  predicate SameName(a: Addr, b: Addr) {
    a.family == b.family
    && match a.family
       case Inet => a.port == b.port
       case Unix => a.path == b.path
       case NoFamily => false
  }

  predicate IsLoopback(ip: nat) { ip / 0x100_0000 == 127 }

  datatype RecKind = KBytes | KDgram | KFin

  /** A payload on its way, with the time it lands at and the bytes it adds to
      its receiver's ring. */
  datatype Rec = Rec(due: nat, kind: RecKind, body: seq<Byte>)

  datatype Payload = PBytes(data: seq<Byte>) | PDatagram(from: Addr, data: seq<Byte>) | PFin

  datatype Errno = ENFILE | EADDRINUSE | EINVAL | EAFNOSUPPORT | EADDRNOTAVAIL | EOPNOTSUPP
                 | EDESTADDRREQ | EISCONN | ECONNREFUSED | ENOTCONN | EPIPE | EMSGSIZE

  datatype NetError = WouldBlock | Errno(code: Errno)
  datatype Result<+T> = Ok(value: T) | Err(error: NetError)

  datatype Sock = Sock(
    state: SockState, kind: Kind, family: Family,
    fin: bool, shutWr: bool, shutRd: bool, hasPeer: bool,
    host: nat, refs: nat, farEnd: nat,
    local: Addr, peer: Addr,
    backlog: seq<nat>, backlogMax: nat,
    rx: seq<Byte>, rdEvents: nat, wrEvents: nat,
    flight: seq<Rec>)

  datatype Host = Host(addr: nat, nextPort: nat)
  datatype FdRef = FdRef(pid: nat, sock: nat, count: nat)

  datatype Net = Net(
    socks: seq<Sock>, fdrefs: seq<FdRef>, hosts: seq<Host>,
    now: nat, latency: nat, inFlight: nat, nextDue: nat,
    connections: nat, datagrams: nat, dropped: nat, bytes: nat)

  function Min(a: int, b: int): int { if a <= b then a else b }
  function SatSub(a: nat, b: nat): nat { if a >= b then a - b else 0 }

  // ---- what a flight ring holds ------------------------------------------

  function RecLen(r: Rec): nat { FLIGHT_HEADER + |r.body| }
  function StreamLen(r: Rec): nat { if r.kind == KBytes then |r.body| else 0 }

  /** Bytes a flight ring's records occupy (`fl_len`) */
  function FlLen(f: seq<Rec>): nat {
    if f == [] then 0 else RecLen(f[0]) + FlLen(f[1..])
  }

  /** Stream bytes among them (`fl_stream`) */
  function FlStream(f: seq<Rec>): nat {
    if f == [] then 0 else StreamLen(f[0]) + FlStream(f[1..])
  }

  /** The stream bytes themselves, oldest first */
  function FlBytes(f: seq<Rec>): seq<Byte> {
    if f == [] then [] else (if f[0].kind == KBytes then f[0].body else []) + FlBytes(f[1..])
  }

  predicate HasFin(f: seq<Rec>) { f != [] && f[|f| - 1].kind == KFin }

  /** Only the newest record may be a FIN */
  predicate FinLast(f: seq<Rec>) { forall i :: 0 <= i < |f| - 1 ==> f[i].kind != KFin }

  lemma {:induction false} FlightAppend(f: seq<Rec>, r: Rec)
    ensures FlLen(f + [r]) == FlLen(f) + RecLen(r)
    ensures FlStream(f + [r]) == FlStream(f) + StreamLen(r)
    ensures FlBytes(f + [r]) == FlBytes(f) + (if r.kind == KBytes then r.body else [])
  {
    if f == [] {
      assert f + [r] == [r];
      assert FlLen([]) == 0 && FlStream([]) == 0 && FlBytes([]) == [];
    } else {
      assert (f + [r])[0] == f[0] && (f + [r])[1..] == f[1..] + [r];
      FlightAppend(f[1..], r);
    }
  }

  lemma {:induction false} FlightBounds(f: seq<Rec>)
    ensures FlLen(f) >= FlStream(f) + FLIGHT_HEADER * |f|
    ensures |FlBytes(f)| == FlStream(f)
  {
    if f != [] {
      FlightBounds(f[1..]);
    }
  }

  lemma {:induction false} NoBytes(f: seq<Rec>)
    requires forall i :: 0 <= i < |f| ==> f[i].kind != KBytes
    ensures FlStream(f) == 0 && FlBytes(f) == []
  {
    if f != [] {
      forall i | 0 <= i < |f[1..]| ensures f[1..][i].kind != KBytes { assert f[1..][i] == f[i + 1]; }
      NoBytes(f[1..]);
    }
  }
}

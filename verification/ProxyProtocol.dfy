/**
 PROXY protocol headers, versions 1 (text) and 2 (binary): the printer, the parser
 and the readers that collect a header from a connection (agent/main.go). Versions
 as in sections 2.1 and 2.2 of the HAProxy PROXY protocol specification.
 */
module ProxyProtocol {
  import opened Bytes
  import opened Options
  import opened Words

  const PROXY: Data := [0x50, 0x52, 0x4f, 0x58, 0x59]          // "PROXY"
  const V1_START: Data := [0x50, 0x52, 0x4f, 0x58, 0x59, 0x20] // "PROXY "
  const UNKNOWN: Data := [0x55, 0x4e, 0x4b, 0x4e, 0x4f, 0x57, 0x4e]
  const TCP4: Data := [0x54, 0x43, 0x50, 0x34]
  const TCP6: Data := [0x54, 0x43, 0x50, 0x36]
  const SIGNATURE: Data := [0x0d, 0x0a, 0x0d, 0x0a, 0x00, 0x0d, 0x0a, 0x51, 0x55, 0x49, 0x54, 0x0a]

  const V1_WINDOW: nat := 108
  const V2_FIXED: nat := 16
  const FIRST_READ: nat := 4096

  /** Addresses are texts; nothing in version 1 looks inside them. */
  datatype Info = Info(sourceIP: Data, destIP: Data, sourcePort: int, destPort: int)

  const NO_INFO := Info([], [], 0, 0)

  /** An address of four bytes, or of sixteen that are not a mapped version 4 address. */
  datatype IP = V4(bytes: Data) | V6(bytes: Data)

  /** The address part of the network library: reading and writing addresses as text. */
  datatype Library = Library(parse: Data -> Option<IP>, text: IP -> Data)

  const MAPPED: Data := [0, 0, 0, 0, 0, 0, 0, 0, 0, 0, 0xff, 0xff]

  predicate ValidIP(ip: IP) {
    match ip
    case V4(b) => |b| == 4
    case V6(b) => |b| == 16 && !(MAPPED <= b)
  }

  ghost predicate ValidLibrary(lib: Library) {
    forall t :: lib.parse(t).Some? ==> ValidIP(lib.parse(t).value)
  }

  /** What sixteen bytes denote: a mapped address counts as version 4. */
  function Of16(b: Data): IP
    requires |b| == 16
  {
    if MAPPED <= b then V4(b[12..]) else V6(b)
  }

  /** Malformed covers every error return; `rest` is what follows the header, or everything. */
  datatype Result = NotHeader(rest: Data) | Header(info: Info, rest: Data) | Malformed

  // ------------------------------------------------------------------- the parser

  function ParsePort(d: Data): Option<int> {
    var n := Atoi(d);
    if n.Some? && 0 <= n.value <= 65535 then n else None
  }

  /** The text between "PROXY " and the line end, "PROXY " included. */
  function ParseLine(line: Data): Option<Info> {
    var parts := Fields(line);
    if |parts| < 2 || parts[0] != PROXY then None
    else if parts[1] == UNKNOWN then Some(NO_INFO)
    else if |parts| != 6 || (parts[1] != TCP4 && parts[1] != TCP6) then None
    else
      var sourcePort, destPort := ParsePort(parts[4]), ParsePort(parts[5]);
      if sourcePort.None? || destPort.None? then None
      else Some(Info(parts[2], parts[3], sourcePort.value, destPort.value))
  }

  /** The line up to `end` and what follows its line end; a negative `end` means there is none. */
  function CutLine(d: Data, end: int): Result
    requires end < 0 || end + 2 <= |d|
  {
    if end < 0 then Malformed
    else
      var info := ParseLine(d[..end]);
      if info.None? then Malformed else Header(info.value, d[end + 2..])
  }

  function ConsumeV1(d: Data): Result {
    if !(V1_START <= d) then NotHeader(d) else CutLine(d, FirstLineEnd(d))
  }

  function BigEndian(d: Data, i: nat): nat
    requires i + 1 < |d|
  {
    var high: int, low: int := d[i], d[i + 1];
    256 * high + low
  }

  /** The length field of a version 2 header. */
  function Need(d: Data): nat
    requires |d| >= V2_FIXED
  {
    V2_FIXED + BigEndian(d, 14)
  }

  function Addresses(lib: Library, source: IP, dest: IP, ports: Data): Info
    requires |ports| >= 4
  {
    Info(lib.text(source), lib.text(dest), BigEndian(ports, 0), BigEndian(ports, 2))
  }

  /** The address block of a version 2 header with the proxy command. */
  function ParseBlock(lib: Library, family: Byte, block: Data): Option<Info> {
    if family == 0x11 then
      if |block| < 12 then None else Some(Addresses(lib, V4(block[..4]), V4(block[4..8]), block[8..12]))
    else if family == 0x21 then
      if |block| < 36 then None else Some(Addresses(lib, Of16(block[..16]), Of16(block[16..32]), block[32..36]))
    else if family == 0x00 then Some(NO_INFO)
    else None
  }

  function ConsumeV2(lib: Library, d: Data): Result {
    if !(SIGNATURE <= d) then NotHeader(d)
    else if |d| < V2_FIXED || d[12] / 16 != 2 || |d| < Need(d) then Malformed
    else
      var block, rest := d[V2_FIXED..Need(d)], d[Need(d)..];
      var command := d[12] % 16;
      if command == 0 then Header(NO_INFO, rest)
      else if command != 1 then Malformed
      else
        var info := ParseBlock(lib, d[13], block);
        if info.None? then Malformed else Header(info.value, rest)
  }

  function Consume(lib: Library, d: Data): Result {
    if V1_START <= d then ConsumeV1(d)
    else if SIGNATURE <= d then ConsumeV2(lib, d)
    else if d != [] && |d| < |SIGNATURE| && d <= SIGNATURE then Malformed
    else NotHeader(d)
  }

  // ------------------------------------------------------------------- the printer

  /** What is known of a TCP endpoint: its address as text and its port. */
  datatype Addr = Addr(ip: Data, port: int)

  /** The endpoints to announce, with the connection's own addresses filling the gaps. */
  function EndpointValues(info: Info, source: Option<Addr>, local: Option<Addr>, remote: Option<Addr>): Info {
    var sourceIP, destIP := Trim(info.sourceIP), Trim(info.destIP);
    var noSource, noDest := sourceIP == [], destIP == [];
    var v := Info(
      if noSource && source.Some? then source.value.ip else sourceIP,
      if noDest && remote.Some? then remote.value.ip else destIP,
      if noSource && source.Some? then source.value.port else info.sourcePort,
      if noDest && remote.Some? then remote.value.port else info.destPort);
    Info(
      v.sourceIP,
      if v.destIP == [] && local.Some? then local.value.ip else v.destIP,
      if v.sourcePort <= 0 && source.Some? then source.value.port else v.sourcePort,
      if v.destPort <= 0 && remote.Some? then remote.value.port else v.destPort)
  }

  predicate Complete(v: Info) {
    v.sourceIP != [] && v.destIP != [] && v.sourcePort > 0 && v.destPort > 0
  }

  function Family(lib: Library, v: Info): Data {
    var ip := lib.parse(v.sourceIP);
    if ip.Some? && ip.value.V6? then TCP6 else TCP4
  }

  function V1Parts(lib: Library, v: Info): seq<Data>
    requires Complete(v)
  {
    [PROXY, Family(lib, v), v.sourceIP, v.destIP, Decimal(v.sourcePort), Decimal(v.destPort)]
  }

  function BuildV1(lib: Library, v: Info): Data {
    if !Complete(v) then Join([PROXY, UNKNOWN]) + CRLF else Join(V1Parts(lib, v)) + CRLF
  }

  /** A port as an unsigned 16-bit number. */
  function Port16(port: nat): Data {
    [port / 256 % 256, port % 256]
  }

  /** Both addresses can be read and are of the same version. */
  predicate Representable(lib: Library, v: Info) {
    var s, d := lib.parse(v.sourceIP), lib.parse(v.destIP);
    s.Some? && d.Some? && v.sourcePort > 0 && v.destPort > 0 && s.value.V4? == d.value.V4?
  }

  function BuildV2(lib: Library, v: Info): Data {
    if !Representable(lib, v) then SIGNATURE + [0x20, 0x00, 0, 0]
    else
      var s, d := lib.parse(v.sourceIP).value, lib.parse(v.destIP).value;
      SIGNATURE + [0x21, if s.V4? then 0x11 else 0x21, 0, if s.V4? then 12 else 36] +
      s.bytes + d.bytes + Port16(v.sourcePort) + Port16(v.destPort)
  }

  function Build(lib: Library, version: int, info: Info, source: Option<Addr>, local: Option<Addr>, remote: Option<Addr>): Data {
    var v := EndpointValues(info, source, local, remote);
    if version == 2 then BuildV2(lib, v) else BuildV1(lib, v)
  }

  // ------------------------------------------------------------- reading fragments

  function Flatten(chunks: seq<Data>): Data {
    if chunks == [] then [] else chunks[0] + Flatten(chunks[1..])
  }

  /** What the peer sends arrives in these fragments, after which reading fails. */
  predicate Fragments(chunks: seq<Data>) {
    forall i :: 0 <= i < |chunks| ==> chunks[i] != []
  }

  /** One read of at most `limit` bytes: what it returns and what is left. */
  function Take(chunks: seq<Data>, limit: nat): (Data, seq<Data>)
    requires chunks != []
  {
    if |chunks[0]| <= limit then (chunks[0], chunks[1..])
    else (chunks[0][..limit], [chunks[0][limit..]] + chunks[1..])
  }

  lemma {:induction false} TakeProps(chunks: seq<Data>, limit: nat)
    requires chunks != [] && Fragments(chunks) && limit > 0
    ensures var (data, left) := Take(chunks, limit);
            0 < |data| <= limit && Fragments(left) && data + Flatten(left) == Flatten(chunks)
  {
    if |chunks[0]| > limit {
      TakePart(chunks[0], chunks[1..], limit);
    }
  }

  lemma {:induction false} TakePart(c: Data, rest: seq<Data>, limit: nat)
    requires limit < |c|
    ensures c[..limit] + Flatten([c[limit..]] + rest) == c + Flatten(rest)
  {
    var tail := [c[limit..]] + rest;
    assert tail[1..] == rest && c == c[..limit] + c[limit..];
  }

  datatype Grown = Refused | Grown(buf: Data, left: seq<Data>)

  predicate Comparable(a: Data, b: Data) {
    a <= b || b <= a
  }

  predicate WantsMore(buf: Data) {
    0 < |buf| < V1_WINDOW && Comparable(V1_START, buf) && FirstLineEnd(buf) < 0
  }

  /** The reading loop of version 1. */
  function GrowV1(buf: Data, chunks: seq<Data>): Grown
    requires Fragments(chunks)
    decreases V1_WINDOW - |buf|
  {
    if !WantsMore(buf) then Grown(buf, chunks)
    else if chunks == [] then if buf <= V1_START then Refused else Grown(buf, [])
    else
      TakeProps(chunks, V1_WINDOW - |buf|);
      var (data, left) := Take(chunks, V1_WINDOW - |buf|);
      GrowV1(buf + data, left)
  }

  /** The reading loops of version 2: at least `need` bytes, never more than that are read. */
  function GrowTo(buf: Data, chunks: seq<Data>, need: nat): Grown
    requires Fragments(chunks)
    decreases need - |buf|
  {
    if |buf| >= need then Grown(buf, chunks)
    else if chunks == [] then Refused
    else
      TakeProps(chunks, need - |buf|);
      var (data, left) := Take(chunks, need - |buf|);
      GrowTo(buf + data, left, need)
  }

  lemma {:induction false} GrowToProps(buf: Data, chunks: seq<Data>, need: nat)
    requires Fragments(chunks)
    ensures var g, whole := GrowTo(buf, chunks, need), buf + Flatten(chunks);
            if |whole| < need then g.Refused?
            else g.Grown? && Fragments(g.left) && g.buf + Flatten(g.left) == whole && |g.buf| >= need && buf <= g.buf &&
                 |g.buf| == if |buf| >= need then |buf| else need
    decreases need - |buf|
  {
    if |buf| < need && chunks != [] {
      TakeProps(chunks, need - |buf|);
      var (data, left) := Take(chunks, need - |buf|);
      assert (buf + data) + Flatten(left) == buf + Flatten(chunks);
      GrowToProps(buf + data, left, need);
    }
  }

  /** Version 2, from what has been received so far: the fixed part first, then as much as it announces. */
  function FromV2(lib: Library, data: Data, chunks: seq<Data>): (Result, seq<Data>)
    requires Fragments(chunks)
  {
    GrowToProps(data, chunks, V2_FIXED);
    var fixed := GrowTo(data, chunks, V2_FIXED);
    if fixed.Refused? then (Malformed, [])
    else
      var full := GrowTo(fixed.buf, fixed.left, Need(fixed.buf));
      if full.Refused? then (Malformed, []) else (Consume(lib, full.buf), full.left)
  }

  function FromV1(data: Data, chunks: seq<Data>): (Result, seq<Data>)
    requires Fragments(chunks)
  {
    var g := GrowV1(data, chunks);
    if g.Refused? then (Malformed, []) else (ConsumeV1(g.buf), g.left)
  }

  /** What the consumer makes of a first fragment and the fragments after it, and what it leaves unread. */
  function ConsumeFrom(lib: Library, data: Data, chunks: seq<Data>): (Result, seq<Data>)
    requires Fragments(chunks)
  {
    if data == [] then (Consume(lib, data), chunks)
    else if Comparable(V1_START, data) then FromV1(data, chunks)
    else if Comparable(SIGNATURE, data) then FromV2(lib, data, chunks)
    else (Consume(lib, data), chunks)
  }

  /** What a connection hands to the guard: dropped, or passed on with the bytes to forward first. */
  datatype Received = Dropped | Passed(info: Option<Info>, first: Data)

  /** The start of a guarded connection: one read, then the consumer; without a header the first read is kept as it was. */
  function Receive(lib: Library, chunks: seq<Data>): (Received, seq<Data>)
    requires Fragments(chunks)
  {
    if chunks == [] then (Dropped, [])
    else
      TakeProps(chunks, FIRST_READ);
      var (first, rest) := Take(chunks, FIRST_READ);
      var (r, left) := ConsumeFrom(lib, first, rest);
      match r
      case Malformed => (Dropped, left)
      case Header(info, remaining) => (Passed(Some(info), remaining), left)
      case NotHeader(_) => (Passed(None, first), left)
  }

  class Conn {
    var chunks: seq<Data>

    constructor (chunks: seq<Data>)
      ensures this.chunks == chunks
    {
      this.chunks := chunks;
    }

    method Read(limit: nat) returns (data: Data, ok: bool)
      modifies this
      ensures ok <==> old(chunks) != []
      ensures if ok then (data, chunks) == Take(old(chunks), limit) else data == [] && chunks == old(chunks)
    {
      if chunks == [] {
        return [], false;
      }
      ok := true;
      var next := chunks[0];
      if |next| <= limit {
        data, chunks := next, chunks[1..];
      } else {
        data, chunks := next[..limit], [next[limit..]] + chunks[1..];
      }
    }
  }

  method ConsumeV1FromConn(conn: Conn, data: Data) returns (r: Result)
    requires Fragments(conn.chunks)
    modifies conn
    ensures (r, conn.chunks) == FromV1(data, old(conn.chunks))
  {
    var buf := data;
    while WantsMore(buf)
      invariant Fragments(conn.chunks) && GrowV1(buf, conn.chunks) == GrowV1(data, old(conn.chunks))
      decreases V1_WINDOW - |buf|
    {
      if conn.chunks != [] {
        TakeProps(conn.chunks, V1_WINDOW - |buf|);
      }
      var more, ok := conn.Read(V1_WINDOW - |buf|);
      if !ok {
        if buf <= V1_START {
          return Malformed;
        }
        break;
      }
      buf := buf + more;
    }
    r := ConsumeV1(buf);
  }

  /** Reads until at least `need` bytes are there. */
  method ReadTo(conn: Conn, data: Data, need: nat) returns (buf: Data, ok: bool)
    requires Fragments(conn.chunks)
    modifies conn
    ensures if ok then GrowTo(data, old(conn.chunks), need) == Grown(buf, conn.chunks)
            else GrowTo(data, old(conn.chunks), need) == Refused && conn.chunks == []
  {
    buf := data;
    while |buf| < need
      invariant Fragments(conn.chunks) && GrowTo(buf, conn.chunks, need) == GrowTo(data, old(conn.chunks), need)
      decreases need - |buf|
    {
      if conn.chunks != [] {
        TakeProps(conn.chunks, need - |buf|);
      }
      var more, got := conn.Read(need - |buf|);
      if !got {
        return buf, false;
      }
      buf := buf + more;
    }
    ok := true;
  }

  method ConsumeFromConn(lib: Library, conn: Conn, data: Data) returns (r: Result)
    requires Fragments(conn.chunks)
    modifies conn
    ensures (r, conn.chunks) == ConsumeFrom(lib, data, old(conn.chunks))
  {
    if |data| == 0 {
      return Consume(lib, data);
    }
    if Comparable(V1_START, data) {
      r := ConsumeV1FromConn(conn, data);
      return;
    }
    var buf, ok := data, true;
    if Comparable(SIGNATURE, buf) {
      GrowToProps(buf, conn.chunks, V2_FIXED);
      buf, ok := ReadTo(conn, buf, V2_FIXED);
      if !ok {
        return Malformed;
      }
      buf, ok := ReadTo(conn, buf, Need(buf));
      if !ok {
        return Malformed;
      }
    }
    r := Consume(lib, buf);
  }

  /** The first lines of a guarded connection that expects a header. */
  method HandleConn(lib: Library, conn: Conn) returns (r: Received)
    requires Fragments(conn.chunks)
    modifies conn
    ensures (r, conn.chunks) == Receive(lib, old(conn.chunks))
  {
    if conn.chunks != [] {
      TakeProps(conn.chunks, FIRST_READ);
    }
    var first, ok := conn.Read(FIRST_READ);
    if !ok {
      return Dropped;
    }
    var consumed := ConsumeFromConn(lib, conn, first);
    match consumed
    case Malformed => r := Dropped;
    case Header(info, remaining) => r := Passed(Some(info), remaining);
    case NotHeader(_) => r := Passed(None, first);
  }
}

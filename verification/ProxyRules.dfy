/**
 Which headers the PROXY protocol parser accepts and which the printer writes
 (agent/main.go), as texts built from their parts: sections 2.1 and 2.2 of the HAProxy
 PROXY protocol specification, with the limits that the code sets.
 */
module ProxyRules {
  import opened Bytes
  import opened Options
  import opened ProxyProtocol
  import opened Words

  // ------------------------------------------------------------------- version 2

  /** The twelve bytes that no text protocol begins with. */
  predicate Begins2(d: Data) {
    |d| >= 12 && d[..12] == [0x0d, 0x0a, 0x0d, 0x0a, 0x00, 0x0d, 0x0a] + Ascii("QUIT\n")
  }

  /** Signature, version 2 with command 0 or 1, family, length, block, and what follows. */
  predicate V2Of(d: Data, command: Byte, family: Byte, block: Data, rest: Data) {
    && command <= 1 && |block| <= 65535
    && d == [0x0d, 0x0a, 0x0d, 0x0a, 0x00, 0x0d, 0x0a] + Ascii("QUIT\n") + [0x20 + command, family] + Two(|block|) + block + rest
  }

  /** Two addresses of n bytes, two ports, and extensions that are not looked at. */
  predicate BlockOf(block: Data, n: nat, source: Data, dest: Data, sourcePort: nat, destPort: nat, extensions: Data) {
    && |source| == |dest| == n && sourcePort < 65536 && destPort < 65536
    && block == source + dest + Two(sourcePort) + Two(destPort) + extensions
  }

  /** Four bytes after ten zeros and two 0xff are a version 4 address. */
  predicate IsAddress16(b: Data, ip: IP) {
    && |b| == 16
    && match ip
       case V4(four) => |four| == 4 && b == [0, 0, 0, 0, 0, 0, 0, 0, 0, 0, 0xff, 0xff] + four
       case V6(all) => all == b && b[..12] != [0, 0, 0, 0, 0, 0, 0, 0, 0, 0, 0xff, 0xff]
  }

  /** TCP over version 4. */
  ghost predicate Says4(lib: Library, block: Data, info: Info) {
    exists s, d, sp: nat, dp: nat, ext :: BlockOf(block, 4, s, d, sp, dp, ext) && info == Info(lib.text(V4(s)), lib.text(V4(d)), sp, dp)
  }

  predicate Says6As(lib: Library, block: Data, info: Info, s: Data, d: Data, sp: nat, dp: nat, ext: Data, from: IP, to: IP) {
    && BlockOf(block, 16, s, d, sp, dp, ext) && IsAddress16(s, from) && IsAddress16(d, to)
    && info == Info(lib.text(from), lib.text(to), sp, dp)
  }

  /** TCP over version 6. */
  ghost predicate Says6(lib: Library, block: Data, info: Info) {
    exists s, d, sp: nat, dp: nat, ext, from, to :: Says6As(lib, block, info, s, d, sp, dp, ext, from, to)
  }

  /** A local connection says nothing, and so does an unspecified family. */
  ghost predicate BlockSays(lib: Library, command: Byte, family: Byte, block: Data, info: Info) {
    if command == 0 || family == 0 then info == Info([], [], 0, 0)
    else (family == 0x11 && Says4(lib, block, info)) || (family == 0x21 && Says6(lib, block, info))
  }

  lemma {:induction false} PortAt(d: Data, i: nat, n: nat)
    requires i + 2 <= |d| && n < 65536
    ensures d[i..i + 2] == Two(n) <==> BigEndian(d, i) == n
  {
    TwoMeans(n);
    TwoReads(d[i], d[i + 1]);
    assert d[i..i + 2] == [d[i], d[i + 1]];
  }

  lemma SignatureBytes()
    ensures [0x0d, 0x0a, 0x0d, 0x0a, 0x00, 0x0d, 0x0a] + Ascii("QUIT\n") == SIGNATURE
  {
  }

  lemma {:induction false} V2Parts(d: Data)
    requires SIGNATURE <= d && |d| >= V2_FIXED && d[12] / 16 == 2 && d[12] % 16 <= 1 && |d| >= Need(d)
    ensures V2Of(d, d[12] % 16, d[13], d[V2_FIXED..Need(d)], d[Need(d)..])
  {
    SignatureBytes();
    var n := BigEndian(d, 14);
    TwoReads(d[14], d[15]);
    assert d[..V2_FIXED] == SIGNATURE + [d[12], d[13]] + Two(n);
    assert d == d[..V2_FIXED] + d[V2_FIXED..Need(d)] + d[Need(d)..];
  }

  lemma {:induction false} V2Reads(d: Data, command: Byte, family: Byte, block: Data, rest: Data)
    requires V2Of(d, command, family, block, rest)
    ensures SIGNATURE <= d && |d| >= V2_FIXED && d[12] == 0x20 + command && d[13] == family
    ensures Need(d) == V2_FIXED + |block| && d[V2_FIXED..Need(d)] == block && d[Need(d)..] == rest
  {
    SignatureBytes();
    var head := SIGNATURE + [0x20 + command, family] + Two(|block|);
    assert d == head + block + rest && |head| == V2_FIXED;
    assert d[..V2_FIXED] == head;
    assert d[14..16] == head[14..16] == Two(|block|);
    PortAt(d, 14, |block|);
    assert d[12] == head[12] && d[13] == head[13] && d[..12] == head[..12] == SIGNATURE;
  }

  lemma {:induction false} BlockParts(block: Data, n: nat)
    requires |block| >= 2 * n + 4
    ensures BlockOf(block, n, block[..n], block[n..2 * n], BigEndian(block, 2 * n), BigEndian(block, 2 * n + 2), block[2 * n + 4..])
  {
    TwoReads(block[2 * n], block[2 * n + 1]);
    TwoReads(block[2 * n + 2], block[2 * n + 3]);
    assert block == block[..n] + block[n..2 * n] + [block[2 * n], block[2 * n + 1]] + [block[2 * n + 2], block[2 * n + 3]] + block[2 * n + 4..];
  }

  lemma {:induction false} BlockReads(block: Data, n: nat, s: Data, d: Data, sp: nat, dp: nat, ext: Data)
    requires BlockOf(block, n, s, d, sp, dp, ext)
    ensures |block| >= 2 * n + 4 && block[..n] == s && block[n..2 * n] == d
    ensures BigEndian(block, 2 * n) == sp && BigEndian(block, 2 * n + 2) == dp
  {
    assert block[2 * n..2 * n + 2] == Two(sp) && block[2 * n + 2..2 * n + 4] == Two(dp);
    PortAt(block, 2 * n, sp);
    PortAt(block, 2 * n + 2, dp);
  }

  lemma {:induction false} AddressesAt(lib: Library, from: IP, to: IP, block: Data, i: nat)
    requires i + 4 <= |block|
    ensures Addresses(lib, from, to, block[i..i + 4]) == Info(lib.text(from), lib.text(to), BigEndian(block, i), BigEndian(block, i + 2))
  {
  }

  lemma Of16Meaning(b: Data, ip: IP)
    requires |b| == 16
    ensures Of16(b) == ip <==> IsAddress16(b, ip)
  {
    if MAPPED <= b {
      assert b == b[..12] + b[12..] && b[..12] == MAPPED;
    } else {
      assert b[..12] != MAPPED;
    }
    if ip.V4? && |ip.bytes| == 4 && b == MAPPED + ip.bytes {
      assert b[12..] == ip.bytes && b[..12] == MAPPED;
    }
  }

  lemma {:induction false} Says4Meaning(lib: Library, block: Data, info: Info)
    ensures Says4(lib, block, info) <==> ParseBlock(lib, 0x11, block) == Some(info)
  {
    if s, d, sp: nat, dp: nat, ext :| BlockOf(block, 4, s, d, sp, dp, ext) && info == Info(lib.text(V4(s)), lib.text(V4(d)), sp, dp) {
      BlockReads(block, 4, s, d, sp, dp, ext);
      AddressesAt(lib, V4(s), V4(d), block, 8);
    }
    if ParseBlock(lib, 0x11, block) == Some(info) {
      BlockParts(block, 4);
      AddressesAt(lib, V4(block[..4]), V4(block[4..8]), block, 8);
    }
  }

  lemma {:induction false} Says6Meaning(lib: Library, block: Data, info: Info)
    ensures Says6(lib, block, info) <==> ParseBlock(lib, 0x21, block) == Some(info)
  {
    if s, d, sp: nat, dp: nat, ext, from, to :| Says6As(lib, block, info, s, d, sp, dp, ext, from, to) {
      BlockReads(block, 16, s, d, sp, dp, ext);
      Of16Meaning(s, from);
      Of16Meaning(d, to);
      AddressesAt(lib, from, to, block, 32);
    }
    if ParseBlock(lib, 0x21, block) == Some(info) {
      BlockParts(block, 16);
      var from, to := Of16(block[..16]), Of16(block[16..32]);
      Of16Meaning(block[..16], from);
      Of16Meaning(block[16..32], to);
      AddressesAt(lib, from, to, block, 32);
      assert Says6As(lib, block, info, block[..16], block[16..32], BigEndian(block, 32), BigEndian(block, 34), block[36..], from, to);
    }
  }

  lemma {:induction false} BlockMeaning(lib: Library, family: Byte, block: Data, info: Info)
    ensures BlockSays(lib, 1, family, block, info) <==> ParseBlock(lib, family, block) == Some(info)
  {
    Says4Meaning(lib, block, info);
    Says6Meaning(lib, block, info);
  }

  /** The parser of version 2 accepts exactly what is built from these parts. */
  lemma {:induction false} ConsumeV2Meaning(lib: Library, d: Data, info: Info, rest: Data)
    ensures ConsumeV2(lib, d) == NotHeader(rest) <==> rest == d && !Begins2(d)
    ensures ConsumeV2(lib, d) == Header(info, rest) <==>
            exists command, family, block :: V2Of(d, command, family, block, rest) && BlockSays(lib, command, family, block, info)
  {
    SignatureBytes();
    assert Begins2(d) <==> SIGNATURE <= d;
    if ConsumeV2(lib, d) == Header(info, rest) {
      V2Parts(d);
      BlockMeaning(lib, d[13], d[V2_FIXED..Need(d)], info);
    }
    if command, family, block :| V2Of(d, command, family, block, rest) && BlockSays(lib, command, family, block, info) {
      V2Reads(d, command, family, block, rest);
      BlockMeaning(lib, family, block, info);
    }
  }

  // ------------------------------------------------------------------- version 1

  /** A port is any text of a number up to 65535. */
  ghost predicate PortText(d: Data, port: int) {
    0 <= port <= 65535 && Says(d, port)
  }

  /** Whether the third to sixth word are two addresses and two ports. */
  ghost predicate PlacesSay(words: seq<Data>, info: Info)
    requires |words| == 6
  {
    && info.sourceIP == words[2] && info.destIP == words[3]
    && PortText(words[4], info.sourcePort) && PortText(words[5], info.destPort)
  }

  /** PROXY, then UNKNOWN and anything, or TCP4 or TCP6, two addresses and two ports and nothing more. */
  ghost predicate WordsSay(words: seq<Data>, info: Info) {
    && |words| >= 2 && words[0] == Ascii("PROXY")
    && if words[1] == Ascii("UNKNOWN") then info == Info([], [], 0, 0)
       else && |words| == 6 && (words[1] == Ascii("TCP4") || words[1] == Ascii("TCP6"))
            && PlacesSay(words, info)
  }

  ghost predicate V1Line(line: Data, info: Info) {
    exists words, gaps :: AllWords(words) && Gaps(gaps, words) && Laid(gaps, words) == line && WordsSay(words, info)
  }

  lemma PortMeaning(d: Data, port: int)
    ensures ParsePort(d) == Some(port) <==> PortText(d, port)
  {
    AtoiMeaning(d, port);
  }

  lemma {:induction false} PlacesMeaning(words: seq<Data>, info: Info)
    requires |words| == 6
    ensures var sourcePort, destPort := ParsePort(words[4]), ParsePort(words[5]);
            PlacesSay(words, info) <==> sourcePort.Some? && destPort.Some? && info == Info(words[2], words[3], sourcePort.value, destPort.value)
  {
    PortMeaning(words[4], info.sourcePort);
    PortMeaning(words[5], info.destPort);
  }

  lemma {:induction false} LineMeaning(line: Data, info: Info)
    ensures ParseLine(line) == Some(info) <==> WordsSay(Fields(line), info)
  {
    assert Ascii("PROXY") == PROXY && Ascii("UNKNOWN") == UNKNOWN && Ascii("TCP4") == TCP4 && Ascii("TCP6") == TCP6;
    var parts := Fields(line);
    if |parts| == 6 {
      PlacesMeaning(parts, info);
    }
  }

  lemma {:induction false} LaidLine(line: Data, info: Info)
    ensures V1Line(line, info) <==> WordsSay(Fields(line), info)
  {
    FieldsMeaning(line, Fields(line));
    if words, gaps :| AllWords(words) && Gaps(gaps, words) && Laid(gaps, words) == line && WordsSay(words, info) {
      FieldsMeaning(line, words);
    }
  }

  /** A line of such words, up to the first line end, and what follows it. */
  ghost predicate V1Of(d: Data, line: Data, info: Info, rest: Data) {
    d == line + CRLF + rest && FirstLineEnd(d) == |line| && V1Line(line, info)
  }

  lemma {:induction false} CutMeaning(d: Data, line: Data, info: Info, rest: Data)
    requires d == line + CRLF + rest && FirstLineEnd(d) == |line|
    ensures CutLine(d, |line|) == Header(info, rest) <==> V1Line(line, info)
  {
    assert d[..|line|] == line && d[|line| + 2..] == rest;
    LineMeaning(line, info);
    LaidLine(line, info);
  }

  lemma {:induction false} CutParts(d: Data, end: nat)
    requires FirstLineEnd(d) == end
    ensures d == d[..end] + CRLF + d[end + 2..]
  {
  }

  /** The parser of version 1 accepts exactly what begins with "PROXY " and is such a line and the rest. */
  lemma {:induction false} ConsumeV1Meaning(d: Data, info: Info, rest: Data)
    ensures ConsumeV1(d) == NotHeader(rest) <==> rest == d && !(Ascii("PROXY ") <= d)
    ensures ConsumeV1(d) == Header(info, rest) <==> Ascii("PROXY ") <= d && exists line :: V1Of(d, line, info, rest)
  {
    assert Ascii("PROXY ") == V1_START;
    var end := FirstLineEnd(d);
    if end >= 0 {
      CutParts(d, end);
      CutMeaning(d, d[..end], info, d[end + 2..]);
      if rest == d[end + 2..] && V1Line(d[..end], info) {
        assert V1Of(d, d[..end], info, rest);
      }
    }
    if line :| V1Of(d, line, info, rest) {
      CutMeaning(d, line, info, rest);
    }
  }

  // ------------------------------------------------------------------- the printer

  lemma {:induction false} SixWords(a: Data, b: Data, c: Data, d: Data, e: Data, f: Data)
    ensures Join([a, b, c, d, e, f]) == a + [SP] + b + [SP] + (c + [SP] + d + [SP] + e + [SP] + f)
  {
    assert [a, b, c, d, e, f][1..] == [b, c, d, e, f] && [b, c, d, e, f][1..] == [c, d, e, f];
    assert [c, d, e, f][1..] == [d, e, f] && [d, e, f][1..] == [e, f] && [e, f][1..] == [f];
    assert Join([e, f]) == e + [SP] + f;
    assert Join([d, e, f]) == d + [SP] + Join([e, f]);
    assert Join([c, d, e, f]) == c + [SP] + d + [SP] + e + [SP] + f;
    assert Join([b, c, d, e, f]) == b + [SP] + Join([c, d, e, f]);
  }

  lemma Prefixes()
    ensures PROXY + [SP] + TCP4 + [SP] == Ascii("PROXY TCP4 ") && PROXY + [SP] + TCP6 + [SP] == Ascii("PROXY TCP6 ")
    ensures Join([PROXY, UNKNOWN]) + CRLF == Ascii("PROXY UNKNOWN\r\n") && CRLF == Ascii("\r\n") && [SP] == Ascii(" ")
  {
    assert [PROXY, UNKNOWN][1..] == [UNKNOWN];
  }

  /** What version 1 writes: one line, the family by the source address. */
  lemma {:induction false} BuildV1Meaning(lib: Library, v: Info)
    ensures BuildV1(lib, v) ==
            if v.sourceIP == [] || v.destIP == [] || v.sourcePort <= 0 || v.destPort <= 0 then Ascii("PROXY UNKNOWN\r\n")
            else (if lib.parse(v.sourceIP).Some? && lib.parse(v.sourceIP).value.V6? then Ascii("PROXY TCP6 ") else Ascii("PROXY TCP4 "))
                 + (v.sourceIP + Ascii(" ") + v.destIP + Ascii(" ") + Decimal(v.sourcePort) + Ascii(" ") + Decimal(v.destPort)) + Ascii("\r\n")
  {
    Prefixes();
    if Complete(v) {
      SixWords(PROXY, Family(lib, v), v.sourceIP, v.destIP, Decimal(v.sourcePort), Decimal(v.destPort));
    }
  }

  ghost predicate Writes2(lib: Library, v: Info, source: IP, dest: IP, block: Data) {
    && V2Of(BuildV2(lib, v), 1, if source.V4? then 0x11 else 0x21, block, [])
    && BlockOf(block, if source.V4? then 4 else 16, source.bytes, dest.bytes, v.sourcePort % 65536, v.destPort % 65536, [])
  }

  /** What version 2 writes: a header the parser's grammar knows, for TCP over one version, or a local one without a block. */
  lemma {:induction false} BuildV2Meaning(lib: Library, v: Info)
    requires ValidLibrary(lib)
    ensures var s, d := lib.parse(v.sourceIP), lib.parse(v.destIP);
            var sent := s.Some? && d.Some? && v.sourcePort > 0 && v.destPort > 0 && s.value.V4? == d.value.V4?;
            if sent then exists block :: Writes2(lib, v, s.value, d.value, block)
            else V2Of(BuildV2(lib, v), 0, 0, [], [])
  {
    SignatureBytes();
    if Representable(lib, v) {
      var s, d := lib.parse(v.sourceIP).value, lib.parse(v.destIP).value;
      var sp, dp := v.sourcePort % 65536, v.destPort % 65536;
      PortWritten(v.sourcePort);
      PortWritten(v.destPort);
      var none: Data := [];
      var block := s.bytes + d.bytes + Two(sp) + Two(dp) + none;
      var family: Byte := if s.V4? then 0x11 else 0x21;
      assert Two(|block|) == [0, if s.V4? then 12 else 36];
      assert BuildV2(lib, v) == SIGNATURE + [0x21, family] + Two(|block|) + block + none;
      assert BlockOf(block, if s.V4? then 4 else 16, s.bytes, d.bytes, sp, dp, none);
      assert Writes2(lib, v, s, d, block);
    } else {
      var none: Data := [];
      assert Two(0) == [0, 0];
      assert BuildV2(lib, v) == SIGNATURE + [0x20, 0] + Two(0) + none + none;
    }
  }

  lemma PortWritten(port: nat)
    ensures Port16(port) == Two(port % 65536)
  {
    var n := port % 65536;
    assert port / 256 % 256 == n / 256 % 256 && port % 256 == n % 256;
  }

  /** Which parser is asked, by how the bytes begin; a piece of the signature is an incomplete header. */
  lemma ConsumeMeaning(lib: Library, d: Data)
    ensures Ascii("PROXY ") <= d ==> Consume(lib, d) == ConsumeV1(d)
    ensures Begins2(d) ==> Consume(lib, d) == ConsumeV2(lib, d)
    ensures 0 < |d| < 12 && d == ([0x0d, 0x0a, 0x0d, 0x0a, 0x00, 0x0d, 0x0a] + Ascii("QUIT\n"))[..|d|] ==> Consume(lib, d) == Malformed
    ensures !(Ascii("PROXY ") <= d) && !Begins2(d) && (|d| == 0 || |d| >= 12 || d != ([0x0d, 0x0a, 0x0d, 0x0a, 0x00, 0x0d, 0x0a] + Ascii("QUIT\n"))[..|d|]) ==>
              Consume(lib, d) == NotHeader(d)
  {
    SignatureBytes();
    assert Ascii("PROXY ") == V1_START;
    assert Begins2(d) <==> SIGNATURE <= d;
    if V1_START <= d {
      assert d[0] == 0x50;
    }
  }
}

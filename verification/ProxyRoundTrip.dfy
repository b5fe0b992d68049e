/**
 What the PROXY protocol readers promise: the outcome depends on the first fragment
 and the bytes sent, not on how the rest is split; printed headers are read back with
 the payload intact; and where a stream without a header loses bytes.
 */
module ProxyRoundTrip {
  import opened Bytes
  import opened Options
  import opened ProxyProtocol
  import opened Words

  /** The result as if everything unread were appended to it. */
  function Extend(r: Result, unread: Data): Result {
    match r
    case NotHeader(rest) => NotHeader(rest + unread)
    case Header(info, rest) => Header(info, rest + unread)
    case Malformed => Malformed
  }

  // -------------------------------------------- the outcome, without the reading

  /** The bytes in which version 1 looks for its line end. */
  function Window(first: Data, whole: Data): Data {
    if |first| >= V1_WINDOW then first else if |whole| <= V1_WINDOW then whole else whole[..V1_WINDOW]
  }

  function V1Verdict(first: Data, whole: Data): Result
    requires first <= whole
  {
    if V1_START <= whole then
      CutLine(whole, FirstLineEnd(Window(first, whole)))
    else if whole <= V1_START then Malformed
    else NotHeader(whole)
  }

  function V2Verdict(lib: Library, whole: Data): Result {
    if |whole| < V2_FIXED || |whole| < Need(whole) then Malformed
    else ConsumeV2(lib, whole)
  }

  /** The outcome for a stream `whole` whose first fragment is `first`. */
  function Verdict(lib: Library, first: Data, whole: Data): Result
    requires first <= whole
  {
    if first == [] then NotHeader(whole)
    else if Comparable(V1_START, first) then V1Verdict(first, whole)
    else if Comparable(SIGNATURE, first) then V2Verdict(lib, whole)
    else NotHeader(whole)
  }

  lemma CommonPrefix(a: Data, b: Data, whole: Data)
    requires a <= whole && b <= whole
    ensures Comparable(a, b)
  {
    if |a| <= |b| {
      assert a == whole[..|a|] == b[..|a|];
    } else {
      assert b == whole[..|b|] == a[..|b|];
    }
  }

  lemma LongerPrefix(p: Data, a: Data, whole: Data)
    requires a <= whole && |p| <= |a|
    ensures p <= a <==> p <= whole
  {
    if p <= whole {
      assert p == whole[..|p|] == a[..|p|];
    }
  }

  /** Where version 1 stops reading, the parser's result is the verdict. */
  lemma {:induction false} V1Stops(data: Data, chunks: seq<Data>)
    requires Fragments(chunks) && data != [] && (!WantsMore(data) || chunks == [])
    ensures var (r, left) := FromV1(data, chunks);
            Extend(r, Flatten(left)) == V1Verdict(data, data + Flatten(chunks))
  {
    var rest := Flatten(chunks);
    var whole := data + rest;
    if WantsMore(data) {
      assert rest == [] && whole == data;
      assert Window(data, whole) == data;
    } else if Comparable(V1_START, data) || |data| >= V1_WINDOW {
      V1StopsInWindow(data, rest);
    } else {
      if V1_START <= whole {
        CommonPrefix(V1_START, data, whole);
      }
      assert !(whole <= V1_START) by {
        if whole <= V1_START {
          CommonPrefix(data, whole, V1_START);
        }
      }
    }
  }

  /** No line end inside the first six bytes of a header. */
  lemma {:induction false} StartHasNoEnd(d: Data)
    requires d <= V1_START
    ensures FirstLineEnd(d) < 0
  {
    assert forall i :: 0 <= i < |d| ==> d[i] == V1_START[i] && d[i] != 0x0d;
  }

  lemma {:induction false} V1StopsInWindow(data: Data, rest: Data)
    requires data != [] && (|data| >= V1_WINDOW || (Comparable(V1_START, data) && FirstLineEnd(data) >= 0))
    ensures Extend(ConsumeV1(data), rest) == V1Verdict(data, data + rest)
  {
    var whole := data + rest;
    if data <= V1_START {
      StartHasNoEnd(data);
    }
    LongerPrefix(V1_START, data, whole);
    SameEnd(data, rest);
    V1Agrees(data, rest);
  }

  lemma {:induction false} SameEnd(data: Data, rest: Data)
    requires |data| >= V1_WINDOW || FirstLineEnd(data) >= 0
    ensures FirstLineEnd(Window(data, data + rest)) == FirstLineEnd(data)
  {
    if |data| < V1_WINDOW {
      var w := Window(data, data + rest);
      assert w == data + w[|data|..];
      FirstLineEndStays(data, w[|data|..]);
    }
  }

  lemma CutExtends(d: Data, rest: Data, end: int)
    requires -1 <= end && end + 2 <= |d|
    ensures Extend(CutLine(d, end), rest) == CutLine(d + rest, end)
  {
    if end >= 0 {
      assert (d + rest)[..end] == d[..end] && (d + rest)[end + 2..] == d[end + 2..] + rest;
    }
  }

  lemma {:induction false} V1Agrees(data: Data, rest: Data)
    requires |data| >= 6 && (V1_START <= data <==> V1_START <= data + rest)
    requires FirstLineEnd(Window(data, data + rest)) == FirstLineEnd(data)
    ensures Extend(ConsumeV1(data), rest) == V1Verdict(data, data + rest)
  {
    CutExtends(data, rest, FirstLineEnd(data));
    if data + rest <= V1_START {
      assert data + rest == V1_START;
    }
  }

  lemma {:induction false} FromV1Verdict(data: Data, chunks: seq<Data>)
    requires Fragments(chunks) && data != []
    ensures var (r, left) := FromV1(data, chunks);
            Extend(r, Flatten(left)) == V1Verdict(data, data + Flatten(chunks))
    decreases V1_WINDOW - |data|
  {
    if WantsMore(data) && chunks != [] {
      TakeProps(chunks, V1_WINDOW - |data|);
      var (more, left) := Take(chunks, V1_WINDOW - |data|);
      var whole := data + Flatten(chunks);
      assert (data + more) + Flatten(left) == whole;
      FromV1Verdict(data + more, left);
      if |data + more| == V1_WINDOW {
        assert whole[..V1_WINDOW] == data + more;
      }
      assert Window(data + more, whole) == Window(data, whole);
    } else {
      V1Stops(data, chunks);
    }
  }

  /** A longer input gives the same parse with a longer rest. */
  lemma ConsumeV2Extends(lib: Library, d: Data, rest: Data)
    requires |d| >= V2_FIXED && |d| >= Need(d)
    ensures Extend(ConsumeV2(lib, d), rest) == ConsumeV2(lib, d + rest)
  {
    var whole := d + rest;
    LongerPrefix(SIGNATURE, d, whole);
    assert Need(whole) == Need(d) && whole[12] == d[12] && whole[13] == d[13];
    assert whole[V2_FIXED..Need(d)] == d[V2_FIXED..Need(d)] && whole[Need(d)..] == d[Need(d)..] + rest;
  }

  lemma {:induction false} FromV2Verdict(lib: Library, data: Data, chunks: seq<Data>)
    requires Fragments(chunks) && data != [] && Comparable(SIGNATURE, data)
    ensures var (r, left) := FromV2(lib, data, chunks);
            Extend(r, Flatten(left)) == V2Verdict(lib, data + Flatten(chunks))
  {
    var whole := data + Flatten(chunks);
    GrowToProps(data, chunks, V2_FIXED);
    if |whole| >= V2_FIXED {
      var fixed := GrowTo(data, chunks, V2_FIXED);
      assert Need(fixed.buf) == Need(whole);
      GrowToProps(fixed.buf, fixed.left, Need(fixed.buf));
      if |whole| >= Need(whole) {
        var full := GrowTo(fixed.buf, fixed.left, Need(fixed.buf));
        assert full.buf[0] == data[0] == 0x0d;
        assert Need(full.buf) == Need(whole);
        assert Consume(lib, full.buf) == ConsumeV2(lib, full.buf);
        ConsumeV2Extends(lib, full.buf, Flatten(full.left));
      }
    }
  }

  /**
   For every first fragment and every split of the rest into fragments, what the
   consumer returns together with what it leaves unread is the verdict on the bytes
   alone: nothing is lost, and the split does not matter.
   */
  lemma {:induction false} SplitDoesNotMatter(lib: Library, data: Data, chunks: seq<Data>)
    requires Fragments(chunks)
    ensures var (r, left) := ConsumeFrom(lib, data, chunks);
            Extend(r, Flatten(left)) == Verdict(lib, data, data + Flatten(chunks))
  {
    if data == [] {
    } else if Comparable(V1_START, data) {
      FromV1Verdict(data, chunks);
    } else if Comparable(SIGNATURE, data) {
      FromV2Verdict(lib, data, chunks);
    } else {
      assert Consume(lib, data) == NotHeader(data);
    }
  }

  // ------------------------------------------------------------ version 1 round trip

  lemma {:induction false} JoinHasNoReturn(parts: seq<Data>)
    requires |parts| >= 1 && forall i :: 0 <= i < |parts| ==> 0x0d !in parts[i]
    ensures 0x0d !in Join(parts)
  {
    if |parts| > 1 {
      JoinHasNoReturn(parts[1..]);
    }
  }

  lemma WordsHaveNoReturn(words: seq<Data>)
    requires forall i :: 0 <= i < |words| ==> Word(words[i])
    ensures forall i :: 0 <= i < |words| ==> 0x0d !in words[i]
  {
    assert IsBlank(0x0d);
  }

  /** A line of words, ended and followed by anything, is cut off and split into its words. */
  lemma {:induction false} LineOfWords(words: seq<Data>, payload: Data)
    requires |words| >= 2 && words[0] == PROXY && forall i :: 0 <= i < |words| ==> Word(words[i])
    ensures var line := Join(words);
            && V1_START <= line && Fields(line) == words
            && FirstLineEnd(line + CRLF + payload) == |line|
            && FirstLineEnd(line + CRLF) == |line|
  {
    var line := Join(words);
    FieldsOfJoin(words);
    WordsHaveNoReturn(words);
    JoinHasNoReturn(words);
    LineThenEnd(line, payload);
    LineThenEnd(line, []);
    assert line + CRLF + [] == line + CRLF;
    assert line[..6] == V1_START;
  }

  lemma V1PartsAreWords(lib: Library, v: Info)
    requires Complete(v) && Word(v.sourceIP) && Word(v.destIP) && v.sourcePort <= MAX_INT64 && v.destPort <= MAX_INT64
    ensures forall i :: 0 <= i < 6 ==> Word(V1Parts(lib, v)[i])
  {
    AtoiOfDecimal(v.sourcePort);
    AtoiOfDecimal(v.destPort);
  }

  /** What version 1 makes of complete endpoints: itself, unless a port does not fit. */
  lemma V1LineParses(lib: Library, v: Info)
    requires Complete(v) && Word(v.sourceIP) && Word(v.destIP) && v.sourcePort <= MAX_INT64 && v.destPort <= MAX_INT64
    ensures ParseLine(Join(V1Parts(lib, v))) == if v.sourcePort <= 65535 && v.destPort <= 65535 then Some(v) else None
  {
    V1PartsAreWords(lib, v);
    LineOfWords(V1Parts(lib, v), []);
    AtoiOfDecimal(v.sourcePort);
    AtoiOfDecimal(v.destPort);
    assert V1Parts(lib, v)[1] != UNKNOWN;
  }

  /** The verdict on a header line followed by a payload, for every first fragment. */
  lemma {:induction false} V1Accepts(words: seq<Data>, payload: Data, first: Data)
    requires |words| >= 2 && words[0] == PROXY && forall i :: 0 <= i < |words| ==> Word(words[i])
    requires first != [] && first <= Join(words) + CRLF + payload
    ensures var line := Join(words);
            var whole, info := line + CRLF + payload, ParseLine(line);
            Comparable(V1_START, first) &&
            V1Verdict(first, whole) ==
              if info.Some? && (|line| + 2 <= V1_WINDOW || |line| + 2 <= |first|) then Header(info.value, payload) else Malformed
  {
    var line := Join(words);
    var whole := line + CRLF + payload;
    LineOfWords(words, payload);
    assert V1_START <= whole by {
      assert whole[..6] == line[..6];
    }
    CommonPrefix(V1_START, first, whole);
    var w := Window(first, whole);
    assert w <= whole;
    if |line| + 2 <= |w| {
      assert w == line + CRLF + w[|line| + 2..];
      FirstLineEndIs(w, |line|) by {
        WordsHaveNoReturn(words);
        JoinHasNoReturn(words);
        LineThenEnd(line, w[|line| + 2..]);
        assert LineEndAt(w, FirstLineEnd(w));
      }
      assert whole[..|line|] == line && whole[|line| + 2..] == payload;
    } else {
      NoEarlierEnd(w, whole);
    }
  }

  /** What is cut off before the first line end is over has none. */
  lemma {:induction false} NoEarlierEnd(w: Data, whole: Data)
    requires w <= whole && |w| < FirstLineEnd(whole) + 2
    ensures FirstLineEnd(w) < 0
  {
    assert whole == w + whole[|w|..];
    if FirstLineEnd(w) >= 0 {
      FirstLineEndStays(w, whole[|w|..]);
    }
  }

  /**
   Version 1, for all complete endpoints whose addresses are words and whose ports fit,
   every payload and every fragmentation: the same endpoints come back and the payload
   is intact if the header is at most 108 bytes long or arrives whole in the first
   fragment; otherwise the connection is refused.
   */
  lemma {:induction false} V1Outcome(lib: Library, v: Info, payload: Data, data: Data, chunks: seq<Data>)
    requires Complete(v) && Word(v.sourceIP) && Word(v.destIP) && v.sourcePort <= 65535 && v.destPort <= 65535
    requires Fragments(chunks) && data != [] && data + Flatten(chunks) == BuildV1(lib, v) + payload
    ensures var (r, left) := ConsumeFrom(lib, data, chunks);
            Extend(r, Flatten(left)) ==
              if |BuildV1(lib, v)| <= V1_WINDOW || |BuildV1(lib, v)| <= |data| then Header(v, payload) else Malformed
  {
    SplitDoesNotMatter(lib, data, chunks);
    V1PartsAreWords(lib, v);
    V1LineParses(lib, v);
    V1Accepts(V1Parts(lib, v), payload, data);
  }

  /** Whatever line is accepted, the addresses read are words and the ports fit. */
  lemma {:induction false} ParsedIsPlain(line: Data)
    requires ParseLine(line).Some?
    ensures var v := ParseLine(line).value;
            (v == NO_INFO || (Word(v.sourceIP) && Word(v.destIP))) && 0 <= v.sourcePort <= 65535 && 0 <= v.destPort <= 65535
  {
    FieldsAreWords(line);
  }

  /**
   Version 1 round trip, for all complete endpoints, every payload and every
   fragmentation: the same endpoints come back and the payload is intact if and only if
   the addresses are words, the ports fit 16 bits, and the header is at most 108 bytes
   long or arrives whole in the first fragment.
   */
  lemma {:induction false} V1RoundTrip(lib: Library, v: Info, payload: Data, data: Data, chunks: seq<Data>)
    requires Complete(v) && Fragments(chunks) && data != [] && data + Flatten(chunks) == BuildV1(lib, v) + payload
    ensures var (r, left) := ConsumeFrom(lib, data, chunks);
            Extend(r, Flatten(left)) == Header(v, payload) <==>
              && Word(v.sourceIP) && Word(v.destIP) && v.sourcePort <= 65535 && v.destPort <= 65535
              && (|BuildV1(lib, v)| <= V1_WINDOW || |BuildV1(lib, v)| <= |data|)
  {
    var whole := data + Flatten(chunks);
    if Word(v.sourceIP) && Word(v.destIP) && v.sourcePort <= 65535 && v.destPort <= 65535 {
      V1Outcome(lib, v, payload, data, chunks);
    } else {
      SplitDoesNotMatter(lib, data, chunks);
      assert data[0] == whole[0] == V1Parts(lib, v)[0][0];
      if Verdict(lib, data, whole) == Header(v, payload) {
        ParsedIsPlain(whole[..FirstLineEnd(Window(data, whole))]);
      }
    }
  }

  /** Endpoints whose version 1 header has 109 bytes. */
  const LONG := Info(seq(90, _ => 0x31), [0x31], 1, 1)

  /** A header of 109 bytes that arrives after its first byte is refused. */
  lemma {:induction false} LongHeaderIsRefused(lib: Library, payload: Data)
    ensures var whole := BuildV1(lib, LONG) + payload;
            |BuildV1(lib, LONG)| == V1_WINDOW + 1 && ConsumeFrom(lib, whole[..1], [whole[1..]]).0 == Malformed
  {
    var whole := BuildV1(lib, LONG) + payload;
    LongHeaderLength(lib);
    assert Flatten([whole[1..]]) == whole[1..] by {
      assert [whole[1..]][1..] == [];
    }
    assert whole == whole[..1] + whole[1..];
    V1Outcome(lib, LONG, payload, whole[..1], [whole[1..]]);
  }

  lemma LongHeaderLength(lib: Library)
    ensures |BuildV1(lib, LONG)| == V1_WINDOW + 1
  {
    var p := V1Parts(lib, LONG);
    assert p[1..][1..] == p[2..] && p[2..][1..] == p[3..] && p[3..][1..] == p[4..] && p[4..][1..] == p[5..];
    assert Join(p[5..]) == p[5] == [0x31];
    assert |Join(p[4..])| == 3;
    assert |Join(p[3..])| == 5;
    assert |Join(p[2..])| == 96;
    assert |Join(p[1..])| == 101;
  }

  /** Address texts of together at most 82 bytes always fit, so real addresses do. */
  lemma V1HeaderFits(lib: Library, v: Info)
    requires Complete(v) && v.sourcePort <= 65535 && v.destPort <= 65535 && |v.sourceIP| + |v.destIP| <= 82
    ensures |BuildV1(lib, v)| <= V1_WINDOW
  {
    var p := V1Parts(lib, v);
    assert PowerOfTen(5) == 100000 by {
      assert PowerOfTen(1) == 10 && PowerOfTen(2) == 100 && PowerOfTen(3) == 1000 && PowerOfTen(4) == 10000;
    }
    DecimalLength(v.sourcePort, 5);
    DecimalLength(v.destPort, 5);
    assert p[1..][1..] == p[2..] && p[2..][1..] == p[3..] && p[3..][1..] == p[4..] && p[4..][1..] == p[5..];
    assert Join(p[5..]) == p[5];
    assert |Join(p[4..])| == |p[4]| + 1 + |p[5]|;
    assert |Join(p[3..])| == |p[3]| + 1 + |Join(p[4..])|;
    assert |Join(p[2..])| == |p[2]| + 1 + |Join(p[3..])|;
    assert |Join(p[1..])| == |p[1]| + 1 + |Join(p[2..])|;
  }

  /** Endpoints that are not complete are announced as unknown, which is read back as nothing known. */
  lemma {:induction false} V1UnknownRoundTrip(lib: Library, v: Info, payload: Data, data: Data, chunks: seq<Data>)
    requires !Complete(v) && Fragments(chunks) && data != [] && data + Flatten(chunks) == BuildV1(lib, v) + payload
    ensures var (r, left) := ConsumeFrom(lib, data, chunks);
            Extend(r, Flatten(left)) == Header(NO_INFO, payload)
  {
    var words := [PROXY, UNKNOWN];
    SplitDoesNotMatter(lib, data, chunks);
    LineOfWords(words, payload);
    assert words[1..] == [UNKNOWN] && |Join(words)| == 13;
    V1Accepts(words, payload, data);
  }

  /**
   What is announced when an endpoint is not known: a known address keeps its place, an unknown
   source is the peer, an unknown destination the far end of the outgoing connection, and failing
   that its address is the near end's; ports that are not known follow the same ends.
   */
  lemma EndpointMeaning(info: Info, source: Option<Addr>, local: Option<Addr>, remote: Option<Addr>)
    ensures var v, s, d := EndpointValues(info, source, local, remote), Trim(info.sourceIP), Trim(info.destIP);
            && TrimmedTo(info.sourceIP, s) && TrimmedTo(info.destIP, d)
            && (s == [] && source.Some? ==> v.sourceIP == source.value.ip && v.sourcePort == source.value.port)
            && (s == [] && source.None? ==> v.sourceIP == [] && v.sourcePort == info.sourcePort)
            && (s != [] ==> v.sourceIP == s)
            && (s != [] && info.sourcePort > 0 ==> v.sourcePort == info.sourcePort)
            && (s != [] && info.sourcePort <= 0 ==> v.sourcePort == if source.Some? then source.value.port else info.sourcePort)
            && (d != [] ==> v.destIP == d)
            && (d == [] && remote.Some? && remote.value.ip != [] ==> v.destIP == remote.value.ip)
            && (d == [] && (remote.None? || remote.value.ip == []) ==> v.destIP == if local.Some? then local.value.ip else [])
            && (remote.None? ==> v.destPort == info.destPort)
            && (remote.Some? ==> v.destPort == if d != [] && info.destPort > 0 then info.destPort else remote.value.port)
  {
    TrimMeaning(info.sourceIP);
    TrimMeaning(info.destIP);
  }

  // ------------------------------------------------------------ version 2 round trip

  /** What version 2 can carry of the endpoints: canonical texts and ports modulo 65536, or nothing. */
  function Carried(lib: Library, v: Info): Info {
    if !Representable(lib, v) then NO_INFO
    else Info(lib.text(lib.parse(v.sourceIP).value), lib.text(lib.parse(v.destIP).value), v.sourcePort % 65536, v.destPort % 65536)
  }

  lemma Port16Reads(port: nat)
    ensures BigEndian(Port16(port), 0) == port % 65536
  {
    assert port / 256 % 256 * 256 + port % 256 == port % 65536;
  }

  lemma PortsRead(sp: nat, dp: nat, ports: Data)
    requires ports == Port16(sp) + Port16(dp)
    ensures BigEndian(ports, 0) == sp % 65536 && BigEndian(ports, 2) == dp % 65536
  {
    Port16Reads(sp);
    Port16Reads(dp);
  }

  lemma BlockParses(lib: Library, v: Info, block: Data)
    requires ValidLibrary(lib) && Representable(lib, v)
    requires var s, d := lib.parse(v.sourceIP).value, lib.parse(v.destIP).value;
             block == s.bytes + d.bytes + Port16(v.sourcePort) + Port16(v.destPort)
    ensures var s := lib.parse(v.sourceIP).value;
            && |block| == (if s.V4? then 12 else 36)
            && ParseBlock(lib, if s.V4? then 0x11 else 0x21, block) == Some(Carried(lib, v))
  {
    var s, d := lib.parse(v.sourceIP).value, lib.parse(v.destIP).value;
    var n := |s.bytes|;
    assert block[..n] == s.bytes && block[n..2 * n] == d.bytes;
    assert block[2 * n..2 * n + 4] == Port16(v.sourcePort) + Port16(v.destPort);
    PortsRead(v.sourcePort, v.destPort, block[2 * n..2 * n + 4]);
  }

  lemma V2Parses(lib: Library, v: Info, payload: Data)
    requires ValidLibrary(lib)
    ensures var whole := BuildV2(lib, v) + payload;
            && |whole| >= V2_FIXED && |whole| >= Need(whole) && SIGNATURE <= whole
            && ConsumeV2(lib, whole) == Header(Carried(lib, v), payload)
  {
    var whole := BuildV2(lib, v) + payload;
    assert whole[..12] == SIGNATURE;
    if Representable(lib, v) {
      var s, d := lib.parse(v.sourceIP).value, lib.parse(v.destIP).value;
      var block := s.bytes + d.bytes + Port16(v.sourcePort) + Port16(v.destPort);
      BlockParses(lib, v, block);
      assert whole[12] == 0x21 && whole[13] == (if s.V4? then 0x11 else 0x21) && whole[14] == 0 && whole[15] == |block|;
      assert whole[V2_FIXED..Need(whole)] == block && whole[Need(whole)..] == payload;
    } else {
      assert whole[12] == 0x20 && whole[14] == 0 && whole[15] == 0;
      assert whole[Need(whole)..] == payload;
    }
  }

  /**
   Version 2 round trip, for all endpoints, payloads and fragmentations: the header is
   always accepted, the payload is intact, and what comes back is what the binary form
   can carry.
   */
  lemma {:induction false} V2RoundTrip(lib: Library, v: Info, payload: Data, data: Data, chunks: seq<Data>)
    requires ValidLibrary(lib)
    requires Fragments(chunks) && data != [] && data + Flatten(chunks) == BuildV2(lib, v) + payload
    ensures var (r, left) := ConsumeFrom(lib, data, chunks);
            Extend(r, Flatten(left)) == Header(Carried(lib, v), payload)
  {
    var whole := BuildV2(lib, v) + payload;
    SplitDoesNotMatter(lib, data, chunks);
    V2Parses(lib, v, payload);
    CommonPrefix(SIGNATURE, data, whole);
    assert data[0] == whole[0] == 0x0d;
  }

  /** The endpoints survive version 2 exactly if both texts are canonical, of one version, and the ports fit. */
  lemma V2KeepsEndpoints(lib: Library, v: Info)
    requires ValidLibrary(lib) && Complete(v)
    ensures Carried(lib, v) == v <==>
            && Representable(lib, v) && v.sourcePort <= 65535 && v.destPort <= 65535
            && lib.text(lib.parse(v.sourceIP).value) == v.sourceIP && lib.text(lib.parse(v.destIP).value) == v.destIP
  {
  }

  // ------------------------------------------------------------ either version

  /** Endpoints as the network library writes them. */
  ghost predicate ValidEndpoints(lib: Library, v: Info) {
    && Complete(v) && Word(v.sourceIP) && Word(v.destIP) && |v.sourceIP| + |v.destIP| <= 82
    && v.sourcePort <= 65535 && v.destPort <= 65535 && Representable(lib, v)
    && lib.text(lib.parse(v.sourceIP).value) == v.sourceIP && lib.text(lib.parse(v.destIP).value) == v.destIP
  }

  lemma TrimOfWord(d: Data)
    requires Word(d)
    ensures Trim(d) == d
  {
    assert !IsBlank(d[0]) && !IsBlank(d[|d| - 1]);
  }

  /**
   Whatever version, fallback addresses, payload and fragmentation: valid endpoints
   are announced as they are, read back unchanged, and the payload is intact.
   */
  lemma {:induction false} HeaderRoundTrip(lib: Library, version: int, info: Info, source: Option<Addr>, local: Option<Addr>, remote: Option<Addr>,
                        payload: Data, data: Data, chunks: seq<Data>)
    requires ValidLibrary(lib) && ValidEndpoints(lib, info) && Fragments(chunks) && data != []
    requires data + Flatten(chunks) == Build(lib, version, info, source, local, remote) + payload
    ensures var (r, left) := ConsumeFrom(lib, data, chunks);
            Extend(r, Flatten(left)) == Header(info, payload)
  {
    TrimOfWord(info.sourceIP);
    TrimOfWord(info.destIP);
    assert EndpointValues(info, source, local, remote) == info;
    if version == 2 {
      V2RoundTrip(lib, info, payload, data, chunks);
      V2KeepsEndpoints(lib, info);
    } else {
      V1HeaderFits(lib, info);
      V1Outcome(lib, info, payload, data, chunks);
    }
  }

  // ------------------------------------------------------- streams without a header

  predicate Plain(whole: Data) {
    !(V1_START <= whole) && !(SIGNATURE <= whole)
  }

  predicate Begins(first: Data, start: Data) {
    first <= start && first != start
  }

  /** A stream without a header is refused exactly if its first fragment could begin one and the stream ends too early. */
  predicate CutShort(first: Data, whole: Data) {
    || (Begins(first, V1_START) && Begins(whole, V1_START))
    || (Begins(first, SIGNATURE) && (|whole| < V2_FIXED || |whole| < Need(whole)))
  }

  lemma FirstLetters(first: Data, whole: Data)
    requires first != [] && first <= whole
    ensures Comparable(V1_START, first) ==> whole[0] == 0x50
    ensures Comparable(SIGNATURE, first) ==> whole[0] == 0x0d
    ensures V1_START <= first ==> V1_START <= whole
    ensures SIGNATURE <= first ==> SIGNATURE <= whole
  {
    assert whole[0] == first[0];
    if V1_START <= first {
      assert whole[..6] == first[..6];
    }
    if SIGNATURE <= first {
      assert whole[..12] == first[..12];
    }
  }

  /** Without a header the consumer loses no byte, and it refuses exactly the streams that are cut short. */
  lemma {:induction false} PlainStreamIsKept(lib: Library, data: Data, chunks: seq<Data>)
    requires Fragments(chunks) && data != [] && Plain(data + Flatten(chunks))
    ensures var (r, left) := ConsumeFrom(lib, data, chunks);
            var whole := data + Flatten(chunks);
            Extend(r, Flatten(left)) == if CutShort(data, whole) then Malformed else NotHeader(whole)
  {
    var whole := data + Flatten(chunks);
    SplitDoesNotMatter(lib, data, chunks);
    FirstLetters(data, whole);
    if Comparable(V1_START, data) {
      assert Begins(data, V1_START) && !Comparable(SIGNATURE, data);
    } else if Comparable(SIGNATURE, data) {
      assert Begins(data, SIGNATURE);
    }
  }

  /** The stream "P" is refused. */
  lemma {:induction false} LoneLetterIsRefused(lib: Library)
    ensures Plain([0x50]) && ConsumeFrom(lib, [0x50], []) == (Malformed, [])
  {
    StartHasNoEnd([0x50]);
    assert WantsMore([0x50]);
  }

  /** So is a stream that consists of a line end. */
  lemma {:induction false} LoneLineEndIsRefused(lib: Library)
    ensures Plain(CRLF) && ConsumeFrom(lib, CRLF, []) == (Malformed, [])
  {
    assert CRLF[0] != V1_START[0];
    assert CRLF == SIGNATURE[..2];
  }

  /** The first fragment could begin a header without being one, so more is read to decide. */
  predicate Undecided(first: Data) {
    first != [] && (Begins(first, V1_START) || Begins(first, SIGNATURE))
  }

  /** An undecided first fragment is only accepted after something more has been read. */
  lemma {:induction false} UndecidedReadsMore(lib: Library, first: Data, chunks: seq<Data>)
    requires Fragments(chunks) && Undecided(first)
    ensures var (r, left) := ConsumeFrom(lib, first, chunks);
            !r.Malformed? ==> |Flatten(left)| < |Flatten(chunks)|
  {
    if Begins(first, V1_START) {
      StartHasNoEnd(first);
      if chunks != [] {
        TakeProps(chunks, V1_WINDOW - |first|);
        var (more, left) := Take(chunks, V1_WINDOW - |first|);
        GrowV1Shrinks(first + more, left);
      }
    } else {
      GrowToProps(first, chunks, V2_FIXED);
      var fixed := GrowTo(first, chunks, V2_FIXED);
      if fixed.Grown? {
        GrowToProps(fixed.buf, fixed.left, Need(fixed.buf));
        var full := GrowTo(fixed.buf, fixed.left, Need(fixed.buf));
        if full.Grown? {
          assert |first| + |Flatten(chunks)| == |full.buf| + |Flatten(full.left)|;
        }
      }
    }
  }

  lemma {:induction false} GrowV1Shrinks(buf: Data, chunks: seq<Data>)
    requires Fragments(chunks)
    ensures var g := GrowV1(buf, chunks); g.Grown? ==> |Flatten(g.left)| <= |Flatten(chunks)|
    decreases V1_WINDOW - |buf|
  {
    if WantsMore(buf) && chunks != [] {
      TakeProps(chunks, V1_WINDOW - |buf|);
      var (more, left) := Take(chunks, V1_WINDOW - |buf|);
      GrowV1Shrinks(buf + more, left);
    }
  }

  function Delivered(r: Received, unread: Data): Data
    requires r.Passed?
  {
    r.first + unread
  }

  /**
   A connection with a header is passed on with its payload intact. One without loses
   bytes exactly if its first read could begin a header: what was read to decide is
   then forgotten.
   */
  lemma {:induction false} ReceiveKeepsPayloadIff(lib: Library, chunks: seq<Data>)
    requires Fragments(chunks) && chunks != []
    ensures var (r, left) := Receive(lib, chunks);
            var first, whole := Take(chunks, 4096).0, Flatten(chunks);
            match r
            case Dropped => Verdict(lib, first, whole).Malformed?
            case Passed(Some(info), _) => Verdict(lib, first, whole) == Header(info, Delivered(r, Flatten(left)))
            case Passed(None, _) =>
              Verdict(lib, first, whole).NotHeader? && (Delivered(r, Flatten(left)) == whole <==> !Undecided(first))
  {
    TakeProps(chunks, FIRST_READ);
    var (first, rest) := Take(chunks, FIRST_READ);
    SplitDoesNotMatter(lib, first, rest);
    var (r, left) := ConsumeFrom(lib, first, rest);
    if r.NotHeader? {
      if Undecided(first) {
        UndecidedReadsMore(lib, first, rest);
      } else {
        DecidedReadsNothing(lib, first, rest);
      }
    }
  }

  lemma DecidedReadsNothing(lib: Library, first: Data, chunks: seq<Data>)
    requires Fragments(chunks) && first != [] && !Undecided(first)
    requires ConsumeFrom(lib, first, chunks).0.NotHeader?
    ensures ConsumeFrom(lib, first, chunks).1 == chunks
  {
    var whole := first + Flatten(chunks);
    SplitDoesNotMatter(lib, first, chunks);
    FirstLetters(first, whole);
    if Comparable(V1_START, first) || Comparable(SIGNATURE, first) {
      assert false;
    }
  }

  /** "P" and then "OST /": the five bytes after the first are not forwarded. */
  lemma SplitRequestLosesBytes(lib: Library)
    ensures var chunks := [[0x50], [0x4f, 0x53, 0x54, 0x20, 0x2f]];
            Receive(lib, chunks) == (Passed(None, [0x50]), [])
  {
    var rest: seq<Data> := [[0x4f, 0x53, 0x54, 0x20, 0x2f]];
    var buf: Data := [0x50] + rest[0];
    assert FirstLineEnd([0x50]) < 0 && WantsMore([0x50]);
    assert rest[1..] == [];
    assert Take(rest, V1_WINDOW - 1) == (rest[0], []);
    assert buf[2] != V1_START[2] && !Comparable(V1_START, buf);
    assert GrowV1(buf, []) == Grown(buf, []);
    assert GrowV1([0x50], rest) == Grown(buf, []);
    assert ConsumeFrom(lib, [0x50], rest) == (NotHeader(buf), []);
    assert [[0x50], rest[0]][1..] == rest;
  }
}

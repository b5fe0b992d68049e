/**
 What the detectors of the protocol guard look for (agent/main.go), as texts: a sample is
 detected exactly if it is built from the parts that the protocols prescribe. The request
 line is that of section 3 of RFC 9112, the record and handshake headers those of sections
 5.1 and 4 of RFC 8446, the SOCKS version 5 greeting that of section 3 of RFC 1928.
 */
module DetectorRules {
  import opened Bytes
  import opened Detectors
  import opened Options

  // ----------------------------------------------------------------------- HTTP

  /** Byte for byte the same, or the upper case of a small letter. */
  predicate SameLetters(text: Data, pattern: Data) {
    |text| >= |pattern| &&
    forall i :: 0 <= i < |pattern| ==> text[i] == pattern[i] || (0x61 <= pattern[i] <= 0x7a && text[i] == pattern[i] - 0x20)
  }

  predicate Method(m: Data) {
    || m == Ascii("GET") || m == Ascii("POST") || m == Ascii("PUT") || m == Ascii("DELETE") || m == Ascii("HEAD")
    || m == Ascii("OPTIONS") || m == Ascii("PATCH") || m == Ascii("CONNECT") || m == Ascii("TRACE")
  }

  /** Printable without blanks; host and port for CONNECT, "*" for OPTIONS only, else a path or an http or https address. */
  predicate Target(m: Data, t: Data) {
    && t != [] && (forall i :: 0 <= i < |t| ==> 0x20 < t[i] < 0x7f)
    && (m == Ascii("CONNECT") ==> exists i :: 0 <= i < |t| && t[i] == 0x3a)
    && (m != Ascii("CONNECT") ==>
          || (m == Ascii("OPTIONS") && t == [0x2a])
          || t[0] == 0x2f || SameLetters(t, Ascii("http://")) || SameLetters(t, Ascii("https://")))
  }

  predicate HttpVersion(v: Data) {
    v == Ascii("HTTP/1.0") || v == Ascii("HTTP/1.1")
  }

  predicate LineOf(line: Data, m: Data, t: Data, v: Data) {
    Method(m) && Target(m, t) && HttpVersion(v) && line == m + [SP] + t + [SP] + v
  }

  /** The sample begins with a whole request line. */
  ghost predicate StartsWithRequest(d: Data) {
    exists m, t, v, line, rest :: LineOf(line, m, t, v) && d == line + CRLF + rest
  }

  /** The text ends in the target, or in the beginning of a version and line end. */
  predicate SoFarOf(d: Data, m: Data, t: Data, p: Data) {
    && Method(m) && Target(m, t)
    && (d == m + [SP] + t || ((p <= Ascii("HTTP/1.0") + CRLF || p <= Ascii("HTTP/1.1") + CRLF) && d == m + [SP] + t + [SP] + p))
  }

  /** The whole sample is the beginning of a request line, at least to the target. */
  ghost predicate IsRequestSoFar(d: Data) {
    exists m, t, p :: SoFarOf(d, m, t, p)
  }

  lemma {:induction false} SplitOfJoin(parts: seq<Data>)
    requires |parts| >= 1 && forall i :: 0 <= i < |parts| ==> Solid(parts[i])
    ensures Split(Join(parts)) == parts
    decreases |Join(parts)|, |parts|
  {
    if parts[0] == [] {
      if |parts| > 1 {
        SplitOfJoin(parts[1..]);
        assert Join(parts)[1..] == Join(parts[1..]);
        assert parts == [[]] + parts[1..];
      } else {
        assert parts == [[]];
      }
    } else {
      var d := Join(parts);
      var shorter := [parts[0][1..]] + parts[1..];
      forall i | 0 <= i < |shorter| ensures Solid(shorter[i]) {
        assert i > 0 ==> shorter[i] == parts[i];
      }
      JoinShorter(parts);
      SplitOfJoin(shorter);
      assert d[0] == parts[0][0] && d[0] in parts[0];
      assert Split(d) == [[d[0]] + shorter[0]] + shorter[1..];
      assert [d[0]] + shorter[0] == parts[0] && shorter[1..] == parts[1..];
    }
  }

  lemma {:induction false} JoinShorter(parts: seq<Data>)
    requires |parts| >= 1 && parts[0] != []
    ensures Join(parts) != [] && Join(parts)[0] == parts[0][0] && Join(parts)[1..] == Join([parts[0][1..]] + parts[1..])
  {
    var first, shorter := parts[0], [parts[0][1..]] + parts[1..];
    if |parts| == 1 {
      assert shorter == [first[1..]];
    } else {
      var rest := [SP] + Join(parts[1..]);
      assert shorter[1..] == parts[1..];
      assert Join(parts) == first + rest && Join(shorter) == first[1..] + rest;
      assert (first + rest)[1..] == first[1..] + rest;
    }
  }

  lemma LowerMeaning(t: Data, pattern: Data)
    requires forall i :: 0 <= i < |pattern| ==> !(0x41 <= pattern[i] <= 0x5a)
    ensures pattern <= Lower(t) <==> SameLetters(t, pattern)
  {
    if SameLetters(t, pattern) {
      assert forall i :: 0 <= i < |pattern| ==> Lower(t)[..|pattern|][i] == pattern[i];
      assert Lower(t)[..|pattern|] == pattern;
    }
    if pattern <= Lower(t) {
      forall i | 0 <= i < |pattern| ensures t[i] == pattern[i] || (0x61 <= pattern[i] <= 0x7a && t[i] == pattern[i] - 0x20) {
        assert Lower(t)[i] == pattern[i];
      }
    }
  }

  lemma TargetMeaning(m: Data, t: Data)
    requires Method(m)
    ensures ValidTarget(m, t) <==> Target(m, t)
  {
    LowerMeaning(t, Ascii("http://"));
    LowerMeaning(t, Ascii("https://"));
  }

  /** No blank and no line end in methods, targets and versions. */
  lemma PartsAreSolid(m: Data, t: Data, v: Data)
    requires Method(m) && Target(m, t) && HttpVersion(v)
    ensures Solid(m) && Solid(t) && Solid(v) && 0x0d !in m && 0x0d !in t && 0x0d !in v
    ensures |m| >= 3 && |t| >= 1 && |v| == 8
  {
  }

  lemma JoinTwo(m: Data, t: Data)
    ensures Join([m, t]) == m + [SP] + t
  {
    assert [m, t][1..] == [t];
  }

  lemma JoinThree(m: Data, t: Data, v: Data)
    ensures Join([m, t, v]) == m + [SP] + t + [SP] + v
  {
    assert [m, t, v][1..] == [t, v];
    JoinTwo(t, v);
    assert m + [SP] + (t + [SP] + v) == m + [SP] + t + [SP] + v;
  }

  /** A whole line is a request line exactly if it is a method, a target and a version. */
  lemma {:induction false} LineHasParts(line: Data)
    requires RequestLine(Split(line), true)
    ensures exists m, t, v :: LineOf(line, m, t, v)
  {
    var parts := Split(line);
    JoinOfSplit(line);
    assert parts == [parts[0], parts[1], parts[2]];
    JoinThree(parts[0], parts[1], parts[2]);
    TargetMeaning(parts[0], parts[1]);
    assert LineOf(line, parts[0], parts[1], parts[2]);
  }

  lemma {:induction false} PartsMakeLine(line: Data, m: Data, t: Data, v: Data)
    requires LineOf(line, m, t, v)
    ensures RequestLine(Split(line), true) && 0x0d !in line && |line| >= 14
  {
    PartsAreSolid(m, t, v);
    JoinThree(m, t, v);
    SplitOfJoin([m, t, v]);
    TargetMeaning(m, t);
  }

  lemma {:induction false} LineStarts(d: Data, line: Data, m: Data, t: Data, v: Data, rest: Data)
    requires LineOf(line, m, t, v) && d == line + CRLF + rest
    ensures FirstLineEnd(d) >= 0 && RequestLine(Split(d[..FirstLineEnd(d)]), true) && |d| >= 16
  {
    PartsMakeLine(line, m, t, v);
    LineThenEnd(line, rest);
    assert d[..|line|] == line;
  }

  lemma {:induction false} StartsAtLineEnd(d: Data, end: nat)
    requires end + 2 <= |d| && d[end] == 0x0d && d[end + 1] == 0x0a && RequestLine(Split(d[..end]), true)
    ensures StartsWithRequest(d)
  {
    var line, rest := d[..end], d[end + 2..];
    LineHasParts(line);
    assert d == line + CRLF + rest;
    var m, t, v :| LineOf(line, m, t, v);
  }

  lemma {:induction false} StartsMeaning(d: Data)
    ensures StartsWithRequest(d) <==> FirstLineEnd(d) >= 0 && RequestLine(Split(d[..FirstLineEnd(d)]), true)
    ensures StartsWithRequest(d) ==> |d| >= 16
  {
    if StartsWithRequest(d) {
      var m, t, v, line, rest :| LineOf(line, m, t, v) && d == line + CRLF + rest;
      LineStarts(d, line, m, t, v, rest);
    } else if FirstLineEnd(d) >= 0 && RequestLine(Split(d[..FirstLineEnd(d)]), true) {
      StartsAtLineEnd(d, FirstLineEnd(d));
      assert false;
    }
  }

  lemma {:induction false} SoFarHasParts(d: Data)
    requires RequestLine(Split(d), false)
    ensures IsRequestSoFar(d)
  {
    var parts := Split(d);
    JoinOfSplit(d);
    TargetMeaning(parts[0], parts[1]);
    if |parts| == 2 {
      assert parts == [parts[0], parts[1]];
      JoinTwo(parts[0], parts[1]);
      assert SoFarOf(d, parts[0], parts[1], []);
    } else {
      assert parts == [parts[0], parts[1], parts[2]];
      JoinThree(parts[0], parts[1], parts[2]);
      assert SoFarOf(d, parts[0], parts[1], parts[2]);
    }
  }

  lemma {:induction false} PartsMakeSoFar(d: Data, m: Data, t: Data, p: Data)
    requires SoFarOf(d, m, t, p)
    ensures RequestLine(Split(d), false)
  {
    TargetMeaning(m, t);
    PartsAreSolid(m, t, HTTP10);
    if d == m + [SP] + t {
      JoinTwo(m, t);
      SplitOfJoin([m, t]);
    } else {
      var whole := if p <= HTTP10 + CRLF then HTTP10 + CRLF else HTTP11 + CRLF;
      assert forall i :: 0 <= i < |p| ==> p[i] == whole[i];
      assert Solid(p);
      JoinThree(m, t, p);
      SplitOfJoin([m, t, p]);
    }
  }

  lemma {:induction false} SoFarMeaning(d: Data)
    ensures RequestLine(Split(d), false) <==> IsRequestSoFar(d)
  {
    if RequestLine(Split(d), false) {
      SoFarHasParts(d);
    }
    if m, t, p :| SoFarOf(d, m, t, p) {
      PartsMakeSoFar(d, m, t, p);
    }
  }

  /** HTTP is detected exactly at the HTTP/2 preface, a request line, or a sample filled by the beginning of one. */
  lemma {:induction false} HTTPMeaning(d: Data)
    ensures DetectHTTP(d) <==>
            || Ascii("PRI * HTTP/2.0\r\n\r\nSM\r\n\r\n") <= d
            || StartsWithRequest(d)
            || (|d| >= 512 && FirstLineEnd(d) < 0 && IsRequestSoFar(d))
  {
    StartsMeaning(d);
    SoFarMeaning(d);
  }

  // ------------------------------------------------------------------------ TLS

  function Three(n: nat): Data {
    [n / 65536 % 256, n / 256 % 256, n % 256]
  }

  predicate HelloOf(d: Data, minor: Byte, record: nat, hello: nat, rest: Data) {
    && 1 <= minor <= 4 && 64 <= record <= 18432 && 1 <= hello <= record - 4
    && d == [0x16, 3, minor] + Two(record) + [1] + Three(hello) + rest
  }

  /** A handshake record of version 3.1 to 3.4 that announces 64 to 18432 bytes and holds a whole client hello. */
  ghost predicate StartsWithHello(d: Data) {
    exists minor: Byte, record: nat, hello: nat, rest: Data :: HelloOf(d, minor, record, hello, rest)
  }

  lemma ThreeReads(a: Byte, b: Byte, c: Byte)
    ensures var n: nat := 65536 * a + 256 * b + c; Three(n) == [a, b, c]
  {
    var n: nat := 65536 * a + 256 * b + c;
    assert n / 256 == 256 * a + b && n % 256 == c && n / 65536 == a;
  }

  lemma ThreeMeans(n: nat)
    requires n < 65536
    ensures var b := Three(n); var high: int, mid: int, low: int := b[0], b[1], b[2]; 65536 * high + 256 * mid + low == n
  {
  }

  lemma {:induction false} HelloIsTLS(d: Data, minor: Byte, record: nat, hello: nat, rest: Data)
    requires HelloOf(d, minor, record, hello, rest)
    ensures DetectTLS(d)
  {
    TwoMeans(record);
    ThreeMeans(hello);
    assert d[..9] == [0x16, 3, minor] + Two(record) + [1] + Three(hello);
    assert d[0] == 0x16 && d[1] == 3 && d[2] == minor && d[5] == 1;
    assert d[3] == Two(record)[0] && d[4] == Two(record)[1];
    assert d[6] == Three(hello)[0] && d[7] == Three(hello)[1] && d[8] == Three(hello)[2];
  }

  lemma {:induction false} TLSIsHello(d: Data)
    requires DetectTLS(d)
    ensures StartsWithHello(d)
  {
    TwoReads(d[3], d[4]);
    ThreeReads(d[6], d[7], d[8]);
    var b3: int, b4: int, b6: int, b7: int, b8: int := d[3], d[4], d[6], d[7], d[8];
    var record: nat, hello: nat := 256 * b3 + b4, 65536 * b6 + 256 * b7 + b8;
    assert d[..9] == [0x16, 3, d[2]] + Two(record) + [1] + Three(hello);
    assert d == d[..9] + d[9..];
    assert HelloOf(d, d[2], record, hello, d[9..]);
  }

  lemma {:induction false} TLSMeaning(d: Data)
    ensures DetectTLS(d) <==> StartsWithHello(d)
  {
    if DetectTLS(d) {
      TLSIsHello(d);
    }
    if minor: Byte, record: nat, hello: nat, rest: Data :| HelloOf(d, minor, record, hello, rest) {
      HelloIsTLS(d, minor, record, hello, rest);
    }
  }

  // ---------------------------------------------------------------------- SOCKS

  /** A text without a zero byte, ended by one. */
  predicate Text(t: Data) {
    0 !in t
  }

  /** The address 0.0.0.x that announces a domain name. */
  predicate NamesDomain(ip: Data) {
    |ip| == 4 && ip[0] == ip[1] == ip[2] == 0 && ip[3] != 0
  }

  /** What follows the user: nothing, or for an address that says so a domain name. */
  function DomainPart(ip: Data, domain: Data): Data {
    if NamesDomain(ip) then domain + [0] else []
  }

  predicate Socks4Of(d: Data, command: Byte, port: Data, ip: Data, user: Data, domain: Data) {
    && (command == 1 || command == 2) && |port| == 2 && |ip| == 4 && Text(user) && Text(domain) && (NamesDomain(ip) ==> domain != [])
    && d == [4, command] + port + ip + user + [0] + DomainPart(ip, domain)
  }

  /** Connect or bind, port, address, user, and for an address that says so a domain name; nothing more. */
  ghost predicate IsSocks4(d: Data) {
    exists command: Byte, port: Data, ip: Data, user: Data, domain: Data :: Socks4Of(d, command, port, ip, user, domain)
  }

  /** One to sixteen different methods, none of them 0xff; nothing more. */
  ghost predicate IsSocks5(d: Data, methods: Data) {
    && 1 <= |methods| <= 16 && 0xff !in methods && (forall i, j :: 0 <= i < j < |methods| ==> methods[i] != methods[j])
    && d == [5, |methods|] + methods
  }

  lemma {:induction false} ZeroEnds(t: Data, rest: Data)
    requires Text(t)
    ensures IndexOfZero(t + [0] + rest) == |t|
  {
    var d := t + [0] + rest;
    if t == [] {
      assert d[0] == 0;
    } else {
      assert d[0] == t[0] && d[0] in t && d[1..] == t[1..] + [0] + rest;
      ZeroEnds(t[1..], rest);
    }
  }

  lemma {:induction false} TextBeforeZero(d: Data)
    requires IndexOfZero(d) >= 0
    ensures var n := IndexOfZero(d); n < |d| && d[n] == 0 && Text(d[..n])
  {
    IndexOfZeroInRange(d);
    if d[0] != 0 {
      TextBeforeZero(d[1..]);
      var n := IndexOfZero(d);
      assert d[..n] == [d[0]] + d[1..][..n - 1];
    }
  }

  /** The fixed part, the user and what is left. */
  lemma {:induction false} Socks4Parts(d: Data) returns (user: Data, rest: Data)
    requires |d| >= 9 && d[0] == 4 && IndexOfZero(d[8..]) >= 0
    ensures Text(user) && |user| == IndexOfZero(d[8..]) && 8 + |user| + 1 <= |d| && rest == d[8 + |user| + 1..]
    ensures d == [4, d[1]] + d[2..4] + d[4..8] + user + [0] + rest
  {
    var tail := d[8..];
    var n := IndexOfZero(tail);
    TextBeforeZero(tail);
    user, rest := tail[..n], tail[n + 1..];
    assert tail == user + [0] + rest;
    assert d[..8] == [4, d[1]] + d[2..4] + d[4..8];
    assert d == d[..8] + tail;
  }

  lemma {:induction false} WholeDomain(rest: Data)
    requires IndexOfZero(rest) > 0 && IndexOfZero(rest) + 1 == |rest|
    ensures var domain := rest[..|rest| - 1]; Text(domain) && domain != [] && rest == domain + [0]
  {
    TextBeforeZero(rest);
  }

  lemma {:induction false} Socks4IsText(d: Data)
    requires Socks4Request(d)
    ensures IsSocks4(d)
  {
    var user, rest := Socks4Parts(d);
    var ip := d[4..8];
    assert ip[0] == d[4] && ip[1] == d[5] && ip[2] == d[6] && ip[3] == d[7];
    if NamesDomain(ip) {
      WholeDomain(rest);
      assert Socks4Of(d, d[1], d[2..4], ip, user, rest[..|rest| - 1]);
    } else {
      assert rest == [];
      assert Socks4Of(d, d[1], d[2..4], ip, user, []);
    }
  }

  lemma {:induction false} TextIsSocks4(d: Data, command: Byte, port: Data, ip: Data, user: Data, domain: Data)
    requires Socks4Of(d, command, port, ip, user, domain)
    ensures Socks4Request(d)
  {
    var tail := DomainPart(ip, domain);
    var head := [4, command] + port + ip;
    assert d == head + (user + [0] + tail) && |head| == 8;
    assert d[8..] == user + [0] + tail;
    ZeroEnds(user, tail);
    var end := 8 + |user| + 1;
    assert d[end..] == d[8..][|user| + 1..] == tail;
    assert d[..8] == head && head[4..8] == ip;
    assert d[4] == head[4] == ip[0] && d[5] == head[5] == ip[1] && d[6] == head[6] == ip[2] && d[7] == head[7] == ip[3];
    if NamesDomain(ip) {
      assert tail == domain + [0] + [];
      ZeroEnds(domain, []);
    }
  }

  lemma {:induction false} Socks5HasMethods(d: Data)
    requires Socks(d).Some? && d[0] == 5
    ensures IsSocks5(d, d[2..]) && Socks(d).value == Greeting(5, set b | b in d[2..])
  {
    var methods := d[2..];
    assert forall i :: 0 <= i < |methods| ==> methods[i] == d[i + 2];
    assert d == [5, |methods|] + methods;
  }

  lemma {:induction false} MethodsMakeSocks5(d: Data, methods: Data)
    requires IsSocks5(d, methods)
    ensures Socks(d) == Some(Greeting(5, set b | b in methods))
  {
    assert d[2..] == methods;
    forall i, j | 2 <= i < j < |d| ensures d[i] != d[j] {
      assert d[i] == methods[i - 2] && d[j] == methods[j - 2];
    }
  }

  /** A greeting is found exactly in a whole version 4 request, and in a whole version 5 one with its methods. */
  lemma {:induction false} SocksMeaning(d: Data, g: Greeting)
    ensures Socks(d) == Some(g) <==>
            || (g == Greeting(4, {}) && IsSocks4(d))
            || (exists methods :: IsSocks5(d, methods) && g == Greeting(5, set b | b in methods))
  {
    if Socks(d) == Some(g) {
      if d[0] == 4 {
        Socks4IsText(d);
      } else {
        Socks5HasMethods(d);
      }
    }
    if command: Byte, port: Data, ip: Data, user: Data, domain: Data :| Socks4Of(d, command, port, ip, user, domain) {
      TextIsSocks4(d, command, port, ip, user, domain);
    }
    if methods :| IsSocks5(d, methods) && g == Greeting(5, set b | b in methods) {
      MethodsMakeSocks5(d, methods);
    }
  }
}

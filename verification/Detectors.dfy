/** The one-shot protocol detectors of the guard (agent/main.go): HTTP, TLS and SOCKS. */
module Detectors {
  import opened Bytes
  import opened Options

  const SAMPLE_MAX: nat := 512
  const TLS_MIN_RECORD := 64
  const TLS_MAX_RECORD := 18432
  const SOCKS5_MAX_METHODS := 16

  // ----------------------------------------------------------------------- HTTP

  const PREFACE: Data := Ascii("PRI * HTTP/2.0\r\n\r\nSM\r\n\r\n")
  const CONNECT: Data := Ascii("CONNECT")
  const OPTIONS: Data := Ascii("OPTIONS")
  const HTTP10: Data := Ascii("HTTP/1.0")
  const HTTP11: Data := Ascii("HTTP/1.1")

  predicate IsMethod(m: Data) {
    m in [Ascii("GET"), Ascii("POST"), Ascii("PUT"), Ascii("DELETE"), Ascii("HEAD"), OPTIONS, Ascii("PATCH"), CONNECT, Ascii("TRACE")]
  }

  function Lower(d: Data): Data {
    seq(|d|, i requires 0 <= i < |d| => if 0x41 <= d[i] <= 0x5a then d[i] + 32 else d[i])
  }

  predicate ValidTarget(m: Data, t: Data) {
    && t != []
    && (forall i :: 0 <= i < |t| ==> 0x21 <= t[i] <= 0x7e)
    && (if m == CONNECT then 0x3a in t
        else if t == [0x2a] then m == OPTIONS
        else t[0] == 0x2f || Ascii("http://") <= Lower(t) || Ascii("https://") <= Lower(t))
  }

  /** The request line, complete or filling the whole sample. */
  predicate RequestLine(parts: seq<Data>, complete: bool) {
    && 2 <= |parts| <= 3 && (complete ==> |parts| == 3)
    && IsMethod(parts[0]) && ValidTarget(parts[0], parts[1])
    && (if complete then parts[2] == HTTP10 || parts[2] == HTTP11
        else |parts| == 2 || parts[2] <= HTTP10 + CRLF || parts[2] <= HTTP11 + CRLF)
  }

  predicate DetectHTTP(d: Data) {
    || PREFACE <= d
    || (&& |d| >= 16
        && var end := FirstLineEnd(d);
           if end >= 0 then RequestLine(Split(d[..end]), true)
           else |d| >= SAMPLE_MAX && RequestLine(Split(d), false))
  }

  // ------------------------------------------------------------------------ TLS

  /** A client hello: record header, plausible length, handshake that fits in the record. */
  predicate DetectTLS(d: Data) {
    && |d| >= 9
    && d[0] == 0x16 && d[1] == 0x03 && 0x01 <= d[2] <= 0x04
    && var b3: int, b4: int, b6: int, b7: int, b8: int := d[3], d[4], d[6], d[7], d[8];
       var record, handshake := 256 * b3 + b4, 65536 * b6 + 256 * b7 + b8;
       && TLS_MIN_RECORD <= record <= TLS_MAX_RECORD
       && d[5] == 0x01
       && handshake > 0 && handshake + 4 <= record
  }

  // ---------------------------------------------------------------------- SOCKS

  function IndexOfZero(d: Data): int {
    if d == [] then -1 else if d[0] == 0 then 0 else
      var r := IndexOfZero(d[1..]);
      if r < 0 then -1 else r + 1
  }

  lemma {:induction false} IndexOfZeroInRange(d: Data)
    ensures -1 <= IndexOfZero(d) < |d|
  {
    if d != [] && d[0] != 0 {
      IndexOfZeroInRange(d[1..]);
    }
  }

  predicate Socks4Request(d: Data) {
    && |d| >= 9 && d[0] == 0x04 && (d[1] == 0x01 || d[1] == 0x02)
    && var user := IndexOfZero(d[8..]);
       IndexOfZeroInRange(d[8..]);
       && user >= 0
       && var end := 8 + user + 1;
          if d[4] == 0 && d[5] == 0 && d[6] == 0 && d[7] != 0 then
            var domain := IndexOfZero(d[end..]);
            domain > 0 && end + domain + 1 == |d|
          else end == |d|
  }

  /** Version 4 carries no methods. */
  datatype Greeting = Greeting(version: Byte, methods: set<Byte>)

  function Socks(d: Data): Option<Greeting> {
    if |d| < 2 then None
    else if d[0] == 0x04 then if Socks4Request(d) then Some(Greeting(0x04, {})) else None
    else if d[0] != 0x05 then None
    else
      var n: int := d[1];
      if n <= 0 || n > SOCKS5_MAX_METHODS || |d| != 2 + n then None
      else if 0xff in d[2..] || exists i, j :: 2 <= i < j < |d| && d[i] == d[j] then None
      else Some(Greeting(0x05, set b | b in d[2..]))
  }

  // ------------------------------------------------- what more bytes cannot change

  /** Within the sample, HTTP once detected stays detected. */
  lemma HTTPIsMonotone(d: Data, more: Data)
    requires DetectHTTP(d) && |d| + |more| <= SAMPLE_MAX
    ensures DetectHTTP(d + more)
  {
    if PREFACE <= d {
      assert (d + more)[..|PREFACE|] == PREFACE;
    } else if FirstLineEnd(d) >= 0 {
      FirstLineEndStays(d, more);
      assert (d + more)[..FirstLineEnd(d)] == d[..FirstLineEnd(d)];
    } else {
      assert more == [] && d + more == d;
    }
  }

  lemma TLSIsMonotone(d: Data, more: Data)
    requires DetectTLS(d)
    ensures DetectTLS(d + more)
  {
  }

  lemma {:induction false} SplitStart(d: Data)
    requires d != [] && Split(d)[0] != []
    ensures Split(d)[0][0] == d[0]
  {
  }

  /** No stream is both: HTTP begins with a capital letter, TLS with 0x16. */
  lemma HTTPIsNotTLS(d: Data)
    ensures !(DetectHTTP(d) && DetectTLS(d))
  {
    if DetectHTTP(d) && !(PREFACE <= d) {
      var end := FirstLineEnd(d);
      var line := if end >= 0 then d[..end] else d;
      var m := Split(line)[0];
      assert IsMethod(m) && m != [] && m[0] >= 0x41;
      SplitStart(line);
    }
  }
}

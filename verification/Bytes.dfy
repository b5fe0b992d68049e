/** Bytes, ASCII text, the first line end, and splitting at single spaces. */
module Bytes {
  type Byte = b: int | 0 <= b < 256
  type Data = seq<Byte>

  const SP: Byte := 0x20
  const CRLF: Data := [0x0d, 0x0a]

  function Ascii(s: string): (d: Data)
    requires forall i :: 0 <= i < |s| ==> s[i] < 128 as char
    ensures |d| == |s| && forall i :: 0 <= i < |s| ==> d[i] == s[i] as int
  {
    seq(|s|, i requires 0 <= i < |s| => s[i] as int)
  }

  /** A number of 16 bits, high byte first. */
  function Two(n: nat): Data {
    [n / 256 % 256, n % 256]
  }

  lemma TwoReads(a: Byte, b: Byte)
    ensures var n: nat := 256 * a + b; n < 65536 && Two(n) == [a, b]
  {
    var n: nat := 256 * a + b;
    assert n / 256 == a && n % 256 == b;
  }

  lemma TwoMeans(n: nat)
    requires n < 65536
    ensures var b := Two(n); var high: int, low: int := b[0], b[1]; 256 * high + low == n
  {
  }

  predicate LineEndAt(d: Data, i: nat) {
    i + 1 < |d| && d[i] == 0x0d && d[i + 1] == 0x0a
  }

  /** The position of the first CR LF, or -1. */
  function FirstLineEnd(d: Data): (r: int)
    ensures -1 <= r < |d|
    ensures r >= 0 ==> LineEndAt(d, r) && forall i: nat :: i < r ==> !LineEndAt(d, i)
    ensures r < 0 ==> forall i: nat :: !LineEndAt(d, i)
  {
    if |d| < 2 then -1
    else if LineEndAt(d, 0) then 0
    else
      var r := FirstLineEnd(d[1..]);
      assert forall i: nat :: 0 < i && LineEndAt(d, i) ==> LineEndAt(d[1..], i - 1);
      if r < 0 then -1 else r + 1
  }

  lemma {:induction false} FirstLineEndIs(d: Data, i: nat)
    requires LineEndAt(d, i) && forall j: nat :: j < i ==> !LineEndAt(d, j)
    ensures FirstLineEnd(d) == i
  {
    var r := FirstLineEnd(d);
    assert r >= 0;
    assert LineEndAt(d, r);
  }

  /** A line end once found stays the first one, whatever follows. */
  lemma {:induction false} FirstLineEndStays(d: Data, rest: Data)
    requires FirstLineEnd(d) >= 0
    ensures FirstLineEnd(d + rest) == FirstLineEnd(d)
  {
    var r: nat := FirstLineEnd(d);
    assert LineEndAt(d + rest, r);
    assert forall j: nat :: j < r && LineEndAt(d + rest, j) ==> LineEndAt(d, j);
    FirstLineEndIs(d + rest, r);
  }

  /** Text without a carriage return, ended by one line end. */
  lemma {:induction false} LineThenEnd(line: Data, rest: Data)
    requires 0x0d !in line
    ensures FirstLineEnd(line + CRLF + rest) == |line|
  {
    var d := line + CRLF + rest;
    assert LineEndAt(d, |line|);
    forall j: nat | j < |line| ensures !LineEndAt(d, j) {
      assert d[j] == line[j] && line[j] in line;
    }
    FirstLineEndIs(d, |line|);
  }

  // ------------------------------------------------------------------ single spaces

  /** At least one part; every space separates two. */
  function Split(d: Data): (parts: seq<Data>)
    ensures |parts| >= 1
  {
    if d == [] then [[]]
    else
      var parts := Split(d[1..]);
      if d[0] == SP then [[]] + parts else [[d[0]] + parts[0]] + parts[1..]
  }

  function Join(parts: seq<Data>): Data
    requires |parts| >= 1
  {
    if |parts| == 1 then parts[0] else parts[0] + [SP] + Join(parts[1..])
  }

  predicate Solid(d: Data) {
    SP !in d
  }

  /** Splitting loses nothing and leaves no space inside a part. */
  lemma {:induction false} JoinOfSplit(d: Data)
    ensures Join(Split(d)) == d
    ensures forall i :: 0 <= i < |Split(d)| ==> Solid(Split(d)[i])
  {
    if d != [] {
      JoinOfSplit(d[1..]);
      var parts := Split(d[1..]);
      if d[0] == SP {
        assert ([[]] + parts)[1..] == parts;
      } else {
        assert Split(d)[1..] == parts[1..];
      }
    }
  }
}

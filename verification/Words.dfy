/** Blank-separated words and decimal numbers, as the agent's text library treats ASCII text. */
module Words {
  import opened Bytes
  import opened Options

  /** The ASCII blanks: tab, line feed, vertical tab, form feed, carriage return and space. */
  predicate IsBlank(b: Byte) {
    9 <= b <= 13 || b == 32
  }

  predicate Word(d: Data) {
    d != [] && forall i :: 0 <= i < |d| ==> !IsBlank(d[i])
  }

  function TrimLeft(d: Data): Data {
    if d != [] && IsBlank(d[0]) then TrimLeft(d[1..]) else d
  }

  function TrimRight(d: Data): Data {
    if d != [] && IsBlank(d[|d| - 1]) then TrimRight(d[..|d| - 1]) else d
  }

  function Trim(d: Data): Data {
    TrimRight(TrimLeft(d))
  }

  predicate AllBlank(d: Data) {
    forall i :: 0 <= i < |d| ==> d[i] in {9, 10, 11, 12, 13, 32}
  }

  /** Trimming takes blanks off both ends, and nothing else. */
  ghost predicate TrimmedTo(d: Data, r: Data) {
    && (exists i, j :: 0 <= i <= j <= |d| && r == d[i..j] && AllBlank(d[..i]) && AllBlank(d[j..]))
    && (r != [] ==> !IsBlank(r[0]) && !IsBlank(r[|r| - 1]))
  }

  lemma {:induction false} TrimLeftMeaning(d: Data) returns (i: nat)
    ensures i <= |d| && TrimLeft(d) == d[i..] && AllBlank(d[..i]) && (i < |d| ==> !IsBlank(d[i]))
  {
    if d != [] && IsBlank(d[0]) {
      var k := TrimLeftMeaning(d[1..]);
      i := k + 1;
      assert d[i..] == d[1..][k..] && d[..i] == [d[0]] + d[1..][..k];
    } else {
      i := 0;
      assert d[0..] == d;
    }
  }

  lemma {:induction false} TrimRightMeaning(d: Data) returns (j: nat)
    ensures j <= |d| && TrimRight(d) == d[..j] && AllBlank(d[j..]) && (j > 0 ==> !IsBlank(d[j - 1]))
  {
    var n := |d| - 1;
    if d != [] && IsBlank(d[n]) {
      j := TrimRightMeaning(d[..n]);
      assert d[..n][..j] == d[..j] && d[j..] == d[..n][j..] + [d[n]];
    } else {
      j := |d|;
      assert d[..j] == d;
    }
  }

  lemma TrimMeaning(d: Data)
    ensures TrimmedTo(d, Trim(d))
  {
    var i := TrimLeftMeaning(d);
    var j := TrimRightMeaning(d[i..]);
    assert d[i..][..j] == d[i..i + j] && d[i..][j..] == d[i + j..];
  }

  /** How many bytes pass before the first blank. */
  function WordLength(d: Data): (n: nat)
    ensures n <= |d| && (forall i :: 0 <= i < n ==> !IsBlank(d[i])) && (n < |d| ==> IsBlank(d[n]))
  {
    if d == [] || IsBlank(d[0]) then 0 else 1 + WordLength(d[1..])
  }

  /** The words of a text, in order. */
  function Fields(d: Data): seq<Data>
    decreases |d|
  {
    if d == [] then []
    else if IsBlank(d[0]) then Fields(d[1..])
    else
      var n := WordLength(d);
      [d[..n]] + Fields(d[n..])
  }

  lemma {:induction false} FieldsOfWord(w: Data, rest: Data)
    requires Word(w) && (rest == [] || IsBlank(rest[0]))
    ensures Fields(w + rest) == [w] + Fields(rest)
  {
    var d := w + rest;
    assert d[0] == w[0];
    var n := WordLength(d);
    assert forall i :: 0 <= i < |w| ==> d[i] == w[i];
    assert rest != [] ==> d[|w|] == rest[0];
    assert n == |w|;
    assert d[..n] == w && d[n..] == rest;
  }

  lemma {:induction false} FieldsAreWords(d: Data)
    ensures forall i :: 0 <= i < |Fields(d)| ==> Word(Fields(d)[i])
    decreases |d|
  {
    if d != [] && IsBlank(d[0]) {
      FieldsAreWords(d[1..]);
    } else if d != [] {
      FieldsAreWords(d[WordLength(d)..]);
    }
  }

  /** Words joined by single spaces are found again. */
  lemma {:induction false} FieldsOfJoin(words: seq<Data>)
    requires |words| >= 1 && forall i :: 0 <= i < |words| ==> Word(words[i])
    ensures Fields(Join(words)) == words
  {
    if |words| == 1 {
      FieldsOfWord(words[0], []);
      assert words[0] + [] == words[0] && words == [words[0]];
    } else {
      FieldsOfJoin(words[1..]);
      var rest := [SP] + Join(words[1..]);
      assert rest[1..] == Join(words[1..]) && words[0] + rest == Join(words);
      FieldsOfWord(words[0], rest);
      assert words == [words[0]] + words[1..];
    }
  }

  /** Words laid out with these gaps before, between and after them. */
  function Laid(gaps: seq<Data>, words: seq<Data>): Data
    requires |gaps| == |words| + 1
  {
    if words == [] then gaps[0] else gaps[0] + words[0] + Laid(gaps[1..], words[1..])
  }

  /** All gaps are blank, and those between two words are there. */
  predicate Gaps(gaps: seq<Data>, words: seq<Data>) {
    && |gaps| == |words| + 1 && (forall i :: 0 <= i < |gaps| ==> AllBlank(gaps[i]))
    && (forall i :: 0 < i < |words| ==> gaps[i] != [])
  }

  predicate AllWords(words: seq<Data>) {
    forall i :: 0 <= i < |words| ==> Word(words[i])
  }

  lemma {:induction false} FieldsOfBlank(gap: Data, rest: Data)
    requires AllBlank(gap)
    ensures Fields(gap + rest) == Fields(rest)
  {
    if gap == [] {
      assert gap + rest == rest;
    } else {
      assert (gap + rest)[0] == gap[0] && (gap + rest)[1..] == gap[1..] + rest;
      FieldsOfBlank(gap[1..], rest);
    }
  }

  lemma {:induction false} FieldsOfLaid(gaps: seq<Data>, words: seq<Data>)
    requires Gaps(gaps, words) && AllWords(words)
    ensures Fields(Laid(gaps, words)) == words
  {
    if words == [] {
      FieldsOfBlank(gaps[0], []);
      assert gaps[0] + [] == gaps[0];
    } else {
      var rest := Laid(gaps[1..], words[1..]);
      FieldsOfLaid(gaps[1..], words[1..]);
      FieldsOfBlank(gaps[0], words[0] + rest);
      assert gaps[0] + words[0] + rest == gaps[0] + (words[0] + rest);
      if |words| == 1 {
        assert rest == gaps[1..][0] == gaps[1];
      } else {
        assert gaps[1] != [] && rest[0] == gaps[1][0];
      }
      FieldsOfWord(words[0], rest);
      assert words == [words[0]] + words[1..];
    }
  }

  /** One more blank in front, and one more word in front. */
  lemma {:induction false} BlankInFront(b: Byte, gaps: seq<Data>, words: seq<Data>)
    requires IsBlank(b) && Gaps(gaps, words)
    ensures var more := [[b] + gaps[0]] + gaps[1..]; Gaps(more, words) && Laid(more, words) == [b] + Laid(gaps, words)
  {
    var more := [[b] + gaps[0]] + gaps[1..];
    assert more[1..] == gaps[1..];
    if words != [] {
      assert [b] + gaps[0] + words[0] + Laid(gaps[1..], words[1..]) == [b] + (gaps[0] + words[0] + Laid(gaps[1..], words[1..]));
    }
  }

  lemma {:induction false} WordInFront(w: Data, gaps: seq<Data>, words: seq<Data>)
    requires Gaps(gaps, words) && (words == [] || gaps[0] != [])
    ensures var none: Data := []; Gaps([none] + gaps, [w] + words) && Laid([none] + gaps, [w] + words) == w + Laid(gaps, words)
  {
    var none: Data := [];
    assert ([none] + gaps)[1..] == gaps && ([w] + words)[1..] == words;
    forall i | 0 < i < |[w] + words| ensures ([none] + gaps)[i] != [] {
      assert ([none] + gaps)[i] == gaps[i - 1];
    }
  }

  /** What is left after a word begins with a blank, so the gap there is not empty. */
  lemma {:induction false} GapAfterWord(gaps: seq<Data>, words: seq<Data>)
    requires Gaps(gaps, words) && AllWords(words) && words != [] && Laid(gaps, words) != [] && IsBlank(Laid(gaps, words)[0])
    ensures gaps[0] != []
  {
    var w, rest := words[0], Laid(gaps[1..], words[1..]);
    assert !IsBlank(w[0]);
    assert Laid(gaps, words) == gaps[0] + (w + rest);
  }

  lemma {:induction false} LaidAsFields(d: Data) returns (gaps: seq<Data>)
    ensures Gaps(gaps, Fields(d)) && Laid(gaps, Fields(d)) == d
    decreases |d|
  {
    if d == [] {
      gaps := [[]];
    } else if IsBlank(d[0]) {
      var g := LaidAsFields(d[1..]);
      BlankInFront(d[0], g, Fields(d[1..]));
      gaps := [[d[0]] + g[0]] + g[1..];
      assert d == [d[0]] + d[1..];
    } else {
      var n := WordLength(d);
      var g := LaidAsFields(d[n..]);
      FieldsAreWords(d[n..]);
      if Fields(d[n..]) != [] {
        GapAfterWord(g, Fields(d[n..]));
      }
      WordInFront(d[..n], g, Fields(d[n..]));
      gaps := [[]] + g;
      assert d == d[..n] + d[n..];
    }
  }

  /** The words of a text are exactly those it is laid out from, whatever the gaps. */
  lemma {:induction false} FieldsMeaning(d: Data, words: seq<Data>)
    ensures Fields(d) == words <==> AllWords(words) && exists gaps :: Gaps(gaps, words) && Laid(gaps, words) == d
  {
    var found := LaidAsFields(d);
    FieldsAreWords(d);
    if gaps :| Gaps(gaps, words) && Laid(gaps, words) == d && AllWords(words) {
      FieldsOfLaid(gaps, words);
    }
  }

  // ------------------------------------------------------------------- decimals

  predicate IsDigit(b: Byte) {
    48 <= b <= 57
  }

  predicate AllDigits(d: Data) {
    forall i :: 0 <= i < |d| ==> IsDigit(d[i])
  }

  function Decimal(n: nat): Data {
    if n < 10 then [48 + n] else Decimal(n / 10) + [48 + n % 10]
  }

  function Value(d: Data): nat
    requires AllDigits(d)
  {
    if d == [] then 0 else Value(d[..|d| - 1]) * 10 + (d[|d| - 1] - 48)
  }

  const MAX_INT64 := 0x7fff_ffff_ffff_ffff

  /** An optional sign, at least one digit, and a value in the range of a 64-bit integer. */
  function Atoi(d: Data): Option<int> {
    var signed := d != [] && (d[0] == 43 || d[0] == 45);
    var digits := if signed then d[1..] else d;
    if digits == [] || !AllDigits(digits) then None
    else
      var magnitude: int := Value(digits);
      var v := if signed && d[0] == 45 then -magnitude else magnitude;
      if -MAX_INT64 - 1 <= v <= MAX_INT64 then Some(v) else None
  }

  lemma {:induction false} DecimalReadsBack(n: nat)
    ensures Decimal(n) != [] && AllDigits(Decimal(n)) && Value(Decimal(n)) == n
  {
    if n >= 10 {
      DecimalReadsBack(n / 10);
      assert Decimal(n)[..|Decimal(n)| - 1] == Decimal(n / 10);
    } else {
      assert Decimal(n)[..0] == [];
    }
  }

  function PowerOfTen(k: nat): nat {
    if k == 0 then 1 else 10 * PowerOfTen(k - 1)
  }

  lemma {:induction false} DecimalLength(n: nat, k: nat)
    requires k >= 1 && n < PowerOfTen(k)
    ensures |Decimal(n)| <= k
  {
    if n >= 10 {
      assert k > 1;
      DecimalLength(n / 10, k - 1);
    }
  }

  /** A printed number is a word and parses to itself. */
  lemma {:induction false} AtoiOfDecimal(n: nat)
    requires n <= MAX_INT64
    ensures Atoi(Decimal(n)) == Some(n) && Word(Decimal(n)) && 0x0d !in Decimal(n)
  {
    DecimalReadsBack(n);
    var d := Decimal(n);
    assert IsDigit(d[0]);
    forall i | 0 <= i < |d| ensures !IsBlank(d[i]) {
      assert IsDigit(d[i]);
    }
  }

  /** A printed number begins with a zero only if it is zero. */
  lemma {:induction false} NoLeadingZero(n: nat)
    ensures Decimal(n)[0] == 48 <==> n == 0
  {
    if n >= 10 {
      NoLeadingZero(n / 10);
    }
  }

  function Zeros(k: nat): Data {
    seq(k, _ => 48)
  }

  datatype Sign = Bare | Plus | Minus

  function Signed(sign: Sign, digits: Data): Data {
    match sign
    case Bare => digits
    case Plus => [43] + digits
    case Minus => [45] + digits
  }

  /** An optional sign, any number of zeros and a printed number. */
  ghost predicate Says(d: Data, n: int) {
    exists sign: Sign, k: nat, m: nat :: d == Signed(sign, Zeros(k) + Decimal(m)) && n == if sign.Minus? then -(m as int) else m
  }

  lemma {:induction false} ZerosValue(k: nat, digits: Data)
    requires AllDigits(digits)
    ensures AllDigits(Zeros(k) + digits) && Value(Zeros(k) + digits) == Value(digits)
  {
    var d := Zeros(k) + digits;
    if digits == [] {
      assert d == Zeros(k);
      if k > 0 {
        assert Zeros(k)[..k - 1] == Zeros(k - 1);
        ZerosValue(k - 1, []);
        assert Zeros(k - 1) + [] == Zeros(k - 1);
      }
    } else {
      assert d[..|d| - 1] == Zeros(k) + digits[..|digits| - 1];
      ZerosValue(k, digits[..|digits| - 1]);
    }
  }

  lemma {:induction false} DigitsAsDecimal(d: Data) returns (k: nat)
    requires d != [] && AllDigits(d)
    ensures d == Zeros(k) + Decimal(Value(d))
  {
    var init, last := d[..|d| - 1], d[|d| - 1];
    assert d == init + [last];
    if init == [] {
      k := 0;
      assert Value(init) == 0 && Value(d) == last - 48;
      assert Zeros(0) + Decimal(Value(d)) == Decimal(Value(d));
    } else {
      k := DigitsAsDecimal(init);
      var v := Value(init);
      assert Value(d) == v * 10 + (last - 48);
      if v == 0 {
        assert Decimal(0) == [48];
        assert Zeros(k) + [48] == Zeros(k + 1);
        k := k + 1;
      } else {
        assert Decimal(Value(d)) == Decimal(v) + [last];
      }
    }
  }

  lemma {:induction false} AtoiReads(d: Data, k: nat, m: nat)
    requires d == Zeros(k) + Decimal(m)
    ensures d != [] && AllDigits(d) && Value(d) == m && d[0] != 43 && d[0] != 45
  {
    DecimalReadsBack(m);
    ZerosValue(k, Decimal(m));
    assert IsDigit(d[0]);
  }

  lemma {:induction false} ReadIsSaid(d: Data, n: int)
    requires Atoi(d) == Some(n)
    ensures Says(d, n)
  {
    var sign := if d[0] == 43 then Plus else if d[0] == 45 then Minus else Bare;
    var digits := if sign.Bare? then d else d[1..];
    var k := DigitsAsDecimal(digits);
    var m: nat := Value(digits);
    assert d == Signed(sign, digits) == Signed(sign, Zeros(k) + Decimal(m));
    assert n == if sign.Minus? then -(m as int) else m;
  }

  lemma {:induction false} SaidIsRead(d: Data, sign: Sign, k: nat, m: nat)
    requires d == Signed(sign, Zeros(k) + Decimal(m))
    ensures var n := if sign.Minus? then -(m as int) else m;
            Atoi(d) == if -0x8000_0000_0000_0000 <= n < 0x8000_0000_0000_0000 then Some(n) else None
  {
    var digits := Zeros(k) + Decimal(m);
    AtoiReads(digits, k, m);
    if !sign.Bare? {
      assert d[1..] == digits;
    }
  }

  /** A text is read as a number exactly if it says it and the number has 64 bits. */
  lemma {:induction false} AtoiMeaning(d: Data, n: int)
    ensures Atoi(d) == Some(n) <==> -0x8000_0000_0000_0000 <= n < 0x8000_0000_0000_0000 && Says(d, n)
  {
    if Atoi(d) == Some(n) {
      ReadIsSaid(d, n);
    }
    if sign: Sign, k: nat, m: nat :| d == Signed(sign, Zeros(k) + Decimal(m)) && n == if sign.Minus? then -(m as int) else m {
      SaidIsRead(d, sign, k, m);
    }
  }
}

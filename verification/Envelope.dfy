/**
 The signed command envelope: the analytics engine encodes and signs it
 (analytics-engine-py/src/filter_engine.py), the executor verifies and decodes it
 (execution-engine-go/internal/broker/client.go), and the dashboard decodes it
 after padding it again (web-interface-js/frontend/src/components/CommandsLog.jsx).

 The alphabet is that of section 5, the padding rule that of section 3.2 of
 RFC 4648. The keyed digest is a parameter.
 */
module Envelope {
  import opened Options

  newtype byte = b: int | 0 <= b < 256

  type Bytes = seq<byte>

  // ----- the alphabet -----

  predicate Sextet(v: int) {
    0 <= v < 64
  }

  /** The base64url digit of a six-bit value. */
  function Digit(v: int): char
    requires Sextet(v)
  {
    if v < 26 then ('A' as int + v) as char
    else if v < 52 then ('a' as int + v - 26) as char
    else if v < 62 then ('0' as int + v - 52) as char
    else if v == 62 then '-' else '_'
  }

  /** The value of a base64url digit, -1 for any other character. */
  function Value(c: char): int {
    if 'A' <= c <= 'Z' then c as int - 'A' as int
    else if 'a' <= c <= 'z' then c as int - 'a' as int + 26
    else if '0' <= c <= '9' then c as int - '0' as int + 52
    else if c == '-' then 62
    else if c == '_' then 63
    else -1
  }

  /** The value of a standard base64 digit, -1 for any other character. */
  function StandardValue(c: char): int {
    if c == '+' then 62 else if c == '/' then 63 else if c == '-' || c == '_' then -1 else Value(c)
  }

  lemma DigitValue(v: int)
    requires Sextet(v)
    ensures Value(Digit(v)) == v && StandardValue(ToStandard(Digit(v))) == v
    ensures Digit(v) != '=' && Digit(v) != '.'
  {
    var c := Digit(v);
    assert v < 26 ==> c as int == 'A' as int + v;
    assert 26 <= v < 52 ==> c as int == 'a' as int + v - 26;
    assert 52 <= v < 62 ==> c as int == '0' as int + v - 52;
  }

  const CAPITALS := "ABCDEFGHIJKLMNOPQRSTUVWXYZ"
  const SMALL := "abcdefghijklmnopqrstuvwxyz"
  const NUMERALS := "0123456789"

  lemma LettersInOrder(i: nat)
    requires i < 26
    ensures |CAPITALS| == |SMALL| == 26
    ensures CAPITALS[i] as int == 'A' as int + i && SMALL[i] as int == 'a' as int + i
  {
    assert i == 0 || i == 1 || i == 2 || i == 3 || i == 4 || i == 5 || i == 6 || i == 7 || i == 8 || i == 9
      || i == 10 || i == 11 || i == 12 || i == 13 || i == 14 || i == 15 || i == 16 || i == 17 || i == 18 || i == 19
      || i == 20 || i == 21 || i == 22 || i == 23 || i == 24 || i == 25;
  }

  lemma NumeralsInOrder(i: nat)
    requires i < 10
    ensures |NUMERALS| == 10 && NUMERALS[i] as int == '0' as int + i
  {
    assert i == 0 || i == 1 || i == 2 || i == 3 || i == 4 || i == 5 || i == 6 || i == 7 || i == 8 || i == 9;
  }

  /** The character of a value: letters, numerals, and two of its own for each of the two alphabets. */
  function InAlphabetOrder(v: int, last: string): (c: char)
    requires Sextet(v) && |last| == 2
  {
    if v < 26 then LettersInOrder(v); CAPITALS[v]
    else if v < 52 then LettersInOrder(v - 26); SMALL[v - 26]
    else if v < 62 then NumeralsInOrder(v - 52); NUMERALS[v - 52]
    else last[v - 62]
  }

  /** Digits are the letters of the base64url alphabet in order; the standard one differs in its last two. */
  lemma DigitsOfAlphabet(v: int)
    requires Sextet(v)
    ensures Digit(v) == InAlphabetOrder(v, "-_") && ToStandard(Digit(v)) == InAlphabetOrder(v, "+/")
  {
    DigitCode(v);
    if v < 26 {
      LettersInOrder(v);
      SameChar(Digit(v), CAPITALS[v]);
    } else if v < 52 {
      LettersInOrder(v - 26);
      SameChar(Digit(v), SMALL[v - 26]);
    } else if v < 62 {
      NumeralsInOrder(v - 52);
      SameChar(Digit(v), NUMERALS[v - 52]);
    }
  }

  lemma DigitCode(v: int)
    requires Sextet(v)
    ensures v < 62 ==>
      Digit(v) as int == if v < 26 then 'A' as int + v else if v < 52 then 'a' as int + v - 26 else '0' as int + v - 52
    ensures v == 62 ==> Digit(v) == '-'
    ensures v == 63 ==> Digit(v) == '_'
  {}

  lemma SameChar(c: char, d: char)
    requires c as int == d as int
    ensures c == d
  {}

  // ----- three bytes as four sextets -----

  function Sextet0(x: byte): int {
    x as int / 4
  }

  function Sextet1(x: byte, y: byte): int {
    x as int % 4 * 16 + y as int / 16
  }

  function Sextet2(y: byte, z: byte): int {
    y as int % 16 * 4 + z as int / 64
  }

  function Sextet3(z: byte): int {
    z as int % 64
  }

  function Byte0(p: int, q: int): byte
    requires Sextet(p) && Sextet(q)
  {
    (p * 4 + q / 16) as byte
  }

  function Byte1(q: int, r: int): byte
    requires Sextet(q) && Sextet(r)
  {
    (q % 16 * 16 + r / 4) as byte
  }

  function Byte2(r: int, t: int): byte
    requires Sextet(r) && Sextet(t)
  {
    (r % 4 * 64 + t) as byte
  }

  lemma SplitJoin(x: byte, y: byte, z: byte)
    ensures Sextet(Sextet0(x)) && Sextet(Sextet1(x, y)) && Sextet(Sextet2(y, z)) && Sextet(Sextet3(z))
    ensures Byte0(Sextet0(x), Sextet1(x, y)) == x
    ensures Byte1(Sextet1(x, y), Sextet2(y, z)) == y
    ensures Byte2(Sextet2(y, z), Sextet3(z)) == z
  {}

  /** Four sextets spell the same number as their three bytes, most significant first. */
  lemma SameNumber(x: byte, y: byte, z: byte)
    ensures 262144 * Sextet0(x) + 4096 * Sextet1(x, y) + 64 * Sextet2(y, z) + Sextet3(z)
      == 65536 * x as int + 256 * y as int + z as int
  {}

  function Quad(x: byte, y: byte, z: byte): (r: string)
    ensures |r| == 4
  {
    [Digit(Sextet0(x)), Digit(Sextet1(x, y)), Digit(Sextet2(y, z)), Digit(Sextet3(z))]
  }

  // ----- encoding -----

  /** Three bytes as four digits; one or two left over as two or three digits and padding. */
  function Encode(b: Bytes): string {
    if b == [] then ""
    else if |b| == 1 then Quad(b[0], 0, 0)[..2] + "=="
    else if |b| == 2 then Quad(b[0], b[1], 0)[..3] + "="
    else Quad(b[0], b[1], b[2]) + Encode(b[3..])
  }

  function StripPadding(s: string): string {
    if s != "" && s[|s| - 1] == '=' then StripPadding(s[..|s| - 1]) else s
  }

  /** The unpadded form the engine sends. */
  function EncodeRaw(b: Bytes): string {
    StripPadding(Encode(b))
  }

  // ----- decoding -----

  predicate InAlphabet(value: char -> int, s: string) {
    forall i :: 0 <= i < |s| ==> Sextet(value(s[i]))
  }

  /** Digits without padding; a single digit left over, or a character outside the alphabet, is an error. */
  function DecodeWith(value: char -> int, s: string): Option<Bytes> {
    if s == "" then Some([])
    else if |s| == 1 then None
    else if |s| == 2 then
      if !InAlphabet(value, s) then None
      else Some([Byte0(value(s[0]), value(s[1]))])
    else if |s| == 3 then
      if !InAlphabet(value, s) then None
      else Some([Byte0(value(s[0]), value(s[1])), Byte1(value(s[1]), value(s[2]))])
    else if !InAlphabet(value, s[..4]) then None
    else
      match DecodeWith(value, s[4..])
      case None => None
      case Some(rest) =>
        var p, q, r, t := value(s[..4][0]), value(s[..4][1]), value(s[..4][2]), value(s[..4][3]);
        Some([Byte0(p, q), Byte1(q, r), Byte2(r, t)] + rest)
  }

  /** The text without the line breaks that the executor's decoder skips. */
  function Unbroken(s: string): string {
    if s == "" then ""
    else if s[0] == '\r' || s[0] == '\n' then Unbroken(s[1..])
    else [s[0]] + Unbroken(s[1..])
  }

  /** What the executor's raw URL decoder does. */
  function DecodeRaw(s: string): Option<Bytes> {
    DecodeWith(Value, Unbroken(s))
  }

  function ToStandard(c: char): char {
    if c == '-' then '+' else if c == '_' then '/' else c
  }

  function ToStandardAll(s: string): (r: string)
    ensures |r| == |s|
  {
    seq(|s|, i requires 0 <= i < |s| => ToStandard(s[i]))
  }

  function Padding(n: nat): string {
    seq((4 - n % 4) % 4, _ => '=')
  }

  /** Standard decoding of padded text: whole quads, at most two pad characters at the end. */
  function DecodePadded(s: string): Option<Bytes> {
    if |s| % 4 != 0 then None
    else
      var body := StripPadding(s);
      if |s| - |body| > 2 then None else DecodeWith(StandardValue, body)
  }

  /** What the dashboard does: translate the alphabet, pad to whole quads, decode. */
  function DecodeRepadded(s: string): Option<Bytes> {
    var standard := ToStandardAll(s);
    DecodePadded(standard + Padding(|standard|))
  }

  // ----- round trips -----

  /** The unpadded digits, written without passing through the padded form. */
  function Digits(b: Bytes): string {
    if b == [] then ""
    else if |b| == 1 then Quad(b[0], 0, 0)[..2]
    else if |b| == 2 then Quad(b[0], b[1], 0)[..3]
    else Quad(b[0], b[1], b[2]) + Digits(b[3..])
  }

  /** A translation of the alphabet that a value function undoes. */
  ghost predicate Reads(value: char -> int, translate: char -> char) {
    forall v {:trigger Digit(v)} :: Sextet(v) ==> value(translate(Digit(v))) == v
  }

  lemma QuadReads(value: char -> int, translate: char -> char, x: byte, y: byte, z: byte)
    requires Reads(value, translate)
    ensures var q := Quad(x, y, z);
            && value(translate(q[0])) == Sextet0(x) && value(translate(q[1])) == Sextet1(x, y)
            && value(translate(q[2])) == Sextet2(y, z) && value(translate(q[3])) == Sextet3(z)
  {}

  lemma QuadClean(x: byte, y: byte, z: byte)
    ensures forall i :: 0 <= i < 4 ==>
      IsDigit(Quad(x, y, z)[i]) && Quad(x, y, z)[i] != '=' && Quad(x, y, z)[i] != '.'
    ensures forall i :: 0 <= i < 4 ==> ToStandard(Quad(x, y, z)[i]) != '='
  {
    SplitJoin(x, y, z);
    DigitValue(Sextet0(x));
    DigitValue(Sextet1(x, y));
    DigitValue(Sextet2(y, z));
    DigitValue(Sextet3(z));
    forall i | 0 <= i < 4
      ensures IsDigit(Quad(x, y, z)[i])
    {
      ValueDigit(Quad(x, y, z)[i]);
    }
  }

  lemma {:induction false} DigitsClean(b: Bytes)
    ensures forall i :: 0 <= i < |Digits(b)| ==>
      IsDigit(Digits(b)[i]) && Digits(b)[i] != '=' && Digits(b)[i] != '.' && ToStandard(Digits(b)[i]) != '='
  {
    if b != [] {
      QuadClean(b[0], if |b| > 1 then b[1] else 0, if |b| > 2 then b[2] else 0);
      if |b| >= 3 {
        DigitsClean(b[3..]);
      }
    }
  }

  lemma QuadMore(n: nat)
    ensures (n + 4) % 4 == n % 4
  {}

  /** A number of digits never leaves one over. */
  lemma {:induction false} DigitsLength(b: Bytes)
    ensures |Digits(b)| % 4 != 1
  {
    if |b| >= 3 {
      DigitsLength(b[3..]);
      QuadMore(|Digits(b[3..])|);
    }
  }

  lemma PaddingFits(n: nat)
    requires n % 4 != 1
    ensures |Padding(n)| <= 2 && (n + |Padding(n)|) % 4 == 0
    ensures Padding(n + 4) == Padding(n)
  {
    QuadMore(n);
  }

  lemma {:induction false} EncodeIsPadded(b: Bytes)
    ensures Encode(b) == Digits(b) + Padding(|Digits(b)|)
  {
    if |b| >= 3 {
      EncodeIsPadded(b[3..]);
      DigitsLength(b[3..]);
      PaddingFits(|Digits(b[3..])|);
      PadLater(Quad(b[0], b[1], b[2]), Digits(b[3..]), Padding(|Digits(b)|));
    } else {
      assert Padding(0) == "" && Padding(2) == "==" && Padding(3) == "=";
    }
  }

  lemma PadLater(a: string, b: string, c: string)
    ensures a + (b + c) == (a + b) + c
  {}

  lemma {:induction false} StripPads(s: string, n: nat)
    requires s == "" || s[|s| - 1] != '='
    ensures StripPadding(s + seq(n, _ => '=')) == s
  {
    var t := s + seq(n, _ => '=');
    if n > 0 {
      assert t[..|t| - 1] == s + seq(n - 1, _ => '=');
      StripPads(s, n - 1);
    } else {
      assert t == s;
    }
  }

  /** Stripping the padding leaves exactly the digits. */
  lemma EncodeRawIsDigits(b: Bytes)
    ensures EncodeRaw(b) == Digits(b)
  {
    EncodeIsPadded(b);
    DigitsClean(b);
    StripPadded(Digits(b));
  }

  lemma StripPadded(s: string)
    requires s == "" || s[|s| - 1] != '='
    ensures StripPadding(s + Padding(|s|)) == s
  {
    var n := (4 - |s| % 4) % 4;
    StripPads(s, n);
  }

  function Translated(translate: char -> char, s: string): (r: string)
    ensures |r| == |s|
  {
    seq(|s|, i requires 0 <= i < |s| => translate(s[i]))
  }

  lemma FirstByte(x: byte, y: byte)
    ensures Sextet(Sextet0(x)) && Sextet(Sextet1(x, y)) && Byte0(Sextet0(x), Sextet1(x, y)) == x
  {}

  lemma DecodeTwo(value: char -> int, s: string, x: byte, y: byte)
    requires |s| == 2 && value(s[0]) == Sextet0(x) && value(s[1]) == Sextet1(x, y)
    ensures DecodeWith(value, s) == Some([x])
  {
    FirstByte(x, y);
  }

  lemma DecodeThree(value: char -> int, s: string, x: byte, y: byte)
    requires |s| == 3
    requires value(s[0]) == Sextet0(x) && value(s[1]) == Sextet1(x, y) && value(s[2]) == Sextet2(y, 0)
    ensures DecodeWith(value, s) == Some([x, y])
  {
    SplitJoin(x, y, 0);
  }

  lemma DecodeFour(value: char -> int, s: string, x: byte, y: byte, z: byte, rest: Bytes)
    requires |s| >= 4 && DecodeWith(value, s[4..]) == Some(rest)
    requires value(s[0]) == Sextet0(x) && value(s[1]) == Sextet1(x, y)
    requires value(s[2]) == Sextet2(y, z) && value(s[3]) == Sextet3(z)
    ensures DecodeWith(value, s) == Some([x, y, z] + rest)
  {
    SplitJoin(x, y, z);
  }

  lemma {:induction false} DecodeShortDigits(value: char -> int, translate: char -> char, b: Bytes)
    requires Reads(value, translate) && |b| < 3
    ensures DecodeWith(value, Translated(translate, Digits(b))) == Some(b)
  {
    var s := Translated(translate, Digits(b));
    if |b| == 1 {
      QuadReads(value, translate, b[0], 0, 0);
      DecodeTwo(value, s, b[0], 0);
      assert b == [b[0]];
    } else if |b| == 2 {
      QuadReads(value, translate, b[0], b[1], 0);
      DecodeThree(value, s, b[0], b[1]);
      assert b == [b[0], b[1]];
    }
  }

  lemma {:induction false} DecodeDigits(value: char -> int, translate: char -> char, b: Bytes)
    requires Reads(value, translate)
    ensures DecodeWith(value, Translated(translate, Digits(b))) == Some(b)
  {
    if |b| < 3 {
      DecodeShortDigits(value, translate, b);
    } else {
      var s := Translated(translate, Digits(b));
      QuadReads(value, translate, b[0], b[1], b[2]);
      DecodeDigits(value, translate, b[3..]);
      assert s[4..] == Translated(translate, Digits(b[3..]));
      DecodeFour(value, s, b[0], b[1], b[2], b[3..]);
      assert b == [b[0], b[1], b[2]] + b[3..];
    }
  }

  /** The executor recovers every payload from its unpadded form. */
  lemma RawRoundTrip(b: Bytes)
    ensures DecodeRaw(EncodeRaw(b)) == Some(b)
  {
    var same := (c: char) => c;
    EncodeRawIsDigits(b);
    forall v | Sextet(v)
      ensures Value(same(Digit(v))) == v
    {
      DigitValue(v);
    }
    DecodeDigits(Value, same, b);
    assert Translated(same, Digits(b)) == Digits(b);
    DigitsClean(b);
    UnbrokenSame(Digits(b));
  }

  lemma {:induction false} UnbrokenSame(s: string)
    requires forall i :: 0 <= i < |s| ==> s[i] != '\r' && s[i] != '\n'
    ensures Unbroken(s) == s
  {
    if s != "" {
      UnbrokenSame(s[1..]);
    }
  }

  /** A base64url digit. */
  predicate IsDigit(c: char) {
    'A' <= c <= 'Z' || 'a' <= c <= 'z' || '0' <= c <= '9' || c == '-' || c == '_'
  }

  lemma ValueDigit(c: char)
    ensures Sextet(Value(c)) <==> IsDigit(c)
    ensures IsDigit(c) ==> Digit(Value(c)) == c
  {}

  /** Equal but for the last character, whose spare bits the decoder ignores. */
  ghost predicate SameButLast(s: string, t: string) {
    |s| == |t| && forall i :: 0 <= i < |s| - 1 ==> s[i] == t[i]
  }

  lemma JoinSplit(p: int, q: int, r: int, t: int)
    requires Sextet(p) && Sextet(q) && Sextet(r) && Sextet(t)
    ensures var x, y, z := Byte0(p, q), Byte1(q, r), Byte2(r, t);
            && Sextet0(x) == p && Sextet1(x, y) == q && Sextet2(y, z) == r && Sextet3(z) == t
  {}

  ghost predicate AllDigits(s: string) {
    forall i :: 0 <= i < |s| ==> IsDigit(s[i])
  }

  /** Digits decode when none is left over, to bytes whose own digits they are. */
  ghost predicate DecodesRight(s: string) {
    var d := DecodeWith(Value, s);
    && (d.Some? <==> |s| % 4 != 1 && AllDigits(s))
    && (d.Some? ==> SameButLast(Digits(d.value), s))
  }

  lemma AlphabetIsDigits(s: string)
    ensures InAlphabet(Value, s) <==> AllDigits(s)
    ensures InAlphabet(Value, s) ==> forall i :: 0 <= i < |s| ==> Digit(Value(s[i])) == s[i]
  {
    forall i | 0 <= i < |s|
      ensures (Sextet(Value(s[i])) <==> IsDigit(s[i])) && (IsDigit(s[i]) ==> Digit(Value(s[i])) == s[i])
    {
      ValueDigit(s[i]);
    }
  }

  lemma TwoDecode(s: string)
    requires |s| == 2
    ensures DecodesRight(s)
  {
    AlphabetIsDigits(s);
    if InAlphabet(Value, s) {
      var p, q := Value(s[0]), Value(s[1]);
      JoinSplit(p, q, 0, 0);
      assert Digits([Byte0(p, q)])[0] == Digit(p);
    }
  }

  lemma ThreeDecode(s: string)
    requires |s| == 3
    ensures DecodesRight(s)
  {
    AlphabetIsDigits(s);
    if InAlphabet(Value, s) {
      var p, q, r := Value(s[0]), Value(s[1]), Value(s[2]);
      JoinSplit(p, q, r, 0);
      var t := Digits([Byte0(p, q), Byte1(q, r)]);
      assert t[0] == Digit(p) && t[1] == Digit(q);
    }
  }

  lemma HeadAndTail(s: string)
    requires |s| >= 4
    ensures |s[4..]| % 4 == |s| % 4
    ensures AllDigits(s) <==> AllDigits(s[..4]) && AllDigits(s[4..])
  {
    assert s == s[..4] + s[4..];
    if AllDigits(s[..4]) && AllDigits(s[4..]) {
      forall i | 0 <= i < |s|
        ensures IsDigit(s[i])
      {
        assert s[i] == if i < 4 then s[..4][i] else s[4..][i - 4];
      }
    }
  }

  lemma {:induction false} DecodesDigits(s: string)
    ensures DecodesRight(s)
  {
    if |s| == 2 {
      TwoDecode(s);
    } else if |s| == 3 {
      ThreeDecode(s);
    } else if |s| >= 4 {
      DecodesDigits(s[4..]);
      HeadAndTail(s);
      AlphabetIsDigits(s[..4]);
      if InAlphabet(Value, s[..4]) && DecodeWith(Value, s[4..]).Some? {
        QuadDecodes(s, DecodeWith(Value, s[4..]).value);
      }
    }
  }

  lemma QuadDecodes(s: string, rest: Bytes)
    requires |s| >= 4 && InAlphabet(Value, s[..4]) && SameButLast(Digits(rest), s[4..])
    requires DecodeWith(Value, s[4..]) == Some(rest)
    ensures DecodeWith(Value, s).Some? && SameButLast(Digits(DecodeWith(Value, s).value), s)
  {
    var x, y, z := QuadBytes(s[..4]);
    var b := [x, y, z] + rest;
    assert b[3..] == rest && Digits(b) == s[..4] + Digits(rest);
    SameJoined(s, Digits(rest));
  }

  lemma QuadBytes(q: string) returns (x: byte, y: byte, z: byte)
    requires |q| == 4 && InAlphabet(Value, q)
    ensures x == Byte0(Value(q[0]), Value(q[1])) && y == Byte1(Value(q[1]), Value(q[2]))
    ensures z == Byte2(Value(q[2]), Value(q[3])) && Quad(x, y, z) == q
  {
    AlphabetIsDigits(q);
    JoinSplit(Value(q[0]), Value(q[1]), Value(q[2]), Value(q[3]));
    x, y, z := Byte0(Value(q[0]), Value(q[1])), Byte1(Value(q[1]), Value(q[2])), Byte2(Value(q[2]), Value(q[3]));
  }

  lemma SameJoined(s: string, t: string)
    requires |s| >= 4 && SameButLast(t, s[4..])
    ensures SameButLast(s[..4] + t, s)
  {
    forall i | 0 <= i < |s| - 1
      ensures (s[..4] + t)[i] == s[i]
    {
      assert i >= 4 ==> t[i - 4] == s[4..][i - 4];
    }
  }

  /**
   The executor's decoder takes a text exactly when, line breaks aside, it holds
   only base64url digits and not one digit more than whole quads; the bytes it
   yields encode to that text again, but for spare bits of the last digit.
   */
  lemma DecodesWhen(s: string)
    ensures var u := Unbroken(s);
            && (DecodeRaw(s).Some? <==> |u| % 4 != 1 && forall i :: 0 <= i < |u| ==> IsDigit(u[i]))
            && (DecodeRaw(s).Some? ==> SameButLast(EncodeRaw(DecodeRaw(s).value), u))
  {
    DecodesDigits(Unbroken(s));
    if DecodeRaw(s).Some? {
      EncodeRawIsDigits(DecodeRaw(s).value);
    }
  }

  /** So does the dashboard after translating and padding again. */
  lemma RepaddedRoundTrip(b: Bytes)
    ensures DecodeRepadded(EncodeRaw(b)) == Some(b)
  {
    EncodeRawIsDigits(b);
    DigitsClean(b);
    DigitsLength(b);
    var s := ToStandardAll(Digits(b));
    RepadDecodes(s);
    StandardReads();
    DecodeDigits(StandardValue, ToStandard, b);
    assert Translated(ToStandard, Digits(b)) == s;
  }

  lemma RepadDecodes(s: string)
    requires |s| % 4 != 1 && (s == "" || s[|s| - 1] != '=')
    ensures DecodePadded(s + Padding(|s|)) == DecodeWith(StandardValue, s)
  {
    StripPadded(s);
    PaddingFits(|s|);
  }

  lemma StandardReads()
    ensures Reads(StandardValue, ToStandard)
  {
    forall v | Sextet(v)
      ensures StandardValue(ToStandard(Digit(v))) == v
    {
      DigitValue(v);
    }
  }

  // ----- the envelope -----

  /** The part before the first separator and the part after it. */
  function SplitDot(s: string): Option<(string, string)> {
    if s == "" then None
    else if s[0] == '.' then Some(("", s[1..]))
    else
      match SplitDot(s[1..])
      case None => None
      case Some(parts) => Some(([s[0]] + parts.0, parts.1))
  }

  lemma {:induction false} SplitFirst(a: string, b: string)
    requires '.' !in a
    ensures SplitDot(a + "." + b) == Some((a, b))
  {
    var s := a + "." + b;
    if a == "" {
      assert s == "." + b && s[1..] == b;
    } else {
      assert s[1..] == a[1..] + "." + b;
      SplitFirst(a[1..], b);
      assert [a[0]] + a[1..] == a;
    }
  }

  /** Payload and signature, both unpadded, joined by a dot. */
  function Sealed(hmac: (string, Bytes) -> Bytes, secret: string, body: Bytes): string {
    EncodeRaw(body) + "." + EncodeRaw(hmac(secret, body))
  }

  /** The executor's check: a wrong or undecodable signature is rejected, an empty secret skips the check. */
  function Opened(hmac: (string, Bytes) -> Bytes, secret: string, raw: string): Option<Bytes> {
    match SplitDot(raw)
    case None => None
    case Some(parts) =>
      match DecodeRaw(parts.0)
      case None => None
      case Some(body) =>
        if secret != "" && DecodeRaw(parts.1) != Some(hmac(secret, body)) then None else Some(body)
  }

  /** The dashboard reads the part before the first dot, and shows nothing when that is empty. */
  function Shown(raw: string): Option<Bytes> {
    var first := match SplitDot(raw) case None => raw case Some(parts) => parts.0;
    if first == "" then None else DecodeRepadded(first)
  }

  lemma {:induction false} SplitsAt(s: string)
    ensures SplitDot(s).Some? <==> '.' in s
    ensures SplitDot(s).Some? ==>
      '.' !in SplitDot(s).value.0 && s == SplitDot(s).value.0 + "." + SplitDot(s).value.1
  {
    if s != "" && s[0] != '.' {
      SplitsAt(s[1..]);
      assert s == [s[0]] + s[1..];
      assert '.' in s <==> '.' in s[1..];
    }
  }

  /** The text is a dot between a part that decodes to the body and one that decodes to its digest. */
  ghost predicate SignedParts(hmac: (string, Bytes) -> Bytes, secret: string, raw: string, body: Bytes,
                              a: string, b: string) {
    && raw == a + "." + b && '.' !in a && DecodeRaw(a) == Some(body)
    && (secret == "" || DecodeRaw(b) == Some(hmac(secret, body)))
  }

  /**
   An arbitrary text opens exactly when the part before its first dot decodes to
   the body and, unless the secret is empty, the part after it decodes to the
   digest of that body.
   */
  lemma OpensWhen(hmac: (string, Bytes) -> Bytes, secret: string, raw: string, body: Bytes)
    ensures Opened(hmac, secret, raw) == Some(body)
      <==> exists a: string, b: string :: SignedParts(hmac, secret, raw, body, a, b)
  {
    SplitsAt(raw);
    forall a: string, b: string | SignedParts(hmac, secret, raw, body, a, b)
      ensures SplitDot(raw) == Some((a, b))
    {
      SplitFirst(a, b);
    }
    if Opened(hmac, secret, raw) == Some(body) {
      assert SignedParts(hmac, secret, raw, body, SplitDot(raw).value.0, SplitDot(raw).value.1);
    }
  }

  /** The dashboard decodes what stands before the first dot, the whole text when there is none. */
  lemma ShowsFirstPart(a: string, b: string)
    requires '.' !in a
    ensures Shown(a) == Shown(a + "." + b) == if a == "" then None else DecodeRepadded(a)
  {
    SplitsAt(a);
    SplitFirst(a, b);
  }

  lemma NoDot(b: Bytes)
    ensures '.' !in EncodeRaw(b)
  {
    EncodeRawIsDigits(b);
    DigitsClean(b);
  }

  /**
   For every payload: the executor opens what the engine sealed under the same
   secret and recovers the same bytes, and so does the dashboard unless the
   payload is empty.
   */
  lemma EnvelopeRoundTrip(hmac: (string, Bytes) -> Bytes, secret: string, body: Bytes)
    ensures Opened(hmac, secret, Sealed(hmac, secret, body)) == Some(body)
    ensures Opened(hmac, "", Sealed(hmac, secret, body)) == Some(body)
    ensures Shown(Sealed(hmac, secret, body)) == if body == [] then None else Some(body)
  {
    NoDot(body);
    SplitFirst(EncodeRaw(body), EncodeRaw(hmac(secret, body)));
    EncodeRawIsDigits(body);
    assert EncodeRaw(body) == "" <==> body == [];
    RawRoundTrip(body);
    RawRoundTrip(hmac(secret, body));
    RepaddedRoundTrip(body);
  }

  /** Under another non-empty secret the envelope opens exactly when the two digests of the body collide. */
  lemma OtherSecret(hmac: (string, Bytes) -> Bytes, secret: string, other: string, body: Bytes)
    requires other != ""
    ensures Opened(hmac, other, Sealed(hmac, secret, body))
      == if hmac(other, body) == hmac(secret, body) then Some(body) else None
  {
    NoDot(body);
    SplitFirst(EncodeRaw(body), EncodeRaw(hmac(secret, body)));
    RawRoundTrip(body);
    RawRoundTrip(hmac(secret, body));
  }
}

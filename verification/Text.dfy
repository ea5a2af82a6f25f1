/**
 String helpers that the services use on clocks and status lines. Only ASCII
 letters and ASCII white space are folded and trimmed.
 */
module Text {
  import opened Options

  predicate IsSpace(c: char) {
    c == ' ' || '\t' <= c <= '\r'
  }

  function TrimLeft(s: string): string {
    if s != "" && IsSpace(s[0]) then TrimLeft(s[1..]) else s
  }

  function TrimRight(s: string): string {
    if s != "" && IsSpace(s[|s| - 1]) then TrimRight(s[..|s| - 1]) else s
  }

  function Trim(s: string): string {
    TrimRight(TrimLeft(s))
  }

  lemma {:induction false} TrimLeftMeans(s: string) returns (l: string)
    ensures s == l + TrimLeft(s) && AllSpaces(l)
    ensures TrimLeft(s) == "" || !AllSpaces(TrimLeft(s)[..1])
  {
    if s != "" && IsSpace(s[0]) {
      var rest := TrimLeftMeans(s[1..]);
      l := [s[0]] + rest;
      assert s == [s[0]] + s[1..];
    } else {
      l := "";
    }
  }

  lemma {:induction false} TrimRightMeans(s: string) returns (r: string)
    ensures s == TrimRight(s) + r && AllSpaces(r)
    ensures TrimRight(s) == "" || !AllSpaces(TrimRight(s)[|TrimRight(s)| - 1..])
  {
    if s != "" && IsSpace(s[|s| - 1]) {
      var rest := TrimRightMeans(s[..|s| - 1]);
      r := rest + [s[|s| - 1]];
      assert s == s[..|s| - 1] + [s[|s| - 1]];
    } else {
      r := "";
    }
  }

  /** Blanks, tabs and line breaks only. */
  ghost predicate AllSpaces(s: string) {
    forall i :: 0 <= i < |s| ==> s[i] == ' ' || 9 <= s[i] as int <= 13
  }

  /** Trimming takes the white space off both ends, and nothing else. */
  lemma TrimMeans(s: string) returns (l: string, r: string)
    ensures s == l + Trim(s) + r && AllSpaces(l) && AllSpaces(r)
    ensures var t := Trim(s); t == "" || (!AllSpaces(t[..1]) && !AllSpaces(t[|t| - 1..]))
  {
    l := TrimLeftMeans(s);
    r := TrimRightMeans(TrimLeft(s));
    Joined(l, TrimLeft(s), Trim(s), r);
  }

  lemma Joined(l: string, t: string, u: string, r: string)
    requires t == u + r
    ensures l + t == l + u + r && (u != "" ==> u[..1] == t[..1])
  {}

  function UpperChar(c: char): char {
    if 'a' <= c <= 'z' then (c as int - 32) as char else c
  }

  function Upper(s: string): (r: string)
    ensures |r| == |s|
  {
    if s == "" then "" else [UpperChar(s[0])] + Upper(s[1..])
  }

  lemma {:induction false} UpperAt(s: string, i: nat)
    requires i < |s|
    ensures Upper(s)[i] == UpperChar(s[i])
  {
    if i > 0 {
      UpperAt(s[1..], i - 1);
    }
  }

  /** A string folds to capital letters exactly when each character is that letter in either case. */
  lemma UpperEquals(s: string, upper: string, lower: string)
    requires |upper| == |lower|
    requires forall i :: 0 <= i < |upper| ==> 'A' <= upper[i] <= 'Z' && lower[i] as int == upper[i] as int + 32
    ensures Upper(s) == upper <==> |s| == |upper| && forall i :: 0 <= i < |s| ==> s[i] == upper[i] || s[i] == lower[i]
  {
    if |s| == |upper| {
      forall i | 0 <= i < |s|
        ensures Upper(s)[i] == upper[i] <==> s[i] == upper[i] || s[i] == lower[i]
      {
        UpperAt(s, i);
        UpperLetter(s[i], upper[i], lower[i]);
      }
      SameString(Upper(s), upper);
    }
  }

  lemma SameString(a: string, b: string)
    requires |a| == |b|
    ensures a == b <==> forall i :: 0 <= i < |a| ==> a[i] == b[i]
  {}

  lemma UpperLetter(c: char, upper: char, lower: char)
    requires 'A' <= upper <= 'Z' && lower as int == upper as int + 32
    ensures UpperChar(c) == upper <==> c == upper || c == lower
  {}

  /** The word in any mix of cases, given in capital and in small letters. */
  ghost predicate Spells(s: string, upper: string, lower: string)
    requires |upper| == |lower|
  {
    |s| == |upper| && forall i :: 0 <= i < |s| ==> s[i] == upper[i] || s[i] == lower[i]
  }

  /** A clock reads FULLTIME whatever the case of its letters. */
  lemma FullTimeClock(clock: string)
    ensures Upper(clock) == "FULLTIME"
      <==> |clock| == 8 && forall i :: 0 <= i < 8 ==> clock[i] == "FULLTIME"[i] || clock[i] == "fulltime"[i]
  {
    UpperEquals(clock, "FULLTIME", "fulltime");
  }

  predicate HasPrefix(s: string, prefix: string) {
    prefix <= s
  }

  predicate Contains(s: string, part: string) {
    part <= s || (s != "" && Contains(s[1..], part))
  }

  /** The part stands at position k of the string. */
  ghost predicate StandsAt(s: string, part: string, k: int) {
    0 <= k <= |s| - |part| && s[k..k + |part|] == part
  }

  lemma StandsLater(s: string, part: string, k: int)
    requires s != "" && k > 0
    ensures StandsAt(s, part, k) <==> StandsAt(s[1..], part, k - 1)
  {
    if k <= |s| - |part| {
      assert s[k..k + |part|] == s[1..][k - 1..k - 1 + |part|];
    }
  }

  /** A string contains a part exactly when the part stands somewhere in it. */
  lemma {:induction false} ContainsMeans(s: string, part: string)
    ensures Contains(s, part) <==> exists k :: StandsAt(s, part, k)
  {
    if part <= s {
      assert StandsAt(s, part, 0);
    } else if s != "" {
      ContainsMeans(s[1..], part);
      forall k | StandsAt(s, part, k)
        ensures Contains(s[1..], part)
      {
        assert k != 0;
        StandsLater(s, part, k);
      }
      if Contains(s[1..], part) {
        var k :| StandsAt(s[1..], part, k);
        StandsLater(s, part, k + 1);
      }
    }
  }

  /** The part before the first separator, the whole string when there is none. */
  function Head(s: string, separator: char): string {
    if s == "" || s[0] == separator then "" else [s[0]] + Head(s[1..], separator)
  }

  function Digits(n: nat): (r: string)
    ensures r != ""
  {
    var last := [('0' as int + n % 10) as char];
    if n < 10 then last else Digits(n / 10) + last
  }

  function Itoa(n: int): string {
    if n < 0 then "-" + Digits(-n) else Digits(n)
  }

  predicate AllDigits(s: string) {
    forall i :: 0 <= i < |s| ==> '0' <= s[i] <= '9'
  }

  function DigitsValue(s: string): nat
    requires AllDigits(s)
  {
    if s == "" then 0 else 10 * DigitsValue(s[..|s| - 1]) + (s[|s| - 1] as int - '0' as int)
  }

  /** Reading printed digits gives the number back. */
  lemma {:induction false} DigitsParse(n: nat)
    ensures AllDigits(Digits(n)) && DigitsValue(Digits(n)) == n
  {
    var last := ('0' as int + n % 10) as char;
    assert last as int == '0' as int + n % 10;
    if n >= 10 {
      DigitsParse(n / 10);
      assert Digits(n)[..|Digits(n)| - 1] == Digits(n / 10);
    } else {
      assert Digits(n) == [last] && Digits(n)[..0] == "";
      assert DigitsValue(Digits(n)[..0]) == 0;
    }
  }

  /** Decimal parsing with an optional sign into a 64-bit integer. */
  function Atoi(s: string): Option<int> {
    var body := if s != "" && (s[0] == '+' || s[0] == '-') then s[1..] else s;
    if body == "" || !AllDigits(body) then None
    else
      var n := if s[0] == '-' then -(DigitsValue(body) as int) else DigitsValue(body);
      if -0x8000_0000_0000_0000 <= n < 0x8000_0000_0000_0000 then Some(n) else None
  }
}

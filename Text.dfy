/** The string operations the assessment code relies on, restricted to ASCII:
    `str.lower`, `str.strip`, `in` on strings, `str.replace`, `str.title`
    and `float(str)` for plain decimal literals. */
module Text {
  import opened Wrappers

  // ---------------------------------------------------------------------
  // Case mapping
  // ---------------------------------------------------------------------

  predicate IsUpperChar(c: char) { 'A' <= c <= 'Z' }
  predicate IsLowerChar(c: char) { 'a' <= c <= 'z' }
  predicate IsCased(c: char) { IsUpperChar(c) || IsLowerChar(c) }

  function LowerChar(c: char): char {
    if IsUpperChar(c) then (c as int + 32) as char else c
  }

  function UpperChar(c: char): char {
    if IsLowerChar(c) then (c as int - 32) as char else c
  }

  /** `s.lower()` */
  function Lower(s: string): string {
    seq(|s|, i requires 0 <= i < |s| => LowerChar(s[i]))
  }

  /** `s.title()`: the first cased letter of every run of cased letters is
      upper-cased, the others lower-cased; other characters are kept and end
      a run. */
  function Title(s: string): string {
    TitleFrom(s, false)
  }

  function TitleFrom(s: string, previousCased: bool): string {
    if s == [] then []
    else if IsCased(s[0]) then
      [if previousCased then LowerChar(s[0]) else UpperChar(s[0])] + TitleFrom(s[1..], true)
    else
      [s[0]] + TitleFrom(s[1..], false)
  }

  // ---------------------------------------------------------------------
  // Substrings
  // ---------------------------------------------------------------------

  predicate StartsWith(s: string, prefix: string) {
    |prefix| <= |s| && s[..|prefix|] == prefix
  }

  /** `sub in s` */
  predicate Contains(s: string, sub: string)
    decreases |s|
  {
    StartsWith(s, sub) || (|s| > 0 && Contains(s[1..], sub))
  }

  /** A string contains every string that is glued into it. */
  lemma {:induction false} ContainsInfix(a: string, sub: string, b: string)
    ensures Contains(a + sub + b, sub)
    decreases |a|
  {
    if a == [] {
      assert (a + sub + b)[..|sub|] == sub;
    } else {
      ContainsInfix(a[1..], sub, b);
      assert (a + sub + b)[1..] == a[1..] + sub + b;
    }
  }

  /** `s.replace(pattern, replacement)`: every non-overlapping occurrence,
      scanning from the left. */
  function ReplaceAll(s: string, pattern: string, replacement: string): string
    requires |pattern| > 0
    decreases |s|
  {
    if |s| == 0 then []
    else if StartsWith(s, pattern) then replacement + ReplaceAll(s[|pattern|..], pattern, replacement)
    else [s[0]] + ReplaceAll(s[1..], pattern, replacement)
  }

  // ---------------------------------------------------------------------
  // Whitespace
  // ---------------------------------------------------------------------

  /** The ASCII characters Python's `str.isspace` accepts. */
  predicate IsSpace(c: char) {
    c == ' ' || (9 <= c as int <= 13) || (28 <= c as int <= 31)
  }

  function TrimLeft(s: string): string {
    if |s| > 0 && IsSpace(s[0]) then TrimLeft(s[1..]) else s
  }

  function TrimRight(s: string): string {
    if |s| > 0 && IsSpace(s[|s| - 1]) then TrimRight(s[..|s| - 1]) else s
  }

  /** `s.strip()` */
  function Strip(s: string): string {
    TrimRight(TrimLeft(s))
  }

  /** Lower-casing and stripping commute, since no letter is white space. */
  lemma {:induction false} TrimLeftLower(s: string)
    ensures TrimLeft(Lower(s)) == Lower(TrimLeft(s))
    decreases |s|
  {
    if |s| > 0 {
      assert Lower(s)[1..] == Lower(s[1..]);
      if IsSpace(s[0]) {
        TrimLeftLower(s[1..]);
      }
    }
  }

  lemma {:induction false} TrimRightLower(s: string)
    ensures TrimRight(Lower(s)) == Lower(TrimRight(s))
    decreases |s|
  {
    if |s| > 0 {
      assert Lower(s)[..|s| - 1] == Lower(s[..|s| - 1]);
      if IsSpace(s[|s| - 1]) {
        TrimRightLower(s[..|s| - 1]);
      }
    }
  }

  lemma StripLower(s: string)
    ensures Strip(Lower(s)) == Lower(Strip(s))
  {
    TrimLeftLower(s);
    TrimRightLower(TrimLeft(s));
  }

  lemma LowerIdempotent(s: string)
    ensures Lower(Lower(s)) == Lower(s)
  {
  }

  /** Appending one character after `s`: it survives the left trim unless
      everything is white space. */
  lemma {:induction false} TrimLeftAppend(s: string, c: char)
    ensures TrimLeft(s + [c]) == if TrimLeft(s) == [] && IsSpace(c) then [] else TrimLeft(s) + [c]
    decreases |s|
  {
    if |s| == 0 {
      assert s + [c] == [c];
      assert [c][1..] == [];
    } else {
      assert (s + [c])[1..] == s[1..] + [c];
      if IsSpace(s[0]) {
        TrimLeftAppend(s[1..], c);
      }
    }
  }

  /** `strip` ignores a blank on either side. */
  lemma StripPadding(s: string)
    ensures Strip(" " + s + " ") == Strip(s)
  {
    var padded := " " + s;
    assert padded[1..] == s;
    assert TrimLeft(padded) == TrimLeft(s);
    assert " " + s + " " == padded + [' '];
    TrimLeftAppend(padded, ' ');
    var t := TrimLeft(s);
    if t != [] {
      assert (t + [' '])[..|t|] == t;
    }
  }

  /** A string with no blank at either end is its own strip. */
  lemma StripUnpadded(s: string)
    requires |s| > 0 && !IsSpace(s[0]) && !IsSpace(s[|s| - 1])
    ensures Strip(s) == s
  {
    assert TrimLeft(s) == s;
  }

  // ---------------------------------------------------------------------
  // Decimal literals
  // ---------------------------------------------------------------------

  predicate IsDigit(c: char) { '0' <= c <= '9' }

  predicate AllDigits(s: string) {
    forall i :: 0 <= i < |s| ==> IsDigit(s[i])
  }

  function DigitsValue(s: string): nat
    requires AllDigits(s)
  {
    if s == [] then 0 else DigitsValue(s[..|s| - 1]) * 10 + (s[|s| - 1] as int - '0' as int)
  }

  function Pow10(n: nat): (r: nat)
    ensures r >= 1
  {
    if n == 0 then 1 else 10 * Pow10(n - 1)
  }

  /** Position of the first `c` in `s`, or `|s|`. */
  function IndexOfChar(s: string, c: char): (k: nat)
    ensures k <= |s|
    ensures k < |s| ==> s[k] == c
    ensures forall j :: 0 <= j < k ==> s[j] != c
  {
    if s == [] then 0
    else if s[0] == c then 0
    else 1 + IndexOfChar(s[1..], c)
  }

  /** `digits [ "." digits ]` with at least one digit in all. */
  function ParseUnsigned(s: string): Option<real> {
    var k := IndexOfChar(s, '.');
    var whole := s[..k];
    var fraction := if k < |s| then s[k + 1..] else [];
    if AllDigits(whole) && AllDigits(fraction) && |whole| + |fraction| > 0 then
      Some(DigitsValue(whole) as real + DigitsValue(fraction) as real / Pow10(|fraction|) as real)
    else None
  }

  /** `float(s)` for plain decimal literals surrounded by whitespace, with an
      optional sign; `None` where Python raises `ValueError`. */
  function ParseDecimal(s: string): Option<real> {
    var t := Strip(s);
    if |t| > 0 && (t[0] == '-' || t[0] == '+') then
      match ParseUnsigned(t[1..])
      case Some(x) => Some(if t[0] == '-' then -x else x)
      case None => None
    else ParseUnsigned(t)
  }

  /** Worked values of the decimal parser. */
  lemma ParseDecimalExample()
    ensures ParseDecimal("10.005") == Some(10.005)
  {
    StripUnpadded("10.005");
    assert IndexOfChar("10.005", '.') == 2;
    assert "10.005"[..2] == "10";
    assert "10.005"[3..] == "005";
    assert DigitsValue("10") == 10 by { assert "10"[..1] == "1"; }
    assert DigitsValue("005") == 5 by { assert "005"[..2] == "00"; assert "00"[..1] == "0"; }
    assert Pow10(3) == 1000;
    assert ParseUnsigned("10.005") == Some(10.0 + 5.0 / 1000.0);
  }

  lemma ParseDecimalExample2()
    ensures ParseDecimal("10.02") == Some(10.02)
  {
    StripUnpadded("10.02");
    assert IndexOfChar("10.02", '.') == 2;
    assert "10.02"[..2] == "10";
    assert "10.02"[3..] == "02";
    assert DigitsValue("10") == 10 by { assert "10"[..1] == "1"; }
    assert DigitsValue("02") == 2 by { assert "02"[..1] == "0"; }
    assert Pow10(2) == 100;
    assert ParseUnsigned("10.02") == Some(10.0 + 2.0 / 100.0);
  }

  lemma ParseDecimalRejectsWords()
    ensures ParseDecimal("ten") == None
  {
    assert Strip("ten") == "ten";
    assert IndexOfChar("ten", '.') == 3;
    assert !IsDigit("ten"[0]);
  }
}

/** Character classes and the few `str` operations the exporter relies on. */
module Strings {

  predicate IsDigit(c: char) { '0' <= c <= '9' }
  predicate IsUpper(c: char) { 'A' <= c <= 'Z' }
  predicate IsLower(c: char) { 'a' <= c <= 'z' }
  predicate IsLetter(c: char) { IsUpper(c) || IsLower(c) }

  function ToUpper(c: char): char {
    if IsLower(c) then (c as int - 32) as char else c
  }

  function ToLower(c: char): char {
    if IsUpper(c) then (c as int + 32) as char else c
  }

  predicate AllDigits(s: string) {
    forall i :: 0 <= i < |s| ==> IsDigit(s[i])
  }

  function DigitChar(d: nat): (c: char)
    requires d < 10
    ensures IsDigit(c) && DigitValue(c) == d
  {
    (('0' as int) + d) as char
  }

  function DigitValue(c: char): nat
    requires IsDigit(c)
  {
    c as int - '0' as int
  }

  /** Python's `str(n)` for a non-negative integer: its decimal digits. */
  function NatToString(n: nat): (s: string)
    ensures |s| > 0 && AllDigits(s)
    ensures n == 0 ==> s == "0"
    ensures n > 0 ==> s[0] != '0'
    decreases n
  {
    if n < 10 then [DigitChar(n)] else NatToString(n / 10) + [DigitChar(n % 10)]
  }

  /** A digit string is canonical when it is `"0"` or does not start with `0`. */
  predicate IsCanonicalDigits(s: string) {
    |s| > 0 && AllDigits(s) && (|s| == 1 || s[0] != '0')
  }

  lemma {:induction false} ParseDigitsPositive(s: string)
    requires AllDigits(s) && |s| > 0 && s[0] != '0'
    ensures ParseDigits(s) > 0
    decreases |s|
  {
    if |s| > 1 {
      ParseDigitsPositive(s[..|s| - 1]);
    }
  }

  /**
   * Decimal rendering is the only canonical spelling of a number: a canonical
   * digit string is the rendering of the number it reads as.
   */
  lemma {:induction false} CanonicalDigitsRendered(s: string)
    requires IsCanonicalDigits(s)
    ensures NatToString(ParseDigits(s)) == s
    decreases |s|
  {
    var n := ParseDigits(s);
    if |s| == 1 {
      assert s == [DigitChar(DigitValue(s[0]))];
    } else {
      var p := s[..|s| - 1];
      var d := DigitValue(s[|s| - 1]);
      ParseDigitsPositive(p);
      CanonicalDigitsRendered(p);
      assert n / 10 == ParseDigits(p) && n % 10 == d;
      assert s == p + [DigitChar(d)];
    }
  }

  /** Python's `int(s)` on a string of decimal digits. */
  function ParseDigits(s: string): nat
    requires AllDigits(s)
    decreases |s|
  {
    if |s| == 0 then 0 else ParseDigits(s[..|s| - 1]) * 10 + DigitValue(s[|s| - 1])
  }

  /** Decimal rendering can be read back: `int(str(n)) == n`. */
  lemma {:induction false} ParseNatToString(n: nat)
    ensures ParseDigits(NatToString(n)) == n
    decreases n
  {
    if n >= 10 {
      var s := NatToString(n / 10);
      ParseNatToString(n / 10);
      assert (s + [DigitChar(n % 10)])[..|s|] == s;
    }
  }

  /** The rendering of `n` is exactly the canonical digit string that reads as `n`. */
  lemma NatToStringCharacterised(s: string, n: nat)
    ensures s == NatToString(n) <==> IsCanonicalDigits(s) && ParseDigits(s) == n
  {
    ParseNatToString(n);
    if IsCanonicalDigits(s) && ParseDigits(s) == n {
      CanonicalDigitsRendered(s);
    }
  }

  /** Two different numbers never render to the same decimal string. */
  lemma NatToStringInjective(a: nat, b: nat)
    requires NatToString(a) == NatToString(b)
    ensures a == b
  {
    ParseNatToString(a);
    ParseNatToString(b);
  }

  /** Decimal rendering of an integer, with a leading `-` when it is negative. */
  function IntToString(i: int): string {
    if i < 0 then "-" + NatToString(-i) else NatToString(i)
  }

  predicate StartsWith(s: string, prefix: string) {
    |prefix| <= |s| && s[..|prefix|] == prefix
  }

  predicate EndsWith(s: string, suffix: string) {
    |suffix| <= |s| && s[|s| - |suffix|..] == suffix
  }

  /**
   * Python's `str.title()` restricted to ASCII letters: a letter is
   * upper-cased when the character before it is not a letter, and
   * lower-cased otherwise; every other character is kept.
   */
  function Title(s: string): string {
    TitleFrom(s, false)
  }

  function TitleFrom(s: string, prevCased: bool): (r: string)
    ensures |r| == |s|
    decreases |s|
  {
    if |s| == 0 then ""
    else
      var c := if !IsLetter(s[0]) then s[0] else if prevCased then ToLower(s[0]) else ToUpper(s[0]);
      [c] + TitleFrom(s[1..], IsLetter(s[0]))
  }

  /** What `title()` does to the character at index `i`, looking only at `s[i-1]`. */
  function TitleChar(s: string, i: nat): char
    requires i < |s|
  {
    if !IsLetter(s[i]) then s[i]
    else if i > 0 && IsLetter(s[i - 1]) then ToLower(s[i])
    else ToUpper(s[i])
  }

  lemma {:induction false} TitleFromChars(s: string, prevCased: bool)
    requires |s| > 0
    ensures TitleFrom(s, prevCased)[0] ==
      (if !IsLetter(s[0]) then s[0] else if prevCased then ToLower(s[0]) else ToUpper(s[0]))
    ensures forall i :: 1 <= i < |s| ==> TitleFrom(s, prevCased)[i] == TitleChar(s, i)
    decreases |s|
  {
    var r := TitleFrom(s, prevCased);
    if |s| > 1 {
      var t := s[1..];
      TitleFromChars(t, IsLetter(s[0]));
      forall i | 1 <= i < |s|
        ensures r[i] == TitleChar(s, i)
      {
        assert r[i] == TitleFrom(t, IsLetter(s[0]))[i - 1];
        if i > 1 {
          assert TitleChar(s, i) == TitleChar(t, i - 1);
        }
      }
    }
  }

  /** `title()` is character-wise: each output character depends on its input character and the one before. */
  lemma TitleChars(s: string)
    ensures |Title(s)| == |s|
    ensures forall i :: 0 <= i < |s| ==> Title(s)[i] == TitleChar(s, i)
  {
    if |s| > 0 {
      TitleFromChars(s, false);
    }
  }
}

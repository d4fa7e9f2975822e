/**
  The pieces of JavaScript string behaviour the application relies on: the
  `\s` class (which is also what `String.prototype.trim` strips), the `\w`
  class used by `\b`, ASCII letter case, and `String(n)` for integers.
  Strings are sequences of Unicode scalar values.
 */
module JsText {

  /** The ECMAScript WhiteSpace and LineTerminator code points: `\s` in a regular
      expression and the characters `trim()` removes. */
  predicate IsWhiteSpace(c: char) {
    var n := c as int;
    n == 0x09 || n == 0x0A || n == 0x0B || n == 0x0C || n == 0x0D || n == 0x20 ||
    n == 0xA0 || n == 0x1680 || (0x2000 <= n <= 0x200A) || n == 0x2028 || n == 0x2029 ||
    n == 0x202F || n == 0x205F || n == 0x3000 || n == 0xFEFF
  }

  /** `\w` without the `u` flag: `[A-Za-z0-9_]`. */
  predicate IsWordChar(c: char) {
    ('a' <= c <= 'z') || ('A' <= c <= 'Z') || ('0' <= c <= '9') || c == '_'
  }

  predicate AllWhiteSpace(s: string) {
    forall i :: 0 <= i < |s| ==> IsWhiteSpace(s[i])
  }

  function AsciiLower(c: char): char {
    if 'A' <= c <= 'Z' then (c as int + 32) as char else c
  }

  function LowerAscii(s: string): string {
    seq(|s|, i requires 0 <= i < |s| => AsciiLower(s[i]))
  }

  /** The number of white-space characters at the front of `s`. */
  function LeadingWhiteSpace(s: string): (n: nat)
    ensures n <= |s|
    ensures AllWhiteSpace(s[..n])
    ensures n < |s| ==> !IsWhiteSpace(s[n])
  {
    if s == [] || !IsWhiteSpace(s[0]) then 0
    else
      var t := s[1..];
      var k := LeadingWhiteSpace(t);
      assert s[..1 + k] == [s[0]] + t[..k];
      1 + k
  }

  /** The number of white-space characters at the back of `s`. */
  function TrailingWhiteSpace(s: string): (n: nat)
    ensures n <= |s|
    ensures AllWhiteSpace(s[|s| - n..])
    ensures n < |s| ==> !IsWhiteSpace(s[|s| - 1 - n])
  {
    if s == [] || !IsWhiteSpace(s[|s| - 1]) then 0
    else
      var t := s[..|s| - 1];
      var k := TrailingWhiteSpace(t);
      assert s[|s| - (1 + k)..] == t[|t| - k..] + [s[|s| - 1]];
      assert 1 + k < |s| ==> s[|s| - 1 - (1 + k)] == t[|t| - 1 - k];
      1 + k
  }

  /** `String.prototype.trim`: the slice of `s` left after removing white space at
      both ends; it is empty or starts and ends with a non-white-space character. */
  function Trim(s: string): (r: string)
    ensures r == [] || (!IsWhiteSpace(r[0]) && !IsWhiteSpace(r[|r| - 1]))
  {
    var i := LeadingWhiteSpace(s);
    var rest := s[i..];
    var m := TrailingWhiteSpace(rest);
    assert rest[..|rest| - m] == s[i..|s| - m];
    s[i..|s| - m]
  }

  /** What `trim` removes is white space, from the two ends only. */
  lemma TrimMeaning(s: string)
    ensures exists i, j :: 0 <= i <= j <= |s| && Trim(s) == s[i..j] && AllWhiteSpace(s[..i]) && AllWhiteSpace(s[j..])
  {
    var i := LeadingWhiteSpace(s);
    var rest := s[i..];
    var m := TrailingWhiteSpace(rest);
    assert rest[|rest| - m..] == s[|s| - m..];
    assert Trim(s) == s[i..|s| - m];
  }

  /** A string with no white space at either end is its own trim. */
  lemma TrimOfTrimmed(s: string)
    requires s == [] || (!IsWhiteSpace(s[0]) && !IsWhiteSpace(s[|s| - 1]))
    ensures Trim(s) == s
  {
  }

  lemma {:induction false} LeadingOfPadded(w: string, s: string)
    requires AllWhiteSpace(w) && (s == [] || !IsWhiteSpace(s[0]))
    ensures LeadingWhiteSpace(w + s) == |w|
  {
    if w == [] {
      assert w + s == s;
    } else {
      assert (w + s)[0] == w[0];
      assert (w + s)[1..] == w[1..] + s;
      LeadingOfPadded(w[1..], s);
    }
  }

  lemma {:induction false} TrailingOfPadded(s: string, w: string)
    requires AllWhiteSpace(w) && (s == [] || !IsWhiteSpace(s[|s| - 1]))
    ensures TrailingWhiteSpace(s + w) == |w|
  {
    if w == [] {
      assert s + w == s;
    } else {
      var k := |w| - 1;
      assert (s + w)[|s + w| - 1] == w[k];
      assert (s + w)[..|s + w| - 1] == s + w[..k];
      TrailingOfPadded(s, w[..k]);
    }
  }

  /** `trim` removes exactly the white space around a text that neither
      starts nor ends with white space. */
  lemma TrimPadded(before: string, core: string, after: string)
    requires AllWhiteSpace(before) && AllWhiteSpace(after)
    requires core != [] && !IsWhiteSpace(core[0]) && !IsWhiteSpace(core[|core| - 1])
    ensures Trim(before + core + after) == core
  {
    var s := before + core + after;
    assert s == before + (core + after);
    LeadingOfPadded(before, core + after);
    assert s[|before|..] == core + after;
    TrailingOfPadded(core, after);
    assert s[|before|..|s| - |after|] == core;
  }

  function DigitChar(d: nat): (c: char)
    requires d < 10
    ensures '0' <= c <= '9'
  {
    ['0', '1', '2', '3', '4', '5', '6', '7', '8', '9'][d]
  }

  predicate IsDigit(c: char) {
    '0' <= c <= '9'
  }

  /** Decimal digits of a natural number, most significant first. */
  function Digits(n: nat): string {
    if n < 10 then [DigitChar(n)] else Digits(n / 10) + [DigitChar(n % 10)]
  }

  /** The digits read back as a number. */
  function DigitsValue(s: string): int {
    if s == [] then 0 else DigitsValue(s[..|s| - 1]) * 10 + (s[|s| - 1] as int - '0' as int)
  }

  /** `Digits` writes a non-empty run of decimal digits that reads back as the number. */
  lemma {:induction false} DigitsShape(n: nat)
    ensures |Digits(n)| > 0
    ensures forall i :: 0 <= i < |Digits(n)| ==> IsDigit(Digits(n)[i])
    ensures DigitsValue(Digits(n)) == n
  {
    if n >= 10 {
      DigitsShape(n / 10);
      var s := Digits(n);
      assert s[..|s| - 1] == Digits(n / 10);
      assert DigitChar(n % 10) as int - '0' as int == n % 10 by {
        assert ['0', '1', '2', '3', '4', '5', '6', '7', '8', '9'][n % 10] as int == '0' as int + n % 10;
      }
    } else {
      assert DigitChar(n) as int - '0' as int == n by {
        assert ['0', '1', '2', '3', '4', '5', '6', '7', '8', '9'][n] as int == '0' as int + n;
      }
      assert Digits(n)[..0] == [];
    }
  }

  /** `String(n)` for an integer-valued number: an optional minus sign, then digits. */
  function IntText(n: int): string {
    if n < 0 then "-" + Digits(-n) else Digits(n)
  }
}

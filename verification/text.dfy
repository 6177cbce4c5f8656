/**
 Text rendering used by the exception messages: the decimal form Java gives a
 `long` when it is concatenated into a string, its inverse, and the first
 space-free token of a string.
 */
module Text {
  import opened Optional

  function DigitChar(d: int): (c: char)
    requires 0 <= d < 10
    ensures '0' <= c <= '9'
  {
    ('0' as int + d) as char
  }

  function DigitValue(c: char): (d: int)
    requires '0' <= c <= '9'
    ensures 0 <= d < 10
  {
    c as int - '0' as int
  }

  predicate IsDigits(s: string) {
    forall i :: 0 <= i < |s| ==> '0' <= s[i] <= '9'
  }

  /** Decimal digits of a non-negative number, most significant first, no leading zero. */
  function NatToDigits(n: nat): (s: string)
    ensures |s| > 0 && IsDigits(s)
    ensures s[0] == '0' ==> n == 0
    decreases n
  {
    if n < 10 then [DigitChar(n)] else NatToDigits(n / 10) + [DigitChar(n % 10)]
  }

  /** The number a string of decimal digits denotes. */
  function DigitsToNat(s: string): (n: nat)
    requires IsDigits(s)
  {
    if s == [] then 0 else DigitsToNat(s[..|s| - 1]) * 10 + DigitValue(s[|s| - 1])
  }

  lemma {:induction false} DigitsRoundTrip(n: nat)
    ensures DigitsToNat(NatToDigits(n)) == n
    decreases n
  {
    var s := NatToDigits(n);
    if n < 10 {
      assert s[..|s| - 1] == [];
    } else {
      assert s[..|s| - 1] == NatToDigits(n / 10);
      DigitsRoundTrip(n / 10);
    }
  }

  /** Java's decimal rendering of an integer: a minus sign for negatives, then the digits of the magnitude. */
  function LongToString(n: int): (s: string)
    ensures |s| > 0 && ' ' !in s
    ensures n >= 0 <==> s[0] != '-'
  {
    if n < 0 then "-" + NatToDigits(-n) else NatToDigits(n)
  }

  /** Reads back an optionally signed decimal; None when the text is not one. */
  function ParseLong(s: string): (n: Option<int>) {
    if |s| > 0 && s[0] == '-' then
      var magnitude := s[1..];
      if |magnitude| > 0 && IsDigits(magnitude) then Some(0 - DigitsToNat(magnitude)) else None
    else if |s| > 0 && IsDigits(s) then Some(DigitsToNat(s))
    else None
  }

  /** Rendering a number and reading it back gives the number: the text identifies it. */
  lemma LongRoundTrip(n: int)
    ensures ParseLong(LongToString(n)) == Some(n)
  {
    if n < 0 {
      var digits := NatToDigits(-n);
      assert ("-" + digits)[1..] == digits;
      DigitsRoundTrip(-n);
    } else {
      var digits := NatToDigits(n);
      assert '0' <= digits[0] <= '9';
      DigitsRoundTrip(n);
    }
  }

  /** The longest prefix of `s` that holds no space. */
  function Token(s: string): (t: string)
    ensures t <= s && ' ' !in t
    ensures |t| < |s| ==> s[|t|] == ' '
  {
    if s == [] || s[0] == ' ' then [] else [s[0]] + Token(s[1..])
  }

  /** A space-free word followed by a space-led remainder is exactly the token. */
  lemma TokenOfWord(word: string, rest: string)
    requires ' ' !in word
    requires |rest| > 0 && rest[0] == ' '
    ensures Token(word + rest) == word
  {
    var t := Token(word + rest);
    assert word == (word + rest)[..|word|];
  }

  /** In `prefix`, then a number, then a space-led remainder, the token after the prefix reads back to the number. */
  lemma NumberAfterPrefix(prefix: string, n: int, rest: string)
    requires |rest| > 0 && rest[0] == ' '
    ensures prefix <= prefix + LongToString(n) + rest
    ensures ParseLong(Token((prefix + LongToString(n) + rest)[|prefix|..])) == Some(n)
  {
    var word := LongToString(n);
    assert (prefix + word + rest)[|prefix|..] == word + rest;
    TokenOfWord(word, rest);
    LongRoundTrip(n);
  }
}

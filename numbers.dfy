/**
 * The numeric encoder: a signed integer becomes a sign symbol (space for
 * zero and positive numbers, tab for negative ones), the binary digits of its
 * magnitude with 0 written as space and 1 as tab, and a terminating linefeed.
 *
 * A decoder for this format is defined here only to state and prove that the
 * encoding loses nothing; the translator itself never decodes.
 */
module Numbers {
  import opened Wrappers

  /** The symbol for one binary digit: 0 is a space, 1 a tab. */
  function Digit(b: nat): (c: char)
    requires b < 2
    ensures IsDigitSymbol(c)
  {
    if b == 0 then ' ' else '\t'
  }

  predicate IsDigitSymbol(c: char)
  {
    c == ' ' || c == '\t'
  }

  /** A string of digit symbols only. */
  predicate AllDigits(s: string)
  {
    forall i :: 0 <= i < |s| ==> IsDigitSymbol(s[i])
  }

  /** The binary digit a digit symbol stands for. */
  function Bit(c: char): nat
  {
    if c == '\t' then 1 else 0
  }

  function Pow2(k: nat): (r: nat)
    ensures r >= 1
  {
    if k == 0 then 1 else 2 * Pow2(k - 1)
  }

  /** The number a string of digit symbols denotes, most significant digit first. */
  function Value(s: string): nat
  {
    if s == [] then 0 else 2 * Value(s[..|s| - 1]) + Bit(s[|s| - 1])
  }

  /** A string of k digit symbols denotes a number below 2^k. */
  lemma {:induction false} ValueBound(s: string)
    ensures Value(s) < Pow2(|s|)
  {
    if s != [] {
      ValueBound(s[..|s| - 1]);
    }
  }

  /**
   * The binary digits of n as symbols, most significant first, as Python's
   * bin(n) without its "0b" prefix gives them: zero has the single digit 0 and
   * every other number starts with a 1.
   */
  function PosIntToWhitespace(n: nat): (r: string)
    ensures |r| > 0
  {
    if n < 2 then [Digit(n)] else PosIntToWhitespace(n / 2) + [Digit(n % 2)]
  }

  /**
   * The binary form is a string of digit symbols that denotes n; it is a
   * single 0 for zero and otherwise starts with a 1, so that it has no
   * redundant leading digit.
   */
  lemma {:induction false} BinaryDigits(n: nat)
    ensures AllDigits(PosIntToWhitespace(n))
    ensures Value(PosIntToWhitespace(n)) == n
    ensures n == 0 ==> PosIntToWhitespace(n) == " "
    ensures n > 0 ==> PosIntToWhitespace(n)[0] == '\t' && Pow2(|PosIntToWhitespace(n)| - 1) <= n
  {
    if n >= 2 {
      BinaryDigits(n / 2);
      var r := PosIntToWhitespace(n);
      assert r[..|r| - 1] == PosIntToWhitespace(n / 2);
    }
  }

  /** The encoding of a signed integer: sign symbol, magnitude digits, linefeed. */
  function IntToWhitespace(n: int): (r: string)
    ensures |r| >= 3 && r[|r| - 1] == '\n'
    ensures r[0] == (if n >= 0 then ' ' else '\t')
    ensures AllDigits(r[..|r| - 1])
  {
    var m: nat := if n >= 0 then n else -n;
    BinaryDigits(m);
    var r := [if n >= 0 then ' ' else '\t'] + PosIntToWhitespace(m) + ['\n'];
    assert r[..|r| - 1] == [r[0]] + PosIntToWhitespace(m);
    r
  }

  /** The number with magnitude m and the given sign symbol. */
  function Signed(sign: char, m: nat): int
  {
    if sign == ' ' then m as int else -(m as int)
  }

  /** The length of the longest prefix of s made of digit symbols. */
  function DigitRun(s: string): (k: nat)
    ensures k <= |s| && AllDigits(s[..k])
    ensures k < |s| ==> !IsDigitSymbol(s[k])
  {
    if s == [] || !IsDigitSymbol(s[0]) then 0
    else
      var k := 1 + DigitRun(s[1..]);
      assert s[..k] == [s[0]] + s[1..][..k - 1];
      k
  }

  /**
   * Reads one encoded number from the front of s: a sign symbol, at least one
   * digit symbol and a linefeed. Gives the number and what follows it.
   */
  ghost function ReadNumber(s: string): Option<(int, string)>
  {
    if s == [] || !IsDigitSymbol(s[0]) then None else ReadMagnitude(s[0], s[1..])
  }

  /** Reads the digits and the linefeed that follow a sign symbol. */
  ghost function ReadMagnitude(sign: char, t: string): Option<(int, string)>
  {
    var d := DigitRun(t);
    if d == 0 || d >= |t| || t[d] != '\n' then None
    else Some((Signed(sign, Value(t[..d])), t[d + 1..]))
  }

  /** The digit run of a string of digits followed by a non-digit stops at that non-digit. */
  lemma {:induction false} DigitRunStops(a: string, rest: string)
    requires AllDigits(a)
    requires rest != [] && !IsDigitSymbol(rest[0])
    ensures DigitRun(a + rest) == |a|
  {
    if a != [] {
      assert (a + rest)[1..] == a[1..] + rest;
      DigitRunStops(a[1..], rest);
    }
  }

  /** Reading digits and a linefeed after a sign gives the signed value of the digits. */
  lemma ReadFramed(sign: char, digits: string, rest: string)
    requires |digits| > 0 && AllDigits(digits)
    ensures ReadMagnitude(sign, digits + (['\n'] + rest)) == Some((Signed(sign, Value(digits)), rest))
  {
    var t := digits + (['\n'] + rest);
    DigitRunStops(digits, ['\n'] + rest);
    assert t[..|digits|] == digits;
    assert t[|digits| + 1..] == rest;
    ReadMagnitudeAt(sign, t, |digits|);
  }

  /** After a sign symbol, reading continues with the magnitude. */
  lemma ReadAfterSign(sign: char, t: string)
    requires IsDigitSymbol(sign)
    ensures ReadNumber([sign] + t) == ReadMagnitude(sign, t)
  {
    assert ([sign] + t)[1..] == t;
  }

  /** A digit run of length d that ends at a linefeed is read as the magnitude. */
  lemma ReadMagnitudeAt(sign: char, t: string, d: nat)
    requires 0 < d == DigitRun(t) < |t| && t[d] == '\n'
    ensures ReadMagnitude(sign, t) == Some((Signed(sign, Value(t[..d])), t[d + 1..]))
  {
  }

  /** An encoding followed by more text: the sign symbol, the digits, and the linefeed before the rest. */
  lemma EncodingShape(n: int, rest: string)
    ensures IntToWhitespace(n) + rest ==
      [if n >= 0 then ' ' else '\t'] + (PosIntToWhitespace(if n >= 0 then n else -n) + (['\n'] + rest))
  {
  }

  /** Reading back an encoded number, whatever follows it, gives the number and the rest. */
  lemma RoundTrip(n: int, rest: string)
    ensures ReadNumber(IntToWhitespace(n) + rest) == Some((n, rest))
  {
    var sign := if n >= 0 then ' ' else '\t';
    var m: nat := if n >= 0 then n else -n;
    var digits := PosIntToWhitespace(m);
    assert AllDigits(digits) && Value(digits) == m by {
      BinaryDigits(m);
    }
    EncodingShape(n, rest);
    ReadAfterSign(sign, digits + (['\n'] + rest));
    ReadFramed(sign, digits, rest);
  }

  /** Distinct numbers have distinct encodings, and no encoding is a proper prefix of another. */
  lemma EncodingInjective(a: int, b: int, rest: string)
    requires IntToWhitespace(a) + rest == IntToWhitespace(b)
    ensures a == b && rest == []
  {
    RoundTrip(a, rest);
    RoundTrip(b, []);
    assert IntToWhitespace(b) + [] == IntToWhitespace(b);
  }

  /** Zero is space, one zero digit, linefeed. */
  lemma EncodeZero()
    ensures IntToWhitespace(0) == "  \n"
  {
  }

  /** A non-zero magnitude starts with a 1 digit, and n and -n differ only in the sign symbol. */
  lemma EncodeNegation(n: int)
    requires n > 0
    ensures IntToWhitespace(n)[1] == '\t'
    ensures IntToWhitespace(-n) == ['\t'] + IntToWhitespace(n)[1..]
    ensures IntToWhitespace(n) == [' '] + IntToWhitespace(-n)[1..]
  {
    BinaryDigits(n);
  }
}

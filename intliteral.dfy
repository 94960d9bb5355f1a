/**
 * Reading a PUSH parameter as Python's int() reads a string in base 10: an
 * optional minus sign, then decimal digits in which single underscores may
 * separate neighbouring digits. Leading zeros are allowed. Anything else is
 * rejected, which the translator reports as an unparsable number.
 *
 * (A plus sign and surrounding whitespace, which int() also accepts, cannot
 * occur in a parameter: the line pattern admits only letters, digits, '-'
 * and '_'.)
 */
module IntLiteral {
  import opened Wrappers

  predicate IsDecimalDigit(c: char)
  {
    '0' <= c <= '9'
  }

  function DigitValue(c: char): nat
    requires IsDecimalDigit(c)
  {
    (c as int) - ('0' as int)
  }

  predicate AllDecimal(d: string)
  {
    forall i :: 0 <= i < |d| ==> IsDecimalDigit(d[i])
  }

  /**
   * A run of digits with optional single underscores between digits: it
   * starts and ends with a digit and holds no two underscores in a row.
   */
  predicate Grouped(s: string)
  {
    && |s| > 0 && IsDecimalDigit(s[0]) && IsDecimalDigit(s[|s| - 1])
    && (forall i :: 0 <= i < |s| ==> IsDecimalDigit(s[i]) || s[i] == '_')
    && (forall i :: 0 <= i < |s| - 1 ==> s[i] == '_' ==> s[i + 1] != '_')
  }

  /** The digits of s, underscores removed. */
  function Digits(s: string): (d: string)
    requires forall i :: 0 <= i < |s| ==> IsDecimalDigit(s[i]) || s[i] == '_'
    ensures AllDecimal(d) && |d| <= |s|
  {
    if s == [] then []
    else
      var d := Digits(s[..|s| - 1]);
      if s[|s| - 1] == '_' then d else d + [s[|s| - 1]]
  }

  /** The number a string of decimal digits denotes, most significant digit first. */
  function DecimalValue(d: string): nat
    requires AllDecimal(d)
  {
    if d == [] then 0 else 10 * DecimalValue(d[..|d| - 1]) + DigitValue(d[|d| - 1])
  }

  /** int(s) in base 10: the number, or None where int() raises ValueError. */
  function ParseInt(s: string): Option<int>
  {
    if |s| > 0 && s[0] == '-' then
      if Grouped(s[1..]) then Some(-(DecimalValue(Digits(s[1..])) as int)) else None
    else if Grouped(s) then Some(DecimalValue(Digits(s)) as int)
    else None
  }

  // ---------------------------------------------------------------------
  // Decimal notation, the partner of ParseInt.
  // ---------------------------------------------------------------------

  function DecimalDigit(k: nat): (c: char)
    requires k < 10
    ensures IsDecimalDigit(c) && DigitValue(c) == k
  {
    ('0' as int + k) as char
  }

  /** The decimal digits of n without leading zeros, as str(n) writes them. */
  function NatString(n: nat): (d: string)
    ensures |d| > 0 && AllDecimal(d)
  {
    if n < 10 then [DecimalDigit(n)] else NatString(n / 10) + [DecimalDigit(n % 10)]
  }

  /** str(n): a minus sign for negative numbers, then the digits. */
  function DecimalString(n: int): string
  {
    if n < 0 then "-" + NatString(-n) else NatString(n)
  }

  /** The digits of n denote n, and only zero is written with a leading zero. */
  lemma {:induction false} NatStringValue(n: nat)
    ensures DecimalValue(NatString(n)) == n
    ensures NatString(n)[0] != '0' || n == 0
  {
    if n >= 10 {
      NatStringValue(n / 10);
      var d := NatString(n);
      assert d[..|d| - 1] == NatString(n / 10);
    }
  }

  /** A string without underscores is its own digit string. */
  lemma {:induction false} DigitsOfDecimal(d: string)
    requires AllDecimal(d)
    ensures Digits(d) == d
  {
    if d != [] {
      DigitsOfDecimal(d[..|d| - 1]);
      assert d == d[..|d| - 1] + [d[|d| - 1]];
    }
  }

  /** Reading back what str() writes gives the number. */
  lemma RoundTrip(n: int)
    ensures ParseInt(DecimalString(n)) == Some(n)
  {
    var m: nat := if n < 0 then -n else n;
    var d := NatString(m);
    NatStringParsed(m);
    if n < 0 {
      ParseSigned(d);
    } else {
      ParseUnsigned(d);
    }
  }

  /** A grouped digit string reads as the value of its digits. */
  lemma ParseUnsigned(s: string)
    requires Grouped(s)
    ensures ParseInt(s) == Some(DecimalValue(Digits(s)) as int)
  {
  }

  /** A minus sign before a grouped digit string negates the value of its digits. */
  lemma ParseSigned(s: string)
    requires Grouped(s)
    ensures ParseInt("-" + s) == Some(-(DecimalValue(Digits(s)) as int))
  {
    assert ("-" + s)[1..] == s;
  }

  /** The digits of n form a grouped digit string that reads back as n. */
  lemma NatStringParsed(m: nat)
    ensures var d := NatString(m);
      Grouped(d) && Digits(d) == d && DecimalValue(Digits(d)) == m
  {
    NatStringValue(m);
    DigitsOfDecimal(NatString(m));
  }

  /** Leading zeros do not change the value. */
  lemma {:induction false} LeadingZeroValue(d: string)
    requires AllDecimal(d)
    ensures AllDecimal("0" + d) && DecimalValue("0" + d) == DecimalValue(d)
  {
    if d != [] {
      var z := "0" + d;
      assert z[..|z| - 1] == "0" + d[..|d| - 1];
      LeadingZeroValue(d[..|d| - 1]);
    }
  }

  /** A literal may start with zeros: "007" and "0_7" are read as 7. */
  lemma LeadingZero(d: string)
    requires Grouped(d)
    ensures ParseInt("0" + d) == ParseInt(d)
  {
    GroupedZero(d);
    ParseUnsigned("0" + d);
    ParseUnsigned(d);
    ZeroDigits(d);
    LeadingZeroValue(Digits(d));
  }

  /** The digits of a zero followed by a grouped string are that zero and its digits. */
  lemma ZeroDigits(d: string)
    requires Grouped(d)
    ensures Grouped("0" + d) && Digits("0" + d) == "0" + Digits(d)
  {
    GroupedZero(d);
    DigitsConcat("0", d);
    assert Digits("0") == "0" by {
      assert "0"[..0] == [];
    }
  }

  /** A zero in front of a grouped digit string keeps it grouped. */
  lemma GroupedZero(d: string)
    requires Grouped(d)
    ensures Grouped("0" + d)
  {
    var z := "0" + d;
    assert forall i :: 1 <= i < |z| ==> z[i] == d[i - 1];
  }

  /** A minus sign negates what the rest reads as, when the rest is not signed itself. */
  lemma Negation(s: string)
    requires s == [] || s[0] != '-'
    ensures ParseInt("-" + s) == (if ParseInt(s).Some? then Some(-ParseInt(s).value) else None)
  {
    assert ("-" + s)[1..] == s;
  }

  /** The digits of a concatenation are the digits of its parts. */
  lemma {:induction false} DigitsConcat(a: string, b: string)
    requires forall i :: 0 <= i < |a| ==> IsDecimalDigit(a[i]) || a[i] == '_'
    requires forall i :: 0 <= i < |b| ==> IsDecimalDigit(b[i]) || b[i] == '_'
    ensures forall i :: 0 <= i < |a + b| ==> IsDecimalDigit((a + b)[i]) || (a + b)[i] == '_'
    ensures Digits(a + b) == Digits(a) + Digits(b)
  {
    if b != [] {
      var b' := b[..|b| - 1];
      DigitsConcat(a, b');
      assert (a + b)[..|a + b| - 1] == a + b';
    } else {
      assert a + b == a;
    }
  }

  /** Two runs of digits, joined directly or by one underscore, are grouped digit strings. */
  lemma GroupedJoin(a: string, b: string)
    requires |a| > 0 && |b| > 0 && AllDecimal(a) && AllDecimal(b)
    ensures Grouped(a + "_" + b) && Grouped(a + b)
  {
    var s := a + "_" + b;
    forall i | 0 <= i < |s|
      ensures if i == |a| then s[i] == '_' else IsDecimalDigit(s[i])
    {
      if i < |a| {
        assert s[i] == a[i];
      } else if i > |a| {
        assert s[i] == b[i - |a| - 1];
      }
    }
    var t := a + b;
    forall i | 0 <= i < |t|
      ensures IsDecimalDigit(t[i])
    {
      if i < |a| {
        assert t[i] == a[i];
      } else {
        assert t[i] == b[i - |a|];
      }
    }
  }

  /** Removing the underscore of such a join leaves the digits of both runs. */
  lemma DigitsJoin(a: string, b: string)
    requires AllDecimal(a) && AllDecimal(b)
    ensures forall i :: 0 <= i < |a + "_" + b| ==> IsDecimalDigit((a + "_" + b)[i]) || (a + "_" + b)[i] == '_'
    ensures Digits(a + "_" + b) == a + b
  {
    DigitsConcat(a, "_");
    DigitsConcat(a + "_", b);
    assert Digits("_") == [] by {
      assert "_"[..0] == [];
    }
    DigitsOfDecimal(a);
    DigitsOfDecimal(b);
  }

  /** A single underscore between two runs of digits is ignored. */
  lemma Underscore(a: string, b: string)
    requires |a| > 0 && |b| > 0 && AllDecimal(a) && AllDecimal(b)
    ensures ParseInt(a + "_" + b) == ParseInt(a + b)
  {
    var s, t := a + "_" + b, a + b;
    assert s[0] == a[0] && t[0] == a[0];
    GroupedJoin(a, b);
    DigitsJoin(a, b);
    assert AllDecimal(t) by {
      assert Grouped(t);
    }
    DigitsOfDecimal(t);
  }

  /** Examples of rejected literals. */
  lemma Rejected()
    ensures ParseInt("") == None && ParseInt("-") == None && ParseInt("--1") == None
    ensures ParseInt("_1") == None && ParseInt("1_") == None && ParseInt("1__0") == None
    ensures ParseInt("abc") == None && ParseInt("1-2") == None
  {
    assert "--1"[1..] == "-1";
    assert "1__0"[1] == '_' && "1__0"[2] == '_';
  }
}

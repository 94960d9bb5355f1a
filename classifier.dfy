/**
 * The line classifier. A source line is blank (optional whitespace and an
 * optional comment), a code line (optional whitespace, a mnemonic of 3 to 6
 * ASCII letters, optionally whitespace and a parameter of letters, digits,
 * '-' and '_', optional whitespace, an optional comment), or unparsable.
 *
 * The classifier scans the line with maximal runs. The two patterns are
 * also stated declaratively, as decompositions of the line, and the scanner
 * is proved to agree with them: "whitespace" is the set of characters Python
 * treats as whitespace, a comment is '#' followed by anything but a
 * linefeed, and the end-of-line anchor also matches before one final
 * linefeed.
 */
module Classifier {
  import opened Wrappers
  import opened Instructions

  /** Python's whitespace characters (the class matched by \s). */
  predicate IsSpace(c: char)
  {
    || ('\t' <= c <= '\r')
    || ('\U{1C}' <= c <= '\U{1F}')
    || c == ' ' || c == '\U{85}' || c == '\U{A0}' || c == '\U{1680}'
    || ('\U{2000}' <= c <= '\U{200A}')
    || c == '\U{2028}' || c == '\U{2029}' || c == '\U{202F}' || c == '\U{205F}' || c == '\U{3000}'
  }

  /** An ASCII letter, as a mnemonic is spelt. */
  predicate IsLetter(c: char)
  {
    ('A' <= c <= 'Z') || ('a' <= c <= 'z')
  }

  /** A character that may appear in a parameter. */
  predicate IsParamChar(c: char)
  {
    IsLetter(c) || ('0' <= c <= '9') || c == '-' || c == '_'
  }

  /** Every character of s in [a, b) satisfies p. */
  ghost predicate All(s: string, a: nat, b: nat, p: char -> bool)
    requires a <= b <= |s|
  {
    forall n :: a <= n < b ==> p(s[n])
  }

  /** The end of the longest run of p-characters of s that starts at a. */
  function Skip(s: string, a: nat, p: char -> bool): (b: nat)
    requires a <= |s|
    ensures a <= b <= |s|
    ensures forall n :: a <= n < b ==> p(s[n])
    ensures b < |s| ==> !p(s[b])
    decreases |s| - a
  {
    if a < |s| && p(s[a]) then Skip(s, a + 1, p) else a
  }

  /** A run of p-characters from a that stops at a non-p character or at the end is the longest one. */
  lemma SkipAt(s: string, a: nat, b: nat, p: char -> bool)
    requires a <= b <= |s|
    requires forall n :: a <= n < b ==> p(s[n])
    requires b < |s| ==> !p(s[b])
    ensures Skip(s, a, p) == b
  {
  }

  /** An optional comment from position i to the end: nothing, or '#' and no linefeed after it. */
  predicate CommentAt(s: string, i: nat)
    requires i <= |s|
  {
    i == |s| || (s[i] == '#' && forall n :: i < n < |s| ==> s[n] != '\n')
  }

  // ---------------------------------------------------------------------
  // The two patterns, stated as decompositions of the text.
  // ---------------------------------------------------------------------

  /** From a: whitespace, then an optional comment, then the end. */
  ghost predicate BlankFrom(s: string, a: nat)
    requires a <= |s|
  {
    exists i :: a <= i <= |s| && All(s, a, i, IsSpace) && CommentAt(s, i)
  }

  /** A mnemonic: between the table's shortest and longest length, letters only. */
  ghost predicate IsMnemonic(m: string)
  {
    MIN_INSTRUCTION_LEN <= |m| <= MAX_INSTRUCTION_LEN && All(m, 0, |m|, IsLetter)
  }

  /**
   * From j, what follows the mnemonic: either directly the blank tail, or at
   * least one whitespace character, the parameter, and the blank tail.
   */
  ghost predicate ParamTail(s: string, j: nat, p: Option<string>)
    requires j <= |s|
  {
    match p
    case None => BlankFrom(s, j)
    case Some(q) =>
      exists k, l :: j < k <= l <= |s| && All(s, j, k, IsSpace) && s[k..l] == q &&
        k < l && All(s, k, l, IsParamChar) && BlankFrom(s, l)
  }

  /** Whitespace, the mnemonic m, and a tail carrying the parameter p. */
  ghost predicate CodeForm(t: string, m: string, p: Option<string>)
  {
    exists i, j :: 0 <= i <= j <= |t| && All(t, 0, i, IsSpace) && t[i..j] == m &&
      IsMnemonic(m) && ParamTail(t, j, p)
  }

  /** The patterns anchored at both ends; the end anchor also matches before a final linefeed. */
  ghost predicate BlankMatch(line: string)
  {
    BlankFrom(line, 0) || (|line| > 0 && line[|line| - 1] == '\n' && BlankFrom(line[..|line| - 1], 0))
  }

  ghost predicate CodeMatch(line: string, m: string, p: Option<string>)
  {
    CodeForm(line, m, p) ||
    (|line| > 0 && line[|line| - 1] == '\n' && CodeForm(line[..|line| - 1], m, p))
  }

  // ---------------------------------------------------------------------
  // The scanner.
  // ---------------------------------------------------------------------

  datatype Line = Blank | Code(mnemonic: string, param: Option<string>) | Unparsable

  /** From a: whitespace and an optional comment, by scanning. */
  predicate IsBlankFrom(s: string, a: nat)
    requires a <= |s|
  {
    CommentAt(s, Skip(s, a, IsSpace))
  }

  /**
   * Reads what follows the mnemonic, from j: Some(None) when no parameter is
   * given, Some(Some(q)) for the parameter q, None when the tail does not fit.
   */
  function ReadParamTail(s: string, j: nat): Option<Option<string>>
    requires j <= |s|
  {
    if IsBlankFrom(s, j) then Some(None)
    else
      var k := Skip(s, j, IsSpace);
      var l := Skip(s, k, IsParamChar);
      if j < k < l && IsBlankFrom(s, l) then Some(Some(s[k..l])) else None
  }

  /** Classifies a line from which a final linefeed has been removed. */
  function ClassifyText(t: string): Line
  {
    var i := Skip(t, 0, IsSpace);
    if CommentAt(t, i) then Blank
    else
      var j := Skip(t, i, IsLetter);
      if MIN_INSTRUCTION_LEN <= j - i <= MAX_INSTRUCTION_LEN then
        match ReadParamTail(t, j)
        case Some(p) => Code(t[i..j], p)
        case None => Unparsable
      else Unparsable
  }

  /** Classifies one line as read from the input, with or without its linefeed. */
  function ClassifyLine(line: string): Line
  {
    if |line| > 0 && line[|line| - 1] == '\n' then ClassifyText(line[..|line| - 1])
    else ClassifyText(line)
  }

  // ---------------------------------------------------------------------
  // The scanner agrees with the patterns.
  // ---------------------------------------------------------------------

  lemma CharClasses(c: char)
    ensures IsSpace(c) ==> !IsLetter(c) && !IsParamChar(c) && c != '#'
    ensures IsParamChar(c) ==> c != '#' && c != '\n'
  {
  }

  /** The scanned blank test is the blank pattern. */
  lemma BlankIff(s: string, a: nat)
    requires a <= |s|
    ensures IsBlankFrom(s, a) <==> BlankFrom(s, a)
  {
    if BlankFrom(s, a) {
      var i :| a <= i <= |s| && All(s, a, i, IsSpace) && CommentAt(s, i);
      if i < |s| {
        CharClasses(s[i]);
      }
      SkipAt(s, a, i, IsSpace);
    }
  }

  /** A blank tail that is not empty starts with whitespace or '#'. */
  lemma BlankStart(s: string, a: nat)
    requires a < |s| && BlankFrom(s, a)
    ensures IsSpace(s[a]) || s[a] == '#'
  {
  }

  /** A tail that is not empty starts with whitespace or '#'. */
  lemma ParamTailStart(s: string, j: nat, p: Option<string>)
    requires j < |s| && ParamTail(s, j, p)
    ensures IsSpace(s[j]) || s[j] == '#'
  {
    if p.None? {
      BlankStart(s, j);
    }
  }

  /** Soundness of reading a parameter tail. */
  lemma ReadParamTailSound(s: string, j: nat, p: Option<string>)
    requires j <= |s| && ReadParamTail(s, j) == Some(p)
    ensures ParamTail(s, j, p)
  {
    BlankIff(s, j);
    if !IsBlankFrom(s, j) {
      var k := Skip(s, j, IsSpace);
      var l := Skip(s, k, IsParamChar);
      BlankIff(s, l);
    }
  }

  /** Completeness of reading a parameter tail. */
  lemma ReadParamTailComplete(s: string, j: nat, p: Option<string>)
    requires j <= |s| && ParamTail(s, j, p)
    ensures ReadParamTail(s, j) == Some(p)
  {
    BlankIff(s, j);
    if p.Some? {
      var q := p.value;
      var k, l :| j < k <= l <= |s| && All(s, j, k, IsSpace) && s[k..l] == q &&
        k < l && All(s, k, l, IsParamChar) && BlankFrom(s, l);
      CharClasses(s[k]);
      SkipAt(s, j, k, IsSpace);
      assert !IsBlankFrom(s, j);
      if l < |s| {
        BlankStart(s, l);
        CharClasses(s[l]);
      }
      SkipAt(s, k, l, IsParamChar);
      BlankIff(s, l);
    }
  }

  /** The scanner reports a blank line exactly when the text fits the blank pattern. */
  lemma ClassifyBlankIff(t: string)
    ensures ClassifyText(t) == Blank <==> BlankFrom(t, 0)
  {
    BlankIff(t, 0);
  }

  /** Soundness of the scanner for code lines. */
  lemma ClassifyCodeSound(t: string, m: string, p: Option<string>)
    requires ClassifyText(t) == Code(m, p)
    ensures !BlankFrom(t, 0) && CodeForm(t, m, p)
  {
    BlankIff(t, 0);
    var i := Skip(t, 0, IsSpace);
    var j := Skip(t, i, IsLetter);
    ReadParamTailSound(t, j, p);
    MnemonicFound(t, i, j);
    CodeFormAt(t, i, j, m, p);
  }

  /** A letter run of t of admissible length is a mnemonic. */
  lemma MnemonicFound(t: string, i: nat, j: nat)
    requires i <= j <= |t| && All(t, i, j, IsLetter)
    requires MIN_INSTRUCTION_LEN <= j - i <= MAX_INSTRUCTION_LEN
    ensures IsMnemonic(t[i..j])
  {
    var m := t[i..j];
    forall n | 0 <= n < |m|
      ensures IsLetter(m[n])
    {
      assert m[n] == t[i + n];
    }
  }

  /** A mnemonic is not empty. */
  lemma MnemonicNonEmpty(m: string)
    requires IsMnemonic(m)
    ensures |m| >= 1
  {
    BoundValues();
  }

  /** The letters of a mnemonic found at [i, j) of t are letters of t. */
  lemma LettersAt(t: string, i: nat, j: nat, m: string)
    requires i <= j <= |t| && t[i..j] == m && All(m, 0, |m|, IsLetter)
    ensures All(t, i, j, IsLetter)
  {
    forall n | i <= n < j
      ensures IsLetter(t[n])
    {
      assert t[n] == m[n - i];
    }
  }

  /** The positions that witness a code form. */
  lemma CodeFormParts(t: string, m: string, p: Option<string>) returns (i: nat, j: nat)
    requires CodeForm(t, m, p)
    ensures i <= j <= |t| && All(t, 0, i, IsSpace) && t[i..j] == m && IsMnemonic(m) && ParamTail(t, j, p)
  {
    i, j :| 0 <= i <= j <= |t| && All(t, 0, i, IsSpace) && t[i..j] == m &&
      IsMnemonic(m) && ParamTail(t, j, p);
  }

  /** Positions that make up a code form witness it. */
  lemma CodeFormAt(t: string, i: nat, j: nat, m: string, p: Option<string>)
    requires i <= j <= |t| && All(t, 0, i, IsSpace) && t[i..j] == m && IsMnemonic(m) && ParamTail(t, j, p)
    ensures CodeForm(t, m, p)
  {
  }

  /** The mnemonic of a code form at [i, j) is the letter run that starts after the leading whitespace. */
  lemma MnemonicRun(t: string, i: nat, j: nat, m: string)
    requires i <= j <= |t| && All(t, 0, i, IsSpace) && t[i..j] == m && |m| >= 1 && All(m, 0, |m|, IsLetter)
    requires j < |t| ==> IsSpace(t[j]) || t[j] == '#'
    ensures Skip(t, 0, IsSpace) == i && Skip(t, i, IsLetter) == j && i < |t|
  {
    assert t[i] == m[0];
    CharClasses(t[i]);
    SkipAt(t, 0, i, IsSpace);
    LettersAt(t, i, j, m);
    if j < |t| {
      CharClasses(t[j]);
    }
    SkipAt(t, i, j, IsLetter);
  }

  /** Completeness of the scanner for code lines. */
  lemma ClassifyCodeComplete(t: string, m: string, p: Option<string>)
    requires !BlankFrom(t, 0) && CodeForm(t, m, p)
    ensures ClassifyText(t) == Code(m, p)
  {
    BlankIff(t, 0);
    var i, j := CodeFormParts(t, m, p);
    MnemonicNonEmpty(m);
    if j < |t| {
      ParamTailStart(t, j, p);
    }
    MnemonicRun(t, i, j, m);
    ReadParamTailComplete(t, j, p);
    ClassifyTextAt(t, i, j, m, p);
  }

  /** The scanner's verdict, once the scan positions and the tail are known. */
  lemma ClassifyTextAt(t: string, i: nat, j: nat, m: string, p: Option<string>)
    requires i <= j <= |t| && Skip(t, 0, IsSpace) == i && !CommentAt(t, i) && Skip(t, i, IsLetter) == j
    requires t[i..j] == m && MIN_INSTRUCTION_LEN <= |m| <= MAX_INSTRUCTION_LEN && ReadParamTail(t, j) == Some(p)
    ensures ClassifyText(t) == Code(m, p)
  {
  }

  /** Code lines: the scanner's verdict is the pattern's, in both directions. */
  lemma ClassifyCodeIff(t: string, m: string, p: Option<string>)
    ensures ClassifyText(t) == Code(m, p) <==> !BlankFrom(t, 0) && CodeForm(t, m, p)
  {
    if ClassifyText(t) == Code(m, p) {
      ClassifyCodeSound(t, m, p);
    }
    if !BlankFrom(t, 0) && CodeForm(t, m, p) {
      ClassifyCodeComplete(t, m, p);
    }
  }

  // ---------------------------------------------------------------------
  // A final linefeed.
  // ---------------------------------------------------------------------

  /** Positions before the linefeed are those of the text. */
  lemma Extended(t: string, a: nat, b: nat, p: char -> bool)
    requires a <= b <= |t|
    ensures (t + "\n")[a..b] == t[a..b]
    ensures All(t + "\n", a, b, p) ==> All(t, a, b, p)
  {
    var x := t + "\n";
    assert forall n :: a <= n < b ==> x[n] == t[n];
  }

  /** A blank pattern that covers a final linefeed also covers the text without it. */
  lemma BlankDropLinefeed(t: string, a: nat)
    requires a <= |t| && BlankFrom(t + "\n", a)
    ensures BlankFrom(t, a)
  {
    var x := t + "\n";
    var i :| a <= i <= |x| && All(x, a, i, IsSpace) && CommentAt(x, i);
    assert x[|t|] == '\n';
    Extended(t, a, |t|, IsSpace);
  }

  /** The same for a tail after the mnemonic. */
  lemma ParamTailDropLinefeed(t: string, j: nat, p: Option<string>)
    requires j <= |t| && ParamTail(t + "\n", j, p)
    ensures ParamTail(t, j, p)
  {
    var x := t + "\n";
    if p.None? {
      BlankDropLinefeed(t, j);
    } else {
      var q := p.value;
      var k, l :| j < k <= l <= |x| && All(x, j, k, IsSpace) && x[k..l] == q &&
        k < l && All(x, k, l, IsParamChar) && BlankFrom(x, l);
      assert IsParamChar(x[l - 1]) && x[|t|] == '\n';
      CharClasses(x[l - 1]);
      BlankDropLinefeed(t, l);
      Extended(t, j, k, IsSpace);
      Extended(t, k, l, IsParamChar);
    }
  }

  /** A mnemonic found in a text with a final linefeed ends before the linefeed. */
  lemma MnemonicBeforeLinefeed(t: string, i: nat, j: nat, m: string)
    requires i < j <= |t| + 1 && (t + "\n")[i..j] == m && All(m, 0, |m|, IsLetter)
    ensures j <= |t|
  {
    var x := t + "\n";
    assert IsLetter(m[|m| - 1]);
    assert m[|m| - 1] == x[j - 1] && x[|t|] == '\n';
  }

  /** The same for a whole code line. */
  lemma CodeDropLinefeed(t: string, m: string, p: Option<string>)
    requires CodeForm(t + "\n", m, p)
    ensures CodeForm(t, m, p)
  {
    var i, j := CodeFormParts(t + "\n", m, p);
    MnemonicNonEmpty(m);
    MnemonicBeforeLinefeed(t, i, j, m);
    ParamTailDropLinefeed(t, j, p);
    Extended(t, i, j, IsSpace);
    Extended(t, 0, i, IsSpace);
    CodeFormAt(t, i, j, m, p);
  }

  /** A line is classified blank exactly when the blank pattern matches it. */
  lemma ClassifyLineBlank(line: string)
    ensures ClassifyLine(line) == Blank <==> BlankMatch(line)
  {
    if |line| > 0 && line[|line| - 1] == '\n' {
      var t := line[..|line| - 1];
      assert line == t + "\n";
      if BlankFrom(line, 0) {
        BlankDropLinefeed(t, 0);
      }
      ClassifyBlankIff(t);
    } else {
      ClassifyBlankIff(line);
    }
  }

  /**
   * A line is classified as the code line (m, p) exactly when the blank
   * pattern does not match it and the code pattern matches it with mnemonic m
   * and parameter p.
   */
  lemma ClassifyLineCode(line: string, m: string, p: Option<string>)
    ensures ClassifyLine(line) == Code(m, p) <==> !BlankMatch(line) && CodeMatch(line, m, p)
  {
    ClassifyLineBlank(line);
    if |line| > 0 && line[|line| - 1] == '\n' {
      var t := line[..|line| - 1];
      assert line == t + "\n";
      if CodeForm(line, m, p) {
        CodeDropLinefeed(t, m, p);
      }
      ClassifyCodeIff(t, m, p);
    } else {
      ClassifyCodeIff(line, m, p);
    }
  }

  /** A line is unparsable exactly when neither pattern matches it. */
  lemma ClassifyLineUnparsable(line: string)
    ensures ClassifyLine(line) == Unparsable <==>
      !BlankMatch(line) && forall m, p :: !CodeMatch(line, m, p)
  {
    ClassifyLineBlank(line);
    var c := ClassifyLine(line);
    if c.Code? {
      ClassifyLineCode(line, c.mnemonic, c.param);
    }
    forall m, p | CodeMatch(line, m, p) && !BlankMatch(line)
      ensures c != Unparsable
    {
      ClassifyLineCode(line, m, p);
    }
  }

  /** A lower-case mnemonic fits the pattern: "push 1" is read as the mnemonic "push" with the parameter "1". */
  lemma LowerCasePush()
    ensures ClassifyLine("push 1\n") == Code("push", Some("1"))
  {
    var line := "push 1\n";
    var t := line[..|line| - 1];
    assert t == "push 1";
    assert ClassifyLine(line) == ClassifyText(t);
    MnemonicPush(t);
    ParamOne(t);
    BoundValues();
  }

  /** "push 1" starts with the mnemonic "push", with no whitespace before it. */
  lemma MnemonicPush(t: string)
    requires t == "push 1"
    ensures Skip(t, 0, IsSpace) == 0 && !CommentAt(t, 0) && Skip(t, 0, IsLetter) == 4 && t[0..4] == "push"
  {
    SkipAt(t, 0, 0, IsSpace);
    SkipAt(t, 0, 4, IsLetter);
  }

  /** After "push", the tail " 1" carries the parameter "1". */
  lemma ParamOne(t: string)
    requires t == "push 1"
    ensures ReadParamTail(t, 4) == Some(Some("1"))
  {
    SkipAt(t, 4, 5, IsSpace);
    assert !CommentAt(t, 5);
    assert !IsBlankFrom(t, 4);
    SkipAt(t, 5, 6, IsParamChar);
    SkipAt(t, 6, 6, IsSpace);
    assert IsBlankFrom(t, 6);
    assert t[5..6] == "1";
  }

  // ---------------------------------------------------------------------
  // Stripping whitespace from both ends, for diagnostics.
  // ---------------------------------------------------------------------

  /** The start of the whitespace run that ends s[a..b]. */
  function TrimEnd(s: string, a: nat, b: nat): (c: nat)
    requires a <= b <= |s|
    ensures a <= c <= b
    ensures forall n :: c <= n < b ==> IsSpace(s[n])
    ensures a < c ==> !IsSpace(s[c - 1])
    decreases b - a
  {
    if a < b && IsSpace(s[b - 1]) then TrimEnd(s, a, b - 1) else b
  }

  /** The text without its leading and trailing whitespace. */
  function Strip(s: string): (r: string)
    ensures exists i, j :: 0 <= i <= j <= |s| && r == s[i..j] && All(s, 0, i, IsSpace) && All(s, j, |s|, IsSpace)
    ensures r == [] || (!IsSpace(r[0]) && !IsSpace(r[|r| - 1]))
  {
    var i := Skip(s, 0, IsSpace);
    var j := TrimEnd(s, i, |s|);
    assert All(s, 0, i, IsSpace) && All(s, j, |s|, IsSpace);
    s[i..j]
  }
}

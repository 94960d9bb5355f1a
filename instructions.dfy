/**
 * The instruction table: every mnemonic of the assembly dialect, the fixed
 * token string it compiles to, and the kind of parameter it takes. The
 * shortest and longest mnemonic lengths are computed from the table, so that
 * the line classifier's mnemonic length range follows the table.
 */
module Instructions {

  /** One instruction: its token string and whether it takes a number or a label.
      Both flags default to false, as in the record's constructor. */
  datatype Instruction = Instruction(tokens: string, hasNumber: bool := false, hasLabel: bool := false)

  /** The table's entries, in the order in which the table lists them. */
  const Entries: seq<(string, Instruction)> := [
    ("PUSH", Instruction("  ", hasNumber := true)),
    ("DUPE", Instruction(" \n ")),
    ("SWAP", Instruction(" \n\t")),
    ("DROP", Instruction(" \n\n")),
    ("ADD", Instruction("\t   ")),
    ("SUB", Instruction("\t  \t")),
    ("MUL", Instruction("\t  \n")),
    ("DIV", Instruction("\t \t ")),
    ("MOD", Instruction("\t \t\t")),
    ("STORE", Instruction("\t\t ")),
    ("RETRV", Instruction("\t\t\t")),
    ("LABEL", Instruction("\n  ", hasLabel := true)),
    ("GOSUB", Instruction("\n \t", hasLabel := true)),
    ("JMP", Instruction("\n \n", hasLabel := true)),
    ("JEZ", Instruction("\n\t ", hasLabel := true)),
    ("JLZ", Instruction("\n\t\t", hasLabel := true)),
    ("RETURN", Instruction("\n\t\n")),
    ("END", Instruction("\n\n\n")),
    ("PUTC", Instruction("\t\n  ")),
    ("PUTN", Instruction("\t\n \t")),
    ("GETC", Instruction("\t\n\t ")),
    ("GETN", Instruction("\t\n\t\t"))
  ]

  /** A dictionary literal: each key maps to the value of its last entry. */
  function TableOf(es: seq<(string, Instruction)>): (r: map<string, Instruction>)
    ensures forall i :: 0 <= i < |es| ==> es[i].0 in r
    ensures forall m :: m in r ==> exists i :: 0 <= i < |es| && es[i].0 == m
  {
    if es == [] then map[]
    else
      var r0 := TableOf(es[..|es| - 1]);
      assert forall i :: 0 <= i < |es| - 1 ==> es[..|es| - 1][i] == es[i];
      r0[es[|es| - 1].0 := es[|es| - 1].1]
  }

  /** An entry whose key does not occur again later gives the key's value. */
  lemma {:induction false} TableOfAt(es: seq<(string, Instruction)>, i: nat)
    requires i < |es|
    requires forall j :: i < j < |es| ==> es[j].0 != es[i].0
    ensures TableOf(es)[es[i].0] == es[i].1
  {
    if i < |es| - 1 {
      var es' := es[..|es| - 1];
      assert es'[i] == es[i];
      TableOfAt(es', i);
    }
  }

  /** With distinct keys, a dictionary literal has one key per entry. */
  lemma {:induction false} TableOfSize(es: seq<(string, Instruction)>)
    requires forall i, j :: 0 <= i < j < |es| ==> es[i].0 != es[j].0
    ensures |TableOf(es)| == |es|
  {
    if es != [] {
      var es' := es[..|es| - 1];
      TableOfSize(es');
      assert es[|es| - 1].0 !in TableOf(es');
    }
  }

  /** The table itself: mnemonic to instruction. */
  const INSTRUCTIONS: map<string, Instruction> := TableOf(Entries)

  /** The smallest element of a non-empty sequence. */
  function MinOf(xs: seq<nat>): (r: nat)
    requires |xs| > 0
    ensures r in xs
    ensures forall x :: x in xs ==> r <= x
  {
    if |xs| == 1 then xs[0]
    else
      var m := MinOf(xs[1..]);
      assert xs == [xs[0]] + xs[1..];
      if xs[0] <= m then xs[0] else m
  }

  /** The largest element of a non-empty sequence. */
  function MaxOf(xs: seq<nat>): (r: nat)
    requires |xs| > 0
    ensures r in xs
    ensures forall x :: x in xs ==> x <= r
  {
    if |xs| == 1 then xs[0]
    else
      var m := MaxOf(xs[1..]);
      assert xs == [xs[0]] + xs[1..];
      if xs[0] >= m then xs[0] else m
  }

  /** The lengths of the mnemonics, in table order. */
  function MnemonicLengths(): (r: seq<nat>)
    ensures |r| == |Entries|
    ensures forall i :: 0 <= i < |Entries| ==> r[i] == |Entries[i].0|
  {
    seq(|Entries|, i requires 0 <= i < |Entries| => |Entries[i].0|)
  }

  /** Shortest and longest mnemonic, computed from the table. */
  const MIN_INSTRUCTION_LEN: nat := MinOf(MnemonicLengths())
  const MAX_INSTRUCTION_LEN: nat := MaxOf(MnemonicLengths())

  /** A key of the table is the mnemonic of some entry, and maps to that entry's instruction. */
  lemma KeyEntry(m: string) returns (i: nat)
    requires m in INSTRUCTIONS
    ensures i < |Entries| && Entries[i].0 == m && INSTRUCTIONS[m] == Entries[i].1
  {
    i :| 0 <= i < |Entries| && Entries[i].0 == m;
    MnemonicsDistinct();
    TableOfAt(Entries, i);
  }

  lemma MnemonicsDistinct()
    ensures forall i, j :: 0 <= i < j < |Entries| ==> Entries[i].0 != Entries[j].0
  {
  }

  /** Every mnemonic has between 3 and 6 letters, all of them upper-case ASCII. */
  lemma EntryMnemonics()
    ensures forall i :: 0 <= i < |Entries| ==> 3 <= |Entries[i].0| <= 6
    ensures forall i :: 0 <= i < |Entries| ==> forall c :: c in Entries[i].0 ==> 'A' <= c <= 'Z'
  {
  }

  /** The bounds are 3 and 6. */
  lemma BoundValues()
    ensures MIN_INSTRUCTION_LEN == 3 && MAX_INSTRUCTION_LEN == 6
  {
    var lengths := MnemonicLengths();
    EntryMnemonics();
    assert lengths[4] == 3 && lengths[16] == 6;
    assert forall i :: 0 <= i < |lengths| ==> 3 <= lengths[i] <= 6;
    var lo, hi := MinOf(lengths), MaxOf(lengths);
    assert lo in lengths && hi in lengths;
    assert lengths[4] in lengths && lengths[16] in lengths;
  }

  /** Every mnemonic length lies between the two bounds, both attained. */
  lemma MnemonicLengthBounds()
    ensures forall m :: m in INSTRUCTIONS ==> MIN_INSTRUCTION_LEN <= |m| <= MAX_INSTRUCTION_LEN
  {
    forall m | m in INSTRUCTIONS
      ensures MIN_INSTRUCTION_LEN <= |m| <= MAX_INSTRUCTION_LEN
    {
      var i := KeyEntry(m);
      var lengths := MnemonicLengths();
      assert lengths[i] == |m|;
      assert |m| in lengths;
    }
  }

  /** Every mnemonic is made of upper-case ASCII letters only. */
  lemma MnemonicsUpperCase()
    ensures forall m :: m in INSTRUCTIONS ==> forall c :: c in m ==> 'A' <= c <= 'Z'
  {
    forall m | m in INSTRUCTIONS
      ensures forall c :: c in m ==> 'A' <= c <= 'Z'
    {
      var i := KeyEntry(m);
      EntryMnemonics();
    }
  }

  /** The symbols of the target encoding. */
  predicate IsSymbol(c: char)
  {
    c == ' ' || c == '\t' || c == '\n'
  }

  /** No entry's token string is a prefix of the token string of another entry. */
  ghost predicate PrefixFree(es: seq<(string, Instruction)>)
  {
    forall i, j :: 0 <= i < |es| && 0 <= j < |es| && i != j ==> !(es[i].1.tokens <= es[j].1.tokens)
  }

  lemma EntryTokens()
    ensures forall i :: 0 <= i < |Entries| ==> |Entries[i].1.tokens| >= 2
    ensures forall i :: 0 <= i < |Entries| ==> forall c :: c in Entries[i].1.tokens ==> IsSymbol(c)
  {
  }

  /** The table's entries are prefix-free. */
  lemma EntryTokensPrefixFree()
    ensures PrefixFree(Entries)
  {
    var ts := TokenStrings();
    assert forall i :: 0 <= i < |Entries| ==> Entries[i].1.tokens == ts[i];
    StringsNotPrefix(ts);
  }

  /**
   * The token strings of the table, in the order of its entries, written out
   * as literals. EntryTokensPrefixFree proves them equal to the tokens of
   * Entries. The prefix proofs compare these literals directly: reading the
   * tokens out of Entries inside them costs the solver about twice as much.
   */
  function TokenStrings(): seq<string>
  {
    [
      "  ", " \n ", " \n\t", " \n\n", "\t   ", "\t  \t", "\t  \n", "\t \t ", "\t \t\t",
      "\t\t ", "\t\t\t", "\n  ", "\n \t", "\n \n", "\n\t ", "\n\t\t", "\n\t\n", "\n\n\n",
      "\t\n  ", "\t\n \t", "\t\n\t ", "\t\n\t\t"]
  }

  /** No token string of the table is a prefix of another. */
  lemma StringsNotPrefix(ts: seq<string>)
    requires ts == TokenStrings()
    ensures forall i, j :: 0 <= i < |ts| && 0 <= j < |ts| && i != j ==> !(ts[i] <= ts[j])
  {
    NotPrefixStack(ts);
    NotPrefixArithmetic(ts);
    NotPrefixHeap(ts);
    NotPrefixFlow(ts);
    NotPrefixBranch(ts);
    NotPrefixIo(ts);
  }

  /** The same for the instructions of stack manipulation (a space first). */
  lemma NotPrefixStack(ts: seq<string>)
    requires ts == TokenStrings()
    ensures forall i, j :: 0 <= i < 4 && 0 <= j < |ts| && i != j ==> !(ts[i] <= ts[j])
  {
    forall i, j | 0 <= i < 4 && 0 <= j < |ts| && i != j
      ensures !(ts[i] <= ts[j])
    {
      var a, b := ts[i], ts[j];
      assert |a| > |b| || a[0] != b[0] || a[1] != b[1] || (|a| >= 3 && a[2] != b[2]);
    }
  }

  /** The same for the instructions of arithmetic (tab, space first). */
  lemma NotPrefixArithmetic(ts: seq<string>)
    requires ts == TokenStrings()
    ensures forall i, j :: 4 <= i < 9 && 0 <= j < |ts| && i != j ==> !(ts[i] <= ts[j])
  {
    forall i, j | 4 <= i < 9 && 0 <= j < |ts| && i != j
      ensures !(ts[i] <= ts[j])
    {
      var a, b := ts[i], ts[j];
      assert |a| > |b| || a[0] != b[0] || a[1] != b[1] || (|a| >= 3 && a[2] != b[2]) || (|a| >= 4 && a[3] != b[3]);
    }
  }

  /** The same for the instructions of heap access (tab, tab first). */
  lemma NotPrefixHeap(ts: seq<string>)
    requires ts == TokenStrings()
    ensures forall i, j :: 9 <= i < 11 && 0 <= j < |ts| && i != j ==> !(ts[i] <= ts[j])
  {
    forall i, j | 9 <= i < 11 && 0 <= j < |ts| && i != j
      ensures !(ts[i] <= ts[j])
    {
      var a, b := ts[i], ts[j];
      assert |a| > |b| || a[0] != b[0] || a[1] != b[1] || (|a| >= 3 && a[2] != b[2]);
    }
  }

  /** The same for marking, calling and jumping (a linefeed, then a space). */
  lemma NotPrefixFlow(ts: seq<string>)
    requires ts == TokenStrings()
    ensures forall i, j :: 11 <= i < 14 && 0 <= j < |ts| && i != j ==> !(ts[i] <= ts[j])
  {
    forall i, j | 11 <= i < 14 && 0 <= j < |ts| && i != j
      ensures !(ts[i] <= ts[j])
    {
      var a, b := ts[i], ts[j];
      assert |a| > |b| || a[0] != b[0] || a[1] != b[1] || (|a| >= 3 && a[2] != b[2]);
    }
  }

  /** The same for conditional jumps, return and end (a linefeed, then a tab or a linefeed). */
  lemma NotPrefixBranch(ts: seq<string>)
    requires ts == TokenStrings()
    ensures forall i, j :: 14 <= i < 18 && 0 <= j < |ts| && i != j ==> !(ts[i] <= ts[j])
  {
    forall i, j | 14 <= i < 18 && 0 <= j < |ts| && i != j
      ensures !(ts[i] <= ts[j])
    {
      var a, b := ts[i], ts[j];
      assert |a| > |b| || a[0] != b[0] || a[1] != b[1] || (|a| >= 3 && a[2] != b[2]);
    }
  }

  /** The same for the instructions of input and output (tab, linefeed first). */
  lemma NotPrefixIo(ts: seq<string>)
    requires ts == TokenStrings()
    ensures forall i, j :: 18 <= i < 22 && 0 <= j < |ts| && i != j ==> !(ts[i] <= ts[j])
  {
    forall i, j | 18 <= i < 22 && 0 <= j < |ts| && i != j
      ensures !(ts[i] <= ts[j])
    {
      var a, b := ts[i], ts[j];
      assert |a| > |b| || a[0] != b[0] || a[1] != b[1] || (|a| >= 3 && a[2] != b[2]) || (|a| >= 4 && a[3] != b[3]);
    }
  }

  /** Every token string is non-empty and made of space, tab and linefeed only. */
  lemma TokensWellFormed()
    ensures forall m :: m in INSTRUCTIONS ==> |INSTRUCTIONS[m].tokens| > 0
    ensures forall m :: m in INSTRUCTIONS ==> forall c :: c in INSTRUCTIONS[m].tokens ==> IsSymbol(c)
  {
    forall m | m in INSTRUCTIONS
      ensures |INSTRUCTIONS[m].tokens| > 0 && forall c :: c in INSTRUCTIONS[m].tokens ==> IsSymbol(c)
    {
      var i := KeyEntry(m);
      EntryTokens();
    }
  }

  /** No instruction's token string is a prefix of another's; in particular all of them differ. */
  lemma TokensPrefixFree()
    ensures forall a, b :: a in INSTRUCTIONS && b in INSTRUCTIONS && a != b ==>
      !(INSTRUCTIONS[a].tokens <= INSTRUCTIONS[b].tokens)
    ensures forall a, b :: a in INSTRUCTIONS && b in INSTRUCTIONS && a != b ==>
      INSTRUCTIONS[a].tokens != INSTRUCTIONS[b].tokens
    ensures |INSTRUCTIONS| == 22
  {
    forall a, b | a in INSTRUCTIONS && b in INSTRUCTIONS && a != b
      ensures !(INSTRUCTIONS[a].tokens <= INSTRUCTIONS[b].tokens)
    {
      var i := KeyEntry(a);
      var j := KeyEntry(b);
      EntryTokensPrefixFree();
    }
    MnemonicsDistinct();
    TableOfSize(Entries);
  }

  lemma EntryNumberKind()
    ensures forall i :: 0 <= i < |Entries| ==> (Entries[i].1.hasNumber <==> Entries[i].0 == "PUSH")
  {
  }

  lemma EntryLabelKind()
    ensures forall i :: 0 <= i < |Entries| ==>
      (Entries[i].1.hasLabel <==> Entries[i].0 in {"LABEL", "GOSUB", "JMP", "JEZ", "JLZ"})
  {
  }

  /** Only PUSH takes a number; exactly LABEL, GOSUB, JMP, JEZ and JLZ take a label; no
      instruction takes both. */
  lemma ParameterKinds()
    ensures forall m :: m in INSTRUCTIONS ==> (INSTRUCTIONS[m].hasNumber <==> m == "PUSH")
    ensures forall m :: m in INSTRUCTIONS ==>
      (INSTRUCTIONS[m].hasLabel <==> m in {"LABEL", "GOSUB", "JMP", "JEZ", "JLZ"})
    ensures forall m :: m in INSTRUCTIONS ==> !(INSTRUCTIONS[m].hasNumber && INSTRUCTIONS[m].hasLabel)
  {
    forall m | m in INSTRUCTIONS
      ensures INSTRUCTIONS[m].hasNumber <==> m == "PUSH"
      ensures INSTRUCTIONS[m].hasLabel <==> m in {"LABEL", "GOSUB", "JMP", "JEZ", "JLZ"}
    {
      var i := KeyEntry(m);
      EntryNumberKind();
      EntryLabelKind();
    }
  }

  /** A record built with the token string alone takes no parameter. */
  lemma FlagsDefaultToFalse(tokens: string)
    ensures !Instruction(tokens).hasNumber && !Instruction(tokens).hasLabel
  {
  }
}

/**
 * The translator's driver. It reads the source line by line (numbered from
 * 1): blank lines are skipped; a line that fits no pattern, an unknown
 * mnemonic, a PUSH parameter that is not an integer, and a parameter given
 * to an instruction that takes none are each reported and the line is
 * skipped; every other line writes its instruction's tokens followed by the
 * encoded number or the label. The exit status is 1 when anything was
 * reported, 0 otherwise. A PUSH without a parameter aborts the run (the
 * number conversion is handed no string at all).
 *
 * Step and Run state the translation as a fold over the lines; Compile is
 * the loop itself, with a label allocator object, proved to produce what Run
 * describes.
 */
module Compiler {
  import opened Wrappers
  import opened Instructions
  import opened Numbers
  import opened Labels
  import opened Classifier
  import opened IntLiteral

  /** One report on the error stream, with the line number it concerns. */
  datatype Diagnostic =
    | UnparsableLine(lineno: nat, text: string)
    | UnrecognizedInstruction(lineno: nat, mnemonic: string)
    | UnparsableNumber(lineno: nat, param: string)
    | UnexpectedParameter(lineno: nat, param: string, mnemonic: string)

  /**
   * The translator's state after some lines: the label cache and its cursor,
   * the output written so far, the error flag, the reports so far, and the
   * number of the line that aborted the run, if one did.
   */
  datatype State = State(
    labels: map<Option<string>, string>,
    next: nat,
    out: string,
    errors: bool,
    diags: seq<Diagnostic>,
    crashed: Option<nat>)

  const Start := State(map[], 0, "", false, [], None)

  /** How a run ends: with an exit status, or aborted at a line. */
  datatype Outcome = Exited(status: nat) | Aborted(lineno: nat)

  function Report(st: State, d: Diagnostic): State
  {
    st.(errors := true, diags := st.diags + [d])
  }

  /** Translating line number lineno. */
  function Step(st: State, lineno: nat, line: string): State
  {
    if st.crashed.Some? then st else StepLine(st, lineno, ClassifyLine(line), Strip(line))
  }

  /** Translating line number lineno, classified as c, whose text without surrounding whitespace is text. */
  function StepLine(st: State, lineno: nat, c: Line, text: string): State
  {
    match c
    case Blank => st
    case Unparsable => Report(st, UnparsableLine(lineno, text))
    case Code(m, p) =>
      if m !in INSTRUCTIONS then Report(st, UnrecognizedInstruction(lineno, m))
      else StepInstruction(st, lineno, m, p, INSTRUCTIONS[m])
  }

  /** Translating a known instruction ins, written m on line lineno with parameter p. */
  function StepInstruction(st: State, lineno: nat, m: string, p: Option<string>, ins: Instruction): State
  {
    if ins.hasNumber then
      match p
      case None => st.(crashed := Some(lineno))
      case Some(q) =>
        match ParseInt(q)
        case None => Report(st, UnparsableNumber(lineno, q))
        case Some(n) => st.(out := st.out + ins.tokens + IntToWhitespace(n))
    else if ins.hasLabel then
      var r := Allocate(st.labels, st.next, p);
      st.(labels := r.1, next := r.2, out := st.out + ins.tokens + r.0)
    else if p.Some? then Report(st, UnexpectedParameter(lineno, p.value, m))
    else st.(out := st.out + ins.tokens)
  }

  /** The state after translating all of lines, the last of which has number |lines|. */
  function Run(lines: seq<string>): State
  {
    if lines == [] then Start
    else Step(Run(lines[..|lines| - 1]), |lines|, lines[|lines| - 1])
  }

  /** How the run over lines ends. */
  function OutcomeOf(st: State): Outcome
  {
    match st.crashed
    case Some(n) => Aborted(n)
    case None => Exited(if st.errors then 1 else 0)
  }

  /** An aborted run does nothing more. */
  lemma {:induction false} AbortIsFinal(lines: seq<string>, k: nat)
    requires k <= |lines| && Run(lines[..k]).crashed.Some?
    ensures Run(lines) == Run(lines[..k])
  {
    if k < |lines| {
      var init := lines[..|lines| - 1];
      assert init[..k] == lines[..k];
      AbortIsFinal(init, k);
    } else {
      assert lines[..k] == lines;
    }
  }

  // ---------------------------------------------------------------------
  // What one line does to the state.
  // ---------------------------------------------------------------------

  /** A line that aborts the run: the PUSH mnemonic with no parameter. */
  ghost predicate AbortsRun(line: string)
  {
    ClassifyLine(line) == Code("PUSH", None)
  }

  /** The label name a line looks up in state st, if it looks one up. */
  ghost function LabelUse(st: State, line: string): Option<Option<string>>
  {
    if st.crashed.None? then LabelUseOf(ClassifyLine(line)) else None
  }

  /** The label name a line classified as c looks up, if it looks one up. */
  ghost function LabelUseOf(c: Line): Option<Option<string>>
  {
    if c.Code? && c.mnemonic in INSTRUCTIONS && !INSTRUCTIONS[c.mnemonic].hasNumber && INSTRUCTIONS[c.mnemonic].hasLabel
    then Some(c.param)
    else None
  }

  /** PUSH is the one instruction that takes a number, and it takes no label. */
  lemma PushTakesNumber(m: string)
    ensures m in INSTRUCTIONS && INSTRUCTIONS[m].hasNumber <==> m == "PUSH"
  {
    assert Entries[0].0 == "PUSH";
    ParameterKinds();
  }

  /**
   * What a report may do to the state: nothing, or set the error flag and add
   * one report about lineno, in which case nothing else changes: no output,
   * no label drawn, no abort.
   */
  ghost predicate ReportsAtMostOnce(st: State, st': State, lineno: nat)
  {
    || (st'.errors == st.errors && st'.diags == st.diags)
    || (&& st'.errors && |st'.diags| == |st.diags| + 1 && st'.diags[..|st.diags|] == st.diags
        && st'.diags[|st.diags|].lineno == lineno
        && st'.out == st.out && st'.labels == st.labels && st'.next == st.next && st'.crashed == st.crashed)
  }

  /**
   * A line either leaves the reports alone or adds one report, about itself;
   * the error flag, once set, stays set.
   */
  lemma StepReports(st: State, lineno: nat, line: string)
    ensures ReportsAtMostOnce(st, Step(st, lineno, line), lineno)
  {
    if st.crashed.None? {
      var c := ClassifyLine(line);
      if c.Code? && c.mnemonic in INSTRUCTIONS {
        InstructionReports(st, lineno, c.mnemonic, c.param, INSTRUCTIONS[c.mnemonic]);
      }
      StepLineReports(st, lineno, c, Strip(line));
    }
  }

  lemma StepLineReports(st: State, lineno: nat, c: Line, text: string)
    requires c.Code? && c.mnemonic in INSTRUCTIONS ==>
      ReportsAtMostOnce(st, StepInstruction(st, lineno, c.mnemonic, c.param, INSTRUCTIONS[c.mnemonic]), lineno)
    ensures ReportsAtMostOnce(st, StepLine(st, lineno, c, text), lineno)
  {
    var st' := StepLine(st, lineno, c, text);
    if !c.Code? || c.mnemonic !in INSTRUCTIONS {
      assert st'.diags[..|st.diags|] == st.diags;
    }
  }

  lemma InstructionReports(st: State, lineno: nat, m: string, p: Option<string>, ins: Instruction)
    ensures ReportsAtMostOnce(st, StepInstruction(st, lineno, m, p, ins), lineno)
  {
    var st' := StepInstruction(st, lineno, m, p, ins);
    assert st'.diags[..|st.diags|] == st.diags;
  }

  /** A run that has not aborted is aborted by exactly the lines that abort a run, at their number. */
  lemma StepAborts(st: State, lineno: nat, line: string)
    ensures Step(st, lineno, line).crashed ==
      if st.crashed.Some? then st.crashed else if AbortsRun(line) then Some(lineno) else None
  {
    if st.crashed.None? {
      var c := ClassifyLine(line);
      if c.Code? && c.mnemonic in INSTRUCTIONS {
        PushTakesNumber(c.mnemonic);
        InstructionAborts(st, lineno, c.mnemonic, c.param, INSTRUCTIONS[c.mnemonic]);
      }
      StepLineAborts(st, lineno, c, Strip(line));
    }
  }

  lemma StepLineAborts(st: State, lineno: nat, c: Line, text: string)
    requires st.crashed.None?
    requires c.Code? && c.mnemonic in INSTRUCTIONS ==>
      StepInstruction(st, lineno, c.mnemonic, c.param, INSTRUCTIONS[c.mnemonic]).crashed ==
        if c == Code("PUSH", None) then Some(lineno) else None
    ensures StepLine(st, lineno, c, text).crashed == if c == Code("PUSH", None) then Some(lineno) else None
  {
    if c.Code? && c.mnemonic !in INSTRUCTIONS {
      assert c.mnemonic != "PUSH" by {
        PushTakesNumber(c.mnemonic);
      }
    }
  }

  lemma InstructionAborts(st: State, lineno: nat, m: string, p: Option<string>, ins: Instruction)
    requires st.crashed.None?
    ensures StepInstruction(st, lineno, m, p, ins).crashed == if ins.hasNumber && p.None? then Some(lineno) else None
  {
  }

  /** A line keeps every stored label, and stores a new one only for a name it looks up. */
  lemma StepKeepsLabels(st: State, lineno: nat, line: string)
    ensures var st' := Step(st, lineno, line);
      && (forall name :: name in st.labels ==> name in st'.labels && st'.labels[name] == st.labels[name])
      && (LabelUse(st, line).None? ==> st'.labels == st.labels && st'.next == st.next)
      && (LabelUse(st, line).Some? ==>
            st'.labels == Allocate(st.labels, st.next, LabelUse(st, line).value).1 &&
            st'.next == Allocate(st.labels, st.next, LabelUse(st, line).value).2)
  {
    if st.crashed.None? {
      LineLabels(st, lineno, ClassifyLine(line), Strip(line));
    }
  }

  lemma LineLabels(st: State, lineno: nat, c: Line, text: string)
    ensures var st' := StepLine(st, lineno, c, text);
      && (forall name :: name in st.labels ==> name in st'.labels && st'.labels[name] == st.labels[name])
      && (LabelUseOf(c).None? ==> st'.labels == st.labels && st'.next == st.next)
      && (LabelUseOf(c).Some? ==>
            st'.labels == Allocate(st.labels, st.next, LabelUseOf(c).value).1 &&
            st'.next == Allocate(st.labels, st.next, LabelUseOf(c).value).2)
  {
    if c.Code? && c.mnemonic in INSTRUCTIONS {
      InstructionLabels(st, lineno, c.mnemonic, c.param, INSTRUCTIONS[c.mnemonic]);
    }
  }

  lemma InstructionLabels(st: State, lineno: nat, m: string, p: Option<string>, ins: Instruction)
    ensures var st' := StepInstruction(st, lineno, m, p, ins);
      && (forall name :: name in st.labels ==> name in st'.labels && st'.labels[name] == st.labels[name])
      && (!ins.hasNumber && ins.hasLabel ==>
            st'.labels == Allocate(st.labels, st.next, p).1 && st'.next == Allocate(st.labels, st.next, p).2)
      && (ins.hasNumber || !ins.hasLabel ==> st'.labels == st.labels && st'.next == st.next)
  {
  }

  /** A line only appends to the output. */
  lemma StepAppends(st: State, lineno: nat, line: string)
    ensures st.out <= Step(st, lineno, line).out
  {
    if st.crashed.None? {
      var c := ClassifyLine(line);
      if c.Code? && c.mnemonic in INSTRUCTIONS {
        InstructionAppends(st, lineno, c.mnemonic, c.param, INSTRUCTIONS[c.mnemonic]);
      }
    }
  }

  lemma InstructionAppends(st: State, lineno: nat, m: string, p: Option<string>, ins: Instruction)
    ensures st.out <= StepInstruction(st, lineno, m, p, ins).out
  {
  }

  /** A line that looks a name up writes its instruction's tokens and the label the name then holds. */
  lemma StepWritesLabel(st: State, lineno: nat, line: string)
    requires LabelUse(st, line).Some?
    ensures var st' := Step(st, lineno, line);
      var name := LabelUse(st, line).value;
      && name in st'.labels
      && st'.out == st.out + INSTRUCTIONS[ClassifyLine(line).mnemonic].tokens + st'.labels[name]
  {
    var c := ClassifyLine(line);
    InstructionWritesLabel(st, lineno, c.mnemonic, c.param, INSTRUCTIONS[c.mnemonic]);
  }

  lemma InstructionWritesLabel(st: State, lineno: nat, m: string, p: Option<string>, ins: Instruction)
    requires !ins.hasNumber && ins.hasLabel
    ensures var st' := StepInstruction(st, lineno, m, p, ins);
      p in st'.labels && st'.out == st.out + ins.tokens + st'.labels[p]
  {
  }

  /** The table entry of PUSH: two spaces, and it takes a number. */
  lemma PushEntry()
    ensures "PUSH" in INSTRUCTIONS && INSTRUCTIONS["PUSH"] == Instruction("  ", hasNumber := true)
  {
    MnemonicsDistinct();
    TableOfAt(Entries, 0);
  }

  /** Reading a line goes through its classification and its stripped text. */
  lemma StepClassified(st: State, lineno: nat, line: string)
    requires st.crashed.None?
    ensures Step(st, lineno, line) == StepLine(st, lineno, ClassifyLine(line), Strip(line))
  {
  }

  /** A blank line changes nothing. */
  lemma StepSkipsBlank(st: State, lineno: nat, line: string)
    requires ClassifyLine(line) == Blank
    ensures Step(st, lineno, line) == st
  {
    if st.crashed.None? {
      StepClassified(st, lineno, line);
    }
  }

  /**
   * A PUSH line whose parameter int() reads as n writes the PUSH tokens and
   * the encoding of n, and changes nothing else.
   */
  lemma StepWritesNumber(st: State, lineno: nat, line: string, q: string, n: int)
    requires st.crashed.None? && ClassifyLine(line) == Code("PUSH", Some(q)) && ParseInt(q) == Some(n)
    ensures Step(st, lineno, line) == st.(out := st.out + "  " + IntToWhitespace(n))
  {
    PushEntry();
    StepClassified(st, lineno, line);
    LineWritesNumber(st, lineno, Code("PUSH", Some(q)), Strip(line), q, n);
  }

  lemma LineWritesNumber(st: State, lineno: nat, c: Line, text: string, q: string, n: int)
    requires c == Code("PUSH", Some(q)) && ParseInt(q) == Some(n)
    requires "PUSH" in INSTRUCTIONS && INSTRUCTIONS["PUSH"] == Instruction("  ", hasNumber := true)
    ensures StepLine(st, lineno, c, text) == st.(out := st.out + "  " + IntToWhitespace(n))
  {
  }

  /**
   * A line with an instruction that takes no parameter, given none, writes
   * the instruction's tokens and changes nothing else.
   */
  lemma StepWritesPlain(st: State, lineno: nat, line: string, m: string)
    requires st.crashed.None? && ClassifyLine(line) == Code(m, None)
    requires m in INSTRUCTIONS && !INSTRUCTIONS[m].hasNumber && !INSTRUCTIONS[m].hasLabel
    ensures Step(st, lineno, line) == st.(out := st.out + INSTRUCTIONS[m].tokens)
  {
    StepClassified(st, lineno, line);
    LineWritesPlain(st, lineno, Code(m, None), Strip(line), m, INSTRUCTIONS[m]);
  }

  lemma LineWritesPlain(st: State, lineno: nat, c: Line, text: string, m: string, ins: Instruction)
    requires c == Code(m, None) && m in INSTRUCTIONS && INSTRUCTIONS[m] == ins && !ins.hasNumber && !ins.hasLabel
    ensures StepLine(st, lineno, c, text) == st.(out := st.out + ins.tokens)
  {
  }

  /** A PUSH line without a parameter marks the run aborted at that line and changes nothing else. */
  lemma StepAbortsAt(st: State, lineno: nat, line: string)
    requires st.crashed.None? && ClassifyLine(line) == Code("PUSH", None)
    ensures Step(st, lineno, line) == st.(crashed := Some(lineno))
  {
    PushEntry();
    StepClassified(st, lineno, line);
    LineAbortsAt(st, lineno, Code("PUSH", None), Strip(line));
  }

  lemma LineAbortsAt(st: State, lineno: nat, c: Line, text: string)
    requires c == Code("PUSH", None)
    requires "PUSH" in INSTRUCTIONS && INSTRUCTIONS["PUSH"] == Instruction("  ", hasNumber := true)
    ensures StepLine(st, lineno, c, text) == st.(crashed := Some(lineno))
  {
  }

  /**
   * A mnemonic with a lower-case letter fits the line pattern but is no key
   * of the table: the line is reported as an unrecognized instruction and
   * writes nothing.
   */
  lemma StepRejectsLowerCase(st: State, lineno: nat, line: string, m: string, p: Option<string>)
    requires st.crashed.None? && ClassifyLine(line) == Code(m, p)
    requires exists i :: 0 <= i < |m| && 'a' <= m[i] <= 'z'
    ensures Step(st, lineno, line) == Report(st, UnrecognizedInstruction(lineno, m))
  {
    assert m !in INSTRUCTIONS by {
      var i :| 0 <= i < |m| && 'a' <= m[i] <= 'z';
      assert m[i] in m;
      MnemonicsUpperCase();
    }
    StepClassified(st, lineno, line);
  }

  // ---------------------------------------------------------------------
  // What a whole run does.
  // ---------------------------------------------------------------------

  /** The error flag of a run is set exactly when something was reported. */
  lemma {:induction false} ErrorsIffReported(lines: seq<string>)
    ensures Run(lines).errors <==> |Run(lines).diags| > 0
  {
    if lines != [] {
      var init := lines[..|lines| - 1];
      ErrorsIffReported(init);
      StepReports(Run(init), |lines|, lines[|lines| - 1]);
    }
  }

  /** Reports about lines 1 to n, in increasing line order. */
  ghost predicate ReportsUpTo(d: seq<Diagnostic>, n: nat)
  {
    && (forall i :: 0 <= i < |d| ==> 1 <= d[i].lineno <= n)
    && (forall i, j :: 0 <= i < j < |d| ==> d[i].lineno < d[j].lineno)
  }

  /** Every report is about a line of the input, and the reports come in line order, at most one per line. */
  lemma {:induction false} ReportsInOrder(lines: seq<string>)
    ensures ReportsUpTo(Run(lines).diags, |lines|)
  {
    if lines != [] {
      var init := lines[..|lines| - 1];
      var st := Run(init);
      ReportsInOrder(init);
      StepReports(st, |lines|, lines[|lines| - 1]);
      ReportAppended(st, Run(lines), |lines|);
    }
  }

  /** A step that reports at most once, about line n, extends reports about lines before n. */
  lemma ReportAppended(st: State, st': State, n: nat)
    requires n >= 1 && ReportsUpTo(st.diags, n - 1) && ReportsAtMostOnce(st, st', n)
    ensures ReportsUpTo(st'.diags, n)
  {
    var d, d' := st.diags, st'.diags;
    if d' != d {
      forall i | 0 <= i < |d|
        ensures d'[i] == d[i]
      {
        assert d'[..|d|][i] == d[i];
      }
    }
  }

  /** c is the position (from 1) of the first true flag, or None when no flag is true. */
  ghost predicate FirstAt(flags: seq<bool>, c: Option<nat>)
  {
    && (c.None? <==> forall i :: 0 <= i < |flags| ==> !flags[i])
    && (c.Some? ==> 1 <= c.value <= |flags| && flags[c.value - 1] && forall i :: 0 <= i < c.value - 1 ==> !flags[i])
  }

  /** For each line, whether it aborts a run. */
  ghost function AbortFlags(lines: seq<string>): (r: seq<bool>)
    ensures |r| == |lines|
  {
    if lines == [] then [] else AbortFlags(lines[..|lines| - 1]) + [AbortsRun(lines[|lines| - 1])]
  }

  /** The i-th flag tells whether line i + 1 aborts a run. */
  lemma {:induction false} AbortFlagsAt(lines: seq<string>, i: nat)
    requires i < |lines|
    ensures AbortFlags(lines)[i] == AbortsRun(lines[i])
  {
    var init := lines[..|lines| - 1];
    if i < |init| {
      AbortFlagsAt(init, i);
    }
  }

  /** The run aborts at the first line that aborts a run (see AbortFlagsAt), and never if no line does. */
  lemma {:induction false} RunAbortFlags(lines: seq<string>)
    ensures FirstAt(AbortFlags(lines), Run(lines).crashed)
  {
    if lines != [] {
      var init, last := lines[..|lines| - 1], lines[|lines| - 1];
      RunAbortFlags(init);
      StepAborts(Run(init), |lines|, last);
      FirstExtended(AbortFlags(init), AbortsRun(last), Run(init).crashed, Run(lines).crashed);
    }
  }

  /** One more flag: an earlier true flag stands, otherwise the new one is first if it is true. */
  lemma FirstExtended(flags: seq<bool>, b: bool, c: Option<nat>, c': Option<nat>)
    requires FirstAt(flags, c)
    requires c' == if c.Some? then c else if b then Some(|flags| + 1) else None
    ensures FirstAt(flags + [b], c')
  {
    var flags' := flags + [b];
    assert forall i :: 0 <= i < |flags| ==> flags'[i] == flags[i];
    assert flags'[|flags|] == b;
  }

  /** Unless a line aborts the run, the exit status is 1 when something was reported and 0 otherwise. */
  lemma ExitStatus(lines: seq<string>)
    ensures (forall i :: 0 <= i < |lines| ==> !AbortFlags(lines)[i]) ==>
      OutcomeOf(Run(lines)) == Exited(if |Run(lines).diags| > 0 then 1 else 0)
  {
    RunAbortFlags(lines);
    ErrorsIffReported(lines);
  }

  /** The output only grows: what the first k lines write begins the whole output. */
  lemma {:induction false} OutputGrows(lines: seq<string>, k: nat)
    requires k <= |lines|
    ensures Run(lines[..k]).out <= Run(lines).out
  {
    if k < |lines| {
      var init := lines[..|lines| - 1];
      assert init[..k] == lines[..k];
      OutputGrows(init, k);
      StepAppends(Run(init), |lines|, lines[|lines| - 1]);
    } else {
      assert lines[..k] == lines;
    }
  }

  /** The label names looked up, in the order of their first lookup. */
  ghost function FirstUses(lines: seq<string>): seq<Option<string>>
  {
    if lines == [] then []
    else
      var init := lines[..|lines| - 1];
      var u := LabelUse(Run(init), lines[|lines| - 1]);
      FirstUses(init) + (if u.Some? && u.value !in Run(init).labels then [u.value] else [])
  }

  /**
   * After a run the k-th label name in the order of first use holds the k-th
   * label of the enumeration, the cursor counts those names, and the cache
   * holds no other name.
   */
  lemma {:induction false} RunCache(lines: seq<string>)
    ensures CacheInv(Run(lines).labels, Run(lines).next, FirstUses(lines))
  {
    if lines == [] {
      assert Drawn(0) == [];
    } else {
      var init := lines[..|lines| - 1];
      var st := Run(init);
      var u := LabelUse(st, lines[|lines| - 1]);
      RunCache(init);
      StepKeepsLabels(st, |lines|, lines[|lines| - 1]);
      if u.Some? {
        AllocateKeepsInv(st.labels, st.next, FirstUses(init), u.value);
      }
    }
  }

  /** Distinct label names are given distinct labels. */
  lemma LabelsDistinctNames(lines: seq<string>)
    ensures forall a, b :: a in Run(lines).labels && b in Run(lines).labels && a != b ==>
      Run(lines).labels[a] != Run(lines).labels[b]
  {
    RunCache(lines);
    CacheInjective(Run(lines).labels, Run(lines).next, FirstUses(lines));
  }

  /** A stored label never changes: the label a name holds after k lines it still holds at the end. */
  lemma {:induction false} LabelsKept(lines: seq<string>, k: nat)
    requires k <= |lines|
    ensures forall name :: name in Run(lines[..k]).labels ==>
      name in Run(lines).labels && Run(lines).labels[name] == Run(lines[..k]).labels[name]
  {
    if k < |lines| {
      var init := lines[..|lines| - 1];
      assert init[..k] == lines[..k];
      LabelsKept(init, k);
      StepKeepsLabels(Run(init), |lines|, lines[|lines| - 1]);
    } else {
      assert lines[..k] == lines;
    }
  }

  /**
   * Every reference to a label name, before or after the line that marks it,
   * is written with the label the name holds at the end of the run.
   */
  lemma LabelWritten(lines: seq<string>, k: nat)
    requires 1 <= k <= |lines| && LabelUse(Run(lines[..k - 1]), lines[k - 1]).Some?
    ensures var name := LabelUse(Run(lines[..k - 1]), lines[k - 1]).value;
      && name in Run(lines).labels
      && Run(lines[..k]).out ==
           Run(lines[..k - 1]).out + INSTRUCTIONS[ClassifyLine(lines[k - 1]).mnemonic].tokens + Run(lines).labels[name]
  {
    var st, line := Run(lines[..k - 1]), lines[k - 1];
    RunLast(lines, k);
    StepWritesLabel(st, k, line);
    LabelsKept(lines, k);
    LabelCarried(Run(lines[..k]), Run(lines), LabelUse(st, line).value);
  }

  /** The run over the first k lines is one step after the run over the first k - 1. */
  lemma RunLast(lines: seq<string>, k: nat)
    requires 1 <= k <= |lines|
    ensures Run(lines[..k]) == Step(Run(lines[..k - 1]), k, lines[k - 1])
  {
    var pre := lines[..k];
    assert pre[..k - 1] == lines[..k - 1];
  }

  /** A label kept from a state to a later one holds the same value in both. */
  lemma LabelCarried(st: State, fin: State, name: Option<string>)
    requires name in st.labels
    requires forall n :: n in st.labels ==> n in fin.labels && fin.labels[n] == st.labels[n]
    ensures name in fin.labels && fin.labels[name] == st.labels[name]
  {
  }

  /**
   * The translation loop: reads the lines in order, keeps the labels in an
   * allocator object, and stops at a line that aborts the run.
   */
  method Compile(lines: seq<string>) returns (output: string, diagnostics: seq<Diagnostic>, outcome: Outcome)
    ensures output == Run(lines).out
    ensures diagnostics == Run(lines).diags
    ensures outcome == OutcomeOf(Run(lines))
  {
    var labels := new LabelAllocator();
    var errors := false;
    output, diagnostics := "", [];
    var i := 0;
    while i < |lines|
      invariant 0 <= i <= |lines|
      invariant labels.Valid()
      invariant Run(lines[..i]) == State(labels.labels, labels.next, output, errors, diagnostics, None)
    {
      ghost var st := Run(lines[..i]);
      assert lines[..i + 1][..i] == lines[..i];
      assert Run(lines[..i + 1]) == Step(st, i + 1, lines[i]);
      var aborted;
      output, errors, diagnostics, aborted := TranslateLine(labels, i + 1, lines[i], output, errors, diagnostics);
      if aborted {
        AbortIsFinal(lines, i + 1);
        outcome := Aborted(i + 1);
        return;
      }
      i := i + 1;
    }
    assert lines[..i] == lines;
    outcome := Exited(if errors then 1 else 0);
  }

  /**
   * The loop body for one line: reports it, writes its translation, or
   * signals that it aborts the run. Its effect is one Step.
   */
  method TranslateLine(labels: LabelAllocator, lineno: nat, line: string,
                       output: string, errors: bool, diagnostics: seq<Diagnostic>)
    returns (output': string, errors': bool, diagnostics': seq<Diagnostic>, aborted: bool)
    requires labels.Valid()
    modifies labels
    ensures labels.Valid()
    ensures Step(State(old(labels.labels), old(labels.next), output, errors, diagnostics, None), lineno, line)
      == State(labels.labels, labels.next, output', errors', diagnostics', if aborted then Some(lineno) else None)
  {
    output', errors', diagnostics', aborted :=
      TranslateClassified(labels, lineno, ClassifyLine(line), Strip(line), output, errors, diagnostics);
  }

  /** The loop body once the line is classified: its effect is one StepLine. */
  method TranslateClassified(labels: LabelAllocator, lineno: nat, c: Line, text: string,
                             output: string, errors: bool, diagnostics: seq<Diagnostic>)
    returns (output': string, errors': bool, diagnostics': seq<Diagnostic>, aborted: bool)
    requires labels.Valid()
    modifies labels
    ensures labels.Valid()
    ensures StepLine(State(old(labels.labels), old(labels.next), output, errors, diagnostics, None), lineno, c, text)
      == State(labels.labels, labels.next, output', errors', diagnostics', if aborted then Some(lineno) else None)
  {
    output', errors', diagnostics', aborted := output, errors, diagnostics, false;
    match c {
      case Blank =>
      case Unparsable =>
        diagnostics' := diagnostics + [UnparsableLine(lineno, text)];
        errors' := true;
      case Code(m, p) =>
        if m !in INSTRUCTIONS {
          diagnostics' := diagnostics + [UnrecognizedInstruction(lineno, m)];
          errors' := true;
        } else {
          output', errors', diagnostics', aborted :=
            TranslateInstruction(labels, lineno, m, p, INSTRUCTIONS[m], output, errors, diagnostics);
        }
    }
  }

  /** The loop body once the instruction is known: its effect is one StepInstruction. */
  method TranslateInstruction(labels: LabelAllocator, lineno: nat, m: string, p: Option<string>, ins: Instruction,
                              output: string, errors: bool, diagnostics: seq<Diagnostic>)
    returns (output': string, errors': bool, diagnostics': seq<Diagnostic>, aborted: bool)
    requires labels.Valid()
    modifies labels
    ensures labels.Valid()
    ensures StepInstruction(State(old(labels.labels), old(labels.next), output, errors, diagnostics, None), lineno, m, p, ins)
      == State(labels.labels, labels.next, output', errors', diagnostics', if aborted then Some(lineno) else None)
  {
    output', errors', diagnostics', aborted := output, errors, diagnostics, false;
    if ins.hasNumber {
      if p.None? {
        aborted := true;
      } else {
        var n := ParseInt(p.value);
        if n.None? {
          diagnostics' := diagnostics + [UnparsableNumber(lineno, p.value)];
          errors' := true;
        } else {
          output' := output + ins.tokens + IntToWhitespace(n.value);
        }
      }
    } else if ins.hasLabel {
      var drawn := labels.Get(p);
      output' := output + ins.tokens + drawn;
    } else if p.Some? {
      diagnostics' := diagnostics + [UnexpectedParameter(lineno, p.value, m)];
      errors' := true;
    } else {
      output' := output + ins.tokens;
    }
  }
}

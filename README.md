# Whitespace assembler, modelled in Dafny

This is a model of a small assembler. It reads an assembly language with one
instruction per line: mnemonics such as `PUSH`, `ADD`, `LABEL` and `JMP`,
optional parameters, and `#` comments. It translates the source into the
esoteric language Whitespace, whose programs consist only of spaces, tabs and
linefeeds. The model covers the two files that make up the program:

- the instruction table (`instructions.py`): 22 mnemonics, each with its
  token string and whether it takes a number or a label;
- the translator (`compile.py`), which has these parts:
  - the two line patterns;
  - the signed binary number encoder;
  - the label generator, which yields every non-empty string of spaces and
    tabs followed by a linefeed, shortest first;
  - the label cache, a dictionary that draws a fresh label on a name's first
    use;
  - the line loop, with its four diagnostics and the exit status.

The modules follow the program's structure:

| module | file | content |
|---|---|---|
| `Wrappers` | `wrappers.dfy` | `Option` |
| `Instructions` | `instructions.dfy` | the table as a list of entries, the dictionary built from it, the computed shortest and longest mnemonic lengths |
| `Numbers` | `numbers.dfy` | `IntToWhitespace` and `PosIntToWhitespace`, plus a decoder, defined only to prove that the encoding is lossless |
| `IntLiteral` | `intliteral.dfy` | Python's `int()` on a parameter string, with its inverse `str()` |
| `Labels` | `labels.dfy` | the closed form `NthLabel` of the generator, the generator as written (`itertools.product` blocks) proved equal to it, the cache as a function `Allocate` with its invariant, and the cache as a class `LabelAllocator` |
| `Classifier` | `classifier.dfy` | a scanner that classifies a line as blank, code or unparsable; the two regular expressions stated declaratively; proofs that the scanner agrees with them in both directions |
| `Compiler` | `compiler.dfy` | `Step` and `Run`, the translation as a fold over the lines; `Compile`, the imperative loop with an allocator object, proved to compute what `Run` describes; lemmas about whole runs |

Behaviour kept from the code:

- A `PUSH` with no parameter makes `int(None)` raise a `TypeError`, which
  nothing catches. The run stops at that line, and the model's outcome is
  `Aborted(lineno)`.
- A label instruction with no parameter looks up the name `None`. Names are
  therefore `Option<string>`: `None` gets a label of its own, shared by every
  parameterless label instruction.
- A parameter given to an instruction that takes none is reported as an
  unexpected parameter. A number that `int()` rejects is reported as an
  unparsable number. In both cases the line writes nothing.
- The exit status is 1 when any line was reported, and 0 otherwise.

## Model

| member | source | states |
|---|---|---|
| Instructions.FlagsDefaultToFalse | instructions.py:1-5 | an instruction built from tokens alone takes neither a number nor a label |
| Instructions.TableOfAt | instructions.py:8-29 | in a dictionary literal, a key whose entry is not repeated later maps to that entry's value |
| Instructions.TableOfSize | instructions.py:8-29 | with distinct keys, the dictionary has one key per entry |
| Instructions.KeyEntry | instructions.py:8-29 | every mnemonic of the table comes from one listed entry, and its instruction is that entry's |
| Instructions.MnemonicsDistinct | instructions.py:8-29 | the 22 listed mnemonics are pairwise distinct |
| Instructions.TokensWellFormed | instructions.py:8-29 | every token string is non-empty and consists only of space, tab and linefeed |
| Instructions.TokensPrefixFree | instructions.py:8-29 | no instruction's tokens are a prefix of another's, so the output decodes unambiguously; token strings are distinct; the table has 22 entries |
| Instructions.StringsNotPrefix | instructions.py:8-29 | the 22 token strings in table order are pairwise not prefixes of one another |
| Instructions.ParameterKinds | instructions.py:8-29 | an instruction takes a number iff it is PUSH; it takes a label iff it is LABEL, GOSUB, JMP, JEZ or JLZ; no instruction takes both |
| Instructions.MnemonicsUpperCase | instructions.py:8-29 | every mnemonic is spelt in upper-case ASCII letters |
| Instructions.MinOf | instructions.py:31 | the minimum is an element of the list and at most every element |
| Instructions.MaxOf | instructions.py:32 | the maximum is an element of the list and at least every element |
| Instructions.BoundValues | instructions.py:31-32 | the shortest mnemonic has 3 letters and the longest has 6 |
| Instructions.MnemonicLengthBounds | instructions.py:31-32 | every mnemonic's length lies between the computed shortest and longest lengths, so the line pattern admits every mnemonic |
| Numbers.PosIntToWhitespace | compile.py:26-32 | `bin(n)[2:]` with 0 as space and 1 as tab; non-empty; its digits and value are stated by `BinaryDigits` |
| Numbers.BinaryDigits | compile.py:26-32 | the magnitude's encoding is made of space/tab digits whose binary value is the number; zero is one space; a positive number starts with a tab (no leading zero) and has as many digits as its bit length |
| Numbers.IntToWhitespace | compile.py:18-23 | the encoding is a sign symbol (space for n >= 0, tab for n < 0), at least one binary digit and a final linefeed |
| Numbers.RoundTrip | compile.py:18-32 | reading a number back from its encoding, whatever follows it, yields the number and leaves what follows |
| Numbers.EncodingInjective | compile.py:18-32 | no number's encoding is a prefix of another's, and distinct numbers have distinct encodings |
| Numbers.EncodeZero | compile.py:20-21 | zero is written as a positive sign, one zero digit and a linefeed |
| Numbers.EncodeNegation | compile.py:20-23 | a negative number is written as its magnitude with the sign symbol changed from space to tab |
| Numbers.ValueBound | compile.py:32 | a string of L binary digits has a value below 2^L |
| IntLiteral.ParseInt | compile.py:73 | `int(q)` in base 10: an optional minus sign and a grouped digit string, else `None` for ValueError; its properties are stated by `RoundTrip`, `LeadingZero`, `Negation`, `Underscore` and `Rejected` |
| IntLiteral.RoundTrip | compile.py:73 | `int()` reads back every integer that `str()` writes |
| IntLiteral.LeadingZero | compile.py:73 | a leading zero in front of any accepted unsigned literal, underscores included, does not change the value read |
| IntLiteral.Negation | compile.py:73 | a minus sign negates the value of the rest, and a rejected rest stays rejected |
| IntLiteral.Underscore | compile.py:73 | one underscore between two runs of digits is ignored |
| IntLiteral.Rejected | compile.py:72-80 | the empty string, a lone or doubled sign, leading, trailing or doubled underscores, letters and an inner minus are rejected, so they are reported as unparsable numbers |
| IntLiteral.NatStringValue | compile.py:73 | the decimal digits of n denote n and have no leading zero unless n is 0 |
| Labels.NthLabel | compile.py:35-39 | the k-th label (from 0): k + 2 in binary without its leading 1, as spaces and tabs, then a linefeed; properties in `LabelBodyRank`, `LabelsDistinct`, `EveryLabelEnumerated`, `LabelOrder`, `FirstLabels`, and equal to the generator by `GeneratedIsNthLabel` |
| Labels.Product | compile.py:38 | the strings of `product(' \t', repeat=L)` in the order yielded, 2^L of them; their order is stated by `ProductAt` |
| Labels.Generated | compile.py:35-39 | what the generator yields for lengths 1 to L, block after block, 2^(L+1) - 2 labels; each equals `NthLabel` by `GeneratedIsNthLabel` |
| Labels.ProductAt | compile.py:38 | the t-th string that `product(' \t', repeat=L)` yields has length L and binary value t, i.e. the product is in lexicographic order with space before tab |
| Labels.GeneratedIsNthLabel | compile.py:35-39 | the k-th label the generator yields equals the closed form `NthLabel(k)` |
| Labels.LabelBodyRank | compile.py:35-39 | the k-th label body is a non-empty space/tab string of rank k + 2 |
| Labels.LabelsDistinct | compile.py:35-39 | the generator never yields the same label twice |
| Labels.EveryLabelEnumerated | compile.py:35-39 | every non-empty space/tab string followed by a linefeed is yielded, at position rank - 2 |
| Labels.LabelOrder | compile.py:37-38 | labels come shortest first and, within one length, in lexicographic order; lengths never decrease |
| Labels.FirstLabels | compile.py:35-39 | the first labels are " \n", "\t\n", "  \n", …, and the sixth is "\t\t\n" |
| Labels.RankInjective | compile.py:35-39 | distinct space/tab strings have distinct ranks |
| Labels.ShortLexIsRankLess | compile.py:37-38 | shortest-first lexicographic order coincides with rank order |
| Labels.Allocate | compile.py:43-84 | `labels[name]` on the defaultdict: the stored label, or the generator's next label, stored under the name; properties in `AllocateKeepsInv`, `CacheInjective`, `CacheOrdered` |
| Labels.CacheInjective | compile.py:43 | in a cache that keeps its invariant, distinct names hold distinct labels and the order of first uses has no repeats |
| Labels.CacheOrdered | compile.py:43 | names hold labels in the order of their first use |
| Labels.AllocateKeepsInv | compile.py:43-84 | a lookup keeps the invariant; it returns the stored label of a known name and draws the next label for a new one; it never changes a stored label; the cursor advances only on a miss |
| Labels.LabelAllocator.constructor | compile.py:43 | a new cache is empty and its cursor is at the first label |
| Labels.LabelAllocator.Get | compile.py:84 | a lookup returns the stored label of a known name and leaves the cache unchanged; a new name gets the next label, which is stored, and the cursor advances |
| Classifier.ClassifyLine | compile.py:46-50 | the two regex matches on a line: blank, code with its groups, or unparsable; equal to the patterns by `ClassifyLineBlank`, `ClassifyLineCode`, `ClassifyLineUnparsable` |
| Classifier.ClassifyText | compile.py:9-13 | the same on a line without its final linefeed, by maximal scans; equal to the patterns by `ClassifyBlankIff`, `ClassifyCodeIff` |
| Classifier.LowerCasePush | compile.py:9-12 | the pattern reads `push 1` as the mnemonic `push` with the parameter `1`: letters of either case pass it |
| Classifier.ClassifyLineBlank | compile.py:13 | the scanner calls a line blank iff the blank-line pattern matches it |
| Classifier.ClassifyLineCode | compile.py:9-12 | the scanner reads mnemonic m and parameter p iff the line is not blank and the code-line pattern matches it with those groups |
| Classifier.ClassifyLineUnparsable | compile.py:46-50 | a line is unparsable iff neither pattern matches it |
| Classifier.ClassifyBlankIff | compile.py:13 | on a line without its final linefeed, the scanner says blank iff the text is whitespace and an optional comment |
| Classifier.ClassifyCodeIff | compile.py:9-12 | on a line without its final linefeed, the scanner yields Code(m, p) iff the text is non-blank and decomposes as whitespace, mnemonic m, parameter p and a blank tail |
| Classifier.ReadParamTailSound | compile.py:10 | what the scanner reads after the mnemonic fits the pattern's optional parameter group |
| Classifier.ReadParamTailComplete | compile.py:10 | a tail that fits the pattern is read by the scanner with the same parameter |
| Classifier.CodeDropLinefeed | compile.py:10 | if a code line matches with a final linefeed in place, it matches without it with the same groups |
| Classifier.Skip | compile.py:10 | the scan stops at the end of the longest run of matching characters |
| Classifier.Strip | compile.py:53 | the stripped text is a slice with only whitespace cut at both ends, and it neither starts nor ends with whitespace |
| Compiler.Step | compile.py:45-98 | one iteration of the loop over a line; its effects are stated by the Step lemmas below |
| Compiler.StepLine | compile.py:46-69 | the iteration once the line is classified: skip, report the line, report the mnemonic, or go on to the instruction |
| Compiler.StepInstruction | compile.py:71-98 | the iteration for a known instruction: number, label or no parameter |
| Compiler.Run | compile.py:42-99 | the loop over all lines, from an empty cache, empty output and no errors; whole-run properties are stated by the lemmas below |
| Compiler.OutcomeOf | compile.py:100-103 | exit status 1 if errors were reported, 0 otherwise, or the abort at a line; stated by `ExitStatus` and `RunAbortFlags` |
| Compiler.PushEntry | instructions.py:8 | PUSH is in the table, with two spaces as tokens and a number parameter |
| Compiler.PushTakesNumber | compile.py:71-73 | among known mnemonics, exactly PUSH takes a number |
| Compiler.StepReports | compile.py:49-94 | a line either leaves the error flag and the reports alone, or sets the flag and appends one report about that line and then writes nothing, draws no label, leaves the cursor and does not abort |
| Compiler.StepAborts | compile.py:71-73 | a line aborts the run iff it is PUSH without a parameter; once aborted, a run stays aborted at that line |
| Compiler.InstructionAborts | compile.py:71-81 | a known instruction aborts iff it takes a number and has no parameter |
| Compiler.StepKeepsLabels | compile.py:43-84 | a line never changes a stored label; only a label instruction looks a name up, and it does so through the cache |
| Compiler.StepAppends | compile.py:96-98 | a line never rewrites what earlier lines wrote: the old output is a prefix of the new |
| Compiler.StepSkipsBlank | compile.py:46-47 | a blank line changes nothing |
| Compiler.StepWritesNumber | compile.py:71-98 | a PUSH line whose parameter `int()` reads as n writes exactly two spaces and the encoding of n, and changes nothing else |
| Compiler.StepWritesPlain | compile.py:86-98 | an instruction that takes no parameter, given none, writes exactly its tokens and changes nothing else |
| Compiler.StepAbortsAt | compile.py:71-73 | a PUSH line without a parameter writes nothing and marks the run aborted at that line |
| Compiler.StepRejectsLowerCase | compile.py:60-69 | a mnemonic with a lower-case letter passes the pattern but is no key of the table: the line is reported as an unrecognized instruction and writes nothing |
| Compiler.StepWritesLabel | compile.py:83-98 | a label instruction writes its tokens followed by the label that its name holds after the lookup |
| Compiler.InstructionWritesLabel | compile.py:83-98 | the same, for a known instruction that takes a label |
| Compiler.AbortIsFinal | compile.py:71-73 | after the aborting line, later lines have no effect |
| Compiler.ErrorsIffReported | compile.py:44-103 | the error flag is set iff some line was reported |
| Compiler.ReportsInOrder | compile.py:45-94 | the reports concern lines 1 to n, in increasing line order, at most one per line |
| Compiler.AbortFlagsAt | compile.py:71-73 | the per-line abort flag is set exactly for the lines that are PUSH without a parameter |
| Compiler.RunAbortFlags | compile.py:71-73 | a run is aborted at line k iff line k is the first aborting line |
| Compiler.ExitStatus | compile.py:100-103 | without an aborting line, the run exits with 1 if it reported anything and 0 otherwise |
| Compiler.OutputGrows | compile.py:96-98 | the output after a prefix of the lines is a prefix of the final output |
| Compiler.RunCache | compile.py:43-84 | after any run, the cache holds exactly the names used so far, each with the label drawn at its first use |
| Compiler.LabelsDistinctNames | compile.py:43-84 | after any run, distinct names hold distinct labels, so no two label names collide in the output |
| Compiler.LabelsKept | compile.py:43-84 | a name's label never changes once drawn |
| Compiler.LabelWritten | compile.py:83-98 | every line that refers to a label name writes the label that the name holds at the end of the run, whether it is marked before or after |
| Compiler.Compile | compile.py:42-103 | the loop produces the output, the reports and the outcome that `Run` describes |
| Compiler.TranslateLine | compile.py:46-98 | one loop iteration has the effect of one `Step` on the allocator object and the loop variables, and keeps the allocator's invariant |
| Compiler.TranslateClassified | compile.py:49-69 | the same, for a line already classified |
| Compiler.TranslateInstruction | compile.py:71-98 | the same, for a known instruction |

## Left out

- Reading the input and writing to streams is not modelled. Lines are a
  `seq<string>`, the output is one string and the reports are a sequence.
  The same goes for the `__main__` block (compile.py:106-107) and
  `sys.exit`.
- The text of the diagnostics, including the input file name, is not
  modelled. Each diagnostic is a record holding the line number and the same
  fields the message prints.
- An aborting `PUSH` is not modelled as a Python traceback or interpreter
  exit status. It is the outcome `Aborted(lineno)`, and the output keeps
  what earlier lines wrote. The model does not say how much of that output
  a buffered stream would have flushed.
- The regular-expression engine is not modelled. The scanner
  `ClassifyLine` stands in for it. The two patterns are stated as
  predicates (`BlankMatch`, `CodeMatch`) and proved equivalent to the
  scanner.
- `label_generator` is a lazy, infinite generator. It is modelled by its
  closed form `NthLabel` and by the finite prefixes `Generated(L)` (all
  labels of length at most L), which are proved equal to it. The
  `__next__` state is the cache's `next` cursor.
- IntLiteral.ParseInt: does not model the limit on the number of digits
  that `int()` accepts in recent Python versions. It does not model a plus
  sign, surrounding whitespace or non-ASCII digits either; the line pattern
  never lets those into a parameter.
- Integers are unbounded, as in Python, so no width or overflow is modelled.

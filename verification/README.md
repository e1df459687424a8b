# A verified model of the regular-expression, JSON and expression engines

This project models three parts of an XPath and XSLT implementation in Dafny, and proves that each one's fast form does
what its simple definition says:

- `xee-regex`, the regular expressions of XPath and XQuery Functions and Operators 3.1 (F&O 3.1, section 5.6): a compiler
  to a flat program, a backtracker, a PikeVM, a prefilter, and `matches`, `replace`, `tokenize` and `analyze-string`.
- `xee-json`, the JSON of RFC 8259: a pull tokenizer, lazy string decoding, and a writer.
- `xee-xpath-compiler`, `xee-ir` and the stack machine of `xee-interpreter`: expressions are lowered to an intermediate
  representation, compiled to bytecode, and executed.

Each part's operations keep the source's form: classes with the fields the source updates, methods with its loops. Their
contracts tie them to functions, and the lemmas prove the main results about those functions.

## The regular-expression engine

`Denotation.Results` gives the meaning of a pattern: from a position and captures, all results in the order of
preference. It is the one definition everything is measured against. `Paths.Path` is a second, unordered definition,
the pattern as a relation; `Paths` proves that the two have the same ends. What the pieces of both mean is also stated
without them: `GroupNumbers` says by structure which groups a quantifier with no iteration unsets and which captures a path
can change, `LiteralSearch` that a pattern of characters is a search for a string, `Lines` that `^` and `$` are the ends of
the text's lines, and `Shortest` that the minimum length is that of a text the pattern matches.

- **Compiling** (`Syntax`, `Emission`, `Compiler`, `CompileCorrect`, `Nesting`, `Placement`, `Reaching`). The class
  `Compiler.Compiler` pushes and back-patches instructions as the source does; its methods are proved to emit the code of
  `Emission`, and to fail exactly when a ceiling is passed on the way. `CompileCorrect.ProgramYields` proves that the
  program's ordered run (`Machine.Run`) ends and yields exactly the pattern's results, captures included.
- **Backtracking** (`Backtrack`). The choice points and undo records on the stack are proved to stand for the threads of
  the ordered run that are still to come. A search needs no step budget to end, back-references included.
- **The PikeVM** (`SparseSets`, `Futures`, `Closures`, `Pike`, `PikeSearch`). Threads are told apart by an instruction and
  a count. `Futures.FlagsReadInOrder` proves that the count says all of the progress flags, `Futures.SameFuture` that
  threads with the same key find matches alike, and `Closures.DropSeen` that dropping a thread whose key was seen
  changes no answer.
- **Both matchers** are specified by the same value: `Searches.Leftmost` of the program's own matches, which are unique
  (`Searches.OnlyOneYield`). `Finding.SearchOnBoth` states what follows for one search: they find a match for the same
  texts, at the same place, with the same captures. `Operations.MatchSlotsOnBoth` states it for all matches of a text.
- **Finding** (`Scan`, `Literals`, `Prefilter`, `PrefilterRules`, `Anchoring`, `Narrowing`, `Finding`). `Finding.Find` returns the
  pattern's preferred leftmost match whatever the shortcuts, the matcher and the number of slots tracked.
- **Operations** (`Captures`, `GroupTrees`, `Replacements`, `Operations`). Captures nest as their groups do, so the tree of
  `analyze-string` conserves the text and shows every group once, under the nearest group that contains it; tokens and
  matches rebuild the text; replacement strings mean what F&O 3.1 section 5.6.4 says, a character at a time. Between two
  successive matches no position has a match, and `Operations.SuccessiveIsLeftToRight` proves that no other list is that.
- **Round trips** (`Decimals`, `Spelling`, `RoundTrips`). A string escaped for replacing stands for itself, `$` and a number
  for that group, and replacing each match by the groups it consists of changes nothing.

Texts are sequences of characters and positions are character indices. Every function of the program's meaning is total:
patterns, texts, flags and start positions are arbitrary. `Prefilter.Branching` (a choice has a branch) and
`Captures.Parented` (each group's parent is listed) state what the parser's trees satisfy, and `GroupNumbers.Numbered` (groups
are numbered in the order of their opening parentheses) what a few results need besides.

## The JSON tokenizer and writer

`JsonGrammar.Json` is a JSON value that keeps every byte of its spelling; `Spell` writes it out and `EventsOf` is its
traversal. `JsonTokenizer.NextStep` says what one call does, and `JsonDraining.Drain` what all calls do.

- **Scanning** (`JsonAscii`, `JsonBytes`, `JsonNumbers`, `JsonStrings`, `JsonTokenizer`). The class
  `JsonTokenizer.Tokenizer` updates its position, its stack of open containers and its state as the source does. The scan
  of a string by words of eight bytes is exact although its borrow can mark a wrong byte.
- **The language** (`JsonGrammar`, `JsonDraining`). The tokenizer drains a text without an error exactly if it is a JSON
  text within the depth limit, and then gives the traversal of its value.
- **Errors and settings** (`JsonRuns`, `JsonShift`). Of every text, well formed or not: where an error is, that nothing
  after it was needed to find it, and what the depth limit, the byte order mark and its policy change.
- **Writing and reading back** (`JsonEscapes`, `JsonWriter`, `JsonRoundTrip`, `JsonValues`). Whatever calls are made, in
  whatever order and with whatever refusals, a finished writer's text drains to the events of the calls accepted, every
  string decoding to the text written. And no value is refused.
- **What is written** (`JsonSpellings`, `JsonEncodings`, `JsonUtf8`, `JsonPrinting`). Which characters are escaped and how,
  with RFC 8259's characters written out; a writer keeps to the characters the encoding in force had; UTF-8 is decoded to
  what was encoded; and the text of a value is what a recursive printer prints in the same layout.

A text is a sequence of bytes. A text given to the writer is a sequence of Unicode scalar values, written as UTF-8.

## The expression compiler

`XPathCore.Meaning` is the value of an expression in a context, or none where it is an error. `IrExpr.Eval` is the value of
an expression of the intermediate representation in an environment. `IrMachine.Step` is one instruction of the machine.
`IrMeaning.ExpressionRuns` joins the three: the bytecode compiled for an expression, called with the context and the
variables, returns the expression's value, and ends with an error exactly where the expression has none.
`IrPrices.WithinLimitsRuns` says when there is bytecode: the limits are numbers, and the costs are read off the expression.

- **Instructions** (`IrCode`, `IrMachine`). Instructions are read back from their bytes, with 16-bit operands and signed
  displacements.
- **Compiling** (`IrEmission`, `IrJoins`, `IrCompiler`, `IrCorrect`). `IrEmission.Emit` gives an expression's code, or a
  refusal where a limit is passed. The class `IrCompiler.FunctionCompiler` appends, names and patches as the source does and
  is proved to emit that code; `IrCorrect.EmitRuns` that it leaves the expression's value, on any stack. Sequences and node
  sets are joined as a binary counter carries; `IrJoins` proves that this is the join from the left, and its bounds.
- **Limits** (`IrLimits`, `IrPrices`). Code is emitted if and only if every name is known and within its slots, no jump is
  longer than 32,767 bytes, and constants and captured names number at most 65,536; the code is then as long as was counted.
- **Lowering** (`XPathCore`, `IrLowering`, `IrLowered`, `IrMeaning`). `IrLowering.Converter` makes up names and turns
  operands into atoms; `IrLowered` proves that the names stay apart and `IrMeaning` that the meaning stays.
- **Set operators** (`SetChains`). A chain of `intersect` and `except` is regrouped before it is lowered.

What these results rest on:

- The machine is the one of `IrMachine`: what each instruction pops, pushes, jumps to and refuses is written after
  `xee-interpreter/src/interpreter/interpret.rs` and `state.rs`. A state outside what they describe is `Stuck`, and the
  results say that none is reached. One frame is modelled: calls are left out.
- What an operator computes is a parameter (`IrMachine.Ops`), with one value for every error. `IrExpr.Lawful` asks of it
  that `+` and `gt` are those of integers, that a boolean is its own effective boolean value, and that the comma, `union`
  and `intersect` are associative, errors included (`IrExpr.Associative`). Nothing else is asked.
- `IrExpr.WellFormed` is what generated names satisfy; `IrLowered.LowerShapes` proves it of everything lowered.
- `XPathCore.Scoped` is a static check: variables are declared, and there is a focus where one is used. The context is
  present in `IrMeaning.ExpressionRuns`; `IrCorrect.FunctionRuns` takes arguments that may be absent.

## Model

| member | source | states |
|---|---|---|
| CharSets.CanonicalIsUnique | xee-regex/src/charset.rs:1-9 | Sorted, disjoint, non-adjacent ranges are determined by the characters they hold, so sets are equal exactly when their ranges are. |
| CharSets.FromRanges | xee-regex/src/charset.rs:32-51 | Any list of ranges, unordered, overlapping or empty, becomes the canonical set of the same characters. |
| CharSets.Union | xee-regex/src/charset.rs:63-67 | The canonical set of the characters in either. |
| CharSets.Negate | xee-regex/src/charset.rs:69-82 | The canonical set of all other code points. |
| CharSets.Intersect | xee-regex/src/charset.rs:84-103 | The canonical set of the characters in both, by one merge over two range lists. |
| CharSets.Difference | xee-regex/src/charset.rs:105-107 | The canonical set of the characters in one and not in the other. |
| CharSets.Contains | xee-regex/src/charset.rs:109-121 | The binary search answers membership, both ways. |
| CaseVariants.IsCaseVariant | xee-regex/src/unicode.rs:118-124 | The search of the sorted table answers exactly whether the variant is listed. |
| CaseVariants.CaseClosure | xee-regex/src/unicode.rs:126-147 | The closure holds the set's characters and exactly the listed variants of them; its work is bounded by ranges times entries. |
| Lengths.ResultsAreLong | xee-regex/src/compile.rs:100-158 | No match is shorter than the minimum length computed, saturation included. |
| Lengths.EmptyTextMatches | xee-regex/src/lib.rs:620-627 | On the empty text a node has a result exactly when its minimum length is zero, anchors and back-references included. |
| Lengths.SilentMatchesNothing | xee-regex/src/compile.rs:390-397 | A body that emits no instruction matches only the empty string and changes no capture, so cutting its optional copies is harmless. |
| Lengths.CheckedIfEmpty | xee-regex/src/compile.rs:147-152 | An iteration is checked exactly if it can be empty: a body not checked always moves on, and a checked one can match the empty text. |
| Shortest.MinimumIsReached | xee-regex/src/compile.rs:100-158 | A pattern without anchors, back-references, empty sets and empty choices matches a text of the minimum length, so that is the least length there is; only where it is saturated can the text be longer. |
| LiteralSearch.SearchIsFirst | xee-regex/src/compile.rs:240-306 | A search for a pattern of characters finds the first place where they stand one after the other, with that as its bounds, and nothing exactly if they stand nowhere. |
| Lines.AnchorsAreLines | xee-regex/src/backtrack.rs:214-230 | In multi-line mode `^` matches exactly where a line of the text begins and `$` exactly where one ends, a newline that ends the text beginning no line. |
| Denotation.MatchedAgain | xee-regex/src/backtrack.rs:231-244 | A capture matches again at a position exactly where the text there is the same, character by character, up to case variants if case does not matter and not otherwise. |
| Compiler.Compiler.CompileNode | xee-regex/src/compile.rs:240-306 | Compiling a node after the instructions there are appends the node's code, keeps the loop depth, counts visits and registers, and succeeds exactly when the ceilings have room for everything pushed on the way. |
| Compiler.Compiler.CompileAlt | xee-regex/src/compile.rs:274-296 | The branches with their splits and jumps patched are the code of the choice. |
| Compiler.Compiler.CompileRepeat | xee-regex/src/compile.rs:308-440 | Required copies, then a loop or optional copies: together the code of the repetition. |
| Compiler.Compiler.CompileLoop | xee-regex/src/compile.rs:332-371 | The loop's splits, check and clearing exit are patched to the code of an unbounded repetition. |
| Compiler.Compiler.CompileCopy | xee-regex/src/compile.rs:381-401 | An optional copy is its split and its checked body; a body that emits nothing leaves no trace. |
| Compiler.Compiler.CompileOptionalCopies | xee-regex/src/compile.rs:373-403 | The copies, with the splits and checks listed for patching resolved, are the code of the optional copies; only a silent body or none leaves the list empty. |
| Compiler.Compiler.CompileOptional | xee-regex/src/compile.rs:373-440 | The whole counted repetition, its clearing block and patched targets included. |
| Compiler.Compiler.PatchCopies | xee-regex/src/compile.rs:426-438 | Patching puts the ordered split and the check exit at exactly the listed places, the first split's exit at the clearing block. |
| Compiler.Rows | xee-regex/src/compile.rs:188-199 | An instruction that waits has the number of waiting instructions before it as its row. |
| Compiler.RowsApart | xee-regex/src/compile.rs:60-64 | Waiting instructions have different rows, all below the number of rows. |
| Compiler.UsageIsExact | xee-regex/src/compile.rs:67-78 | The register count is one more than the highest register started, and the back-reference flag is set exactly when there is one. |
| Compiler.Compile | xee-regex/src/compile.rs:160-210 | There is no program exactly when the nodes visited or the instructions ever held pass a ceiling; otherwise the code is the pattern's between the match's slots, and the tables agree with it. |
| CompileCorrect.EmitRuns | xee-regex/src/compile.rs:240-440 | A node's code, entered in any state at any depth, reaches the code's end in exactly the node's results, in order. |
| CompileCorrect.LoopRuns | xee-regex/src/compile.rs:332-371 | A loop takes another iteration or leaves, in the quantifier's order; an empty iteration ends it and keeps its captures; leaving before any iteration unsets the groups of its span, which `GroupNumbers` shows to be its own. |
| CompileCorrect.OptionalRuns | xee-regex/src/compile.rs:373-440 | Counted optional copies do the same, so that a counted repetition matches nothing the unbounded one does not, and no copy at all unsets the groups of the span. |
| GroupNumbers.SpanIsExact | xee-regex/src/compile.rs:116-124 | The span kept for a node holds every group in it, and both its ends are groups in it; there is none exactly if it has no group. |
| GroupNumbers.NumbersAre | xee-regex/src/parse.rs:409-420 | Groups numbered in the order of their opening parentheses are, in every part of the pattern, consecutive numbers. |
| GroupNumbers.SkippedUnsets | xee-regex/src/compile.rs:319-325 | The exit before any iteration unsets every group in the body, and no capture of another group. |
| GroupNumbers.NoIterationUnsets | xee-regex/src/compile.rs:308-440 | An optional repetition can take no iteration: that is its last result if it is greedy and its first if it is not, where it was, with every group in its body unset and no other capture changed. |
| GroupNumbers.SilentSetsNothing | xee-regex/src/compile.rs:390-397 | A body that emits no instruction sets no group, so nothing need be unset where it is cut. |
| GroupNumbers.PathSetsOwn | xee-regex/src/compile.rs:302-440 | A path sets only groups it can run through; any other group keeps its capture or loses it. |
| GroupNumbers.PathKeepsOthers | xee-regex/src/compile.rs:302-440 | A path changes the captures of no group outside its part of the pattern. |
| GroupNumbers.GroupIsCaptured | xee-regex/src/compile.rs:267-272 | A group that was run through is captured from where it began to where it ended, whatever is inside it. |
| CompileCorrect.ProgramYields | xee-regex/src/compile.rs:160-210 | The compiled program's run ends from every start state and yields exactly the pattern's matches with their captures, in the order of preference. |
| Nesting.ProgramIsNested | xee-regex/src/compile.rs:67-78 | In every compiled program the checked iterations live at an instruction are fixed, each uses the register of its depth, and every target is inside the program at the right depth. |
| Machine.YieldsOnce | xee-regex/src/backtrack.rs:93-211 | The matches of a run do not depend on how long it is followed. |
| Backtrack.MatchAgain | xee-regex/src/backtrack.rs:231-244 | The comparison loop computes where the repeated capture ends. |
| Backtrack.OneStep | xee-regex/src/backtrack.rs:95-211 | Replacing a thread by its successors keeps the run's matches and lowers its measure, the work left. |
| Backtrack.Cache.Step | xee-regex/src/backtrack.rs:110-197 | One instruction leaves the current thread and those the stack stands for equal to the thread's successors followed by those there were. |
| Backtrack.Cache.Resume | xee-regex/src/backtrack.rs:198-210 | Undoing to the newest choice point restores the slots and registers of exactly the next thread; an empty stack means there is none. |
| Backtrack.RunAt | xee-regex/src/backtrack.rs:93-211 | A run always ends, back-references included, finds a match exactly when there is one, and leaves the preferred one's slots. |
| Backtrack.Search | xee-regex/src/backtrack.rs:46-85 | The result is the preferred match of the leftmost position from the start on, prefix skips and anchoring included. |
| Futures.FlagsReadInOrder | xee-regex/src/pike.rs:8-21 | The flags "this iteration began here" read false then true from the outermost inward, so their number says each of them. |
| Futures.NextIsAlike | xee-regex/src/pike.rs:8-21 | Threads with the same instruction and count at a position have successors that again agree pairwise. |
| Futures.SameFuture | xee-regex/src/pike.rs:8-21 | Without back-references such threads end alike and find as many matches. |
| Closures.SameRank | xee-regex/src/pike.rs:8-21 | Such threads are equally far from their ends, so neither can be a descendant of the other. |
| Closures.DropSeen | xee-regex/src/pike.rs:297-301 | Dropping a thread whose key was visited keeps the closure's answer, captures included. |
| Closures.ExploreNext | xee-regex/src/pike.rs:302-357 | Replacing a visited thread by its successors keeps the closure's answer. |
| Closures.AddThread | xee-regex/src/pike.rs:303-307 | A thread that waits joins the list at its place in the order. |
| SparseSets.SparseSet.Insert | xee-regex/src/pike.rs:46-56 | Insertion reports whether the number was new and appends it then, within the arrays: distinct numbers below the capacity fit. |
| SparseSets.SparseSet.Clear | xee-regex/src/pike.rs:58-60 | Clearing leaves the empty set whatever the arrays hold. |
| Pike.KeyParts | xee-regex/src/pike.rs:63-68 | A key's instruction and count are recovered by division. |
| Pike.RowsDiffer | xee-regex/src/pike.rs:66-68 | Threads that wait at different instructions have different rows of the table. |
| Pike.ThreadList.Visit | xee-regex/src/pike.rs:297-307 | A visit adds the thread, with its slots in its row if it waits, unless its key was there; no other listed thread's slots change. |
| Pike.Cache.Expand | xee-regex/src/pike.rs:308-357 | The frames pushed stand for the thread's successors, the preferred one on top, and restore the slots for what is below. |
| Pike.Cache.Closure | xee-regex/src/pike.rs:256-361 | The list's first match becomes its own or else the new thread's, with its captures; the steps are bounded by the keys newly visited. |
| PikeSearch.Advance | xee-regex/src/pike.rs:199-219 | A thread past its character joins the next list, at once if it waits there, through a closure otherwise, with the same answer. |
| PikeSearch.Turn | xee-regex/src/pike.rs:187-241 | A listed thread's turn keeps the answer of both lists together, or finds a match that outranks everything still in the list. |
| PikeSearch.Pass | xee-regex/src/pike.rs:185-241 | A pass over the list leaves its answer in the next list or in the match found, and ends the threads below a match. |
| PikeSearch.Search | xee-regex/src/pike.rs:138-247 | The result is the preferred match of the leftmost position from the start on, its tracked slots included, within steps linear in the positions: a bound fixed by the program, the slot width and the literal, for each position. |
| Searches.OnlyOneYield | xee-regex/src/pike.rs:1-6 | The matches both matchers search among are determined by the program and the text. |
| Narrowing.YieldsNarrow | xee-regex/src/lib.rs:317-324 | Without back-references a run that tracks fewer slots finds the same matches with their slots cut to those. |
| Paths.ResultsAreReached | xee-regex/src/compile.rs:302-440 | Every result is reached by a path of the pattern read as a relation. |
| Paths.EndsAreFound | xee-regex/src/compile.rs:302-440 | Without back-references, wherever a path ends a result ends: neither the preference order nor the rule for empty iterations loses an end. |
| Paths.EndsAreExact | xee-regex/src/compile.rs:302-440 | The ends of the results are exactly the ends of the paths. |
| Scan.FindAny | xee-regex/src/prefilter.rs:53-75 | The first character of the set at or after the start, none missed, charged at most twice what is read. |
| Scan.FindLiteral | xee-regex/src/prefilter.rs:77-98 | The first occurrence at or after the start, none missed over window borders, with the charge bounded by what is read. |
| Prefilter.AnchoredBegins | xee-regex/src/prefilter.rs:149-168 | Outside multi-line mode every path of a pattern marked anchored begins at position 0. |
| Anchoring.AnchoredIsExact | xee-regex/src/prefilter.rs:149-168 | Of a pattern without `$`, back-references and empty sets, the mark is exact: it is marked if and only if no match of it begins past the start of any text. |
| Anchoring.EndThenCharacter | xee-regex/src/prefilter.rs:149-153 | With `$` it is not: `$a`, which matches nothing, is not marked. |
| Prefilter.Required | xee-regex/src/prefilter.rs:121-147 | Every match holds a character of the set returned, which is small and is the one the rules find: of a concatenation the first of its parts' smallest sets, of a choice the union of its branches' sets; none is returned exactly if they find none. |
| Prefilter.FindsOne | xee-regex/src/prefilter.rs:121-147 | The rules find one set or none, so they determine what is returned. |
| PrefilterRules.CountIsSize | xee-regex/src/prefilter.rs:109-115 | The count a set is chosen by is the number of characters it holds. |
| PrefilterRules.SmallerMeans | xee-regex/src/prefilter.rs:117-134 | The set preferred is the one of fewer characters, or of as many characters and fewer ranges; a small one has at most 16 characters. |
| Prefilter.Prefix | xee-regex/src/prefilter.rs:170-226 | Every match begins with the literal, and is the literal if it is whole; the early exits and the bounds on parts, branches and copies lose nothing: it is the literal the rules give without any limit, cut once, and whole exactly if that one is and is within the limit. |
| Literals.LimitedLater | xee-regex/src/prefilter.rs:183-193 | Cutting a part before it is appended changes nothing, because the whole is cut. |
| Literals.LimitedCommon | xee-regex/src/prefilter.rs:194-210 | Cutting two branches before their common start is taken is cutting the common start. |
| Literals.CopiesEnough | xee-regex/src/prefilter.rs:219-225 | As many copies of a literal as just pass the limit are cut to what all of them are. |
| PrefilterRules.CharactersAreTheirLiteral | xee-regex/src/prefilter.rs:170-226 | The rules find of a pattern of characters the whole text they are. |
| PrefilterRules.LengthIsLeast | xee-regex/src/prefilter.rs:228-241 | A character's length is the least number of bytes of UTF-8 it fits. |
| Prefilter.Cut | xee-regex/src/prefilter.rs:228-241 | The longest beginning within the limit, at a character boundary. |
| Finding.Build | xee-regex/src/lib.rs:403-419 | A regular expression's parts agree with its pattern; it has no program exactly when a ceiling is passed. |
| Finding.TooShort | xee-regex/src/lib.rs:504-516 | A text shorter than the minimum length has no match. |
| Finding.RuledOut | xee-regex/src/lib.rs:525-546 | Each shortcut that ends a call early means that no position from the start on has a match. |
| Finding.AnswerNarrows | xee-regex/src/lib.rs:564-590 | The answer with fewer slots is the answer, its slots cut. |
| Finding.OnTheBacktracker | xee-regex/src/lib.rs:550-569 | The backtracker's result is the answer, every slot included. |
| Finding.OnThePike | xee-regex/src/lib.rs:570-596 | The PikeVM's result is the answer's tracked slots, the others unset. |
| Finding.SearchOnBoth | xee-regex/src/pike.rs:1-6 | Without back-references, a search on the PikeVM that tracks some of the slots finds a match exactly when one on the backtracker does, and its slots are the first of the backtracker's, whatever each is told of the literal and of anchoring. |
| Finding.Find | xee-regex/src/lib.rs:502-596 | Whatever the prefilter switch, the matcher and the need, the result is the pattern's preferred leftmost match; without a program the call is refused exactly when the text is long enough for a match. |
| Captures.PathIsLaminar | xee-regex/src/ops.rs:277-282 | On every path, completed captures lie behind the position; two groups' captures lie apart, or one in the other as the groups do, or the inner one's from an earlier iteration lies before. |
| Captures.MatchIsWellCaptured | xee-regex/src/ops.rs:277-282 | A match sets group 0 to its bounds, and its groups' captures lie inside it and nest. |
| GroupTrees.Place | xee-regex/src/ops.rs:296-311 | Each group that took part is placed once, under its nearest enclosing group whose capture contains it. |
| GroupTrees.LowerBound | xee-regex/src/ops.rs:322-323 | The binary search separates the entries by parent. |
| GroupTrees.SiblingsAreApart | xee-regex/src/ops.rs:326-330 | Sorted siblings do not overlap, empty captures included, and lie inside the match. |
| GroupTrees.Emit | xee-regex/src/ops.rs:316-346 | A group's content is its text, each group below it occurs exactly once with its capture as its text, directly under its nearest enclosing group that took part and contains it; those next to each other are in the order of where they begin, then of where they end, then of their numbers. |
| GroupTrees.GroupTree | xee-regex/src/ops.rs:283-347 | The match's content is its text and holds every group that took part exactly once, directly under the nearest enclosing group that took part and contains it, or directly under the match if there is none, and in order. |
| Replacements.ReadNumber | xee-regex/src/ops.rs:229-249 | The digits kept are those left by dropping the last digit while the number exceeds the groups and 9; every number computed on the way is that of the digits so far and at most ten times the larger of the groups and 9, plus 9. |
| Replacements.Parse | xee-regex/src/ops.rs:199-275 | The parts stand for what the rule says a character at a time, stripped digits literal; it is refused exactly when the rule refuses it. |
| Replacements.Expand | xee-regex/src/ops.rs:81-84 | The parts' text is the expansion of what they stand for, one after the other; of a match's groups, `Operations.GroupExpands` says what that is. |
| Spelling.EscapedReads | xee-regex/src/ops.rs:199-275 | Text with a backslash before each backslash and dollar sign is read as that text, wherever it stands. |
| Spelling.DollarsRead | xee-regex/src/ops.rs:229-249 | Dollar signs with the numbers of groups there are, written in decimal one after the other, are read as those groups, however many digits they have. |
| Operations.ForEachMatch | xee-regex/src/ops.rs:168-197 | The successive leftmost matches that do not overlap, every one and in order: each at the first position with a match from the end of the one before, or one character later if that was empty, and no position between two has a match. |
| Operations.SuccessiveIsOne | xee-regex/src/ops.rs:168-197 | The successive matches of a text are determined: two lists of them are the same list. |
| Operations.SuccessiveIsLeftToRight | xee-regex/src/ops.rs:168-197 | Searching again from where each match ends gives all the matches from left to right, no position left out between them, and no other list is that. |
| Operations.MatchSlots | xee-regex/src/lib.rs:600-618 | The slots of exactly the successive matches, every group's included, with no position between two matches, before the first or after the last having one. |
| Operations.MatchSlotsOnBoth | xee-regex/src/lib.rs:422-435 | Neither the matcher nor the prefilter changes an answer: the slots of every match are the same with any settings. |
| Operations.IsMatch | xee-regex/src/ops.rs:54-59 | Whether there is a match, refused only over the ceiling. |
| Operations.MatchIffPath | xee-regex/src/ops.rs:54-59 | Without back-references there is a match exactly when the text has a path of the pattern. |
| Operations.FacetMatchesWhole | xee-regex/src/parse.rs:91-107 | A pattern of the XSD dialect matches exactly the texts its expression matches as a whole. |
| Operations.MatchesEmptyExactly | xee-regex/src/lib.rs:620-627 | The test without a search is right: the empty text matches exactly when the minimum length is zero. |
| Operations.SuccessiveInOrder | xee-regex/src/ops.rs:168-197 | The matches are in order, apart and inside the text. |
| Operations.TokensRebuild | xee-regex/src/ops.rs:107-133 | Tokens interleaved with the matches are the text. |
| Operations.Tokenize | xee-regex/src/ops.rs:107-133 | The tokens are exactly the text between the matches, in which no position has a match; the empty text gives none; the refusals are exact. |
| Operations.Replace | xee-regex/src/ops.rs:61-105 | The text with each match replaced by what the replacement string stands for in it, and no match left out; in every match, a reference to a group that took part stands for its text and any other for nothing; the refusals are exact, in their order. |
| Operations.GroupExpands | xee-regex/src/ops.rs:81-84 | In every match of a text, any group's reference stands for the text of its capture, which lies inside the text, and for nothing if it took no part. |
| Operations.ReplacingByItself | xee-regex/src/ops.rs:61-105 | Replacing every match by `$0` changes nothing. |
| RoundTrips.MatchIsItsGroups | xee-regex/src/ops.rs:81-84 | In every match of a concatenation of groups, the groups' texts one after the other are the match. |
| RoundTrips.ReplacingByItsGroups | xee-regex/src/ops.rs:61-105 | Replacing every match of a concatenation of groups by `$` and the number of each of them changes nothing. |
| RoundTrips.ReplacingByTheGroup | xee-regex/src/ops.rs:61-105 | Replacing every match of a group by `$1` changes nothing, whatever groups are inside it. |
| Operations.Analyze | xee-regex/src/ops.rs:135-166 | The entries' text is the whole text; text between matches is one entry and not empty, and no position in it has a match; each match's tree is faithful and complete, its groups where they belong and in order. |
| JsonBytes.WordTestIsExact | xee-json/src/tokenizer.rs:454-471 | The word test is true exactly if one of the eight bytes is a quotation mark, a reverse solidus or a control character, borrows included. |
| JsonBytes.WordAtIsExact | xee-json/src/tokenizer.rs:454-471 | So it is of the eight bytes of a text from any position. |
| JsonBytes.SkipPlain | xee-json/src/tokenizer.rs:356-382 | A word at a time and then byte by byte, the scan ends at the first special byte or the end, none missed or passed. |
| JsonNumbers.ScannedIsNumber | xee-json/src/number.rs:1-45 | What is scanned is a number of RFC 8259, section 6. |
| JsonNumbers.NumberReads | xee-json/src/number.rs:1-45 | A number is scanned to its end wherever it stands, if nothing that could continue it follows. |
| JsonNumbers.IsNumberText | xee-json/src/number.rs:57-61 | The check of a whole text accepts exactly the numbers of the grammar. |
| JsonStrings.SegmentIterator.Next | xee-json/src/string.rs:100-141 | Each call gives the first of the segments still to come, which then are the others; after the last there is nothing more. |
| JsonStrings.SegmentsConserve | xee-json/src/string.rs:49-75 | The sources of a validated string's segments, put together, are the string. |
| JsonStrings.SegmentsDecode | xee-json/src/string.rs:49-92 | The values of a validated string's segments are the UTF-16 decoding of the code units it names: a high surrogate and a low one right after it are one character, any other surrogate is reported alone. |
| JsonStrings.PairedIsScalar | xee-json/src/string.rs:166-181 | A pair gives a Unicode scalar value past the Basic Multilingual Plane. |
| JsonSpellings.HexDigitIsItsPlace | xee-json/src/string.rs:191-200 | A byte is a hexadecimal digit exactly if it is one of the sixteen in lower or upper case, and its value is its place among them. |
| JsonSpellings.Hex4IsBaseSixteen | xee-json/src/string.rs:191-200 | Four digits are the number they are in base sixteen; anything else is none. |
| JsonSpellings.RecasedNamesAlike | xee-json/src/string.rs:191-200 | A string whose escapes are spelled with digits in another case is valid too, and names the same code units. |
| JsonSpellings.CharactersAre | xee-json/src/string.rs:143-160 | White space, digits, exponent marks and the letters of escapes are the characters RFC 8259 lists in sections 2, 6 and 7. |
| JsonTokenizer.StepAdvances | xee-json/src/tokenizer.rs:139-152 | Every call that gives an event has read at least one byte and stays inside the text. |
| JsonTokenizer.Tokenizer.ReadString | xee-json/src/tokenizer.rs:324-362 | The string ends where its first unescaped quotation mark is, it is escaped exactly if it holds a reverse solidus, and errors are at the first offending byte. |
| JsonTokenizer.Tokenizer.ReadEscape | xee-json/src/tokenizer.rs:384-412 | An escape is passed, or refused at its first offending byte. |
| JsonTokenizer.Tokenizer.Next | xee-json/src/tokenizer.rs:473-499 | One event or the first error, from the explicit stack and the state; after an error or the end nothing more. |
| JsonDraining.DrainAll | fuzz/src/lib.rs:187-190 | Calls until there is no more give the drain, of at most as many events as bytes. |
| JsonGrammar.ValueReads | xee-json/src/tokenizer.rs:213-268 | Wherever a value is spelled in a text, within the depth limit, the calls from there give its traversal and end right behind it. |
| JsonDraining.TextDrains | xee-json/src/tokenizer.rs:139-152 | A JSON text drains without an error to the traversal of its value. |
| JsonDraining.DrainIsText | xee-json/src/tokenizer.rs:139-152 | A drain without an error was of a JSON text, and its events are the traversal of its value. |
| JsonDraining.AcceptsExactlyTexts | xee-json/src/tokenizer.rs:139-152 | A drain ends without an error if and only if the text is a JSON text of RFC 8259 within the depth limit, after a byte order mark only where it is ignored. |
| JsonRuns.ErrorIsLocated | fuzz/src/lib.rs:195-196 | An error's offset is the text's length exactly if the error is the unexpected end, and inside the text otherwise. |
| JsonRuns.ErrorIsDecided | fuzz/src/lib.rs:196-197 | Any other error is decided by what is before and at its offset: the text cut anywhere after that gives the same events and the same error. |
| JsonRuns.LowerDepth | fuzz/src/lib.rs:122-124 | A lower depth limit gives the same drain, or a beginning of it ended by the depth error. |
| JsonRuns.DepthIsLimited | fuzz/src/lib.rs:190-198 | No more containers than the limit are ever open, and the depth error is given with exactly the limit open. |
| JsonRuns.PolicyIsForBoms | fuzz/src/lib.rs:125 | Without a leading byte order mark the policy changes nothing. |
| JsonShift.DrainBehind | fuzz/src/lib.rs:126-128 | From the first event on, other bytes before a text change no event, and move the error by as many bytes. |
| JsonShift.BomIsSkipped | fuzz/src/lib.rs:126-128 | Where it is ignored, a byte order mark that no other one follows gives the events of the text behind it, and the same error three bytes later. |
| JsonEscapes.SurrogatesPair | xee-json/src/writer.rs:560-573 | The two code units of a character outside the Basic Multilingual Plane are a pair that decodes to it. |
| JsonEscapes.SpelledMeans | xee-json/src/writer.rs:533-573 | What is written for a text decodes to it, whatever characters the output's encoding has. |
| JsonSpellings.EncodedIsWrittenFor | xee-json/src/writer.rs:533-573 | A character is escaped exactly if it is a quotation mark, a reverse solidus, a solidus, a control character up to U+001F or from U+007F to U+009F, or one the encoding lacks: by two characters, or by `\u` and four upper-case digits, twice outside the Basic Multilingual Plane. |
| JsonUtf8.Utf8Decodes | xee-json/src/writer.rs:552-555 | What is written for characters in UTF-8 is decoded, by the ranges of RFC 3629, to the same characters. |
| JsonWriter.Writer.Number | xee-json/src/writer.rs:288-300 | A number of the grammar is written where a value fits; otherwise the call is refused, with the first reason, and nothing is changed. |
| JsonWriter.Writer.OpenKey | xee-json/src/writer.rs:325-351 | A key opens only in an object that is not waiting for a value; otherwise the call is refused and nothing is changed. |
| JsonWriter.Writer.Text | xee-json/src/writer.rs:353-360 | Part of a string is appended where one is open, and refused otherwise: each character as itself in UTF-8 exactly if it need not be escaped and the encoding has it, or else as an escape that decodes to it. |
| JsonWriter.Writer.End | xee-json/src/writer.rs:470-492 | A container is closed only if it is the innermost one and no value is missing; otherwise nothing is changed. |
| JsonWriter.Writer.PushEscaped | xee-json/src/writer.rs:508-573 | The loops over characters and hexadecimal digits append, for each character, an escape that decodes to it if it must be escaped or the encoding lacks it, and otherwise its UTF-8. |
| JsonWriter.Writer.Finish | xee-json/src/writer.rs:266-275 | The text is given exactly if it is one whole value. |
| JsonEncodings.CallAppends | xee-json/src/writer.rs:228-255 | Whatever call is accepted, every character past ASCII that it writes unescaped is one of its text, no control, and one the encoding in force has. |
| JsonEncodings.RunKeepsTo | xee-json/src/writer.rs:228-255 | For every sequence of calls the output is one piece for each call, and every character past ASCII that stands in a piece unescaped the encoding in force at that call had. |
| JsonEncodings.AsciiOnly | xee-json/src/writer.rs:228-255 | If the encodings given have nothing past ASCII, every byte of the output is ASCII. |
| JsonPrinting.ValueIsPrinted | xee-json/src/writer.rs:9-22 | The calls for a value print what a recursive printer does: in the compact layout no white space, in the indented one each element and member on a line of its own two spaces deeper than its container, and empty containers closed at once. |
| JsonRoundTrip.FinishedReads | xee-json/src/writer.rs:139-170 | Misuse is an error, never invalid output: for every sequence of calls, refused ones included, the text of a finished writer drains without an error, at any depth limit the writing kept, to the events of the accepted calls, with every key and string decoding to the text given in one part or many. |
| JsonValues.ValueReadsBack | xee-json/src/writer.rs:139-170 | Every value can be written, in both layouts and with any encoding, and is read back: none of its calls is refused, and the text drains to its traversal at any limit it is within. |
| IrCode.DecodesEncoded | xee-interpreter/src/interpreter/instruction.rs:165-447 | An instruction that fits its fields is read back from its bytes wherever they stand. |
| IrMachine.EndsOnce | xee-interpreter/src/interpreter/interpret.rs:96-100 | An execution ends in one way only. |
| IrExpr.JoinAllSplits | xee-ir/src/function_compiler.rs:587-593 | Of an associative operator, all values joined from the left are the first part joined with the second, errors included. |
| IrJoins.Carries | xee-ir/src/function_compiler.rs:587-593 | One join for each trailing zero bit of the count joins runs of equal length, and leaves the runs of the count's set bits. |
| IrJoins.FewRuns | xee-ir/src/function_compiler.rs:591-592 | No more runs wait than the count has bits. |
| IrJoins.FewJoins | xee-ir/src/function_compiler.rs:591-592 | No item takes part in more joins than the number of items has bits, the last joins included. |
| IrJoins.NextRuns | xee-ir/src/function_compiler.rs:604-612 | After each item and its joins the runs are the items so far in their order, joined run by run; a join is an error only if the items so far are one. |
| IrJoins.LastRuns | xee-ir/src/function_compiler.rs:612-623 | The last joins leave one value, all items joined from the left, or an error exactly if that is one. |
| IrCorrect.ConnectiveRuns | xee-ir/src/function_compiler.rs:271-318 | The branches of `and` and `or` over two values leave one boolean and nothing else on the stack, whichever value decides. |
| IrCorrect.FilterTurn | xee-ir/src/function_compiler.rs:705-760 | A turn of a filter keeps the item if its body is a number equal to the position, or else if its effective boolean value is true. |
| IrCorrect.QuantifiedTurn | xee-ir/src/function_compiler.rs:873-927 | A turn leaves the loop exactly if the body's value decides, and otherwise begins the next turn with the stack as it was. |
| IrCorrect.JoinsRun | xee-ir/src/function_compiler.rs:604-623 | Join instructions in a row join the last values on the stack, and leave the ones below alone. |
| IrCorrect.EmitRuns | xee-ir/src/function_compiler.rs:36-98 | An expression's code, where it is emitted (`IrLimits.EmitCounts`), on any stack that serves its names, leaves the stack with the expression's value on it and continues right behind the code; it ends with an error exactly if the expression has no value. |
| IrCorrect.FunctionRuns | xee-ir/src/function_compiler.rs:334-368 | A function's code, called with its arguments and what it captured, returns the value of its body, or ends with an error exactly if there is none. |
| IrCorrect.FunctionCloses | xee-ir/src/function_compiler.rs:137-149 | A function inside no other captures nothing. |
| IrCompiler.Scopes.Get | xee-ir/src/scope.rs:11-18 | The slot of a name is that of its latest declaration still in scope. |
| IrCompiler.FunctionBuilder.EmitJumpBackward | xee-ir/src/builder.rs:126-151 | The jump leads back to the place remembered, and is refused exactly if the way is longer than a signed 16-bit field holds. |
| IrCompiler.FunctionBuilder.PatchJump | xee-ir/src/builder.rs:167-184 | The jump patched leads to where the code ends, and is refused exactly if that is further than the field holds; no other byte changes. |
| IrCompiler.PatchLeads | xee-ir/src/builder.rs:167-184 | The bytes patched are those of the jump to the end of the code. |
| IrCompiler.FunctionBuilder.AddClosureName | xee-ir/src/builder.rs:79-92 | A captured name has one place however often it is used, within the table's limit. |
| IrCompiler.FunctionCompiler.CompileVariable | xee-ir/src/function_compiler.rs:137-157 | A local is read from its slot, a name of an enclosing function is captured, any other is refused. |
| IrCompiler.FunctionCompiler.CompileConnective | xee-ir/src/function_compiler.rs:271-318 | The four patched jumps are those of the connective's code. |
| IrCompiler.FunctionCompiler.CompileIf | xee-ir/src/function_compiler.rs:182-191 | The condition, both branches and the patched jumps around them are the conditional's code. |
| IrCompiler.FunctionCompiler.CompileMap | xee-ir/src/function_compiler.rs:673-703 | The loop with its patched exit and its jump back is the map's code, and its names are gone afterwards. |
| IrCompiler.FunctionCompiler.CompileFilter | xee-ir/src/function_compiler.rs:705-760 | The filter's loop, with both ways to decide whether an item is kept and the jumps around them, is the filter's code. |
| IrCompiler.FunctionCompiler.CompileQuantified | xee-ir/src/function_compiler.rs:873-927 | The loop with its early way out of the body, and both answers after it, is the quantified expression's code. |
| IrCompiler.FunctionCompiler.CompileJoined | xee-ir/src/function_compiler.rs:594-627 | The items' code with the joins between them, while each run that waits holds a slot of its own. |
| IrCompiler.FunctionCompiler.CompileExpr | xee-ir/src/function_compiler.rs:36-98 | Compiling an expression after the code there is appends its code and leaves the names as they were. It is refused if and only if a name is not known or past the last slot, a jump is longer than 32,767 bytes, or there are more than 65,536 constants or captured names; the code and the tables grow by what was counted. |
| IrCompiler.CompileFunction | xee-ir/src/function_compiler.rs:334-360 | A function's parameters are its first slots, its body's value is returned, and the enclosing names are as before; it compiles if and only if its body keeps the limits. |
| IrLimits.EmitCounts | xee-ir/src/builder.rs:68-184 | Counted by recursion on the expression: code is emitted if and only if its cost is affordable, with the limits as numbers, and its bytes, constants and captured names are those counted. |
| IrLimits.Compiles | xee-ir/src/builder.rs:68-184 | A well-formed expression whose names are known compiles if its jumps are at most 32,767 bytes long and it has at most 65,536 names on the stack, constants and captured names. |
| IrLimits.RefusedFor | xee-ir/src/function_compiler.rs:137-157 | A refusal means that a name is not known or one of these numbers is passed. |
| SetChains.WalkChain | xee-xpath-compiler/src/ast_ir.rs:918-940 | The walk down the left operands and the reversal give the chain's operands in order. |
| SetChains.ChainMeans | xee-xpath-compiler/src/ast_ir.rs:918-965 | The operators found, applied from the left, mean what the expression does; a parenthesized operand is none of its links. |
| SetChains.Sort | xee-xpath-compiler/src/ast_ir.rs:405-413 | The operands are sorted by their operator, each kind in its order. |
| SetChains.DifferenceRegroups | xee-xpath-compiler/src/ast_ir.rs:384-392 | Applied from the left, a chain of `intersect` and `except` is the intersection of those kept, except the union of those removed. |
| SetChains.UnionRegroups | xee-xpath-compiler/src/ast_ir.rs:373-383 | A union chain is the union of all its operands. |
| SetChains.LoweringMeans | xee-xpath-compiler/src/ast_ir.rs:373-427 | An expression of these operators means what its lowering gives, errors of the operands included. |
| IrLowering.NamesDiffer | xee-ir/src/variables.rs:43-47 | Names made up from different counts are different. |
| IrLowering.FoldBindings | xee-ir/src/binding.rs:57-80 | The fold gives the bindings as nested `let` expressions, the last one innermost. |
| IrLowering.Converter.Convert | xee-xpath-compiler/src/ast_ir.rs:81-690 | The conversion with its counter and its stack of contexts gives the lowered expression, or refuses where the lowering does. |
| IrLowered.LowerShapes | xee-xpath-compiler/src/ast_ir.rs:81-690 | Of everything lowered: it is lowered if its variables are declared, its names are new and stay apart from all names in use, and it is well formed. |
| IrMeaning.LogicMeans | xee-xpath-compiler/src/ast_ir.rs:454-515 | `and` and `or` are left-to-right: if the first operand decides, an error of the second one is never seen; the value is a boolean. |
| IrMeaning.VariableLoopMeans | xee-xpath-compiler/src/ast_ir.rs:646-689 | `for`, `some` and `every` bind their variable to each item in turn and leave the focus alone. |
| IrMeaning.FocusLoopMeans | xee-xpath-compiler/src/ast_ir.rs:95-183 | Maps, path steps and predicates evaluate their body with each item as the focus, its position and the number of items; the focus before is back afterwards. |
| IrMeaning.JoinedMeans | xee-xpath-compiler/src/ast_ir.rs:429-452 | A sequence or a node set is its operands' values joined from the left, or an error if one of them is. |
| IrMeaning.LowerMeans | xee-xpath-compiler/src/ast_ir.rs:81-690 | Every expression of the core means what its lowering does, in every context. |
| IrMeaning.ExpressionRuns | xee-xpath-compiler/src/ast_ir.rs:42-79 | From the expression to its bytecode, where it compiles (`IrPrices.ExpressionCompiles`): called with the context and the declared variables, the machine returns the expression's value, and ends with an error exactly where the expression has none. |
| IrPrices.LowerPrices | xee-xpath-compiler/src/ast_ir.rs:81-690 | What the lowered expression costs is read off the expression, bindings and operands included. |
| IrPrices.LowerNeeds | xee-xpath-compiler/src/ast_ir.rs:81-690 | The lowered expression needs no names but those of the variables in scope and of the focus. |
| IrPrices.ExpressionCompiles | xee-xpath-compiler/src/ast_ir.rs:42-79 | An expression whose variables are declared compiles if its jumps are at most 32,767 bytes long and it has at most 65,536 constants and names on the stack; its code is as long as was read off, and code with a longer jump or more constants is refused. |
| IrPrices.WithinLimitsRuns | xee-xpath-compiler/src/ast_ir.rs:42-79 | Within these numbers every expression is compiled, and the machine returns its value, or ends with an error exactly where it has none. |

## Left out

- Parsing patterns (`xee-regex/src/parse.rs`) and the Unicode tables: trees and the table of case variants are arbitrary inputs that satisfy what the parser and the table guarantee.
- UTF-8: positions are character indices, so the scans' charges count characters, and `boundary` has nothing to round. Byte lengths appear where a limit counts them.
- Memory ceilings (`Budget::hold`), and charged steps other than the PikeVM's and the scans': a call that runs out of budget is not modelled. The PikeVM's cost of allocating its lists is not counted.
- The index of character sets: an instruction holds its set, where the source holds a number that copies of a repetition share.
- Addresses: what `analyse` stores by a body's address is computed from the body.
- Repetition counts and lengths are unbounded numbers, except that minimum lengths saturate at the largest `u64`.
- Backtrack.Cache.Step: a slot outside the program's slots is ignored, where the source would panic; no parsed pattern has one.
- `for_each_match` hands matches to a callback one by one; here it returns their list, and the operations loop over that.
- The program listing, error messages, `xsd`'s unknown block names and sizes on the heap.
- JSON strings written verbatim (`string_verbatim`): the source gives no guarantee for them.
- That a JSON text is UTF-8: bytes past ASCII are kept as they are, so character boundaries of error offsets are not stated. Line and column numbers and messages are left out.
- Which characters the output encoding has is a function given before the first call or between calls, where the source takes it when the writer is made.
- JSON values of F&O (`parse-json`, maps, duplicate keys) are built by other crates from the events.
- Parsing XPath: expressions are trees of the core (`XPathCore.Ast`), and `for`, `let` and quantified expressions bind one variable, as the parser nests them.
- The rest of the expression language: function calls, inline functions as values, closures and static function references, axis steps, casts, `instance of`, `treat`, lookups, and map and square array constructors. A function that captures names is modelled (`IrCorrect.FunctionRuns`), making it a value is not.
- XSLT: the iterating forms, building of XML, templates and pattern predicates.
- The kinds of errors, their places and messages: an error is one value. Which of two errors is found first is not modelled.
- The machine's calls and frames, its time and memory; a stack is of any height.
- IrPrices.ExpressionCompiles: more than 65,536 names on the stack are no reason to refuse while none past the last slot is looked up; the exact condition is the one of `IrLimits.EmitCounts`.
- `IrCompiler.Scopes`: popping with nothing to pop, where the source would panic or ignore it, is excluded; no compilation does it.
- Every other crate of the repository.

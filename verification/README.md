# Verified models of LuaNode components

LuaNode puts a Lua 5.1 interpreter, LPeg, a JSON library and device drivers on the ESP8266. These
Dafny models cover the parts of it with the most state and the hardest arguments:

- **LPeg** (`components/lpeg`): the tree analyses, the checks on grammars, the code generator with its
  head-fail, test and follow-set optimizations, tail calls, jump optimization, the matching machine,
  and the capture list. The main result is that compiling and matching an accepted pattern ends and
  gives the end position and the captures that the pattern means, outside the gaps that are findings
  1 to 3 below; and the checks, with the repair of finding 1, accept exactly the patterns in which no
  rule leads back to itself and nothing is repeated that may match the empty string. `Peg`, `Analysis`,
  `Accept`, `Budgets`, `CaptureSearch`, `Settled`, `CodeGen`, `Layout`, `Placement`, `Correct`, `Machine`,
  `Peephole`, `Jumps`, `Compiler` are pure; `Emit` and `Vm` are the imperative generator and machine, tied
  to them by `Within`; `TreeFix` is the in-place final fix of a tree and of a grammar; `Captures` and
  `CaptureList` treat the capture list. What the analyses must answer is stated in terms of its own, by the form of a pattern,
  in `Acceptance` (the checks), `LookBehind` (`lua_behind`) and `Effects` (first sets and the
  instructions chosen by them); `Cleaned` states what the peephole leaves, `Widths` that every field
  fits its byte.
- **The garbage collector** (`components/lua/lgc.c`): incremental tri-colour marking, the atomic step
  with weak tables, sweeping of strings, objects and open upvalues, barriers, allocation, the full
  collection, and every interleaving of these with a program. `GcHeap`, `GcMark`, `GcCycle`,
  `GcClear`, `GcSweep`, `GcSteps`, `GcMutator`, `GcAlloc`, `GcFull`, `GcRuns` state the transitions
  and what they keep; `GcRefs` states on the fields alone what each kind of object refers to, and what a
  full collection leaves in a table; `Collector` is the imperative collector, equal to them step by step.
- **Upvalues** (`lfunc.c`): the list of open upvalues of each thread and the ring through all of them,
  as addresses in a heap (`Upvalues`).
- **Code generation in the Lua compiler**: jump lists threaded through jump offsets (`lcode.c`,
  `PatchLists`), the run-length coded line numbers (`lcode.c`, `ldebug.c`, `LineInfo`) and precedence
  climbing (`lparser.c`, `SubExpr`).
- **Drivers and numbers**: the PWM event tables and the interrupt that plays them (`driver/pwm.c`,
  `Pwm`), and the multi-word arithmetic below number printing (`cjson/dtoa.c`, `BigInt`).

Analyses that the C code runs without a bound have a budget here. The results about them hold for
every budget; `Budgets` shows that every sufficient budget gives the same answers, and `Settled` that
it gives the same code.

## Findings

Each of these is a failure of the program. A member names its input and proves that it fails.

1. **A pattern with a sub-grammar can loop for ever** (`lptree.c:1031-1032`). `verifyrule` answers
   `nullable(tree)` for a sub-grammar and forgets `nb`, so a predicate or repetition around a
   sub-grammar can look as if it consumed something. `Accept.DroppedFlag`, A <- G* A with a
   sub-grammar G that matches one `x`, is accepted (`Accept.DroppedFlagAccepted`), and no budget is
   enough to match it on any subject (`Accept.DroppedFlagDiverges`). With `nb || nullable(tree)` the
   check is right; `Accept.NoGaps` asks that the used rules also pass that repaired check.
2. **A look-behind can call the rule it is in** (`lptree.c:1003-1004`). The comment says that a
   look-behind cannot have calls, but the length of a predicate is fixed whatever it calls.
   `Accept.BehindCalls`, A <- B(&A), is accepted when assertions are compiled out
   (`lpcode.c:138`) and never ends (`Accept.BehindCallsAccepted`, `Accept.BehindCallsDiverges`).
   `Accept.NoGaps` asks that no look-behind of a used rule calls a rule that can lead back to it; other
   calls from look-behinds are harmless.
3. **The search for captures does not end on recursive rules** (`lpcode.c:131-151`): it follows calls
   without a bound, so a pattern that all checks accept is never compiled. The input is
   `CaptureSearch.Endless`, S <- &!A 'c' with A <- 'a' A / 'b' (`EndlessAccepted`, `EndlessSearch`,
   `EndlessAsked` in that module). The order of the search matters: with A <- 'a' A / {'b'} it does not
   end either, with A <- {'b'} / 'a' A it does (`CaptureSearch.CaptureBehindCall`). The exact condition
   is `CaptureSearch.SearchEnds`: the search ends if and only if a scan that remembers the rules that it
   is following comes to a capture or to the end before it would enter one of them again.
   `CaptureSearch.SearchesEnd` asks that of every search that the generator makes.
4. **luaK_fixline goes back to a wrong line** (`lcode.c:849-857`). It reads the delta bytes backwards
   and gives each the same weight. `LineInfo.SlipFree` is the exact condition: it is right if and only if
   the delta has at most one byte, or what is left for its further bytes is 254.
   `LineInfo.SlippedLine` is an example: two instructions on lines 1 and 67, the second moved to line 60,
   and then read back as 124. If the instruction is alone in the first run, the walk reads the byte
   before the vector: `LineInfo.FuncLines.FixLine` says so for exactly the calls with not `CanFix`, and
   `LineInfo.FirstRunMoved` is an example, a function statement on line 2 that assigns to a
   local variable and ends on line 3 (`lparser.c:1248-1258`).
5. **A pwm_start in a period that has had one writes the table being played** (`pwm.c:119-187`).
   `Pwm.StartedAgain` is an example: the wait under way is that of duty 512 while the table already
   says 256. `Pwm.Driver.Start` keeps the driver in step whenever the table is spare, and says when it
   is still in step otherwise.

## Model

| member | source | states |
|---|---|---|
| Analysis.NullableSound | LuaNode-master/LuaNode_Esp8266/components/lpeg/lpcode.c:172-206 | checkaux for PEnullable: a pattern it does not call nullable consumes at least one character whenever it matches, in every grammar, subject and budget |
| Analysis.NoFailSound | LuaNode-master/LuaNode_Esp8266/components/lpeg/lpcode.c:172-206 | checkaux for PEnofail: a pattern it calls nofail never fails, wherever it is tried |
| Analysis.FixedLenSound | LuaNode-master/LuaNode_Esp8266/components/lpeg/lpcode.c:213-246 | a length other than -1 is the length of every match of the pattern |
| Analysis.FirstSound | LuaNode-master/LuaNode_Esp8266/components/lpeg/lpcode.c:267-343 | first sets are sound: if the pattern matches and either consumes something or is followed by a character of the follow set, the next character is in the first set |
| Analysis.FirstEmptySound | LuaNode-master/LuaNode_Esp8266/components/lpeg/lpcode.c:255-343 | when getfirst allows its set in a test, the pattern cannot match at the end of the subject |
| Analysis.TestSound | LuaNode-master/LuaNode_Esp8266/components/lpeg/lpcode.c:650-685 | a test on the first set that fails proves that the pattern does not match |
| Analysis.NoFailFirst | LuaNode-master/LuaNode_Esp8266/components/lpeg/lpcode.c:267-343 | a nofail pattern has the full first set, so no test is ever made for it |
| Analysis.HeadFailExact | LuaNode-master/LuaNode_Esp8266/components/lpeg/lpcode.c:345-372 | a headfail pattern matches if and only if the next character is in its first set |
| Analysis.BehindExact | LuaNode-master/LuaNode_Esp8266/components/lpeg/lptree.c:680-690 | a look-behind whose body matches from that many characters before ends where it began and has no captures |
| LookBehind.BehindExactly | LuaNode-master/LuaNode_Esp8266/components/lpeg/lptree.c:680-690 | lua_behind accepts a pattern if and only if all its matches have one length, at most 255, and it has no capture |
| Effects.FirstExact | LuaNode-master/LuaNode_Esp8266/components/lpeg/lpcode.c:267-343 | the first set is exactly the characters that may start the pattern, and those of the follow set if it may be empty; it is refused for a test exactly then |
| Effects.HeadThenNoFail | LuaNode-master/LuaNode_Esp8266/components/lpeg/lpcode.c:345-372 | one character and then what cannot fail is headfail, in every shape of that |
| Budgets.CheckAuxSettles | LuaNode-master/LuaNode_Esp8266/components/lpeg/lpcode.c:172-206 | checkaux ends on every accepted pattern outside the gaps: all sufficient budgets give one answer |
| Budgets.FirstSettles | LuaNode-master/LuaNode_Esp8266/components/lpeg/lpcode.c:267-343 | getfirst ends on every accepted pattern outside the gaps: all sufficient budgets give one first set |
| Budgets.HeadFailSettles | LuaNode-master/LuaNode_Esp8266/components/lpeg/lpcode.c:350-372 | headfail ends on every accepted pattern outside the gaps: all sufficient budgets give one answer |
| CaptureSearch.SearchEnds | LuaNode-master/LuaNode_Esp8266/components/lpeg/lpcode.c:131-151 | exact condition: hascaptures ends if and only if a scan that never enters a rule that it is following has an answer |
| CaptureSearch.SearchExact | LuaNode-master/LuaNode_Esp8266/components/lpeg/lpcode.c:131-151 | whatever hascaptures answers is what the scan answers, and one call for each rule is enough to get it |
| CaptureSearch.SearchAnswers | LuaNode-master/LuaNode_Esp8266/components/lpeg/lpcode.c:131-151 | the generator takes a body to have captures unless the search comes to the end without one |
| CaptureSearch.GeneratorEnds | LuaNode-master/LuaNode_Esp8266/components/lpeg/lpcode.c:693-729 | the searches that the generator makes at predicates and captures all end if and only if each of their scans has an answer |
| CaptureSearch.CaptureBehindCall | LuaNode-master/LuaNode_Esp8266/components/lpeg/lpcode.c:131-151 | behind a recursive call a capture is not found after any number of calls; before it, at once |
| CaptureSearch.EndlessSearch | LuaNode-master/LuaNode_Esp8266/components/lpeg/lpcode.c:131-151 | the search below &!A with A <- a A / b has no answer after any number of calls |
| CaptureSearch.EndlessAsked | LuaNode-master/LuaNode_Esp8266/components/lpeg/lpcode.c:693-698 | the generator makes that search |
| CaptureSearch.EndlessAccepted | LuaNode-master/LuaNode_Esp8266/components/lpeg/lptree.c:995-1056 | the checks accept that grammar, and it is in neither of their gaps |
| Accept.FlagKept | LuaNode-master/LuaNode_Esp8266/components/lpeg/lptree.c:995-1036 | the accumulator nb works as its comment says in the repaired check: once set, the answer is true |
| Accept.VerdictSound | LuaNode-master/LuaNode_Esp8266/components/lpeg/lptree.c:995-1036 | an answer of not nullable by the repaired check is right: the pattern consumes something when it matches |
| Accept.RepairedStricter | LuaNode-master/LuaNode_Esp8266/components/lpeg/lptree.c:995-1036 | what the repaired check accepts the program accepts too, so the gap is one-sided |
| Acceptance.NullableExact | LuaNode-master/LuaNode_Esp8266/components/lpeg/lpcode.c:172-206 | in a grammar without left cycle, of at most 1000 rules, a pattern is called nullable if and only if it may be empty by its form |
| Acceptance.LoopsExact | LuaNode-master/LuaNode_Esp8266/components/lpeg/lptree.c:952-966 | checkloops finds a loop if and only if some repetition, outside sub-grammars, has a body that may be empty |
| Acceptance.ErrorChain | LuaNode-master/LuaNode_Esp8266/components/lpeg/lptree.c:995-1036 | only a chain of more than 1000 calls, each before anything is consumed, is refused |
| Acceptance.NoCyclePasses | LuaNode-master/LuaNode_Esp8266/components/lpeg/lptree.c:995-1036 | if no rule comes back to itself before it consumes something, verifyrule accepts every rule, with the dropped flag or without |
| Acceptance.SaneAccepted | LuaNode-master/LuaNode_Esp8266/components/lpeg/lptree.c:952-1056 | completeness: every pattern without left cycle and empty loop is accepted |
| Acceptance.AcceptedExactly | LuaNode-master/LuaNode_Esp8266/components/lpeg/lptree.c:952-1056 | a pattern is accepted, and its used rules pass the repaired check, if and only if no used rule leads back to itself and no repetition has a body that may be empty |
| Accept.AcceptedHalts | LuaNode-master/LuaNode_Esp8266/components/lpeg/lptree.c:952-1056 | termination: an accepted pattern outside the two gaps has an outcome on every subject from every position |
| Accept.DroppedFlagAccepted | LuaNode-master/LuaNode_Esp8266/components/lpeg/lptree.c:1031-1032 | a left-recursive grammar behind a repeated sub-grammar is accepted |
| Accept.DroppedFlagDiverges | LuaNode-master/LuaNode_Esp8266/components/lpeg/lptree.c:1031-1032 | matching that grammar ends for no budget, subject and position |
| Accept.BehindCallsAccepted | LuaNode-master/LuaNode_Esp8266/components/lpeg/lptree.c:1002-1004 | a rule that looks behind at itself is accepted |
| Accept.BehindCallsDiverges | LuaNode-master/LuaNode_Esp8266/components/lpeg/lptree.c:1002-1004 | matching that rule ends for no budget, subject and position |
| Accept.GapsFound | LuaNode-master/LuaNode_Esp8266/components/lpeg/lptree.c:995-1056 | the condition for termination rejects both inputs |
| Captures.EncodeCat | LuaNode-master/LuaNode_Esp8266/components/lpeg/lpvm.c:330-347 | the capture list of two matches in a row is the lists of both, one after the other |
| Captures.CloseEncodes | LuaNode-master/LuaNode_Esp8266/components/lpeg/lpvm.c:314-347 | closing a capture, folded into its open entry or not, completes exactly the list of that capture and leaves what is below; every size still fits a byte |
| CaptureList.ParseEncode | LuaNode-master/LuaNode_Esp8266/components/lpeg/lpcap.c:63-110 | a capture list is read back as the forest of captures it came from, with folded and unfolded entries meaning the same |
| CaptureList.EncodeInjective | LuaNode-master/LuaNode_Esp8266/components/lpeg/lpvm.c:314-347 | different forests of captures never have the same list |
| CaptureList.MatchDenotes | LuaNode-master/LuaNode_Esp8266/components/lpeg/lpvm.c:314-347 | the list that a match reports is well bracketed within the match, denotes the captures of the pattern, and has only sizes that fit a byte |
| Widths.CutDenotes | LuaNode-master/LuaNode_Esp8266/components/lpeg/lpcap.h:19-24 | with all sizes cut to a byte the list still denotes the captures of the pattern |
| Widths.ShortCaptures | LuaNode-master/LuaNode_Esp8266/components/lpeg/lpvm.c:314-329 | a capture without captures inside has one entry if it is shorter than 255 characters, and two otherwise |
| Widths.CodeNarrow | LuaNode-master/LuaNode_Esp8266/components/lpeg/lpcode.c:632-729 | in the code of every pattern, optimized or not, a look-behind is at most 255, the offset of a full capture below 16, and the others fit too |
| CaptureList.BracketsMatch | LuaNode-master/LuaNode_Esp8266/components/lpeg/lpcap.c:45-76 | counting forward from an open entry ends at its own close entry, and counting backward from there ends at the same open entry |
| CaptureList.CapState.NextCap | LuaNode-master/LuaNode_Esp8266/components/lpeg/lpcap.c:63-76 | from one capture the cursor moves just behind the last entry of the same capture |
| CaptureList.CapState.FindOpen | LuaNode-master/LuaNode_Esp8266/components/lpeg/lpcap.c:49-60 | from a close entry the walk back ends at the open entry of the same capture |
| Layout.CorrectCallsSpec | LuaNode-master/LuaNode_Esp8266/components/lpeg/lpcode.c:816-833 | correctcalls closes exactly the open calls of known rules: as jumps if a return followed before, only if one follows after, and as calls otherwise; every other cell stays |
| Correct.CorrectFragment | LuaNode-master/LuaNode_Esp8266/components/lpeg/lpcode.c:534-916 | code for any tree, wherever it is placed and under every opt, test and follow set, leads the machine to the outcome of the tree: its end with its captures, or failure |
| Effects.SpanOfChars | LuaNode-master/LuaNode_Esp8266/components/lpeg/lpcode.c:749-785 | a repeated single character, set or any character is one span over it |
| Effects.ChoiceByHead | LuaNode-master/LuaNode_Esp8266/components/lpeg/lpcode.c:650-685 | a choice whose first part is one character is a test on it and a jump, without a backtrack entry |
| Effects.ChoiceByTest | LuaNode-master/LuaNode_Esp8266/components/lpeg/lpcode.c:650-685 | so is a choice between parts that start with different characters |
| Effects.RepeatUntil | LuaNode-master/LuaNode_Esp8266/components/lpeg/lpcode.c:749-785 | a repetition until a character that cannot start its body needs no backtrack entry |
| Effects.ChooseUntil | LuaNode-master/LuaNode_Esp8266/components/lpeg/lpcode.c:650-685 | nor does an option before such a character |
| Effects.CaptureOfChars | LuaNode-master/LuaNode_Esp8266/components/lpeg/lpcode.c:717-729 | a capture of fixed length and without captures inside is one full capture behind its pattern, if its length is below 16 |
| Effects.PredicateOfChars | LuaNode-master/LuaNode_Esp8266/components/lpeg/lpcode.c:693-709 | a predicate of fixed length and without captures needs no backtrack entry |
| Effects.TestedOnce | LuaNode-master/LuaNode_Esp8266/components/lpeg/lpcode.c:534-584 | a character or set that a test has just seen is only skipped |
| Compiler.GeneratedCorrect | LuaNode-master/LuaNode_Esp8266/components/lpeg/lpcode.c:885-916 | generated code from start to IEnd reports the outcome of the pattern |
| Compiler.CompiledCorrect | LuaNode-master/LuaNode_Esp8266/components/lpeg/lpcode.c:970-982 | compiler correctness with jump optimization: the machine reports the same end and captures as the meaning of the pattern, or its failure |
| Compiler.AcceptedJumps | LuaNode-master/LuaNode_Esp8266/components/lpeg/lpcode.c:610-628 | the jump chains in the code of an accepted pattern outside the gaps end, so finaltarget and the redo loop of peephole end |
| Settled.GenSettles | LuaNode-master/LuaNode_Esp8266/components/lpeg/lpcode.c:534-916 | all sufficient budgets of the analyses give the same code for a tree of an accepted pattern whose searches end |
| Settled.PatternSettles | LuaNode-master/LuaNode_Esp8266/components/lpeg/lpcode.c:885-916 | the code of an accepted pattern outside the gaps, whose searches end, depends on no budget: it is what the program generates |
| Compiler.AcceptedCompiles | LuaNode-master/LuaNode_Esp8266/components/lpeg/lpcode.c:970-982 | for an accepted pattern outside the gaps whose searches end, the code is the same for all sufficient budgets, matching has an outcome, and the optimized code reports it |
| Peephole.OptimizeKeepsRuns | LuaNode-master/LuaNode_Esp8266/components/lpeg/lpcode.c:924-967 | jump optimization refines code whose jump chains end: each result of the code is one of the optimized code, and each result of that is one of the code, unless the code is stuck |
| Cleaned.OptimizeCleans | LuaNode-master/LuaNode_Esp8266/components/lpeg/lpcode.c:924-967 | after jump optimization no label leads to a jump, and no jump leads to a return, a failure, an end or a commit |
| Jumps.TreeEnds | LuaNode-master/LuaNode_Esp8266/components/lpeg/lpcode.c:534-916 | if the chains behind a fragment and from the rules that it calls end, so do all chains inside it |
| Vm.MatchState.Dispatch | LuaNode-master/LuaNode_Esp8266/components/lpeg/lpvm.c:158-351 | one round of the loop over arrays of captures and backtrack entries is one step of the machine; it ends exactly when the machine is done |
| Vm.Match | LuaNode-master/LuaNode_Esp8266/components/lpeg/lpvm.c:147-351 | the loop returns the result of the run |
| Emit.SearchCaptures | LuaNode-master/LuaNode_Esp8266/components/lpeg/lpcode.c:131-151 | the recursive search with its loop over the rules ends where the bounded one has an answer, with the same answer |
| Emit.CompileState.Codegen | LuaNode-master/LuaNode_Esp8266/components/lpeg/lpcode.c:534-916 | the imperative generator, with its unbounded searches, appends to the code exactly the fragment whose correctness is proved, with the test that protects it read back from the code |
| Emit.CompileState.CloseCalls | LuaNode-master/LuaNode_Esp8266/components/lpeg/lpcode.c:816-856 | correctcalls in place leaves the grammar with its calls closed |
| Emit.CompileState.Peephole | LuaNode-master/LuaNode_Esp8266/components/lpeg/lpcode.c:924-967 | the loop with its redo leaves the jumps optimized |
| Emit.CompilePattern | LuaNode-master/LuaNode_Esp8266/components/lpeg/lpcode.c:970-982 | the compiled code of a whole accepted pattern outside the gaps whose searches end: every field fits, and no label leads to a jump |
| Emit.MatchPattern | LuaNode-master/LuaNode_Esp8266/components/lpeg/lptree.c:1149-1167 | from the tree to the result: for an accepted pattern outside the gaps whose searches end, compiling and running the machine returns the end and the captures that the pattern means, on every subject, in a list whose sizes fit a byte |
| TreeFix.RotateKeepsOperands | LuaNode-master/LuaNode_Esp8266/components/lpeg/lptree.c:73-93 | reassociation keeps the operands of a chain and their order |
| TreeFix.FixedIsRightAssociative | LuaNode-master/LuaNode_Esp8266/components/lpeg/lptree.c:95-126 | after the final fix no sequence or choice has one of its own kind on the left |
| TreeFix.FixedKeepsMeaning | LuaNode-master/LuaNode_Esp8266/components/lpeg/lptree.c:95-126 | the final fix changes the outcome of no pattern on any subject and with any budget |
| TreeFix.CorrectAssociativity | LuaNode-master/LuaNode_Esp8266/components/lpeg/lptree.c:78-93 | the loop with memmove leaves in place the rotated tree, and touches no slot outside it |
| TreeFix.FinalFix | LuaNode-master/LuaNode_Esp8266/components/lpeg/lptree.c:54-126 | in place: fails if and only if some call names no rule; otherwise every call refers to its rule, chains lean right, and each rule has the key of the last call of it; nothing else outside the tree changes |
| TreeFix.FixRules | LuaNode-master/LuaNode_Esp8266/components/lpeg/lptree.c:100-126 | the walk along a list of rules fixes each body and keeps the others; nothing outside the grammar changes |
| TreeFix.KeyOfRules | LuaNode-master/LuaNode_Esp8266/components/lpeg/lptree.c:54-67 | after it a rule slot has a key if and only if some rule calls it |
| TreeFix.FixGrammar | LuaNode-master/LuaNode_Esp8266/components/lpeg/lptree.c:1062-1082 | fixing and naming a new grammar leaves keys at exactly the rules that are the initial one or called, those that verifygrammar checks |
| TreeFix.CallNumber | LuaNode-master/LuaNode_Esp8266/components/lpeg/lptree.c:54-67 | a fixed call leads to the rule slot whose number the generator takes for it |
| TreeFix.GrammarHeld | LuaNode-master/LuaNode_Esp8266/components/lpeg/lptree.c:1072-1090 | the slots then hold the grammar of the fixed rules, ready to be part of a larger pattern |
| GcRefs.RefersExactly | LuaNode-master/LuaNode_Esp8266/components/lua/lgc.c:158-305 | what each kind of object refers to, field by field |
| GcRefs.TableHolds | LuaNode-master/LuaNode_Esp8266/components/lua/lgc.c:158-196 | a table holds its metatable; its array part unless values are weak; keys of entries with a value unless keys are weak; values unless values are weak |
| GcRefs.OthersHold | LuaNode-master/LuaNode_Esp8266/components/lua/lgc.c:199-305 | every other object holds all that it refers to |
| GcRefs.RootsExactly | LuaNode-master/LuaNode_Esp8266/components/lua/lgc.c:504-523 | the roots: the main and the running thread, the registry and the metatables of the basic types |
| GcMark.MarkGrew | LuaNode-master/LuaNode_Esp8266/components/lua/lgc.c:69-112 | marking a white object makes it and its closed references not white, and only adds marks and gray entries |
| GcMark.MarkWithin | LuaNode-master/LuaNode_Esp8266/components/lua/lgc.c:69-112 | marking never leaves a set that is closed under strong references: nothing unreachable is marked |
| GcCycle.AtomicMarkCompletes | LuaNode-master/LuaNode_Esp8266/components/lua/lgc.c:525-555 | after the atomic marking nothing is gray and no black object refers strongly to a white one |
| GcCycle.AtomicMarkWithin | LuaNode-master/LuaNode_Esp8266/components/lua/lgc.c:525-555 | atomic marking marks nothing outside any closed set that holds the roots |
| GcClear.ClearAllMarks | LuaNode-master/LuaNode_Esp8266/components/lua/lgc.c:348-386 | a string that clearing marks is one that it looks at in some weak table |
| GcClear.ClearAllSees | LuaNode-master/LuaNode_Esp8266/components/lua/lgc.c:348-386 | and every string that clearing looks at in a weak table is marked |
| GcClear.AtomicCloses | LuaNode-master/LuaNode_Esp8266/components/lua/lgc.c:536-563 | the atomic step, clearing and flip included, restores the central invariant for the new white |
| GcClear.OnlyUnreachableCleared | LuaNode-master/LuaNode_Esp8266/components/lua/lgc.c:359-386 | a weak table loses only entries of which the key or value is an object, not a string, that nothing holds strongly; no other object changes |
| GcSweep.SweepBucketReclaims | LuaNode-master/LuaNode_Esp8266/components/lua/lgc.c:418-437 | sweeping a bucket frees its dead strings, whitens the rest, and keeps which list owns what |
| GcSweep.CloseAllSwept | LuaNode-master/LuaNode_Esp8266/components/lua/lfunc.c:95-111 | freeing a thread closes all its upvalues and leaves none open |
| GcSteps.SingleStepKeeps | LuaNode-master/LuaNode_Esp8266/components/lua/lgc.c:576-622 | every collector step keeps the invariant and frees no object that a root reaches, strongly or weakly |
| GcMutator.WriteTableKeeps | LuaNode-master/LuaNode_Esp8266/components/lua/lgc.c:706-714 | a table write with the back barrier keeps the invariant in every phase |
| GcMutator.WriteObjectKeeps | LuaNode-master/LuaNode_Esp8266/components/lua/lgc.c:693-703 | a write to any other object with the forward barrier keeps the invariant in every phase |
| GcMutator.SetStackKeeps | LuaNode-master/LuaNode_Esp8266/components/lua/lgc.c:258-305 | stacks may be written without a barrier |
| GcAlloc.InsertKeeps | LuaNode-master/LuaNode_Esp8266/components/lua/lgc.c:725-731 | linking a new object keeps the invariant in every phase |
| GcAlloc.NewStringKeeps | LuaNode-master/LuaNode_Esp8266/components/lua/lstring.c:55-81 | interning a new string keeps the invariant in every phase |
| GcAlloc.ResurrectKeeps | LuaNode-master/LuaNode_Esp8266/components/lua/lstring.c:84-102 | taking up a dead string or upvalue again keeps the invariant |
| GcAlloc.FindUpvalKeeps | LuaNode-master/LuaNode_Esp8266/components/lua/lfunc.c:52-78 | finding or making an upvalue keeps the invariant, frees nothing, and the result is alive |
| GcAlloc.CloseKeeps | LuaNode-master/LuaNode_Esp8266/components/lua/lfunc.c:95-111 | closing upvalues keeps the invariant and everything that is alive |
| GcFull.FullGcEnds | LuaNode-master/LuaNode_Esp8266/components/lua/lgc.c:664-690 | from every phase a full collection ends in pause with all objects white |
| GcFull.ResetFreesNothing | LuaNode-master/LuaNode_Esp8266/components/lua/lgc.c:664-679 | the sweep at the start of a full collection, which only takes back marks, frees nothing |
| GcFull.FullGcExact | LuaNode-master/LuaNode_Esp8266/components/lua/lgc.c:664-690 | exactly what a full collection keeps: what is strongly reachable, fixed objects, and the strings in strongly reachable weak tables |
| GcFull.FullGcExactWithoutWeak | LuaNode-master/LuaNode_Esp8266/components/lua/lgc.c:664-690 | without weak tables it keeps exactly the reachable and the fixed objects |
| GcRefs.TablesAfterFullGc | LuaNode-master/LuaNode_Esp8266/components/lua/lgc.c:348-386 | the exact content of every held table after a full collection: an entry loses its value, a field its content, if and only if it is an object, not a string, that nothing holds |
| GcRefs.WeakKeyEntryStays | LuaNode-master/LuaNode_Esp8266/components/lua/lgc.c:158-196 | an entry of a held table with weak keys stays with its value if its key is a string or held |
| GcRefs.WeakValueEntryStays | LuaNode-master/LuaNode_Esp8266/components/lua/lgc.c:158-196 | an entry of a held table with weak values stays with its key if its value is a string or held |
| GcRuns.InitialInv | LuaNode-master/LuaNode_Esp8266/components/lua/lstate.c:145-205 | the first state satisfies the invariant |
| GcRuns.DoKeeps | LuaNode-master/LuaNode_Esp8266/components/lua/lgc.c:536-749 | each operation of the program and each collector step keeps the invariant and frees only garbage |
| GcRuns.RunSafe | LuaNode-master/LuaNode_Esp8266/components/lua/lgc.c:536-749 | safety over every interleaving of a program with the collector: what the program can reach is always allocated and not about to be freed |
| Collector.GlobalState.ReallyMark | LuaNode-master/LuaNode_Esp8266/components/lua/lgc.c:69-112 | the recursive marker on the mutable heap has the effect of the transition that is proved about |
| Collector.GlobalState.PropagateOne | LuaNode-master/LuaNode_Esp8266/components/lua/lgc.c:281-331 | one gray object traversed, with its list updates |
| Collector.GlobalState.AtomicStep | LuaNode-master/LuaNode_Esp8266/components/lua/lgc.c:536-563 | the atomic step on the mutable state |
| Collector.GlobalState.Step | LuaNode-master/LuaNode_Esp8266/components/lua/lgc.c:576-622 | singlestep on the mutable state, phase by phase |
| Collector.GlobalState.FullCollection | LuaNode-master/LuaNode_Esp8266/components/lua/lgc.c:664-690 | the full collection on the mutable state, or nothing if the collector is blocked; ends in pause with the invariant |
| Collector.GlobalState.WriteToTable | LuaNode-master/LuaNode_Esp8266/components/lua/lgc.h:104-121 | table writes with a back barrier for each new value |
| Collector.GlobalState.WriteToObject | LuaNode-master/LuaNode_Esp8266/components/lua/lgc.h:104-121 | object writes with a forward barrier for each new value |
| Upvalues.OneForEachSlot | LuaNode-master/LuaNode_Esp8266/components/lua/lfunc.c:52-78 | sharing: no two open upvalues stand for the same stack slot |
| Upvalues.InsertedGood | LuaNode-master/LuaNode_Esp8266/components/lua/lfunc.c:66-77 | a new upvalue put before the first lower one keeps the thread lists strictly descending and the ring whole |
| Upvalues.PoppedGood | LuaNode-master/LuaNode_Esp8266/components/lua/lfunc.c:81-92 | taking the first upvalue out of the ring and its list keeps both |
| Upvalues.CloseAllMeaning | LuaNode-master/LuaNode_Esp8266/components/lua/lfunc.c:95-111 | exactly the upvalues at or above the level are closed; each has the value of its slot, and dead ones are freed |
| Upvalues.CloseKeepsValues | LuaNode-master/LuaNode_Esp8266/components/lua/lfunc.c:95-111 | closing changes the value of no variable |
| Upvalues.Global.FindUpval | LuaNode-master/LuaNode_Esp8266/components/lua/lfunc.c:52-78 | returns the open upvalue of the slot, the existing one if there is one, revived if it was dead |
| Upvalues.Global.Close | LuaNode-master/LuaNode_Esp8266/components/lua/lfunc.c:95-111 | on the linked heap: after it no open upvalue at or above the level is left, and the structure is whole |
| Upvalues.Global.SetUpval | LuaNode-master/LuaNode_Esp8266/components/lua/lvm.c:501-506 | an assignment through an upvalue changes that variable, for every closure that shares it, and no other variable |
| Upvalues.Global.Walk | LuaNode-master/LuaNode_Esp8266/components/lua/lgc.c:526-533 | a walk along the ring visits every open upvalue of every thread exactly once and ends |
| PatchLists.ListDistinct | LuaNode-master/LuaNode_Esp8266/components/lua/lcode.c:100-106 | a list threaded through jump offsets has no cycle |
| PatchLists.ListUnique | LuaNode-master/LuaNode_Esp8266/components/lua/lcode.c:100-106 | the first jump determines the list |
| PatchLists.SentGood | LuaNode-master/LuaNode_Esp8266/components/lua/lcode.c:150-176 | sending a list to a target keeps all other lists, the pending jumps and what was merged |
| PatchLists.JoinedGood | LuaNode-master/LuaNode_Esp8266/components/lua/lcode.c:185-196 | joining two lists makes one list of both and keeps the rest |
| PatchLists.JumpedGood | LuaNode-master/LuaNode_Esp8266/components/lua/lcode.c:59-67 | emitting a jump puts the pending jumps into its list and keeps the rest |
| PatchLists.FuncState.PatchListAux | LuaNode-master/LuaNode_Esp8266/components/lua/lcode.c:150-160 | the loop patches the whole list, and fails if and only if some target is too far |
| PatchLists.FuncState.Join | LuaNode-master/LuaNode_Esp8266/components/lua/lcode.c:185-196 | the result is the list of both, first after second; fails if and only if they are too far apart |
| PatchLists.FuncState.PatchToHere | LuaNode-master/LuaNode_Esp8266/components/lua/lcode.c:179-182 | the list joins the pending jumps |
| PatchLists.FuncState.PatchList | LuaNode-master/LuaNode_Esp8266/components/lua/lcode.c:169-176 | forward or backward target, with the exact condition for failure; every jump of the list then goes there and no other jump changes, and merged jumps that are settled end up together |
| PatchLists.FuncState.Jump | LuaNode-master/LuaNode_Esp8266/components/lua/lcode.c:59-67 | the new jump heads a list with all jumps that were pending |
| PatchLists.FuncState.Code | LuaNode-master/LuaNode_Esp8266/components/lua/lcode.c:163-166 | an emitted instruction receives exactly the jumps that were patched to here, and no other jump changes |
| PatchLists.ArrivesMeans | LuaNode-master/LuaNode_Esp8266/components/lua/lvm.c:465-639 | a jump of an expression that arrives with its value does so when the instructions are executed: it ends behind the expression and the register has that value |
| PatchLists.FuncState.FinishValue | LuaNode-master/LuaNode_Esp8266/components/lua/lcode.c:390-410 | every jump of an expression arrives behind it with its value in the register: jumps that carry a value directly, the others by the load of true or false that is right for them; never fails in code shorter than the jump limit |
| LineInfo.RunDecodes | LuaNode-master/LuaNode_Esp8266/components/lua/ldebug.c:224-249 | signed multi-byte deltas are read back as they were written |
| LineInfo.RunsFillUp | LuaNode-master/LuaNode_Esp8266/components/lua/lcode.c:872-900 | a run is ended only by another line or by its 126 instructions |
| LineInfo.ShortDeltas | LuaNode-master/LuaNode_Esp8266/components/lua/lcode.c:808-831 | the next line needs no byte, and a line up to 64 before or behind that one needs one, with this code |
| LineInfo.GetLine | LuaNode-master/LuaNode_Esp8266/components/lua/ldebug.c:224-249 | the line of an instruction is that of its run; 0 behind the last run |
| LineInfo.PackedOnlyLastZero | LuaNode-master/LuaNode_Esp8266/components/lua/lparser.c:370-374 | the cut vector has a zero only at its end, as a C string has |
| LineInfo.SlipFree | LuaNode-master/LuaNode_Esp8266/components/lua/lcode.c:849-857 | exact condition under which luaK_fixline takes back the delta that was coded |
| LineInfo.SlippedLine | LuaNode-master/LuaNode_Esp8266/components/lua/lcode.c:834-869 | two lines coded and one moved, after which it is read back wrong |
| LineInfo.FirstRunMoved | LuaNode-master/LuaNode_Esp8266/components/lua/lcode.c:834-869 | one line coded and moved, for which the byte before the vector is read |
| LineInfo.FuncLines.EraseDelta | LuaNode-master/LuaNode_Esp8266/components/lua/lcode.c:849-857 | the walk back over the delta bytes ends before them, at place -1 exactly if they are the first |
| LineInfo.FuncLines.Code | LuaNode-master/LuaNode_Esp8266/components/lua/lcode.c:872-900 | the line of each emitted instruction is recorded, also over the last one; what is read back is off by exactly the slips so far |
| LineInfo.FuncLines.FixLine | LuaNode-master/LuaNode_Esp8266/components/lua/lcode.c:834-869 | reads before the vector if and only if the run to take away is the first; otherwise the last instruction gets the new line, all others keep theirs, and the drift grows by exactly the slip |
| LineInfo.FuncLines.Trim | LuaNode-master/LuaNode_Esp8266/components/lua/lparser.c:370-374 | the vector is cut to its runs and an end mark |
| LineInfo.FuncLines.LineOf | LuaNode-master/LuaNode_Esp8266/components/lua/ldebug.c:224-249 | round trip: without a slip, each instruction is read back with the line it was given |
| SubExpr.PrioritiesAreLevels | LuaNode-master/LuaNode_Esp8266/components/lua/lparser.c:845-856 | the priority table says the same as a grammar with one rule for each level of operators: a tree respects a limit if and only if it is one of the level of that limit |
| SubExpr.ParsesGrammar | LuaNode-master/LuaNode_Esp8266/components/lua/lparser.c:845-893 | an expression is read to the end if and only if it is the tokens of a tree of that grammar, and as that tree |
| SubExpr.ParseExactly | LuaNode-master/LuaNode_Esp8266/components/lua/lparser.c:845-888 | precedence climbing reads a tree if and only if it respects the priorities, its tokens come first, and the next token does not continue it |
| SubExpr.Unambiguous | LuaNode-master/LuaNode_Esp8266/components/lua/lparser.c:845-888 | no two trees that respect the priorities have the same tokens |
| SubExpr.PrintThenParse | LuaNode-master/LuaNode_Esp8266/components/lua/lparser.c:845-888 | round trip: every tree, printed with a parenthesis where an operand is of a lower level than the grammar has there, is read back |
| SubExpr.ParensExactly | LuaNode-master/LuaNode_Esp8266/components/lua/lparser.c:845-888 | an operand is printed in parentheses if and only if, as it is printed, it is not of the level that the grammar has there |
| SubExpr.ParensNeeded | LuaNode-master/LuaNode_Esp8266/components/lua/lparser.c:845-888 | each such parenthesis is needed: an operand of a lower level is never read there, from any token string |
| SubExpr.LexState.SubExpr | LuaNode-master/LuaNode_Esp8266/components/lua/lparser.c:863-888 | the loop and recursion on the token stream read what the parsing function reads, and return the first operator left |
| SubExpr.LexState.Expression | LuaNode-master/LuaNode_Esp8266/components/lua/lparser.c:891-893 | an expression is read if and only if one of the grammar by levels is there, and the longest one is |
| Pwm.TicksExact | LuaNode-master/LuaNode_Esp8266/components/driver/pwm.c:50-55 | both branches of the tick conversion are five ticks per microsecond, within 32 bits |
| Pwm.SortSorts | LuaNode-master/LuaNode_Esp8266/components/driver/pwm.c:72-95 | sorting orders the events by time and keeps all of them |
| Pwm.MergedDescribes | LuaNode-master/LuaNode_Esp8266/components/driver/pwm.c:122-152 | after sorting and merging, times increase strictly and each pin falls at exactly the times of its channels |
| Pwm.WaveForm | LuaNode-master/LuaNode_Esp8266/components/driver/pwm.c:109-174 | whatever the duties: the table takes the period, five ticks for each microsecond, and each channel is high for its duty in 1023rds of it, rounded down to a microsecond |
| Pwm.PlaysTable | LuaNode-master/LuaNode_Esp8266/components/driver/pwm.c:314-343 | the interrupt plays the rest of a table and then starts the newest one with the right levels, or stops |
| Pwm.Periods | LuaNode-master/LuaNode_Esp8266/components/driver/pwm.c:314-343 | over any number of periods every channel is high for that share of each |
| Pwm.HandOver | LuaNode-master/LuaNode_Esp8266/components/driver/pwm.c:109-343 | after pwm_start during a period, the old period is finished and then every period has the shares of the new setup |
| Pwm.TimerOff | LuaNode-master/LuaNode_Esp8266/components/driver/pwm.c:161-187 | if the timer stays off, each level is constant, and the share of its duty is nothing or the whole period |
| Pwm.InsertSort | LuaNode-master/LuaNode_Esp8266/components/driver/pwm.c:72-95 | the in-place loop sorts the first events stably and leaves the others |
| Pwm.Driver.MakeTable | LuaNode-master/LuaNode_Esp8266/components/driver/pwm.c:119-174 | the six steps on the array yield the table |
| Pwm.Driver.Start | LuaNode-master/LuaNode_Esp8266/components/driver/pwm.c:109-196 | the idle table is rebuilt and becomes the newest; a stopped timer starts with the right levels; the wait under way stays that of the table if the table written is spare, and the exact condition if it is not |
| Pwm.StartedAgain | LuaNode-master/LuaNode_Esp8266/components/driver/pwm.c:109-196 | a third pwm_start in a row changes the table under a running wait |
| Pwm.Driver.Handler | LuaNode-master/LuaNode_Esp8266/components/driver/pwm.c:314-343 | the interrupt handler makes one step of the player and stays in step |
| BigInt.RowFits | LuaNode-master/LuaNode_Esp8266/components/cjson/dtoa.c:845-860 | product, word and carry never overflow the double word |
| BigInt.Mult | LuaNode-master/LuaNode_Esp8266/components/cjson/dtoa.c:806-913 | long multiplication gives the product, without leading zero words |
| BigInt.Cmp | LuaNode-master/LuaNode_Esp8266/components/cjson/dtoa.c:1035-1066 | the sign of the difference |
| BigInt.SubtractTimes | LuaNode-master/LuaNode_Esp8266/components/cjson/dtoa.c:2151-2190 | one row of the division takes the multiple off, borrows included, and leaves the other words |
| BigInt.Quorem | LuaNode-master/LuaNode_Esp8266/components/cjson/dtoa.c:2120-2241 | the estimate and its one correction give exactly the quotient, and the dividend becomes the remainder |
| BigInt.TenTimesFits | LuaNode-master/LuaNode_Esp8266/components/cjson/dtoa.c:2120-2146 | for a dividend below ten times a normalised divisor the quotient is a decimal digit |
| BigInt.Hi0Bits | LuaNode-master/LuaNode_Esp8266/components/cjson/dtoa.c:708-735 | the number of zero bits above the highest one |
| BigInt.LShift | LuaNode-master/LuaNode_Esp8266/components/cjson/dtoa.c:975-1031 | the number times the power of two, without leading zero words |
| BigInt.DShift | LuaNode-master/LuaNode_Esp8266/components/cjson/dtoa.c:2108-2117 | the shift that leaves four zero bits on top of the divisor, up to whole words |
| BigInt.DShiftNormalises | LuaNode-master/LuaNode_Esp8266/components/cjson/dtoa.c:2106-2117 | a divisor shifted so satisfies what the estimate of the quotient needs |

## Left out

LPeg:

- Accept.AcceptedHalts: one direction only, and outside the two gaps. A pattern in a gap may still end, if
  the part in the gap is never reached; whether it is depends on what other patterns match, and whether
  a parsing expression grammar matches anything is undecidable, so no check before the call is exact.
- Acceptance.AcceptedExactly: with the repaired check; the program's own accepts more (finding 1). A
  grammar has at most 1000 rules, as newgrammar demands (lptree.c:1077).
- Acceptance.NullableExact: for budgets that are large enough for the depth of the pattern.
- LookBehind.BehindExactly: for patterns without sub-grammars and calls, where a rule like A <- 'a' A has no
  length at all, and Analysis.FixedLenSound is one direction for all patterns; and without `lpeg.P(false)`, whose length counts as
  0 in an alternative that never matches.
- Effects.FirstExact: for patterns without predicates, whose sets are only approximated;
  Analysis.FirstSound is for all.
- Effects.RepeatUntil: as a shape; which patterns benefit in general is not stated, and no result needs it.
- Accept.FlagKept: of the repaired check, since the program's own drops the flag (finding 1).
- Accept.VerdictSound: of the repaired check too.
- Budgets.CheckAuxSettles: outside the two gaps, as Accept.AcceptedHalts.
- Budgets.FirstSettles: the same.
- Budgets.HeadFailSettles: the same.
- Compiler.AcceptedJumps: the same.
- Compiler.AcceptedCompiles: the same, and for patterns whose searches for captures end; on others the
  program emits no code (finding 3).
- Settled.PatternSettles: the same.
- Emit.CompileState.Codegen: the same.
- Emit.CompileState.CloseCalls: outside the two gaps.
- Emit.CompilePattern: outside the two gaps, for patterns whose searches end.
- Emit.MatchPattern: the same.
- Peephole.OptimizeKeepsRuns: the code may be stuck at an operand cell that the optimized code jumps
  over; for generated code Compiler.CompiledCorrect excludes that.
- Layout.CorrectCallsSpec: a return that comes to follow a call only because a call behind it has become
  a jump may be missed, as in the program, which looks at the code as it is then.
- Vm.Match: backtrack entries and captures grow without a limit; the error when the stack of choices
  exceeds the maximum set by the caller (lpvm.c:64-84) and failing allocation are not modelled. A run
  that ends is assumed; Accept.AcceptedHalts and Compiler.AcceptedCompiles give one.
- Vm.MatchState.Dispatch: the same limit, and no match-time captures.
- Match-time captures, which call Lua while matching, and the evaluation of the capture list into Lua
  values.
- Character sets are sets of bytes, not 32-byte tables, and take padding cells in the code; names of
  rules are their keys, so the merging of tables of keys is left out, as is building trees from
  Lua values.

Garbage collector:

- GcRuns.RunSafe: finalizers of userdata (`tmudata`, GCTM, lgc.c:115-155 and 456-491) are left out;
  userdata here have none, so the step that would call them only ends the cycle.
- GcRuns.DoKeeps: the same.
- GcSteps.SingleStepKeeps: the same.
- GcCycle.AtomicMarkCompletes: without luaC_separateudata and marktmu, which find nothing then.
- GcClear.AtomicCloses: the same.
- Collector.GlobalState.AtomicStep: the same.
- GcFull.FullGcExact: without finalizers; an object that one would keep for one more cycle is not there.
- GcFull.FullGcExactWithoutWeak: the same.
- Collector.GlobalState.FullCollection: the same.
- Collector.GlobalState.Step: the same, and the debt and the estimate that decide how many steps are made
  are left out; steps come at any moment, which covers every such choice.
- Resizing of the string table, shrinking of stacks and clearing of the part above the top, dead keys
  (entries without a value refer to nothing here), emergency collections inside an allocation, and
  the release of everything when the state is closed.

Upvalues:

- Upvalues.Global.FindUpval: a stack slot is a thread and a level, so moving a stack, which adjusts
  pointers, changes nothing; the heap is a map from addresses. Of the list of all objects only closed
  upvalues appear.
- Upvalues.Global.SetUpval: the barrier of this assignment is in the collector's model.

Lua compiler:

- PatchLists.FuncState.FinishValue: for lists none of whose jumps were merged into another jump. Only
  the tail of exp2reg; discharging the expression itself, and luaK_codenot with removevalues and the
  conditional jumps that drop an instruction, are left out. Instructions that are neither jumps
  nor tests are opaque.
- LineInfo.FuncLines.FixLine: what the program does with the byte before the vector is not modelled.
- LineInfo.FuncLines.Code: the same when it overwrites an instruction.
- SubExpr.LexState.SubExpr: a suffix (field, index, call) is one token, and so is every other simple
  expression; the limit on nesting and the code emitted on the way are left out.

Drivers and numbers:

- Pwm.Driver.Start: registers and the lock are left out; pins are sets, and channels have different
  pins.
- Pwm.HandOver: from a driver in step, which Pwm.Driver.Start and Handler keep unless the table
  being played is written (finding 5).
- BigInt.Quorem: the file is compiled only under its own switch (`#if`), and decimal conversion itself,
  multadd, pow5mult, diff and strtod are left out, as are the 16-bit variants of the loops.
- BigInt.LShift: the bitwise or of two parts without a common bit is an addition here.

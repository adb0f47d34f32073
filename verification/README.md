# A verified model of AScript's deterministic core

AScript is a scripting language with a tree-walking interpreter and a bytecode VM. This project models, in Dafny, the parts of its runtime that promise something over whole runs, and proves those promises for every program, log, input or import graph:

- **Record and replay** (`Events`, `Rng`, `Determinism`, `Replay`, `Readings`, `TraceSlices`). The determinism context with its nine seams, as a class whose methods are proved against one rule over values; any deterministic program recorded over those seams and replayed; what every seam answers, told from the history of the run alone; strict replay of requests nobody recorded; the traces saved for failing tests.
- **Group durability** (`GroupLog`, `SyncWindow`, `LogRepair`, `RepairPrefix`, `Framing`, `CrashResume`). The write-ahead log with coalesced fsync, against a book of write instants; the repair of a torn or damaged log, against the longest sound prefix; a framing that shows what the log asks of its framing can be had, and a workflow crashed and resumed any number of times, each crash cutting the file at any byte between what was fsynced and what was written.
- **The log's checksum** (`Crc`). The bitwise CRC-32 against the table-driven form of section 8 of RFC 1952, its polynomial and check value, and what it detects.
- **Generators** (`Runs`, `Coroutines`, `TreeWalker`, `FiberVm`, `Engines`, `Meddlers`). One machine that says what generators do, the two engines as classes with their own cells, and whole runs of any program with nested resumes on both.
- **Worker generators** (`Worker`, `WorkerReplay`). Conversations with a producer in another isolate, recorded, and replayed without it.
- **Printing and reading expressions** (`Syntax`, `Reader`, `TypeArguments`, `TypeGrammar`, `Printer`, `Ladder`, `Formatting`). The formatter's parentheses against its own table, against the parser's tiers and its speculation on explicit type arguments, and both against the precedence ladder of the language's grammar.
- **Literals and the lexer** (`Literals`, `LiteralEnds`, `Lexer`, `Numerals`, `Tilings`, `Lexing`). Escapes and their inverses; where literals and numerals end; the lexer, with template nesting, against a declarative reading of the input.
- **The module graph** (`ModuleGraph`, `WalkOrder`, `Archive`), **scopes** (`Scopes`), **bundles** (`Bundle`) and the **elision marker** (`Marks`).

The files are checked together: `dafny verify dfyconfig.toml`.

## What the proofs found

These are places where a natural promise does not hold of the code. Each has a concrete input and the exact condition under which the promise holds.

- **The formatter's `??`.** `bin_prec` (src/fmt.rs:478-496) ranks `??` above `||` and `&&`; the parser (src/parser.rs:1748-1776) ranks it below both, and its ranges do not chain (src/parser.rs:1839-1874). `Printer.CoalesceUnderOrIsMoved` is an input that changes its meaning.
- **Comparisons before a parenthesis.** After an operand the parser takes `<`, a type, `>` and `(` for the type arguments of a call (src/parser.rs:2259-2330), so the tree of `(a < b) > (c)`, written `a < b > (c)`, is read as a call. `Printer.ComparisonReadsAsCall` is the input. Together with the above: `Printer.ParserRoundTrips` shows that the formatter's output parses back to the same tree if and only if no `??` stands bare under `||` or `&&`, no range stands bare as a range's start, and no `<` in the output opens such a list. Every tree the parser itself made satisfies this, and the parentheses the formatter adds open no such list (`Formatting.FormattingIsSafe`), so formatting a source file is safe; formatting a tree built otherwise need not be.
- **What a resume counts as durable.** The repair of a group log syncs nothing, and the new appender starts with nothing unsynced (src/stdlib/workflow.rs:254-277, src/det.rs:438-456). `CrashResume.CountedIsDurableIff`: after a resume "everything but the unsynced records is durable" holds if and only if what the repair kept is durable, by an fsync before the crash or since. `CrashResume.ResumeForgetsUnsynced` and `CrashResume.FirstReadIsUnsynced` are the input: a workflow killed after its first read and resumed reports nothing unsynced, and a power loss may still take the record. What was fsynced is never lost all the same (`CrashResume.CrashesLoseNothingSynced`).
- **Drawing again after a resume.** The seed of a workflow comes from the path of its log, so a run and its resume share it (src/stdlib/workflow.rs:692-716), and a replayed draw does not move the generator (src/det.rs:874-887, 935-951): the resumed workflow draws from the start again. `Readings.ResumeRepeatsDraw`: a workflow that draws bytes, crashes and draws as many again is given the same bytes twice, so its answers are those of the uninterrupted run if and only if two successive draws are equal, and `Readings.FirstDrawsDiffer` shows a seed under which they are not. `Readings.ResumeDrawsOn`: if nothing was drawn before the crash, the resumed workflow reads what the uninterrupted one would; `Readings.ResumeReads` says what any resumed workflow reads.
- **Meddling with a running generator.** A body that resumes or closes its own handle is treated differently by the two engines (src/coro.rs:212-259, 272-335, 469-481). `Engines.TogetherIffAllowed`: the engines show the same trace after every act if and only if no generator yields after being resumed while it ran, and none is resumed after being closed while it ran. `Meddlers.SelfResumeDiffers` and `Meddlers.SelfCloseDiffers` are the programs.
- **Replaying a worker generator.** The log keeps the bytes of a yield but not its shared parts, and an input that cannot be encoded panics in Record without an event (src/coro.rs:408-413), while Replay looks at the log before it encodes (src/coro.rs:375-403). `WorkerReplay.WorkerReplays`: replay shows the consumer the same when every yield can be decoded from its bytes alone and no refused input is followed by a recorded answer; and, unless a refusal reads like the answer recorded next, only then. `WorkerReplay.UnsendableIsLost` is a conversation that replays if and only if its second input can be sent.
- **Large compressed bundles.** The builder does not look at the decompressor's cap (src/bundle.rs:295-302, 327-333). `Bundle.CompressRoundTrip`: a compressed payload comes back if and only if it is no larger than 512 MiB.

## Model

| member | source | states |
|---|---|---|
| `Crc.ComputeCrc32` | src/det.rs:376-387 | the loop computes the table-driven CRC of section 8 of RFC 1952, for every message |
| `Crc.RegisterIsTable` | src/det.rs:376-387 | eight shift steps per byte equal one table step per byte, from any register |
| `Crc.PolynomialIs` | src/det.rs:376-387 | the constant is the polynomial of section 8 of RFC 1952, term by term |
| `Crc.CheckValue` | src/det.rs:376-387 | the checksum of the digits 1 to 9 is the published check value |
| `Crc.BurstDetected` | src/det.rs:376-387 | messages that differ only within four consecutive bytes have equal checksums if and only if they are equal |
| `Events.RecordedReplays` | src/det.rs:958-1197 | recording and replaying one crossing of any seam are inverse, and an event answers no other request |
| `Rng.NeverZero` | src/det.rs:328-350 | the xorshift step never leads from a non-zero state to the zero state it could not leave |
| `Rng.StepUndone` | src/det.rs:339-348 | the step can be undone by the opposite shifts, so no two states lead to one |
| `Rng.UnitIsFraction` | src/det.rs:350-355 | the number drawn is the word over 2 to the 64, rounded down to 53 binary places, and below one |
| `Rng.BytesOfWord` | src/det.rs:358-369 | the eight bytes of a word, lowest first, make the word again |
| `Rng.FillAt` | src/det.rs:358-369 | byte i of what is filled is byte i % 8 of the draw i / 8, and no draw is made that is not begun |
| `Rng.SeededRng.FillBytes` | src/det.rs:358-369 | the buffer is the little-endian words of successive draws, the last one cut short |
| `GroupLog.GroupAppender.DoPumpFrom` | src/det.rs:460-483 | pumping writes the lines of all events not yet persisted as one batch; a failed write changes nothing |
| `GroupLog.PumpHolds` | src/det.rs:460-483 | pumping keeps the file equal to its prefix and each event once in order, never shrinks what is durable, and keeps (or by an fsync restores) that all but the unsynced is durable |
| `GroupLog.RecordedIsBounded` | src/det.rs:688-711 | after a successful record everything is persisted, fewer than max(max_events, 1) records are unsynced and the instant kept as the oldest is younger than the window; and exactly when a record fails |
| `GroupLog.RunHolds` | src/det.rs:460-512 | over every run, whatever writes and fsyncs fail, the file is the prefix followed by the events in order, each once under its own index, with no gap, and all but the unsynced stays durable |
| `SyncWindow.RunBooked` | src/det.rs:460-497 | over every run, whatever writes and fsyncs fail, the oldest unsynced instant is that of the write that took the first record no fsync has covered, an fsync is forced exactly when the cap or the age of that record asks for it, and what is durable is what the last one covered |
| `SyncWindow.WindowHolds` | src/det.rs:460-497 | after every successful step of a clock that never runs back, each record still unsynced was written less than the window before the check, and fewer than max(max_events, 1) are unsynced |
| `GroupLog.FinishAppends` | src/det.rs:502-512 | finishing adds the terminal line, counted as one record, and nothing else; an fsync happens exactly when the cap or the age of the oldest waiting record asks for it |
| `LogRepair.ValidPrefixLen` | src/stdlib/workflow.rs:190-245 | the scanning loop computes the prefix that `KeptIsLongest` and `DamageEndsLog` characterise |
| `RepairPrefix.KeptIsLongest` | src/stdlib/workflow.rs:181-245 | for arbitrary bytes, what is kept is the longest prefix of whole lines that can all be read, with no broken checksum, consecutive numbers, and nothing after a completion |
| `RepairPrefix.DamageEndsLog` | src/stdlib/workflow.rs:190-245 | a log in which line j has become unreadable, of broken checksum or misnumbered keeps exactly its first j records, whatever follows |
| `LogRepair.RepairIsStable` | src/stdlib/workflow.rs:190-277 | a log cut at its valid prefix is valid to its end |
| `LogRepair.TornLogRepairs` | src/stdlib/workflow.rs:190-277 | wherever a crash cuts a log of framed events, the repair leaves exactly the whole lines, and they decode to the first events, none skipped |
| `Framing.CheckedIsFaithful` | src/stdlib/workflow.rs:152-165 | a framing with any checksum exists that keeps every reading of the four value seams: one line each, which reads back as its number and its event |
| `Determinism.DeterminismContext.ClockNowMs` | src/det.rs:731-780 | the clock seam follows the one rule of the value seams in Record, strict and lenient Replay |
| `Determinism.DeterminismContext.ClockMonotonicMs` | src/det.rs:783-838 | the same for the monotonic clock, with its different lenient sentinel |
| `Determinism.DeterminismContext.NextRandomF64` | src/det.rs:841-899 | the same for random numbers; a matched replay does not move the generator |
| `Determinism.DeterminismContext.NextSeededBytes` | src/det.rs:902-953 | the same for bytes, where a wrong length is a mismatch |
| `Determinism.DeterminismContext.ReplayActorCall` | src/det.rs:980-1000 | the event at the cursor is used and consumed only for the same method, else left in place |
| `Determinism.DeterminismContext.ReplayGeneratorYield` | src/det.rs:1015-1031 | the event at the cursor gives the recorded yield, end or panic, else it is left in place |
| `Determinism.DeterminismContext.ReplayFfiCall` | src/det.rs:1044-1056 | the event at the cursor gives the recorded return and out-parameters, else it is left in place |
| `Determinism.DeterminismContext.ReplayStdlibCall` | src/det.rs:1080-1130 | only an event with the same module, function and hash answers; strict replay reports anything else |
| `Determinism.DeterminismContext.ReplayNativeCall` | src/det.rs:1150-1197 | only an event with the same handle, method and hash answers; strict replay reports anything else |
| `Replay.SeamsSound` | src/det.rs:731-1197 | in Record every seam appends one event that explains its answer; in Replay it answers from a matching event and moves the cursor by one |
| `Replay.RecordRun` | src/det.rs:688-953 | recording any program stays in Record and appends the explanation of its run |
| `Replay.ReplayRun` | src/det.rs:731-1197 | as long as the log explains a run, replay gives it back and touches only cursor and clock |
| `Replay.Fidelity` | src/det.rs:731-1197 | recording any deterministic program over all nine seams and replaying its log, strict or lenient, under any other seed, start time and world gives the same answers at every step, changes no event, stays in Replay without divergence and ends with the cursor at the log's length |
| `Replay.StrictReplay` | src/det.rs:653-664 | for every sequence of value and traced requests, strict replay changes neither events nor mode, the cursor counts the answered requests, and a divergence is pending exactly when some request was out of step, naming the first |
| `Replay.StrictNeverLeaks` | src/det.rs:742-934 | what strict replay answers instead of a refused event does not depend on the event |
| `Replay.RecordIsForGood` | src/det.rs:1254-1262 | a context never goes back from Record to Replay, so it switches at most once |
| `Readings.EveryAnswer` | src/det.rs:731-1197 | whatever is asked over the nine seams in any order and mode, every answer and the context follow from the history: clocks show the last reading the log gave, the generator has moved by the draws made alone, and a refused request gets nothing of the event it found |
| `Readings.RecordingReads` | src/det.rs:731-953 | in a first run every wall-clock reading is the start time and every monotonic one zero, numbers and bytes are the seeded generator's successive draws, and every boundary answers as the world does |
| `Readings.ResumeReads` | src/det.rs:731-953 | a resumed workflow is retold its log; past the end the clocks show the log's last readings, or the start and zero, and the generator starts from its seed |
| `Readings.ResumeDrawsOn` | src/det.rs:841-953 | when nothing was drawn before the crash, the tail draws what an uninterrupted run would |
| `Readings.ResumeRepeatsDraw` | src/det.rs:902-953 | a workflow that draws, crashes and draws as much again is given the same bytes twice, where the uninterrupted one gets two successive draws |
| `Readings.FirstDrawsDiffer` | src/det.rs:339-369 | under the seed 1 the first two draws of eight bytes differ |
| `Readings.StrictReads` | src/det.rs:742-934 | in strict replay a request that finds its own event gets it; any other gets the clocks' last readings or fresh bytes, a traced call a divergence |
| `TraceSlices.SaveFailures` | src/lib.rs:1102-1128 | the saving loop writes the traces that `SavedTracesReplay` is about; none when nothing failed |
| `TraceSlices.SliceIsFaithful` | src/lib.rs:1044-1128 | strict replay of the load and of test k from the load prefix and segment k answers every request as recorded, sets no divergence and consumes the slice |
| `TraceSlices.SavedTracesReplay` | src/lib.rs:1044-1128 | the traces saved are one for each failed test, in the order they ran, under their names; strict replay of each answers the load and its test as recorded, sets no divergence and consumes it |
| `CrashResume.ResumeRun` | src/det.rs:731-953 | a lenient resume retells the surviving events and then records on from their end |
| `CrashResume.CrashKeepsPrefix` | src/stdlib/workflow.rs:254-277 | what survives a crash is a prefix of the log, with at least the synced records, and the repaired file holds exactly it |
| `CrashResume.RoundKeeps` | src/det.rs:589-605 | one crash and resume keeps every surviving event, extends the log, answers as before and loses no synced record |
| `CrashResume.CrashesLoseNothingSynced` | src/det.rs:688-953 | over any number of crashes and resumes, each cutting the file anywhere past what was fsynced, no fsynced record is lost or changed, no answer resting on one changes, and the log stays the record of a run |
| `CrashResume.CountedIsDurableIff` | src/stdlib/workflow.rs:254-277 | after a resume all but the unsynced is durable if and only if what the repair kept is durable |
| `CrashResume.ResumeForgetsUnsynced` | src/det.rs:438-456 | a process killed before its first fsync and resumed counts nothing as unsynced, and a power loss may still take every record |
| `CrashResume.FirstReadIsUnsynced` | src/det.rs:485-497 | any workflow that first reads the clock is such a process right after that read |
| `CrashResume.LogReproducesRun` | src/det.rs:731-953 | replaying the log of the last round gives every answer its run was shown |
| `Coroutines.AnswersNest` | src/coro.rs:469-507 | at every point of every run each answer went to the latest unanswered resume, of the handle whose body gave it |
| `Coroutines.InputReachesYield` | src/coro.rs:176-204 | however much later, the next resume gives its input to the yield the handle stopped at |
| `Coroutines.FirstInputIgnored` | src/coro.rs:222-226 | the first resume runs the body from its start and drops its input |
| `Coroutines.OverForGood` | src/coro.rs:231-248 | once over, a handle is over for good; resuming it answers done at once and runs nothing |
| `Coroutines.OutcomeReachesCaller` | src/coro.rs:212-335 | whatever runs in between, a resume gives its caller the value its body yields, done at its return or its failure, and the caller goes on from where it resumed |
| `Coroutines.EndedIsOver` | src/coro.rs:231-256 | a body that returns or fails is over, and so is a generator closed while it does not run |
| `Coroutines.MadeIsFresh` | src/coro.rs:212-335 | making a generator answers with its own number, runs nothing of it and leaves the others alone |
| `Coroutines.ReentryIsDone` | src/coro.rs:231-248 | resuming a running generator answers done and enters nothing |
| `TreeWalker.Interpreter.ResumeBody` | src/coro.rs:212-259 | the tree-walker's resume: the input cell, the body taken out, the current stack pushed |
| `TreeWalker.Interpreter.YieldValue` | src/coro.rs:176-204 | the tree-walker's yield, through the cells of the current generator; with an input already there it does not suspend |
| `TreeWalker.TreeAlike` | src/coro.rs:212-259 | every allowed act keeps the tree-walker's cells and its current stack in step with the generators' machine |
| `FiberVm.Machine.ResumeVm` | src/coro.rs:272-335 | the VM's resume: done flag, fiber taken out, input pushed except the first time |
| `FiberVm.VmAlike` | src/coro.rs:272-335 | every act keeps the VM's cells in step with the generators' machine |
| `Engines.EnginesAgree` | src/coro.rs:203-335 | for any program the engines run the same code with the same handles open, give every resume the same outcome, and the current-generator stack is the nesting of polls |
| `Engines.RunBoth` | src/coro.rs:203-335 | both engines, run in place for any number of acts, show the one trace |
| `Engines.PoliteIsAllowed` | src/coro.rs:288-293 | a program that never resumes or closes a generator from inside its own run is allowed |
| `Engines.TogetherIffAllowed` | src/coro.rs:203-335 | the engines show the same trace after every act if and only if every act is allowed |
| `Meddlers.SelfResumeDiffers` | src/coro.rs:176-259 | a body that resumes itself: the tree-walker loses a yielded value, the VM does not |
| `Meddlers.SelfCloseDiffers` | src/coro.rs:469-481 | a body that closes itself and yields: the tree-walker can be resumed, the VM is over |
| `Worker.WorkerHandle.Resume` | src/coro.rs:349-403 | one resume of a worker generator in Record or Replay, on the real context, is the step function |
| `Worker.WorkerHandle.CrossOver` | src/coro.rs:404-462 | encoding, driving the producer, recording in Record only, and the driver's return or teardown |
| `WorkerReplay.DemandCarries` | src/coro.rs:404-462 | the first demand of a conversation carries nil, every later one what the consumer sent; the consumer is shown the producer's answer to it, or the encoder's refusal with the producer left where it was |
| `WorkerReplay.OverIsOver` | src/coro.rs:358-480 | once the consumer has closed the generator, or the producer has ended or broken, every later demand is told it is finished, and neither log nor handle changes |
| `WorkerReplay.ReplayCarries` | src/coro.rs:366-436 | in a replay of any log, a demand at a recorded answer shows that one and leaves the producer alone, any other asks the producer as a first run does, and nothing is written to the log |
| `WorkerReplay.WorkerReplays` | src/coro.rs:349-462 | replaying the complete log of any conversation, with any other producer, shows the consumer the same, uses the whole log and not the producer, when every yield can be decoded from its bytes alone and no refused input is followed by a recorded answer; unless a refusal reads like the answer recorded next, it shows the same only then |
| `WorkerReplay.SendableIsFaithful` | src/coro.rs:408-413 | conversations of a consumer that sends only what can be sent replay if and only if every yield can be decoded from its bytes alone |
| `WorkerReplay.UnsendableIsLost` | src/coro.rs:375-413 | a conversation that replays if and only if its second input can be sent |
| `Syntax.UniquelyParenthesised` | src/fmt.rs:538-546 | two trees with the same tokens and the same meaning up to paren nodes are the same tree |
| `Reader.ParseExactly` | src/parser.rs:1748-2350 | a token list parses to a tree of the fragment if and only if the tree is canonical, the tokens spell it, and nowhere in them does the parser commit to type arguments |
| `TypeGrammar.CommitsExactly` | src/parser.rs:2259-2303 | among tokens without `>>` the parser commits to type arguments if and only if a type of the grammar, a `>` and a parenthesis follow the `<` |
| `Printer.Output.WriteExpr` | src/fmt.rs:538-546 | the writer appends the specified tokens, parenthesised as `LeftOperand` and `RightOperand` say |
| `Ladder.LeftOperand` | src/fmt.rs:478-546 | for every pair of operators, ranges among them: a left operand is parenthesised if and only if it is on a lower rung of the ladder than its operator, or both are `**` |
| `Ladder.RightOperand` | src/fmt.rs:478-546 | the same for a right operand: on a lower rung, or on the same one unless it is that of `**` |
| `Ladder.TwoInARow` | docs/content/spec/grammar.md:237-257 | for every pair of operators, which tree two in a row parse to, by the ladder of the grammar; two ranges in a row do not parse |
| `Ladder.PrefixBinds` | docs/content/spec/grammar.md:237-257 | prefix operators bind tighter than every infix one, in the parser and in what is written |
| `Ladder.PostfixBinds` | docs/content/spec/grammar.md:237-257 | member access and indexing bind tighter still, in the parser and in what is written |
| `Printer.WriterRoundTrips` | src/fmt.rs:478-599 | by its own table, what is written for any tree reads back as that tree up to paren nodes, and writing that again gives the same tokens |
| `Printer.ParserRoundTrips` | src/fmt.rs:478-599 | the output means the same to the parser if and only if the tree is readable and no `<` in the output opens type arguments of a call |
| `Printer.ComparisonReadsAsCall` | src/parser.rs:2305-2333 | `(a < b) > (c)` is written so that the parser takes it for a call |
| `Printer.CoalesceUnderOrIsMoved` | src/fmt.rs:478-505 | `(a ?? b) or c` without its parentheses is read as `a ?? (b or c)` |
| `Formatting.FormattingStaysQuiet` | src/fmt.rs:538-546 | the parentheses added to a tree the parser made open no type arguments |
| `Formatting.FormattingIsSafe` | src/fmt.rs:538-599 | whatever the parser made, its formatted form parses to the same tree up to paren nodes and formats to itself |
| `Literals.LexQuoted` | src/lexer.rs:32-51 | the quoted scan in place equals its definition |
| `Literals.LexTemplateChunk` | src/lexer.rs:55-88 | the template scan in place equals its definition |
| `Literals.QuotedTwoPhase` | src/lexer.rs:32-51 | where the fused scan stops, its text is the two-phase unescape of the raw body |
| `Literals.TemplateTwoPhase` | src/lexer.rs:55-88 | the same for template text, before a closing backquote and before an interpolation |
| `Literals.QuotedRoundTrip` | src/fmt.rs:955-969 | lexing the printed escape of any text returns that text and stops just past the quote |
| `Literals.TemplateRoundTrip` | src/fmt.rs:971-984 | the same for template text; whatever it contains, it neither ends the template nor opens an interpolation |
| `Literals.PrintedOnOneLine` | src/fmt.rs:955-984 | a printed literal stands on one line, and only the characters that need it are escaped |
| `LiteralEnds.QuotedEnds` | src/lexer.rs:32-51 | a quoted literal ends at the first quote with an even number of backslashes before it, and is unterminated when there is none |
| `LiteralEnds.TemplateEnds` | src/lexer.rs:55-88 | the same for template text and the first backquote or opening of an interpolation |
| `LiteralEnds.LettersMean` | src/lex_literals.rs:22-37 | the code point of every escape |
| `Lexer.OperatorIsLongest` | src/lexer.rs:106-401 | the operator branches take the longest operator that stands there |
| `Numerals.NumberIsLongest` | src/lexer.rs:484-580 | the scan of a number takes the longest numeral of a grammar with prefixes, fractions and exponents, so of `0..10` only the `0` |
| `Lexer.LexClose` | src/lexer.rs:423-448 | a closing brace ends the innermost interpolation or the innermost brace, and the counters follow |
| `Lexer.Next` | src/lexer.rs:97-621 | one turn of the loop takes a piece that fits where it stands, or refuses for a stated reason, and its counters stand for the open frames |
| `Lexing.OneReading` | src/lexer.rs:90-630 | the characters determine the pieces, and so the tokens |
| `Lexing.NoReading` | src/lexer.rs:90-630 | where the lexer gives up, the input has no reading at all |
| `Lexing.Lex` | src/lexer.rs:90-630 | lexing ends on every input, succeeds if and only if the input has a reading, and returns its tokens and an empty end token; otherwise it reports the first place where nothing fits |
| `Lexing.TokensCover` | src/lexer.rs:90-630 | token spans are non-empty, ordered, disjoint and in range, and a character lies outside them exactly when it is a white space of its own or in a comment |
| `Lexing.LiteralTokens` | src/lexer.rs:90-630 | every string and template token of a reading by its characters: what it begins and ends with, and the text that the escapes between stand for |
| `Lexing.CommentsEnd` | src/lexer.rs:329-352 | a line comment ends before the first line feed, a block comment just past the first close |
| `Lexing.StackInStep` | src/lexer.rs:402-483 | at every point the template stack has one entry per open template, does not decrease and is bounded by the brace depth |
| `Lexing.InterpolationBalances` | src/lexer.rs:423-448 | every middle or end token closes the interpolation opened last, with balanced braces in between that never go below |
| `ModuleGraph.WalkFindsReachable` | src/lib.rs:3269-3388 | the walk ends on any finite graph; it fails if and only if a reachable file is broken, and names one; otherwise it lists the reachable files and no others, each once, the entry first |
| `WalkOrder.WalkIsBreadthFirst` | src/lib.rs:3269-3388 | every file but the entry comes from the first listed file that leads to it and is keyed by that file's first import that does, later files come from later ones, and files fewer imports away come first |
| `Archive.Resolve` | src/lib.rs:3317-3383 | the import loop finds the first error, or reserves indices in order and points every edge at its file's index |
| `Archive.CompileArchive` | src/lib.rs:3269-3388 | module k of the archive is file k of the walk under its key, and every edge points at the index of the file its import leads to; or it fails as the walk does |
| `Archive.ModuleSet` | src/lib.rs:3517-3585 | the second walk lists the keys and paths of the walk in order, or fails as the walk does |
| `Archive.BuildBoth` | src/lib.rs:3269-3388 | the two builds fail together with the same error, and otherwise list the same keys in the same order |
| `Scopes.Environments.Get` | src/env.rs:109-118 | lookup returns the value of the nearest binding |
| `Scopes.Environments.AssignFrom` | src/env.rs:122-136 | assignment changes the nearest binding, or fails as undefined or immutable and changes nothing |
| `Scopes.LookupIsFlat` | src/env.rs:109-118 | lookup equals reading the flattened chain as one map |
| `Scopes.AssignSeen` | src/env.rs:122-136 | a successful assignment is seen under its name by exactly the scopes that resolve to the same binding, and nothing else changes |
| `Scopes.AssignFails` | src/env.rs:122-136 | an assignment fails exactly on an unbound or immutable name, and then changes nothing |
| `Scopes.DefineSeen` | src/env.rs:97-106 | a definition, mutable or not as asked, is seen by exactly the scopes that reach it before another of its name |
| `Scopes.DefineFails` | src/env.rs:97-106 | a name bound in a scope cannot be defined there again |
| `Scopes.DefersSeen` | src/env.rs:70-93 | an activation's list serves exactly the scopes inside it and not inside a nearer one; lookups do not change |
| `Scopes.ChildSees` | src/env.rs:55-61 | a child sees what its parent sees, and the other scopes see what they saw |
| `Scopes.RunKeeps` | src/env.rs:44-136 | over any run of operations no binding is lost, none changes its mutability and no immutable binding changes its value |
| `Scopes.ConstantsLast` | src/env.rs:44-136 | from every scope, a name that means a constant keeps meaning it over any run that defines nothing else of the name |
| `Bundle.FooterRoundTrip` | src/bundle.rs:85-115 | decoding an encoded footer returns it |
| `Bundle.FooterBytesRoundTrip` | src/bundle.rs:98-115 | any 32 bytes that decode are the encoding of what they decode to |
| `Bundle.FooterLayout` | src/bundle.rs:85-115 | where each of the 32 bytes comes from: five little-endian fields and the mark |
| `Bundle.VerdictExactly` | src/bundle.rs:190-260 | every verdict in exactly its cases; a later version is refused as such whatever its flags |
| `Bundle.VerdictIsSafe` | src/bundle.rs:190-260 | for arbitrary bytes a verdict of bundle means an in-range payload between a stub of the least size and the footer, without overflow, with known flags |
| `Bundle.ImageRoundTrip` | src/lib.rs:4197-4215 | reading a built image gives exactly its payload and flags, or refuses unknown flags, or sees no bundle behind a small stub, in exactly those cases |
| `Bundle.CompressRoundTrip` | src/bundle.rs:295-358 | a compressed payload comes back if and only if it is within the cap |
| `Bundle.DecompressIsBounded` | src/bundle.rs:316-358 | for arbitrary bytes what comes out has the declared length, within the cap |
| `Bundle.BuildAndStart` | src/lib.rs:4437-4472 | the program that starts is the program that was built, plain or compressed |
| `Marks.RunMarker` | src/elide_mark.rs:93-98 | the walk, with its counters updated as it meets each site, leaves the marked program and returns its counts |
| `Marks.MarkingIsExact` | src/elide_mark.rs:93-407 | each visited site becomes what its own key calls for, in place, the program without its marks stays the same, and the result is the one program of that shape with those sites |
| `Marks.MarkingLaws` | src/elide_mark.rs:93-407 | the empty set changes nothing and counts nothing; marking is idempotent, monotone and commutes |
| `Marks.ParityIsCoverage` | src/elide_mark.rs:63-98 | when no two sites of a kind share a span, the counts equal the set's size if and only if the walk met every proven site |

## Left out

- Timers, durable sleep and activities: their events exist in the log's vocabulary, but no request for them is modelled.
- The JSON text of log records: framing is a parameter that must write each reading of the four value seams as one newline-terminated line and read it back; `Framing` has one that does. The code's own framing of stdlib and native calls drops their outcomes, and nothing is claimed about logs that hold them.
- Completion records and the idempotent resume of a finished workflow: the repair scan stops at one, as the code does, but the crash rounds run unfinished workflows.
- A failed write that leaves part of its bytes, and a power loss that undoes the repair's truncation: a failed write leaves the file as it was, and what the repair cut off stays cut off.
- Crash and resume over the boundary seams: those seams return nothing at the end of the log without switching to Record, so the crash theorems are over the four value seams, as the code supports it.
- Floating point: clock values and random numbers are a significand times a power of two, without infinities and NaN; number literals are opaque, and the instants an appender compares are reals.
- Real clocks, `Instant` and trace file headers, the naming of trace files and duplicate slugs: outside the model; the instants an appender reads are parameters of each step.
- A body pending on real I/O inside a resume, cancellation, and several tasks resuming one generator: every resume here runs to its next yield or its end.
- The worker's transport, prefetch and isolate teardown: the producer is any function of its state and the demand; decoding is a function of the bytes, and of the bytes with their shared parts.
- TypeGrammar.CommitsExactly: says nothing of tokens with `>>`, where the parser may take half of one as the close of a type; the speculation itself models the split.
- Statement layout, line breaking, comments, calls (a committed type-argument list leaves the fragment), ternaries, arrows, `?`, `!`, `await` and range steps in the formatter and parser: the expression fragment has atoms, unary and binary operators, ranges, indexing, members and parentheses.
- The parser's error recovery and spans, and the second lexer that keeps trivia.
- Number parsing and the Unicode classes of characters: parameters of the lexer; the three labels of number errors are one error.
- The list of reserved words is a parameter too; the language's own list is one value of it, and everything about the lexer holds for any.
- Compiling a module, its options and tree shaking: a file's import table is the same under all build options, and the resolver is a parameter that can lead to finitely many files.
- Archive keys: they are taken from the first import that leads to a file, as in the code; nothing is claimed about two files under one key.
- The deferred calls themselves: a defer list is known by its number.
- zstd, code signing and stub selection: the compressor is a parameter with its inverse law; the stub is any bytes.
- Marks.RunMarker: the counters are updated in place but the tree is rebuilt rather than overwritten, spans are not truncated to 32 bits, and forms with the same visited parts share a constructor.
- Garbage collection, capabilities, the OCI layout, the command line and the playground.

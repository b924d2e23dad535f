# Verified models of the Mind 3.0 hardware pipeline

A Dafny 4.11 project that models the parts of Mind 3.0 whose correctness carries the rest, and proves what
they promise. `dafny verify dfyconfig.toml` checks all of it.

## What is modelled

**The structural clock-domain-crossing checker** (`tools/cdc_checker`). A parsed module is a record of
assignments, always blocks, instances, ports and widths (`CdcModel`). Domains are assigned to registers
(`CdcClocks`), the driver graph is built and searched by a worklist (`CdcCrossings`) and by a recursive
simple-path search (`CdcTrace`, `CdcAnalyze`), and every crossing is classified (`CdcSynchronizers`). The
searches are proved equal to graph reachability, the recursive search is proved exact on cyclic graphs, and
`CdcSoundness` says exactly what a PASS means, for every design and every register, and that the sampling of
foreign registers is then one-to-one.

**The repair loop and its audit trail** (`run_silicon_pipeline`). The model, the verifier, the file system,
the response parser and the digest are oracles; every sequence of their answers is covered. `RepairSpec` has
one function per stage of the pipeline, `RepairRun` the loop invariant, the termination argument and what
every run ends with, `PhaseDriver` the object with its fields updated in place and the loop written as a
loop, which refines the specification state for state. `PreludeLaw` says which way a run takes before the loop, and
`TrailLaw` which event may follow which on the trail of a run and what every verdict leads to; `TranscriptLaw` says what
the extracted records tell of the answers. `TraceLog` is the hash chain, `Workspace` the snapshot
and rollback, `Transcript` the second machine that replays the trail into repair records and stays in step
with the first. `RepairLimits`, `RepairBound` and `LostResponse` have the runs that reach the limits or go
wrong.

**Text machinery.** The two normal forms that detect an unchanged repair (`RtlIdentity`), the renaming of the
first module declaration (`Naming`), the tokenizer and the recursive-descent parser of the CDC checker
(`CdcLexer`, `CdcParser`; the methods of the parser compute a grammar given as functions, and that grammar reads
exactly the printed forms), the contract header printer and parser (`ContractHeader`) and the interface check
against the contract (`InterfaceCheck`).

**Smaller cores.** The IEEE 1149.1 test access port that `dft.py` emits (`Tap`), the Pareto frontier
(`Pareto`), the Wilson interval in its two implementations (`Wilson`).

## Where the code and its documentation part

The models follow the code.

- What reaches a register only by way of the register itself is invisible to the recursive search, so where a
  register with both a combinational and a sequential driver lies in its own fan-in, an unsynchronized crossing
  passes (`CdcSoundness.MixedDriverEscapes`). Under PASS the fan-in of a register is safe exactly when the
  register does not lie in it, or what lies behind it is safe (`CdcSoundness.PassSoundExactly`).
- "Exact two-flop chain" lets stage 1 also sample registers of its own domain (`_find_chain` allows them).
- FAIL does not dominate INCONCLUSIVE: the first finding that is not ok decides
  (`CdcSynchronizers.StatusIsFirstFinding`).
- The evidence record admits attempts 1 to 3, but two stages may be repaired `max_repairs` times. For a
  budget above three there are runs on well-formed answers that raise and so end without a rollback
  (`RepairLimits.LargeBudgetCanRaise`); for a budget of at most three there are none
  (`RepairRun.SmallBudgetNeverRaises`).
- Doubling the completion budget on truncation shrinks a negative one (`RepairRun.BumpNeverShrinks`).
- A candidate can skip the verifier without counting as unchanged (`RepairLimits.SkippedYetChanged`). That takes
  a carriage return inside a line comment, outside CR LF pairs, with something visible after it; otherwise the
  skip test is the finer one (`RtlIdentity.WideAbsorbsExactly`, `RepairLimits.SkipIsUnchanged`).
- A repair response lost to a failed file write leaves its raw text in the queue, and later transcript records
  carry the text of an earlier response (`LostResponse.RawOneLate`). Records own their texts exactly when every
  response the driver tried to write, among as many as there are records, was written
  (`Transcript.RawsOwnedExactly`).
- The header parser's comment promises comma-shared declarations; a chunk that gives its direction to several
  names is rejected wherever it stands (`ContractHeader.SharedDirectionRejected`), and a list of declarations is
  read exactly when no chunk does that (`ContractHeader.SharedDirectionExactly`).
- A parameter value that itself declares a parameter adds a name to those read back
  (`ContractHeader.ParametersReadExactly`); a parenthesis opened right after one is closed, once comments are
  removed, cuts the parameter list short (`ContractHeader.ParamsSplitExactly`, `ContractHeader.HeaderRoundTrip`).
- The TRST pin of the emitted TAP is described as asynchronous; the emitted text samples it on the clock, so it
  resets nothing before the next rising edge (`Tap.TrstWaits`).
- The emitted bypass and IDCODE registers are never assigned, so a bypass scan shows one constant
  (`Tap.BypassConstant`) and shifts TDI through exactly when all bits are that constant (`Tap.BypassShiftsExactly`).

## Model

| member | source | states |
|---|---|---|
| CdcClocks.AssignDomains | tools/cdc_checker/clocks.py:49-67 | a register is mapped to clock c exactly when every clocked block that drives it has c as its only clock; the clock list has each clock once |
| CdcCrossings.BuildDrivers | tools/cdc_checker/crossings.py:41-60 | each driven signal is mapped to all its drivers in source order, with their kind |
| CdcCrossings.CombCone | tools/cdc_checker/crossings.py:63-94 | the worklist ends, on cyclic logic too, and returns exactly the undriven or sequentially driven signals reachable through combinational drivers |
| CdcCrossings.ResetNames | tools/cdc_checker/clocks.py:32-38 | rst, reset or arst in any letter case, with any word characters after it, is a reset name |
| CdcCrossings.OnlyResetNames | tools/cdc_checker/clocks.py:32-38 | and no other name is |
| CdcTrace.TraceExact | tools/cdc_checker/crossings.py:140-191 | the recursive simple-path search reports a foreign register, and an unknown boundary, exactly when it is reachable avoiding the path so far |
| CdcTrace.TraceBacked | tools/cdc_checker/crossings.py:140-191 | every reported crossing carries a real path from source to destination, and its reset mark is that of a name on the path |
| CdcAnalyze.TraceCone | tools/cdc_checker/crossings.py:140-191 | the search that appends to the shared analysis appends exactly what the specified search finds |
| CdcAnalyze.Collapse | tools/cdc_checker/crossings.py:127-135 | the loop over seen pairs keeps the first finding of each source and destination, in order |
| CdcAnalyze.CollapseExact | tools/cdc_checker/crossings.py:127-135 | the kept findings are the findings, one per source and destination |
| CdcAnalyze.KeptIsFirst | tools/cdc_checker/crossings.py:127-135 | of each pair the first finding is the one that is kept |
| CdcAnalyze.Analyze | tools/cdc_checker/crossings.py:97-137 | the analysis object ends with the collapsed crossings and the unknown hits of the whole module, these strictly sorted |
| CdcAnalyze.AnalyzeExact | tools/cdc_checker/crossings.py:97-191 | a crossing is reported for s and d exactly when d samples s, not through itself, and both have known, different domains |
| CdcSynchronizers.Consumers | tools/cdc_checker/synchronizers.py:52-63 | exactly the registers of the domain with the signal in some driver's cone |
| CdcSynchronizers.DriversOf | tools/cdc_checker/synchronizers.py:156-165 | exactly the right-hand sides of the register's clocked drivers, if it is in the domain |
| CdcSynchronizers.FindChain | tools/cdc_checker/synchronizers.py:178-222 | a chain is found exactly when stage 1 samples the source and otherwise only its own domain, and some stage 2 exists; the stages are exactly those |
| CdcSynchronizers.UsedExactly | tools/cdc_checker/synchronizers.py:225-239 | a chain is used exactly when a stage goes out or is read by an assignment or by a register that is no stage, in terms of the driver map |
| CdcSynchronizers.FifoDecided | tools/cdc_checker/synchronizers.py:242-257 | with fewer than two clocks nothing looks like a FIFO; with two the names decide as given |
| CdcSynchronizers.ClassifyOne | tools/cdc_checker/synchronizers.py:103-153 | the loop-free classification computes the specified verdict of one crossing; what that verdict means is `CdcSoundness.ClassifiedExactly` |
| CdcSynchronizers.StatusIsFirstFinding | tools/cdc_checker/synchronizers.py:72-92 | the status is that of the first finding that is not ok, whatever comes later |
| CdcSynchronizers.ReportOrderExactly | tools/cdc_checker/synchronizers.py:72-82 | the report is sorted by destination and keeps the order of discovery within one destination |
| CdcSynchronizers.Classify | tools/cdc_checker/synchronizers.py:70-100 | the verdict lists the described crossings in report order, then the unknown hits, with the status their severities give |
| CdcSynchronizers.Check | tools/cdc_checker/synchronizers.py:70-100 | the status is PASS exactly when no hit is unknown and every crossing is ok, FAIL exactly when the first crossing in report order that is not ok is an error, under the module's own domains and clock list; each crossing of the report is classified as specified |
| CdcSoundness.SearchesAgree | tools/cdc_checker/crossings.py:63-191 | for every register that does not feed itself through transparent drivers, the recursive search and the collapse report exactly the members of its worklist cone with a known other domain |
| CdcSoundness.FaninExactly | tools/cdc_checker/crossings.py:140-191 | the transparent fan-in of a register is safe exactly when what reaches it directly is and, if it lies in it itself, what lies behind it is too |
| CdcSoundness.ClassifiedExactly | tools/cdc_checker/synchronizers.py:103-153 | which crossings get which classification, in terms of what registers sample: UNSAFE_DIRECT exactly one bit without a chain, UNSAFE_BYPASS exactly a chain that is bypassed or unused, MULTIBIT_UNPROVEN the rest of what is no reset, FIFO or safe crossing; errors are exactly the two unsafe ones |
| CdcSoundness.OkMeansSynchronized | tools/cdc_checker/synchronizers.py:110-153 | an ok crossing is exactly a one-bit source behind a used two-flop chain with no bypass, outside reset and FIFO names |
| CdcSoundness.PassCoversSampled | tools/cdc_checker/synchronizers.py:70-153 | under PASS everything a register samples, not through itself, is a safe source |
| CdcSoundness.PassIsSound | tools/cdc_checker/synchronizers.py:70-222 | PASS implies for every register that does not feed itself: one known clock, and every leaf of its fan-in is a free port, a same-clock register, or a foreign one-bit register it synchronizes exclusively |
| CdcSoundness.PassSoundExactly | tools/cdc_checker/synchronizers.py:70-222 | under PASS the fan-in of any register is safe if and only if the register is not in it or what lies behind it is safe |
| CdcSoundness.PassSamplesOneToOne | tools/cdc_checker/synchronizers.py:103-153 | under PASS two registers of one clock, neither feeding itself, sample the same foreign register exactly when they are the same register |
| CdcSoundness.PassExactly | tools/cdc_checker/synchronizers.py:70-222 | for every design: PASS if and only if each register has one known clock and what reaches it directly is safe, no kept crossing has a reset name on its path, and a design that looks like a dual-clock FIFO has no crossing |
| CdcSoundness.PassCoversFanin | tools/cdc_checker/synchronizers.py:70-222 | where no register feeds itself, the same with the whole fan-in of each register |
| CdcSoundness.FailExactly | tools/cdc_checker/synchronizers.py:70-153 | for every design: FAIL if and only if it does not look like a FIFO and the first reported crossing that is not synchronized is one bit without a chain, or a chain bypassed or unused |
| CdcSoundness.PlainFailExactly | tools/cdc_checker/synchronizers.py:70-153 | without reset names on paths, FIFO names and buses, FAIL means exactly that some crossing is not synchronized |
| CdcSoundness.MixedDriverEscapes | tools/cdc_checker/crossings.py:140-191 | a design with a mixed driver in its own fan-in that passes although it samples a foreign register unsynchronized |
| CdcSoundness.RunChecker | tools/cdc_checker/synchronizers.py:70-100 | the checker run end to end, with the module's own domains and clock list: the status is PASS exactly on that condition, FAIL exactly on the condition of `FailExactly`, and under PASS the whole fan-in of every register that does not feed itself is safe |
| RtlIdentity.WideIdempotent | src/mind3/core/driver.py:109-122 | the wide normal form is idempotent |
| RtlIdentity.WideAbsorbsExactly | src/mind3/core/driver.py:109-154 | taking the narrow form first leaves the wide form as it is exactly when no carriage return, taken for a line end, uncovers visible text in a line comment |
| RtlIdentity.NarrowEqualWideEqual | src/mind3/core/driver.py:145-154 | of two texts with one narrow form, the first harmless in that sense, the wide forms are equal exactly when the second is harmless |
| RtlIdentity.PairedReturnsHarmless | src/mind3/core/driver.py:145-154 | carriage returns that all belong to CR LF pairs are harmless |
| RtlIdentity.BlockInvisible | src/mind3/core/driver.py:109-122 | a block comment, whatever is in it, counts as a space |
| RtlIdentity.LineInvisible | src/mind3/core/driver.py:109-122 | so does a line comment, and its line feed stays |
| RtlIdentity.WideFixed | src/mind3/core/driver.py:109-122 | a comment-free text with single spaces between its words is its own wide form: nothing else is lost |
| RtlIdentity.NarrowFixed | src/mind3/core/driver.py:145-154 | a text with line feeds only and nothing blank at line ends or ends is its own narrow form |
| RtlIdentity.CommentOnlyChange | src/mind3/core/driver.py:109-154 | the converse fails: a comment-only change has equal wide forms and different narrow ones |
| RtlIdentity.LoneReturnMatters | src/mind3/core/driver.py:109-154 | a text with a harmful CR, and the text with the same narrow form and another wide form |
| RepairLimits.SkipIsUnchanged | src/mind3/core/driver.py:2168-2306 | a candidate that skips the verifier is counted as unchanged exactly when its carriage returns are harmless, unless two different texts share a digest; the text on disk is read with universal newlines and so is always harmless |
| RepairLimits.SkippedYetChanged | src/mind3/core/driver.py:2262-2306 | a candidate that the driver skips, never verified, although it is not counted as unchanged |
| RepairSpec.EmitTrace | src/mind3/core/driver.py:920-964 | an emission keeps the trail a valid hash chain |
| TraceLog.EmitKeepsChain | src/mind3/core/driver.py:920-964 | one emission appends one record with its index, its link and a valid digest |
| TraceLog.EmitAllChained | src/mind3/core/driver.py:920-964 | after any sequence of emissions every record carries its index, links to its predecessor and is hash-valid |
| TraceLog.AgreeBackwards | src/mind3/core/types.py:278-294 | whatever the events carry, two valid chains that agree on one record agree on everything before it, or exhibit two different (previous digest, body) pairs with one digest |
| TraceLog.FinalHashCommits | src/mind3/core/types.py:278-294 | whatever the events carry, two valid chains with the same final digest are equal, record for record and in length and first link, or exhibit a collision |
| Workspace.CopyNodeSame | src/mind3/core/driver.py:974-985 | a copied tree is the tree, at every depth |
| Workspace.RollbackUndoes | src/mind3/core/driver.py:988-1012 | restoring undoes every change outside the driver's directory and leaves that directory alone |
| RepairSpec.RepairTurn | src/mind3/core/driver.py:2176-2483 | a repair turn reaches the verifier only with a candidate parsed from a response of this run, just written, on disk and last on the trail |
| RepairRun.RepairTurnGood | src/mind3/core/driver.py:2176-2483 | a turn keeps the loop invariant and spends from the termination order, or ends in a rollback |
| RepairRun.DiagnoseGood | src/mind3/core/driver.py:2511-2746 | a failed verification keeps the loop invariant and spends, or ends |
| RepairRun.IterateGood | src/mind3/core/driver.py:2176-2746 | one iteration keeps stage counters within limits, parse attempts at most 3 and, at 3, no repair call yet, the completion budget within its bounds, the trail chained; the termination order goes down |
| RepairRun.PreludeGood | src/mind3/core/driver.py:1783-2161 | everything before the loop establishes the invariant, or ends with the workspace as it was |
| RepairRun.RunLoop | src/mind3/core/driver.py:2176-2746 | the loop ends for every sequence of answers |
| RepairRun.Pipeline | src/mind3/core/driver.py:1773-2746 | every run ends, with at most 33 + 6 max_repairs repair calls and 10 + 2 max_repairs verifier calls; failure leaves the workspace as it was; success only right after a pass of the verifier, which was given a workspace holding the RTL last written, parsed from a text of the model's in this run, and that RTL is on disk at the end exactly when the verifier left the file alone; the completion budget stays between its start and the cap; the trail is a valid chain |
| RepairBound.BoundAttained | src/mind3/core/driver.py:2176-2746 | the bound on repair calls is exact: for every repair budget some run on well-formed answers makes 33 + 6 max_repairs of them |
| RepairRun.SmallBudgetNeverRaises | src/mind3/core/contracts.py:802 | with at most three repairs per stage no run on well-formed answers raises |
| RepairLimits.LargeBudgetCanRaise | src/mind3/core/contracts.py:802 | with four or more there are runs on well-formed answers that raise |
| RepairRun.BumpNeverShrinks | src/mind3/core/driver.py:1138-1148 | doubling never shrinks the completion budget exactly when it is not a negative one being doubled, and stays below the cap or the start; below the cap it is the double or the cap |
| PhaseDriver.PhaseDriver.EmitTrace | src/mind3/core/driver.py:920-964 | the fields after the call are those of the specified emission |
| PhaseDriver.PhaseDriver.CreateSnapshot | src/mind3/core/driver.py:968-986 | the loop over entries, in any order, leaves a copy of everything but the driver's directory |
| PhaseDriver.PhaseDriver.RestoreSnapshot | src/mind3/core/driver.py:988-1012 | the two loops, in any order, restore the workspace, or report that there is no snapshot |
| PhaseDriver.PhaseDriver.RepairTurn | src/mind3/core/driver.py:2179-2483 | the turn, with its fields updated in place, follows the specified turn |
| PhaseDriver.PhaseDriver.RunVerifier | src/mind3/core/driver.py:2485-2746 | a verifier run follows the specified one; it is called on a fresh candidate only |
| PhaseDriver.PhaseDriver.GenerateRtl | src/mind3/core/driver.py:2043-2122 | the retry loop of the first generation follows the specified stage |
| PhaseDriver.PhaseDriver.RepairLoop | src/mind3/core/driver.py:2176-2746 | the loop ends in the state of the specified loop |
| PhaseDriver.PhaseDriver.RunSiliconPipeline | src/mind3/core/driver.py:1773-2746 | the object ends in exactly the state of the specified run, and so with all that every run guarantees |
| PreludeLaw.PreludeDecides | src/mind3/core/driver.py:1783-2161 | what happens before the loop, for all answers: refused without an agreed contract or with properties that cannot be verified, with that category; else the first of three responses that parses is the first RTL, on disk exactly when its file was written, and the harness is staged |
| PreludeLaw.ResubmittedExactly | src/mind3/core/driver.py:2296-2310 | the repair prompt after a failed verdict says that the candidate was handed in again exactly when it is the RTL that was there or one of the last two outcomes was that |
| PreludeLaw.LastTwo | src/mind3/core/driver.py:2737 | the flag looks at the last two outcomes |
| TrailLaw.RunLawful | src/mind3/core/driver.py:1773-2746 | every event of every run is one that the trail so far and the answers from outside allow, with turn, prompt, category and RTL; the run ends as the last event says; calls, verified candidates and stage charges of the driver are those read off the trail |
| TrailLaw.VerdictDecides | src/mind3/core/driver.py:2511-2746 | for every verdict of every run: it stands on the trail after its candidate; if it failed with a category that cannot be repaired, or with the budget of its stage used up, the run ends there in a rollback with that category and no further call; else the next event asks for a repair with the evidence of that verdict, unless the evidence is invalid and the run raises |
| TrailLaw.ChargedToStage | src/mind3/core/driver.py:2176-2306 | the turns from a failed verdict to the next candidate are charged to the stage of its category and to no other |
| TrailLaw.HopelessGates | src/mind3/core/driver.py:600-613 | the categories that end a run are exactly these |
| TrailLaw.CompileGates | src/mind3/core/driver.py:2529-2538 | these categories are repaired at the cost of the compile stage |
| TrailLaw.SimulationGates | src/mind3/core/driver.py:2529-2538 | these at the cost of the simulation stage |
| TrailLaw.FormalGates | src/mind3/core/driver.py:2529-2538 | these at the cost of the formal stage |
| TrailLaw.TimingGates | src/mind3/core/driver.py:2529-2538 | these at the cost of the timing stage |
| TrailLaw.OtherGates | src/mind3/core/driver.py:2529-2538 | and these of none of the four |
| Transcript.ExtractAttempts | src/mind3/benchmarks/runner.py:314-364 | the loop over events with its queue is the replay |
| TranscriptLaw.RecordsTold | src/mind3/benchmarks/runner.py:314-364 | for every run: the records are those of the VERIFY events after the first request, in order; each has the turn and guidance of the last request, and passed exactly when its response was executed and the verifier passed that candidate; category and reason are the verifier's, or those for which the response was turned down |
| TranscriptLaw.SuccessRecorded | src/mind3/benchmarks/runner.py:338-361 | a run that succeeds after a repair has a last record that passed, and no other record passed |
| TranscriptLaw.InitialTold | src/mind3/benchmarks/runner.py:325-345 | for every run: the initial RTL is the RTL first written, parsed from an answer to the generation request; the initial failure is the category of the last failed check before the first repair turn |
| Transcript.RepairTurnInStep | src/mind3/core/driver.py:2212-2483 | a turn leaves one record per response on the trail, or is half a step ahead of the verifier with this turn's guidance and RTL |
| Transcript.TranscriptAligned | src/mind3/benchmarks/runner.py:314-364 | for every run: record k tells turn, guidance and RTL of the k-th response not lost to a failed write, raw texts come in order, turns strictly increase |
| Transcript.OneRecordPerResponse | src/mind3/benchmarks/runner.py:338-361 | if files can be written, a run that does not raise leaves exactly one record per response, each with its own raw text |
| Transcript.RunGenuine | src/mind3/core/driver.py:2212-2483 | every booked response is the model's answer to the call of its turn, and once the driver tried to write it, it was executed or lost as that turn's file was written or not |
| Transcript.RawsOwnedExactly | src/mind3/benchmarks/runner.py:295-361 | for every run of a model that never repeats a text: the extracted records carry the answers to the calls of their own turns if and only if every response the driver tried to write, among as many as there are records, was written; the if half for every model |
| LostResponse.RawOneLate | src/mind3/benchmarks/runner.py:295-361 | a successful run, with one failed write, whose only record shows the RTL of the second response and the raw text of the first |
| Naming.MaskSpliced | src/mind3/core/driver.py:467 | up to a place outside comments the mask does not depend on what follows |
| Naming.RenamesFirstOnly | src/mind3/core/driver.py:463-472 | renaming changes only the first declaration outside comments; the text around it and its comments stay, and the first declaration is then the new one |
| Naming.RenamingTwice | src/mind3/core/driver.py:463-472 | renaming is idempotent |
| CdcLexer.Tokenize | tools/cdc_checker/parser.py:61-89 | the loop over positions computes the specified token list, or the error |
| CdcLexer.TokenStays | tools/cdc_checker/parser.py:52-58 | the token at the head is the same whatever gap follows it |
| CdcLexer.LayoutLexes | tools/cdc_checker/parser.py:61-89 | tokens laid out with any white space and comments between them are read back |
| CdcLexer.RoundTrip | tools/cdc_checker/parser.py:61-89 | tokenizing the space-joined tokens of an accepted source gives the same tokens |
| CdcLexer.SourceIsLaid | tools/cdc_checker/parser.py:61-89 | every accepted source is its tokens with nothing but white space and comments between them |
| CdcLexer.TwoOperators | tools/cdc_checker/parser.py:57 | two operator characters side by side are one token exactly when they are one of the ten two-character operators |
| CdcLexer.Arrows | tools/cdc_checker/parser.py:57 | the two property arrows are one token each |
| CdcLexer.NameIsToken | tools/cdc_checker/parser.py:55-56 | every identifier and every system function is one token |
| CdcLexer.NumberIsToken | tools/cdc_checker/parser.py:54 | so are integers, decimals and sized literals |
| CdcLexer.StringIsToken | tools/cdc_checker/parser.py:53 | and string literals, quotes after a backslash included |
| CdcParser.Parser.CollectClosed | tools/cdc_checker/parser.py:257-268 | reads up to the closing parenthesis before which as many are closed as opened, and nowhere more, exactly when there is one |
| CdcParser.Parser.SkipClosed | tools/cdc_checker/parser.py:404-409 | the loop without an end test ends, at the matching parenthesis, because the lookahead found it |
| CdcParser.Parser.LooksLikeInstance | tools/cdc_checker/parser.py:380-400 | true exactly when the head of an instance can be read here |
| CdcParser.Parser.CollectStatement | tools/cdc_checker/parser.py:491-525 | reads a block up to its `end`, or a statement up to its semicolon, exactly when there is one, by the count of begin and end, parentheses and brackets |
| CdcParser.StatementExactly | tools/cdc_checker/parser.py:491-525 | a statement is read exactly where one stands: from a begin to the first place with as many end, or to the first semicolon where no more parentheses and brackets are open than closed |
| CdcParser.Parser.ParseItem | tools/cdc_checker/parser.py:318-356 | reads, or refuses, what the grammar says at the cursor |
| CdcParser.ItemExactly | tools/cdc_checker/parser.py:318-475 | the grammar reads an item exactly where its tokens stand, if its parts are as the subset wants them: both what is accepted and what is not |
| CdcParser.ModuleExactly | tools/cdc_checker/parser.py:239-271 | the same of a module, given what the content predicates approve: of its parameters and ports, and of each item after these and the items before it |
| CdcParser.FileExactly | tools/cdc_checker/parser.py:604-618 | a token list is read as a file exactly when it is the printed form of modules and stray semicolons with good parts and new names, and as that one: there is no other |
| CdcParser.Parser.ParseModule | tools/cdc_checker/parser.py:239-271 | the method reads, or refuses, what the grammar says |
| CdcParser.OneReading | tools/cdc_checker/parser.py:604-618 | no token list is the printed form of two files |
| CdcParser.ParseModules | tools/cdc_checker/parser.py:604-618 | ends on every token list; accepts exactly those that are the printed form of a file with at least one module, every token accounted for, and returns each module of it under its name |
| CdcParser.ParseSource | tools/cdc_checker/parser.py:604-618 | tokenizer and parser together: accepted exactly when the text has tokens and these are such a file |
| ContractHeader.DecimalValue | src/mind3/core/contracts.py:49-53 | reading a printed decimal gives the number back |
| ContractHeader.PortsRead | src/mind3/core/contracts.py:355-389 | the port loop reads printed declarations back, in order, with direction and width |
| ContractHeader.RangeExactly | src/mind3/core/contracts.py:364-370 | a range has a width exactly when it is two numerals in brackets with a colon between them, with any white space, and the width is the number of bits from one to the other |
| ContractHeader.DecimalSpans | src/mind3/core/contracts.py:364-370 | printed decimals are such numerals, of any two numbers in either order |
| ContractHeader.ListRead | src/mind3/core/contracts.py:355-389 | declarations of any form, with any letter case of the keywords, nets, sign, range and white space, are read in order with direction and width |
| ContractHeader.DeclarationsRead | src/mind3/core/contracts.py:330-395 | so are the ports of a whole header, with the parameter names of its parameter text |
| ContractHeader.RangeRefused | src/mind3/core/contracts.py:366-369 | a range text of any other shape makes the header unreadable, wherever it stands |
| ContractHeader.ParametersRead | src/mind3/core/contracts.py:391-395 | whatever the values, the scan reads each printed parameter's name and after it the names its value declares |
| ContractHeader.ParametersReadExactly | src/mind3/core/contracts.py:391-395 | so the names are read back, in order and nothing else, exactly when no value declares a parameter |
| ContractHeader.ParamsSplitExactly | src/mind3/core/contracts.py:330-349 | the parameter text is told from the port text exactly when in it no parenthesis is opened right after one is closed |
| ContractHeader.HeaderRoundTrip | src/mind3/core/contracts.py:175-188 | the rendered header is taken apart as printed exactly when, comments removed, no parenthesis in the parameters is opened right after one is closed; then parsing gives module name and ports back, and the parameter names declared in what the comments leave |
| ContractHeader.ClosedCommentsRead | src/mind3/core/contracts.py:175-188 | with closed block comments in the values and no such parenthesis or other comment outside them: name, ports, each parameter name and after it the names its value declares, so exactly the contract's names when there are none |
| ContractHeader.SharedDirectionRejected | src/mind3/core/contracts.py:355-389 | a list with a chunk that gives its direction to several names is not read, whatever its place, net, range, names and neighbours |
| ContractHeader.SharedDirectionExactly | src/mind3/core/contracts.py:355-389 | a list whose chunks start with declarations is read exactly when no chunk goes on after a comma |
| InterfaceCheck.Check | src/mind3/core/contracts.py:515-576 | reports exactly the interface and width violations there are |
| InterfaceCheck.CleanExactly | src/mind3/core/contracts.py:515-576 | there is none exactly when name, port map and parameter set are the contract's |
| InterfaceCheck.TemplateConforms | src/mind3/core/contracts.py:175-188 | a contract's own template, where taken apart as printed, has no interface violation exactly when what comments leave of its parameters declares the contract's names and no others |
| InterfaceCheck.ClosedCommentsConform | src/mind3/core/contracts.py:175-188 | with no comments in the values but closed block comments: exactly when the values declare no name that is not a parameter already |
| Tap.Controller.PosEdge | src/mind3/core/dft.py:127-140 | the rising edge updates state and shift register from the values before it |
| Tap.Controller.NegEdge | src/mind3/core/dft.py:142-161 | the falling edge updates latch and output |
| Tap.FiveOnesReset | src/mind3/core/dft.py:102-124 | any run that ends in five clocks with TMS high is in reset with an all-ones latch (clause 6.1 of IEEE Std 1149.1-2001) |
| Tap.OnesExactly | src/mind3/core/dft.py:102-124 | how many ones each state needs, exactly |
| Tap.IrScan | src/mind3/core/dft.py:132-155 | for every width, bit stream and split by pauses: after n bits the register holds bits n to n + width of captured value followed by TDI, and TDO has shown the bits that left |
| Tap.UpdateLatches | src/mind3/core/dft.py:142-148 | leaving the scan latches the register; after exactly `width` bits that is the TDI bits in order |
| Tap.LatchOnlyOnUpdate | src/mind3/core/dft.py:142-148 | the latch changes only in reset and UPDATE_IR |
| Tap.ColumnsMirror | src/mind3/core/dft.py:102-124 | the data column moves as the instruction column does |
| Tap.LowsExactly | src/mind3/core/dft.py:102-124 | with TMS low every state comes to rest where it should after exactly the clocks it needs |
| Tap.DataScan | src/mind3/core/dft.py:102-124 | the TMS bits of a data scan lead from reset to SHIFT_DR, through the pause and back, and by way of the update to idle or the next scan |
| Tap.RouteTaken | src/mind3/core/dft.py:102-130 | and any run with these bits goes there |
| Tap.TdoSteered | src/mind3/core/dft.py:150-161 | outside the instruction scan and the bypass TDO shows the data pin of the clock in SHIFT_DR and else nothing |
| Tap.BypassShown | src/mind3/core/dft.py:150-155 | in every run, in SHIFT_DR with an all-ones latch TDO is enabled and shows the value the bypass register started with |
| Tap.BypassConstant | src/mind3/core/dft.py:142-155 | a whole bypass scan shows that value at every clock, whatever TDI is |
| Tap.BypassShiftsExactly | src/mind3/core/dft.py:142-155 | so TDO is a captured bit followed by TDI one clock late exactly when all these bits are that value |
| Tap.TrstWaits | src/mind3/core/dft.py:127-130 | through any number of falling edges an active TRST resets nothing, and the next rising edge with it active does |
| Pareto.Optimizer.GetParetoFrontier | src/mind3/core/driver.py:2790-2818 | the nested loops return the undominated valid points |
| Pareto.FrontierExactly | src/mind3/core/driver.py:2790-2818 | exactly the valid points that no valid point dominates |
| Pareto.DominatesExactly | src/mind3/core/driver.py:2802-2812 | a point dominates another exactly when it is no worse on every count and not the other way round |
| Pareto.InRecordingOrder | src/mind3/core/driver.py:2790-2818 | in recording order, repetitions kept |
| Pareto.FrontierCovers | src/mind3/core/driver.py:2790-2818 | every valid point is matched or beaten on all counts by a frontier point |
| Pareto.FrontierStable | src/mind3/core/driver.py:2790-2818 | the frontier of the frontier is the frontier |
| Wilson.ContainsShare | src/mind3/benchmarks/runner.py:993-1001 | the interval contains the observed share and lies in the unit interval, so the clamps never act |
| Wilson.QuantileSquared | src/mind3/benchmarks/runner.py:996 | the square of z is the 95% quantile of the chi-squared distribution with one degree of freedom, to fourteen decimals |
| Wilson.Mirrored | src/mind3/benchmarks/runner.py:993-1001 | the interval of the failures is the mirror image |
| Wilson.BothEndsRise | src/mind3/benchmarks/runner.py:993-1001 | both ends are nondecreasing in the successes |
| Wilson.ImplementationsAgree | src/mind3/benchmarks/baselines.py:44-52 | the two implementations agree |

## Left out

- Model, network, sandbox and EDA calls, prompts, reports, the command line: foreign calls and text. The model
  and the verifier appear as oracles; prompt texts are an arbitrary function of what they are made from.
- SHA-256 and canonical JSON: the digest is an arbitrary function, and where equal digests matter a lemma
  concludes equality or a collision; wall-clock timestamps are an arbitrary function of the step.
- The file that mirrors the trail, and the metadata files of the transcript: only the records in memory.
- Files other than the RTL, harness and verifier outputs, permissions and modification times of snapshots; a
  directory or a link at the RTL path reads as an absent text. The snapshot directory is a separate field.
- The evidence-V2 pre-checks of the repair loop: the flag is taken as off, its default.
- Change-size statistics and response parsing: arbitrary functions of the two texts.
- RepairSpec.EmitTrace: the pipeline's events carry what some reader of the trail looks at; gate reports, diff
  statistics and the decoded response are left out of them. `TraceLog` is for any payload.
- `PhaseDriver.run`, the older loop: it can leave without restoring the snapshot, so nothing is claimed of it.
- CdcSynchronizers.Classify: the handshake chains it computes are never used in the verdict and are not modelled.
- CdcSynchronizers.FindChain: sets of consumed signals are the single signals the caller passes.
- CdcCrossings.IsResetName: letter case and word characters are ASCII.
- CdcParser.ParseModules: the content checks inside a construct (constant ranges, names, drivers of always bodies, duplicate ports) are two arbitrary predicates that `Subset` holds, one of the parameters and ports of a module, one of an item after these and the items before it; the drivers of always bodies are not extracted, and the check for preprocessor directives is not part of it.
- CdcLexer.Lex: ASCII sources; Python's digits, letters and white space outside ASCII are not covered.
- ContractHeader.HeaderRoundTrip: ASCII text; what is read from a header whose parameters are cut short by a parenthesis opened right after one is closed is not described further.
- InterfaceCheck.TemplateConforms: the same headers are not covered.
- InterfaceCheck.Check: the clock, reset and property checks that follow in the same function search the RTL with regular expressions and are not modelled; order within the sorted groups is left open.
- Naming.ApplyNaming: the class of word characters is a parameter that contains the ASCII ones and excludes white space, `/` and `*`.
- Wilson.RunnerCi95: real arithmetic before rounding to four digits; floating-point error is not modelled.
- Pareto.Optimizer: metrics are reals; not-a-number is not modelled.
- TrailLaw.RunLawful: until the first verdict the RTL text a response is compared with is some text; after an unparseable response or a failed call the law allows a rollback and does not say when it must come (the bounds of `RepairRun.Pipeline` do).
- Transcript.ExtractAttempts: gate reports, the contract dictionary and the final outcome are not part of the records.
- Failure taxonomy, intent routing, release approval, UPF generation, content cache, dataset export: lookups that would only add easy members.

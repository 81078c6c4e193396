# Verified models of the ns-3 tooling

This project models the self-contained algorithms that ns-3 keeps beside its simulator, and proves what they
promise. Each module follows one source file; the methods keep the loops and mutable state of the source and are
proved against specifications that do not mention how the result is computed.

| module | models |
|---|---|
| `Basics` | optional values and duplicate-free lists |
| `Graphs` | walks, cycles and enumerations: vocabulary shared by the graph algorithms |
| `Topsort` | the two dependency sorts of `topsort.py` and the relation between them |
| `Rotations`, `FindCycles` | `is_rotated`, and the enumeration of all simple cycles |
| `WorkerPool` | the worker threads, queues, break jobs and interrupt flag of `test.py`, as a state machine whose runs are all interleavings; the collection loop and the result |
| `ShellSyntax`, `ShellRun` | the pipeline parser of `shellcmd.py`, and the executor with its processes and files |
| `ConfigPaths` | the search for configuration paths over the graph of types |
| `PatchText`, `PatchObjects`, `Whitespace` | parsing, printing and rewriting unified diffs in `check-style.py` |
| `BinaryCodes`, `Permutations` | binary numerals, Gray codes and permutations of `rad_util.py` |
| `BenchSimulator` | the self-rescheduling events of `bench-simulator.cc` |

Conventions:

- A dictionary is a `map`; where its iteration order shows, the order is a parameter or the result of a method that
  promises only *some* enumeration of the keys, so every order is covered. A generator is the sequence it yields,
  with its end (normal, or an exception). `topsort.py` is read as Python 2, where `raise StopIteration` ends a
  generator normally.
- Exceptions and failed assertions are results (`CycleError`, `IndexError`, `Raised`, `None`), not preconditions.
- In `ShellRun` an oracle gives the exit code of the command at each position of the line; what the run does to
  the outside world is a trace of `Open`, `Start`, `Wait` and `Close` events.
- A job's `id` in `WorkerPool`, and a `Handle` in `ShellRun`, stand for object identity.
- `hide` statements in some bodies only keep definitions out of the proofs that do not need them.

What the proofs brought to light, kept as the source has it:

- `test.py`: with a negative process limit and at least one job, the main thread waits forever
  (`FinishesIffLimitNotNegative`, `NegativeLimitHangs`); a limit of 0, the default, counts as none.
- `shellcmd.py`: operators are read as right-nested, and a `cd` with its `&&` is dropped, unlike in the standard shell.
  Leave out the leading pipelines that end in a `cd`; the two readings agree for all exit codes exactly when only one of
  `&&` and `||` is left (`AgreesIffOneKind`, with `a || cd x && b` as an example in `OrThenChdir`). A `cd` at the end of
  a line or without a directory parses but cannot be run (`ReturnsIffNoBadChdir`); when it follows a pipe, as in
  `a | cd x`, the exception leaves the started processes unwaited and their files open (`Run`). A redirection operator
  at the end of a line is accepted and ignored.
- `check-style.py`: a removed line whose text starts with two dashes and a blank is printed as a file header (an added
  one with two plus signs likewise), so printing and parsing are inverse exactly on patch sets without such lines
  (`RoundTrip`). The whitespace pass can change the source side of a patch, when it extends a context line
  (`SourceUntouched`, `ContextRewritten`).
- `rad_util.py`: `is_rotated` fails on two empty sequences, and `binary_range(0)` is empty although there is one
  numeral of no digits.

## Model

| member | source | states |
|---|---|---|
| `Topsort.BuildTables` | bindings/python/topsort.py:77-90 | The two tables hold, for every node, how many pairs give it a parent and its children in pair order with repetitions. |
| `Topsort.ChildListConcat` | bindings/python/topsort.py:89-90 | The child list of a node follows the pair list, repetitions included. |
| `Topsort.ParentCountIs` | bindings/python/topsort.py:86-87 | The count of a node is the number of pairs that give it a parent not yet removed. |
| `Topsort.TopSort` | bindings/python/topsort.py:92-112 | Returns normally exactly when the pairs have no cycle (self-loops and duplicate pairs included). The answer has no repeats, puts parents before children and lists level after level; on a cycle error the leftover tables describe a remainder in which every node has a leftover parent and which contains a cycle. |
| `Topsort.Visit` | bindings/python/topsort.py:97-106 | One turn of the loop over the growing answer keeps the sort invariant, and no decrement touches a missing key. |
| `Topsort.ChildrenPresent` | bindings/python/topsort.py:98-101 | While a node without remaining parents is removed, each child it lists is still a key, with a count at least the number of times it is listed. |
| `Topsort.CountDownAndAppend` | bindings/python/topsort.py:100-103 | Exactly the listed children whose count reaches zero are appended, each once. |
| `Topsort.ParentlessKeys` | bindings/python/topsort.py:93 | Every key with count zero once, in whatever order the dictionary lists its keys. |
| `Topsort.TopSortLevelsCore` | bindings/python/topsort.py:203-232 | For counts that agree with the child lists: level i lists exactly level i of the graph, levels are not empty, and the generator ends normally exactly when there is no cycle, otherwise with the tables of the stuck remainder. |
| `Topsort.TopSortLevels` | bindings/python/topsort.py:157-172 | The same for a pair list. |
| `Topsort.RemoveLevel` | bindings/python/topsort.py:217-224 | Removing the nodes of a level one after another leaves the tables of the next round. |
| `Topsort.LevelIsLongestChain` | bindings/python/topsort.py:203-224 | A node is on level n exactly when its longest chain of ancestors has n edges. |
| `Topsort.LevelParents` | bindings/python/topsort.py:203-224 | All parents of a node are on earlier levels, and past level 0 one of them is on the level just before. |
| `Topsort.NeverPeeledIffBelowCycle` | bindings/python/topsort.py:108-111 | The nodes left over are exactly those on a cycle or below one. |
| `Topsort.AtRest` | bindings/python/topsort.py:108-111 | When no node without parents is left, nothing is left exactly when the graph is acyclic, and a remainder contains a cycle. |
| `Topsort.AnswerCutsIntoLevels` | bindings/python/topsort.py:92-112 | Cutting the single list at the level sizes gives a permutation of each level in order. |
| `Topsort.SameSortedPart` | bindings/python/topsort.py:203-229 | For cyclic input too, both sorts place the same nodes, so the leftovers agree. |
| `Topsort.SortBothWays` | bindings/python/topsort.py:73-172 | Run on one pair list, the two sorts give the same verdict; the single list is exactly as long as the levels together and its cuts at the level sizes are permutations of the levels; on a cycle both errors carry the same tables. |
| `Topsort.LevelOrderIsTopological` | bindings/python/topsort.py:61-71 | A list in level order has every parent before its children. |
| `Rotations.IsRotated` | bindings/python/rad_util.py:761-775 | True exactly for rotations; two empty sequences raise an index error. |
| `Rotations.RotationSymmetric` | bindings/python/rad_util.py:735-736 | Being a rotation is symmetric. |
| `Rotations.RotationTransitive` | bindings/python/rad_util.py:735-736 | Being a rotation is transitive. |
| `FindCycles.AllCycles` | bindings/python/topsort.py:343-385 | On every finite graph: each list is a simple cycle, no two are rotations of each other, every simple cycle appears up to rotation although visited start nodes are skipped, and the result is empty exactly when the graph is acyclic. |
| `FindCycles.SearchFrom` | bindings/python/topsort.py:351-385 | The stack loop terminates, finds every simple cycle within reach of its start node, and marks as visited only nodes within reach. |
| `FindCycles.ScanChildren` | bindings/python/topsort.py:362-385 | Exactly the children not on the path are pushed and marked; for the others the closed cycle is known afterwards. |
| `FindCycles.Record` | bindings/python/topsort.py:368-378 | A cycle is kept exactly when no rotation of it is known. |
| `FindCycles.ClosedPathsCover` | bindings/python/topsort.py:351-385 | When every simple path from the start has had its closing edges looked at, every cycle within reach is found. |
| `FindCycles.CoveredBeyond` | bindings/python/topsort.py:347-349 | A node reached from a finished start node needs no search of its own. |
| `FindCycles.PopLowersWeight` | bindings/python/topsort.py:352-385 | A weight exponential in the unused path length falls at each pop, however many longer paths are pushed. |
| `FindCycles.ClosingCycle` | bindings/python/topsort.py:367-369 | The path from the first occurrence of a repeated child on is a simple cycle. |
| `WorkerPool.InvMain` | test.py:1701-1725 | Every main-thread step (start, put, get a report, join) keeps the invariant: each job is in exactly one place. |
| `WorkerPool.InvWork` | test.py:984-1052 | Every worker step (get, stop, hand back, skip, run, put) keeps the invariant. |
| `WorkerPool.RunKeepsInv` | test.py:984-1052 | The invariant holds in every state of every interleaving, with an interrupt at any moment. |
| `WorkerPool.StepLowersRank` | test.py:984-1052 | Every step of any thread lowers a natural number, so no run is infinite. |
| `WorkerPool.StoppedAfterJobs` | test.py:1701-1704 | No worker stops before all test jobs have been taken from the queue. |
| `WorkerPool.NoDeadlock` | test.py:1723-1725 | With a worker, or with nothing to do, a reachable state in which nobody can move is the finished one: all reports read, all threads joined. |
| `WorkerPool.FinishesIffStaffed` | test.py:1427-1431 | Every full run finishes, with all reports read and all threads joined, exactly when there is at least one worker or no job. |
| `WorkerPool.FinishesIffLimitNotNegative` | test.py:1404-1431 | With the worker count computed from the number of processors and the process limit: every full run finishes exactly when there is no job, or at least one processor and no negative limit. |
| `WorkerPool.NegativeLimitHangs` | test.py:1417-1422 | With one job and a limit of -1 no full run finishes. |
| `WorkerPool.FinalState` | test.py:1862-1863 | At the end each test job has been reported exactly once, both queues are empty, and the workers have consumed the break jobs, one each. |
| `WorkerPool.FullRunReportsOnce` | test.py:1701-1863 | The same for the last state of every full run, with a bound on its length. |
| `WorkerPool.InterruptDropsTheRest` | test.py:994-1001 | Every job that no worker has taken when the interrupt flag is set ends up reported as interrupted, in every full run. |
| `WorkerPool.HandedBackLater` | test.py:586-591 | Once set, the flag stays set, and no job taken later is run. |
| `WorkerPool.RunHasTrace` | test.py:984-1052 | Every run is the run of some sequence of actions, so what holds of the actions of a run holds of every interleaving. |
| `WorkerPool.JobFate` | test.py:984-1052 | In every full run some worker looks at each job. If the interrupt flag is set by then the one report of the job says interrupted; if not, the job is reported as skipped when it is marked so, and otherwise run until its process ends. The report of a job that was run carries the exit code of its process, interrupt or not, and every report the name the job was dispatched with. |
| `WorkerPool.ReportsInOrder` | test.py:1723-1725 | Reports are read in the order in which the workers put them. |
| `WorkerPool.Summarise` | test.py:1716-1757 | On the fields of the reports: what each of the five counters counts and which names each list holds, in order of arrival; the counters and the interrupted reports add up to all reports, and the result is 0 exactly when every report is a skipped job or a process that returned 0. |
| `WorkerPool.SummaryCoversJobs` | test.py:1946-1949 | All reports are PASS or SKIP exactly when every dispatched job was reported so; without an interrupt none is dropped and exactly the jobs marked so are skipped. |
| `WorkerPool.ResultOfRun` | test.py:1716-1949 | For every full run, whatever the interleaving and the interrupts: the result is 0 exactly when every job was looked at before an interrupt and was skipped or ran a process that returned 0. |
| `ShellSyntax.Pipeline.CommitCommand` | waf-tools/shellcmd.py:101-104 | Appends the open command and closes it; fails when there is none. |
| `ShellSyntax.Pipeline.Consume` | waf-tools/shellcmd.py:137-199 | One token takes the six-state machine to the next state, or an assertion fails. |
| `ShellSyntax.Pipeline.Parse` | waf-tools/shellcmd.py:121-201 | The result is what feeding all tokens gives; an accepted one is well formed: commands and operators alternate, a command writes to a pipe exactly when a pipe follows, a cd is followed by && or the end. |
| `ShellSyntax.EnvMatchOf` | waf-tools/shellcmd.py:24 | A printed assignment is matched as its name and value. |
| `ShellSyntax.EnvMatchIff` | waf-tools/shellcmd.py:24 | A token is taken for an assignment exactly when it reads NAME=VALUE, possibly with a newline at the end. |
| `ShellSyntax.EnvPutGet` | waf-tools/shellcmd.py:141 | Of repeated assignments the last one counts, and no other variable changes. |
| `ShellSyntax.AssignedGet` | waf-tools/shellcmd.py:136-141 | After a list of assignments each variable has the value last assigned to it. |
| `ShellSyntax.ParsePrinted` | waf-tools/shellcmd.py:121-201 | Every well-formed pipeline is recovered from its tokens. |
| `ShellSyntax.ParseImage` | waf-tools/shellcmd.py:121-201 | The pipelines that some token list parses to are exactly the well-formed ones. |
| `ShellSyntax.ParseLine` | waf-tools/shellcmd.py:121-201 | For all lines with arguments, redirections and repeated assignments in any order: the parser gives the commands whose argument vectors are the name and the arguments in order, whose streams are those named and which write to a pipe where one follows; it refuses exactly the lines that redirect a stream twice, redirect output before a pipe, give a cd two directories or put an assignment before a cd. |
| `ShellSyntax.ParseDangling` | waf-tools/shellcmd.py:155-163 | A redirection operator at the end of a line has no effect. |
| `ShellSyntax.ParseUnfinished` | waf-tools/shellcmd.py:200 | A line that breaks off after an operator or after assignments is refused. |
| `ShellRun.Run` | waf-tools/shellcmd.py:214-346 | For all exit codes: a command is started exactly when the operators before it lead to it (a pipe always, && after status 0, the double bar after any other status), in written order, and the last one started gives the exit code, unless the run gets to a cd at the end of the line (IndexError) or without a directory (TypeError); this is the right-nested evaluation of the pipe groups. Every trace, also one that ends in an exception, is disciplined: files are opened under the names in the line, a non-first command of a group reads the pipe of the process started just before, and files are closed in turn, once, after every started process was waited for. A returning run has waited for everything and closed everything; an exception leaves the processes of the unfinished group and the files opened for them, and leaves none exactly when the first cd that cannot be run does not follow a pipe (directly, or with only cds in between). |
| `ShellRun.ExecutedAsWritten` | waf-tools/shellcmd.py:293-346 | The same of the right-nested evaluation, stated on the nodes: which commands it starts, their order, and its outcome. |
| `ShellRun.DirectoryInForce` | waf-tools/shellcmd.py:221-231 | An absolute cd replaces the working directory, a relative one is appended to it after a slash; commands leave it alone. |
| `ShellRun.ExecPipedCommands` | waf-tools/shellcmd.py:203-212 | Waits for each process of the group in order; the status is that of the last command. |
| `ShellRun.CombineCodes` | waf-tools/shellcmd.py:207-212 | Searching for a nonzero code and returning the last code is returning the last code. |
| `ShellRun.StartCommand` | waf-tools/shellcmd.py:242-291 | The command is started with the pipe of its predecessor or its redirections, in the directory the cds before it lead to, and every file it opened is remembered. |
| `ShellRun.CloseFiles` | waf-tools/shellcmd.py:301-304 | Everything opened is closed once, except the null device. |
| `ShellRun.OpenedOnce` | waf-tools/shellcmd.py:245-272 | No file is opened twice and no process started twice. |
| `ShellRun.AgreesIffOneKind` | waf-tools/shellcmd.py:312-346 | The run of a parsed line agrees with the left-associative rule of section 2.9.3 of the POSIX Shell Command Language, a cd being a command that succeeds, under all exit codes exactly when no cd stands at the end or lacks a directory and, after the leading pipelines that end in a cd, only one of && and the double bar is used. |
| `ShellRun.OrThenChdir` | waf-tools/shellcmd.py:225-231 | A line that a double bar, a cd and an && join: the tokens parse, the run returns 0 after its first command, the standard goes on to the last. |
| `ShellRun.ReturnsIffNoBadChdir` | waf-tools/shellcmd.py:225-231 | A parsed line returns an exit code under all exit codes of its commands exactly when no cd stands at the end or lacks a directory. |
| `ConfigPaths.StaticInformation.GetCurrentPath` | utils/print-introspected-doxygen.cc:328-338 | The labels, each after a slash. |
| `ConfigPaths.StaticInformation.RecordOutput` | utils/print-introspected-doxygen.cc:341-346 | Appends the type with the current path. |
| `ConfigPaths.StaticInformation.HasAlreadyBeenProcessed` | utils/print-introspected-doxygen.cc:349-361 | Whether the type is on the stack. |
| `ConfigPaths.StaticInformation.DoGather` | utils/print-introspected-doxygen.cc:420-503 | Terminates, restores both stacks, and appends the entries of the paths from the type that avoid the stack. |
| `ConfigPaths.StaticInformation.Follow` | utils/print-introspected-doxygen.cc:449-453 | Pushing label and type, searching below and popping both deals with one more edge. |
| `ConfigPaths.StaticInformation.Gather` | utils/print-introspected-doxygen.cc:411-417 | From empty stacks: one entry for each simple labelled path of the type graph, and no other. |
| `ConfigPaths.SlotEdgeIff` | utils/print-introspected-doxygen.cc:429-502 | The edges of a type and their labels: to what a pointer attribute points to unless that is the root class, to the items of a container, to every registered child, and to the other end of every aggregation. |
| `ConfigPaths.RenderConcat` | utils/print-introspected-doxygen.cc:328-338 | A path is written as its labels, each after a slash. |
| `ConfigPaths.PathsAreSimple` | utils/print-introspected-doxygen.cc:424-428 | The search enumerates exactly the paths that visit no type twice and none on the stack. |
| `ConfigPaths.PathsDistinct` | utils/print-introspected-doxygen.cc:429-502 | It enumerates each of them once. |
| `PatchText.ClassifyRange` | utils/check-style.py:373-394 | A printed chunk header is read back with its two positions. |
| `PatchText.ClassifyLine` | utils/check-style.py:395-412 | A printed body line is read back with its kind and text, unless it looks like a file header. |
| `PatchText.ClassifyFalseHeader` | utils/check-style.py:380-389 | A removed line whose text starts with two dashes and a blank (an added line: two plus signs and a blank) is taken for a file header. |
| `PatchText.ClassifyIff` | utils/check-style.py:371-412 | What every line is read as, with or without a newline at its end: a file header, a chunk header with the values of its numbers, a removed, added or common line with its text, or nothing known. |
| `PatchText.HeaderCountsMatch` | utils/check-style.py:297-306 | The counts in a printed chunk header are the numbers of source and destination lines printed below it. |
| `PatchText.RoundTrip` | utils/check-style.py:359-414 | Parsing what write prints gives the patch set back exactly when no body line looks like a file header. |
| `PatchText.RoundTripThroughText` | utils/check-style.py:359-414 | The same through a text cut at its newlines. |
| `PatchText.FeedCounts` | utils/check-style.py:379-414 | The parser makes one patch of each file header and keeps each body line once. |
| `PatchText.ParseLinesResult` | utils/check-style.py:370-414 | For every list of lines: one patch for each source-file header, with the last destination name and the chunks up to the next one; a chunk holds the body lines up to the next chunk header, even across a file header; refused exactly when a line is not understood or comes before the header it needs. |
| `PatchObjects.ParsePatchset` | utils/check-style.py:370-414 | The objects built represent the patches into which the headers divide the lines; every line object is new and in one place only; exceptions are raised in exactly the same cases. |
| `PatchObjects.PatchChunkLine.SetSrc` | utils/check-style.py:166-173 | Kind and text of the line are set. |
| `PatchObjects.PatchChunkLine.AppendToLine` | utils/check-style.py:190-196 | The text grows at the end; the kind stays. |
| `Whitespace.SrcLines` | utils/check-style.py:265-274 | The very line objects of the source side, in order. |
| `Whitespace.DstLines` | utils/check-style.py:275-284 | The very line objects of the destination side, in order. |
| `Whitespace.TidyChunk` | utils/check-style.py:421-431 | In place, on objects shared by both sides: the i-th destination line gets a blank exactly when the i-th source line, as it then is, has that blank more; a missing destination line ends the pass. |
| `Whitespace.RemoveTrailingWhitespaceChanges` | utils/check-style.py:416-432 | The whole pass in place: chunks are aligned, in order, up to and including the first one with more source than destination lines, in whichever patch that is; all other chunks are as parsed. |
| `Whitespace.PassTidies` | utils/check-style.py:416-432 | The same of the pass on values. In an aligned chunk the i-th destination line becomes equal to the i-th source line when it only lacks the last blank of that, the source line being seen as rewritten when it stands before the destination line; every other line is as parsed. |
| `Whitespace.ChunkCompleteIff` | utils/check-style.py:423-431 | The pass goes on after a chunk exactly when it has no more source than destination lines. |
| `Whitespace.TrailingChangeHidden` | utils/check-style.py:424-429 | In the result of the pass, opposite a removed line of a chunk it gets to, a destination line that only lost its last blank is equal to that line; any other is as parsed. |
| `Whitespace.AlignPatchesExtends` | utils/check-style.py:416-432 | Nothing is added, dropped, moved or re-typed; each line grows by at most one blank, and only destination lines do. |
| `Whitespace.SidesExtended` | utils/check-style.py:416-432 | Both sides of every chunk are as before up to one trailing blank a line. |
| `Whitespace.SourceUntouched` | utils/check-style.py:416-432 | The pass leaves the source side of a chunk as it is exactly when no context line opposite a source line, as both are before the pass, lacks just the last blank of that line. |
| `Whitespace.ContextRewritten` | utils/check-style.py:424-429 | A removed line with a trailing blank opposite the context line without it: the context line gets the blank, so the source side changes. |
| `BinaryCodes.Int2Bin` | bindings/python/rad_util.py:74-105 | Through hexadecimal digits: negative numbers fail with a key error; for at least one place it succeeds exactly on numbers that fit, with that many digits that read back as the number. |
| `BinaryCodes.Int2BinCorrect` | bindings/python/rad_util.py:74-105 | The same of the conversion as a function, for use along a binary range. |
| `BinaryCodes.Increment` | bindings/python/rad_util.py:648-659 | The carry loop adds one; the last toggle cell tells whether it overflowed. |
| `BinaryCodes.BinaryRange` | bindings/python/rad_util.py:632-660 | 2^bits entries, the k-th being the numeral of k; no entry for width 0. |
| `BinaryCodes.GrayCodesVisitAllOnce` | bindings/python/rad_util.py:612-615 | Along a binary range the codes visit every number once, and neighbours differ in exactly one bit. |
| `BinaryCodes.DecodeEncode` | bindings/python/rad_util.py:612-615 | The code can be undone. |
| `BinaryCodes.GrayBit` | bindings/python/rad_util.py:612-615 | A bit of the code is set exactly when that bit of the number differs from the next higher one. |
| `Permutations.Permute` | bindings/python/rad_util.py:310-326 | The nested loops give exactly the rearrangements of the input, n! lists for n items, none twice when the items are distinct. |
| `Permutations.Rearranged` | bindings/python/rad_util.py:310-326 | The lists are exactly the rearrangements of the input. |
| `Permutations.PermutationCount` | bindings/python/rad_util.py:310-326 | There are n! of them, also for n = 0. |
| `Permutations.PermutationsDistinct` | bindings/python/rad_util.py:310-326 | No list is repeated when the items are distinct. |
| `BenchSimulator.Bench.Cb` | utils/bench-simulator.cc:133-145 | Below the total a callback schedules one event and counts; at the total it only drains. |
| `BenchSimulator.Bench.RunNext` | utils/bench-simulator.cc:133-145 | Whichever pending event runs: below the total the number of pending events stays the population and the count grows by one, at the total one event drains; pending events and callbacks together are population plus count. |
| `BenchSimulator.Bench.RunBench` | utils/bench-simulator.cc:97-131 | For all delays and any event order: the queue ends empty, and with a population the count ends at the total after population + total callbacks. |

## Left out

- `sigint_hook`: a second interrupt is not a step, because it sets a flag that is already set.
- `run_job_synchronously`: a test process is an arbitrary exit code; a job run always yields one. Console output,
  XML files and report formats of `test.py` are not modelled.
- `get_abbreviated_command` and the verbose output of `shellcmd.py`.
- `shlex.split`: parsing starts from a token list.
- ShellSyntax.EnvMatchOf: white space in environment values is the ASCII set with the four separators; the Unicode
  spaces beyond ASCII are not modelled.
- Opening a file or starting a process always succeeds in `ShellRun`; argument lists and environments are those of
  the parsed command and are not repeated in the trace.
- ShellSyntax.Pipeline.Parse: the open command is a value that is replaced, because nothing else refers to the
  object before it is committed; its final state after a failed assertion is not described.
- PatchObjects.ParsePatchset: patches and chunks are values addressed by position, because nothing else refers to
  those objects; line objects are modelled with identity and in-place update.
- PatchText.RoundTripThroughText: text is cut at newlines only; a file that Python opens in its default text mode breaks
  lines at carriage returns too.
- A patch line text with an embedded newline: `write` cannot print it as one line, so `Printable` excludes it.
- ConfigPaths.StaticInformation.Gather: `Uniquefy` receives its container by value, so it has no effect on the
  output and no uniqueness is claimed through it; parent links of types are given as the set of (child, ancestor) pairs.
- BinaryCodes.DecodeEncode: `gray_encode` on negative integers is not modelled.
- `bin2int` accepts only strings of binary digits here; signs, blanks and prefixes that `int` allows are not modelled.
- BenchSimulator.Bench.RunBench: event times only name events, because no property depends on which runs first;
  wall-clock measurements are left out.
- Floating-point and textbook helpers of `rad_util.py`, the plotting tool `utils/grid.py`, and the simulation scripts.

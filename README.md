# TAP for Java, modelled in Dafny

This project models the core of a small TAP (Test Anything Protocol)
producer for Java. Its engine (`TapTest`, and the same engine as the
template fragment `body.java` that is spliced into a test subject) counts
assertions and prints the protocol lines:

- the plan `1..N` and the skip-everything line `1..0 # SKIP reason`;
- the status lines `ok n` / `not ok n`, each with an optional ` - description`
  or ` # directive`;
- `#` comment lines.

It also keeps a one-level subtest context with TODO bookkeeping.

Around the engine sit two parts:

- The command-line range selector, in `parse_cmd` and in `exec`. It reads
  `A..B` tokens in include or exclude colour and decides each test index by
  the last range that covers it.
- Three dispatchers:
  - `run` and `runff` call the test methods of objects that a factory makes,
    and fold what went wrong into the `EX_*` bitmask;
  - `exec` runs every selected test of the subject on a fresh instance. It
    announces the summed plan first and tops the running count up to each
    test's plan.

Layout:

- `text.dfy` (`Text`): the Java string and integer behaviour the code relies on:
  - `Integer.toString` and `Integer.parseInt`, and 32-bit wrap-around;
  - `split("\\n", -1)`, `split("\\.\\.")`, `startsWith`, `contains`, `isBlank`.
- `protocol.dfy` (`Protocol`):
  - the engine's fields as the value `State`, with standard output and
    standard error as two append-only sequences of lines;
  - every engine operation as a step function from a `State` to the new
    `State` plus a value or an exception;
  - a TAP line reader, used to state that the emitted lines read back as
    meant.
- `ranges.dfy` (`Ranges`):
  - the option loop and the token reader;
  - the sign encoding and the backward scan of the filter, as written;
  - an independent statement of the selection rule, with proofs that the
    two agree;
  - the loops over `rangeLo`/`rangeHi` as methods on arrays.
- `dispatch.dfy` (`Dispatch`): the `EX_*` flags, test routines (the engine
  calls a test method makes, and how it ends), and `run` and `runff`.
- `exec.dfy` (`Exec`): `exec`, with the test subject as a datatype.
- `engine.dfy` (`Engine`): the class `TapTest` with the engine's fields.
  - Its methods update the fields in place, with the loops of the source.
  - Each method is proved to leave the object in the state the matching step
    function computes and to return that step's result.

Reflection is replaced by inputs:

- what the factory or constructor yields (`Creation`, `Case.instantiates`);
- whether the test method is found and may be called (`Lookup`);
- the routine the test method runs (`Routine`);
- the answers of the subject's `avail()`, `start()` and `subplan(t)`
  (`Query`).

Every engine made by a dispatcher writes on its host's streams, as in the
source, where they all share `System.out` and `System.err`.

## Model

| member | source | states |
|---|---|---|
| Text.Wrap32 | src/TapTest.java:594 | Java int arithmetic: the value is unchanged within the int range and congruent to the exact value modulo 2^32 |
| Text.NatToStringValue | src/TapTest.java:366 | the decimal digits Integer.toString writes for a non-negative number denote that number |
| Text.ParseIntToString | src/TapTest.java:585 | Integer.parseInt reads back every int written by Integer.toString |
| Text.ParseIntRejectsNonNumbers | src/TapTest.java:584-591 | a non-empty unsigned token that is not all ASCII digits is refused (NumberFormatException); other Unicode decimal digits are outside the model (see Left out) |
| Text.SplitLinesJoin | src/TapTest.java:426-440 | no line of splitlines holds a line feed; joining them with LF gives the text minus at most one trailing LF; "" gives no line and a lone "\n" gives one empty line (the same code is at src/body.java:383-397) |
| Text.SplitLinesOfTerminated | src/TapTest.java:426-440 | splitlines undoes joining LF-free lines and ending the text with LF |
| Text.SplitDotsOfPair | src/TapTest.java:575 | a token made of two non-empty dot-free operands around ".." splits into exactly those two operands |
| Protocol.CommentLine | src/TapTest.java:252-282 | diag and note lines start with "#"; the line is a bare "#" exactly when the text is blank |
| Protocol.CommentLineReads | src/TapTest.java:252-282 | every diag/note line reads back as a TAP comment whatever its text |
| Protocol.PlanOneShot | src/TapTest.java:126-139 | plan(n) raises and changes nothing when a positive plan exists (even for the same n, with "You already have a plan: " and that plan) or n < 0 ("Plan cannot be negative"); otherwise it records n, prints "1..n" only when n > 0, that line reads back as the plan, and a second plan(m) then raises |
| Protocol.PlanLineReads | src/TapTest.java:135-137 | "1..n" for n > 0 reads back as a plan of n |
| Protocol.SkipAllLineReads | src/TapTest.java:214-216 | "1..0 # SKIP reason" reads back as skip-everything with that reason |
| Protocol.DoneTestingResult | src/TapTest.java:161-188 | done_testing raises, without change, iff the run ended ("I thought we were done here!") or a subtest is open (the hint to call done_subtest()); with no plan it prints "1..0 # SKIP No tests defined" for count 0 and "1..count" otherwise, and ends the run; a missed positive plan gives true, two lines on standard error and an open run; otherwise false and the run ends |
| Protocol.SkipAllResult | src/TapTest.java:207-224 | skip_all raises when the run has ended ("test has ended; there is nothing to skip"); with no plan it prints the skip line and returns 0; with a plan and count C below it, it returns ceiling((plan - C)/2) and leaves count at plan or plan + 1 (the double increment); the run always ends |
| Protocol.SkipLoopCount | src/TapTest.java:217-222 | the skip_all loop: ceiling((P - C)/2) failing SKIP results, count grows by two per round, the failures are counted unless the reason is a TODO |
| Protocol.OkTally | src/TapTest.java:356-412 | ok returns its argument; count and subcount grow by 1; fail and subfail grow by 1 iff the assertion failed and its first line lacks TODO; a passing TODO appends the new count to subdone, a failing one adds 1 to subtodo; plan, ended, origin and the subtest context stay (the same code is at src/body.java:313-369) |
| Protocol.OkStatusLine | src/TapTest.java:364-381 | the next output line is "ok "/"not ok " with the number and description; with origin >= 0 it is printed as it is, in embedded mode as "# " and the line |
| Protocol.ResultLineReads | src/TapTest.java:367-374 | a status line reads back as a test point with its result and number, a directive exactly when the first line has TODO or SKIP (" # "), otherwise a " - " description |
| Protocol.OkStatusReads | src/TapTest.java:364-376 | with origin >= 0 the status line of ok reads back as a test point numbered count + 1 + origin with the first description line |
| Protocol.OkWithoutReason | src/TapTest.java:364-384 | ok with trace and no description line (ok(false, "")) prints its status line and moves count and subcount on, then raises IndexOutOfBoundsException reading reasons[0]; fail, subfail and the TODO tallies stay |
| Protocol.RepeatTally | src/TapTest.java:449-507 | pass(n)/fail(n): n <= 0 does nothing, otherwise n assertions; fail grows by n exactly when they fail without TODO; the run's plan, origin and subtest context stay; skip(n, mess) is n passing "SKIP mess" results, none a failure |
| Protocol.AssertionsTally | src/TapTest.java:356-412 | a run of assertions that cannot raise: count grows by their number, fail by the failures that count, subdone gains the numbers of the passing TODOs and subtodo the failing TODOs |
| Protocol.SubtestVerdict | src/TapTest.java:982-1055 | init_subtest, assertions, done_subtest: the verdict is true iff no assertion counted as failure and, in embedded mode with a positive subplan, their number met it; subtodo carried in is kept (not reset); subdone lists only this subtest's passed TODOs |
| Protocol.SubtestVerdictAgainst | src/body.java:848-920 | the spliced done_subtest checks the declared subplan of the subtest whatever its sign, in embedded mode only |
| Protocol.SubtestBracketing | src/TapTest.java:985-1010 | init_subtest inside subtest N raises "You are already in subtest N." and changes nothing; done_subtest outside a subtest raises "You are not in an ongoing subtest." and changes nothing, in both variants |
| Protocol.CloseSubtest | src/TapTest.java:1012-1054 | the shared close: the verdict is subfail <= 0 and not (embedded and misplanned); only subtesting and the streams change |
| Ranges.ReadRange | src/TapTest.java:572-628 | an accepted token yields a range with 1 <= lo <= avail and lo - 1 <= hi <= avail in the current colour |
| Ranges.ReadArgs | src/TapTest.java:546-630 | every range read has a lower bound of 1 or more, and at most one range per argument |
| Ranges.ReadRangeOfNumbers | src/TapTest.java:572-628 | a token written as two numbers in range reads back as that range |
| Ranges.DecideIsRule | src/TapTest.java:635-662 | the backward scan over the sign-encoded arrays decides every index exactly as the rule Chosen: the last covering range by its colour, otherwise chosen iff no include range |
| Ranges.LastCoverDecides | src/TapTest.java:636-662 | case 1: the last declared range covering t decides by its colour, and its stored signs decode back to its bounds and colour |
| Ranges.UncoveredDefault | src/TapTest.java:636-662 | case 2: an index no range covers is chosen iff no include range was declared |
| Ranges.DefaultsOfRule | src/TapTest.java:658-662 | with no ranges everything is chosen; a lone include 1..0 chooses nothing |
| Ranges.PickIsSelection | src/TapTest.java:633-663 | the selection is strictly ascending, within [start, start + avail - 1], and holds exactly start + t - 1 for each chosen t |
| Ranges.ParseCmdResult | src/TapTest.java:522-664 | parse_cmd raises, naming start, iff start < 0; -h gives []; a rejected token gives [-2]; otherwise the rule's selection over the ranges read |
| Ranges.SelectionVectors | src/TapTest.java:522-664 | with start 1 and avail 10: "3..5" gives 3,4,5; "-x 3..5" gives 1,2,6..10; "-i 3..5 -x 4..4" gives 3,5 |
| Ranges.ReadArgsAgree | src/body.java:559-652 | without -t and -e, exec reads the arguments exactly as parse_cmd does |
| Ranges.ReadOptions | src/TapTest.java:546-630 | the option loop: its reading is ReadArgs, and rangeLo/rangeHi hold each range's bounds multiplied by its colour; exec runs the same loop with -t and -e (src/body.java:559-652) |
| Ranges.DecideIndex | src/TapTest.java:636-662 | the filter lambda's loop computes Decide over the stored arrays (the same filter is at src/body.java:658-684) |
| Ranges.SelectIndices | src/TapTest.java:633-663 | the stream over 1..avail keeps the decided indices shifted by offset |
| Ranges.ParseCmd | src/TapTest.java:522-664 | parse_cmd computes ParseCmdSpec, whose results ParseCmdResult characterises |
| Dispatch.StatusBits | src/TapTest.java:687-700 | the status has bit f exactly when flag f was raised, and lies in [0, 0x40) |
| Dispatch.ValueBits | src/TapTest.java:687-700 | each EX_* constant has its own single bit |
| Dispatch.StatusInjective | src/TapTest.java:687-700 | two sets of flags give the same status iff they are equal |
| Dispatch.IndexFlagsMeaning | src/TapTest.java:716-800 | per index: ERRINIT iff no object, NOTMETH iff missing method, BADCALL iff refused call, BADPLAN iff invoked, BADINIT/BADMETH iff the method threw an initializer error / anything else |
| Dispatch.RunIndexFacts | src/TapTest.java:720-797 | an index not reached only writes on standard error; a reached one adds the child's count and overwrites fail with the child's |
| Dispatch.RunStatus | src/TapTest.java:716-800 | run's status has bit f iff some index contributes f; BADPLAN is set iff some test method was invoked, planned or not; count grows by what the invoked methods ran |
| Dispatch.RunFlags | src/TapTest.java:716-800 | the OR of run over the indices is the union of their flags |
| Dispatch.RunTotals | src/TapTest.java:795-796 | count grows by the children's counts and fail is the last invoked child's |
| Dispatch.RunFFResult | src/TapTest.java:826-934 | ERRINIT not fatal: runff returns at once with ERRINIT iff some factory failed and runs no method; ERRINIT fatal: it throws iff some index halts it (a null object, or a fatal flag met), else it returns run's status and counters |
| Dispatch.RunFFIndexStrict | src/TapTest.java:843-929 | one strict index throws exactly when it halts; otherwise it adds its flags, none fatal |
| Dispatch.RunFFFromLenient | src/TapTest.java:857-867 | the unconditional continue: with ERRINIT not fatal no method runs and only failed factories are reported |
| Dispatch.PerformAlike | src/TapTest.java:726-727 | a test method's effect on its engine does not depend on what was written on the shared streams before |
| Dispatch.PerformCounts | src/TapTest.java:356-366 | no engine call lowers the count |
| Exec.ExecEarlyExits | src/body.java:499-579 | a set-up fault: skip_all and exit code 1; a negative first test raises the IllegalArgumentException that names it; -h gives 0; a rejected token gives 2 |
| Exec.GiveUpResult | src/body.java:499-548 | a set-up fault after the run ended raises from skip_all; otherwise exit code 1 and the run ends |
| Exec.LaunchRefuses | src/body.java:687-711 | a nonzero total over an earlier plan, a negative total, or a zero total on an ended run raise before any test runs, each with plan's or skip_all's own message |
| Exec.LaunchFacts | src/body.java:687-818 | a positive total on a run without a plan becomes the plan; the exit code is 1 iff -e, no plan query died and fail > 0, else 0 |
| Exec.LaunchReachesPlan | src/body.java:687-818 | with several tests, no negative plan and the total within int range, exec finishes with count at least the announced plan |
| Exec.TotalIsSum | src/body.java:692-701 | the int total is the plain sum of the plans when none is negative and the sum fits |
| Exec.TotalWraps | src/body.java:701 | beyond the int range the total wraps (2147483647 + 1 gives -2147483648) |
| Exec.InstanceNumbers | src/body.java:741 | an instance numbers on from the host: its first status line carries count + 1 |
| Exec.AbortReports | src/body.java:772-800 | a test that dies is one failure, reported as "Test[ t] aborted with an exception: " and the verdict: the engine's message for a misused subtest ("You are already in subtest a.", "You are not in an ongoing subtest."), and java.lang.ExceptionInInitializerError for a failed static initializer, whatever it threw |
| Exec.ExecIndexRuns | src/body.java:772-815 | a run test: count ends at max(goal, count + instance count), exactly goal when the instance ran at most planet; fail grows by 1 for an exception plus the ambitious fillers |
| Exec.TopUpFacts | src/body.java:806-815 | the top-up brings count to goal from below, failing the rest (plan too ambitious) or skipping it after an exception, and does nothing at or above goal |
| Exec.ExecIndexSkips | src/body.java:724-769 | a test that cannot run among several: skip(goal - count) leaves count at goal, no failure added |
| Exec.ExecIndexSkipsAll | src/body.java:724-769 | a test that cannot run alone: skip_all, raising only if the run had ended |
| Exec.ExecFromFacts | src/body.java:712-816 | the dispatch loop keeps the plan; allgood is cleared exactly by a died plan query; with several tests count reaches the positive plans |
| Exec.ExecSelects | src/body.java:654-685 | exec's selection is the rule's selection, ascending and shifted |
| Exec.ExecSelectsAsParseCmd | src/body.java:654-685 | without -t and -e exec selects what parse_cmd returns |
| Exec.TreeRun | src/body.java:687-818 | the example subject (start 1, avail 2, subplans 11 and 8) run with no arguments announces 19 and exits 0 |
| Exec.ExitIgnoresInstanceFailure | src/body.java:806-818 | with -e and one test planned at 1 whose assertion fails, the instance tallies one failure, yet exec returns 0: only instance.count() reaches the host, never its failures |
| Engine.TapTest.constructor | src/TapTest.java:24-76 | a new engine: zero counters, no plan, not ended, no subtest |
| Engine.TapTest.Plan | src/TapTest.java:126-139 | plan(n) changes the fields as PlanStep |
| Engine.TapTest.PlanAll | src/TapTest.java:672-676 | plan(int[]) plans the 32-bit sum |
| Engine.TapTest.DoneTesting | src/TapTest.java:161-188 | done_testing changes the fields as DoneTestingStep |
| Engine.TapTest.SkipAll | src/TapTest.java:207-224 | skip_all changes the fields as SkipAllStep |
| Engine.TapTest.SkipRest | src/TapTest.java:217-222 | the skip_all loop, with its double increment, as SkipLoop |
| Engine.TapTest.BailOut | src/TapTest.java:232-235 | bail_out appends its line to standard output |
| Engine.TapTest.Note | src/TapTest.java:273-282 | note appends the comment line to standard output |
| Engine.TapTest.Diag | src/TapTest.java:252-261 | diag appends the comment line to standard error |
| Engine.TapTest.Log | src/TapTest.java:294-302 | log writes a comment on standard output or error by its flag |
| Engine.TapTest.OkTrace | src/TapTest.java:356-412 | the 4-argument ok changes the fields as OkStep |
| Engine.TapTest.Ok | src/TapTest.java:314-336 | the 2- and 3-argument ok trace unless the assertion passed and mess does not start with TODO |
| Engine.TapTest.ExplainLines | src/TapTest.java:382-404 | the header, frame and remaining-description lines on the stream trace selects |
| Engine.TapTest.Pass | src/TapTest.java:449-451 | pass(mess) is ok(true, mess) without trace |
| Engine.TapTest.Fail | src/TapTest.java:460-463 | fail(mess) is ok(false, mess) without trace |
| Engine.TapTest.PassMany | src/TapTest.java:472-477 | the pass(count, mess) loop |
| Engine.TapTest.FailMany | src/TapTest.java:486-491 | the fail(count, mess) loop |
| Engine.TapTest.Skip | src/TapTest.java:503-507 | the skip(num, mess) loop |
| Engine.TapTest.SetSubplan | src/TapTest.java:969-972 | subplan(n) sets only the subplan |
| Engine.TapTest.SetOrigin | src/TapTest.java:1061-1069 | origin(offset) sets only the origin |
| Engine.TapTest.InitSubtest | src/TapTest.java:982-995 | init_subtest changes the fields as InitSubtestStep |
| Engine.TapTest.DoneSubtest | src/TapTest.java:1005-1055 | done_subtest changes the fields as DoneSubtestStep |
| Engine.TapTest.DoneSubtestAgainst | src/body.java:870-920 | the spliced done_subtest changes the fields as DoneSubtestAgainstStep |
| Engine.TapTest.Invoke | src/TapTest.java:757-781 | a test method's calls on its engine, until one raises |
| Engine.TapTest.Run | src/TapTest.java:716-800 | the loop of run computes Dispatch.Run |
| Engine.TapTest.RunFF | src/TapTest.java:826-934 | the loop of runff computes Dispatch.RunFF |
| Engine.TapTest.Exec | src/body.java:480-819 | exec computes ExecSpec |
| Engine.TapTest.AskPlans | src/body.java:687-702 | plan[] and badplan[]: a refused query leaves 0 and is flagged; total is the wrapped sum |
| Engine.TapTest.DispatchAll | src/body.java:712-816 | the dispatch loop computes ExecFrom |
| Engine.TapTest.FillUp | src/body.java:806-815 | the while (count < goal) top-up |
| Engine.TapTest.ExecOne | src/body.java:719-815 | one index of exec as ExecIndex |

## Left out

- Stack traces: `confess`, the frame lines of the trace block of `ok`
  (`getStackTrace`/`stacklevel`) and the `-t` trace dumps of `exec` depend
  on the virtual machine. The frame line is the fixed text `FrameText`; the
  index error that the block raises when `trace` is set and the description
  is empty is modelled.
- The messages of the exceptions that the reflection calls raise
  (NullPointerException, NoSuchMethodException, IllegalAccessException) are
  fixed placeholder texts in `Message`. The engine's own exceptions carry
  their messages (`Complaint` for IllegalStateException, the first test for
  IllegalArgumentException), and `Fault` carries the text `exec` reports for
  the tested code's exception: its message, or its class name when the
  message is null.
- `String.format` interpolation of diagnostic lines is written as plain
  concatenation. The wording follows `TapTest.java`. Two lines of
  `body.java` are worded differently and are not modelled: the missed-plan
  line of `done_testing` (`src/body.java:145-147`, "but 3 tests were ran."
  and "but 1 test was ran.") and the celebration line of its `done_subtest`
  (`src/body.java:895`, "You passed TODO tests" even for a single test).
  Protocol.DoneSubtestAgainstStep writes `TapTest.java`'s celebration line.
- Protocol.OkTally: descriptions are taken to hold no `%`. In `TapTest.java`
  the later description lines (line 398) and, in embedded mode, the whole
  status line (line 381) become the pattern of `String.format`: "%%" is
  printed as "%", and a lone or unknown conversion throws
  (UnknownFormatConversionException, MissingFormatArgumentException) after
  count and subcount have moved on and before fail is tallied. The model
  prints the text unchanged and does not raise there.
- Protocol.OkStatusLine: in embedded mode the status line is stated as
  printed unchanged after "# "; `note` formats it, so a description with `%`
  may be rewritten or throw, as above.
- Protocol.AssertionsTally and Protocol.SubtestVerdict: they rest on
  Protocol.OkTally and carry the same assumption that descriptions hold no
  `%`.
- Engine.TapTest.OkTrace: it equals OkStep, so it too prints descriptions
  with `%` unchanged where `String.format` would rewrite them or throw.
- Engine.TapTest.ExplainLines: the later description lines are logged as
  they are, not used as a `String.format` pattern.
- Text.ParseInt: only the ASCII digits 0-9 are read. `Integer.parseInt`
  also accepts every other Unicode decimal digit (through
  `Character.digit`), so a token such as "１..３" (fullwidth digits U+FF11 and U+FF13)
  is a range for `parse_cmd` and `exec` but Malformed in the model.
- Text.ParseIntRejectsNonNumbers: states the refusal for tokens that are
  not all ASCII digits; for tokens of other Unicode decimal digits
  `Integer.parseInt` accepts, so the refusal holds only for the ASCII reading
  above.
- The usage, help and error texts printed by `parse_cmd` and `exec` are not
  modelled as lines; only the return values of those paths are.
- Protocol.DoneSubtestAgainstStep: the subject's `subplan(t)` is given as a
  number. A query that throws inside the embedded check is read as 0. Within
  `exec` every instance has a non-negative origin, so that check is never
  reached there.
- Engine.TapTest.Invoke: an `IllegalAccessException` from `invoke` after
  `canAccess` succeeded ("should never happen" in `exec`) is not modelled.
- count, fail and the subtest counters are unbounded integers. A run of more
  than 2^31 assertions does not wrap as a Java int would, and neither does
  the status number count + 1 + origin when a large offset is given to
  `origin(int)`. The plan total of
  `exec` and `plan(int[])`, the range shifts and the selected numbers do wrap.
- Ranges.PickIsSelection and Ranges.ParseCmdResult: the ascending and bounds
  properties are stated only when start - 1 + avail fits an int. Beyond that
  the shifted numbers wrap, as the model computes.
- Exec.LaunchReachesPlan: stated only when no plan is negative and the sum
  of the plans fits an int.
- Reflection (`getDeclaredConstructor`, `newInstance`, `getDeclaredMethod`,
  `canAccess`, `invoke`, `Supplier`) is replaced by the input datatypes
  `Creation`, `Lookup`, `Case`, `Query` and `Routine`. A test routine is the
  sequence of engine calls it makes (assertions, `init_subtest`,
  `done_subtest`) and how it ends.
- `is()`, which relies on `Object.equals`, `toString` and class names, is
  not part of this model.
- The getters `count()`, `plan()`, `failed()` and `done()` are read directly
  as fields of `State`.
- `main`, `System.exit` and the example subject `t/src/BinarySearchTree.java`
  are not part of this model, except the subject's `start` (1), `avail` (2)
  and `subplan` (11 and 8) in `Exec.TreeSubject`.

/** The TAP assertion engine as a state machine. A State holds every field of
    the engine (the run tally, the plan, the ended flag, the display origin and
    the subtest context) together with what has been written so far to
    standard output (out) and standard error (err). Each operation of the
    engine is a function from the old State to a Step: the new State and either
    the value the operation returns or the exception it raises. */
module Protocol {
  import opened Text

  datatype State = State(
    count: int,          // assertions run
    plan: int,           // 0: no plan yet
    fail: int,           // assertions failed (TODO failures excluded)
    ended: bool,         // the run is over
    origin: int,         // added to a displayed number; negative: embedded mode
    subtest: int,        // id of the current (or last) subtest
    subplan: int,        // expected subtotal of a subtest
    subcount: int,       // assertions run in the current subtest
    subfail: int,        // assertions failed in the current subtest
    subtesting: bool,    // a subtest is open
    subtodo: int,        // failed TODO assertions
    subdone: seq<int>,   // numbers of passed TODO assertions
    out: seq<string>,    // lines on standard output
    err: seq<string>)    // lines on standard error

  /** A newly constructed engine writing on the given streams. */
  function Fresh(out: seq<string>, err: seq<string>): State {
    State(0, 0, 0, false, 0, 0, 0, 0, 0, false, 0, [], out, err)
  }

  /** What an operation can raise: the engine's own exceptions, with what
      their messages say, those of the reflection calls a dispatcher makes,
      and Fault, an exception thrown by the tested code, with its message. */
  datatype Thrown =
    | IllegalState(complaint: Complaint) | IllegalArgument(first: int) | IndexOutOfBounds | NullPointer
    | NoSuchMethod | IllegalAccess
    | Fault(message: string)

  datatype Outcome<+T> = Normal(value: T) | Raised(thrown: Thrown)

  datatype Step<+T> = Step(st: State, res: Outcome<T>)

  // ---------------------------------------------------------------------------
  // Protocol lines

  /** diag and note print "#" for blank text and "# text" otherwise. */
  function CommentLine(text: string): (line: string)
    ensures line == "#" <==> IsBlank(text)
    ensures |line| >= 1 && line[0] == '#'
  {
    if IsBlank(text) then "#" else "# " + text
  }

  function PlanLine(n: int): string {
    "1.." + IntToString(n)
  }

  function SkipAllLine(reason: string): string {
    "1..0 # SKIP " + reason
  }

  function BailOutLine(reason: string): string {
    "Bail out! " + reason
  }

  /** A first description line with TODO or SKIP in it is a directive. */
  predicate HasDirective(line: string) {
    Contains(line, "TODO") || Contains(line, "SKIP")
  }

  /** The status line of an assertion with the given displayed number and
      description lines. */
  function ResultLine(pass: bool, number: string, reasons: seq<string>): string {
    (if pass then "ok " else "not ok ") + number
    + (if reasons == [] then "" else (if HasDirective(reasons[0]) then " # " else " - ") + reasons[0])
  }

  // ---------------------------------------------------------------------------
  // Writing on the two streams

  function Note(s: State, text: string): State {
    s.(out := s.out + [CommentLine(text)])
  }

  function Diag(s: State, text: string): State {
    s.(err := s.err + [CommentLine(text)])
  }

  /** log: note when happy, diag otherwise. */
  function Log(s: State, happy: bool, text: string): State {
    if happy then Note(s, text) else Diag(s, text)
  }

  /** The comment lines of the given texts, in order. */
  function Commented(lines: seq<string>): (r: seq<string>)
    ensures |r| == |lines| && forall i :: 0 <= i < |lines| ==> r[i] == CommentLine(lines[i])
  {
    seq(|lines|, i requires 0 <= i < |lines| => CommentLine(lines[i]))
  }

  lemma CommentedCons(lines: seq<string>)
    requires lines != []
    ensures Commented(lines) == [CommentLine(lines[0])] + Commented(lines[1..])
  {
  }

  /** Every text logged: the comment lines of all of them are added to one
      stream, standard output when happy and standard error otherwise. */
  function LogAll(s: State, happy: bool, lines: seq<string>): State {
    if happy then s.(out := s.out + Commented(lines)) else s.(err := s.err + Commented(lines))
  }

  /** Logging all the texts is logging them one at a time, in order. */
  lemma LogAllCons(s: State, happy: bool, lines: seq<string>)
    requires lines != []
    ensures LogAll(s, happy, lines) == LogAll(Log(s, happy, lines[0]), happy, lines[1..])
  {
    CommentedCons(lines);
    if happy {
      assert s.out + Commented(lines) == (s.out + [CommentLine(lines[0])]) + Commented(lines[1..]);
    } else {
      assert s.err + Commented(lines) == (s.err + [CommentLine(lines[0])]) + Commented(lines[1..]);
    }
  }

  /** Logging no text at all changes nothing. */
  lemma LogAllNone(s: State, happy: bool)
    ensures LogAll(s, happy, []) == s
  {
    assert s.out + Commented([]) == s.out && s.err + Commented([]) == s.err;
  }

  // ---------------------------------------------------------------------------
  // Diagnostic wording

  function Plural(n: int): string {
    if n == 1 then "" else "s"
  }

  function PlanMismatchText(plan: int, count: int): string {
    "You planned to run " + IntToString(plan) + " test" + Plural(plan) + ", but "
    + IntToString(count) + " test" + Plural(count) + " ran."
  }

  const OffPlanText := "Seems like things did not go to plan."

  function JoinNumbers(ns: seq<int>): string
    decreases |ns|
  {
    if ns == [] then "" else if |ns| == 1 then IntToString(ns[0]) else IntToString(ns[0]) + ", " + JoinNumbers(ns[1..])
  }

  function CelebrateText(done: seq<int>): string {
    "You passed TODO test" + (if |done| == 1 then " " else "s ") + JoinNumbers(done) + "! Nicely done."
  }

  function TickText(n: int): string {
    "You may tick " + (if n == 1 then "that" else "those") + " off your bucket list now."
  }

  function RanText(count: int, fail: int): string {
    "Ran " + IntToString(count) + " test" + Plural(count) + " and failed " + IntToString(fail) + " test" + Plural(fail) + "."
  }

  function TodoDebtText(n: int): string {
    "You still have " + IntToString(n) + " TODO test" + Plural(n) + " to go."
  }

  function SubtestFailedText(id: int): string {
    "It seems that subtest " + IntToString(id) + " failed. Tough luck."
  }

  function BadSubplanText(id: int, plan: int, count: int): string {
    "Bad plan! Subtest " + IntToString(id) + " planned to run " + IntToString(plan) + " test" + Plural(plan)
    + ", but ended up running " + IntToString(count) + " test" + Plural(count) + "."
  }

  /** Why the engine throws an IllegalStateException: plan over a positive
      plan or with a negative one, done_testing after the end or inside a
      subtest, skip_all after the end, init_subtest inside a subtest,
      done_subtest outside one, and runff's fatal BADPLAN. */
  datatype Complaint =
    | HavePlan(plan: int) | NegativePlan | Ended | MidSubtest | NothingToSkip
    | NestedSubtest(id: int) | NoSubtest | Foiled(name: string)

  /** The message the exception carries. */
  function ComplaintText(c: Complaint): string {
    match c
    case HavePlan(plan) => "You already have a plan: " + IntToString(plan)
    case NegativePlan => "Plan cannot be negative"
    case Ended => "I thought we were done here!"
    case MidSubtest => "You are in the middle of a subtest -- did you mean to call done_subtest()?"
    case NothingToSkip => "test has ended; there is nothing to skip"
    case NestedSubtest(id) => "You are already in subtest " + IntToString(id) + "."
    case NoSubtest => "You are not in an ongoing subtest."
    case Foiled(name) => name + " subplan foiled"
  }

  // ---------------------------------------------------------------------------
  // Operations

  /** plan(n) */
  function PlanStep(s: State, n: int): Step<int> {
    if s.plan > 0 then Step(s, Raised(IllegalState(HavePlan(s.plan))))
    else if n < 0 then Step(s, Raised(IllegalState(NegativePlan)))
    else Step(s.(plan := n, out := if n > 0 then s.out + [PlanLine(n)] else s.out), Normal(n))
  }

  /** done_testing(): true when the run did not go to plan. */
  function DoneTestingStep(s: State): Step<bool> {
    if s.ended then Step(s, Raised(IllegalState(Ended)))
    else if s.subtesting then Step(s, Raised(IllegalState(MidSubtest)))
    else if s.plan == 0 then
      var line := if s.count == 0 then SkipAllLine("No tests defined") else PlanLine(s.count);
      Step(s.(out := s.out + [line], ended := true), Normal(false))
    else if s.plan > 0 && s.count != s.plan then
      Step(Diag(Diag(s, PlanMismatchText(s.plan, s.count)), OffPlanText), Normal(true))
    else Step(s.(ended := true), Normal(false))
  }

  function BailOutStep(s: State, reason: string): State {
    s.(out := s.out + [BailOutLine(reason)])
  }

  predicate IsTodo(reasons: seq<string>) {
    reasons != [] && Contains(reasons[0], "TODO")
  }

  /** The text of the stack frame line; the frame itself depends on the
      call stack of the virtual machine and stands here as a placeholder. */
  const FrameText := "      at <caller>"

  function AssertionText(number: string, first: string, pass: bool): string {
    "Assertion " + number + " `" + first + "' " + (if pass then "passed" else "failed") + ":"
  }

  /** The 4-argument ok(pass, mess, trace, stacklevel). With trace, or with
      more than one description line, a header naming reasons[0] and a frame
      line are logged; with trace and no description line at all, reading
      reasons[0] raises. */
  function OkStep(s: State, pass: bool, mess: string, trace: bool): (r: Step<bool>)
    ensures r.st.count == s.count + 1 && r.st.plan == s.plan
  {
    Tell(Announced(s, pass, mess), pass, StatusNumber(s), SplitLines(mess), trace)
  }

  /** The state of ok once count and subcount have moved on and the status
      line is out. */
  function Announced(s: State, pass: bool, mess: string): State {
    Announce(s.(count := s.count + 1, subcount := s.subcount + 1), ResultLine(pass, StatusNumber(s), SplitLines(mess)))
  }

  /** The rest of ok after its status line: with trace and no description
      line it raises; otherwise it explains and records. */
  function Tell(s2: State, pass: bool, number: string, reasons: seq<string>, trace: bool): Step<bool> {
    if trace && reasons == [] then Step(s2, Raised(IndexOutOfBounds))
    else Step(Record(Explain(s2, pass, number, reasons, trace), pass, IsTodo(reasons)), Normal(pass))
  }

  /** The number ok displays for its assertion: the new count plus origin,
      or subtest.count in embedded mode. */
  function StatusNumber(s: State): string {
    if s.origin >= 0 then IntToString(s.count + 1 + s.origin) else IntToString(s.subtest) + "." + IntToString(s.count + 1)
  }

  /** The status line goes to standard output, as a note in embedded mode. */
  function Announce(s: State, chant: string): (r: State)
    ensures r == s.(out := r.out) && |r.out| == |s.out| + 1 && r.out[..|s.out|] == s.out
    ensures r.out[|s.out|] == if s.origin >= 0 then chant else CommentLine(chant)
  {
    if s.origin >= 0 then s.(out := s.out + [chant]) else Note(s, chant)
  }

  /** The header and frame lines, then the remaining description lines, on
      standard output with no trace and on standard error with trace. */
  function Explain(s: State, pass: bool, number: string, reasons: seq<string>, trace: bool): (r: State)
    requires !trace || reasons != []
    ensures r == s.(out := r.out, err := r.err) && |r.out| >= |s.out| && r.out[..|s.out|] == s.out
  {
    var s3 := if trace || |reasons| > 1 then Log(Log(s, !trace, AssertionText(number, reasons[0], pass)), !trace, FrameText) else s;
    LogAll(s3, !trace, if reasons == [] then [] else reasons[1..])
  }

  /** The tallies of an assertion whose number is the current count. */
  function Record(s: State, pass: bool, todo: bool): (r: State)
    ensures r == s.(fail := r.fail, subfail := r.subfail, subdone := r.subdone, subtodo := r.subtodo)
  {
    var s4 := if pass || todo then s else s.(fail := s.fail + 1, subfail := s.subfail + 1);
    if !todo then s4
    else if pass then s4.(subdone := s4.subdone + [s.count])
    else s4.(subtodo := s4.subtodo + 1)
  }

  /** The 2- and 3-argument ok: trace unless the assertion passed and mess
      does not start with TODO. */
  function AutoTrace(pass: bool, mess: string): bool {
    !pass || StartsWith(mess, "TODO")
  }

  /** k calls of the 4-argument ok without trace, as the pass, fail and
      skip loops make them. */
  function Repeat(s: State, k: int, pass: bool, mess: string): (r: State)
    ensures r.plan == s.plan
    decreases k, 2
  {
    if k <= 0 then s else RepeatRound(s, k, pass, mess)
  }

  /** A round of Repeat with k > 0 calls to go: one call, then k - 1. */
  function RepeatRound(s: State, k: int, pass: bool, mess: string): (r: State)
    requires k > 0
    ensures r.plan == s.plan
    decreases k, 1
  {
    RepeatAfter(s, k - 1, pass, mess)
  }

  /** One call of ok, then n more. */
  function RepeatAfter(s: State, n: nat, pass: bool, mess: string): (r: State)
    ensures r.plan == s.plan
    decreases n + 1, 0
  {
    Repeat(OkStep(s, pass, mess, false).st, n, pass, mess)
  }

  function SkipMessage(reason: string): string {
    "SKIP " + reason
  }

  /** The loop of skip_all: fail(mess), then one more increment of count. */
  function SkipLoop(s: State, mess: string, skipped: int): (r: (State, int))
    ensures r.0.plan == s.plan
    decreases s.plan - s.count, 2
  {
    if s.count < s.plan then SkipRound(s, mess, skipped) else (s, skipped)
  }

  /** A round of the skip_all loop, entered below the plan. */
  function SkipRound(s: State, mess: string, skipped: int): (r: (State, int))
    requires s.count < s.plan
    ensures r.0.plan == s.plan
    decreases s.plan - s.count, 1
  {
    SkipAfter(s, mess, skipped)
  }

  /** The body of a round: fail(mess), then count is bumped once more. */
  function SkipAfter(s: State, mess: string, skipped: int): (r: (State, int))
    requires s.count < s.plan
    ensures r.0.plan == s.plan
    decreases s.plan - s.count, 0
  {
    var t := OkStep(s, false, mess, false).st;
    SkipLoop(t.(count := t.count + 1), mess, skipped + 1)
  }

  /** skip_all(reason): the number of results it synthesized. */
  function SkipAllStep(s: State, reason: string): Step<int> {
    if s.ended then Step(s, Raised(IllegalState(NothingToSkip)))
    else if s.plan == 0 then Step(s.(out := s.out + [SkipAllLine(reason)], ended := true), Normal(0))
    else
      var r := SkipLoop(s, SkipMessage(reason), 0);
      Step(r.0.(ended := true), Normal(r.1))
  }

  function InitSubtestStep(s: State, id: int): Step<()> {
    if s.subtesting then Step(s, Raised(IllegalState(NestedSubtest(s.subtest))))
    else
      var t := s.(subtest := id, subcount := 0, subfail := 0, subdone := [], subtesting := true);
      Step(Note(t, "Start subtest " + IntToString(id)), Normal(()))
  }

  /** The common body of both done_subtest variants; misplanned is the
      variant's bad-plan test, planned the expected subtotal it reports. */
  function CloseSubtest(s: State, misplanned: bool, planned: int): (r: Step<bool>)
    requires s.subtesting
    ensures r.res == Normal(s.subfail <= 0 && !(s.origin < 0 && misplanned))
    ensures r.st == s.(subtesting := false, out := r.st.out, err := r.st.err)
  {
    var embedded := s.origin < 0;
    var s3 := Summary(s);
    if s.subfail > 0 then Step(Log(s3, !embedded, SubtestFailedText(s.subtest)), Normal(false))
    else if embedded && misplanned then Step(Diag(s3, BadSubplanText(s.subtest, planned, s.subcount)), Normal(false))
    else Step(s3, Normal(true))
  }

  /** The subtest closed, and the lines written before the verdict: the
      end and the tally, the passed TODO tests in embedded mode, and the
      failed TODO tests still to go. */
  function Summary(s: State): (r: State)
    ensures r == s.(subtesting := false, out := r.out, err := r.err)
  {
    var embedded := s.origin < 0;
    var s1 := Note(Note(s.(subtesting := false), "End of subtest " + IntToString(s.subtest)), RanText(s.subcount, s.subfail));
    var s2 := if embedded && s.subdone != [] then Diag(Diag(s1, CelebrateText(s.subdone)), TickText(|s.subdone|)) else s1;
    if s.subtodo > 0 then Log(s2, !embedded, TodoDebtText(s.subtodo)) else s2
  }

  /** done_subtest() of the stand-alone engine: checks the subplan field, and
      only when it is positive. */
  function DoneSubtestStep(s: State): Step<bool> {
    if !s.subtesting then Step(s, Raised(IllegalState(NoSubtest)))
    else CloseSubtest(s, s.subplan > 0 && s.subcount != s.subplan, s.subplan)
  }

  /** done_subtest() of the embedded engine: checks the subject's declared
      subplan of the current subtest, whatever its sign. */
  function DoneSubtestAgainstStep(s: State, declared: int): Step<bool> {
    if !s.subtesting then Step(s, Raised(IllegalState(NoSubtest)))
    else CloseSubtest(s, s.subcount != declared, declared)
  }

  // ---------------------------------------------------------------------------
  // A sequence of assertions, as a test routine makes them

  datatype Check = Check(pass: bool, mess: string, trace: bool)

  /** ok of each check in turn, stopping at the first that raises. */
  function Assertions(s: State, cs: seq<Check>): Step<()>
    decreases |cs|
  {
    if cs == [] then Step(s, Normal(()))
    else
      var r := OkStep(s, cs[0].pass, cs[0].mess, cs[0].trace);
      if r.res.Raised? then Step(r.st, Raised(r.res.thrown)) else Assertions(r.st, cs[1..])
  }

  /** A check that ok cannot raise on. */
  predicate Safe(c: Check) {
    !c.trace || SplitLines(c.mess) != []
  }

  /** The assertion is tallied as a failure. */
  predicate Counted(c: Check) {
    !c.pass && !IsTodo(SplitLines(c.mess))
  }

  function CountedFailures(cs: seq<Check>): nat
    decreases |cs|
  {
    if cs == [] then 0 else (if Counted(cs[0]) then 1 else 0) + CountedFailures(cs[1..])
  }

  /** Numbers (from base + 1 on) of the checks that passed with a TODO. */
  function PassedTodos(cs: seq<Check>, base: int): seq<int>
    decreases |cs|
  {
    if cs == [] then []
    else (if cs[0].pass && IsTodo(SplitLines(cs[0].mess)) then [base + 1] else []) + PassedTodos(cs[1..], base + 1)
  }

  // ---------------------------------------------------------------------------
  // Reading the protocol back, as a TAP consumer does

  datatype Reading =
    | TestPoint(pass: bool, number: nat, directive: bool, description: Option<string>)
    | PlanOf(n: nat)
    | SkipEverything(reason: string)
    | CommentText
    | Unrecognised

  function DigitPrefix(s: string): (d: string)
    ensures |d| <= |s| && AllDigits(d) && d == s[..|d|]
    decreases |s|
  {
    if s != [] && IsDigit(s[0]) then [s[0]] + DigitPrefix(s[1..]) else []
  }

  function ReadTestPoint(pass: bool, rest: string): Reading {
    var d := DigitPrefix(rest);
    var tail := rest[|d|..];
    if d == [] then Unrecognised
    else if tail == [] then TestPoint(pass, DigitsValue(d), false, None)
    else if StartsWith(tail, " # ") then TestPoint(pass, DigitsValue(d), true, Some(tail[3..]))
    else if StartsWith(tail, " - ") then TestPoint(pass, DigitsValue(d), false, Some(tail[3..]))
    else Unrecognised
  }

  function ReadLine(line: string): Reading {
    if StartsWith(line, "1..0 # SKIP ") then SkipEverything(line[12..])
    else if StartsWith(line, "1..") && line[3..] != [] && AllDigits(line[3..]) then PlanOf(DigitsValue(line[3..]))
    else if StartsWith(line, "#") then CommentText
    else if StartsWith(line, "ok ") then ReadTestPoint(true, line[3..])
    else if StartsWith(line, "not ok ") then ReadTestPoint(false, line[7..])
    else Unrecognised
  }

  // ---------------------------------------------------------------------------
  // Properties

  /** plan(n) is one-shot: it raises and changes nothing while a positive plan
      exists (even for the same n) or when n is negative; otherwise it records
      n and announces a positive plan with a line that reads back as that plan. */
  lemma PlanOneShot(s: State, n: int, m: int)
    ensures var r := PlanStep(s, n);
      (r.res.Raised? <==> s.plan > 0 || n < 0)
      && (r.res.Raised? ==>
            r.st == s && r.res.thrown == IllegalState(if s.plan > 0 then HavePlan(s.plan) else NegativePlan))
      && (r.res.Normal? ==>
            r.res.value == n && r.st == s.(plan := n, out := r.st.out)
            && r.st.out == s.out + (if n > 0 then [PlanLine(n)] else []))
    ensures var r := PlanStep(s, n);
      r.res.Normal? && n > 0 ==> ReadLine(r.st.out[|s.out|]) == PlanOf(n) && PlanStep(r.st, m) == Step(r.st, Raised(IllegalState(HavePlan(n))))
  {
    if s.plan <= 0 && n > 0 {
      PlanLineReads(n);
    }
  }

  lemma NatToStringLead(n: nat)
    requires n > 0
    ensures NatToString(n)[0] != '0'
  {
    if n >= 10 {
      assert |NatToString(n / 10)| >= 1;
    }
  }

  /** A plan line reads back as the plan it announces. */
  lemma PlanLineReads(n: int)
    requires n > 0
    ensures ReadLine(PlanLine(n)) == PlanOf(n)
  {
    var line := PlanLine(n);
    NatToStringLead(n);
    NatToStringValue(n);
    assert line[3..] == NatToString(n);
    assert line[3] != '0';
    assert !StartsWith(line, "1..0 # SKIP ");
    assert StartsWith(line, "1..");
  }

  /** A skip_all line reads back with its reason. */
  lemma SkipAllLineReads(reason: string)
    ensures ReadLine(SkipAllLine(reason)) == SkipEverything(reason)
  {
    var line := SkipAllLine(reason);
    assert line[..12] == "1..0 # SKIP ";
    assert line[12..] == reason;
  }

  /** diag and note lines read back as comments, whatever the text. */
  lemma CommentLineReads(text: string)
    ensures ReadLine(CommentLine(text)) == CommentText
  {
    var line := CommentLine(text);
    assert line[..1] == "#";
  }

  lemma {:induction false} DigitPrefixOf(d: string, rest: string)
    requires AllDigits(d)
    requires rest == [] || !IsDigit(rest[0])
    ensures DigitPrefix(d + rest) == d
    decreases |d|
  {
    if d == [] {
      assert d + rest == rest;
    } else {
      assert (d + rest)[1..] == d[1..] + rest;
      DigitPrefixOf(d[1..], rest);
    }
  }

  lemma ReadStatusHead(pass: bool, rest: string)
    ensures ReadLine((if pass then "ok " else "not ok ") + rest) == ReadTestPoint(pass, rest)
  {
    var head := if pass then "ok " else "not ok ";
    var line := head + rest;
    assert line[0] == head[0];
    assert line[..|head|] == head;
    assert line[|head|..] == rest;
    if !pass {
      assert line[..3] != "ok ";
    }
  }

  lemma ReadNumbered(pass: bool, d: string, tail: string)
    requires AllDigits(d) && d != []
    requires tail == [] || (|tail| >= 3 && (tail[..3] == " # " || tail[..3] == " - "))
    ensures ReadTestPoint(pass, d + tail)
         == TestPoint(pass, DigitsValue(d), tail != [] && tail[..3] == " # ", if tail == [] then None else Some(tail[3..]))
  {
    var rest := d + tail;
    if tail != [] {
      assert tail[0] == tail[..3][0] == ' ';
    }
    DigitPrefixOf(d, tail);
    assert rest[|d|..] == tail;
    assert tail != [] ==> (StartsWith(tail, " # ") <==> tail[..3] == " # ");
  }

  /** A status line reads back as a test point with its result, its number,
      whether its description is a directive, and the description itself. */
  lemma ResultLineReads(pass: bool, n: nat, reasons: seq<string>)
    ensures ReadLine(ResultLine(pass, NatToString(n), reasons))
         == TestPoint(pass, n, reasons != [] && HasDirective(reasons[0]), if reasons == [] then None else Some(reasons[0]))
  {
    var d := NatToString(n);
    var tail := if reasons == [] then "" else (if HasDirective(reasons[0]) then " # " else " - ") + reasons[0];
    assert ResultLine(pass, d, reasons) == (if pass then "ok " else "not ok ") + (d + tail);
    ReadStatusHead(pass, d + tail);
    if reasons != [] {
      assert tail[..3] == (if HasDirective(reasons[0]) then " # " else " - ");
      assert tail[3..] == reasons[0];
    }
    ReadNumbered(pass, d, tail);
    NatToStringValue(n);
  }

  lemma SeqAssoc<T>(a: seq<T>, b: seq<T>, c: seq<T>)
    ensures (a + b) + c == a + (b + c)
  {
  }

  /** The plan, the ended flag, the origin and the subtest context agree. */
  predicate SameRun(a: State, b: State) {
    a.plan == b.plan && a.ended == b.ended && a.origin == b.origin
    && a.subtest == b.subtest && a.subplan == b.subplan && a.subtesting == b.subtesting
  }

  /** What one ok call tallies, when it does not raise: it returns its ok
      argument; count and subcount grow by one; fail and subfail grow by one
      exactly when the assertion failed without TODO in its first description
      line; a passing TODO records the new count in subdone and a failing TODO
      adds to subtodo; nothing else of the engine changes. */
  lemma OkTally(s: State, pass: bool, mess: string, trace: bool)
    requires !trace || SplitLines(mess) != []
    ensures var r := OkStep(s, pass, mess, trace); var todo := IsTodo(SplitLines(mess));
      r.res == Normal(pass)
      && r.st.count == s.count + 1 && r.st.subcount == s.subcount + 1
      && (r.st.fail == s.fail + 1 <==> !pass && !todo) && (r.st.fail == s.fail <==> pass || todo)
      && r.st.subfail - s.subfail == r.st.fail - s.fail
      && r.st.subdone == s.subdone + (if pass && todo then [s.count + 1] else [])
      && r.st.subtodo == s.subtodo + (if !pass && todo then 1 else 0)
      && SameRun(r.st, s)
  {
  }

  lemma StatusLineNotBlank(pass: bool, number: string, reasons: seq<string>)
    ensures CommentLine(ResultLine(pass, number, reasons)) == "# " + ResultLine(pass, number, reasons)
  {
    var chant := ResultLine(pass, number, reasons);
    assert chant[0] == 'o' || chant[0] == 'n';
    assert !IsWhitespace(chant[0]);
  }

  /** The rest of ok only appends to standard output. */
  lemma TellKeepsOut(s2: State, pass: bool, number: string, reasons: seq<string>, trace: bool)
    ensures var t := Tell(s2, pass, number, reasons, trace).st;
      |t.out| >= |s2.out| && t.out[..|s2.out|] == s2.out
  {
    if !(trace && reasons == []) {
      var s3 := Explain(s2, pass, number, reasons, trace);
      assert Record(s3, pass, IsTodo(reasons)).out == s3.out;
    }
  }

  /** The status line of ok: with origin >= 0 it is the next line of standard
      output; in embedded mode it is written as a comment, "# " and the line
      numbered subtest.count. */
  lemma OkStatusLine(s: State, pass: bool, mess: string, trace: bool)
    ensures var r := OkStep(s, pass, mess, trace);
      |r.st.out| > |s.out| && r.st.out[..|s.out|] == s.out
      && r.st.out[|s.out|] == (if s.origin >= 0 then ResultLine(pass, StatusNumber(s), SplitLines(mess))
                               else "# " + ResultLine(pass, StatusNumber(s), SplitLines(mess)))
  {
    var reasons := SplitLines(mess);
    var number := StatusNumber(s);
    var a := Announced(s, pass, mess);
    var r := OkStep(s, pass, mess, trace);
    StatusLineNotBlank(pass, number, reasons);
    assert |a.out| == |s.out| + 1 && a.out[..|s.out|] == s.out;
    assert a.out[|s.out|] == (if s.origin >= 0 then ResultLine(pass, number, reasons) else "# " + ResultLine(pass, number, reasons));
    assert r == Tell(a, pass, number, reasons, trace);
    TellKeepsOut(a, pass, number, reasons, trace);
    assert r.st.out[..|a.out|] == a.out;
    assert r.st.out[|s.out|] == a.out[|s.out|];
    assert r.st.out[..|s.out|] == a.out[..|s.out|];
  }

  /** A status line written with origin >= 0 reads back as a test point
      numbered count + origin. */
  lemma OkStatusReads(s: State, pass: bool, mess: string, trace: bool)
    requires s.origin >= 0 && s.count + 1 + s.origin >= 0
    ensures var r := OkStep(s, pass, mess, trace); var reasons := SplitLines(mess);
      ReadLine(r.st.out[|s.out|])
      == TestPoint(pass, s.count + 1 + s.origin, reasons != [] && HasDirective(reasons[0]), if reasons == [] then None else Some(reasons[0]))
  {
    OkStatusLine(s, pass, mess, trace);
    StatusLineReads(s, pass, SplitLines(mess));
  }

  /** The status line ok writes with origin >= 0, whatever follows it. */
  lemma StatusLineReads(s: State, pass: bool, reasons: seq<string>)
    requires s.origin >= 0 && s.count + 1 + s.origin >= 0
    ensures ReadLine(ResultLine(pass, StatusNumber(s), reasons))
         == TestPoint(pass, s.count + 1 + s.origin, reasons != [] && HasDirective(reasons[0]), if reasons == [] then None else Some(reasons[0]))
  {
    var n: nat := s.count + 1 + s.origin;
    assert StatusNumber(s) == NatToString(n);
    ResultLineReads(pass, n, reasons);
  }

  /** ok with trace and no description line at all, as ok(false, "") makes
      it: the status line is out and count has moved on when reading
      reasons[0] raises, so the assertion is never tallied. */
  lemma OkWithoutReason(s: State, pass: bool, mess: string)
    requires SplitLines(mess) == []
    ensures var r := OkStep(s, pass, mess, true);
      r.res == Raised(IndexOutOfBounds)
      && r.st.count == s.count + 1 && r.st.subcount == s.subcount + 1
      && r.st.fail == s.fail && r.st.subfail == s.subfail
      && r.st.subdone == s.subdone && r.st.subtodo == s.subtodo
      && |r.st.out| == |s.out| + 1 && r.st.err == s.err && SameRun(r.st, s)
  {
  }

  /** A round of Repeat is one call of ok followed by the others. */
  lemma RepeatUnfolds(s: State, k: int, pass: bool, mess: string)
    requires k > 0
    ensures Repeat(s, k, pass, mess) == Repeat(OkStep(s, pass, mess, false).st, k - 1, pass, mess)
  {
    assert Repeat(s, k, pass, mess) == RepeatRound(s, k, pass, mess);
    assert RepeatRound(s, k, pass, mess) == RepeatAfter(s, k - 1, pass, mess);
  }

  /** The pass, fail and skip loops: k <= 0 calls nothing, otherwise k calls
      of ok, with the fail tally growing by k when the assertions count as
      failures and not at all otherwise. */
  lemma {:induction false} RepeatTally(s: State, k: int, pass: bool, mess: string)
    ensures var t := Repeat(s, k, pass, mess); var n := if k > 0 then k else 0;
      t.count == s.count + n && t.subcount == s.subcount + n
      && t.fail == s.fail + (if !pass && !IsTodo(SplitLines(mess)) then n else 0)
      && t.subfail - s.subfail == t.fail - s.fail
      && t.plan == s.plan && t.ended == s.ended && t.origin == s.origin
      && t.subtest == s.subtest && t.subplan == s.subplan && t.subtesting == s.subtesting
    decreases k
  {
    if k > 0 {
      var t := OkStep(s, pass, mess, false).st;
      OkTally(s, pass, mess, false);
      RepeatTally(t, k - 1, pass, mess);
      RepeatUnfolds(s, k, pass, mess);
    }
  }

  /** A round of the skip_all loop is one failing result, one more count,
      and the rounds that follow. */
  lemma SkipLoopUnfolds(s: State, mess: string, skipped: int)
    requires s.count < s.plan
    ensures var t := OkStep(s, false, mess, false).st;
      SkipLoop(s, mess, skipped) == SkipLoop(t.(count := t.count + 1), mess, skipped + 1)
  {
    assert SkipLoop(s, mess, skipped) == SkipRound(s, mess, skipped);
    assert SkipRound(s, mess, skipped) == SkipAfter(s, mess, skipped);
  }

  /** The skip_all loop, counted in rounds: each round makes one result and
      then bumps count once more, until count reaches the plan. */
  lemma {:induction false} SkipLoopRounds(s: State, mess: string, skipped: int, rounds: nat)
    requires if s.count < s.plan then s.plan - s.count <= 2 * rounds <= s.plan - s.count + 1 else rounds == 0
    ensures var r := SkipLoop(s, mess, skipped);
      r.1 == skipped + rounds
      && r.0.count == s.count + 2 * rounds
      && r.0.fail == s.fail + (if IsTodo(SplitLines(mess)) then 0 else rounds)
      && r.0.plan == s.plan && r.0.ended == s.ended
    decreases rounds
  {
    if s.count < s.plan {
      var t := OkStep(s, false, mess, false).st;
      OkTally(s, false, mess, false);
      var u := t.(count := t.count + 1);
      assert u.count == s.count + 2 && u.plan == s.plan && u.ended == s.ended;
      assert u.fail == s.fail + (if IsTodo(SplitLines(mess)) then 0 else 1);
      SkipLoopUnfolds(s, mess, skipped);
      SkipLoopRounds(u, mess, skipped + 1, rounds - 1);
    }
  }

  /** The skip_all loop: from count C below plan P it makes ceiling((P - C) / 2)
      failing results, since count grows twice per round, and stops at P or
      P + 1; at or above the plan it makes none. The skipped results fail
      unless the reason makes their first line a TODO. */
  lemma SkipLoopCount(s: State, mess: string, skipped: int)
    ensures var r := SkipLoop(s, mess, skipped);
      var rounds := if s.count < s.plan then (s.plan - s.count + 1) / 2 else 0;
      r.1 == skipped + rounds
      && r.0.count == s.count + 2 * rounds
      && (s.count < s.plan ==> r.0.count == s.plan || r.0.count == s.plan + 1)
      && r.0.fail == s.fail + (if IsTodo(SplitLines(mess)) then 0 else rounds)
      && r.0.plan == s.plan && r.0.ended == s.ended
  {
    var rounds := if s.count < s.plan then (s.plan - s.count + 1) / 2 else 0;
    SkipLoopRounds(s, mess, skipped, rounds);
  }

  /** skip_all raises once the run has ended; with no plan it announces the
      skip with its reason and returns 0; with a plan it returns the number of
      skipped results, ceiling((plan - count) / 2) when count is below plan
      and 0 otherwise. Either way the run ends. */
  lemma SkipAllResult(s: State, reason: string)
    ensures var r := SkipAllStep(s, reason);
      (s.ended ==> r == Step(s, Raised(IllegalState(NothingToSkip))))
      && (!s.ended ==> r.res.Normal? && r.st.ended)
      && (!s.ended && s.plan == 0 ==>
            r.res.value == 0 && r.st == s.(ended := true, out := s.out + [SkipAllLine(reason)])
            && ReadLine(r.st.out[|s.out|]) == SkipEverything(reason))
      && (!s.ended && s.plan != 0 ==>
            r.res.value == (if s.count < s.plan then (s.plan - s.count + 1) / 2 else 0)
            && (s.count < s.plan ==> s.plan <= r.st.count <= s.plan + 1))
  {
    if !s.ended && s.plan != 0 {
      SkipLoopCount(s, SkipMessage(reason), 0);
    }
    SkipAllLineReads(reason);
  }

  /** done_testing raises when the run has ended or a subtest is open. Without
      a plan it announces the count as the plan (a skip for no tests) and ends
      the run; with a positive plan missed it reports on standard error,
      returns true and leaves the run open; otherwise it ends the run. */
  lemma DoneTestingResult(s: State)
    ensures var r := DoneTestingStep(s);
      (s.ended || s.subtesting <==> r.res.Raised?)
      && (r.res.Raised? ==> r.st == s && r.res.thrown == IllegalState(if s.ended then Ended else MidSubtest))
      && (r.res == Normal(true) <==> !s.ended && !s.subtesting && s.plan > 0 && s.count != s.plan)
      && (r.res == Normal(true) ==> r.st == s.(err := r.st.err) && |r.st.err| == |s.err| + 2)
      && (r.res == Normal(false) <==> r.st.ended && !s.ended && !s.subtesting)
    ensures var r := DoneTestingStep(s);
      !s.ended && !s.subtesting && s.plan == 0 && s.count >= 0 ==>
        r.st == s.(ended := true, out := r.st.out) && |r.st.out| == |s.out| + 1
        && ReadLine(r.st.out[|s.out|]) == (if s.count == 0 then SkipEverything("No tests defined") else PlanOf(s.count))
  {
    if !s.ended && !s.subtesting && s.plan == 0 && s.count >= 0 {
      if s.count == 0 { SkipAllLineReads("No tests defined"); } else { PlanLineReads(s.count); }
    }
  }

  predicate AllSafe(cs: seq<Check>) {
    forall i :: 0 <= i < |cs| ==> Safe(cs[i])
  }

  function FailedTodos(cs: seq<Check>): nat
    decreases |cs|
  {
    if cs == [] then 0 else (if !cs[0].pass && IsTodo(SplitLines(cs[0].mess)) then 1 else 0) + FailedTodos(cs[1..])
  }

  /** The tally of one check that cannot raise, in the terms of Check. */
  lemma CheckTally(s: State, c: Check)
    requires Safe(c)
    ensures var r := OkStep(s, c.pass, c.mess, c.trace); var todo := IsTodo(SplitLines(c.mess));
      r.res.Normal?
      && r.st.count == s.count + 1 && r.st.subcount == s.subcount + 1
      && r.st.fail == s.fail + (if Counted(c) then 1 else 0) && r.st.subfail == s.subfail + (if Counted(c) then 1 else 0)
      && r.st.subdone == s.subdone + (if c.pass && todo then [s.count + 1] else [])
      && r.st.subtodo == s.subtodo + (if !c.pass && todo then 1 else 0)
      && SameRun(r.st, s)
  {
    OkTally(s, c.pass, c.mess, c.trace);
  }

  /** A check that cannot raise hands over to the rest of the run. */
  lemma AssertionsUnfold(s: State, cs: seq<Check>)
    requires cs != [] && Safe(cs[0])
    ensures Assertions(s, cs) == Assertions(OkStep(s, cs[0].pass, cs[0].mess, cs[0].trace).st, cs[1..])
  {
    CheckTally(s, cs[0]);
  }

  /** The tallies of the first check and of the rest add up to those of the
      whole run. */
  lemma TallyCompose(s: State, t: State, u: State, cs: seq<Check>)
    requires cs != []
    requires var c := cs[0]; var todo := IsTodo(SplitLines(c.mess));
      t.count == s.count + 1 && t.subcount == s.subcount + 1
      && t.fail == s.fail + (if Counted(c) then 1 else 0) && t.subfail == s.subfail + (if Counted(c) then 1 else 0)
      && t.subdone == s.subdone + (if c.pass && todo then [s.count + 1] else [])
      && t.subtodo == s.subtodo + (if !c.pass && todo then 1 else 0)
      && SameRun(t, s)
    requires var rest := cs[1..];
      u.count == t.count + |rest| && u.subcount == t.subcount + |rest|
      && u.fail == t.fail + CountedFailures(rest) && u.subfail == t.subfail + CountedFailures(rest)
      && u.subdone == t.subdone + PassedTodos(rest, t.count)
      && u.subtodo == t.subtodo + FailedTodos(rest)
      && SameRun(u, t)
    ensures u.count == s.count + |cs| && u.subcount == s.subcount + |cs|
      && u.fail == s.fail + CountedFailures(cs) && u.subfail == s.subfail + CountedFailures(cs)
      && u.subdone == s.subdone + PassedTodos(cs, s.count)
      && u.subtodo == s.subtodo + FailedTodos(cs)
      && SameRun(u, s)
  {
    var c := cs[0];
    var rest := cs[1..];
    var here := if c.pass && IsTodo(SplitLines(c.mess)) then [s.count + 1] else [];
    assert PassedTodos(cs, s.count) == here + PassedTodos(rest, s.count + 1);
    SeqAssoc(s.subdone, here, PassedTodos(rest, s.count + 1));
  }

  /** A run of assertions that cannot raise: count and subcount grow by their
      number, fail and subfail by the failures that count, subdone gains the
      numbers of the passing TODOs and subtodo the failing TODOs; the plan,
      the ended flag, the origin and the subtest context stay. */
  lemma {:induction false} AssertionsTally(s: State, cs: seq<Check>)
    requires AllSafe(cs)
    ensures var r := Assertions(s, cs);
      r.res.Normal?
      && r.st.count == s.count + |cs| && r.st.subcount == s.subcount + |cs|
      && r.st.fail == s.fail + CountedFailures(cs) && r.st.subfail == s.subfail + CountedFailures(cs)
      && r.st.subdone == s.subdone + PassedTodos(cs, s.count)
      && r.st.subtodo == s.subtodo + FailedTodos(cs)
      && SameRun(r.st, s)
    decreases |cs|
  {
    if cs != [] {
      var rest := cs[1..];
      assert Safe(cs[0]);
      CheckTally(s, cs[0]);
      AssertionsUnfold(s, cs);
      var t := OkStep(s, cs[0].pass, cs[0].mess, cs[0].trace).st;
      assert AllSafe(rest) by {
        forall i | 0 <= i < |rest| ensures Safe(rest[i]) { assert rest[i] == cs[i + 1]; }
      }
      AssertionsTally(t, rest);
      TallyCompose(s, t, Assertions(t, rest).st, cs);
    }
  }

  /** A subtest opened, run through checks that cannot raise, and closed:
      the verdict is true exactly when no check counted as a failure and, in
      embedded mode with a positive subplan, the number of checks met it. The
      TODO debt carried into the subtest is kept, since opening does not
      reset it; the roster of passed TODOs is that of this subtest alone. */
  lemma SubtestVerdict(s: State, id: int, cs: seq<Check>)
    requires !s.subtesting && AllSafe(cs)
    ensures var entered := InitSubtestStep(s, id);
      var ran := Assertions(entered.st, cs).st;
      var closed := DoneSubtestStep(ran);
      entered.res.Normal? && ran.subtesting
      && ran.subdone == PassedTodos(cs, s.count)
      && ran.subtodo == s.subtodo + FailedTodos(cs)
      && closed.res == Normal(CountedFailures(cs) == 0 && !(s.origin < 0 && s.subplan > 0 && |cs| != s.subplan))
      && !closed.st.subtesting
  {
    var entered := InitSubtestStep(s, id);
    AssertionsTally(entered.st, cs);
    var ran := Assertions(entered.st, cs).st;
    assert ran.subcount == |cs| && ran.subfail == CountedFailures(cs) && ran.subtesting;
    assert ran.subplan == s.subplan && ran.origin == s.origin;
  }

  /** The embedded variant checks the declared subplan whatever its sign. */
  lemma SubtestVerdictAgainst(s: State, id: int, cs: seq<Check>, declared: int)
    requires !s.subtesting && AllSafe(cs)
    ensures var ran := Assertions(InitSubtestStep(s, id).st, cs).st;
      var closed := DoneSubtestAgainstStep(ran, declared);
      closed.res == Normal(CountedFailures(cs) == 0 && !(s.origin < 0 && |cs| != declared))
  {
    AssertionsTally(InitSubtestStep(s, id).st, cs);
  }

  /** Without an open subtest, closing raises and changes nothing; inside
      one, opening another raises and changes nothing. */
  lemma SubtestBracketing(s: State, id: int, declared: int)
    ensures !s.subtesting ==>
              DoneSubtestStep(s) == Step(s, Raised(IllegalState(NoSubtest)))
              && DoneSubtestAgainstStep(s, declared) == Step(s, Raised(IllegalState(NoSubtest)))
    ensures s.subtesting ==> InitSubtestStep(s, id) == Step(s, Raised(IllegalState(NestedSubtest(s.subtest))))
  {
  }
}

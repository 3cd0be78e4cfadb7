/** exec, the entry point of the engine spliced into a test subject: it makes
    a reference instance to ask what tests there are, reads the command line
    into a selection, announces the summed plan once, then runs each selected
    test on a fresh instance whose numbering continues from the running
    count, and tops that count up to the index's goal.

    Reflection is replaced by the Subject datatype: whether the constructor
    exists and builds the reference, the answers of avail(), start() and
    subplan(t), and, for each test number, whether a fresh instance can be
    made, whether its test method is there and callable, and the routine it
    runs. */
module Exec {
  import opened Text
  import opened Protocol
  import opened Ranges
  import opened Dispatch

  /** An answer of the subject to avail(), start() or subplan(t), or the
      exception it raises instead. */
  datatype Query = Answer(n: int32) | Refuses

  /** Test number t as exec meets it. */
  datatype Case = Case(instantiates: bool, lookup: Lookup, routine: Routine)

  datatype Subject = Subject(
    name: string,                // the class name
    hasConstructor: bool,        // a constructor without arguments exists
    reference: bool,             // it builds the reference instance
    avail: Query,
    start: Query,
    subplan: int -> Query,
    cases: int -> Case)

  /** The plan exec records for an index: the answer, or 0 when the query
      raised. */
  function Planned(q: Query): int32 {
    if q.Answer? then q.n else 0
  }

  /** The subplan the embedded done_subtest of an instance asks for. */
  function Declared(subj: Subject): int -> int {
    t => Planned(subj.subplan(t)) as int
  }

  /** total += plan[i] over the indices from i on, in Java int arithmetic. */
  function TotalFrom(plans: seq<int32>, i: nat, acc: int32): int32
    requires i <= |plans|
    decreases |plans| - i
  {
    if i == |plans| then acc else TotalFrom(plans, i + 1, Wrap32(acc + plans[i]))
  }

  /** The same wrapped sum as TotalFrom(plans, 0, 0), added up from the
      front as the plan-query loop of exec accumulates it into total; the
      loop's invariant is stated with it and Total32IsTotal equates the two. */
  function Total32(plans: seq<int32>): int32 {
    if plans == [] then 0 else Wrap32(Total32(plans[..|plans| - 1]) + plans[|plans| - 1])
  }

  /** The plain sum of plans from index i on. */
  function SumFrom(plans: seq<int32>, i: nat): int
    requires i <= |plans|
    decreases |plans| - i
  {
    if i == |plans| then 0 else plans[i] + SumFrom(plans, i + 1)
  }

  function DiedText(t: int): string {
    "Subtest " + IntToString(t) + " died on me when I asked for its plan:"
  }

  function AbortText(many: bool, t: int, verdict: string): string {
    "Test" + (if many then " " + IntToString(t) else "") + " aborted with an exception: " + verdict
  }

  const AbortedFiller := "aborted due to previous fatal exception"
  const AmbitiousFiller := "plan too ambitious"

  /** A test that cannot be run: with several selected, skip the results it
      planned; alone, skip_all. */
  function Abandon(s: State, goal: int, many: bool, mess: string): Step<()> {
    if many then Step(Repeat(s, goal - s.count, true, SkipMessage(mess)), Normal(())) else Quiet(SkipAllStep(s, mess))
  }

  /** The while loop after count += instance.count(): while count is below
      goal, skip (after an exception) or fail the remainder. Each round brings
      count to goal, so the loop body runs at most once. */
  function TopUp(s: State, goal: int, aborted: bool): State {
    FillTo(s, goal, aborted, Filler(aborted))
  }

  /** Results of one kind, one after another while count is below goal. */
  function FillTo(s: State, goal: int, pass: bool, mess: string): State {
    if s.count < goal then Repeat(s, goal - s.count, pass, mess) else s
  }

  /** The description of a filler result: a SKIP after an exception, a plain
      failure otherwise. */
  function Filler(aborted: bool): string {
    if aborted then SkipMessage(AbortedFiller) else AmbitiousFiller
  }

  /** The instance exec makes for a test: new, writing on the host's
      streams, numbering from the host's running count. */
  function Instance(s: State): State {
    Fresh(s.out, s.err).(origin := s.count)
  }

  /** After the routine of an instance: the host takes over the streams,
      reports an exception and counts it as one failure, adds the
      instance's count and tops it up to goal. */
  function Conclude(s: State, t: int, goal: int, many: bool, e: (State, Exit)): State {
    TopUp(Absorb(s, t, many, e), goal, e.1.Aborted?)
  }

  function Absorb(s: State, t: int, many: bool, e: (State, Exit)): State {
    var s1 := s.(out := e.0.out, err := e.0.err);
    var s2 := if e.1.Aborted? then Diag(s1, AbortText(many, t, Verdict(e.1))).(fail := s1.fail + 1) else s1;
    s2.(count := s2.count + e.0.count)
  }

  /** An instance never ends with a negative count. */
  lemma AttemptCounts(origin: int, r: Routine, subj: Subject)
    ensures Attempt(origin, r, subj).0.count >= 0
  {
    PerformCounts(Fresh([], []).(origin := origin), r.actions, Spliced(Declared(subj)));
  }

  /** The test method of t exists, may be called and has an instance. */
  predicate Runs(c: Case) {
    c.instantiates && c.lookup.Found?
  }

  /** Why test t cannot be run. */
  function Excuse(subj: Subject, t: int): string {
    var c := subj.cases(t);
    if !c.instantiates then subj.name + " instantiation failed when I was just about to run subtest " + IntToString(t)
    else if c.lookup.Missing? then "missing " + Label(t)
    else "cannot access " + Label(t) + " (access modifier too strict?)"
  }

  /** One selected index of exec's dispatch loop, once its plan is known. */
  function ExecIndex(s: State, t: int, planet: int, many: bool, subj: Subject): Step<()> {
    var goal := s.count + planet;
    var c := subj.cases(t);
    if !Runs(c) then Abandon(s, goal, many, Excuse(subj, t))
    else Step(Conclude(s, t, goal, many, Execute(Instance(s), c.routine, Spliced(Declared(subj)))), Normal(()))
  }

  /** A plan of 0 that came from a query that raised. */
  predicate Died(subj: Subject, t: int, planet: int) {
    planet == 0 && subj.subplan(t).Refuses?
  }

  /** The dispatch loop from index i on: the value is allgood, cleared by a
      died plan. */
  function ExecFrom(s: State, todo: seq<int>, plans: seq<int32>, subj: Subject, i: nat, allgood: bool): Step<bool>
    requires |plans| == |todo| && i <= |todo|
    decreases |todo| - i, 2
  {
    if i == |todo| then Step(s, Normal(allgood)) else ExecAt(s, todo, plans, subj, i, allgood)
  }

  /** Round i of the dispatch loop: a plan that died is reported first. */
  function ExecAt(s: State, todo: seq<int>, plans: seq<int32>, subj: Subject, i: nat, allgood: bool): Step<bool>
    requires |plans| == |todo| && i < |todo|
    decreases |todo| - i, 1
  {
    var died := Died(subj, todo[i], plans[i]);
    ExecAfter(if died then Diag(s, DiedText(todo[i])) else s, todo, plans, subj, i, allgood && !died)
  }

  /** Round i once any report is out: the index runs, and an exception it
      lets through ends the loop. */
  function ExecAfter(s: State, todo: seq<int>, plans: seq<int32>, subj: Subject, i: nat, allgood: bool): Step<bool>
    requires |plans| == |todo| && i < |todo|
    decreases |todo| - i, 0
  {
    var r := ExecIndex(s, todo[i], plans[i], |todo| > 1, subj);
    if r.res.Raised? then Step(r.st, Raised(r.res.thrown)) else ExecFrom(r.st, todo, plans, subj, i + 1, allgood)
  }

  /** The plan announcement: skip_all when the plans sum to 0, plan(total)
      otherwise. */
  function Herald(s: State, total: int32): Step<()> {
    if total == 0 then Quiet(SkipAllStep(s, "nothing to test")) else Quiet(PlanStep(s, total))
  }

  /** A fault before the command line is read: skip_all, then exit code 1. */
  function GiveUp(s: State, reason: string): Step<int> {
    var r := SkipAllStep(s, reason);
    Step(r.st, if r.res.Raised? then Raised(r.res.thrown) else Normal(1))
  }

  /** The plans of the selected indices, as the subject declares them. */
  function PlansOf(todo: seq<int>, subj: Subject): (plans: seq<int32>)
    ensures |plans| == |todo|
  {
    seq<int32>(|todo|, i requires 0 <= i < |todo| => Planned(subj.subplan(todo[i])))
  }

  /** Which plan queries raised. */
  function RefusalsOf(todo: seq<int>, subj: Subject): (refused: seq<bool>)
    ensures |refused| == |todo|
  {
    seq(|todo|, i requires 0 <= i < |todo| => subj.subplan(todo[i]).Refuses?)
  }

  /** exec gets past its set-up: the constructor exists and builds the
      reference, which answers avail() and start(). */
  predicate Ready(subj: Subject) {
    subj.hasConstructor && subj.reference && subj.avail.Answer? && subj.start.Answer?
  }

  /** Why exec cannot set up the subject, when it cannot. */
  function SetupFault(subj: Subject): (r: Option<string>)
    ensures r.None? <==> Ready(subj)
  {
    if !subj.hasConstructor then Some("cannot find the constructor of " + subj.name)
    else if !subj.reference then Some("instantiation of " + subj.name + " failed")
    else if subj.avail.Refuses? then Some(subj.name + " reference refuses to declare what tests it offers")
    else if subj.start.Refuses? then Some(subj.name + " reference refuses to declare what its first test is")
    else None
  }

  /** exec(prog, args, type) on the host s: the exit code, or the exception
      that escaped. */
  function ExecSpec(s: State, args: seq<string>, subj: Subject): Step<int> {
    match SetupFault(subj)
    case Some(reason) => GiveUp(s, reason)
    case None =>
      if subj.start.n < 0 then Step(s, Raised(IllegalArgument(subj.start.n)))
      else ExecOptions(s, ReadArgs(args, subj.start.n - 1, subj.avail.n, true), subj)
  }

  /** exec once the options are read: -h, a rejected token, or the
      selection and the plans it asks for. */
  function ExecOptions(s: State, rd: Ranges.Reading, subj: Subject): Step<int>
    requires subj.start.Answer? && subj.start.n >= 0 && subj.avail.Answer?
  {
    match rd
    case Asked => Step(s, Normal(0))
    case Malformed => Step(s, Normal(2))
    case Parsed(rs, _, exitCode) =>
      var todo := Pick(rs, subj.start.n - 1, subj.avail.n);
      Launch(s, todo, PlansOf(todo, subj), subj, exitCode)
  }

  /** exec from the plan announcement on, over the selection and its plans:
      the exit code, or the exception that escaped. */
  function Launch(s: State, todo: seq<int>, plans: seq<int32>, subj: Subject, exitCode: bool): Step<int>
    requires |plans| == |todo|
  {
    var h := Herald(s, TotalFrom(plans, 0, 0));
    if h.res.Raised? then Step(h.st, Raised(h.res.thrown))
    else
      var d := ExecFrom(h.st, todo, plans, subj, 0, true);
      Step(d.st, if d.res.Raised? then Raised(d.res.thrown)
                 else Normal(if exitCode && d.res.value && d.st.fail > 0 then 1 else 0))
  }

  // ---------------------------------------------------------------------------
  // The top-up and one index

  /** A single line with no T in it is no TODO. */
  lemma PlainLine(a: string)
    requires a != [] && LfFree(a) && 'T' !in a
    ensures SplitLines(a) == [a] && !IsTodo(SplitLines(a))
  {
    LfFieldsOfLine(a);
    if Contains(a, "TODO") {
      ContainsFirst(a, "TODO");
    }
  }

  /** The "plan too ambitious" filler results count as failures. */
  lemma AmbitiousCounts()
    ensures !IsTodo(SplitLines(AmbitiousFiller))
  {
    assert AmbitiousFiller == "plan too ambitious";
    PlainLine(AmbitiousFiller);
  }

  /** Below goal, filling is one run of results up to goal. */
  lemma FillBelow(s: State, goal: int, pass: bool, mess: string)
    requires s.count < goal
    ensures FillTo(s, goal, pass, mess) == Repeat(s, goal - s.count, pass, mess)
  {
  }

  /** With count at goal or beyond, filling does nothing. */
  lemma FillIdle(s: State, goal: int, pass: bool, mess: string)
    requires s.count >= goal
    ensures FillTo(s, goal, pass, mess) == s
  {
  }

  /** The top-up leaves count at goal when it was below and untouched
      otherwise; filler after an exception passes (it is a SKIP), and
      otherwise each filler result is a failure. */
  lemma TopUpFacts(s: State, goal: int, aborted: bool)
    ensures var r := TopUp(s, goal, aborted);
      r.count == (if s.count < goal then goal else s.count)
      && r.fail == s.fail + (if !aborted && s.count < goal then goal - s.count else 0)
      && r.plan == s.plan && r.ended == s.ended && r.origin == s.origin
      && (s.count >= goal ==> r == s)
  {
    var mess := Filler(aborted);
    if s.count < goal {
      FillBelow(s, goal, aborted, mess);
      RepeatTally(s, goal - s.count, aborted, mess);
      if !aborted {
        AmbitiousCounts();
      }
    } else {
      FillIdle(s, goal, aborted, mess);
    }
  }

  /** The instance's routine as it would run on empty streams. */
  function Attempt(origin: int, r: Routine, subj: Subject): (State, Exit) {
    Execute(Fresh([], []).(origin := origin), r, Spliced(Declared(subj)))
  }

  /** The instance's routine runs as it would on empty streams, and never
      ends with a negative count. */
  lemma InstanceFacts(s: State, r: Routine, subj: Subject)
    ensures var e := Execute(Instance(s), r, Spliced(Declared(subj))); var x := Attempt(s.count, r, subj);
      e.0.count == x.0.count && e.1 == x.1 && x.0.count >= 0
  {
    ExecuteAlike(Instance(s), Fresh([], []).(origin := s.count), r, Spliced(Declared(subj)));
    AttemptCounts(s.count, r, subj);
  }

  lemma ExecIndexRunning(s: State, t: int, planet: int, many: bool, subj: Subject)
    requires Runs(subj.cases(t))
    ensures ExecIndex(s, t, planet, many, subj)
         == Step(Conclude(s, t, s.count + planet, many, Execute(Instance(s), subj.cases(t).routine, Spliced(Declared(subj)))), Normal(()))
  {
    var c := subj.cases(t);
    assert Runs(c);
  }

  /** An instance numbers on from the host: the first check its routine
      makes writes, after the host's lines, the status line of test number
      count + 1 of the host. */
  lemma InstanceNumbers(s: State, c: Check)
    requires s.count >= 0
    ensures var r := OkStep(Instance(s), c.pass, c.mess, c.trace);
      |r.st.out| > |s.out| && r.st.out[..|s.out|] == s.out
      && r.st.out[|s.out|] == ResultLine(c.pass, IntToString(s.count + 1), SplitLines(c.mess))
  {
    var i := Instance(s);
    assert i.origin == s.count >= 0 && i.count == 0 && i.out == s.out;
    assert StatusNumber(i) == IntToString(s.count + 1);
    OkStatusLine(i, c.pass, c.mess, c.trace);
  }

  /** An index whose routine runs: the host's count ends at the greater of
      goal and what it was plus the instance's count, so at goal when the
      instance ran at most its plan; an exception adds one failure and the
      filler passes, otherwise each result short of goal is a failure. */
  lemma ExecIndexRuns(s: State, t: int, planet: int, many: bool, subj: Subject)
    requires Runs(subj.cases(t))
    ensures var r := ExecIndex(s, t, planet, many, subj);
      var x := Attempt(s.count, subj.cases(t).routine, subj); var ran := s.count + x.0.count; var goal := s.count + planet;
      r.res.Normal?
      && r.st.count == (if ran < goal then goal else ran)
      && (x.0.count <= planet ==> r.st.count == goal)
      && r.st.fail == s.fail + (if x.1.Aborted? then 1 else 0) + (if !x.1.Aborted? && ran < goal then goal - ran else 0)
      && r.st.plan == s.plan && r.st.ended == s.ended && r.st.origin == s.origin
      && r.st.count >= s.count + (if planet > 0 then planet else 0)
  {
    var e := Execute(Instance(s), subj.cases(t).routine, Spliced(Declared(subj)));
    InstanceFacts(s, subj.cases(t).routine, subj);
    ConcludeFacts(s, t, s.count + planet, many, e);
    ExecIndexRunning(s, t, planet, many, subj);
  }

  lemma ConcludeFacts(s: State, t: int, goal: int, many: bool, e: (State, Exit))
    ensures var r := Conclude(s, t, goal, many, e); var ran := s.count + e.0.count;
      r.count == (if ran < goal then goal else ran)
      && r.fail == s.fail + (if e.1.Aborted? then 1 else 0) + (if !e.1.Aborted? && ran < goal then goal - ran else 0)
      && r.plan == s.plan && r.ended == s.ended && r.origin == s.origin
  {
    var a := Absorb(s, t, many, e);
    assert Conclude(s, t, goal, many, e) == TopUp(a, goal, e.1.Aborted?);
    assert a.count == s.count + e.0.count && a.fail == s.fail + (if e.1.Aborted? then 1 else 0);
    assert a.plan == s.plan && a.ended == s.ended && a.origin == s.origin;
    TopUpFacts(a, goal, e.1.Aborted?);
  }

  /** How the host reports a routine that threw, one failure each time: a
      routine that misuses subtests by the engine's own message, "You are
      already in subtest a." for opening subtest a and then another and "You
      are not in an ongoing subtest." for closing one never opened; a routine
      whose static initializer failed by the class name of
      ExceptionInInitializerError, whatever the initializer threw. */
  lemma AbortReports(s: State, t: int, many: bool, a: int, b: int, v: Variant, cause: Thrown)
    ensures var e := Execute(Instance(s), Routine([Enter(a), Enter(b)], Completed), v);
      e.1 == Aborted(false, IllegalState(NestedSubtest(a)))
      && Absorb(s, t, many, e).fail == s.fail + 1
      && Absorb(s, t, many, e).err
         == e.0.err + [CommentLine(AbortText(many, t, "You are already in subtest " + IntToString(a) + "."))]
    ensures var e := Execute(Instance(s), Routine([Leave], Completed), v);
      e.1 == Aborted(false, IllegalState(NoSubtest))
      && Absorb(s, t, many, e).fail == s.fail + 1
      && Absorb(s, t, many, e).err == e.0.err + [CommentLine(AbortText(many, t, "You are not in an ongoing subtest."))]
    ensures var e := Execute(Instance(s), Routine([], Aborted(true, cause)), v);
      Absorb(s, t, many, e).fail == s.fail + 1
      && Absorb(s, t, many, e).err == s.err + [CommentLine(AbortText(many, t, "java.lang.ExceptionInInitializerError"))]
  {
    var i := Instance(s);
    assert !i.subtesting;
    var p := InitSubtestStep(i, a);
    assert p.res == Normal(()) && p.st.subtesting && p.st.subtest == a;
    assert Perform(i, [Enter(a), Enter(b)], v) == Perform(p.st, [Enter(b)], v);
    assert Perform(p.st, [Enter(b)], v) == Step(p.st, Raised(IllegalState(NestedSubtest(a))));
    assert Perform(i, [Leave], v) == Quiet(if v.Standalone? then DoneSubtestStep(i) else DoneSubtestAgainstStep(i, v.declared(i.subtest)));
  }

  /** Abandoning among several: the plan's worth of passing skips. */
  lemma AbandonMany(s: State, goal: int, mess: string)
    ensures var r := Abandon(s, goal, true, mess);
      r.res.Normal?
      && r.st.count == (if s.count < goal then goal else s.count)
      && r.st.fail == s.fail
      && r.st.plan == s.plan && r.st.ended == s.ended && r.st.origin == s.origin
  {
    var t := Repeat(s, goal - s.count, true, SkipMessage(mess));
    RepeatTally(s, goal - s.count, true, SkipMessage(mess));
    assert Abandon(s, goal, true, mess) == Step(t, Normal(()));
  }

  /** An index that cannot run, among several selected: it skips plan
      results, so count grows by the plan (by nothing for a negative plan),
      and nothing fails. */
  lemma ExecIndexSkips(s: State, t: int, planet: int, subj: Subject)
    requires !Runs(subj.cases(t))
    ensures var r := ExecIndex(s, t, planet, true, subj);
      r.res.Normal?
      && r.st.count == s.count + (if planet > 0 then planet else 0)
      && r.st.fail == s.fail
      && r.st.plan == s.plan && r.st.ended == s.ended && r.st.origin == s.origin
  {
    var a := Abandon(s, s.count + planet, true, Excuse(subj, t));
    AbandonMany(s, s.count + planet, Excuse(subj, t));
    assert a.st.count == s.count + (if planet > 0 then planet else 0);
    assert ExecIndex(s, t, planet, true, subj) == a;
  }

  /** An index that cannot run, alone in the selection: skip_all, which
      raises once the run has ended and otherwise ends it. */
  lemma ExecIndexSkipsAll(s: State, t: int, planet: int, subj: Subject)
    requires !Runs(subj.cases(t))
    ensures var r := ExecIndex(s, t, planet, false, subj);
      (r.res.Raised? <==> s.ended) && r.st.ended && r.st.plan == s.plan
  {
    assert ExecIndex(s, t, planet, false, subj) == Quiet(SkipAllStep(s, Excuse(subj, t)));
    SkipAllResult(s, Excuse(subj, t));
  }

  // ---------------------------------------------------------------------------
  // The dispatch loop

  /** No plan from index i on died. */
  predicate NoneDied(todo: seq<int>, plans: seq<int32>, subj: Subject, i: nat)
    requires |plans| == |todo| && i <= |todo|
  {
    forall j :: i <= j < |todo| ==> !Died(subj, todo[j], plans[j])
  }

  lemma NoneDiedFrom(todo: seq<int>, plans: seq<int32>, subj: Subject, i: nat)
    requires |plans| == |todo| && i < |todo|
    ensures NoneDied(todo, plans, subj, i) <==> !Died(subj, todo[i], plans[i]) && NoneDied(todo, plans, subj, i + 1)
  {
    if !NoneDied(todo, plans, subj, i + 1) {
      var j :| i + 1 <= j < |todo| && Died(subj, todo[j], plans[j]);
    }
  }

  /** The positive plans from index i on, summed. */
  function PositiveFrom(plans: seq<int32>, i: nat): nat
    requires i <= |plans|
    decreases |plans| - i
  {
    if i == |plans| then 0 else (if plans[i] > 0 then plans[i] as nat else 0) + PositiveFrom(plans, i + 1)
  }

  lemma ExecFromStep(s: State, todo: seq<int>, plans: seq<int32>, subj: Subject, i: nat, allgood: bool)
    requires |plans| == |todo| && i < |todo|
    ensures var died := Died(subj, todo[i], plans[i]);
      var r := ExecIndex(if died then Diag(s, DiedText(todo[i])) else s, todo[i], plans[i], |todo| > 1, subj);
      ExecFrom(s, todo, plans, subj, i, allgood)
      == if r.res.Raised? then Step(r.st, Raised(r.res.thrown)) else ExecFrom(r.st, todo, plans, subj, i + 1, allgood && !died)
  {
    var died := Died(subj, todo[i], plans[i]);
    var s0 := if died then Diag(s, DiedText(todo[i])) else s;
    assert ExecFrom(s, todo, plans, subj, i, allgood) == ExecAt(s, todo, plans, subj, i, allgood);
    assert ExecAt(s, todo, plans, subj, i, allgood) == ExecAfter(s0, todo, plans, subj, i, allgood && !died);
  }

  /** One index of the loop keeps the plan; with several selected it never
      raises and grows count by at least its positive plan. */
  lemma ExecIndexKeeps(s: State, t: int, planet: int, many: bool, subj: Subject)
    ensures var r := ExecIndex(s, t, planet, many, subj);
      r.st.plan == s.plan && (many ==> r.res.Normal? && r.st.count >= s.count + (if planet > 0 then planet else 0))
  {
    if Runs(subj.cases(t)) {
      ExecIndexRuns(s, t, planet, many, subj);
    } else if many {
      ExecIndexSkips(s, t, planet, subj);
    } else {
      ExecIndexSkipsAll(s, t, planet, subj);
    }
  }

  /** r, the dispatch loop from index i on, keeps the announced plan; its
      value is allgood unless some plan died; with several indices selected it
      never raises and count grows by at least the positive plans, so it
      reaches every goal. */
  lemma ExecFromFacts(s: State, todo: seq<int>, plans: seq<int32>, subj: Subject, i: nat, allgood: bool, r: Step<bool>)
    requires |plans| == |todo| && i <= |todo| && r == ExecFrom(s, todo, plans, subj, i, allgood)
    ensures r.st.plan == s.plan
      && (r.res.Normal? ==> (r.res.value <==> allgood && NoneDied(todo, plans, subj, i)))
      && (|todo| > 1 ==> r.res.Normal? && r.st.count >= s.count + PositiveFrom(plans, i))
  {
    ExecFromKeepsPlan(s, todo, plans, subj, i, allgood, r);
    ExecFromValue(s, todo, plans, subj, i, allgood, r);
    ExecFromGrows(s, todo, plans, subj, i, allgood, r);
  }

  lemma {:induction false} ExecFromKeepsPlan(s: State, todo: seq<int>, plans: seq<int32>, subj: Subject, i: nat, allgood: bool, r: Step<bool>)
    requires |plans| == |todo| && i <= |todo| && r == ExecFrom(s, todo, plans, subj, i, allgood)
    ensures r.st.plan == s.plan
    decreases |todo| - i
  {
    if i < |todo| {
      var t := todo[i];
      var died := Died(subj, t, plans[i]);
      var s0 := if died then Diag(s, DiedText(t)) else s;
      var e := ExecIndex(s0, t, plans[i], |todo| > 1, subj);
      ExecFromStep(s, todo, plans, subj, i, allgood);
      ExecIndexKeeps(s0, t, plans[i], |todo| > 1, subj);
      if e.res.Normal? {
        ExecFromKeepsPlan(e.st, todo, plans, subj, i + 1, allgood && !died, ExecFrom(e.st, todo, plans, subj, i + 1, allgood && !died));
      }
    }
  }

  lemma {:induction false} ExecFromValue(s: State, todo: seq<int>, plans: seq<int32>, subj: Subject, i: nat, allgood: bool, r: Step<bool>)
    requires |plans| == |todo| && i <= |todo| && r == ExecFrom(s, todo, plans, subj, i, allgood)
    ensures r.res.Normal? ==> (r.res.value <==> allgood && NoneDied(todo, plans, subj, i))
    decreases |todo| - i
  {
    if i < |todo| {
      var t := todo[i];
      var died := Died(subj, t, plans[i]);
      var s0 := if died then Diag(s, DiedText(t)) else s;
      var e := ExecIndex(s0, t, plans[i], |todo| > 1, subj);
      ExecFromStep(s, todo, plans, subj, i, allgood);
      if e.res.Normal? {
        ExecFromValue(e.st, todo, plans, subj, i + 1, allgood && !died, ExecFrom(e.st, todo, plans, subj, i + 1, allgood && !died));
        NoneDiedFrom(todo, plans, subj, i);
      }
    }
  }

  lemma {:induction false} ExecFromGrows(s: State, todo: seq<int>, plans: seq<int32>, subj: Subject, i: nat, allgood: bool, r: Step<bool>)
    requires |plans| == |todo| && i <= |todo| && r == ExecFrom(s, todo, plans, subj, i, allgood)
    ensures |todo| > 1 ==> r.res.Normal? && r.st.count >= s.count + PositiveFrom(plans, i)
    decreases |todo| - i
  {
    if i < |todo| && |todo| > 1 {
      var t := todo[i];
      var died := Died(subj, t, plans[i]);
      var s0 := if died then Diag(s, DiedText(t)) else s;
      var e := ExecIndex(s0, t, plans[i], true, subj);
      ExecFromStep(s, todo, plans, subj, i, allgood);
      ExecIndexKeeps(s0, t, plans[i], true, subj);
      assert s0.count == s.count;
      ExecFromGrows(e.st, todo, plans, subj, i + 1, allgood && !died, ExecFrom(e.st, todo, plans, subj, i + 1, allgood && !died));
      assert PositiveFrom(plans, i) == (if plans[i] > 0 then plans[i] as nat else 0) + PositiveFrom(plans, i + 1);
    }
  }

  // ---------------------------------------------------------------------------
  // exec as a whole

  /** A set-up fault: skip_all, which raises once the run has ended, and
      otherwise ends it with exit code 1. */
  lemma GiveUpResult(s: State, reason: string)
    ensures var r := GiveUp(s, reason);
      (s.ended ==> r == Step(s, Raised(IllegalState(NothingToSkip))))
      && (!s.ended ==> r.res == Normal(1) && r.st.ended)
  {
    SkipAllResult(s, reason);
  }

  /** exec's exits before any test runs: a set-up fault skips everything
      with exit code 1; a negative first test raises; -h gives 0 and a
      rejected token 2, both leaving the engine as it was. */
  lemma ExecEarlyExits(s: State, args: seq<string>, subj: Subject)
    ensures var r := ExecSpec(s, args, subj);
      (!Ready(subj) ==>
         (s.ended ==> r == Step(s, Raised(IllegalState(NothingToSkip)))) && (!s.ended ==> r.res == Normal(1) && r.st.ended))
      && (Ready(subj) && subj.start.n < 0 ==> r == Step(s, Raised(IllegalArgument(subj.start.n))))
      && (Ready(subj) && subj.start.n >= 0 ==>
            var rd := ReadArgs(args, subj.start.n - 1, subj.avail.n, true);
            (rd.Asked? ==> r == Step(s, Normal(0))) && (rd.Malformed? ==> r == Step(s, Normal(2))))
  {
    match SetupFault(subj)
    case Some(reason) =>
      GiveUpResult(s, reason);
    case None =>
      if subj.start.n >= 0 {
        ExecRead(s, args, subj);
      }
  }

  /** exec once the arguments are read: a nonzero total meeting an earlier
      plan, or a negative one, makes plan raise before any test runs, and so
      does skip_all on an ended run when the plans sum to 0; each raises
      with the engine's own message. */
  lemma LaunchRefuses(s: State, todo: seq<int>, plans: seq<int32>, subj: Subject, exitCode: bool)
    requires |plans| == |todo|
    ensures var total := TotalFrom(plans, 0, 0); var r := Launch(s, todo, plans, subj, exitCode);
      (total != 0 && s.plan > 0 ==> r == Step(s, Raised(IllegalState(HavePlan(s.plan)))))
      && (total < 0 && s.plan <= 0 ==> r == Step(s, Raised(IllegalState(NegativePlan))))
      && (total == 0 && s.ended ==> r == Step(s, Raised(IllegalState(NothingToSkip))))
  {
    if TotalFrom(plans, 0, 0) == 0 {
      SkipAllResult(s, "nothing to test");
    }
  }

  /** exec once the arguments are read: a positive total on a run without a
      plan is announced and stays the plan. The exit code is 1 exactly when
      -e was given, no plan query raised and the host has failures, and 0
      otherwise. With several tests selected and the total announced the
      loop never raises and count grows by at least the positive plans. */
  lemma LaunchFacts(s: State, todo: seq<int>, plans: seq<int32>, subj: Subject, exitCode: bool)
    requires |plans| == |todo|
    ensures var total := TotalFrom(plans, 0, 0); var r := Launch(s, todo, plans, subj, exitCode);
      (total > 0 && s.plan <= 0 ==> r.st.plan == total)
      && (r.res.Normal? ==>
            (r.res.value == 1 <==> exitCode && NoneDied(todo, plans, subj, 0) && r.st.fail > 0)
            && (r.res.value == 0 || r.res.value == 1))
      && (|todo| > 1 && total > 0 && s.plan <= 0 ==> r.res.Normal? && r.st.count >= s.count + PositiveFrom(plans, 0))
  {
    var total := TotalFrom(plans, 0, 0);
    var h := Herald(s, total);
    if total == 0 {
      SkipAllResult(s, "nothing to test");
    } else {
      PlanOneShot(s, total, 0);
    }
    var d := ExecFrom(h.st, todo, plans, subj, 0, true);
    if h.res.Normal? {
      ExecFromFacts(h.st, todo, plans, subj, 0, true, ExecFrom(h.st, todo, plans, subj, 0, true));
    }
    assert Launch(s, todo, plans, subj, exitCode)
        == if h.res.Raised? then Step(h.st, Raised(h.res.thrown))
           else Step(d.st, if d.res.Raised? then Raised(d.res.thrown)
                           else Normal(if exitCode && d.res.value && d.st.fail > 0 then 1 else 0));
  }

  /** A read command line hands exec's selection and the plans it asked for
      to the announcement and the loop. */
  lemma ExecParsed(s: State, args: seq<string>, subj: Subject)
    requires Ready(subj) && subj.start.n >= 0
    requires ReadArgs(args, subj.start.n - 1, subj.avail.n, true).Parsed?
    ensures var rd := ReadArgs(args, subj.start.n - 1, subj.avail.n, true);
      var todo := Pick(rd.ranges, subj.start.n - 1, subj.avail.n);
      ExecSpec(s, args, subj) == Launch(s, todo, PlansOf(todo, subj), subj, rd.exitCode)
  {
    ExecRead(s, args, subj);
  }

  /** exec with the reference standing and a first index of 0 or more goes
      on to read the options. */
  lemma ExecRead(s: State, args: seq<string>, subj: Subject)
    requires Ready(subj) && subj.start.n >= 0
    ensures ExecSpec(s, args, subj) == ExecOptions(s, ReadArgs(args, subj.start.n - 1, subj.avail.n, true), subj)
  {
    var sf := SetupFault(subj);
    assert sf.None?;
  }


  // ---------------------------------------------------------------------------
  // The announced plan

  /** With no negative plan, the positive plans are all the plans. */
  lemma {:induction false} SumIsPositive(plans: seq<int32>, i: nat)
    requires i <= |plans| && forall j :: i <= j < |plans| ==> plans[j] >= 0
    ensures SumFrom(plans, i) == PositiveFrom(plans, i)
    decreases |plans| - i
  {
    if i < |plans| {
      SumIsPositive(plans, i + 1);
    }
  }

  /** exec's int total is the plain sum of the plans when none is negative
      and the sum fits in an int. */
  lemma {:induction false} TotalIsSum(plans: seq<int32>, i: nat, acc: int32)
    requires i <= |plans| && acc >= 0 && (forall j :: i <= j < |plans| ==> plans[j] >= 0)
    requires acc + SumFrom(plans, i) <= MaxInt
    ensures TotalFrom(plans, i, acc) == acc + SumFrom(plans, i)
    decreases |plans| - i
  {
    if i < |plans| {
      SumIsPositive(plans, i + 1);
      var next: int32 := acc + plans[i];
      assert Wrap32(acc + plans[i]) == next;
      TotalIsSum(plans, i + 1, next);
    }
  }

  /** Past the int range the total wraps: two plans of 2147483647 and 1 sum
      to -2147483648, and plan then raises. */
  lemma TotalWraps()
    ensures TotalFrom([MaxInt, 1], 0, 0) == MinInt
  {
    var plans: seq<int32> := [MaxInt, 1];
    assert Wrap32(0 + MaxInt) == MaxInt;
    assert Wrap32(MaxInt + 1) == MinInt;
    assert TotalFrom(plans, 2, MinInt) == MinInt;
    assert TotalFrom(plans, 1, MaxInt) == TotalFrom(plans, 2, MinInt);
    assert TotalFrom(plans, 0, 0) == TotalFrom(plans, 1, MaxInt);
  }

  /** With several tests selected, none planning a negative number and the
      plans summing to a positive int, on a run with no plan: exec announces
      the sum, never raises, and the host's count reaches the announced
      plan, so done_testing finds no shortfall. */
  lemma LaunchReachesPlan(s: State, todo: seq<int>, plans: seq<int32>, subj: Subject, exitCode: bool)
    requires |plans| == |todo| > 1 && s.plan <= 0
    requires forall j :: 0 <= j < |plans| ==> plans[j] >= 0
    requires 0 < SumFrom(plans, 0) <= MaxInt
    ensures var r := Launch(s, todo, plans, subj, exitCode);
      r.res.Normal? && r.st.plan == SumFrom(plans, 0) && r.st.count >= s.count + r.st.plan
  {
    TotalIsSum(plans, 0, 0);
    SumIsPositive(plans, 0);
    LaunchFacts(s, todo, plans, subj, exitCode);
  }

  // ---------------------------------------------------------------------------
  // The selection

  /** exec picks its tests by parse_cmd's rule: the selection is the
      ascending list of the chosen numbers from start on. */
  lemma ExecSelects(args: seq<string>, subj: Subject)
    requires Ready(subj) && subj.start.n >= 0 && subj.start.n - 1 + subj.avail.n <= MaxInt
    requires ReadArgs(args, subj.start.n - 1, subj.avail.n, true).Parsed?
    ensures var first, avail := subj.start.n, subj.avail.n;
      var rd := ReadArgs(args, first - 1, avail, true);
      SelectionOf(Pick(rd.ranges, first - 1, avail), rd.ranges, first, avail)
  {
    var rd := ReadArgs(args, subj.start.n - 1, subj.avail.n, true);
    PickIsSelection(rd.ranges, subj.start.n, subj.avail.n);
  }

  /** With no -t or -e among the arguments, exec's selection is exactly what
      parse_cmd answers. */
  lemma ExecSelectsAsParseCmd(args: seq<string>, subj: Subject)
    requires Ready(subj) && subj.start.n >= 0
    requires ReadArgs(args, subj.start.n - 1, subj.avail.n, true).Parsed?
    requires forall k :: 0 <= k < |args| ==> !IsTrace(args[k]) && !IsExitCode(args[k])
    ensures var first, avail := subj.start.n, subj.avail.n;
      var rd := ReadArgs(args, first - 1, avail, true);
      ParseCmdSpec(args, first, avail) == Normal(Pick(rd.ranges, first - 1, avail))
  {
    var first: int32, avail: int32 := subj.start.n, subj.avail.n;
    var offset: int32 := first - 1;
    ReadArgsAgree(args, offset, avail);
  }

  // ---------------------------------------------------------------------------
  // The example subject

  /** The declarations of the binary search tree example: tests 1 and 2,
      planning 11 and 8 assertions. */
  function TreeSubject(name: string, cases: int -> Case): Subject {
    Subject(name, true, true, Answer(2), Answer(1),
            t => if t == 1 then Answer(11) else if t == 2 then Answer(8) else Answer(0), cases)
  }

  /** Run with no arguments on a host without a plan, the example announces
      1..19, runs both tests, reaches the plan whatever the tests do, and
      exits with 0. */
  lemma TreeRun(s: State, name: string, cases: int -> Case)
    requires s.plan <= 0
    ensures var r := ExecSpec(s, [], TreeSubject(name, cases));
      r.res == Normal(0) && r.st.plan == 19 && r.st.count >= s.count + 19
  {
    var subj := TreeSubject(name, cases);
    var rd := ReadArgs([], 0, 2, true);
    assert rd == Parsed([], false, false);
    var todo := Pick([], 0, 2);
    assert todo == [1, 2] by {
      assert Decide(EncodeLo([]), EncodeHi([]), 1) && Decide(EncodeLo([]), EncodeHi([]), 2);
      assert PickFrom(EncodeLo([]), EncodeHi([]), 0, 3, 2) == [];
    }
    var plans := PlansOf(todo, subj);
    assert plans == [11, 8];
    assert SumFrom(plans, 2) == 0;
    assert SumFrom(plans, 1) == 8;
    assert SumFrom(plans, 0) == 19;
    LaunchReachesPlan(s, todo, plans, subj, false);
    LaunchFacts(s, todo, plans, subj, false);
    ExecParsed(s, [], subj);
  }
  /** A test whose one assertion fails and which keeps to its plan of 1. */
  function FailingCase(): Case {
    Case(true, Found, Routine([Assert(Check(false, "wrong", false))], Completed))
  }

  /** The failing case run as an instance: one result, one failure. */
  lemma FailingAttempt(origin: int, subj: Subject)
    ensures var x := Attempt(origin, FailingCase().routine, subj);
      x.0.count == 1 && x.0.fail == 1 && x.1 == Completed
  {
    var c := Check(false, "wrong", false);
    PlainLine("wrong");
    var o := Fresh([], []).(origin := origin);
    var v := Spliced(Declared(subj));
    OkTally(o, c.pass, c.mess, c.trace);
    var r := OkStep(o, c.pass, c.mess, c.trace);
    var a := Act(o, Assert(c), v);
    assert a.st == r.st && a.res.Normal?;
    assert [Assert(c)][1..] == [];
    assert Perform(o, [Assert(c)], v) == Perform(a.st, [], v);
  }

  /** The dispatch loop over the failing case alone leaves the host's fail
      as it was. */
  lemma FailingDispatch(h: State, subj: Subject)
    requires subj.cases(1) == FailingCase()
    ensures var d := ExecFrom(h, [1], [1], subj, 0, true);
      d.res == Normal(true) && d.st.fail == h.fail
  {
    FailingAttempt(h.count, subj);
    ExecIndexRuns(h, 1, 1, false, subj);
    assert ExecFrom(h, [1], [1], subj, 0, true) == ExecAt(h, [1], [1], subj, 0, true);
    assert ExecAt(h, [1], [1], subj, 0, true) == ExecAfter(h, [1], [1], subj, 0, true);
  }

  /** With -e, one selected test planned at 1 whose assertion fails: the
      instance tallies the failure, yet exec's exit code is 0, since only
      the instance's count is added to the host. */
  lemma ExitIgnoresInstanceFailure(s: State, subj: Subject)
    requires s.plan <= 0 && !s.ended && s.fail == 0
    requires subj.subplan(1) == Answer(1) && subj.cases(1) == FailingCase()
    ensures Attempt(s.count, FailingCase().routine, subj).0.fail == 1
    ensures Launch(s, [1], [1], subj, true).res == Normal(0)
  {
    FailingAttempt(s.count, subj);
    assert TotalFrom([1], 0, 0) == 1;
    PlanOneShot(s, 1, 0);
    var h := Herald(s, 1);
    assert h.res.Normal? && h.st.fail == 0;
    FailingDispatch(h.st, subj);
  }
}

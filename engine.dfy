/** The engine as the object a test routine holds. TapTest keeps every field
    of the engine and the two streams it writes on, and its methods update
    them in place as the engine's methods do. Each method is proved to leave
    the object in the State that the step function of the same operation
    computes from the old State, and to return that step's value or
    exception; what those functions promise is proved in Protocol, Dispatch
    and Exec.

    The standard output and error streams are shared by every engine of a
    run. Here an engine made by run, runff or exec starts from its host's
    streams, and the host takes them back when the test method returns. */
module Engine {
  import opened Text
  import opened Protocol
  import opened Ranges
  import opened Dispatch
  import opened Exec

  class TapTest {
    var count: int
    var plan: int
    var fail: int
    var ended: bool
    var origin: int
    var subtest: int
    var subplan: int
    var subcount: int
    var subfail: int
    var subtesting: bool
    var subtodo: int
    var subdone: seq<int>
    var out: seq<string>
    var err: seq<string>

    /** The fields of the object as a State. */
    function St(): State
      reads this
    {
      State(count, plan, fail, ended, origin, subtest, subplan, subcount, subfail,
            subtesting, subtodo, subdone, out, err)
    }

    /** new TapTest(), writing after the lines already on the streams. */
    constructor (out0: seq<string>, err0: seq<string>)
      ensures St() == Fresh(out0, err0)
    {
      count, plan, fail, ended, origin := 0, 0, 0, false, 0;
      subtest, subplan, subcount, subfail := 0, 0, 0, 0;
      subtesting, subtodo, subdone := false, 0, [];
      out, err := out0, err0;
    }

    /** subplan(n) */
    method SetSubplan(n: int)
      modifies this
      ensures St() == old(St()).(subplan := n)
    {
      subplan := n;
    }

    /** origin(offset) */
    method SetOrigin(offset: int)
      modifies this
      ensures St() == old(St()).(origin := offset)
    {
      origin := offset;
    }

    // -------------------------------------------------------------------------
    // The two streams

    /** note(line) */
    method Note(line: string)
      modifies this
      ensures St() == Protocol.Note(old(St()), line)
    {
      if IsBlank(line) {
        out := out + ["#"];
      } else {
        out := out + ["# " + line];
      }
    }

    /** diag(line) */
    method Diag(line: string)
      modifies this
      ensures St() == Protocol.Diag(old(St()), line)
    {
      if IsBlank(line) {
        err := err + ["#"];
      } else {
        err := err + ["# " + line];
      }
    }

    /** log(ok, line) */
    method Log(happy: bool, line: string)
      modifies this
      ensures St() == Protocol.Log(old(St()), happy, line)
    {
      if happy {
        Note(line);
      } else {
        Diag(line);
      }
    }

    /** bail_out(reason) */
    method BailOut(reason: string)
      modifies this
      ensures St() == BailOutStep(old(St()), reason)
    {
      out := out + [BailOutLine(reason)];
    }

    // -------------------------------------------------------------------------
    // The plan and the end of the run

    /** plan(n) */
    method Plan(n: int) returns (r: Outcome<int>)
      modifies this
      ensures Step(St(), r) == PlanStep(old(St()), n)
    {
      if plan > 0 {
        return Raised(IllegalState(HavePlan(plan)));
      }
      if n < 0 {
        return Raised(IllegalState(NegativePlan));
      }
      plan := n;
      if plan > 0 {
        out := out + [PlanLine(n)];
      }
      r := Normal(n);
    }

    /** plan(int[] plan): plan of the 32-bit sum of the plans. */
    method PlanAll(plans: seq<int32>) returns (r: Outcome<int>)
      modifies this
      ensures Step(St(), r) == PlanStep(old(St()), TotalFrom(plans, 0, 0) as int)
    {
      r := Plan(TotalFrom(plans, 0, 0) as int);
    }

    /** done_testing() */
    method DoneTesting() returns (r: Outcome<bool>)
      modifies this
      ensures Step(St(), r) == DoneTestingStep(old(St()))
    {
      if ended {
        return Raised(IllegalState(Ended));
      }
      if subtesting {
        return Raised(IllegalState(MidSubtest));
      }
      if plan == 0 {
        if count == 0 {
          out := out + [SkipAllLine("No tests defined")];
        } else {
          out := out + [PlanLine(count)];
        }
      } else if plan > 0 && count != plan {
        Diag(PlanMismatchText(plan, count));
        Diag(OffPlanText);
        return Normal(true);
      }
      ended := true;
      r := Normal(false);
    }

    /** skip_all(reason) */
    method SkipAll(reason: string) returns (r: Outcome<int>)
      modifies this
      ensures Step(St(), r) == SkipAllStep(old(St()), reason)
    {
      if ended {
        return Raised(IllegalState(NothingToSkip));
      }
      var skipper := 0;
      if plan == 0 {
        out := out + [SkipAllLine(reason)];
      } else {
        skipper := SkipRest(SkipMessage(reason));
      }
      ended := true;
      r := Normal(skipper);
    }

    /** The loop of skip_all: fail(mess), then count is incremented once
        more; the number of rounds. */
    method SkipRest(mess: string) returns (skipper: int)
      modifies this
      ensures (St(), skipper) == SkipLoop(old(St()), mess, 0)
    {
      ghost var s0 := St();
      skipper := 0;
      while count < plan
        invariant SkipLoop(St(), mess, skipper) == SkipLoop(s0, mess, 0)
        decreases plan - count
      {
        ghost var before := St();
        Fail(mess);
        ghost var t := St();
        SkipStep(before, mess, skipper, t);
        count := count + 1;
        assert St() == t.(count := t.count + 1);
        skipper := skipper + 1;
      }
    }

    // -------------------------------------------------------------------------
    // Assertions

    /** The 4-argument ok(pass, mess, trace, stacklevel); the stack frame
        line is FrameText. */
    method OkTrace(pass: bool, mess: string, trace: bool) returns (r: Outcome<bool>)
      modifies this
      ensures Step(St(), r) == OkStep(old(St()), pass, mess, trace)
    {
      ghost var s0 := St();
      var reasons := SplitLines(mess);
      var unreasonable := |reasons| == 0;
      var isTodo := !unreasonable && Contains(reasons[0], "TODO");
      assert isTodo == IsTodo(reasons);
      var number := Number();
      Chant(pass, number, reasons);
      OkStepAnnounced(s0, pass, mess, trace, St());
      if trace && unreasonable {
        return Raised(IndexOutOfBounds);
      }
      ExplainLines(pass, number, reasons, trace);
      Tally(pass, isTodo);
      r := Normal(pass);
    }

    /** count and subcount move on, and the new count is displayed plus
        origin, or after the subtest id in embedded mode. */
    method Number() returns (number: string)
      modifies this
      ensures number == StatusNumber(old(St()))
      ensures St() == old(St()).(count := old(count) + 1, subcount := old(subcount) + 1)
    {
      if origin >= 0 {
        count := count + 1;
        number := IntToString(count + origin);
      } else {
        count := count + 1;
        number := IntToString(subtest) + "." + IntToString(count);
      }
      subcount := subcount + 1;
    }

    /** The status line, built and then printed at origin >= 0 or noted in
        embedded mode. */
    method Chant(pass: bool, number: string, reasons: seq<string>)
      modifies this
      ensures St() == Announce(old(St()), ResultLine(pass, number, reasons))
    {
      var unreasonable := |reasons| == 0;
      var isTodo := !unreasonable && Contains(reasons[0], "TODO");
      var isSkip := !unreasonable && Contains(reasons[0], "SKIP");
      var chant := if pass then "ok " else "not ok ";
      chant := chant + number;
      if !unreasonable {
        chant := chant + (if isTodo || isSkip then " # " else " - ") + reasons[0];
      }
      assert chant == ResultLine(pass, number, reasons);
      if origin >= 0 {
        out := out + [chant];
      } else {
        Note(chant);
      }
    }

    /** The failure and TODO tallies of the assertion just numbered. */
    method Tally(pass: bool, isTodo: bool)
      modifies this
      ensures St() == Record(old(St()), pass, isTodo)
    {
      if !(pass || isTodo) {
        fail := fail + 1;
        subfail := subfail + 1;
      }
      if isTodo {
        if pass {
          subdone := subdone + [count];
        } else {
          subtodo := subtodo + 1;
        }
      }
    }

    /** The header and frame lines, then the loop logging every description
        line after the first. */
    method ExplainLines(pass: bool, number: string, reasons: seq<string>, trace: bool)
      requires !trace || reasons != []
      modifies this
      ensures St() == Explain(old(St()), pass, number, reasons, trace)
    {
      if trace || |reasons| > 1 {
        Log(!trace, AssertionText(number, reasons[0], pass));
        Log(!trace, FrameText);
      }
      if reasons != [] {
        ghost var s3 := St();
        var i := 1;
        while i < |reasons|
          invariant 1 <= i <= |reasons|
          invariant LogAll(St(), !trace, reasons[i..]) == LogAll(s3, !trace, reasons[1..])
          decreases |reasons| - i
        {
          assert reasons[i..][0] == reasons[i] && reasons[i..][1..] == reasons[i + 1..];
          ghost var before := St();
          Log(!trace, reasons[i]);
          LogAllCons(before, !trace, reasons[i..]);
          i := i + 1;
        }
        LogAllNone(St(), !trace);
      }
    }

    /** The 2-argument ok(pass, mess): trace unless the assertion passed and
        mess does not start with TODO. */
    method Ok(pass: bool, mess: string) returns (r: Outcome<bool>)
      modifies this
      ensures Step(St(), r) == OkStep(old(St()), pass, mess, AutoTrace(pass, mess))
    {
      var isTodo := StartsWith(mess, "TODO");
      r := OkTrace(pass, mess, !pass || isTodo);
    }

    /** pass(mess) */
    method Pass(mess: string)
      modifies this
      ensures St() == OkStep(old(St()), true, mess, false).st
    {
      var passed := OkTrace(true, mess, false);
    }

    /** fail(mess) */
    method Fail(mess: string)
      modifies this
      ensures St() == OkStep(old(St()), false, mess, false).st
    {
      var passed := OkTrace(false, mess, false);
    }

    /** pass(count, mess) */
    method PassMany(n: int, mess: string)
      modifies this
      ensures St() == Repeat(old(St()), n, true, mess)
    {
      ghost var s0 := St();
      ghost var left := n;
      var i := 0;
      while i < n
        invariant left == n - i
        invariant Repeat(St(), left, true, mess) == Repeat(s0, n, true, mess)
        decreases n - i
      {
        ghost var before := St();
        Pass(mess);
        RepeatStep(before, left, true, mess, St());
        i := i + 1;
        left := left - 1;
      }
    }

    /** fail(count, mess) */
    method FailMany(n: int, mess: string)
      modifies this
      ensures St() == Repeat(old(St()), n, false, mess)
    {
      ghost var s0 := St();
      ghost var left := n;
      var i := 0;
      while i < n
        invariant left == n - i
        invariant Repeat(St(), left, false, mess) == Repeat(s0, n, false, mess)
        decreases n - i
      {
        ghost var before := St();
        Fail(mess);
        RepeatStep(before, left, false, mess, St());
        i := i + 1;
        left := left - 1;
      }
    }

    /** skip(num, mess): passing results through the 2-argument ok, whose
        SKIP description never asks for a trace. */
    method Skip(n: int, mess: string)
      modifies this
      ensures St() == Repeat(old(St()), n, true, SkipMessage(mess))
    {
      ghost var s0 := St();
      ghost var left := n;
      var i := 0;
      while i < n
        invariant left == n - i
        invariant Repeat(St(), left, true, SkipMessage(mess)) == Repeat(s0, n, true, SkipMessage(mess))
        decreases n - i
      {
        SkipNeedsNoTrace(mess);
        ghost var before := St();
        var passed := Ok(true, "SKIP " + mess);
        RepeatStep(before, left, true, SkipMessage(mess), St());
        i := i + 1;
        left := left - 1;
      }
    }

    // -------------------------------------------------------------------------
    // Subtests

    /** init_subtest(id) */
    method InitSubtest(id: int) returns (r: Outcome<()>)
      modifies this
      ensures Step(St(), r) == InitSubtestStep(old(St()), id)
    {
      if subtesting {
        return Raised(IllegalState(NestedSubtest(subtest)));
      }
      subtest := id;
      subcount := 0;
      subfail := 0;
      subdone := [];
      subtesting := true;
      Note("Start subtest " + IntToString(subtest));
      r := Normal(());
    }

    /** done_subtest() of the stand-alone engine. */
    method DoneSubtest() returns (r: Outcome<bool>)
      modifies this
      ensures Step(St(), r) == DoneSubtestStep(old(St()))
    {
      if !subtesting {
        return Raised(IllegalState(NoSubtest));
      }
      var verdict := Close(subplan > 0 && subcount != subplan, subplan);
      r := Normal(verdict);
    }

    /** done_subtest() of the embedded engine, given the subject's subplan of
        the current subtest. */
    method DoneSubtestAgainst(declared: int) returns (r: Outcome<bool>)
      modifies this
      ensures Step(St(), r) == DoneSubtestAgainstStep(old(St()), declared)
    {
      if !subtesting {
        return Raised(IllegalState(NoSubtest));
      }
      var verdict := Close(subcount != declared, declared);
      r := Normal(verdict);
    }

    /** The body both done_subtest variants share once a subtest is open. */
    method Close(misplanned: bool, planned: int) returns (verdict: bool)
      requires subtesting
      modifies this
      ensures Step(St(), Normal(verdict)) == CloseSubtest(old(St()), misplanned, planned)
    {
      var embedded := origin < 0;
      Summarize();
      if subfail > 0 {
        Log(!embedded, SubtestFailedText(subtest));
        return false;
      }
      if embedded && misplanned {
        Diag(BadSubplanText(subtest, planned, subcount));
        return false;
      }
      verdict := true;
    }

    /** done_subtest up to its verdict. */
    method Summarize()
      modifies this
      ensures St() == Summary(old(St()))
    {
      subtesting := false;
      var embedded := origin < 0;
      Note("End of subtest " + IntToString(subtest));
      Note(RanText(subcount, subfail));
      if embedded && subdone != [] {
        Diag(CelebrateText(subdone));
        Diag(TickText(|subdone|));
      }
      if subtodo > 0 {
        Log(!embedded, TodoDebtText(subtodo));
      }
    }

    // -------------------------------------------------------------------------
    // A test routine calling the engine

    /** One engine call of a test routine. */
    method Act(a: Action, v: Variant) returns (r: Outcome<()>)
      modifies this
      ensures Step(St(), r) == Dispatch.Act(old(St()), a, v)
    {
      match a
      case Assert(c) =>
        var passed := OkTrace(c.pass, c.mess, c.trace);
        r := if passed.Raised? then Raised(passed.thrown) else Normal(());
      case Enter(id) =>
        r := InitSubtest(id);
      case Leave =>
        var verdict;
        if v.Standalone? {
          verdict := DoneSubtest();
        } else {
          verdict := DoneSubtestAgainst(v.declared(subtest));
        }
        r := if verdict.Raised? then Raised(verdict.thrown) else Normal(());
    }

    /** The test method invoked on this engine: its calls in turn, until one
        raises, which ends the routine with that exception as its cause. */
    method Invoke(routine: Routine, v: Variant) returns (exit: Exit)
      modifies this
      ensures (St(), exit) == Execute(old(St()), routine, v)
    {
      ghost var s0 := St();
      var acts := routine.actions;
      var i := 0;
      while i < |acts|
        invariant 0 <= i <= |acts|
        invariant Perform(St(), acts[i..], v) == Perform(s0, acts, v)
        decreases |acts| - i
      {
        ghost var before := St();
        var r := Act(acts[i], v);
        PerformStep(before, acts[i..], v, Step(St(), r));
        if r.Raised? {
          return Aborted(false, r.thrown);
        }
        assert acts[i..][1..] == acts[i + 1..];
        i := i + 1;
      }
      assert acts[i..] == [];
      exit := routine.end;
    }

    // -------------------------------------------------------------------------
    // run and runff

    /** One index of run: a fresh engine with the index's subplan is handed
        to the test method; the flags it yields are ORed into offense. */
    method RunOne(t: int, planet: int, trial: Trial, offense: set<Flag>) returns (offense': set<Flag>)
      modifies this
      ensures St() == RunIndex(old(St()), t, planet, trial).0
      ensures offense' == offense + RunIndex(old(St()), t, planet, trial).1
    {
      var name := Label(t);
      var self := new TapTest(out, err);
      self.SetSubplan(planet);
      if !trial.creation.Obj? {
        if trial.creation.Throws? {
          Diag(name + ": construction failed");
        } else {
          Diag(name + ": constructor returned null");
        }
        return offense + {ErrInit};
      }
      if trial.lookup.Missing? {
        Diag(name + ": method not found");
        return offense + {NotMeth};
      }
      if trial.lookup.Inaccessible? {
        Diag(name + ": invocation error");
        return offense + {BadCall};
      }
      ghost var s0 := St();
      var exit, e := Delegate(self, name, planet, trial.routine);
      offense' := offense;
      if exit.Aborted? {
        offense' := offense' + {FaultFlag(exit.initializer)};
      }
      Complain(name, planet, self.count);
      offense' := offense' + {BadPlan};
      TakeTotals(self.count, self.fail);
      RunIndexReaching(s0, t, planet, trial, e);
    }

    /** The report when the test method did not run its subplan. */
    method Complain(name: string, planet: int, ran: int)
      modifies this
      ensures St() == Dispatch.Complain(old(St()), name, planet, ran)
    {
      if ran != planet {
        Diag(RanOffPlanText(name, planet, ran));
      }
    }

    /** count += subcount; fail = subfail. */
    method TakeTotals(subcount: int, subfail: int)
      modifies this
      ensures St() == old(St()).(count := old(count) + subcount, fail := subfail)
    {
      count := count + subcount;
      fail := subfail;
    }

    /** test.invoke(user, self): the test method runs on self, which writes
        on from the host's streams; the host takes the streams back and
        reports a throw. */
    method Delegate(self: TapTest, name: string, planet: int, routine: Routine) returns (exit: Exit, ghost e: (State, Exit))
      requires self != this && self.St() == Child(St(), planet)
      modifies this, self
      ensures e == Execute(Child(old(St()), planet), routine, Standalone) && exit == e.1
      ensures St() == Rejoin(old(St()), name, e) && self.St() == e.0
    {
      exit := self.Invoke(routine, Standalone);
      e := (self.St(), exit);
      out, err := self.out, self.err;
      if exit.Aborted? {
        Diag(name + FaultText(exit.initializer));
      }
    }

    /** run(todo, plan, factory) */
    method Run(todo: seq<int>, plans: seq<int>, trials: seq<Trial>) returns (status: int)
      requires |plans| == |todo| == |trials|
      modifies this
      ensures (St(), status) == Dispatch.Run(old(St()), todo, plans, trials)
    {
      ghost var s0 := St();
      var offense: set<Flag> := {};
      var i := 0;
      while i < |todo|
        invariant 0 <= i <= |todo|
        invariant RunFrom(St(), todo, plans, trials, i, offense) == RunFrom(s0, todo, plans, trials, 0, {})
        decreases |todo| - i
      {
        ghost var before := St();
        ghost var o := offense;
        offense := RunOne(todo[i], plans[i], trials[i], offense);
        RunFromStep(before, todo, plans, trials, i, o);
        i := i + 1;
      }
      status := Status(offense);
    }

    /** One index of runff: as in run, but a fault site rethrows when the
        flags gathered so far meet fatal. */
    method RunFFOne(t: int, planet: int, trial: Trial, fatal: int, offense: set<Flag>) returns (r: Outcome<set<Flag>>)
      modifies this
      ensures Step(St(), r) == RunFFIndex(old(St()), t, planet, trial, fatal, offense)
    {
      var name := Label(t);
      var self := new TapTest(out, err);
      self.SetSubplan(planet);
      var o := offense;
      if trial.creation.Throws? {
        Diag(name + ": construction failed");
        o := o + {ErrInit};
        if Trips(fatal, o) {
          return Raised(Fault(trial.creation.message));
        }
        return Normal(o);
      }
      if !HasBit(fatal, ErrInit) {
        if trial.creation.Null? {
          Diag(name + ": constructor returned null");
          o := o + {ErrInit};
        }
        return Normal(o);
      }
      // requireNonNull(testName) passes: the name is never null; the null
      // object fails at getClass().
      if trial.creation.Null? {
        return Raised(NullPointer);
      }
      if trial.lookup.Missing? {
        Diag(name + ": method not found in " + trial.creation.className);
        o := o + {NotMeth};
        if Trips(fatal, o) {
          return Raised(NoSuchMethod);
        }
        return Normal(o);
      }
      if trial.lookup.Inaccessible? {
        Diag(name + ": invocation error");
        o := o + {BadCall};
        if Trips(fatal, o) {
          return Raised(IllegalAccess);
        }
        return Normal(o);
      }
      ghost var s0 := St();
      var exit, e := Delegate(self, name, planet, trial.routine);
      if exit.Aborted? {
        o := o + {FaultFlag(exit.initializer)};
        if Trips(fatal, o) {
          RunFFIndexReaching(s0, t, planet, trial, fatal, offense, e);
          return Raised(exit.cause);
        }
      }
      assert o == offense + ExitFlags(exit);
      Complain(name, planet, self.count);
      o := o + {BadPlan};
      RunFFIndexReaching(s0, t, planet, trial, fatal, offense, e);
      if Trips(fatal, o) {
        return Raised(IllegalState(Foiled(name)));
      }
      TakeTotals(self.count, self.fail);
      r := Normal(o);
    }

    /** runff(todo, plan, factory, fatal) */
    method RunFF(todo: seq<int>, plans: seq<int>, trials: seq<Trial>, fatal: int) returns (r: Outcome<int>)
      requires |plans| == |todo| == |trials|
      modifies this
      ensures Step(St(), r) == Dispatch.RunFF(old(St()), todo, plans, trials, fatal)
    {
      ghost var s0 := St();
      var offense: set<Flag> := {};
      var i := 0;
      while i < |todo|
        invariant 0 <= i <= |todo|
        invariant RunFFFrom(St(), todo, plans, trials, fatal, i, offense) == RunFFFrom(s0, todo, plans, trials, fatal, 0, {})
        decreases |todo| - i
      {
        ghost var before := St();
        var q := RunFFOne(todo[i], plans[i], trials[i], fatal, offense);
        RunFFFromStep(before, todo, plans, trials, fatal, i, offense);
        if q.Raised? {
          return Raised(q.thrown);
        }
        offense := q.value;
        i := i + 1;
      }
      r := Normal(Status(offense));
    }

    // -------------------------------------------------------------------------
    // exec, spliced into a test subject

    /** exec(prog, args, type) on this engine as the subject's own: the
        exit code, or the exception that escapes. */
    method Exec(args: seq<string>, subj: Subject) returns (r: Outcome<int>)
      modifies this
      ensures Step(St(), r) == ExecSpec(old(St()), args, subj)
    {
      ghost var s0 := St();
      var fault := SetupFault(subj);
      if fault.Some? {
        var skipped := SkipAll(fault.value);
        r := if skipped.Raised? then Raised(skipped.thrown) else Normal(1);
        ExecFaulted(s0, args, subj);
        return;
      }
      r := Proceed(args, subj);
    }

    /** exec once the reference stands: the first index, the options, the
        selection. */
    method Proceed(args: seq<string>, subj: Subject) returns (r: Outcome<int>)
      requires Ready(subj)
      modifies this
      ensures Step(St(), r) == ExecSpec(old(St()), args, subj)
    {
      ghost var s0 := St();
      var avail := subj.avail.n;
      var first := subj.start.n;
      if first < 0 {
        ExecNegative(s0, args, subj);
        return Raised(IllegalArgument(first));
      }
      var offset: int32 := first - 1;
      var reading, rangeLo, rangeHi, rangeCount := ReadOptions(args, offset, avail, true);
      ExecRead(s0, args, subj);
      if reading.Asked? {
        return Normal(0);
      }
      if reading.Malformed? {
        return Normal(2);
      }
      var todo := SelectIndices(rangeLo, rangeHi, rangeCount, offset, avail);
      assert todo == Pick(reading.ranges, offset, avail);
      r := RunSelected(todo, subj, reading.exitCode);
    }

    /** exec from the plan queries on: the plan[] and badplan[] arrays and
        their total, the announcement, then the dispatch loop. */
    method RunSelected(todo: seq<int>, subj: Subject, exitCode: bool) returns (r: Outcome<int>)
      modifies this
      ensures Step(St(), r) == Launch(old(St()), todo, PlansOf(todo, subj), subj, exitCode)
    {
      ghost var s0 := St();
      ghost var plans := PlansOf(todo, subj);
      var plan, badplan, total := AskPlans(todo, subj);
      var heralded := PlanOrSkip(total);
      if heralded.Raised? {
        r := Raised(heralded.thrown);
        LaunchUnannounced(s0, todo, plans, subj, exitCode, Step(St(), heralded));
        return;
      }
      ghost var sH := St();
      var ran := DispatchAll(todo, plans, plan, badplan, subj);
      if ran.Raised? {
        r := Raised(ran.thrown);
        LaunchRaising(s0, todo, plans, subj, exitCode, sH, Step(St(), r));
      } else {
        r := Normal(if exitCode && ran.value && fail > 0 then 1 else 0);
        LaunchRan(s0, todo, plans, subj, exitCode, sH, Step(St(), ran));
      }
    }

    /** The dispatch loop over the selection: the value is allgood. */
    method DispatchAll(todo: seq<int>, ghost plans: seq<int32>, plan: array<int32>, badplan: array<bool>, subj: Subject)
      returns (r: Outcome<bool>)
      requires plan.Length == badplan.Length == |todo| && plan[..] == plans
      requires forall j :: 0 <= j < |todo| ==> badplan[j] == subj.subplan(todo[j]).Refuses?
      modifies this
      ensures Step(St(), r) == ExecFrom(old(St()), todo, plans, subj, 0, true)
    {
      ghost var s0 := St();
      var allgood := true;
      for i := 0 to |todo|
        invariant ExecFrom(St(), todo, plans, subj, i, allgood) == ExecFrom(s0, todo, plans, subj, 0, true)
        modifies this
      {
        assert plan[i] == plans[i];
        var done;
        done, allgood := ExecRound(todo, plans, i, plan[i], badplan[i], subj, allgood);
        if done.Raised? {
          r := Raised(done.thrown);
          return;
        }
      }
      r := Normal(allgood);
    }

    /** The first pass of the selection loop: every selected index is asked
        for its plan; a query that raised leaves 0 and is flagged. */
    static method AskPlans(todo: seq<int>, subj: Subject) returns (plan: array<int32>, badplan: array<bool>, total: int32)
      ensures fresh(plan) && fresh(badplan)
      ensures plan.Length == badplan.Length == |todo|
      ensures plan[..] == PlansOf(todo, subj)
      ensures badplan[..] == RefusalsOf(todo, subj)
      ensures total == TotalFrom(PlansOf(todo, subj), 0, 0)
    {
      ghost var plans := PlansOf(todo, subj);
      ghost var refused := RefusalsOf(todo, subj);
      plan := new int32[|todo|](_ => 0);
      badplan := new bool[|todo|](_ => false);
      total := 0;
      for i := 0 to |todo|
        invariant plan[..i] == plans[..i] && badplan[..i] == refused[..i]
        invariant total == Total32(plans[..i])
        modifies plan, badplan
      {
        total := AskOne(plan, badplan, i, subj.subplan(todo[i]), total);
        PrefixGrows(plan[..], plans, i);
        PrefixGrows(badplan[..], refused, i);
        Total32Snoc(plans, i);
      }
      assert plan[..] == plan[..|todo|];
      assert badplan[..] == badplan[..|todo|];
      Total32IsTotal(plans);
    }

    /** One round of the first pass: plan[i] = subplan(todo[i]), or 0 with
        badplan[i] set when the query raised; total += plan[i]. */
    static method AskOne(plan: array<int32>, badplan: array<bool>, i: nat, q: Query, total: int32) returns (total': int32)
      requires i < plan.Length && i < badplan.Length
      modifies plan, badplan
      ensures plan[..] == old(plan[..])[i := Planned(q)] && badplan[..] == old(badplan[..])[i := q.Refuses?]
      ensures total' == Wrap32(total + Planned(q))
    {
      plan[i] := if q.Answer? then q.n else 0;
      badplan[i] := q.Refuses?;
      total' := Wrap32(total + plan[i]);
    }

    /** One round of the dispatch loop: a plan query that raised is
        reported and clears allgood, then the index runs. */
    method ExecRound(todo: seq<int>, ghost plans: seq<int32>, i: nat, planet: int32, bad: bool, subj: Subject, allgood: bool)
      returns (r: Outcome<()>, allgood': bool)
      requires |plans| == |todo| && i < |todo| && planet == plans[i] && bad == subj.subplan(todo[i]).Refuses?
      modifies this
      ensures r.Raised? ==> ExecFrom(old(St()), todo, plans, subj, i, allgood) == Step(St(), Raised(r.thrown))
      ensures r.Normal? ==> ExecFrom(old(St()), todo, plans, subj, i, allgood) == ExecFrom(St(), todo, plans, subj, i + 1, allgood')
    {
      ghost var s0 := St();
      var t := todo[i];
      allgood' := allgood;
      assert (planet == 0 && bad) == Died(subj, t, plans[i]);
      if planet == 0 && bad {
        Diag(DiedText(t));
        allgood' := false;
      }
      r := ExecOne(t, planet, |todo| > 1, subj);
      ExecFromRound(s0, todo, plans, subj, i, allgood, Step(St(), r));
    }

    /** if (total == 0) skip_all("nothing to test") else plan(total) */
    method PlanOrSkip(total: int32) returns (r: Outcome<()>)
      modifies this
      ensures Step(St(), r) == Herald(old(St()), total)
    {
      if total == 0 {
        var skipped := SkipAll("nothing to test");
        r := if skipped.Raised? then Raised(skipped.thrown) else Normal(());
      } else {
        var planned := Plan(total);
        r := if planned.Raised? then Raised(planned.thrown) else Normal(());
      }
    }

    /** One index of the dispatch loop, once its plan is known: a fresh
        instance numbering from count runs the test method, then count is
        topped up to goal. */
    method ExecOne(t: int, planet: int, many: bool, subj: Subject) returns (r: Outcome<()>)
      modifies this
      ensures Step(St(), r) == ExecIndex(old(St()), t, planet, many, subj)
    {
      var c := subj.cases(t);
      if !c.instantiates {
        r := Forsake(t, planet, many, subj);
        return;
      }
      var instance := new TapTest(out, err);
      instance.SetOrigin(count);
      if !c.lookup.Found? {
        r := Forsake(t, planet, many, subj);
        return;
      }
      Engage(instance, t, planet, many, subj);
      r := Normal(());
    }

    /** An index whose instance or method is not there. */
    method Forsake(t: int, planet: int, many: bool, subj: Subject) returns (r: Outcome<()>)
      requires !Runs(subj.cases(t))
      modifies this
      ensures Step(St(), r) == ExecIndex(old(St()), t, planet, many, subj)
    {
      ghost var s0 := St();
      r := Forgo(count + planet, many, Excuse(subj, t));
      ExecIndexAbandoned(s0, t, planet, many, subj);
    }

    /** An index whose routine runs on a fresh instance, followed by the
        top-up to its plan. */
    method Engage(instance: TapTest, t: int, planet: int, many: bool, subj: Subject)
      requires Runs(subj.cases(t)) && instance != this && instance.St() == Instance(St())
      modifies this, instance
      ensures Step(St(), Normal(())) == ExecIndex(old(St()), t, planet, many, subj)
    {
      ghost var s0 := St();
      var goal := count + planet;
      var exit := Consult(instance, t, many, subj.cases(t).routine, subj);
      FillUp(goal, exit.Aborted?);
      ExecIndexRunning(s0, t, planet, many, subj);
    }

    /** test.invoke(instance): the routine runs on the instance; the host
        takes the streams back, reports an exception and counts it as a
        failure, and adds the instance's count. */
    method Consult(instance: TapTest, t: int, many: bool, routine: Routine, subj: Subject) returns (exit: Exit)
      requires instance != this && instance.St() == Instance(St())
      modifies this, instance
      ensures var e := Execute(Instance(old(St())), routine, Spliced(Declared(subj)));
        exit == e.1 && St() == Absorb(old(St()), t, many, e)
    {
      ghost var s0 := St();
      exit := instance.Invoke(routine, Spliced(Declared(subj)));
      ghost var e := (instance.St(), exit);
      out, err := instance.out, instance.err;
      if exit.Aborted? {
        Diag(AbortText(many, t, Verdict(exit)));
        fail := fail + 1;
      }
      count := count + instance.count;
    }

    /** while (count < goal): skip the remainder after an exception, fail
        it otherwise. */
    method FillUp(goal: int, aborted: bool)
      modifies this
      ensures St() == TopUp(old(St()), goal, aborted)
    {
      ghost var s0 := St();
      if count >= goal {
        FillIdle(s0, goal, aborted, Filler(aborted));
      }
      while count < goal
        invariant count < goal ==> St() == s0
        invariant count >= goal ==> St() == FillTo(s0, goal, aborted, Filler(aborted))
        decreases goal - count
      {
        ghost var before := St();
        FillBelow(before, goal, aborted, Filler(aborted));
        if aborted {
          Skip(goal - count, AbortedFiller);
          RepeatReaches(before, goal, true, SkipMessage(AbortedFiller), St());
        } else {
          FailMany(goal - count, AmbitiousFiller);
          RepeatReaches(before, goal, false, AmbitiousFiller, St());
        }
      }
    }

    /** A test that cannot run: skip what it planned when several are
        selected, skip_all when it is the only one. */
    method Forgo(goal: int, many: bool, mess: string) returns (r: Outcome<()>)
      modifies this
      ensures Step(St(), r) == Abandon(old(St()), goal, many, mess)
    {
      ghost var s0 := St();
      if many {
        ghost var left := goal - count;
        Skip(goal - count, mess);
        r := Normal(());
        ForgoneAmong(s0, goal, many, mess, left, St());
      } else {
        var skipped := SkipAll(mess);
        r := if skipped.Raised? then Raised(skipped.thrown) else Normal(());
        ForgoneAlone(s0, goal, mess, Step(St(), skipped));
      }
    }
  }

  // ---------------------------------------------------------------------------
  // The steps the method proofs take, each in a context of its own

  /** ok once its status line is out: it raises, or explains and tallies. */
  lemma OkStepAnnounced(s: State, pass: bool, mess: string, trace: bool, s2: State)
    requires s2 == Announced(s, pass, mess)
    ensures OkStep(s, pass, mess, trace) == Tell(s2, pass, StatusNumber(s), SplitLines(mess), trace)
  {
  }

  /** A test that cannot run, among several. */
  lemma ForgoneAmong(s: State, goal: int, many: bool, mess: string, left: int, t: State)
    requires many && left == goal - s.count && t == Repeat(s, left, true, SkipMessage(mess))
    ensures Abandon(s, goal, many, mess) == Step(t, Normal(()))
  {
  }

  /** The only test selected, and it cannot run. */
  lemma ForgoneAlone(s: State, goal: int, mess: string, k: Step<int>)
    requires k == SkipAllStep(s, mess)
    ensures Abandon(s, goal, false, mess) == Step(k.st, if k.res.Raised? then Raised(k.res.thrown) else Normal(()))
  {
  }

  /** One round of a counting loop. */
  lemma RepeatStep(s: State, k: int, pass: bool, mess: string, t: State)
    requires k > 0 && t == OkStep(s, pass, mess, false).st
    ensures Repeat(s, k, pass, mess) == Repeat(t, k - 1, pass, mess)
  {
    RepeatUnfolds(s, k, pass, mess);
  }

  /** The message skip hands to the 2-argument ok starts with SKIP, so ok
      makes no trace. */
  lemma SkipNeedsNoTrace(mess: string)
    ensures "SKIP " + mess == SkipMessage(mess) && !AutoTrace(true, SkipMessage(mess))
  {
    assert SkipMessage(mess)[0] == 'S';
  }

  /** One round of the loop of skip_all. */
  lemma SkipStep(s: State, mess: string, skipped: int, t: State)
    requires s.count < s.plan && t == OkStep(s, false, mess, false).st
    ensures SkipLoop(s, mess, skipped) == SkipLoop(t.(count := t.count + 1), mess, skipped + 1)
    ensures t.count == s.count + 1 && t.plan == s.plan
  {
    SkipLoopUnfolds(s, mess, skipped);
  }

  /** The calls of a routine, one at a time. */
  lemma PerformStep(s: State, acts: seq<Action>, v: Variant, r: Step<()>)
    requires acts != [] && r == Act(s, acts[0], v)
    ensures Perform(s, acts, v) == if r.res.Raised? then r else Perform(r.st, acts[1..], v)
  {
  }

  /** An index of run whose test method was invoked, given how it ended. */
  lemma RunIndexReaching(s: State, t: int, planet: int, trial: Trial, e: (State, Exit))
    requires Reaches(trial) && e == Execute(Child(s, planet), trial.routine, Standalone)
    ensures RunIndex(s, t, planet, trial) == (Adopt(Rejoin(s, Label(t), e), Label(t), planet, e.0), ExitFlags(e.1) + {BadPlan})
  {
  }

  /** An index of runff whose test method was invoked, given how it ended. */
  lemma RunFFIndexReaching(s: State, t: int, planet: int, trial: Trial, fatal: int, offense: set<Flag>, e: (State, Exit))
    requires Reaches(trial) && HasBit(fatal, ErrInit) && e == Execute(Child(s, planet), trial.routine, Standalone)
    ensures RunFFIndex(s, t, planet, trial, fatal, offense)
         == Settle(Rejoin(s, Label(t), e), Label(t), planet, e, fatal, offense + ExitFlags(e.1))
  {
  }

  lemma PrefixGrows<T>(a: seq<T>, b: seq<T>, i: nat)
    requires i < |a| && i < |b| && a[..i] == b[..i] && a[i] == b[i]
    ensures a[..i + 1] == b[..i + 1]
  {
    assert a[..i + 1] == a[..i] + [a[i]];
    assert b[..i + 1] == b[..i] + [b[i]];
  }

  lemma Total32Snoc(xs: seq<int32>, i: nat)
    requires i < |xs|
    ensures Total32(xs[..i + 1]) == Wrap32(Total32(xs[..i]) + xs[i])
  {
    assert xs[..i + 1][..i] == xs[..i];
  }

  lemma {:induction false} TotalFromPrefix(xs: seq<int32>, i: nat)
    requires i <= |xs|
    ensures TotalFrom(xs, i, Total32(xs[..i])) == TotalFrom(xs, 0, 0)
    decreases i
  {
    if i > 0 {
      Total32Snoc(xs, i - 1);
      TotalFromPrefix(xs, i - 1);
    }
  }

  lemma Total32IsTotal(xs: seq<int32>)
    ensures Total32(xs) == TotalFrom(xs, 0, 0)
  {
    TotalFromPrefix(xs, |xs|);
    assert xs[..|xs|] == xs;
  }

  lemma TotalStep(plans: seq<int32>, i: nat, acc: int32)
    requires i < |plans|
    ensures TotalFrom(plans, i, acc) == TotalFrom(plans, i + 1, Wrap32(acc + plans[i]))
  {
  }

  /** A set-up fault: exec is skip_all, then exit code 1. */
  lemma ExecFaulted(s: State, args: seq<string>, subj: Subject)
    requires SetupFault(subj).Some?
    ensures ExecSpec(s, args, subj) == GiveUp(s, SetupFault(subj).value)
  {
  }

  /** exec with a negative first index. */
  lemma ExecNegative(s: State, args: seq<string>, subj: Subject)
    requires Ready(subj) && subj.start.n < 0
    ensures ExecSpec(s, args, subj) == Step(s, Raised(IllegalArgument(subj.start.n)))
  {
  }

  /** Repeating up to goal from below brings count to goal. */
  lemma RepeatReaches(s: State, goal: int, pass: bool, mess: string, t: State)
    requires s.count < goal && t == Repeat(s, goal - s.count, pass, mess)
    ensures t.count == goal
  {
    RepeatTally(s, goal - s.count, pass, mess);
  }

  /** One round of the dispatch loop. */
  lemma ExecFromRound(s: State, todo: seq<int>, plans: seq<int32>, subj: Subject, i: nat, allgood: bool, r: Step<()>)
    requires |plans| == |todo| && i < |todo|
    requires var died := Died(subj, todo[i], plans[i]);
      r == ExecIndex(if died then Diag(s, DiedText(todo[i])) else s, todo[i], plans[i], |todo| > 1, subj)
    ensures ExecFrom(s, todo, plans, subj, i, allgood)
         == if r.res.Raised? then Step(r.st, Raised(r.res.thrown))
            else ExecFrom(r.st, todo, plans, subj, i + 1, allgood && !Died(subj, todo[i], plans[i]))
  {
    ExecFromStep(s, todo, plans, subj, i, allgood);
  }

  /** The announcement went through and the loop raised. */
  lemma LaunchRaising(s: State, todo: seq<int>, plans: seq<int32>, subj: Subject, exitCode: bool, h: State, d: Step<int>)
    requires |plans| == |todo| && Herald(s, TotalFrom(plans, 0, 0)) == Step(h, Normal(()))
    requires var x := ExecFrom(h, todo, plans, subj, 0, true); x.res.Raised? && d == Step(x.st, Raised(x.res.thrown))
    ensures Launch(s, todo, plans, subj, exitCode) == d
  {
  }

  /** The announcement went through and the loop finished with allgood. */
  lemma LaunchRan(s: State, todo: seq<int>, plans: seq<int32>, subj: Subject, exitCode: bool, h: State, d: Step<bool>)
    requires |plans| == |todo| && Herald(s, TotalFrom(plans, 0, 0)) == Step(h, Normal(()))
    requires d == ExecFrom(h, todo, plans, subj, 0, true) && d.res.Normal?
    ensures Launch(s, todo, plans, subj, exitCode)
         == Step(d.st, Normal(if exitCode && d.res.value && d.st.fail > 0 then 1 else 0))
  {
  }

  /** A test whose instance or method is not there is abandoned. */
  lemma ExecIndexAbandoned(s: State, t: int, planet: int, many: bool, subj: Subject)
    requires !Runs(subj.cases(t))
    ensures ExecIndex(s, t, planet, many, subj) == Abandon(s, s.count + planet, many, Excuse(subj, t))
  {
    var c := subj.cases(t);
    assert !Runs(c);
  }

  /** The announcement raised. */
  lemma LaunchUnannounced(s: State, todo: seq<int>, plans: seq<int32>, subj: Subject, exitCode: bool, h: Step<()>)
    requires |plans| == |todo| && h == Herald(s, TotalFrom(plans, 0, 0)) && h.res.Raised?
    ensures Launch(s, todo, plans, subj, exitCode) == Step(h.st, Raised(h.res.thrown))
  {
  }
}

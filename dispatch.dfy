/** The dispatchers: run and runff of the stand-alone engine, which call the
    test methods of an object a factory supplies and fold what went wrong into
    the EX_* bitmask, and exec of the spliced engine, which reads the command
    line, announces the summed plan, runs each selected test on a fresh
    instance and tops the running count up to the plan.

    Reflection is replaced by input datatypes: what the factory or the
    constructor yields, whether the test method is found and may be called,
    and the test routine itself, given as the engine calls it makes and the
    way it ends. */
module Dispatch {
  import opened Text
  import opened Protocol
  import opened Ranges

  // ---------------------------------------------------------------------------
  // The EX_* flags

  /** The faults the dispatchers report: a misplanned test method (BADPLAN),
      a missing one (NOTMETH), a runtime exception (BADMETH), a static
      initializer error (BADINIT), a refused invocation (BADCALL) and a
      factory that failed (ERRINIT). */
  datatype Flag = BadPlan | NotMeth | BadMeth | BadInit | BadCall | ErrInit

  /** The EX_* constant of a flag: one bit each. */
  function Value(f: Flag): int {
    match f
    case BadPlan => 0x0001
    case NotMeth => 0x0002
    case BadMeth => 0x0004
    case BadInit => 0x0008
    case BadCall => 0x0010
    case ErrInit => 0x0020
  }

  /** Bit f of a two's complement integer: Dafny's division of a negative
      number rounds down, as an arithmetic shift does. */
  predicate HasBit(mask: int, f: Flag) {
    (mask / Value(f)) % 2 == 1
  }

  /** The bitwise OR of the constants of a set of flags; the bits are
      distinct, so it is their sum. */
  function Status(fs: set<Flag>): int {
    (if BadPlan in fs then 0x0001 else 0) + (if NotMeth in fs then 0x0002 else 0)
    + (if BadMeth in fs then 0x0004 else 0) + (if BadInit in fs then 0x0008 else 0)
    + (if BadCall in fs then 0x0010 else 0) + (if ErrInit in fs then 0x0020 else 0)
  }

  /** fatal & offense != 0 */
  predicate Trips(fatal: int, offense: set<Flag>) {
    exists f :: f in offense && HasBit(fatal, f)
  }

  // ---------------------------------------------------------------------------
  // Test routines

  /** An engine call a test routine makes: an assertion, init_subtest(id) or
      done_subtest(). */
  datatype Action = Assert(check: Check) | Enter(id: int) | Leave

  /** How a routine ends once its calls are made: it returns, or it throws;
      initializer tells an ExceptionInInitializerError from any other. */
  datatype Exit = Completed | Aborted(initializer: bool, cause: Thrown)

  datatype Routine = Routine(actions: seq<Action>, end: Exit)

  /** The done_subtest a routine reaches: that of the stand-alone engine, or
      that of the spliced engine, which asks the subject for its plan. */
  datatype Variant = Standalone | Spliced(declared: int -> int)

  /** The outcome of a step, forgetting its value. */
  function Quiet<T>(r: Step<T>): (q: Step<()>)
    ensures q.st == r.st && q.res.Raised? == r.res.Raised?
    ensures r.res.Raised? ==> q.res.thrown == r.res.thrown
  {
    Step(r.st, if r.res.Raised? then Raised(r.res.thrown) else Normal(()))
  }

  function Act(s: State, a: Action, v: Variant): Step<()> {
    match a
    case Assert(c) => Quiet(OkStep(s, c.pass, c.mess, c.trace))
    case Enter(id) => InitSubtestStep(s, id)
    case Leave =>
      Quiet(if v.Standalone? then DoneSubtestStep(s) else DoneSubtestAgainstStep(s, v.declared(s.subtest)))
  }

  /** The calls of a routine in turn, stopping at the first that raises. */
  function Perform(s: State, acts: seq<Action>, v: Variant): Step<()>
    decreases |acts|
  {
    if acts == [] then Step(s, Normal(()))
    else
      var r := Act(s, acts[0], v);
      if r.res.Raised? then r else Perform(r.st, acts[1..], v)
  }

  /** The message of an exception. The engine's own exceptions, the index
      error of ok and the tested code's exceptions have their known message;
      the failures of the reflection calls stand for the virtual machine's
      wording. */
  function Message(t: Thrown): string {
    match t
    case IndexOutOfBounds => "Index 0 out of bounds for length 0"
    case IllegalState(c) => ComplaintText(c)
    case IllegalArgument(first) => "first test cannot be negative (you gave me " + IntToString(first) + ")"
    case NullPointer => "null reference"
    case NoSuchMethod => "no such method"
    case IllegalAccess => "illegal access"
    case Fault(m) => m
  }

  /** What exec reports for a routine that threw: the message of the
      exception the invocation wraps. An ExceptionInInitializerError carries
      no message, so its class name stands in. */
  function Verdict(x: Exit): string {
    match x
    case Completed => ""
    case Aborted(initializer, cause) =>
      if initializer then "java.lang.ExceptionInInitializerError" else Message(cause)
  }

  /** The engine after the routine, and how the routine ended: an exception
      of the engine ends it as a runtime exception with that cause. */
  function Execute(s: State, r: Routine, v: Variant): (State, Exit) {
    var p := Perform(s, r.actions, v);
    if p.res.Raised? then (p.st, Aborted(false, p.res.thrown)) else (p.st, r.end)
  }

  /** Two engines that differ at most in what they have written. */
  predicate Alike(a: State, b: State) {
    a.(out := b.out, err := b.err) == b
  }

  lemma AnnounceAlike(a: State, b: State, chant: string)
    requires Alike(a, b)
    ensures Alike(Announce(a, chant), Announce(b, chant))
  {
  }

  lemma ExplainAlike(a: State, b: State, pass: bool, number: string, reasons: seq<string>, trace: bool)
    requires Alike(a, b) && (!trace || reasons != [])
    ensures Alike(Explain(a, pass, number, reasons, trace), Explain(b, pass, number, reasons, trace))
  {
  }

  lemma RecordAlike(a: State, b: State, pass: bool, todo: bool)
    requires Alike(a, b)
    ensures Alike(Record(a, pass, todo), Record(b, pass, todo))
  {
  }

  lemma AnnouncedAlike(a: State, b: State, pass: bool, mess: string)
    requires Alike(a, b)
    ensures Alike(Announced(a, pass, mess), Announced(b, pass, mess))
  {
    assert StatusNumber(a) == StatusNumber(b);
    var chant := ResultLine(pass, StatusNumber(a), SplitLines(mess));
    AnnounceAlike(a.(count := a.count + 1, subcount := a.subcount + 1), b.(count := b.count + 1, subcount := b.subcount + 1), chant);
  }

  lemma OkAlike(a: State, b: State, pass: bool, mess: string, trace: bool)
    requires Alike(a, b)
    ensures Alike(OkStep(a, pass, mess, trace).st, OkStep(b, pass, mess, trace).st)
    ensures OkStep(a, pass, mess, trace).res == OkStep(b, pass, mess, trace).res
  {
    var reasons := SplitLines(mess);
    var number := StatusNumber(a);
    assert number == StatusNumber(b);
    var na, nb := Announced(a, pass, mess), Announced(b, pass, mess);
    AnnouncedAlike(a, b, pass, mess);
    if !(trace && reasons == []) {
      ExplainAlike(na, nb, pass, number, reasons, trace);
      RecordAlike(Explain(na, pass, number, reasons, trace), Explain(nb, pass, number, reasons, trace), pass, IsTodo(reasons));
    }
  }

  lemma LeaveAlike(a: State, b: State, v: Variant)
    requires Alike(a, b)
    ensures Alike(Act(a, Leave, v).st, Act(b, Leave, v).st) && Act(a, Leave, v).res == Act(b, Leave, v).res
  {
    if a.subtesting {
      var m := if v.Standalone? then a.subplan > 0 && a.subcount != a.subplan else a.subcount != v.declared(a.subtest);
      var p := if v.Standalone? then a.subplan else v.declared(a.subtest);
      assert Act(a, Leave, v) == Quiet(CloseSubtest(a, m, p));
      assert Act(b, Leave, v) == Quiet(CloseSubtest(b, m, p));
    }
  }

  lemma ActAlike(a: State, b: State, x: Action, v: Variant)
    requires Alike(a, b)
    ensures Alike(Act(a, x, v).st, Act(b, x, v).st) && Act(a, x, v).res == Act(b, x, v).res
  {
    match x
    case Assert(c) => OkAlike(a, b, c.pass, c.mess, c.trace);
    case Enter(id) =>
    case Leave => LeaveAlike(a, b, v);
  }

  /** What a routine does to the engine does not depend on what has been
      written before it. */
  lemma {:induction false} PerformAlike(a: State, b: State, acts: seq<Action>, v: Variant)
    requires Alike(a, b)
    ensures Alike(Perform(a, acts, v).st, Perform(b, acts, v).st) && Perform(a, acts, v).res == Perform(b, acts, v).res
    decreases |acts|
  {
    if acts != [] {
      ActAlike(a, b, acts[0], v);
      PerformAlike(Act(a, acts[0], v).st, Act(b, acts[0], v).st, acts[1..], v);
    }
  }

  lemma ExecuteAlike(a: State, b: State, r: Routine, v: Variant)
    requires Alike(a, b)
    ensures Alike(Execute(a, r, v).0, Execute(b, r, v).0) && Execute(a, r, v).1 == Execute(b, r, v).1
  {
    PerformAlike(a, b, r.actions, v);
  }

  /** No engine call lowers the count. */
  lemma {:induction false} PerformCounts(s: State, acts: seq<Action>, v: Variant)
    ensures Perform(s, acts, v).st.count >= s.count
    decreases |acts|
  {
    if acts != [] {
      var r := Act(s, acts[0], v);
      assert r.st.count >= s.count;
      if r.res.Normal? {
        PerformCounts(r.st, acts[1..], v);
      }
    }
  }

  /** A routine made only of assertions does what the assertions do. */
  lemma {:induction false} PerformAssertions(s: State, cs: seq<Check>, v: Variant)
    ensures var acts := seq(|cs|, i requires 0 <= i < |cs| => Assert(cs[i]));
      Perform(s, acts, v).st == Assertions(s, cs).st
      && Perform(s, acts, v).res.Raised? == Assertions(s, cs).res.Raised?
    decreases |cs|
  {
    var acts := seq(|cs|, i requires 0 <= i < |cs| => Assert(cs[i]));
    if cs != [] {
      var tail := seq(|cs[1..]|, i requires 0 <= i < |cs[1..]| => Assert(cs[1..][i]));
      assert acts[0] == Assert(cs[0]);
      assert acts[1..] == tail;
      var r := OkStep(s, cs[0].pass, cs[0].mess, cs[0].trace);
      if r.res.Normal? {
        PerformAssertions(r.st, cs[1..], v);
      }
    }
  }


  /** Each constant has its own bit and no other of the six. */
  lemma ValueBits(f: Flag, g: Flag)
    ensures HasBit(Value(f), g) <==> f == g
  {
  }

  /** The status has bit f exactly when f is in the set: it is the OR of the
      constants of the set, and tells the set back. */
  lemma StatusBits(fs: set<Flag>, f: Flag)
    ensures HasBit(Status(fs), f) <==> f in fs
    ensures 0 <= Status(fs) < 0x0040
  {
    var b0, b1, b2 := if BadPlan in fs then 1 else 0, if NotMeth in fs then 1 else 0, if BadMeth in fs then 1 else 0;
    var b3, b4, b5 := if BadInit in fs then 1 else 0, if BadCall in fs then 1 else 0, if ErrInit in fs then 1 else 0;
    assert Status(fs) == b0 + 2 * b1 + 4 * b2 + 8 * b3 + 16 * b4 + 32 * b5;
    BinaryDigits(b0, b1, b2, b3, b4, b5);
  }

  /** Six binary digits read back from the number they make. */
  lemma BinaryDigits(b0: int, b1: int, b2: int, b3: int, b4: int, b5: int)
    requires 0 <= b0 <= 1 && 0 <= b1 <= 1 && 0 <= b2 <= 1 && 0 <= b3 <= 1 && 0 <= b4 <= 1 && 0 <= b5 <= 1
    ensures var x := b0 + 2 * b1 + 4 * b2 + 8 * b3 + 16 * b4 + 32 * b5;
      0 <= x < 0x0040 && (x / 1) % 2 == b0 && (x / 2) % 2 == b1 && (x / 4) % 2 == b2
      && (x / 8) % 2 == b3 && (x / 16) % 2 == b4 && (x / 32) % 2 == b5
  {
    var x := b0 + 2 * b1 + 4 * b2 + 8 * b3 + 16 * b4 + 32 * b5;
    assert x / 2 == b1 + 2 * b2 + 4 * b3 + 8 * b4 + 16 * b5;
    assert x / 4 == b2 + 2 * b3 + 4 * b4 + 8 * b5;
    assert x / 8 == b3 + 2 * b4 + 4 * b5;
    assert x / 16 == b4 + 2 * b5;
    assert x / 32 == b5;
  }

  lemma StatusInjective(a: set<Flag>, b: set<Flag>)
    ensures Status(a) == Status(b) <==> a == b
  {
    if Status(a) == Status(b) {
      forall f: Flag ensures f in a <==> f in b {
        StatusBits(a, f);
        StatusBits(b, f);
      }
    }
  }

  lemma TripsUnion(fatal: int, a: set<Flag>, b: set<Flag>)
    ensures Trips(fatal, a + b) <==> Trips(fatal, a) || Trips(fatal, b)
  {
  }

  // ---------------------------------------------------------------------------
  // run and runff

  /** What the factory yields: it throws (with the message of its
      exception), it returns null, or an object of the named class. */
  datatype Creation = Throws(message: string) | Null | Obj(className: string)

  /** The test method: found and callable, not found, or found and refusing
      the call (an illegal access or argument). */
  datatype Lookup = Found | Missing | Inaccessible

  /** One index as run and runff meet it. */
  datatype Trial = Trial(creation: Creation, lookup: Lookup, routine: Routine)

  function Label(t: int): string {
    "test" + IntToString(t)
  }

  function FaultFlag(initializer: bool): Flag {
    if initializer then BadInit else BadMeth
  }

  function FaultText(initializer: bool): string {
    if initializer then ": static initializer error" else ": runtime exception/error"
  }

  function RanOffPlanText(name: string, planet: int, count: int): string {
    name + " planned to run " + IntToString(planet) + " test" + Plural(planet) + ", but ran " + IntToString(count) + " instead."
  }

  /** The engine run hands to a test method: fresh, writing on the host's
      streams, with the index's plan as its subplan. */
  function Child(s: State, planet: int): State {
    Fresh(s.out, s.err).(subplan := planet)
  }

  /** The host once the test method has returned or thrown: it writes on
      from where the child left the streams, and reports a throw. */
  function Rejoin(s: State, name: string, e: (State, Exit)): State {
    var s1 := s.(out := e.0.out, err := e.0.err);
    if e.1.Aborted? then Diag(s1, name + FaultText(e.1.initializer)) else s1
  }

  /** The complaint when the child did not run its subplan. */
  function Complain(s: State, name: string, planet: int, ran: int): State {
    if ran != planet then Diag(s, RanOffPlanText(name, planet, ran)) else s
  }

  /** The child's count added to the host's, and the host's fail
      overwritten by the child's. */
  function Tally(s: State, child: State): State {
    s.(count := s.count + child.count, fail := child.fail)
  }

  function Adopt(s: State, name: string, planet: int, child: State): State {
    Tally(Complain(s, name, planet, child.count), child)
  }

  function ExitFlags(x: Exit): set<Flag> {
    if x.Aborted? then {FaultFlag(x.initializer)} else {}
  }

  /** One index of run: the new host and the flags it ORs in. */
  function RunIndex(s: State, t: int, planet: int, trial: Trial): (State, set<Flag>) {
    var name := Label(t);
    match trial.creation
    case Throws(_) => (Diag(s, name + ": construction failed"), {ErrInit})
    case Null => (Diag(s, name + ": constructor returned null"), {ErrInit})
    case Obj(_) =>
      if trial.lookup.Missing? then (Diag(s, name + ": method not found"), {NotMeth})
      else if trial.lookup.Inaccessible? then (Diag(s, name + ": invocation error"), {BadCall})
      else
        var e := Execute(Child(s, planet), trial.routine, Standalone);
        (Adopt(Rejoin(s, name, e), name, planet, e.0), ExitFlags(e.1) + {BadPlan})
  }

  function RunFrom(s: State, todo: seq<int>, plan: seq<int>, trials: seq<Trial>, i: nat, offense: set<Flag>): (State, set<Flag>)
    requires |plan| == |todo| == |trials| && i <= |todo|
    decreases |todo| - i
  {
    if i == |todo| then (s, offense)
    else
      var r := RunIndex(s, todo[i], plan[i], trials[i]);
      RunFrom(r.0, todo, plan, trials, i + 1, offense + r.1)
  }

  /** run(todo, plan, factory): the host afterwards and the EX_* status;
      trials[i] is what the factory and the lookup of index todo[i] yield. */
  function Run(s: State, todo: seq<int>, plan: seq<int>, trials: seq<Trial>): (State, int)
    requires |plan| == |todo| == |trials|
  {
    var r := RunFrom(s, todo, plan, trials, 0, {});
    (r.0, Status(r.1))
  }

  // The run, stated index by index

  /** The child as it would run on empty streams. */
  function Solo(planet: int, r: Routine): (State, Exit) {
    Execute(Fresh([], []).(subplan := planet), r, Standalone)
  }

  /** The test method was found on the object and invoked. */
  predicate Reaches(trial: Trial) {
    trial.creation.Obj? && trial.lookup.Found?
  }

  /** The flags one index contributes: ERRINIT for a factory that throws or
      returns null, NOTMETH for a missing method, BADCALL for a refused call,
      and otherwise BADPLAN along with BADINIT or BADMETH when the method
      threw. */
  function IndexFlags(planet: int, trial: Trial): set<Flag> {
    match trial.creation
    case Throws(_) => {ErrInit}
    case Null => {ErrInit}
    case Obj(_) =>
      match trial.lookup
      case Missing => {NotMeth}
      case Inaccessible => {BadCall}
      case Found => ExitFlags(Solo(planet, trial.routine).1) + {BadPlan}
  }

  function AllFlags(plan: seq<int>, trials: seq<Trial>, i: nat): set<Flag>
    requires |plan| == |trials| && i <= |trials|
    decreases |trials| - i
  {
    if i == |trials| then {} else IndexFlags(plan[i], trials[i]) + AllFlags(plan, trials, i + 1)
  }

  /** The assertions the reached test methods ran. */
  function Ran(plan: seq<int>, trials: seq<Trial>, i: nat): int
    requires |plan| == |trials| && i <= |trials|
    decreases |trials| - i
  {
    if i == |trials| then 0
    else (if Reaches(trials[i]) then Solo(plan[i], trials[i].routine).0.count else 0) + Ran(plan, trials, i + 1)
  }

  /** The fail tally of the last reached test method, or f when none is. */
  function LastFail(plan: seq<int>, trials: seq<Trial>, i: nat, f: int): int
    requires |plan| == |trials| && i <= |trials|
    decreases |trials| - i
  {
    if i == |trials| then f
    else LastFail(plan, trials, i + 1, if Reaches(trials[i]) then Solo(plan[i], trials[i].routine).0.fail else f)
  }

  lemma ChildAlike(s: State, planet: int, r: Routine)
    ensures Alike(Execute(Child(s, planet), r, Standalone).0, Solo(planet, r).0)
    ensures Execute(Child(s, planet), r, Standalone).1 == Solo(planet, r).1
  {
    ExecuteAlike(Child(s, planet), Fresh([], []).(subplan := planet), r, Standalone);
  }

  /** Which flag says what: ERRINIT that the factory failed, NOTMETH that the
      method is missing, BADCALL that the call was refused, BADPLAN that the
      method was invoked, BADINIT or BADMETH that it threw, and which. */
  lemma IndexFlagsMeaning(planet: int, trial: Trial)
    ensures var fs := IndexFlags(planet, trial); var x := Solo(planet, trial.routine).1;
      (ErrInit in fs <==> !trial.creation.Obj?)
      && (NotMeth in fs <==> trial.creation.Obj? && trial.lookup.Missing?)
      && (BadCall in fs <==> trial.creation.Obj? && trial.lookup.Inaccessible?)
      && (BadPlan in fs <==> Reaches(trial))
      && (BadInit in fs <==> Reaches(trial) && x.Aborted? && x.initializer)
      && (BadMeth in fs <==> Reaches(trial) && x.Aborted? && !x.initializer)
      && |fs| <= 2
  {
  }

  /** One index of run: it contributes IndexFlags; an index whose method is
      not reached only writes on standard error; a reached one adds the
      child's count and overwrites fail with the child's; the plan and the
      rest of the host stay. */
  lemma RunIndexFacts(s: State, t: int, planet: int, trial: Trial)
    ensures var r := RunIndex(s, t, planet, trial);
      r.1 == IndexFlags(planet, trial)
      && r.0 == s.(count := r.0.count, fail := r.0.fail, out := r.0.out, err := r.0.err)
      && (!Reaches(trial) ==> r.0 == s.(err := r.0.err))
      && (Reaches(trial) ==>
            r.0.count == s.count + Solo(planet, trial.routine).0.count && r.0.fail == Solo(planet, trial.routine).0.fail)
  {
    if Reaches(trial) {
      RunIndexReached(s, t, planet, trial);
      assert IndexFlags(planet, trial) == ExitFlags(Solo(planet, trial.routine).1) + {BadPlan};
    } else {
      RunIndexUnreached(s, t, planet, trial);
    }
  }

  lemma RunIndexUnreached(s: State, t: int, planet: int, trial: Trial)
    requires !Reaches(trial)
    ensures var r := RunIndex(s, t, planet, trial);
      r.1 == IndexFlags(planet, trial) && r.0 == s.(err := r.0.err)
  {
    var name := Label(t);
    match trial.creation
    case Throws(_) =>
      assert RunIndex(s, t, planet, trial) == (Diag(s, name + ": construction failed"), {ErrInit});
    case Null =>
      assert RunIndex(s, t, planet, trial) == (Diag(s, name + ": constructor returned null"), {ErrInit});
    case Obj(_) =>
      if trial.lookup.Missing? {
        assert RunIndex(s, t, planet, trial) == (Diag(s, name + ": method not found"), {NotMeth});
      } else {
        assert RunIndex(s, t, planet, trial) == (Diag(s, name + ": invocation error"), {BadCall});
      }
  }

  lemma RunIndexReached(s: State, t: int, planet: int, trial: Trial)
    requires Reaches(trial)
    ensures var r := RunIndex(s, t, planet, trial); var solo := Solo(planet, trial.routine);
      r.1 == ExitFlags(solo.1) + {BadPlan}
      && r.0 == s.(count := s.count + solo.0.count, fail := solo.0.fail, out := r.0.out, err := r.0.err)
  {
    var name := Label(t);
    var e := Execute(Child(s, planet), trial.routine, Standalone);
    assert RunIndex(s, t, planet, trial) == (Adopt(Rejoin(s, name, e), name, planet, e.0), ExitFlags(e.1) + {BadPlan});
    ChildAlike(s, planet, trial.routine);
  }

  lemma RunFromStep(s: State, todo: seq<int>, plan: seq<int>, trials: seq<Trial>, i: nat, offense: set<Flag>)
    requires |plan| == |todo| == |trials| && i < |todo|
    ensures var q := RunIndex(s, todo[i], plan[i], trials[i]);
      RunFrom(s, todo, plan, trials, i, offense) == RunFrom(q.0, todo, plan, trials, i + 1, offense + q.1)
  {
  }

  lemma AllFlagsStep(plan: seq<int>, trials: seq<Trial>, i: nat)
    requires |plan| == |trials| && i < |trials|
    ensures AllFlags(plan, trials, i) == IndexFlags(plan[i], trials[i]) + AllFlags(plan, trials, i + 1)
  {
  }

  lemma RanStep(plan: seq<int>, trials: seq<Trial>, i: nat)
    requires |plan| == |trials| && i < |trials|
    ensures Ran(plan, trials, i)
         == (if Reaches(trials[i]) then Solo(plan[i], trials[i].routine).0.count else 0) + Ran(plan, trials, i + 1)
  {
  }

  lemma LastFailStep(plan: seq<int>, trials: seq<Trial>, i: nat, f: int)
    requires |plan| == |trials| && i < |trials|
    ensures LastFail(plan, trials, i, f)
         == LastFail(plan, trials, i + 1, if Reaches(trials[i]) then Solo(plan[i], trials[i].routine).0.fail else f)
  {
  }

  /** run from index i on, with offense already gathered: the flags are
      offense and those of every index. */
  lemma {:induction false} RunFlags(s: State, todo: seq<int>, plan: seq<int>, trials: seq<Trial>, i: nat, offense: set<Flag>)
    requires |plan| == |todo| == |trials| && i <= |todo|
    ensures RunFrom(s, todo, plan, trials, i, offense).1 == offense + AllFlags(plan, trials, i)
    decreases |todo| - i
  {
    if i < |todo| {
      var q := RunIndex(s, todo[i], plan[i], trials[i]);
      RunIndexFacts(s, todo[i], plan[i], trials[i]);
      RunFlags(q.0, todo, plan, trials, i + 1, offense + q.1);
      AllFlagsStep(plan, trials, i);
      RunFromStep(s, todo, plan, trials, i, offense);
    }
  }

  /** run from index i on: count grows by what the reached methods ran; fail
      is that of the last reached method; nothing else of the host but its
      streams changes. */
  lemma {:induction false} RunTotals(s: State, todo: seq<int>, plan: seq<int>, trials: seq<Trial>, i: nat, offense: set<Flag>)
    requires |plan| == |todo| == |trials| && i <= |todo|
    ensures var r := RunFrom(s, todo, plan, trials, i, offense).0;
      r.count == s.count + Ran(plan, trials, i)
      && r.fail == LastFail(plan, trials, i, s.fail)
      && r == s.(count := r.count, fail := r.fail, out := r.out, err := r.err)
    decreases |todo| - i
  {
    if i < |todo| {
      var q := RunIndex(s, todo[i], plan[i], trials[i]);
      RunIndexFacts(s, todo[i], plan[i], trials[i]);
      RunTotals(q.0, todo, plan, trials, i + 1, offense + q.1);
      RanStep(plan, trials, i);
      LastFailStep(plan, trials, i, s.fail);
      RunFromStep(s, todo, plan, trials, i, offense);
    }
  }

  /** A flag is in the gathered set exactly when some index contributes it. */
  lemma {:induction false} AllFlagsHas(plan: seq<int>, trials: seq<Trial>, i: nat, f: Flag)
    requires |plan| == |trials| && i <= |trials|
    ensures f in AllFlags(plan, trials, i) <==> exists j :: i <= j < |trials| && f in IndexFlags(plan[j], trials[j])
    decreases |trials| - i
  {
    if i < |trials| {
      var here := IndexFlags(plan[i], trials[i]);
      AllFlagsHas(plan, trials, i + 1, f);
      AllFlagsStep(plan, trials, i);
      if f in here {
        assert i <= i < |trials| && f in IndexFlags(plan[i], trials[i]);
      } else {
        assert f in AllFlags(plan, trials, i) <==> f in AllFlags(plan, trials, i + 1);
        forall j | i <= j < |trials| && f in IndexFlags(plan[j], trials[j]) ensures i + 1 <= j {
        }
      }
    }
  }

  /** run's status: bit f is set exactly when some index contributes f; in
      particular BADPLAN is set exactly when some test method was reached,
      whether or not it kept to its plan. The rest of the host but count,
      fail and the streams stays. */
  lemma RunStatus(s: State, todo: seq<int>, plan: seq<int>, trials: seq<Trial>, f: Flag)
    requires |plan| == |todo| == |trials|
    ensures var r := Run(s, todo, plan, trials);
      (HasBit(r.1, f) <==> exists j :: 0 <= j < |todo| && f in IndexFlags(plan[j], trials[j]))
      && (HasBit(r.1, BadPlan) <==> exists j :: 0 <= j < |todo| && Reaches(trials[j]))
      && r.0.count == s.count + Ran(plan, trials, 0)
      && r.0 == s.(count := r.0.count, fail := r.0.fail, out := r.0.out, err := r.0.err)
  {
    var fs := RunFrom(s, todo, plan, trials, 0, {}).1;
    RunFlags(s, todo, plan, trials, 0, {});
    assert fs == AllFlags(plan, trials, 0);
    StatusBits(fs, f);
    StatusBits(fs, BadPlan);
    AllFlagsHas(plan, trials, 0, f);
    AllFlagsHas(plan, trials, 0, BadPlan);
    forall j | 0 <= j < |todo| ensures BadPlan in IndexFlags(plan[j], trials[j]) <==> Reaches(trials[j]) {
      IndexFlagsMeaning(plan[j], trials[j]);
    }
    RunTotals(s, todo, plan, trials, 0, {});
  }

  // runff

  /** One index of runff: the host afterwards and either the flags gathered
      so far or the exception it lets through. A fault site throws when the
      gathered flags meet fatal. When ERRINIT is not fatal, the index stops
      right after the factory call, whatever it yielded; when it is, a null
      object fails at its first use. */
  function RunFFIndex(s: State, t: int, planet: int, trial: Trial, fatal: int, offense: set<Flag>): Step<set<Flag>> {
    var name := Label(t);
    if trial.creation.Throws? then
      var o := offense + {ErrInit};
      Step(Diag(s, name + ": construction failed"), if Trips(fatal, o) then Raised(Fault(trial.creation.message)) else Normal(o))
    else if !HasBit(fatal, ErrInit) then
      if trial.creation.Null? then Step(Diag(s, name + ": constructor returned null"), Normal(offense + {ErrInit}))
      else Step(s, Normal(offense))
    else if trial.creation.Null? then Step(s, Raised(NullPointer))
    else if trial.lookup.Missing? then
      var o := offense + {NotMeth};
      Step(Diag(s, name + ": method not found in " + trial.creation.className), if Trips(fatal, o) then Raised(NoSuchMethod) else Normal(o))
    else if trial.lookup.Inaccessible? then
      var o := offense + {BadCall};
      Step(Diag(s, name + ": invocation error"), if Trips(fatal, o) then Raised(IllegalAccess) else Normal(o))
    else
      var e := Execute(Child(s, planet), trial.routine, Standalone);
      Settle(Rejoin(s, name, e), name, planet, e, fatal, offense + ExitFlags(e.1))
  }

  /** The end of a reached index of runff: the method's exception goes
      through if fatal, and then BADPLAN is checked, which throws an
      IllegalStateException if fatal. */
  function Settle(s: State, name: string, planet: int, e: (State, Exit), fatal: int, offense: set<Flag>): Step<set<Flag>> {
    if e.1.Aborted? && Trips(fatal, offense) then Step(s, Raised(e.1.cause))
    else
      var s1 := Complain(s, name, planet, e.0.count);
      var o := offense + {BadPlan};
      if Trips(fatal, o) then Step(s1, Raised(IllegalState(Foiled(name)))) else Step(Tally(s1, e.0), Normal(o))
  }

  function RunFFFrom(s: State, todo: seq<int>, plan: seq<int>, trials: seq<Trial>, fatal: int, i: nat, offense: set<Flag>): Step<set<Flag>>
    requires |plan| == |todo| == |trials| && i <= |todo|
    decreases |todo| - i
  {
    if i == |todo| then Step(s, Normal(offense))
    else
      var r := RunFFIndex(s, todo[i], plan[i], trials[i], fatal, offense);
      if r.res.Raised? then r else RunFFFrom(r.st, todo, plan, trials, fatal, i + 1, r.res.value)
  }

  /** runff(todo, plan, factory, fatal): the host afterwards and the EX_*
      status, or the exception that escaped. */
  function RunFF(s: State, todo: seq<int>, plan: seq<int>, trials: seq<Trial>, fatal: int): Step<int>
    requires |plan| == |todo| == |trials|
  {
    var r := RunFFFrom(s, todo, plan, trials, fatal, 0, {});
    Step(r.st, if r.res.Raised? then Raised(r.res.thrown) else Normal(Status(r.res.value)))
  }

  /** An index at which strict runff stops: a null object, or a flag of the
      index that is fatal. */
  predicate Halts(fatal: int, planet: int, trial: Trial) {
    trial.creation.Null? || Trips(fatal, IndexFlags(planet, trial))
  }

  /** Some index from i on yields no object. */
  predicate SomeUncreated(trials: seq<Trial>, i: nat) {
    exists j :: i <= j < |trials| && !trials[j].creation.Obj?
  }

  /** An index of runff when ERRINIT is not fatal and nothing fatal was met
      before: it never throws and only writes on standard error, adding
      ERRINIT when the factory failed. */
  lemma RunFFIndexLenient(s: State, t: int, planet: int, trial: Trial, fatal: int, offense: set<Flag>)
    requires !HasBit(fatal, ErrInit) && !Trips(fatal, offense)
    ensures var r := RunFFIndex(s, t, planet, trial, fatal, offense);
      r.res == Normal(offense + (if trial.creation.Obj? then {} else {ErrInit})) && r.st == s.(err := r.st.err)
  {
    TripsUnion(fatal, offense, {ErrInit});
    assert !Trips(fatal, {ErrInit});
    var name := Label(t);
    if trial.creation.Throws? {
      assert RunFFIndex(s, t, planet, trial, fatal, offense) == Step(Diag(s, name + ": construction failed"), Normal(offense + {ErrInit}));
    } else if trial.creation.Null? {
      assert RunFFIndex(s, t, planet, trial, fatal, offense) == Step(Diag(s, name + ": constructor returned null"), Normal(offense + {ErrInit}));
    } else {
      assert RunFFIndex(s, t, planet, trial, fatal, offense) == Step(s, Normal(offense));
      assert offense + {} == offense;
    }
  }

  lemma {:induction false} RunFFFromLenient(s: State, todo: seq<int>, plan: seq<int>, trials: seq<Trial>, fatal: int, i: nat, offense: set<Flag>)
    requires |plan| == |todo| == |trials| && i <= |todo|
    requires !HasBit(fatal, ErrInit) && !Trips(fatal, offense)
    ensures var r := RunFFFrom(s, todo, plan, trials, fatal, i, offense);
      r.res == Normal(offense + (if SomeUncreated(trials, i) then {ErrInit} else {})) && r.st == s.(err := r.st.err)
    decreases |todo| - i
  {
    if i < |todo| {
      var q := RunFFIndex(s, todo[i], plan[i], trials[i], fatal, offense);
      RunFFFromStep(s, todo, plan, trials, fatal, i, offense);
      RunFFIndexLenient(s, todo[i], plan[i], trials[i], fatal, offense);
      TripsUnion(fatal, offense, {ErrInit});
      RunFFFromLenient(q.st, todo, plan, trials, fatal, i + 1, q.res.value);
      if SomeUncreated(trials, i + 1) {
        var j :| i + 1 <= j < |trials| && !trials[j].creation.Obj?;
        assert SomeUncreated(trials, i);
      } else if trials[i].creation.Obj? {
        assert !SomeUncreated(trials, i);
      } else {
        assert i <= i < |trials| && !trials[i].creation.Obj?;
        assert SomeUncreated(trials, i);
        assert (offense + {ErrInit}) + {} == offense + {ErrInit};
      }
    } else {
      assert offense + {} == offense;
    }
  }

  /** A reached index of strict runff: it throws exactly when a flag of the
      index is fatal, and otherwise does what run does. */
  lemma RunFFIndexReached(s: State, t: int, planet: int, trial: Trial, fatal: int, offense: set<Flag>)
    requires Reaches(trial) && HasBit(fatal, ErrInit) && !Trips(fatal, offense)
    ensures var r := RunFFIndex(s, t, planet, trial, fatal, offense); var solo := Solo(planet, trial.routine);
      (r.res.Raised? <==> Trips(fatal, IndexFlags(planet, trial)))
      && (r.res.Normal? ==>
            r.res.value == offense + IndexFlags(planet, trial)
            && r.st == s.(count := s.count + solo.0.count, fail := solo.0.fail, out := r.st.out, err := r.st.err))
  {
    var name := Label(t);
    var e := Execute(Child(s, planet), trial.routine, Standalone);
    var o := offense + ExitFlags(e.1);
    assert RunFFIndex(s, t, planet, trial, fatal, offense) == Settle(Rejoin(s, name, e), name, planet, e, fatal, o);
    ChildAlike(s, planet, trial.routine);
    assert IndexFlags(planet, trial) == ExitFlags(e.1) + {BadPlan};
    TripsUnion(fatal, offense, ExitFlags(e.1));
    TripsUnion(fatal, o, {BadPlan});
    TripsUnion(fatal, ExitFlags(e.1), {BadPlan});
  }

  /** An index of strict runff that is not reached: a null object throws a
      NullPointerException, and any other fault throws exactly when its flag
      is fatal; otherwise the index only writes on standard error. */
  lemma RunFFIndexUnreached(s: State, t: int, planet: int, trial: Trial, fatal: int, offense: set<Flag>)
    requires !Reaches(trial) && HasBit(fatal, ErrInit) && !Trips(fatal, offense)
    ensures var r := RunFFIndex(s, t, planet, trial, fatal, offense);
      (r.res.Raised? <==> Halts(fatal, planet, trial))
      && (trial.creation.Null? ==> r == Step(s, Raised(NullPointer)))
      && (r.res.Normal? ==> r.res.value == offense + IndexFlags(planet, trial) && r.st == s.(err := r.st.err))
  {
    var fs := IndexFlags(planet, trial);
    TripsUnion(fatal, offense, fs);
    if trial.creation.Throws? {
      assert fs == {ErrInit};
      assert HasBit(fatal, ErrInit) && ErrInit in fs;
    } else if trial.creation.Obj? && trial.lookup.Missing? {
      assert fs == {NotMeth};
    } else if trial.creation.Obj? {
      assert fs == {BadCall};
    }
  }

  lemma RunFFFromStep(s: State, todo: seq<int>, plan: seq<int>, trials: seq<Trial>, fatal: int, i: nat, offense: set<Flag>)
    requires |plan| == |todo| == |trials| && i < |todo|
    ensures var q := RunFFIndex(s, todo[i], plan[i], trials[i], fatal, offense);
      RunFFFrom(s, todo, plan, trials, fatal, i, offense)
      == if q.res.Raised? then q else RunFFFrom(q.st, todo, plan, trials, fatal, i + 1, q.res.value)
  {
  }

  /** One index of strict runff, whatever it reaches: it throws exactly when
      the index halts it; otherwise it adds the index's flags, none of them
      fatal, and moves the host's count and fail as run does. */
  lemma RunFFIndexStrict(s: State, t: int, planet: int, trial: Trial, fatal: int, offense: set<Flag>)
    requires HasBit(fatal, ErrInit) && !Trips(fatal, offense)
    ensures var r := RunFFIndex(s, t, planet, trial, fatal, offense); var solo := Solo(planet, trial.routine);
      (r.res.Raised? <==> Halts(fatal, planet, trial))
      && (r.res.Normal? ==>
            r.res.value == offense + IndexFlags(planet, trial) && !Trips(fatal, r.res.value)
            && r.st == s.(count := s.count + (if Reaches(trial) then solo.0.count else 0),
                          fail := if Reaches(trial) then solo.0.fail else s.fail,
                          out := r.st.out, err := r.st.err))
  {
    TripsUnion(fatal, offense, IndexFlags(planet, trial));
    if Reaches(trial) {
      RunFFIndexReached(s, t, planet, trial, fatal, offense);
    } else {
      RunFFIndexUnreached(s, t, planet, trial, fatal, offense);
    }
  }

  /** Strict runff from index i on, with no fatal flag met yet: it throws
      exactly when some index halts it, and when it returns it has gathered
      the flags run gathers, none of them fatal, and changed the host's
      counters as run does. */
  lemma {:induction false} RunFFFromStrict(s: State, todo: seq<int>, plan: seq<int>, trials: seq<Trial>, fatal: int, i: nat, offense: set<Flag>)
    requires |plan| == |todo| == |trials| && i <= |todo|
    requires HasBit(fatal, ErrInit) && !Trips(fatal, offense)
    ensures var r := RunFFFrom(s, todo, plan, trials, fatal, i, offense);
      (r.res.Raised? <==> exists j :: i <= j < |todo| && Halts(fatal, plan[j], trials[j]))
      && (r.res.Normal? ==>
            r.res.value == offense + AllFlags(plan, trials, i) && !Trips(fatal, r.res.value)
            && r.st == s.(count := s.count + Ran(plan, trials, i), fail := LastFail(plan, trials, i, s.fail), out := r.st.out, err := r.st.err))
    decreases |todo| - i
  {
    if i < |todo| {
      var q := RunFFIndex(s, todo[i], plan[i], trials[i], fatal, offense);
      RunFFIndexStrict(s, todo[i], plan[i], trials[i], fatal, offense);
      if q.res.Raised? {
        RunFFFromStep(s, todo, plan, trials, fatal, i, offense);
      } else {
        RunFFFromStrict(q.st, todo, plan, trials, fatal, i + 1, q.res.value);
        if exists j :: i <= j < |todo| && Halts(fatal, plan[j], trials[j]) {
          var j :| i <= j < |todo| && Halts(fatal, plan[j], trials[j]);
          assert i + 1 <= j;
        }
        AllFlagsStep(plan, trials, i);
        RanStep(plan, trials, i);
        LastFailStep(plan, trials, i, s.fail);
        RunFFFromStep(s, todo, plan, trials, fatal, i, offense);
      }
    }
  }

  /** runff against run: with ERRINIT not fatal and nothing else fatal it
      returns at once, having only reported the factories that failed (with
      ERRINIT) and run no test method; with ERRINIT fatal it throws exactly
      when an index halts it, and otherwise returns run's status and leaves
      the host's counters as run does. */
  lemma RunFFResult(s: State, todo: seq<int>, plan: seq<int>, trials: seq<Trial>, fatal: int)
    requires |plan| == |todo| == |trials|
    ensures var r := RunFF(s, todo, plan, trials, fatal); var q := Run(s, todo, plan, trials);
      (!HasBit(fatal, ErrInit) ==>
         r.res == Normal(if SomeUncreated(trials, 0) then Value(ErrInit) else 0) && r.st == s.(err := r.st.err))
      && (HasBit(fatal, ErrInit) ==>
            (r.res.Raised? <==> exists j :: 0 <= j < |todo| && Halts(fatal, plan[j], trials[j]))
            && (r.res.Normal? ==> r.res.value == q.1 && Alike(r.st, q.0)))
  {
    assert !Trips(fatal, {});
    if HasBit(fatal, ErrInit) {
      RunFFFromStrict(s, todo, plan, trials, fatal, 0, {});
      RunFlags(s, todo, plan, trials, 0, {});
      RunTotals(s, todo, plan, trials, 0, {});
    } else {
      RunFFFromLenient(s, todo, plan, trials, fatal, 0, {});
    }
  }
}

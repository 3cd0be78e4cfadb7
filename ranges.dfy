/** The command-line range selector of parse_cmd and of exec: options pick
    include or exclude colour, each "A..B" token becomes a range shifted by
    offset = start - 1 and bounds-checked against avail, the colour of a range
    is kept as the sign of its two stored bounds, and each index 1..avail is
    decided by the last range that covers it. */
module Ranges {
  import opened Text
  import opened Protocol

  /** A range in shifted coordinates (1 is the first test) and its colour. */
  datatype Range = Range(lo: int, hi: int, including: bool)

  /** How the option loop ends: at -h/--help, at a token it rejects, or after
      the last argument with the ranges read and the two exec switches. */
  datatype Reading = Asked | Malformed | Parsed(ranges: seq<Range>, trace: bool, exitCode: bool)

  /** Every stored range starts at 1 or later, as the reader guarantees; this
      is what makes the sign of the lower bound carry the colour. */
  predicate WellFormed(rs: seq<Range>) {
    forall i :: 0 <= i < |rs| ==> rs[i].lo >= 1
  }

  // ---------------------------------------------------------------------------
  // Reading the arguments

  /** One "A..B" token: exactly two operands, each an int, begin - offset in
      [1, avail] and end - offset in [begin - 1, avail], the subtractions
      wrapping as Java int arithmetic does. */
  function ReadRange(arg: string, offset: int32, avail: int32, including: bool): (r: Option<Range>)
    ensures r.Some? ==> 1 <= r.value.lo <= avail && r.value.lo - 1 <= r.value.hi <= avail && r.value.including == including
  {
    var ops := SplitDots(arg);
    if |ops| != 2 then None
    else match ParseInt(ops[0])
      case None => None
      case Some(b) =>
        var begin := Wrap32(b - offset);
        if begin < 1 || begin > avail then None
        else match ParseInt(ops[1])
          case None => None
          case Some(e) =>
            var end := Wrap32(e - offset);
            if end < begin - 1 || end > avail then None else Some(Range(begin, end, including))
  }

  predicate IsHelp(a: string) { a == "-h" || a == "--help" }
  predicate IsExclude(a: string) { a == "-x" || a == "--exclude" }
  predicate IsInclude(a: string) { a == "-i" || a == "--include" }
  predicate IsTrace(a: string) { a == "-t" || a == "--trace" }
  predicate IsExitCode(a: string) { a == "-e" || a == "--exit-code" }

  /** The option loop from argument i on; embedded adds exec's -t and -e. */
  function ReadFrom(args: seq<string>, i: nat, offset: int32, avail: int32, embedded: bool,
                    including: bool, acc: seq<Range>, trace: bool, exitCode: bool): (r: Reading)
    requires i <= |args|
    ensures r.Parsed? && WellFormed(acc) ==> WellFormed(r.ranges) && |r.ranges| <= |acc| + |args| - i
    decreases |args| - i
  {
    if i == |args| then Parsed(acc, trace, exitCode)
    else
      var a := args[i];
      if IsHelp(a) then Asked
      else if embedded && IsTrace(a) then ReadFrom(args, i + 1, offset, avail, embedded, including, acc, true, exitCode)
      else if embedded && IsExitCode(a) then ReadFrom(args, i + 1, offset, avail, embedded, including, acc, trace, true)
      else if IsExclude(a) then ReadFrom(args, i + 1, offset, avail, embedded, false, acc, trace, exitCode)
      else if IsInclude(a) then ReadFrom(args, i + 1, offset, avail, embedded, true, acc, trace, exitCode)
      else match ReadRange(a, offset, avail, including)
        case None => Malformed
        case Some(r) => ReadFrom(args, i + 1, offset, avail, embedded, including, acc + [r], trace, exitCode)
  }

  function ReadArgs(args: seq<string>, offset: int32, avail: int32, embedded: bool): (r: Reading)
    ensures r.Parsed? ==> WellFormed(r.ranges) && |r.ranges| <= |args|
  {
    ReadFrom(args, 0, offset, avail, embedded, true, [], false, false)
  }

  // ---------------------------------------------------------------------------
  // The sign encoding of rangeLo and rangeHi

  function EncodeBound(x: int, including: bool): int {
    if including then x else -x
  }

  function EncodeLo(rs: seq<Range>): (lo: seq<int>)
    ensures |lo| == |rs|
  {
    seq(|rs|, i requires 0 <= i < |rs| => EncodeBound(rs[i].lo, rs[i].including))
  }

  function EncodeHi(rs: seq<Range>): (hi: seq<int>)
    ensures |hi| == |rs|
  {
    seq(|rs|, i requires 0 <= i < |rs| => EncodeBound(rs[i].hi, rs[i].including))
  }

  // ---------------------------------------------------------------------------
  // The filter predicate, as written: scan the stored ranges from the last,
  // decode each by the sign of its lower bound, count include ranges seen

  function DecideFrom(lo: seq<int>, hi: seq<int>, j: nat, t: int, things: nat): bool
    requires j <= |lo| && j <= |hi|
    decreases j
  {
    if j == 0 then things == 0
    else
      var i := j - 1;
      var anti := if lo[i] > 0 then 1 else -1;
      if anti * lo[i] <= t <= anti * hi[i] then lo[i] > 0
      else DecideFrom(lo, hi, j - 1, t, if lo[i] > 0 then things + 1 else things)
  }

  function Decide(lo: seq<int>, hi: seq<int>, t: int): bool
    requires |lo| == |hi|
  {
    DecideFrom(lo, hi, |lo|, t, 0)
  }

  /** IntStream.rangeClosed(t, avail), filtered, each shifted by offset. */
  function PickFrom(lo: seq<int>, hi: seq<int>, offset: int32, t: int, avail: int32): seq<int>
    requires |lo| == |hi|
    decreases avail - t
  {
    if t > avail then [] else (if Decide(lo, hi, t) then [Wrap32(t + offset) as int] else []) + PickFrom(lo, hi, offset, t + 1, avail)
  }

  function Pick(rs: seq<Range>, offset: int32, avail: int32): seq<int> {
    PickFrom(EncodeLo(rs), EncodeHi(rs), offset, 1, avail)
  }

  /** parse_cmd(prog, args, start, avail): a negative start raises; -h gives
      the empty selection; a rejected token gives [-2]; otherwise the
      selected test numbers. */
  function ParseCmdSpec(args: seq<string>, start: int32, avail: int32): Outcome<seq<int>> {
    if start < 0 then Raised(IllegalArgument(start as int))
    else match ReadArgs(args, start - 1, avail, false)
      case Asked => Normal([])
      case Malformed => Normal([-2])
      case Parsed(rs, _, _) => Normal(Pick(rs, start - 1, avail))
  }

  // ---------------------------------------------------------------------------
  // The selection rule, stated independently

  predicate Covers(r: Range, t: int) {
    r.lo <= t <= r.hi
  }

  /** The last declared range covering t. */
  function LastCover(rs: seq<Range>, t: int): (r: Option<Range>)
    ensures r.Some? ==> Covers(r.value, t) && r.value in rs
    decreases |rs|
  {
    if rs == [] then None
    else if Covers(rs[|rs| - 1], t) then Some(rs[|rs| - 1])
    else LastCover(rs[..|rs| - 1], t)
  }

  predicate AnyInclude(rs: seq<Range>) {
    exists i :: 0 <= i < |rs| && rs[i].including
  }

  /** The rule: the last covering range decides by its colour; an index no
      range covers is chosen exactly when no include range was declared. */
  predicate Chosen(rs: seq<Range>, t: int) {
    match LastCover(rs, t)
    case Some(r) => r.including
    case None => !AnyInclude(rs)
  }

  // ---------------------------------------------------------------------------
  // Properties

  lemma {:induction false} DecideFromRule(rs: seq<Range>, j: nat, t: int, things: nat)
    requires WellFormed(rs) && j <= |rs|
    ensures DecideFrom(EncodeLo(rs), EncodeHi(rs), j, t, things)
         == match LastCover(rs[..j], t)
            case Some(r) => r.including
            case None => things == 0 && !AnyInclude(rs[..j])
    decreases j
  {
    if j > 0 {
      var i := j - 1;
      var r := rs[i];
      assert rs[..j][..i] == rs[..i];
      assert rs[..j][i] == r;
      var lo := EncodeLo(rs);
      assert lo[i] > 0 <==> r.including;
      if !Covers(r, t) {
        DecideFromRule(rs, i, t, if r.including then things + 1 else things);
        if !r.including {
          assert AnyInclude(rs[..j]) ==> AnyInclude(rs[..i]) by {
            if AnyInclude(rs[..j]) {
              var k :| 0 <= k < j && rs[..j][k].including;
              assert k < i;
              assert rs[..i][k].including;
            }
          }
          assert AnyInclude(rs[..i]) ==> AnyInclude(rs[..j]) by {
            if AnyInclude(rs[..i]) {
              var k :| 0 <= k < i && rs[..i][k].including;
              assert rs[..j][k].including;
            }
          }
        } else {
          assert AnyInclude(rs[..j]);
        }
      }
    }
  }

  /** The encoded scan decides every index by the rule. */
  lemma DecideIsRule(rs: seq<Range>, t: int)
    requires WellFormed(rs)
    ensures Decide(EncodeLo(rs), EncodeHi(rs), t) == Chosen(rs, t)
  {
    DecideFromRule(rs, |rs|, t, 0);
    assert rs[..|rs|] == rs;
  }

  lemma {:induction false} LastCoverIsLast(rs: seq<Range>, t: int, k: nat)
    requires k < |rs| && Covers(rs[k], t)
    requires forall m :: k < m < |rs| ==> !Covers(rs[m], t)
    ensures LastCover(rs, t) == Some(rs[k])
    decreases |rs|
  {
    if k < |rs| - 1 {
      var p := rs[..|rs| - 1];
      assert p[k] == rs[k];
      forall m | k < m < |p| ensures !Covers(p[m], t) { assert p[m] == rs[m]; }
      LastCoverIsLast(p, t, k);
    }
  }

  lemma {:induction false} NoCover(rs: seq<Range>, t: int)
    requires forall k :: 0 <= k < |rs| ==> !Covers(rs[k], t)
    ensures LastCover(rs, t) == None
    decreases |rs|
  {
    if rs != [] {
      var p := rs[..|rs| - 1];
      forall k | 0 <= k < |p| ensures !Covers(p[k], t) { assert p[k] == rs[k]; }
      NoCover(p, t);
    }
  }

  /** Case 1: the last declared range covering t decides, by its colour, and
      the stored signs decode back to that range's bounds and colour. */
  lemma LastCoverDecides(rs: seq<Range>, t: int, k: nat)
    requires WellFormed(rs) && k < |rs| && Covers(rs[k], t)
    requires forall m :: k < m < |rs| ==> !Covers(rs[m], t)
    ensures Decide(EncodeLo(rs), EncodeHi(rs), t) == rs[k].including
    ensures var s := if EncodeLo(rs)[k] > 0 then 1 else -1;
      (s > 0 <==> rs[k].including) && s * EncodeLo(rs)[k] == rs[k].lo && s * EncodeHi(rs)[k] == rs[k].hi
  {
    DecideIsRule(rs, t);
    LastCoverIsLast(rs, t, k);
  }

  /** Case 2: no range covers t, and t is chosen exactly when no include range
      was declared. */
  lemma UncoveredDefault(rs: seq<Range>, t: int)
    requires WellFormed(rs)
    requires forall k :: 0 <= k < |rs| ==> !Covers(rs[k], t)
    ensures Decide(EncodeLo(rs), EncodeHi(rs), t) <==> (forall k :: 0 <= k < |rs| ==> !rs[k].including)
  {
    DecideIsRule(rs, t);
    NoCover(rs, t);
  }

  /** With no ranges every index is chosen; an include range 1..0 on its own
      chooses nothing. */
  lemma DefaultsOfRule(t: int)
    ensures Decide([], [], t)
    ensures !Decide(EncodeLo([Range(1, 0, true)]), EncodeHi([Range(1, 0, true)]), t)
  {
    UncoveredDefault([Range(1, 0, true)], t);
  }

  predicate StrictlyAscending(p: seq<int>) {
    forall i, j :: 0 <= i < j < |p| ==> p[i] < p[j]
  }

  /** p is the selection of the rule over rs: strictly ascending, within
      [start, start + avail - 1], and holding exactly the numbers
      start + t - 1 of the indices t the rule chooses. */
  ghost predicate SelectionOf(p: seq<int>, rs: seq<Range>, start: int, avail: int) {
    StrictlyAscending(p)
    && (forall i :: 0 <= i < |p| ==> start <= p[i] <= start + avail - 1)
    && (forall x :: x in p <==> start <= x <= start + avail - 1 && Chosen(rs, x - start + 1))
  }

  /** One step of PickFrom: the number for from, if chosen, then the rest. */
  lemma PickFromStep(rs: seq<Range>, offset: int32, from: int, avail: int32)
    requires WellFormed(rs) && from >= 1 && offset >= -1 && offset + avail <= MaxInt && from <= avail
    ensures PickFrom(EncodeLo(rs), EncodeHi(rs), offset, from, avail)
         == (if Chosen(rs, from) then [from + offset] else []) + PickFrom(EncodeLo(rs), EncodeHi(rs), offset, from + 1, avail)
  {
    DecideIsRule(rs, from);
    assert Wrap32(from + offset) as int == from + offset;
  }

  /** The picked numbers, when start + avail - 1 fits an int, are each start
      + t - 1 for a chosen t in [from, avail]. */
  lemma {:induction false} PickFromChosen(rs: seq<Range>, offset: int32, from: int, avail: int32)
    requires WellFormed(rs) && from >= 1 && offset >= -1 && offset + avail <= MaxInt
    ensures forall x :: x in PickFrom(EncodeLo(rs), EncodeHi(rs), offset, from, avail) ==>
              offset + from <= x <= offset + avail && Chosen(rs, x - offset)
    decreases avail - from
  {
    if from <= avail {
      PickFromChosen(rs, offset, from + 1, avail);
      PickFromStep(rs, offset, from, avail);
    }
  }

  /** ... and strictly ascending. */
  lemma {:induction false} PickFromAscending(rs: seq<Range>, offset: int32, from: int, avail: int32)
    requires WellFormed(rs) && from >= 1 && offset >= -1 && offset + avail <= MaxInt
    ensures StrictlyAscending(PickFrom(EncodeLo(rs), EncodeHi(rs), offset, from, avail))
    decreases avail - from
  {
    if from <= avail {
      PickFromAscending(rs, offset, from + 1, avail);
      PickFromChosen(rs, offset, from + 1, avail);
      PickFromStep(rs, offset, from, avail);
      var rest := PickFrom(EncodeLo(rs), EncodeHi(rs), offset, from + 1, avail);
      if Chosen(rs, from) {
        var p := [from + offset] + rest;
        forall i, j | 0 <= i < j < |p| ensures p[i] < p[j] {
          assert p[j] == rest[j - 1];
          assert rest[j - 1] in rest;
          if i > 0 { assert p[i] == rest[i - 1]; }
        }
      }
    }
  }

  /** Every chosen t in [from, avail] is picked as start + t - 1. */
  lemma {:induction false} PickFromComplete(rs: seq<Range>, offset: int32, from: int, avail: int32)
    requires WellFormed(rs) && from >= 1 && offset >= -1 && offset + avail <= MaxInt
    ensures forall t :: from <= t <= avail && Chosen(rs, t) ==> t + offset in PickFrom(EncodeLo(rs), EncodeHi(rs), offset, from, avail)
    decreases avail - from
  {
    if from <= avail {
      PickFromComplete(rs, offset, from + 1, avail);
      PickFromStep(rs, offset, from, avail);
    }
  }

  /** The selection made from well-formed ranges is the rule's selection,
      whenever start + avail - 1 fits an int. */
  lemma PickIsSelection(rs: seq<Range>, start: int32, avail: int32)
    requires WellFormed(rs) && start >= 0 && start - 1 + avail <= MaxInt
    ensures SelectionOf(Pick(rs, start - 1, avail), rs, start, avail)
  {
    var offset: int32 := start - 1;
    PickFromChosen(rs, offset, 1, avail);
    PickFromAscending(rs, offset, 1, avail);
    PickFromComplete(rs, offset, 1, avail);
    var p := PickFrom(EncodeLo(rs), EncodeHi(rs), offset, 1, avail);
    forall i | 0 <= i < |p| ensures start <= p[i] <= start + avail - 1 {
      assert p[i] in p;
    }
    forall x | start <= x <= start + avail - 1 && Chosen(rs, x - start + 1) ensures x in p {
      assert (x - start + 1) + offset == x;
    }
  }

  /** parse_cmd: a negative start raises; -h before any rejected token gives
      []; a rejected token gives [-2]; otherwise the result is the rule's
      selection over the ranges read. */
  lemma ParseCmdResult(args: seq<string>, start: int32, avail: int32)
    ensures start < 0 <==> ParseCmdSpec(args, start, avail) == Raised(IllegalArgument(start as int))
    ensures start >= 0 && ReadArgs(args, start - 1, avail, false).Asked? ==> ParseCmdSpec(args, start, avail) == Normal([])
    ensures start >= 0 && ReadArgs(args, start - 1, avail, false).Malformed? ==> ParseCmdSpec(args, start, avail) == Normal([-2])
    ensures start >= 0 && start - 1 + avail <= MaxInt && ReadArgs(args, start - 1, avail, false).Parsed? ==>
      ParseCmdSpec(args, start, avail).Normal?
      && SelectionOf(ParseCmdSpec(args, start, avail).value, ReadArgs(args, start - 1, avail, false).ranges, start, avail)
  {
    if start >= 0 && start - 1 + avail <= MaxInt && ReadArgs(args, start - 1, avail, false).Parsed? {
      PickIsSelection(ReadArgs(args, start - 1, avail, false).ranges, start, avail);
    }
  }

  /** A range written as its two unshifted numbers reads back as that range. */
  lemma ReadRangeOfNumbers(b: int, e: int, offset: int32, avail: int32, including: bool)
    requires 1 <= b <= avail && b - 1 <= e <= avail
    requires MinInt <= b + offset <= MaxInt && MinInt <= e + offset <= MaxInt
    ensures ReadRange(IntToString(b + offset) + ".." + IntToString(e + offset), offset, avail, including) == Some(Range(b, e, including))
  {
    var x: int32 := b + offset;
    var y: int32 := e + offset;
    NumberPair(x, y);
    ReadRangeOfOperands(IntToString(x) + ".." + IntToString(y), x, y, b, e, offset, avail, including);
  }

  /** Two printed numbers joined by ".." split back into the two numbers. */
  lemma NumberPair(x: int32, y: int32)
    ensures var parts := SplitDots(IntToString(x) + ".." + IntToString(y));
      |parts| == 2 && ParseInt(parts[0]) == Some(x) && ParseInt(parts[1]) == Some(y)
  {
    var sx, sy := IntToString(x), IntToString(y);
    NumbersAreDotFree(x);
    NumbersAreDotFree(y);
    SplitDotsOfPair(sx, sy);
    ParseIntToString(x);
    ParseIntToString(y);
  }

  lemma ReadRangeOfOperands(arg: string, x: int32, y: int32, b: int, e: int, offset: int32, avail: int32, including: bool)
    requires |SplitDots(arg)| == 2
    requires ParseInt(SplitDots(arg)[0]) == Some(x) && ParseInt(SplitDots(arg)[1]) == Some(y)
    requires b == x - offset && e == y - offset
    requires 1 <= b <= avail && b - 1 <= e <= avail
    ensures ReadRange(arg, offset, avail, including) == Some(Range(b, e, including))
  {
    assert Wrap32(x - offset) == b;
    assert Wrap32(y - offset) == e;
  }

  /** parse_cmd and exec read the same ranges from arguments without exec's
      own -t and -e switches, and exec records those switches. */
  lemma {:induction false} ReadersAgree(args: seq<string>, i: nat, offset: int32, avail: int32,
                                        including: bool, acc: seq<Range>, trace: bool, exitCode: bool)
    requires i <= |args|
    requires forall k :: i <= k < |args| ==> !IsTrace(args[k]) && !IsExitCode(args[k])
    ensures ReadFrom(args, i, offset, avail, true, including, acc, trace, exitCode)
         == ReadFrom(args, i, offset, avail, false, including, acc, trace, exitCode)
    decreases |args| - i
  {
    if i < |args| {
      var a := args[i];
      assert !IsTrace(a) && !IsExitCode(a);
      if !IsHelp(a) {
        if IsExclude(a) || IsInclude(a) {
          ReadersAgree(args, i + 1, offset, avail, !IsExclude(a), acc, trace, exitCode);
        } else if ReadRange(a, offset, avail, including).Some? {
          ReadersAgree(args, i + 1, offset, avail, including, acc + [ReadRange(a, offset, avail, including).value], trace, exitCode);
        }
      }
    }
  }

  /** Without -t and -e, exec's reading of the arguments is parse_cmd's. */
  lemma ReadArgsAgree(args: seq<string>, offset: int32, avail: int32)
    requires forall k :: 0 <= k < |args| ==> !IsTrace(args[k]) && !IsExitCode(args[k])
    ensures ReadArgs(args, offset, avail, true) == ReadArgs(args, offset, avail, false)
  {
    ReadersAgree(args, 0, offset, avail, true, [], false, false);
  }

  lemma ReadToken(b: int, e: int, including: bool)
    requires 1 <= b <= 9 && b - 1 <= e <= 9
    ensures ReadRange([DigitChar(b)] + ".." + [DigitChar(e)], 0, 10, including) == Some(Range(b, e, including))
  {
    assert IntToString(b) == [DigitChar(b)];
    assert IntToString(e) == [DigitChar(e)];
    ReadRangeOfNumbers(b, e, 0, 10, including);
  }

  lemma ReadIncluded()
    ensures ReadArgs(["3..5"], 0, 10, false) == Parsed([Range(3, 5, true)], false, false)
  {
    Token35(true);
    var args := ["3..5"];
    assert !IsHelp(args[0]) && !IsExclude(args[0]) && !IsInclude(args[0]);
    assert ReadFrom(args, 1, 0, 10, false, true, [Range(3, 5, true)], false, false) == Parsed([Range(3, 5, true)], false, false);
  }

  lemma ReadExcluded()
    ensures ReadArgs(["-x", "3..5"], 0, 10, false) == Parsed([Range(3, 5, false)], false, false)
  {
    Token35(false);
    var args := ["-x", "3..5"];
    assert IsExclude(args[0]) && !IsHelp(args[0]);
    assert !IsHelp(args[1]) && !IsExclude(args[1]) && !IsInclude(args[1]);
    assert ReadFrom(args, 2, 0, 10, false, false, [Range(3, 5, false)], false, false) == Parsed([Range(3, 5, false)], false, false);
    assert ReadFrom(args, 1, 0, 10, false, false, [], false, false) == Parsed([Range(3, 5, false)], false, false);
  }

  lemma Token35(including: bool)
    ensures ReadRange("3..5", 0, 10, including) == Some(Range(3, 5, including))
  {
    assert "3..5" == [DigitChar(3)] + ".." + [DigitChar(5)];
    ReadToken(3, 5, including);
  }

  lemma Token44(including: bool)
    ensures ReadRange("4..4", 0, 10, including) == Some(Range(4, 4, including))
  {
    assert "4..4" == [DigitChar(4)] + ".." + [DigitChar(4)];
    ReadToken(4, 4, including);
  }

  lemma ReadCarvedTail(args: seq<string>)
    requires args == ["-i", "3..5", "-x", "4..4"]
    ensures ReadFrom(args, 2, 0, 10, false, true, [Range(3, 5, true)], false, false)
         == Parsed([Range(3, 5, true), Range(4, 4, false)], false, false)
  {
    Token44(false);
    var both := [Range(3, 5, true), Range(4, 4, false)];
    assert IsExclude(args[2]) && !IsHelp(args[2]);
    assert !IsHelp(args[3]) && !IsExclude(args[3]) && !IsInclude(args[3]);
    assert [Range(3, 5, true)] + [Range(4, 4, false)] == both;
    assert ReadFrom(args, 4, 0, 10, false, false, both, false, false) == Parsed(both, false, false);
    assert ReadFrom(args, 3, 0, 10, false, false, [Range(3, 5, true)], false, false) == Parsed(both, false, false);
  }

  lemma ReadCarvedMiddle(args: seq<string>)
    requires args == ["-i", "3..5", "-x", "4..4"]
    ensures ReadFrom(args, 1, 0, 10, false, true, [], false, false)
         == Parsed([Range(3, 5, true), Range(4, 4, false)], false, false)
  {
    Token35(true);
    ReadCarvedTail(args);
    assert !IsHelp(args[1]) && !IsExclude(args[1]) && !IsInclude(args[1]);
    assert [] + [Range(3, 5, true)] == [Range(3, 5, true)];
  }

  lemma ReadCarved()
    ensures ReadArgs(["-i", "3..5", "-x", "4..4"], 0, 10, false) == Parsed([Range(3, 5, true), Range(4, 4, false)], false, false)
  {
    var args := ["-i", "3..5", "-x", "4..4"];
    ReadCarvedMiddle(args);
    assert IsInclude(args[0]) && !IsHelp(args[0]) && !IsExclude(args[0]);
  }

  lemma PickIncluded()
    ensures Pick([Range(3, 5, true)], 0, 10) == [3, 4, 5]
  {
    assert EncodeLo([Range(3, 5, true)]) == [3] && EncodeHi([Range(3, 5, true)]) == [5];
    var lo0, hi0 := [3], [5];
    assert PickFrom(lo0, hi0, 0, 11, 10) == [];
    assert !DecideFrom(lo0, hi0, 0, 10, 1);
    assert !Decide(lo0, hi0, 10);
    assert PickFrom(lo0, hi0, 0, 10, 10) == [];
    assert !DecideFrom(lo0, hi0, 0, 9, 1);
    assert !Decide(lo0, hi0, 9);
    assert PickFrom(lo0, hi0, 0, 9, 10) == [];
    assert !DecideFrom(lo0, hi0, 0, 8, 1);
    assert !Decide(lo0, hi0, 8);
    assert PickFrom(lo0, hi0, 0, 8, 10) == [];
    assert !DecideFrom(lo0, hi0, 0, 7, 1);
    assert !Decide(lo0, hi0, 7);
    assert PickFrom(lo0, hi0, 0, 7, 10) == [];
    assert !DecideFrom(lo0, hi0, 0, 6, 1);
    assert !Decide(lo0, hi0, 6);
    assert PickFrom(lo0, hi0, 0, 6, 10) == [];
    assert Decide(lo0, hi0, 5);
    assert PickFrom(lo0, hi0, 0, 5, 10) == [5];
    assert Decide(lo0, hi0, 4);
    assert PickFrom(lo0, hi0, 0, 4, 10) == [4, 5];
    assert Decide(lo0, hi0, 3);
    assert PickFrom(lo0, hi0, 0, 3, 10) == [3, 4, 5];
    assert !DecideFrom(lo0, hi0, 0, 2, 1);
    assert !Decide(lo0, hi0, 2);
    assert PickFrom(lo0, hi0, 0, 2, 10) == [3, 4, 5];
    assert !DecideFrom(lo0, hi0, 0, 1, 1);
    assert !Decide(lo0, hi0, 1);
    assert PickFrom(lo0, hi0, 0, 1, 10) == [3, 4, 5];
  }

  lemma PickExcluded()
    ensures Pick([Range(3, 5, false)], 0, 10) == [1, 2, 6, 7, 8, 9, 10]
  {
    assert EncodeLo([Range(3, 5, false)]) == [-3] && EncodeHi([Range(3, 5, false)]) == [-5];
    var lo1, hi1 := [-3], [-5];
    assert PickFrom(lo1, hi1, 0, 11, 10) == [];
    assert DecideFrom(lo1, hi1, 0, 10, 0);
    assert Decide(lo1, hi1, 10);
    assert PickFrom(lo1, hi1, 0, 10, 10) == [10];
    assert DecideFrom(lo1, hi1, 0, 9, 0);
    assert Decide(lo1, hi1, 9);
    assert PickFrom(lo1, hi1, 0, 9, 10) == [9, 10];
    assert DecideFrom(lo1, hi1, 0, 8, 0);
    assert Decide(lo1, hi1, 8);
    assert PickFrom(lo1, hi1, 0, 8, 10) == [8, 9, 10];
    assert DecideFrom(lo1, hi1, 0, 7, 0);
    assert Decide(lo1, hi1, 7);
    assert PickFrom(lo1, hi1, 0, 7, 10) == [7, 8, 9, 10];
    assert DecideFrom(lo1, hi1, 0, 6, 0);
    assert Decide(lo1, hi1, 6);
    assert PickFrom(lo1, hi1, 0, 6, 10) == [6, 7, 8, 9, 10];
    assert !Decide(lo1, hi1, 5);
    assert PickFrom(lo1, hi1, 0, 5, 10) == [6, 7, 8, 9, 10];
    assert !Decide(lo1, hi1, 4);
    assert PickFrom(lo1, hi1, 0, 4, 10) == [6, 7, 8, 9, 10];
    assert !Decide(lo1, hi1, 3);
    assert PickFrom(lo1, hi1, 0, 3, 10) == [6, 7, 8, 9, 10];
    assert DecideFrom(lo1, hi1, 0, 2, 0);
    assert Decide(lo1, hi1, 2);
    assert PickFrom(lo1, hi1, 0, 2, 10) == [2, 6, 7, 8, 9, 10];
    assert DecideFrom(lo1, hi1, 0, 1, 0);
    assert Decide(lo1, hi1, 1);
    assert PickFrom(lo1, hi1, 0, 1, 10) == [1, 2, 6, 7, 8, 9, 10];
  }

  lemma PickCarved()
    ensures Pick([Range(3, 5, true), Range(4, 4, false)], 0, 10) == [3, 5]
  {
    assert EncodeLo([Range(3, 5, true), Range(4, 4, false)]) == [3, -4];
    assert EncodeHi([Range(3, 5, true), Range(4, 4, false)]) == [5, -4];
    var lo2, hi2 := [3, -4], [5, -4];
    assert PickFrom(lo2, hi2, 0, 11, 10) == [];
    assert !DecideFrom(lo2, hi2, 0, 10, 1);
    assert !DecideFrom(lo2, hi2, 1, 10, 0);
    assert !Decide(lo2, hi2, 10);
    assert PickFrom(lo2, hi2, 0, 10, 10) == [];
    assert !DecideFrom(lo2, hi2, 0, 9, 1);
    assert !DecideFrom(lo2, hi2, 1, 9, 0);
    assert !Decide(lo2, hi2, 9);
    assert PickFrom(lo2, hi2, 0, 9, 10) == [];
    assert !DecideFrom(lo2, hi2, 0, 8, 1);
    assert !DecideFrom(lo2, hi2, 1, 8, 0);
    assert !Decide(lo2, hi2, 8);
    assert PickFrom(lo2, hi2, 0, 8, 10) == [];
    assert !DecideFrom(lo2, hi2, 0, 7, 1);
    assert !DecideFrom(lo2, hi2, 1, 7, 0);
    assert !Decide(lo2, hi2, 7);
    assert PickFrom(lo2, hi2, 0, 7, 10) == [];
    assert !DecideFrom(lo2, hi2, 0, 6, 1);
    assert !DecideFrom(lo2, hi2, 1, 6, 0);
    assert !Decide(lo2, hi2, 6);
    assert PickFrom(lo2, hi2, 0, 6, 10) == [];
    assert DecideFrom(lo2, hi2, 1, 5, 0);
    assert Decide(lo2, hi2, 5);
    assert PickFrom(lo2, hi2, 0, 5, 10) == [5];
    assert !Decide(lo2, hi2, 4);
    assert PickFrom(lo2, hi2, 0, 4, 10) == [5];
    assert DecideFrom(lo2, hi2, 1, 3, 0);
    assert Decide(lo2, hi2, 3);
    assert PickFrom(lo2, hi2, 0, 3, 10) == [3, 5];
    assert !DecideFrom(lo2, hi2, 0, 2, 1);
    assert !DecideFrom(lo2, hi2, 1, 2, 0);
    assert !Decide(lo2, hi2, 2);
    assert PickFrom(lo2, hi2, 0, 2, 10) == [3, 5];
    assert !DecideFrom(lo2, hi2, 0, 1, 1);
    assert !DecideFrom(lo2, hi2, 1, 1, 0);
    assert !Decide(lo2, hi2, 1);
    assert PickFrom(lo2, hi2, 0, 1, 10) == [3, 5];
  }

  /** The three selections with start 1 and avail 10: include 3..5 gives
      3, 4, 5; exclude 3..5 gives the other seven; include 3..5 then exclude
      4..4 gives 3 and 5. */
  lemma SelectionVectors()
    ensures ParseCmdSpec(["3..5"], 1, 10) == Normal([3, 4, 5])
    ensures ParseCmdSpec(["-x", "3..5"], 1, 10) == Normal([1, 2, 6, 7, 8, 9, 10])
    ensures ParseCmdSpec(["-i", "3..5", "-x", "4..4"], 1, 10) == Normal([3, 5])
  {
    ReadIncluded();
    ReadExcluded();
    ReadCarved();
    PickIncluded();
    PickExcluded();
    PickCarved();
  }

  // ---------------------------------------------------------------------------
  // The loops as written: the option loop filling rangeLo and rangeHi, the
  // backward scan of the filter, and the stream of indices

  /** One step of the option loop over a range token. */
  lemma ReadFromRange(args: seq<string>, i: nat, offset: int32, avail: int32, embedded: bool,
                      including: bool, acc: seq<Range>, trace: bool, exitCode: bool, r: Range)
    requires i < |args| && !IsHelp(args[i]) && !(embedded && IsTrace(args[i]))
    requires !(embedded && IsExitCode(args[i])) && !IsExclude(args[i]) && !IsInclude(args[i])
    requires ReadRange(args[i], offset, avail, including) == Some(r)
    ensures ReadFrom(args, i, offset, avail, embedded, including, acc, trace, exitCode)
         == ReadFrom(args, i + 1, offset, avail, embedded, including, acc + [r], trace, exitCode)
  {
  }

  /** One step of the option loop over a switch. */
  lemma ReadFromSwitch(args: seq<string>, i: nat, offset: int32, avail: int32, embedded: bool,
                       including: bool, acc: seq<Range>, trace: bool, exitCode: bool)
    requires i < |args| && !IsHelp(args[i])
    ensures embedded && IsTrace(args[i]) ==>
      ReadFrom(args, i, offset, avail, embedded, including, acc, trace, exitCode)
      == ReadFrom(args, i + 1, offset, avail, embedded, including, acc, true, exitCode)
    ensures !(embedded && IsTrace(args[i])) && embedded && IsExitCode(args[i]) ==>
      ReadFrom(args, i, offset, avail, embedded, including, acc, trace, exitCode)
      == ReadFrom(args, i + 1, offset, avail, embedded, including, acc, trace, true)
    ensures !(embedded && IsTrace(args[i])) && !(embedded && IsExitCode(args[i])) && IsExclude(args[i]) ==>
      ReadFrom(args, i, offset, avail, embedded, including, acc, trace, exitCode)
      == ReadFrom(args, i + 1, offset, avail, embedded, false, acc, trace, exitCode)
    ensures !(embedded && IsTrace(args[i])) && !(embedded && IsExitCode(args[i])) && !IsExclude(args[i]) && IsInclude(args[i]) ==>
      ReadFrom(args, i, offset, avail, embedded, including, acc, trace, exitCode)
      == ReadFrom(args, i + 1, offset, avail, embedded, true, acc, trace, exitCode)
  {
  }

  /** rangeLo[rangeCount] = start * color and rangeHi[rangeCount] = end * color. */
  method StoreRange(rangeLo: array<int>, rangeHi: array<int>, rangeCount: nat, ghost acc: seq<Range>, range: Range, color: int)
    requires rangeLo != rangeHi && rangeCount < rangeLo.Length && rangeCount < rangeHi.Length
    requires rangeCount == |acc| && (color == 1 || color == -1) && range.including == (color == 1)
    requires rangeLo[..rangeCount] == EncodeLo(acc) && rangeHi[..rangeCount] == EncodeHi(acc)
    modifies rangeLo, rangeHi
    ensures rangeLo[..rangeCount + 1] == EncodeLo(acc + [range]) && rangeHi[..rangeCount + 1] == EncodeHi(acc + [range])
  {
    assert range.lo * color == EncodeBound(range.lo, color == 1) && range.hi * color == EncodeBound(range.hi, color == 1) by {
      if color == -1 { assert range.lo * -1 == -range.lo && range.hi * -1 == -range.hi; }
    }
    ghost var lo0, hi0 := rangeLo[..rangeCount], rangeHi[..rangeCount];
    rangeLo[rangeCount] := range.lo * color;
    rangeHi[rangeCount] := range.hi * color;
    assert rangeLo[..rangeCount] == lo0 && rangeHi[..rangeCount] == hi0;
    assert rangeLo[..rangeCount + 1] == lo0 + [EncodeBound(range.lo, color == 1)];
    assert rangeHi[..rangeCount + 1] == hi0 + [EncodeBound(range.hi, color == 1)];
    assert EncodeLo(acc + [range]) == EncodeLo(acc) + [EncodeBound(range.lo, color == 1)];
    assert EncodeHi(acc + [range]) == EncodeHi(acc) + [EncodeBound(range.hi, color == 1)];
  }

  /** The arrays hold the encodings of the ranges read so far. */
  ghost predicate Stored(rangeLo: array<int>, rangeHi: array<int>, rangeCount: nat, acc: seq<Range>)
    reads rangeLo, rangeHi
  {
    rangeCount == |acc| && rangeCount <= rangeLo.Length && rangeCount <= rangeHi.Length
    && rangeLo[..rangeCount] == EncodeLo(acc) && rangeHi[..rangeCount] == EncodeHi(acc)
  }

  /** One round of the option loop: a stop (help or a rejected token) ends
      the reading with its result; otherwise the reading goes on from the
      next argument with the updated colour, flags and ranges. */
  method ReadOption(args: seq<string>, optind: nat, offset: int32, avail: int32, embedded: bool,
                    rangeLo: array<int>, rangeHi: array<int>, rangeCount: nat, color: int,
                    acc: seq<Range>, trace: bool, exitCode: bool)
    returns (stop: Option<Reading>, color': int, acc': seq<Range>, trace': bool, exitCode': bool, rangeCount': nat)
    requires optind < |args| && rangeLo != rangeHi && rangeLo.Length == |args| && rangeHi.Length == |args|
    requires rangeCount <= optind && (color == 1 || color == -1) && Stored(rangeLo, rangeHi, rangeCount, acc)
    modifies rangeLo, rangeHi
    ensures stop.Some? ==> stop.value == ReadFrom(args, optind, offset, avail, embedded, color == 1, acc, trace, exitCode)
                           && !stop.value.Parsed? && rangeCount' <= optind
    ensures stop.None? ==>
      ReadFrom(args, optind, offset, avail, embedded, color == 1, acc, trace, exitCode)
      == ReadFrom(args, optind + 1, offset, avail, embedded, color' == 1, acc', trace', exitCode')
      && rangeCount' <= optind + 1 && (color' == 1 || color' == -1) && Stored(rangeLo, rangeHi, rangeCount', acc')
  {
    stop, color', acc', trace', exitCode', rangeCount' := None, color, acc, trace, exitCode, rangeCount;
    var a := args[optind];
    if IsHelp(a) {
      stop := Some(Asked);
      return;
    }
    ReadFromSwitch(args, optind, offset, avail, embedded, color == 1, acc, trace, exitCode);
    if embedded && IsTrace(a) {
      trace' := true;
    } else if embedded && IsExitCode(a) {
      exitCode' := true;
    } else if IsExclude(a) {
      color' := -1;
    } else if IsInclude(a) {
      color' := 1;
    } else {
      var token := ReadRange(a, offset, avail, color == 1);
      if token.None? {
        stop := Some(Malformed);
        return;
      }
      var range := token.value;
      ReadFromRange(args, optind, offset, avail, embedded, color == 1, acc, trace, exitCode, range);
      StoreRange(rangeLo, rangeHi, rangeCount, acc, range, color);
      acc' := acc + [range];
      rangeCount' := rangeCount + 1;
    }
  }

  /** The option loop of parse_cmd and of exec: the reading, and the arrays
      rangeLo and rangeHi holding its ranges with their sign encoding. */
  method ReadOptions(args: seq<string>, offset: int32, avail: int32, embedded: bool)
    returns (r: Reading, rangeLo: array<int>, rangeHi: array<int>, rangeCount: nat)
    ensures r == ReadArgs(args, offset, avail, embedded)
    ensures rangeLo.Length == |args| && rangeHi.Length == |args| && rangeCount <= |args|
    ensures r.Parsed? ==> rangeCount == |r.ranges| && rangeLo[..rangeCount] == EncodeLo(r.ranges)
                          && rangeHi[..rangeCount] == EncodeHi(r.ranges)
    ensures fresh(rangeLo) && fresh(rangeHi)
  {
    rangeLo := new int[|args|];
    rangeHi := new int[|args|];
    rangeCount := 0;
    var color := 1;
    var trace, exitCode := false, false;
    var acc: seq<Range> := [];
    var optind := 0;
    while optind < |args|
      invariant 0 <= optind <= |args| && rangeCount <= optind
      invariant color == 1 || color == -1
      invariant rangeLo != rangeHi && rangeLo.Length == |args| && rangeHi.Length == |args|
      invariant Stored(rangeLo, rangeHi, rangeCount, acc)
      invariant ReadFrom(args, optind, offset, avail, embedded, color == 1, acc, trace, exitCode) == ReadArgs(args, offset, avail, embedded)
      decreases |args| - optind
    {
      var stop;
      stop, color, acc, trace, exitCode, rangeCount := ReadOption(args, optind, offset, avail, embedded, rangeLo, rangeHi, rangeCount, color, acc, trace, exitCode);
      if stop.Some? {
        return stop.value, rangeLo, rangeHi, rangeCount;
      }
      optind := optind + 1;
    }
    r := Parsed(acc, trace, exitCode);
  }

  /** The filter predicate: scan the stored ranges from the last one, and
      decide by the first that covers t. */
  method DecideIndex(rangeLo: array<int>, rangeHi: array<int>, rangeCount: nat, t: int) returns (decision: bool)
    requires rangeCount <= rangeLo.Length && rangeCount <= rangeHi.Length
    ensures decision == Decide(rangeLo[..rangeCount], rangeHi[..rangeCount], t)
  {
    ghost var lo, hi := rangeLo[..rangeCount], rangeHi[..rangeCount];
    var thingsToInclude := 0;
    var j := rangeCount;
    while j > 0
      invariant 0 <= j <= rangeCount
      invariant DecideFrom(lo, hi, j, t, thingsToInclude) == Decide(lo, hi, t)
      decreases j
    {
      var i := j - 1;
      assert lo[i] == rangeLo[i] && hi[i] == rangeHi[i];
      var antiColor;
      if rangeLo[i] > 0 {
        antiColor := 1;
        decision := true;
        thingsToInclude := thingsToInclude + 1;
      } else {
        antiColor := -1;
        decision := false;
      }
      if antiColor * rangeLo[i] <= t <= antiColor * rangeHi[i] {
        return;
      }
      j := j - 1;
    }
    decision := thingsToInclude == 0;
  }

  /** IntStream.rangeClosed(1, avail).filter(...).map(t -> t + offset). */
  method SelectIndices(rangeLo: array<int>, rangeHi: array<int>, rangeCount: nat, offset: int32, avail: int32)
    returns (todo: seq<int>)
    requires rangeCount <= rangeLo.Length && rangeCount <= rangeHi.Length
    ensures todo == PickFrom(rangeLo[..rangeCount], rangeHi[..rangeCount], offset, 1, avail)
  {
    ghost var lo, hi := rangeLo[..rangeCount], rangeHi[..rangeCount];
    todo := [];
    var t := 1;
    while t <= avail
      invariant t == 1 || t <= avail + 1
      invariant todo + PickFrom(lo, hi, offset, t, avail) == PickFrom(lo, hi, offset, 1, avail)
      decreases avail - t
    {
      var keep := DecideIndex(rangeLo, rangeHi, rangeCount, t);
      var picked := if keep then [Wrap32(t + offset) as int] else [];
      assert PickFrom(lo, hi, offset, t, avail) == picked + PickFrom(lo, hi, offset, t + 1, avail);
      SeqAssoc(todo, picked, PickFrom(lo, hi, offset, t + 1, avail));
      todo := todo + picked;
      t := t + 1;
    }
  }

  /** parse_cmd(prog, args, start, avail). */
  method ParseCmd(args: seq<string>, start: int32, avail: int32) returns (r: Outcome<seq<int>>)
    ensures r == ParseCmdSpec(args, start, avail)
  {
    if start < 0 {
      return Raised(IllegalArgument(start as int));
    }
    var offset: int32 := start - 1;
    var reading, rangeLo, rangeHi, rangeCount := ReadOptions(args, offset, avail, false);
    match reading
    case Asked => r := Normal([]);
    case Malformed => r := Normal([-2]);
    case Parsed(rs, _, _) =>
      var todo := SelectIndices(rangeLo, rangeHi, rangeCount, offset, avail);
      r := Normal(todo);
  }
}

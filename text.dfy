/** The parts of Java's String and Integer API that the TAP engine and its
    command-line reader rely on: decimal conversion (Integer.toString and
    Integer.parseInt), 32-bit wrap-around, String.isBlank, the two splits
    (on a line feed with a negative limit, and on ".." with limit zero),
    startsWith and contains. */
module Text {

  datatype Option<+T> = None | Some(value: T)

  const LF: char := '\n'

  /** A Java int. */
  const MinInt: int := -0x8000_0000
  const MaxInt: int := 0x7fff_ffff
  type int32 = x: int | -0x8000_0000 <= x <= 0x7fff_ffff

  /** Two's-complement wrap-around of Java int arithmetic. */
  function Wrap32(x: int): (r: int32)
    ensures MinInt <= x <= MaxInt ==> r == x
    ensures (x - r) % 0x1_0000_0000 == 0
  {
    (x - MinInt) % 0x1_0000_0000 + MinInt
  }

  // ---------------------------------------------------------------------------
  // Blank text (String.isBlank, i.e. every code point is Character.isWhitespace)

  predicate IsWhitespace(c: char) {
    c == ' ' || c == '\t' || c == '\n' || c == '\U{B}' || c == '\U{C}' || c == '\r'
    || ('\U{1C}' <= c <= '\U{1F}')
    || c == '\U{1680}' || ('\U{2000}' <= c <= '\U{2006}') || ('\U{2008}' <= c <= '\U{200A}')
    || c == '\U{2028}' || c == '\U{2029}' || c == '\U{205F}' || c == '\U{3000}'
  }

  predicate IsBlank(s: string) {
    forall i :: 0 <= i < |s| ==> IsWhitespace(s[i])
  }

  // ---------------------------------------------------------------------------
  // Substrings

  predicate StartsWith(s: string, p: string) {
    |p| <= |s| && s[..|p|] == p
  }

  /** String.contains: p occurs somewhere in s. */
  predicate Contains(s: string, p: string)
    decreases |s|
  {
    StartsWith(s, p) || (|s| > 0 && Contains(s[1..], p))
  }

  /** A text that contains p holds p's first character. */
  lemma {:induction false} ContainsFirst(s: string, p: string)
    requires p != [] && Contains(s, p)
    ensures p[0] in s
    decreases |s|
  {
    if StartsWith(s, p) {
      assert s[0] == p[0];
    } else {
      ContainsFirst(s[1..], p);
      assert s == [s[0]] + s[1..];
    }
  }

  // ---------------------------------------------------------------------------
  // Decimal numbers

  predicate IsDigit(c: char) {
    '0' <= c <= '9'
  }

  predicate AllDigits(s: string) {
    forall i :: 0 <= i < |s| ==> IsDigit(s[i])
  }

  function DigitChar(d: nat): (c: char)
    requires d < 10
    ensures IsDigit(c)
  {
    ('0' as int + d) as char
  }

  function DigitValue(c: char): nat
    requires IsDigit(c)
  {
    c as int - '0' as int
  }

  /** Decimal digits of n, without leading zeros. */
  function NatToString(n: nat): (r: string)
    ensures |r| >= 1 && AllDigits(r)
    ensures |r| > 1 ==> r[0] != '0'
    decreases n
  {
    if n < 10 then [DigitChar(n)] else NatToString(n / 10) + [DigitChar(n % 10)]
  }

  /** Integer.toString. */
  function IntToString(n: int): string {
    if n < 0 then "-" + NatToString(-n) else NatToString(n)
  }

  /** The value of a string of decimal digits. */
  function DigitsValue(s: string): nat
    requires AllDigits(s)
  {
    if s == [] then 0 else DigitsValue(s[..|s| - 1]) * 10 + DigitValue(s[|s| - 1])
  }

  /** Integer.parseInt(s): an optional sign and at least one digit, and a
      value that fits a Java int; None stands for NumberFormatException.
      Digits are the ASCII ones only. */
  function ParseInt(s: string): Option<int32> {
    var signed := |s| > 0 && (s[0] == '-' || s[0] == '+');
    var digits := if signed then s[1..] else s;
    if digits == [] || !AllDigits(digits) then None
    else
      var v := if signed && s[0] == '-' then -(DigitsValue(digits) as int) else DigitsValue(digits) as int;
      if MinInt <= v <= MaxInt then Some(v) else None
  }

  lemma {:induction false} NatToStringValue(n: nat)
    ensures DigitsValue(NatToString(n)) == n
    decreases n
  {
    var r := NatToString(n);
    if n >= 10 {
      NatToStringValue(n / 10);
      assert r[..|r| - 1] == NatToString(n / 10);
    }
  }

  /** Integer.parseInt reads back what Integer.toString writes. */
  lemma ParseIntToString(n: int32)
    ensures ParseInt(IntToString(n)) == Some(n)
  {
    var s := IntToString(n);
    if n < 0 {
      var m: nat := -(n as int);
      var d := NatToString(m);
      NatToStringValue(m);
      assert s == "-" + d;
      assert s[0] == '-' && s[1..] == d;
      assert AllDigits(d) && d != [];
    } else {
      var d := NatToString(n);
      NatToStringValue(n);
      assert s == d && IsDigit(d[0]);
      assert !(s[0] == '-' || s[0] == '+');
    }
  }

  lemma ParseIntRejectsNonNumbers(s: string)
    requires !AllDigits(s) && s != [] && s[0] != '-' && s[0] != '+'
    ensures ParseInt(s) == None
  {
  }

  // ---------------------------------------------------------------------------
  // Splitting on a line feed

  /** The pieces of s between line feeds: String.split("\\n", -1). */
  function LfFields(s: string): (r: seq<string>)
    ensures |r| >= 1
    decreases |s|
  {
    if s == [] then [[]]
    else
      var f := LfFields(s[1..]);
      if s[0] == LF then [[]] + f else [[s[0]] + f[0]] + f[1..]
  }

  /** The pieces joined back with line feeds. */
  function Join(p: seq<string>): string
    decreases |p|
  {
    if p == [] then "" else if |p| == 1 then p[0] else p[0] + [LF] + Join(p[1..])
  }

  predicate LfFree(s: string) {
    forall i :: 0 <= i < |s| ==> s[i] != LF
  }

  /** splitlines: the LF-separated lines of text with at most one empty
      string dropped at the end. */
  function SplitLines(text: string): seq<string> {
    var f := LfFields(text);
    if f[|f| - 1] == [] then f[..|f| - 1] else f
  }

  lemma {:induction false} LfFieldsJoin(s: string)
    ensures Join(LfFields(s)) == s
    ensures forall i :: 0 <= i < |LfFields(s)| ==> LfFree(LfFields(s)[i])
    decreases |s|
  {
    if s != [] {
      var f := LfFields(s[1..]);
      LfFieldsJoin(s[1..]);
      if s[0] == LF {
        assert s == [LF] + s[1..];
      } else {
        var g := [[s[0]] + f[0]] + f[1..];
        assert LfFields(s) == g;
        if |f| == 1 {
          assert Join(g) == [s[0]] + f[0];
        } else {
          assert Join(f) == f[0] + [LF] + Join(f[1..]);
          assert g[1..] == f[1..];
          assert Join(g) == [s[0]] + f[0] + [LF] + Join(f[1..]);
        }
        assert s == [s[0]] + s[1..];
      }
    }
  }

  /** No line of splitlines holds a line feed; joined with LF they give the
      text back minus at most one trailing LF; the empty text has no line,
      and a lone line feed has one empty line. */
  lemma SplitLinesJoin(text: string)
    ensures forall i :: 0 <= i < |SplitLines(text)| ==> LfFree(SplitLines(text)[i])
    ensures Join(SplitLines(text)) == (if |text| > 0 && text[|text| - 1] == LF then text[..|text| - 1] else text)
    ensures text == "" ==> SplitLines(text) == []
    ensures text == [LF] ==> SplitLines(text) == [""]
  {
    var f := LfFields(text);
    LfFieldsJoin(text);
    if f[|f| - 1] == [] {
      if |f| == 1 {
        assert text == "";
      } else {
        JoinDropEmptyLast(f);
      }
    } else if |text| > 0 && text[|text| - 1] == LF {
      LastFieldAfterLf(text);
    }
  }

  lemma {:induction false} JoinDropEmptyLast(f: seq<string>)
    requires |f| >= 2 && f[|f| - 1] == []
    ensures Join(f) == Join(f[..|f| - 1]) + [LF]
    decreases |f|
  {
    if |f| > 2 {
      JoinDropEmptyLast(f[1..]);
      assert f[1..][..|f| - 2] == f[..|f| - 1][1..];
    }
  }

  lemma {:induction false} LastFieldAfterLf(s: string)
    requires |s| > 0 && s[|s| - 1] == LF
    ensures LfFields(s)[|LfFields(s)| - 1] == []
    decreases |s|
  {
    if |s| > 1 {
      LastFieldAfterLf(s[1..]);
    }
  }

  lemma {:induction false} LfFieldsAfterLine(a: string, b: string)
    requires LfFree(a)
    ensures LfFields(a + [LF] + b) == [a] + LfFields(b)
    decreases |a|
  {
    if a != [] {
      LfFieldsAfterLine(a[1..], b);
      assert (a + [LF] + b)[1..] == a[1..] + [LF] + b;
      assert [a[0]] + a[1..] == a;
    } else {
      assert a + [LF] + b == [LF] + b;
    }
  }

  lemma {:induction false} LfFieldsOfJoin(p: seq<string>)
    requires p != [] && forall i :: 0 <= i < |p| ==> LfFree(p[i])
    ensures LfFields(Join(p)) == p
    decreases |p|
  {
    if |p| == 1 {
      LfFieldsOfLine(p[0]);
    } else {
      LfFieldsOfJoin(p[1..]);
      LfFieldsAfterLine(p[0], Join(p[1..]));
    }
  }

  lemma {:induction false} LfFieldsOfLine(a: string)
    requires LfFree(a)
    ensures LfFields(a) == [a]
    decreases |a|
  {
    if a != [] {
      LfFieldsOfLine(a[1..]);
      assert [a[0]] + a[1..] == a;
    }
  }

  /** splitlines undoes joining LF-free lines and terminating the text with LF. */
  lemma SplitLinesOfTerminated(p: seq<string>)
    requires p != [] && forall i :: 0 <= i < |p| ==> LfFree(p[i])
    ensures SplitLines(Join(p) + [LF]) == p
  {
    var q := p + [""];
    assert forall i :: 0 <= i < |q| ==> LfFree(q[i]);
    JoinAppendEmpty(p);
    LfFieldsOfJoin(q);
    assert q[..|q| - 1] == p;
  }

  lemma {:induction false} JoinAppendEmpty(p: seq<string>)
    requires p != []
    ensures Join(p + [""]) == Join(p) + [LF]
    decreases |p|
  {
    if |p| > 1 {
      JoinAppendEmpty(p[1..]);
      assert (p + [""])[1..] == p[1..] + [""];
    } else {
      assert (p + [""])[1..] == [""];
    }
  }

  // ---------------------------------------------------------------------------
  // Splitting a range token on ".."

  /** The pieces of s between non-overlapping "..", matched left to right. */
  function DotFields(s: string): (r: seq<string>)
    ensures |r| >= 1
    decreases |s|
  {
    if |s| < 2 then [s]
    else if s[0] == '.' && s[1] == '.' then [""] + DotFields(s[2..])
    else
      var f := DotFields(s[1..]);
      [[s[0]] + f[0]] + f[1..]
  }

  function StripTrailingEmpty(f: seq<string>): (r: seq<string>)
    ensures |r| <= |f| && r == f[..|r|]
    decreases |f|
  {
    if f != [] && f[|f| - 1] == "" then StripTrailingEmpty(f[..|f| - 1]) else f
  }

  /** String.split("\\.\\."): a text without ".." is its own single piece;
      otherwise the trailing empty pieces are dropped. */
  function SplitDots(s: string): seq<string> {
    var f := DotFields(s);
    if |f| == 1 then f else StripTrailingEmpty(f)
  }

  predicate DotFree(s: string) {
    forall i :: 0 <= i < |s| ==> s[i] != '.'
  }

  lemma {:induction false} DotFieldsOfDotFree(a: string)
    requires DotFree(a)
    ensures DotFields(a) == [a]
    decreases |a|
  {
    if |a| >= 2 {
      DotFieldsOfDotFree(a[1..]);
      assert [a[0]] + a[1..] == a;
    }
  }

  lemma {:induction false} DotFieldsAfterPiece(a: string, b: string)
    requires DotFree(a)
    ensures DotFields(a + ".." + b) == [a] + DotFields(b)
    decreases |a|
  {
    if a == [] {
      assert a + ".." + b == ".." + b;
      assert (".." + b)[2..] == b;
    } else {
      DotFieldsAfterPiece(a[1..], b);
      assert (a + ".." + b)[1..] == a[1..] + ".." + b;
      assert [a[0]] + a[1..] == a;
    }
  }

  /** Two non-empty dot-free operands joined by ".." split back into exactly those two. */
  lemma SplitDotsOfPair(a: string, b: string)
    requires DotFree(a) && DotFree(b) && b != ""
    ensures SplitDots(a + ".." + b) == [a, b]
  {
    DotFieldsAfterPiece(a, b);
    DotFieldsOfDotFree(b);
  }

  lemma NumbersAreDotFree(n: int)
    ensures DotFree(IntToString(n)) && IntToString(n) != ""
  {
  }
}

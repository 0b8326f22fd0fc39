/** Text as the config mergers see it: Python's whitespace, `str.splitlines`, `strip` and `'\n'.join`. */
module TextLines {

  /** The characters at which `str.splitlines` breaks. */
  predicate IsBreak(c: char) {
    '\n' <= c <= '\r' || '\U{1C}' <= c <= '\U{1E}' || c == '\U{85}' || c == '\U{2028}' || c == '\U{2029}'
  }

  /** The characters that `strip` removes and `\s` matches. */
  predicate IsSpace(c: char) {
    || '\t' <= c <= '\r' || '\U{1C}' <= c <= ' ' || c == '\U{85}' || c == '\U{A0}' || c == '\U{1680}'
    || '\U{2000}' <= c <= '\U{200A}' || c == '\U{2028}' || c == '\U{2029}' || c == '\U{202F}'
    || c == '\U{205F}' || c == '\U{3000}'
  }

  ghost predicate AllSpace(s: string) { forall i :: 0 <= i < |s| ==> IsSpace(s[i]) }

  ghost predicate NoBreak(s: string) { forall i :: 0 <= i < |s| ==> !IsBreak(s[i]) }

  // ----- stripping ------------------------------------------------------------------------------

  /** How many characters stay when trailing space goes. */
  function Kept(s: string): (n: nat)
    ensures n <= |s| && AllSpace(s[n..]) && (n > 0 ==> !IsSpace(s[n - 1]))
  {
    if s == "" || !IsSpace(s[|s| - 1]) then |s|
    else
      var n := Kept(s[..|s| - 1]);
      assert s[n..] == s[..|s| - 1][n..] + [s[|s| - 1]];
      n
  }

  /** How many leading characters are space. */
  function Lead(s: string): (n: nat)
    ensures n <= |s| && AllSpace(s[..n]) && (n < |s| ==> !IsSpace(s[n]))
  {
    if s == "" || !IsSpace(s[0]) then 0
    else
      var n := Lead(s[1..]);
      assert s[..1 + n] == [s[0]] + s[1..][..n];
      1 + n
  }

  lemma LeadStops(s: string, i: nat)
    requires i < |s| && !IsSpace(s[i])
    ensures Lead(s) <= i
  {
    if i > 0 {
      LeadStops(s[1..], i - 1);
    }
  }

  lemma KeptReaches(s: string, i: nat)
    requires i < |s| && !IsSpace(s[i])
    ensures Kept(s) > i
  {
    if i < |s| - 1 {
      KeptReaches(s[..|s| - 1], i);
    }
  }

  function RStrip(s: string): string { s[..Kept(s)] }

  function LStrip(s: string): string { s[Lead(s)..] }

  function Strip(s: string): string { LStrip(RStrip(s)) }

  predicate Blank(s: string) { Strip(s) == "" }

  lemma RStripIs(r: string, after: string)
    requires AllSpace(after) && (r == "" || !IsSpace(r[|r| - 1]))
    ensures RStrip(r + after) == r
  {
    KeptIs(r, after);
  }

  lemma {:induction false} KeptIs(r: string, after: string)
    requires AllSpace(after)
    ensures Kept(r + after) == Kept(r)
    decreases |after|
  {
    if after == "" {
      assert r + after == r;
    } else {
      assert (r + after)[..|r + after| - 1] == r + after[..|after| - 1];
      KeptIs(r, after[..|after| - 1]);
    }
  }

  lemma LStripIs(before: string, r: string)
    requires AllSpace(before) && (r == "" || !IsSpace(r[0]))
    ensures LStrip(before + r) == r
  {
    LeadIs(before, r);
  }

  lemma {:induction false} LeadIs(before: string, r: string)
    requires AllSpace(before)
    ensures Lead(before + r) == |before| + Lead(r)
    decreases |before|
  {
    if before == "" {
      assert before + r == r;
    } else {
      assert (before + r)[1..] == before[1..] + r;
      LeadIs(before[1..], r);
    }
  }

  lemma StripSpace(s: string)
    requires AllSpace(s)
    ensures Strip(s) == ""
  {
    RStripIs("", s);
    assert "" + s == s;
  }

  lemma StripIs(before: string, mid: string, after: string)
    requires AllSpace(before) && AllSpace(after)
    requires mid != "" && !IsSpace(mid[0]) && !IsSpace(mid[|mid| - 1])
    ensures Strip(before + mid + after) == mid
  {
    var r := before + mid;
    assert r[|r| - 1] == mid[|mid| - 1];
    RStripIs(r, after);
    LStripIs(before, mid);
  }

  lemma StripParts(s: string) returns (before: string, after: string)
    ensures s == before + Strip(s) + after && AllSpace(before) && AllSpace(after)
  {
    var r := RStrip(s);
    before, after := r[..Lead(r)], s[|r|..];
    assert r == before + Strip(s);
    assert s == r + after;
  }

  lemma BlankIsAllSpace(s: string)
    ensures Blank(s) <==> AllSpace(s)
  {
    var before, after := StripParts(s);
    if AllSpace(s) {
      StripSpace(s);
    }
  }

  // ----- cutting at a character ---------------------------------------------------------------------

  /** The place of the first `c`, or the length. */
  function Cut(s: string, c: char): (n: nat)
    ensures n <= |s| && c !in s[..n] && (n < |s| ==> s[n] == c)
  {
    if s == "" || s[0] == c then 0
    else
      assert s[..1 + Cut(s[1..], c)] == [s[0]] + s[1..][..Cut(s[1..], c)];
      1 + Cut(s[1..], c)
  }

  lemma CutStops(s: string, c: char, i: nat)
    requires i < |s| && s[i] == c
    ensures Cut(s, c) <= i
  {
    if i > 0 {
      CutStops(s[1..], c, i - 1);
    }
  }

  lemma {:induction false} CutIs(a: string, c: char, b: string)
    requires c !in a && (b == "" || b[0] == c)
    ensures Cut(a + b, c) == |a|
    decreases |a|
  {
    if a == "" {
      assert a + b == b;
    } else {
      assert (a + b)[1..] == a[1..] + b;
      assert a[0] in a;
      CutIs(a[1..], c, b);
    }
  }

  // ----- lines -----------------------------------------------------------------------------------------

  /** A scan over a text: the finished lines, the line under way, and whether the last character was a
      carriage return, which a newline completes to a single break. */
  datatype Scan = Scan(lines: seq<string>, current: string, carriage: bool)

  function Step(t: Scan, c: char): Scan {
    if c == '\n' && t.carriage then Scan(t.lines, t.current, false)
    else if IsBreak(c) then Scan(t.lines + [t.current], "", c == '\r')
    else Scan(t.lines, t.current + [c], false)
  }

  function ScanFrom(t: Scan, s: string): Scan {
    if s == "" then t else Step(ScanFrom(t, s[..|s| - 1]), s[|s| - 1])
  }

  const Start := Scan([], "", false)

  function Scanned(t: Scan): seq<string> { if t.current == "" then t.lines else t.lines + [t.current] }

  /** `str.splitlines`: what follows the last break is a line only when it is not empty. */
  function Lines(s: string): seq<string> { Scanned(ScanFrom(Start, s)) }

  ghost predicate Clean(lines: seq<string>) { forall i :: 0 <= i < |lines| ==> NoBreak(lines[i]) }

  lemma {:induction false} ScanIsClean(s: string)
    ensures Clean(ScanFrom(Start, s).lines) && NoBreak(ScanFrom(Start, s).current)
  {
    if s != "" {
      ScanIsClean(s[..|s| - 1]);
    }
  }

  lemma LinesAreClean(s: string)
    ensures Clean(Lines(s))
  {
    ScanIsClean(s);
  }

  lemma {:induction false} ScanConcat(t: Scan, a: string, b: string)
    ensures ScanFrom(t, a + b) == ScanFrom(ScanFrom(t, a), b)
    decreases |b|
  {
    if b == "" {
      assert a + b == a;
    } else {
      assert (a + b)[..|a + b| - 1] == a + b[..|b| - 1];
      ScanConcat(t, a, b[..|b| - 1]);
    }
  }

  /** Lines finished before do not matter for what follows. */
  lemma {:induction false} ScanShift(done: seq<string>, t: Scan, s: string)
    ensures ScanFrom(Scan(done + t.lines, t.current, t.carriage), s)
         == var u := ScanFrom(t, s); Scan(done + u.lines, u.current, u.carriage)
  {
    if s != "" {
      ScanShift(done, t, s[..|s| - 1]);
      var u := ScanFrom(t, s[..|s| - 1]);
      assert done + (u.lines + [u.current]) == (done + u.lines) + [u.current];
    }
  }

  lemma {:induction false} ScanLine(t: Scan, l: string)
    requires NoBreak(l)
    ensures ScanFrom(t, l) == if l == "" then t else Scan(t.lines, t.current + l, false)
  {
    if l != "" {
      var init := l[..|l| - 1];
      ScanLine(t, init);
      assert !IsBreak(l[|l| - 1]);
      assert (t.current + init) + [l[|l| - 1]] == t.current + l;
    }
  }

  lemma ScanChar(t: Scan, c: char)
    ensures ScanFrom(t, [c]) == Step(t, c)
  {
    assert [c][..0] == "";
  }

  lemma {:induction false} AfterNewline(t: Scan, u: string)
    requires u != "" && u[|u| - 1] == '\n' && !t.carriage && t.current == ""
    ensures ScanFrom(t, u).current == "" && !ScanFrom(t, u).carriage
  {
    var init := u[..|u| - 1];
    CarriageIsBreak(t, init);
  }

  /** After a carriage return no line is under way. */
  lemma {:induction false} CarriageIsBreak(t: Scan, s: string)
    requires t.carriage ==> t.current == ""
    ensures ScanFrom(t, s).carriage ==> ScanFrom(t, s).current == ""
  {
    if s != "" {
      CarriageIsBreak(t, s[..|s| - 1]);
    }
  }

  /** Text after a newline splits on its own. */
  lemma LinesConcat(u: string, z: string)
    requires u == "" || u[|u| - 1] == '\n'
    ensures Lines(u + z) == Lines(u) + Lines(z)
  {
    if u == "" {
      assert u + z == z;
    } else {
      AfterNewline(Start, u);
      var t := ScanFrom(Start, u);
      ScanConcat(Start, u, z);
      ScanShift(t.lines, Start, z);
      assert t.lines + [] == t.lines;
    }
  }

  lemma OneLine(l: string)
    requires NoBreak(l)
    ensures Lines(l + "\n") == [l]
  {
    ScanConcat(Start, l, "\n");
    ScanLine(Start, l);
    var t := ScanFrom(Start, l);
    assert "" + l == l && [] + [l] == [l];
    assert t == Scan([], l, false);
    ScanChar(t, '\n');
    assert ScanFrom(Start, l + "\n") == Scan([l], "", false);
  }

  lemma FirstLine(l: string, rest: string)
    requires NoBreak(l)
    ensures Lines(l + "\n" + rest) == [l] + Lines(rest)
  {
    OneLine(l);
    LinesConcat(l + "\n", rest);
  }

  /** A last newline adds no line. */
  lemma FinalNewline(y: string)
    requires y != "" && !IsBreak(y[|y| - 1])
    ensures Lines(y + "\n") == Lines(y)
  {
    ScanConcat(Start, y, "\n");
    ScanChar(ScanFrom(Start, y), '\n');
  }

  /** After a break every text splits on its own, unless a newline completes a carriage return. */
  lemma ScanAfterBreak(t: Scan, rest: string)
    requires t.current == "" && (t.carriage ==> rest == "" || rest[0] != '\n')
    ensures Scanned(ScanFrom(t, rest)) == t.lines + Lines(rest)
  {
    if rest == "" {
      assert t.lines + [] == t.lines;
    } else {
      var first, more := rest[..1], rest[1..];
      assert rest == first + more && first == [rest[0]];
      ScanConcat(t, first, more);
      ScanConcat(Start, first, more);
      ScanChar(t, rest[0]);
      ScanChar(Start, rest[0]);
      var u := Step(Start, rest[0]);
      assert Step(t, rest[0]) == Scan(t.lines + u.lines, u.current, u.carriage) by {
        assert t.lines + [] == t.lines && t.lines + ([] + [""]) == t.lines + [""];
      }
      ScanShift(t.lines, u, more);
      ScannedShift(t.lines, ScanFrom(u, more));
    }
  }

  lemma ScannedShift(done: seq<string>, u: Scan)
    ensures Scanned(Scan(done + u.lines, u.current, u.carriage)) == done + Scanned(u)
  {
  }

  /** Every break ends a line; a carriage return and a newline together are one break. */
  lemma BreakEndsLine(l: string, c: char, rest: string)
    requires NoBreak(l) && IsBreak(c) && (c == '\r' ==> rest == "" || rest[0] != '\n')
    ensures Lines(l + [c] + rest) == [l] + Lines(rest)
  {
    ScanConcat(Start, l + [c], rest);
    ScanConcat(Start, l, [c]);
    ScanLine(Start, l);
    var t := ScanFrom(Start, l);
    assert t.lines == [] && t.current == l by { assert "" + l == l; }
    ScanChar(t, c);
    assert [] + [l] == [l];
    assert ScanFrom(Start, l + [c]) == Scan([l], "", c == '\r') by { assert !t.carriage; }
    ScanAfterBreak(Scan([l], "", c == '\r'), rest);
  }

  lemma CarriageReturnNewlineEndsLine(l: string, rest: string)
    requires NoBreak(l)
    ensures Lines(l + ['\r', '\n'] + rest) == [l] + Lines(rest)
  {
    var s := l + ['\r'];
    ScanConcat(Start, s + ['\n'], rest);
    assert s + ['\n'] == l + ['\r', '\n'];
    ScanConcat(Start, s, ['\n']);
    ScanConcat(Start, l, ['\r']);
    ScanLine(Start, l);
    var t := ScanFrom(Start, l);
    assert t.lines == [] && t.current == l by { assert "" + l == l; }
    ScanChar(t, '\r');
    assert [] + [l] == [l];
    assert ScanFrom(Start, s) == Scan([l], "", true) by { assert !t.carriage; }
    ScanChar(Scan([l], "", true), '\n');
    ScanAfterBreak(Scan([l], "", false), rest);
  }

  /** `'\n'.join`. */
  function Join(lines: seq<string>): string {
    if lines == [] then ""
    else if |lines| == 1 then lines[0]
    else Join(lines[..|lines| - 1]) + "\n" + lines[|lines| - 1]
  }

  lemma JoinLast(lines: seq<string>, last: string)
    ensures Join(lines + [last]) == (if lines == [] then "" else Join(lines) + "\n") + last
  {
    assert (lines + [last])[..|lines|] == lines;
  }

  lemma {:induction false} JoinConcat(a: seq<string>, b: seq<string>)
    requires a != [] && b != []
    ensures Join(a + b) == Join(a) + "\n" + Join(b)
    decreases |b|
  {
    var init, last := b[..|b| - 1], b[|b| - 1];
    assert b == init + [last];
    assert a + b == (a + init) + [last];
    JoinLast(a + init, last);
    JoinLast(init, last);
    if init == [] {
      assert a + init == a;
    } else {
      JoinConcat(a, init);
    }
  }

  lemma {:induction false} LinesOfJoin(lines: seq<string>)
    requires lines != [] && Clean(lines)
    ensures Lines(Join(lines) + "\n") == lines
  {
    var init, last := lines[..|lines| - 1], lines[|lines| - 1];
    assert lines == init + [last];
    OneLine(last);
    JoinLast(init, last);
    if init != [] {
      LinesOfJoin(init);
      var u := Join(init) + "\n";
      LinesConcat(u, last + "\n");
      assert Join(lines) + "\n" == u + (last + "\n");
    }
  }

  ghost predicate OnlyNewlines(s: string) { forall i :: 0 <= i < |s| && IsBreak(s[i]) ==> s[i] == '\n' }

  lemma {:induction false} JoinHasOnlyNewlines(lines: seq<string>)
    requires Clean(lines)
    ensures OnlyNewlines(Join(lines))
  {
    if |lines| > 1 {
      JoinHasOnlyNewlines(lines[..|lines| - 1]);
    }
  }

  ghost predicate Whole(t: Scan, s: string) { !t.carriage && Join(t.lines + [t.current]) == s }

  lemma StepWhole(t: Scan, s: string, c: char)
    requires Whole(t, s) && (IsBreak(c) ==> c == '\n')
    ensures Whole(Step(t, c), s + [c])
  {
    JoinLast(t.lines, t.current);
    if c == '\n' {
      JoinLast(t.lines + [t.current], "");
    } else {
      JoinLast(t.lines, t.current + [c]);
    }
  }

  lemma {:induction false} ScanOfNewlines(s: string)
    requires OnlyNewlines(s)
    ensures Whole(ScanFrom(Start, s), s)
  {
    if s != "" {
      var init, c := s[..|s| - 1], s[|s| - 1];
      ScanOfNewlines(init);
      StepWhole(ScanFrom(Start, init), init, c);
      assert init + [c] == s;
    }
  }

  /** Splitting and joining give the text back exactly when its only line break is the newline. */
  lemma JoinOfLines(y: string)
    requires y != "" && !IsBreak(y[|y| - 1])
    ensures Join(Lines(y)) == y <==> OnlyNewlines(y)
  {
    LinesAreClean(y);
    JoinHasOnlyNewlines(Lines(y));
    if OnlyNewlines(y) {
      ScanOfNewlines(y);
    }
  }

  // ----- stripping a whole document --------------------------------------------------------------------

  /** What `rstrip` does to the lines: trailing blank lines go, and the last line loses its trailing space. */
  function RStripLines(lines: seq<string>): seq<string> {
    if lines == [] then []
    else if Blank(lines[|lines| - 1]) then RStripLines(lines[..|lines| - 1])
    else lines[..|lines| - 1] + [RStrip(lines[|lines| - 1])]
  }

  lemma {:induction false} RStripJoin(lines: seq<string>)
    ensures RStrip(Join(lines)) == Join(RStripLines(lines))
  {
    if lines != [] {
      var init, last := lines[..|lines| - 1], lines[|lines| - 1];
      assert lines == init + [last];
      JoinLast(init, last);
      BlankIsAllSpace(last);
      if Blank(last) {
        RStripJoin(init);
        assert RStripLines(lines) == RStripLines(init);
        RStripBlankEnd(init, last);
      } else {
        assert RStripLines(lines) == init + [RStrip(last)];
        RStripNonBlank(if init == [] then "" else Join(init) + "\n", last);
        JoinLast(init, RStrip(last));
      }
    }
  }

  lemma RStripBlankEnd(init: seq<string>, last: string)
    requires AllSpace(last)
    ensures RStrip(Join(init + [last])) == RStrip(Join(init))
  {
    JoinLast(init, last);
    if init == [] {
      RStripSpace("", last);
    } else {
      var w := "\n" + last;
      RStripSpace(Join(init), w);
      assert Join(init) + "\n" + last == Join(init) + w;
    }
  }

  lemma RStripSpace(a: string, w: string)
    requires AllSpace(w)
    ensures RStrip(a + w) == RStrip(a)
  {
    KeptIs(a, w);
    assert (a + w)[..Kept(a)] == a[..Kept(a)];
  }

  lemma RStripNonBlank(a: string, l: string)
    requires !AllSpace(l)
    ensures RStrip(a + l) == a + RStrip(l) && RStrip(l) != ""
  {
    var r := RStrip(l);
    assert l[0..] == l;
    assert a + l == (a + r) + l[|r|..];
    RStripIs(a + r, l[|r|..]);
  }

  /** A line that is not blank stays so, and is stripped once and for all. */
  lemma RStripLine(l: string)
    requires !Blank(l)
    ensures !Blank(RStrip(l)) && RStrip(RStrip(l)) == RStrip(l)
    ensures NoBreak(l) ==> NoBreak(RStrip(l))
  {
    BlankIsAllSpace(l);
    RStripNonBlank("", l);
    var r := RStrip(l);
    assert !AllSpace(r) by { assert !IsSpace(r[|r| - 1]); }
    BlankIsAllSpace(r);
    RStripIs(r, "");
    assert r + "" == r;
  }

  lemma {:induction false} RStripLinesAgain(lines: seq<string>)
    ensures RStripLines(RStripLines(lines)) == RStripLines(lines)
    ensures Clean(lines) ==> Clean(RStripLines(lines))
  {
    if lines != [] {
      var init, last := lines[..|lines| - 1], lines[|lines| - 1];
      if Blank(last) {
        RStripLinesAgain(init);
      } else {
        RStripLine(last);
        var r := RStrip(last);
        assert (init + [r])[..|init|] == init;
      }
    }
  }

  lemma {:induction false} RStripLinesKeepsFront(a: seq<string>, b: seq<string>)
    requires RStripLines(b) != []
    ensures RStripLines(a + b) == a + RStripLines(b)
    decreases |b|
  {
    assert (a + b)[..|a + b| - 1] == a + b[..|b| - 1];
    if Blank(b[|b| - 1]) {
      RStripLinesKeepsFront(a, b[..|b| - 1]);
    }
  }

  lemma {:induction false} RStripLinesDropsBlanks(a: seq<string>, b: seq<string>)
    requires forall i :: 0 <= i < |b| ==> Blank(b[i])
    ensures RStripLines(a + b) == RStripLines(a)
    decreases |b|
  {
    if b == [] {
      assert a + b == a;
    } else {
      assert (a + b)[..|a + b| - 1] == a + b[..|b| - 1];
      RStripLinesDropsBlanks(a, b[..|b| - 1]);
    }
  }
}

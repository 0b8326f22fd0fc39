/** The block replacer of lib/provider_profiles/codex_home_config.py: every managed block of hook state,
    from a begin line through the next end line, is taken out and a new one is put at the end. */
module ActivityBlock {
  import opened TextLines
  import opened TomlMerge

  /** The lines that open and close a block, and how lines are read as such. */
  datatype Markers = Markers(begin: string, end: string, opens: Reading, closes: Reading)

  function ReadsAs(marker: string): Reading { l => Strip(l) == marker }

  function MarkersOf(begin: string, end: string): Markers { Markers(begin, end, ReadsAs(begin), ReadsAs(end)) }

  function Marker(word: string): string { "# ccb managed " + "codex activity " + "hook state: " + word }

  function Managed(): Markers { MarkersOf(Marker("begin"), Marker("end")) }

  // ----- taking blocks out --------------------------------------------------------------------

  /** How many lines there are through the first closing one. */
  function Through(lines: seq<string>, closes: Reading): (n: nat)
    ensures n <= |lines|
  {
    if lines == [] then 0 else if closes(lines[0]) then 1 else 1 + Through(lines[1..], closes)
  }

  function DropBlocks(lines: seq<string>, opens: Reading, closes: Reading): seq<string>
    decreases |lines|
  {
    if lines == [] then []
    else if opens(lines[0]) then DropBlocks(lines[1..][Through(lines[1..], closes)..], opens, closes)
    else [lines[0]] + DropBlocks(lines[1..], opens, closes)
  }

  method RemoveBlocks(lines: seq<string>, opens: Reading, closes: Reading) returns (cleaned: seq<string>)
    ensures cleaned == DropBlocks(lines, opens, closes)
  {
    cleaned := [];
    var i := 0;
    while i < |lines|
      invariant i <= |lines| && cleaned + DropBlocks(lines[i..], opens, closes) == DropBlocks(lines, opens, closes)
    {
      var rest := lines[i..];
      assert rest[0] == lines[i] && rest[1..] == lines[i + 1..];
      if opens(lines[i]) {
        i := SkipBlock(lines, i + 1, closes);
        assert rest[1..][Through(rest[1..], closes)..] == lines[i..];
      } else {
        cleaned := cleaned + [lines[i]];
        i := i + 1;
      }
    }
  }

  method SkipBlock(lines: seq<string>, start: nat, closes: Reading) returns (i: nat)
    requires start <= |lines|
    ensures i == start + Through(lines[start..], closes)
  {
    i := start;
    while i < |lines| && !closes(lines[i])
      invariant start <= i <= |lines| && start + Through(lines[start..], closes) == i + Through(lines[i..], closes)
    {
      assert lines[i..][1..] == lines[i + 1..];
      i := i + 1;
    }
    if i < |lines| {
      i := i + 1;
    }
  }

  lemma {:induction false} ThroughIs(m: seq<string>, rest: seq<string>, closes: Reading)
    requires Without(m, closes) && (rest == [] || closes(rest[0]))
    ensures Through(m + rest, closes) == |m| + if rest == [] then 0 else 1
    decreases |m|
  {
    if m == [] {
      assert m + rest == rest;
    } else {
      assert (m + rest)[1..] == m[1..] + rest;
      ThroughIs(m[1..], rest, closes);
    }
  }

  /** Lines before the first block stay as they are. */
  lemma {:induction false} DropBlocksBefore(a: seq<string>, rest: seq<string>, opens: Reading, closes: Reading)
    requires Without(a, opens)
    ensures DropBlocks(a + rest, opens, closes) == a + DropBlocks(rest, opens, closes)
    decreases |a|
  {
    if a == [] {
      assert a + rest == rest;
    } else {
      assert (a + rest)[1..] == a[1..] + rest;
      DropBlocksBefore(a[1..], rest, opens, closes);
    }
  }

  /** A block goes with both its markers and everything between them. */
  lemma BlockGoes(first: string, m: seq<string>, last: string, rest: seq<string>, opens: Reading, closes: Reading)
    requires opens(first) && Without(m, closes) && closes(last)
    ensures DropBlocks([first] + m + [last] + rest, opens, closes) == DropBlocks(rest, opens, closes)
  {
    var lines := [first] + m + [last] + rest;
    ThroughIs(m, [last] + rest, closes);
    assert lines[1..] == m + ([last] + rest);
    assert lines[1..][|m| + 1..] == rest;
  }

  /** A block that is never closed takes the rest of the document with it. */
  lemma OpenBlockGoes(first: string, m: seq<string>, opens: Reading, closes: Reading)
    requires opens(first) && Without(m, closes)
    ensures DropBlocks([first] + m, opens, closes) == []
  {
    ThroughIs(m, [], closes);
    assert m + [] == m && ([first] + m)[1..] == m;
  }

  lemma {:induction false} NoBlockIsLeft(lines: seq<string>, opens: Reading, closes: Reading)
    ensures Without(DropBlocks(lines, opens, closes), opens)
    decreases |lines|
  {
    if lines != [] {
      if opens(lines[0]) {
        NoBlockIsLeft(lines[1..][Through(lines[1..], closes)..], opens, closes);
      } else {
        NoBlockIsLeft(lines[1..], opens, closes);
      }
    }
  }

  lemma {:induction false} DropBlocksIsClean(lines: seq<string>, opens: Reading, closes: Reading)
    requires Clean(lines)
    ensures Clean(DropBlocks(lines, opens, closes))
    decreases |lines|
  {
    if lines != [] {
      if opens(lines[0]) {
        DropBlocksIsClean(lines[1..][Through(lines[1..], closes)..], opens, closes);
      } else {
        DropBlocksIsClean(lines[1..], opens, closes);
      }
    }
  }

  // ----- the replacer -----------------------------------------------------------------------------

  function Cleaned(text: string, m: Markers): seq<string> { DropBlocks(Lines(text), m.opens, m.closes) }

  function ReplaceText(text: string, block: string, m: Markers): string {
    Strip(Join(Cleaned(text, m) + ["", m.begin, block, m.end])) + "\n"
  }

  /** A rendered block: at least one line, and none of them a marker. */
  ghost predicate BlockLines(b: seq<string>, m: Markers) { b != [] && Clean(b) && Without(b, m.opens) && Without(b, m.closes) }

  function Block(b: seq<string>, m: Markers): seq<string> { [m.begin] + b + [m.end] }

  /** What is used of the markers. */
  ghost predicate Proper(m: Markers) {
    && m.opens(m.begin) && m.closes(m.end) && !m.opens("") && NoBreak(m.begin) && NoBreak(m.end)
    && Outer(m.begin) && Outer(m.end) && Tolerant(m.opens)
  }

  /** Leading space does not make an opening line. */
  ghost predicate Tolerant(opens: Reading) { forall l {:trigger LStrip(l)} :: opens(LStrip(l)) ==> opens(l) }

  /** A text with no space at its ends. */
  ghost predicate Outer(l: string) { !Blank(l) && RStrip(l) == l && LStrip(l) == l }

  ghost predicate Plain(l: string) { l != "" && !IsSpace(l[0]) && !IsSpace(l[|l| - 1]) && NoBreak(l) }

  lemma MarkersAreProper(begin: string, end: string)
    requires Plain(begin) && Plain(end)
    ensures Proper(MarkersOf(begin, end))
  {
    OuterIs(begin);
    OuterIs(end);
    StripSpace("");
    OpensAfterStripping(begin);
  }

  lemma OpensAfterStripping(begin: string)
    ensures Tolerant(ReadsAs(begin))
  {
    forall l ensures ReadsAs(begin)(LStrip(l)) ==> ReadsAs(begin)(l) {
      StripOfLStrip(l);
    }
  }

  lemma OuterIs(l: string)
    requires l != "" && !IsSpace(l[0]) && !IsSpace(l[|l| - 1])
    ensures Outer(l) && Strip(l) == l
  {
    RStripIs(l, "");
    LStripIs("", l);
    assert "" + l == l && l + "" == l;
  }

  // ----- stripping from the front --------------------------------------------------------------------

  function LStripLines(lines: seq<string>): seq<string> {
    if lines == [] then []
    else if Blank(lines[0]) then LStripLines(lines[1..])
    else [LStrip(lines[0])] + lines[1..]
  }

  lemma JoinFirst(first: string, lines: seq<string>)
    ensures Join([first] + lines) == first + if lines == [] then "" else "\n" + Join(lines)
  {
    if lines != [] {
      JoinConcat([first], lines);
    } else {
      assert [first] + lines == [first];
    }
  }

  lemma LStripSpace(w: string, s: string)
    requires AllSpace(w)
    ensures LStrip(w + s) == LStrip(s)
  {
    LeadIs(w, s);
    assert (w + s)[|w| + Lead(s)..] == s[Lead(s)..];
  }

  lemma LStripFull(l: string, s: string)
    requires !AllSpace(l)
    ensures LStrip(l + s) == LStrip(l) + s
  {
    var w, r := l[..Lead(l)], LStrip(l);
    assert l == w + r;
    assert r != "" by { assert w + "" == w; }
    assert l + s == w + (r + s);
    LStripIs(w, r + s);
  }

  lemma {:induction false} LStripJoin(lines: seq<string>)
    ensures LStrip(Join(lines)) == Join(LStripLines(lines))
  {
    if lines != [] {
      var first, rest := lines[0], lines[1..];
      assert lines == [first] + rest;
      JoinFirst(first, rest);
      BlankIsAllSpace(first);
      if Blank(first) {
        LStripJoin(rest);
        LStripBlank(first, rest);
      } else {
        JoinFirst(LStrip(first), rest);
        LStripFull(first, if rest == [] then "" else "\n" + Join(rest));
      }
    }
  }

  lemma LStripBlank(first: string, rest: seq<string>)
    requires AllSpace(first)
    ensures LStrip(Join([first] + rest)) == LStrip(Join(rest))
  {
    JoinFirst(first, rest);
    if rest == [] {
      LStripSpace(first, "");
    } else {
      LStripSpace(first + "\n", Join(rest));
      assert first + ("\n" + Join(rest)) == (first + "\n") + Join(rest);
    }
  }

  lemma {:induction false} LStripLinesFront(a: seq<string>, rest: seq<string>)
    ensures LStripLines(a + rest) == if LStripLines(a) == [] then LStripLines(rest) else LStripLines(a) + rest
  {
    if a == [] {
      assert a + rest == rest;
    } else {
      assert (a + rest)[1..] == a[1..] + rest;
      if Blank(a[0]) {
        LStripLinesFront(a[1..], rest);
      } else {
        assert [LStrip(a[0])] + (a[1..] + rest) == ([LStrip(a[0])] + a[1..]) + rest;
      }
    }
  }

  ghost predicate AllBlankLines(lines: seq<string>) { forall i :: 0 <= i < |lines| ==> Blank(lines[i]) }

  lemma {:induction false} LStripLinesEmpty(lines: seq<string>)
    ensures LStripLines(lines) == [] <==> AllBlankLines(lines)
  {
    if lines != [] && Blank(lines[0]) {
      LStripLinesEmpty(lines[1..]);
      assert forall i :: 1 <= i < |lines| ==> lines[i] == lines[1..][i - 1];
    }
  }

  lemma StripOfLStrip(l: string)
    ensures Strip(LStrip(l)) == Strip(l) && (NoBreak(l) ==> NoBreak(LStrip(l)))
  {
    BlankIsAllSpace(l);
    if AllSpace(l) {
      LeadOfSpace(l);
    } else {
      var w, r := l[..Lead(l)], LStrip(l);
      assert l == w + r;
      RStripBehindSpace(w, r);
    }
  }

  lemma LeadOfSpace(l: string)
    requires AllSpace(l)
    ensures LStrip(l) == "" && Strip(l) == "" && Strip("") == ""
  {
    LStripIs(l, "");
    assert l + "" == l;
    StripSpace(l);
    StripSpace("");
  }

  lemma RStripBehindSpace(w: string, r: string)
    requires AllSpace(w) && r != "" && !IsSpace(r[0])
    ensures Strip(w + r) == Strip(r)
  {
    KeptReaches(r, 0);
    var n := Kept(r);
    var k, after := r[..n], r[n..];
    assert r == k + after && k[0] == r[0] && k[|k| - 1] == r[n - 1];
    SameStrip(w, k, after);
  }

  lemma SameStrip(w: string, k: string, after: string)
    requires AllSpace(w) && AllSpace(after) && k != "" && !IsSpace(k[0]) && !IsSpace(k[|k| - 1])
    ensures Strip(w + (k + after)) == Strip(k + after)
  {
    StripBetween(w, k, after);
    StripBetween("", k, after);
    assert "" + (k + after) == k + after;
  }

  lemma StripBetween(w: string, k: string, after: string)
    requires AllSpace(w) && AllSpace(after) && k != "" && !IsSpace(k[0]) && !IsSpace(k[|k| - 1])
    ensures Strip(w + (k + after)) == k
  {
    StripIs(w, k, after);
    assert w + (k + after) == w + k + after;
  }

  // ----- the result of one run ----------------------------------------------------------------------------

  /** What is kept of a document: its lines outside of blocks, without blank lines at the top. */
  function Survivors(text: string, m: Markers): seq<string> { LStripLines(Cleaned(text, m)) }

  /** `kept` and the block, with an empty line between them for each of `n` runs. */
  function Result(kept: seq<string>, n: nat, b: seq<string>, m: Markers): seq<string> {
    (if kept == [] then [] else kept + Empties(n)) + Block(b, m)
  }

  function Empties(n: nat): (r: seq<string>)
    ensures |r| == n && forall i :: 0 <= i < n ==> r[i] == ""
  {
    if n == 0 then [] else Empties(n - 1) + [""]
  }

  lemma JoinBlock(cleaned: seq<string>, b: seq<string>, m: Markers)
    requires b != []
    ensures Join(cleaned + ["", m.begin, Join(b), m.end]) == Join(cleaned + ([""] + Block(b, m)))
  {
    var front := cleaned + ["", m.begin];
    JoinConcat(front, [Join(b), m.end]);
    JoinConcat(front, b + [m.end]);
    JoinConcat([Join(b)], [m.end]);
    JoinConcat(b, [m.end]);
    assert [Join(b)] + [m.end] == [Join(b), m.end];
    assert cleaned + ["", m.begin, Join(b), m.end] == front + [Join(b), m.end];
    assert cleaned + ([""] + Block(b, m)) == front + (b + [m.end]);
  }

  lemma LStripBlockLines(b: seq<string>, m: Markers)
    requires Proper(m)
    ensures LStripLines([""] + Block(b, m)) == Block(b, m)
  {
    var lines := Block(b, m);
    assert lines[0] == m.begin && lines == [m.begin] + lines[1..];
    assert ([""] + lines)[1..] == lines;
  }

  lemma EndStays(lines: seq<string>, m: Markers)
    requires Proper(m)
    ensures RStripLines(lines + [m.end]) == lines + [m.end]
  {
    assert (lines + [m.end])[..|lines|] == lines;
  }

  lemma AllStripped(init: seq<string>, all: seq<string>, m: Markers)
    requires Proper(m) && all == init + [m.end]
    ensures Strip(Join(all)) == Join(LStripLines(all))
  {
    RStripJoin(all);
    EndStays(init, m);
    LStripJoin(all);
  }

  /** A block behind what is kept. */
  function Behind(kept: seq<string>, b: seq<string>, m: Markers): seq<string> {
    if kept == [] then Block(b, m) else kept + ([""] + Block(b, m))
  }

  /** One run on lines that are free of blocks. */
  lemma OneRun(cleaned: seq<string>, kept: seq<string>, b: seq<string>, m: Markers)
    requires Proper(m) && b != [] && kept == LStripLines(cleaned)
    ensures Strip(Join(cleaned + ["", m.begin, Join(b), m.end])) == Join(Behind(kept, b, m))
  {
    var all := cleaned + ([""] + Block(b, m));
    JoinBlock(cleaned, b, m);
    AllStripped(cleaned + ([""] + [m.begin] + b), all, m) by {
      EndsWithEnd(cleaned, b, m);
    }
    LStripLinesFront(cleaned, [""] + Block(b, m));
    LStripBlockLines(b, m);
  }

  lemma EndsWithEnd(cleaned: seq<string>, b: seq<string>, m: Markers)
    ensures cleaned + ([""] + Block(b, m)) == cleaned + ([""] + [m.begin] + b) + [m.end]
  {
  }

  lemma {:induction false} LStripLinesKeep(lines: seq<string>, m: Markers)
    requires Proper(m)
    requires Clean(lines) && Without(lines, m.opens)
    ensures Clean(LStripLines(lines)) && Without(LStripLines(lines), m.opens)
  {
    if lines != [] {
      if Blank(lines[0]) {
        LStripLinesKeep(lines[1..], m);
      } else {
        StripOfLStrip(lines[0]);
      }
    }
  }

  lemma {:induction false} LStripLinesAgain(lines: seq<string>)
    ensures LStripLines(LStripLines(lines)) == LStripLines(lines)
  {
    if lines != [] {
      if Blank(lines[0]) {
        LStripLinesAgain(lines[1..]);
      } else {
        var first := LStrip(lines[0]);
        StripOfLStrip(lines[0]);
        LStripTwice(lines[0]);
        assert ([first] + lines[1..])[1..] == lines[1..];
      }
    }
  }

  lemma LStripTwice(l: string)
    ensures LStrip(LStrip(l)) == LStrip(l)
  {
    var r := LStrip(l);
    LStripIs("", r);
    assert "" + r == r;
  }

  lemma KeptFacts(text: string, m: Markers)
    requires Proper(m)
    ensures Clean(Survivors(text, m)) && Without(Survivors(text, m), m.opens) && LStripLines(Survivors(text, m)) == Survivors(text, m)
    ensures Survivors(text, m) == [] <==> AllBlankLines(Cleaned(text, m))
  {
    LinesAreClean(text);
    DropBlocksIsClean(Lines(text), m.opens, m.closes);
    NoBlockIsLeft(Lines(text), m.opens, m.closes);
    LStripLinesKeep(Cleaned(text, m), m);
    LStripLinesAgain(Cleaned(text, m));
    LStripLinesEmpty(Cleaned(text, m));
  }

  lemma ResultIsClean(kept: seq<string>, n: nat, b: seq<string>, m: Markers)
    requires Proper(m)
    requires Clean(kept) && Clean(b)
    ensures Clean(Result(kept, n, b, m)) && Result(kept, n, b, m) != []
  {
  }

  /** Every line outside of blocks stays, and exactly one block is left, at the end. */
  lemma FirstRun(text: string, b: seq<string>, m: Markers)
    requires Proper(m)
    requires BlockLines(b, m)
    ensures ReplaceText(text, Join(b), m) == Join(Result(Survivors(text, m), 1, b, m)) + "\n"
    ensures Lines(ReplaceText(text, Join(b), m)) == Result(Survivors(text, m), 1, b, m)
  {
    var kept := Survivors(text, m);
    KeptFacts(text, m);
    RunOnFront(text, kept, b, m);
    assert (if kept == [] then [] else kept + Empties(0)) == kept;
    BehindIsResult(kept, 0, b, m);
    ResultIsClean(kept, 1, b, m);
    LinesOfJoin(Result(kept, 1, b, m));
  }

  // ----- further runs ----------------------------------------------------------------------------------------

  /** Taking the block out of a result. */
  lemma ResultCleaned(kept: seq<string>, n: nat, b: seq<string>, m: Markers)
    requires Proper(m)
    requires Without(kept, m.opens) && BlockLines(b, m)
    ensures DropBlocks(Result(kept, n, b, m), m.opens, m.closes) == if kept == [] then [] else kept + Empties(n)
  {
    var front := if kept == [] then [] else kept + Empties(n);
    DropBlocksBefore(front, Block(b, m), m.opens, m.closes);
    BlockGoes(m.begin, b, m.end, [], m.opens, m.closes);
    assert [m.begin] + b + [m.end] + [] == Block(b, m);
  }

  /** A run on the result of `n` runs. */
  lemma NextRun(text: string, kept: seq<string>, n: nat, b: seq<string>, m: Markers)
    requires Proper(m)
    requires Clean(kept) && Without(kept, m.opens) && LStripLines(kept) == kept && BlockLines(b, m)
    requires Lines(text) == Result(kept, n, b, m)
    ensures ReplaceText(text, Join(b), m) == Join(Result(kept, n + 1, b, m)) + "\n"
    ensures Lines(ReplaceText(text, Join(b), m)) == Result(kept, n + 1, b, m)
  {
    var front := if kept == [] then [] else kept + Empties(n);
    ResultCleaned(kept, n, b, m);
    FrontIsStripped(kept, n);
    RunOnFront(text, front, b, m);
    BehindIsResult(kept, n, b, m);
    ResultIsClean(kept, n + 1, b, m);
    LinesOfJoin(Result(kept, n + 1, b, m));
  }

  lemma FrontIsStripped(kept: seq<string>, n: nat)
    requires LStripLines(kept) == kept
    ensures kept != [] ==> LStripLines(kept + Empties(n)) == kept + Empties(n)
  {
    LStripLinesFront(kept, Empties(n));
  }

  lemma BehindIsResult(kept: seq<string>, n: nat, b: seq<string>, m: Markers)
    ensures Behind(if kept == [] then [] else kept + Empties(n), b, m) == Result(kept, n + 1, b, m)
  {
    if kept != [] {
      assert (kept + Empties(n)) + ([""] + Block(b, m)) == kept + (Empties(n) + [""]) + Block(b, m);
    }
  }

  lemma RunOnFront(text: string, front: seq<string>, b: seq<string>, m: Markers)
    requires Proper(m) && b != [] && LStripLines(Cleaned(text, m)) == front
    ensures ReplaceText(text, Join(b), m) == Join(Behind(front, b, m)) + "\n"
  {
    OneRun(Cleaned(text, m), front, b, m);
  }

  function Runs(text: string, block: string, n: nat, m: Markers): string {
    if n == 0 then text else ReplaceText(Runs(text, block, n - 1, m), block, m)
  }

  /** After any number of runs: the kept lines, one empty line for each run, and one block. */
  lemma {:induction false} RunsLeave(text: string, b: seq<string>, n: nat, m: Markers)
    requires Proper(m)
    requires BlockLines(b, m) && n > 0
    ensures Runs(text, Join(b), n, m) == Join(Result(Survivors(text, m), n, b, m)) + "\n"
    ensures Lines(Runs(text, Join(b), n, m)) == Result(Survivors(text, m), n, b, m)
  {
    if n == 1 {
      FirstRun(text, b, m);
      assert Runs(text, Join(b), 0, m) == text;
    } else {
      RunsLeave(text, b, n - 1, m);
      KeptFacts(text, m);
      NextRun(Runs(text, Join(b), n - 1, m), Survivors(text, m), n - 1, b, m);
    }
  }

  /** A second run changes nothing exactly when there is nothing but blank lines outside of blocks. */
  lemma SettlesIff(text: string, b: seq<string>, m: Markers)
    requires Proper(m) && BlockLines(b, m)
    ensures ReplaceText(ReplaceText(text, Join(b), m), Join(b), m) == ReplaceText(text, Join(b), m)
       <==> AllBlankLines(Cleaned(text, m))
  {
    var kept := Survivors(text, m);
    FirstRun(text, b, m);
    KeptFacts(text, m);
    NextRun(ReplaceText(text, Join(b), m), kept, 1, b, m);
    assert kept != [] ==> |Result(kept, 2, b, m)| == |Result(kept, 1, b, m)| + 1;
  }

  /** The markers that are written. */
  lemma ManagedMarkers()
    ensures Managed().begin == "# ccb managed " + "codex activity " + "hook state: " + "begin"
    ensures Managed().end == "# ccb managed " + "codex activity " + "hook state: " + "end"
  {
  }

  lemma ManagedIsProper()
    ensures Proper(Managed())
  {
    MarkerIsPlain("begin");
    MarkerIsPlain("end");
    MarkersAreProper(Marker("begin"), Marker("end"));
  }

  lemma MarkerIsPlain(word: string)
    requires word != "" && NoBreak(word) && !IsSpace(word[|word| - 1])
    ensures Plain(Marker(word))
  {
    assert NoBreak("# ccb managed ") && NoBreak("codex activity ") && NoBreak("hook state: ");
    assert Marker(word)[0] == '#' && Marker(word)[|Marker(word)| - 1] == word[|word| - 1];
  }

  lemma ReplaceSettlesIff(text: string, b: seq<string>)
    requires BlockLines(b, Managed())
    ensures var m := Managed();
      ReplaceText(ReplaceText(text, Join(b), m), Join(b), m) == ReplaceText(text, Join(b), m)
      <==> AllBlankLines(Cleaned(text, m))
  {
    ManagedIsProper();
    SettlesIff(text, b, Managed());
  }

  /** The replacer.  For every rendered block, the lines of the result are the lines outside of blocks, from
      the first that is not blank, an empty line, and the one block. */
  method ReplaceBlock(text: string, block: string) returns (replaced: string)
    ensures replaced == ReplaceText(text, block, Managed())
    ensures forall b :: BlockLines(b, Managed()) && block == Join(b) ==>
              Lines(replaced) == Result(Survivors(text, Managed()), 1, b, Managed())
  {
    var m := Managed();
    var cleaned := RemoveBlocks(Lines(text), m.opens, m.closes);
    replaced := Strip(Join(cleaned + ["", m.begin, block, m.end])) + "\n";
    ManagedIsProper();
    forall b | BlockLines(b, m) && block == Join(b) ensures Lines(replaced) == Result(Survivors(text, m), 1, b, m) {
      FirstRun(text, b, m);
    }
  }

  // ----- a document that a second run changes -------------------------------------------------------------

  lemma LetterIsNoMarker(l: string, marker: string)
    requires |l| == 1 && !IsSpace(l[0]) && |marker| > 1
    ensures !ReadsAs(marker)(l) && !Blank(l)
  {
    OuterIs(l);
  }

  lemma MarkersAreLong()
    ensures |Managed().begin| > 1 && |Managed().end| > 1
  {
  }

  lemma OneLineText(l: string)
    requires l != "" && NoBreak(l)
    ensures Lines(l) == [l]
  {
    ScanLine(Start, l);
    assert "" + l == l && [] + [l] == [l];
  }

  /** One line of text and a block of one line. */
  lemma OneLineGrows()
    ensures var m := Managed();
      BlockLines(["y"], m) && ReplaceText(ReplaceText("x", "y", m), "y", m) != ReplaceText("x", "y", m)
  {
    var m := Managed();
    MarkersAreLong();
    LetterIsNoMarker("y", m.begin);
    LetterIsNoMarker("y", m.end);
    LetterIsNoMarker("x", m.begin);
    OneLineText("x");
    DropBlocksBefore(["x"], [], m.opens, m.closes);
    assert ["x"] + [] == ["x"];
    assert Cleaned("x", m) == ["x"];
    assert Join(["y"]) == "y";
    assert BlockLines(["y"], m);
    assert !Blank(Cleaned("x", m)[0]);
    ReplaceSettlesIff("x", ["y"]);
  }
}

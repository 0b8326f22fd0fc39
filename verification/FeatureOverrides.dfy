/** The feature-override merger of lib/provider_profiles/codex_home_config.py: `external_migration` is
    switched off in the `[features]` table.  A missing table is added to the text as it is; a table that is
    found makes the text be rebuilt from its lines. */
module FeatureOverrides {
  import opened TextLines
  import opened TomlLine
  import opened TomlMerge
  import opened TomlTwoTables
  import opened TomlDocument

  function FeatureRule(): Rule { TableRule("features", "external_migration", "false") }

  /** `lstrip('\n')`. */
  function DropNewlines(s: string): string { if s != "" && s[0] == '\n' then DropNewlines(s[1..]) else s }

  function OverrideText(text: string, r: Rule): string {
    var lines := Lines(text);
    var i := Find(lines, r.mine);
    if i == |lines| then DropNewlines(Join([RStrip(text), "", r.header, r.own])) + "\n"
    else RStrip(Join(Rewrite(lines, i, r))) + "\n"
  }

  method MergeOverride(text: string, r: Rule) returns (merged: string)
    ensures merged == OverrideText(text, r)
  {
    var lines := Lines(text);
    var i := FindTable(lines, r.mine);
    if i == |lines| {
      merged := DropNewlines(Join([RStrip(text), "", r.header, r.own])) + "\n";
    } else {
      var rewritten := RewriteTable(lines, i, r);
      merged := RStrip(Join(rewritten)) + "\n";
    }
  }

  /** In the merged text the `[features]` table holds its override exactly once, and a text that is merged
      again has settled. */
  method MergeFeatureOverrides(text: string) returns (merged: string)
    ensures merged == OverrideText(text, FeatureRule())
    ensures Holds(Lines(merged), FeatureRule())
    ensures OverrideText(OverrideText(merged, FeatureRule()), FeatureRule()) == OverrideText(merged, FeatureRule())
  {
    merged := MergeOverride(text, FeatureRule());
    OverrideHolds(text);
  }

  /** The table and the line that are written. */
  lemma FeatureLines()
    ensures FeatureRule().header == "[" + "features" + "]" && FeatureRule().own == "external_migration" + " = " + "false"
  {
    RuleTexts("features", "external_migration", "false");
  }

  // ----- what is used of the rule -------------------------------------------------------------------

  ghost predicate Usable(r: Rule) {
    && Sound(r) && r.mine(r.header) && CleanRule(r) && Harmless(r, Stripped()) && RStrip(r.own) == r.own
    && r.header != "" && r.header[0] != '\n'
  }

  /** Space at the end of a line does not matter for finding the table. */
  ghost predicate Lenient(mine: Reading) { forall l, w :: AllSpace(w) ==> mine(l + w) == mine(l) }

  lemma FeatureRuleIsUsable()
    ensures Usable(FeatureRule()) && FeatureRule().blank == Blanks()
  {
    FeatureTexts();
    RuleIsUsable("features", "external_migration", "false");
  }

  lemma FeatureTexts()
    ensures IsBareKey("external_migration") && NoBreak("false") && '#' !in "false"
    ensures NoBreak("features") && '#' !in "features"
  {
  }

  lemma RuleIsUsable(table: string, key: string, value: string)
    requires IsBareKey(key) && value != "" && !IsSpace(value[|value| - 1]) && NoBreak(value) && '#' !in value
    requires '#' !in table && NoBreak(table)
    ensures Usable(TableRule(table, key, value))
  {
    RuleIsSound(table, key, value);
    RuleIsClean(table, key, value);
    RuleIsHarmless(table, key, value);
    BareTable(table);
    UsableParts(TableRule(table, key, value));
  }

  lemma UsableParts(r: Rule)
    requires Sound(r) && r.mine(r.header) && CleanRule(r) && Harmless(r, Stripped()) && RStrip(r.own) == r.own
    requires r.header != "" && r.header[0] == '['
    ensures Usable(r)
  {
  }

  lemma FeatureRuleIsLenient()
    ensures Lenient(FeatureRule().mine)
  {
    forall l, w | AllSpace(w) ensures FeatureRule().mine(l + w) == FeatureRule().mine(l) {
      BareBeforeSpace(l, w);
    }
  }

  // ----- a table that is there -------------------------------------------------------------------------

  lemma HoldingIsFound(lines: seq<string>, r: Rule)
    requires Holds(lines, r)
    ensures Find(lines, r.mine) < |lines|
  {
    var p :| Settled(lines, p, r);
    MergeAround(lines, p.before, p.head, p.a + [r.own] + p.b, p.after, r);
  }

  lemma OverrideOfHolding(text: string, lines: seq<string>, r: Rule)
    requires Lines(text) == lines && Sound(r) && Holds(lines, r)
    ensures OverrideText(text, r) == RStrip(Join(lines)) + "\n"
  {
    HoldingIsFound(lines, r);
    HoldingIsFixed(lines, r);
  }

  lemma OverrideFoundLines(text: string, r: Rule)
    requires CleanRule(r) && Find(Lines(text), r.mine) < |Lines(text)|
    ensures var merged := Merge(Lines(text), r);
      && OverrideText(text, r) == RStrip(Join(merged)) + "\n"
      && Lines(OverrideText(text, r)) == RStripLines(merged)
      && RStrip(Join(RStripLines(merged))) == RStrip(Join(merged))
  {
    LinesAreClean(text);
    MergedLines(Lines(text), [r]);
    assert [r][..0] == [];
    assert MergeAll(Lines(text), [r]) == Merge(Lines(text), r);
  }

  lemma StrippedStillHolds(lines: seq<string>, r: Rule)
    requires Usable(r) && r.blank == Blanks() && Holds(lines, r)
    ensures Holds(RStripLines(lines), r)
  {
    StrippedHolds(lines, r, Stripped());
    StripEndIsRStripLines(lines);
  }

  lemma FoundSettles(text: string, r: Rule)
    requires Usable(r) && r.blank == Blanks() && Find(Lines(text), r.mine) < |Lines(text)|
    ensures OverrideText(OverrideText(text, r), r) == OverrideText(text, r)
  {
    var merged := Merge(Lines(text), r);
    OverrideFoundLines(text, r);
    MergeHolds(Lines(text), r);
    StrippedStillHolds(merged, r);
    OverrideOfHolding(OverrideText(text, r), RStripLines(merged), r);
  }

  // ----- a table that is added ----------------------------------------------------------------------------

  /** The text that a new table is put behind. */
  function Core(text: string): string { DropNewlines(RStrip(text)) }

  lemma {:induction false} DropNewlinesConcat(x: string, z: string)
    ensures DropNewlines(x + z) == if DropNewlines(x) == "" then DropNewlines(z) else DropNewlines(x) + z
  {
    if x == "" {
      assert x + z == z;
    } else if x[0] == '\n' {
      assert (x + z)[1..] == x[1..] + z;
      DropNewlinesConcat(x[1..], z);
    }
  }

  lemma {:induction false} DropNewlinesEnd(x: string)
    ensures |DropNewlines(x)| <= |x| && DropNewlines(x) == x[|x| - |DropNewlines(x)|..]
  {
    if x != "" && x[0] == '\n' {
      DropNewlinesEnd(x[1..]);
    }
  }

  lemma CoreEnds(text: string)
    ensures Core(text) != "" ==> !IsSpace(Core(text)[|Core(text)| - 1])
  {
    DropNewlinesEnd(RStrip(text));
  }

  function Tail(r: Rule): string { Join(["", r.header, r.own]) }

  lemma TailIs(r: Rule)
    ensures Tail(r) == "\n" + (r.header + "\n" + r.own) && Join([r.header, r.own]) == r.header + "\n" + r.own
  {
    JoinConcat([""], [r.header, r.own]);
    JoinConcat([r.header], [r.own]);
    assert [""] + [r.header, r.own] == ["", r.header, r.own];
    assert [r.header] + [r.own] == [r.header, r.own];
    assert "" + "\n" == "\n";
  }

  lemma AddedText(text: string, r: Rule)
    requires r.header != "" && r.header[0] != '\n' && Find(Lines(text), r.mine) == |Lines(text)|
    ensures OverrideText(text, r)
         == (if Core(text) == "" then Join([r.header, r.own]) else Core(text) + ("\n" + Tail(r))) + "\n"
  {
    var x, z := RStrip(text), "\n" + Tail(r);
    JoinConcat([x], ["", r.header, r.own]);
    assert [x] + ["", r.header, r.own] == [x, "", r.header, r.own];
    assert Join([x]) == x;
    assert x + "\n" + Tail(r) == x + z;
    DropNewlinesConcat(x, z);
    DropTail(r);
  }

  lemma DropTail(r: Rule)
    requires r.header != "" && r.header[0] != '\n'
    ensures DropNewlines("\n" + Tail(r)) == Join([r.header, r.own])
  {
    TailIs(r);
    var z := "\n" + Tail(r);
    var rest := r.header + "\n" + r.own;
    assert z[1..] == Tail(r) && Tail(r)[1..] == rest;
    assert rest[0] == r.header[0];
    assert DropNewlines(rest) == rest;
    assert DropNewlines(Tail(r)) == rest;
  }

  lemma AddedLines(y: string, r: Rule)
    requires y != "" && !IsBreak(y[|y| - 1]) && CleanRule(r)
    ensures Lines((y + ("\n" + Tail(r))) + "\n") == Lines(y) + ["", r.header, r.own]
  {
    var added := ["", r.header, r.own];
    LinesOfJoin(added);
    LinesConcat(y + "\n", Tail(r) + "\n");
    FinalNewline(y);
    assert (y + ("\n" + Tail(r))) + "\n" == (y + "\n") + (Tail(r) + "\n");
  }

  /** Space behind a text only lengthens its last line and adds lines after it. */
  lemma {:induction false} ScanSpace(t: Scan, w: string) returns (m: nat)
    requires !t.carriage
    ensures var u := ScanFrom(t, w);
      && m <= |w| && |u.lines| >= |t.lines| && u.lines[..|t.lines|] == t.lines
      && (if |u.lines| == |t.lines| then u.current else u.lines[|t.lines|]) == t.current + w[..m]
  {
    ScanKeepsCurrent(t, w);
    if |ScanFrom(t, w).lines| == |t.lines| {
      m := |w|;
      assert w[..m] == w;
    } else {
      var init := w[..|w| - 1];
      m := ScanSpace(t, init);
      assert w[..m] == init[..m];
    }
  }

  /** While no line has ended, the line under way is all there is. */
  lemma {:induction false} ScanKeepsCurrent(t: Scan, w: string)
    ensures |ScanFrom(t, w).lines| >= |t.lines|
    ensures |ScanFrom(t, w).lines| == |t.lines| && !t.carriage ==> ScanFrom(t, w) == Scan(t.lines, t.current + w, false)
  {
    if w != "" {
      ScanKeepsCurrent(t, w[..|w| - 1]);
      assert t.current + w == (t.current + w[..|w| - 1]) + [w[|w| - 1]];
    }
  }

  lemma ScanOfFull(x: string)
    requires x != "" && !IsSpace(x[|x| - 1])
    ensures var t := ScanFrom(Start, x); !t.carriage && t.current != "" && Lines(x) == t.lines + [t.current]
  {
  }

  lemma SpaceBehind(x: string, w: string, mine: Reading)
    requires x != "" && !IsSpace(x[|x| - 1]) && AllSpace(w) && Lenient(mine)
    requires Without(Lines(x + w), mine)
    ensures Without(Lines(x), mine)
  {
    ScanOfFull(x);
    var t := ScanFrom(Start, x);
    ScanConcat(Start, x, w);
    var m := ScanSpace(t, w);
    LinesKept(t, ScanFrom(t, w), w[..m], Lines(x + w), mine);
  }

  lemma LinesKept(t: Scan, u: Scan, a: string, lines: seq<string>, mine: Reading)
    requires t.current != "" && AllSpace(a) && Lenient(mine) && lines == Scanned(u) && Without(lines, mine)
    requires |u.lines| >= |t.lines| && u.lines[..|t.lines|] == t.lines
    requires (if |u.lines| == |t.lines| then u.current else u.lines[|t.lines|]) == t.current + a
    ensures Without(t.lines + [t.current], mine)
  {
    var n := |t.lines|;
    assert n < |lines| && lines[n] == t.current + a;
    assert mine(t.current + a) == mine(t.current);
    assert forall i :: 0 <= i < n ==> t.lines[i] == lines[i];
  }

  lemma {:induction false} NewlinesBefore(x: string, mine: Reading)
    requires Without(Lines(x), mine)
    ensures Without(Lines(DropNewlines(x)), mine)
  {
    if x != "" && x[0] == '\n' {
      FirstLine("", x[1..]);
      assert x == "" + "\n" + x[1..];
      assert forall i :: 0 <= i < |Lines(x[1..])| ==> Lines(x[1..])[i] == Lines(x)[i + 1];
      NewlinesBefore(x[1..], mine);
    }
  }

  lemma CoreLacksTable(text: string, mine: Reading)
    requires Lenient(mine) && Without(Lines(text), mine)
    ensures Without(Lines(Core(text)), mine)
  {
    var x := RStrip(text);
    assert text == x + text[|x|..];
    if x == "" {
      assert Lines(DropNewlines("")) == [];
    } else {
      SpaceBehind(x, text[|x|..], mine);
      NewlinesBefore(x, mine);
    }
  }

  lemma NewTableHolds(before: seq<string>, r: Rule)
    requires Sound(r) && r.mine(r.header) && Without(before, r.mine)
    ensures Holds(before + [r.header, r.own], r)
  {
    var p := Place(before, r.header, [], [], []);
    assert before + [r.header, r.own] == before + [r.header] + ([] + [r.own] + []) + [];
    assert Settled(before + [r.header, r.own], p, r);
  }

  /** The lines of a text that got a new table. */
  function GrownLines(y: string, r: Rule): seq<string> {
    if y == "" then [r.header, r.own] else Lines(y) + ["", r.header, r.own]
  }

  lemma OverrideAddedLines(text: string, r: Rule)
    requires Usable(r) && Lenient(r.mine) && Find(Lines(text), r.mine) == |Lines(text)|
    ensures Lines(OverrideText(text, r)) == GrownLines(Core(text), r)
    ensures Holds(GrownLines(Core(text), r), r)
  {
    AddedText(text, r);
    assert Without(Lines(Core(text)), r.mine) by {
      FindFinds(Lines(text), r.mine);
      assert Lines(text)[..|Lines(text)|] == Lines(text);
      CoreLacksTable(text, r.mine);
    }
    GrownHolds(Core(text), r);
    if Core(text) == "" {
      LinesOfJoin([r.header, r.own]);
    } else {
      CoreEnds(text);
      AddedLines(Core(text), r);
    }
  }

  lemma GrownHolds(y: string, r: Rule)
    requires Sound(r) && r.mine(r.header) && Without(Lines(y), r.mine)
    ensures Holds(GrownLines(y, r), r)
  {
    var before := if y == "" then [] else Lines(y) + [""];
    NewTableHolds(before, r);
    assert GrownLines(y, r) == before + [r.header, r.own];
  }

  /** What the second run makes of a text that got a new table. */
  lemma AgainAfterAdding(text: string, r: Rule)
    requires Usable(r) && Lenient(r.mine) && Find(Lines(text), r.mine) == |Lines(text)|
    ensures OverrideText(OverrideText(text, r), r) == Join(GrownLines(Core(text), r)) + "\n"
  {
    var lines := GrownLines(Core(text), r);
    OverrideAddedLines(text, r);
    OverrideOfHolding(OverrideText(text, r), lines, r);
    RStripJoin(lines);
    var init := lines[..|lines| - 1];
    assert lines == init + [r.own];
    LastLineStays(init, r.own);
  }

  lemma AddedSettlesIff(text: string, r: Rule)
    requires Usable(r) && Lenient(r.mine) && Find(Lines(text), r.mine) == |Lines(text)|
    ensures OverrideText(OverrideText(text, r), r) == OverrideText(text, r) <==> OnlyNewlines(Core(text))
  {
    var y := Core(text);
    AgainAfterAdding(text, r);
    AddedText(text, r);
    if y != "" {
      CoreEnds(text);
      JoinOfLines(y);
      JoinOfGrown(y, r);
      if Join(Lines(y)) + ("\n" + Tail(r)) + "\n" == y + ("\n" + Tail(r)) + "\n" {
        SameFront(Join(Lines(y)), y, "\n" + Tail(r), "\n");
      }
    }
  }

  lemma JoinOfGrown(y: string, r: Rule)
    requires y != "" && !IsBreak(y[|y| - 1])
    ensures Join(GrownLines(y, r)) == Join(Lines(y)) + ("\n" + Tail(r))
  {
    assert Lines(y) != [];
    JoinConcat(Lines(y), ["", r.header, r.own]);
  }

  lemma SameFront(a: string, b: string, c: string, d: string)
    requires a + c + d == b + c + d
    ensures a == b
  {
    assert |a| == |b|;
    assert a == (a + c + d)[..|a|] && b == (b + c + d)[..|b|];
  }

  /** A second run changes nothing exactly when the table was there, or the text has no line break but the
      newline. */
  lemma OverrideSettlesIff(text: string)
    ensures var r := FeatureRule();
      OverrideText(OverrideText(text, r), r) == OverrideText(text, r)
      <==> Find(Lines(text), r.mine) < |Lines(text)| || OnlyNewlines(Core(text))
  {
    FeatureRuleIsUsable();
    FeatureRuleIsLenient();
    SettlesIff(text, FeatureRule());
  }

  lemma SettlesIff(text: string, r: Rule)
    requires Usable(r) && r.blank == Blanks() && Lenient(r.mine)
    ensures OverrideText(OverrideText(text, r), r) == OverrideText(text, r)
       <==> Find(Lines(text), r.mine) < |Lines(text)| || OnlyNewlines(Core(text))
  {
    if Find(Lines(text), r.mine) < |Lines(text)| {
      FoundSettles(text, r);
    } else {
      AddedSettlesIff(text, r);
    }
  }

  /** After one run the table holds its assignment once; after the second run nothing changes any more. */
  lemma OverrideHolds(text: string)
    ensures var r := FeatureRule();
      && Holds(Lines(OverrideText(text, r)), r)
      && OverrideText(OverrideText(OverrideText(text, r), r), r) == OverrideText(OverrideText(text, r), r)
  {
    FeatureRuleIsUsable();
    FeatureRuleIsLenient();
    ResultHolds(text, FeatureRule());
    SecondRunSettles(OverrideText(text, FeatureRule()), FeatureRule());
  }

  lemma SecondRunSettles(once: string, r: Rule)
    requires Usable(r) && r.blank == Blanks() && Holds(Lines(once), r)
    ensures OverrideText(OverrideText(once, r), r) == OverrideText(once, r)
  {
    HoldingIsFound(Lines(once), r);
    FoundSettles(once, r);
  }

  lemma ResultHolds(text: string, r: Rule)
    requires Usable(r) && r.blank == Blanks() && Lenient(r.mine)
    ensures Holds(Lines(OverrideText(text, r)), r)
  {
    if Find(Lines(text), r.mine) < |Lines(text)| {
      OverrideFoundLines(text, r);
      MergeHolds(Lines(text), r);
      StrippedStillHolds(Merge(Lines(text), r), r);
    } else {
      OverrideAddedLines(text, r);
    }
  }

  // ----- a text that the second run changes ----------------------------------------------------------------

  /** Two lines with a form feed between them. */
  function FormFeed(): string { ['a', '\U{C}', 'b'] }

  lemma FormFeedLines()
    ensures Lines(FormFeed()) == ["a", "b"] && RStrip(FormFeed()) == FormFeed()
  {
    var s := FormFeed();
    assert s[..2] == ['a', '\U{C}'] && s[..2][..1] == ['a'] && ['a'][..0] == [];
    assert ScanFrom(Start, ['a']) == Step(ScanFrom(Start, []), 'a');
    assert [] + ['a'] == ['a'];
    assert ScanFrom(Start, s[..2]) == Scan(["a"], "", false) by { assert [] + ["a"] == ["a"]; }
    assert [] + ['b'] == ['b'];
    assert ScanFrom(Start, s) == Scan(["a"], "b", false);
    assert ["a"] + ["b"] == ["a", "b"];
    LastLetterStays(s);
  }

  lemma LastLetterStays(s: string)
    requires s != "" && s[|s| - 1] == 'b'
    ensures RStrip(s) == s
  {
    RStripIs(s, "");
    assert s + "" == s;
  }

  lemma ShortLineIsNoHeader(l: string)
    requires |l| == 1
    ensures !FeatureRule().mine(l)
  {
    var n := Cut(l, '#');
    var before, after := StripParts(l[..n]);
    assert |Bare(l)| <= 1;
    assert |"[" + "features" + "]"| == 10;
  }

  lemma FormFeedHasNoTable()
    ensures Find(Lines(FormFeed()), FeatureRule().mine) == |Lines(FormFeed())|
  {
    FormFeedLines();
    ShortLineIsNoHeader("a");
    ShortLineIsNoHeader("b");
    NotFoundInTwo("a", "b", FeatureRule().mine);
  }

  lemma NotFoundInTwo(a: string, b: string, mine: Reading)
    requires !mine(a) && !mine(b)
    ensures Find([a, b], mine) == 2
  {
    FindIs([a, b], [], mine);
    assert [a, b] + [] == [a, b];
  }

  lemma FormFeedIsNoNewline()
    ensures !OnlyNewlines(Core(FormFeed()))
  {
    FormFeedLines();
    var text := FormFeed();
    assert Core(text) == text;
    assert IsBreak(text[1]) && text[1] != '\n';
  }

  lemma FormFeedIsReplaced()
    ensures var r, text := FeatureRule(), FormFeed(); OverrideText(OverrideText(text, r), r) != OverrideText(text, r)
  {
    FormFeedHasNoTable();
    FormFeedIsNoNewline();
    FeatureRuleIsUsable();
    FeatureRuleIsLenient();
    OtherBreakUnsettles(FormFeed(), FeatureRule());
  }

  lemma OtherBreakUnsettles(text: string, r: Rule)
    requires Usable(r) && Lenient(r.mine)
    requires Find(Lines(text), r.mine) == |Lines(text)| && !OnlyNewlines(Core(text))
    ensures OverrideText(OverrideText(text, r), r) != OverrideText(text, r)
  {
    AddedSettlesIff(text, r);
  }
}

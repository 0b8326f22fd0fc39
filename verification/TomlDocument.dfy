/** The merger of `TomlMerge` on documents as texts: how lines are read when they are TOML, what a rule
    for one assignment in one table is, and the way from a text to lines and back. */
module TomlDocument {
  import opened Wrappers
  import opened TextLines
  import opened TomlLine
  import opened TomlMerge
  import opened TomlTwoTables

  // ----- rules -------------------------------------------------------------------------------

  function ReadsAs(header: string): Reading { l => Bare(l) == header }

  function Sets(key: string): Reading { l => KeyName(l) == Some(key) }

  function Starts(): Reading { l => IsHeader(l) }

  function Blanks(): Reading { l => Blank(l) }

  function TableRule(table: string, key: string, value: string): Rule {
    var header := "[" + table + "]";
    Rule(header, key + " = " + value, ReadsAs(header), Sets(key), Starts(), Blanks())
  }

  lemma RuleTexts(table: string, key: string, value: string)
    ensures TableRule(table, key, value).header == "[" + table + "]" && TableRule(table, key, value).own == key + " = " + value
  {
  }

  lemma RuleIsSound(table: string, key: string, value: string)
    requires IsBareKey(key) && value != "" && !IsSpace(value[|value| - 1]) && NoBreak(value) && '#' !in value
    ensures Sound(TableRule(table, key, value)) && Assigns(TableRule(table, key, value).own, key)
  {
    var r := TableRule(table, key, value);
    AssignmentLine(key, value);
    EmptyLine();
    HeaderReads(table);
    forall l | r.mine(l) ensures !r.managed(l) && !r.blank(l) {
      TableHasNoKey(l);
      MineIsNotBlank(l, r.header);
    }
    forall l | r.starts(l) ensures !r.blank(l) {
      HeaderStripped(l);
    }
  }

  lemma MineIsNotBlank(l: string, header: string)
    requires Bare(l) == header && header != ""
    ensures !Blank(l)
  {
    if Blank(l) {
      BlankReadsEmpty(l);
    }
  }

  // ----- text and lines --------------------------------------------------------------------------

  lemma MergeIsClean(lines: seq<string>, r: Rule)
    requires Clean(lines) && NoBreak(r.header) && NoBreak(r.own)
    ensures Clean(Merge(lines, r))
  {
    var broken := l => exists i :: 0 <= i < |l| && IsBreak(l[i]);
    MergeWithout(lines, r, broken);
    var merged := Merge(lines, r);
    forall i | 0 <= i < |merged| ensures NoBreak(merged[i]) {
      assert !broken(merged[i]);
    }
  }

  ghost predicate CleanRule(r: Rule) { NoBreak(r.header) && NoBreak(r.own) && !Blank(r.own) }

  lemma {:induction false} MergeAllIsClean(lines: seq<string>, rules: seq<Rule>)
    requires Clean(lines) && forall i :: 0 <= i < |rules| ==> CleanRule(rules[i])
    ensures Clean(MergeAll(lines, rules))
  {
    if rules != [] {
      var init, r := rules[..|rules| - 1], rules[|rules| - 1];
      MergeAllIsClean(lines, init);
      MergeIsClean(MergeAll(lines, init), r);
    }
  }

  lemma {:induction false} StrippedNonEmpty(lines: seq<string>, i: nat)
    requires i < |lines| && !Blank(lines[i])
    ensures RStripLines(lines) != []
  {
    if i < |lines| - 1 && Blank(lines[|lines| - 1]) {
      StrippedNonEmpty(lines[..|lines| - 1], i);
    }
  }

  /** Every merge leaves the assignment somewhere. */
  lemma MergeHoldsOwn(lines: seq<string>, r: Rule) returns (i: nat)
    ensures i < |Merge(lines, r)| && Merge(lines, r)[i] == r.own
  {
    var merged := Merge(lines, r);
    if Find(lines, r.mine) == |lines| {
      i := |lines| + 2;
    } else {
      var before, head, section, after := FoundAround(lines, r);
      MergeAround(lines, before, head, section, after, r);
      var front := before + [head];
      var n := Trimmed(Others(section, r.managed), r.blank);
      i := |front| + n;
      assert Refill(section, r)[n] == r.own;
      assert merged == front + Refill(section, r) + after;
    }
  }

  /** The lines of a document written from lines. */
  lemma WrittenLines(lines: seq<string>, i: nat)
    requires Clean(lines) && i < |lines| && !Blank(lines[i])
    ensures Lines(RStrip(Join(lines)) + "\n") == RStripLines(lines)
    ensures RStrip(Join(RStripLines(lines))) == RStrip(Join(lines))
  {
    RStripJoin(lines);
    StrippedNonEmpty(lines, i);
    RStripLinesAgain(lines);
    RStripJoin(RStripLines(lines));
    LinesOfJoin(RStripLines(lines));
  }

  lemma MergedLines(lines: seq<string>, rules: seq<Rule>)
    requires rules != [] && Clean(lines) && forall i :: 0 <= i < |rules| ==> CleanRule(rules[i])
    ensures var merged := MergeAll(lines, rules);
      && Lines(RStrip(Join(merged)) + "\n") == RStripLines(merged)
      && RStrip(Join(RStripLines(merged))) == RStrip(Join(merged))
  {
    var init, r := rules[..|rules| - 1], rules[|rules| - 1];
    MergeAllIsClean(lines, rules);
    var i := MergeHoldsOwn(MergeAll(lines, init), r);
    WrittenLines(MergeAll(lines, rules), i);
  }

  lemma RuleIsClean(table: string, key: string, value: string)
    requires NoBreak(table) && Assigns(key + " = " + value, key)
    ensures CleanRule(TableRule(table, key, value))
  {
    BracketsAreClean(table);
  }

  lemma BracketsAreClean(name: string)
    requires NoBreak(name)
    ensures NoBreak("[" + name + "]")
  {
  }

  // ----- trailing space ---------------------------------------------------------------------------

  function Stripped(): string -> string { l => RStrip(l) }

  lemma {:induction false} StripEndIsRStripLines(lines: seq<string>)
    ensures StripEnd(lines, Blanks(), Stripped()) == RStripLines(lines)
  {
    if lines != [] {
      StripEndIsRStripLines(lines[..|lines| - 1]);
    }
  }

  lemma RuleIsHarmless(table: string, key: string, value: string)
    requires Assigns(key + " = " + value, key)
    ensures Harmless(TableRule(table, key, value), Stripped())
  {
    var r := TableRule(table, key, value);
    forall l | r.starts(l) ensures r.starts(Stripped()(l)) {
      HeaderStripped(l);
    }
  }

  lemma LastLineStays(lines: seq<string>, own: string)
    requires !Blank(own) && RStrip(own) == own
    ensures RStripLines(lines + [own]) == lines + [own]
  {
    assert (lines + [own])[..|lines|] == lines;
  }

  lemma {:induction false} StrippedIsShorter(lines: seq<string>)
    ensures |RStripLines(lines)| <= |lines|
  {
    if lines != [] {
      StrippedIsShorter(lines[..|lines| - 1]);
    }
  }
}

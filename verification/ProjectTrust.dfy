/** The project-trust merger of lib/provider_profiles/codex_home_config.py: every trusted path gets a
    table with a `trust_level` line. */
module ProjectTrust {
  import opened Wrappers
  import opened TextLines
  import opened TomlLine
  import opened JsonText
  import opened TomlMerge
  import opened TomlTwoTables
  import opened TomlDocument

  // ----- project tables ---------------------------------------------------------------------------

  function Table(path: string): string { "projects." + Quoted(path) }

  function ProjectRule(path: string): Rule { TableRule(Table(path), "trust_level", "\"trusted\"") }

  lemma ProjectRuleIsSound(path: string)
    ensures Sound(ProjectRule(path)) && Assigns(ProjectRule(path).own, "trust_level")
  {
    RuleIsSound(Table(path), "trust_level", "\"trusted\"");
  }

  /** The table and the line that are written. */
  lemma ProjectLines(path: string)
    ensures ProjectRule(path).header == "[" + ("projects." + Quoted(path)) + "]"
    ensures ProjectRule(path).own == "trust_level" + " = " + "\"trusted\""
  {
    RuleTexts(Table(path), "trust_level", "\"trusted\"");
  }

  lemma TableChars(path: string)
    ensures NoBreak(Table(path)) && Table(path) != "" && Table(path)[|Table(path)| - 1] == '"'
    ensures ('#' in Table(path) <==> '#' in path) && (']' in Table(path) <==> ']' in path)
  {
    EscapedChars(path, '#');
    EscapedChars(path, ']');
    var q := Quoted(path);
    assert forall c :: c in q <==> c == '"' || c in EscapeAll(path);
    assert forall c :: c in Table(path) <==> c in "projects." || c in q;
    PlainHasNoBreak(Table(path));
  }

  /** A written header is found again exactly when the path holds no '#'. */
  lemma HeaderIsFound(path: string)
    ensures ProjectRule(path).mine(ProjectRule(path).header) <==> '#' !in path
    ensures '#' in path ==> forall l :: !ProjectRule(path).mine(l)
  {
    TableChars(path);
    if '#' !in path {
      BareTable(Table(path));
    } else {
      var h := ProjectRule(path).header;
      assert '#' in h;
      forall l ensures Bare(l) != h {
        BareHasNoHash(l);
      }
    }
  }

  /** A path without '#' has a header that ends other tables exactly when it holds no ']'. */
  lemma HeaderIsVisible(path: string)
    requires '#' !in path
    ensures ProjectRule(path).starts(ProjectRule(path).header) <==> ']' !in path
    ensures ']' !in path ==> Visible(ProjectRule(path))
  {
    TableChars(path);
    HeaderIsFound(path);
    if ']' in path {
      BracketHidesHeader(Table(path));
    } else {
      forall l | ProjectRule(path).mine(l) ensures IsHeader(l) {
        TableIsHeader(l, Table(path));
      }
    }
  }

  // ----- the merger ---------------------------------------------------------------------------

  function Rules(paths: seq<string>): seq<Rule> { seq(|paths|, i requires 0 <= i < |paths| => ProjectRule(paths[i])) }

  /** The merger: path by path over the lines, then back to text. */
  function TrustText(text: string, paths: seq<string>): string {
    if paths == [] then text else RStrip(Join(MergeAll(Lines(text), Rules(paths)))) + "\n"
  }

  method MergeProjectTrust(text: string, paths: seq<string>) returns (merged: string)
    ensures merged == TrustText(text, paths)
    ensures Plain(paths) && paths != [] ==> AllHold(Lines(merged), Rules(paths))
  {
    if paths == [] {
      return text;
    }
    var lines := MergeAllInto(Lines(text), Rules(paths));
    merged := RStrip(Join(lines)) + "\n";
    if Plain(paths) {
      TrustHolds(text, paths);
    }
  }

  // ----- text and lines --------------------------------------------------------------------------

  lemma ProjectRuleIsClean(path: string)
    ensures CleanRule(ProjectRule(path))
  {
    TableChars(path);
    ProjectRuleIsSound(path);
    RuleIsClean(Table(path), "trust_level", "\"trusted\"");
  }

  lemma RulesAreClean(paths: seq<string>)
    ensures forall i :: 0 <= i < |paths| ==> CleanRule(Rules(paths)[i])
  {
    forall i | 0 <= i < |paths| ensures CleanRule(Rules(paths)[i]) {
      ProjectRuleIsClean(paths[i]);
    }
  }

  lemma TrustTextLines(text: string, paths: seq<string>)
    requires paths != []
    ensures Lines(TrustText(text, paths)) == RStripLines(MergeAll(Lines(text), Rules(paths)))
    ensures RStrip(Join(RStripLines(MergeAll(Lines(text), Rules(paths))))) + "\n" == TrustText(text, paths)
  {
    LinesAreClean(text);
    RulesAreClean(paths);
    MergedLines(Lines(text), Rules(paths));
  }

  // ----- a second run ------------------------------------------------------------------------------

  lemma ProjectRuleIsHarmless(path: string)
    ensures Harmless(ProjectRule(path), Stripped())
  {
    ProjectRuleIsSound(path);
    RuleIsHarmless(Table(path), "trust_level", "\"trusted\"");
  }

  lemma ProjectRulesAlike(p: string, q: string)
    ensures Alike(ProjectRule(p), ProjectRule(q))
  {
  }

  /** Paths whose headers are found again and, after the first path, end other tables. */
  predicate Plain(paths: seq<string>) {
    && (forall i :: 0 <= i < |paths| ==> '#' !in paths[i])
    && (forall i :: 1 <= i < |paths| ==> ']' !in paths[i])
  }

  lemma PlainIsFamily(paths: seq<string>)
    requires Plain(paths)
    ensures Family(Rules(paths)) && forall i :: 1 <= i < |paths| ==> Visible(Rules(paths)[i])
  {
    var rules := Rules(paths);
    forall i | 0 <= i < |paths| ensures Sound(rules[i]) && rules[i].mine(rules[i].header) {
      ProjectRuleIsSound(paths[i]);
      HeaderIsFound(paths[i]);
    }
    forall i, j | 0 <= i < |paths| && 0 <= j < |paths| ensures Alike(rules[i], rules[j]) {
      ProjectRulesAlike(paths[i], paths[j]);
    }
    forall i | 1 <= i < |paths| ensures Visible(rules[i]) {
      HeaderIsVisible(paths[i]);
    }
  }

  lemma StrippedAllHold(lines: seq<string>, paths: seq<string>)
    requires Family(Rules(paths)) && AllHold(lines, Rules(paths))
    ensures AllHold(RStripLines(lines), Rules(paths))
  {
    var rules := Rules(paths);
    forall i | 0 <= i < |rules| ensures Holds(RStripLines(lines), rules[i]) {
      ProjectRuleIsHarmless(paths[i]);
      StrippedHolds(lines, rules[i], Stripped());
      StripEndIsRStripLines(lines);
    }
  }

  /** A second run changes nothing. */
  lemma TrustIsIdempotent(text: string, paths: seq<string>)
    requires Plain(paths)
    ensures TrustText(TrustText(text, paths), paths) == TrustText(text, paths)
  {
    if paths != [] {
      var lines := MergeAll(Lines(text), Rules(paths));
      TrustTextLines(text, paths);
      PlainIsFamily(paths);
      MergeAllHolds(Lines(text), Rules(paths));
      StrippedAllHold(lines, paths);
      AllHoldingIsFixed(RStripLines(lines), Rules(paths));
    }
  }

  lemma RulesAreSound(paths: seq<string>, path: string)
    ensures forall i :: 0 <= i < |paths| ==> Sound(Rules(paths)[i]) && Alike(Rules(paths)[i], ProjectRule(path))
  {
    forall i | 0 <= i < |paths| ensures Sound(Rules(paths)[i]) && Alike(Rules(paths)[i], ProjectRule(path)) {
      ProjectRuleIsSound(paths[i]);
      ProjectRulesAlike(paths[i], path);
    }
  }

  /** The lines of the merged text, whatever the paths: those of the merged list without trailing space,
      in which all lines that set no trust level are the old ones, in order, and those of the new tables. */
  lemma TrustKeepsOthers(text: string, paths: seq<string>)
    requires paths != []
    ensures var merged := MergeAll(Lines(text), Rules(paths));
      && Lines(TrustText(text, paths)) == RStripLines(merged)
      && Others(merged, Sets("trust_level")) == Others(Lines(text), Sets("trust_level")) + NewTables(Lines(text), Rules(paths))
  {
    TrustTextLines(text, paths);
    RulesAreSound(paths, "");
    MergeAllKeepsOthers(Lines(text), Rules(paths), ProjectRule(""));
  }

  /** After a run the table of every path holds exactly one trust line, behind everything but blank lines. */
  lemma TrustHolds(text: string, paths: seq<string>)
    requires Plain(paths) && paths != []
    ensures AllHold(Lines(TrustText(text, paths)), Rules(paths))
  {
    TrustTextLines(text, paths);
    PlainIsFamily(paths);
    MergeAllHolds(Lines(text), Rules(paths));
    StrippedAllHold(MergeAll(Lines(text), Rules(paths)), paths);
  }

  // ----- when a second run changes the document ---------------------------------------------------------

  lemma StrippingKeepsWeight(lines: seq<string>, path: string)
    ensures Weight(RStripLines(lines), ProjectRule(path)) == Weight(lines, ProjectRule(path))
  {
    var r := ProjectRule(path);
    forall l | !r.blank(l) ensures !r.blank(Stripped()(l)) && r.managed(Stripped()(l)) == r.managed(l) {
      RStripLine(l);
      KeyStripped(l);
    }
    StripEndWeight(lines, r, Stripped());
    StripEndIsRStripLines(lines);
  }

  /** With a '#' in some path no document is left alone by a second run. */
  lemma HashNeverSettles(text: string, paths: seq<string>, k: nat)
    requires k < |paths| && '#' in paths[k]
    ensures TrustText(TrustText(text, paths), paths) != TrustText(text, paths)
  {
    var once := TrustText(text, paths);
    var lines := Lines(once);
    TrustTextLines(text, paths);
    TrustTextLines(once, paths);
    var rules, r := Rules(paths), ProjectRule(paths[k]);
    forall i | 0 <= i < |rules| ensures Sound(rules[i]) && Alike(rules[i], r) {
      ProjectRuleIsSound(paths[i]);
      ProjectRulesAlike(paths[i], paths[k]);
    }
    HeaderIsFound(paths[k]);
    MergeAllGrows(lines, rules, r, k);
    StrippingKeepsWeight(MergeAll(lines, rules), paths[k]);
  }

  lemma Cancel(a: string, x: string, y: string, b: string)
    requires a + x + b == a + y + b
    ensures x == y
  {
    assert x == (a + x + b)[|a|..|a + x + b| - |b|] && y == (a + y + b)[|a|..|a + y + b| - |b|];
  }

  lemma HeadersDiffer(p: string, q: string)
    requires "[" + Table(p) + "]" == "[" + Table(q) + "]"
    ensures p == q
  {
    Cancel("[", Table(p), Table(q), "]");
    assert Table(p) == "projects." + Quoted(p) + "" && Table(q) == "projects." + Quoted(q) + "";
    Cancel("projects.", Quoted(p), Quoted(q), "");
    QuotedInjective(p, q);
  }

  lemma DifferentHeaders(p: string, q: string)
    requires p != q && '#' !in p
    ensures !ProjectRule(q).mine(ProjectRule(p).header)
  {
    var h, g := "[" + Table(p) + "]", "[" + Table(q) + "]";
    assert Bare(h) == h by {
      TableChars(p);
      BareTable(Table(p));
    }
    assert h != g by {
      if h == g {
        HeadersDiffer(p, q);
      }
    }
  }

  /** When the lines of a second run are fewer than those of the first. */
  lemma ShorterMeansDifferent(paths: seq<string>, full: seq<string>)
    requires paths != [] && MergeAll([], Rules(paths)) == full && RStripLines(full) == full
    requires |MergeAll(full, Rules(paths))| < |full|
    ensures !SettlesAtOnce("", paths)
  {
    var once := TrustText("", paths);
    assert Lines("") == [];
    TrustTextLines("", paths);
    TrustTextLines(once, paths);
    StrippedIsShorter(MergeAll(full, Rules(paths)));
  }

  /** A ']' in the second path: the empty document is changed again by a second run. */
  lemma BracketUnsettles(p: string, q: string)
    requires p != q && '#' !in p && '#' !in q && ']' in q
    ensures !SettlesAtOnce("", [p, q])
  {
    PairFacts(p, q);
    var paths := [p, q];
    RulesAt(paths, 0);
    RulesAt(paths, 1);
    TwoRules(Rules(paths), ProjectRule(p), ProjectRule(q));
    HidingUnsettles(paths, ProjectRule(p), ProjectRule(q));
  }

  lemma RulesAt(paths: seq<string>, i: nat)
    requires i < |paths|
    ensures Rules(paths)[i] == ProjectRule(paths[i])
  {
  }

  lemma TwoRules(rules: seq<Rule>, r: Rule, s: Rule)
    requires |rules| == 2 && rules[0] == r && rules[1] == s
    ensures rules == [r, s]
  {
  }

  lemma HidingUnsettles(paths: seq<string>, r: Rule, s: Rule)
    requires paths != [] && Rules(paths) == [r, s] && Hides(r, s)
    ensures !SettlesAtOnce("", paths)
  {
    var full := SecondRunRobs(r, s);
    ShorterMeansDifferent(paths, full);
  }

  lemma SecondRunRobs(r: Rule, s: Rule) returns (full: seq<string>)
    requires Hides(r, s)
    ensures MergeAll([], [r, s]) == full && RStripLines(full) == full && |MergeAll(full, [r, s])| < |full|
  {
    full := Added(r) + Added(s);
    TwoNewTables(r, s);
    HiddenTableRobs(r, s);
    var init := Added(r) + ["", s.header];
    assert full == init + [s.own];
    LastLineStays(init, s.own);
  }

  ghost predicate Hides(r: Rule, s: Rule) {
    && Sound(r) && Sound(s) && Alike(r, s) && r.mine(r.header) && s.mine(s.header)
    && !s.mine(r.header) && !s.starts(s.header) && !Blank(s.own) && RStrip(s.own) == s.own
  }

  lemma PairFacts(p: string, q: string)
    requires p != q && '#' !in p && '#' !in q && ']' in q
    ensures Hides(ProjectRule(p), ProjectRule(q))
  {
    ProjectRuleIsSound(p);
    ProjectRuleIsSound(q);
    ProjectRulesAlike(p, q);
    HeaderIsFound(p);
    HeaderIsFound(q);
    HeaderIsVisible(q);
    DifferentHeaders(p, q);
  }

  ghost predicate SettlesAtOnce(text: string, paths: seq<string>) {
    TrustText(TrustText(text, paths), paths) == TrustText(text, paths)
  }

  /** One path: a second run changes nothing exactly when the path holds no '#', whatever the document. */
  lemma OnePathSettlesIff(text: string, path: string)
    ensures SettlesAtOnce(text, [path]) <==> '#' !in path
  {
    if '#' in path {
      HashNeverSettles(text, [path], 0);
    } else {
      TrustIsIdempotent(text, [path]);
    }
  }

  /** Two paths: a second run never changes anything exactly when neither path holds a '#' and the second
      holds no ']'. */
  lemma TwoPathsSettleIff(p: string, q: string)
    requires p != q
    ensures (forall text :: SettlesAtOnce(text, [p, q])) <==> '#' !in p && '#' !in q && ']' !in q
  {
    if '#' in p {
      HashNeverSettles("", [p, q], 0);
      assert !SettlesAtOnce("", [p, q]);
    } else if '#' in q {
      HashNeverSettles("", [p, q], 1);
      assert !SettlesAtOnce("", [p, q]);
    } else if ']' in q {
      BracketUnsettles(p, q);
    } else {
      forall text ensures SettlesAtOnce(text, [p, q]) {
        TrustIsIdempotent(text, [p, q]);
      }
    }
  }
}

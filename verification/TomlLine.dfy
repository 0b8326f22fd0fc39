/** How the line mergers of lib/provider_profiles/codex_home_config.py read a single line of a TOML
    document: as a table header, as an assignment to a bare key, or as the header of one given table. */
module TomlLine {
  import opened Wrappers
  import opened TextLines

  /** The line without its comment and without space around it.  Every '#' starts a comment, also one
      inside a quoted key. */
  function Bare(line: string): string { Strip(line[..Cut(line, '#')]) }

  predicate IsKeyChar(c: char) {
    'A' <= c <= 'Z' || 'a' <= c <= 'z' || '0' <= c <= '9' || c == '_' || c == '-'
  }

  predicate IsBareKey(s: string) { s != "" && forall i :: 0 <= i < |s| ==> IsKeyChar(s[i]) }

  function KeyName(line: string): Option<string> {
    var candidate := line[..Cut(line, '#')];
    var n := Cut(candidate, '=');
    if n == |candidate| then None
    else if IsBareKey(Strip(candidate[..n])) then Some(Strip(candidate[..n])) else None
  }

  /** Nothing or a comment, after any space. */
  predicate Ends(t: string) { Lead(t) == |t| || t[Lead(t)] == '#' }

  /** What may follow the first closing bracket of a header. */
  predicate Closes(t: string) { Ends(t) || (t != "" && t[0] == ']' && Ends(t[1..])) }

  /** The lines at which a table ends: an opening bracket, a name without closing brackets, one or two
      closing brackets. */
  predicate IsHeader(line: string) {
    var s := LStrip(line);
    && s != "" && s[0] == '['
    && var n := Cut(s[1..], ']'); 0 < n < |s| - 1 && Closes(s[n + 2..])
  }

  // ----- headers ------------------------------------------------------------------------------

  lemma HeaderIs(before: string, name: string, tail: string)
    requires AllSpace(before) && name != "" && ']' !in name && Closes(tail)
    ensures IsHeader(before + ("[" + name + "]" + tail))
  {
    var s := "[" + name + "]" + tail;
    LStripIs(before, s);
    var rest := "]" + tail;
    assert s[1..] == name + rest;
    CutIs(name, ']', rest);
    assert s[|name| + 2..] == tail;
  }

  lemma HeaderParts(line: string) returns (before: string, name: string, tail: string)
    requires IsHeader(line)
    ensures line == before + ("[" + name + "]" + tail)
    ensures AllSpace(before) && name != "" && ']' !in name && Closes(tail)
  {
    var s := LStrip(line);
    var n := Cut(s[1..], ']');
    before, name, tail := line[..Lead(line)], s[1..][..n], s[n + 2..];
    assert s == "[" + name + "]" + tail;
  }

  lemma EndsStripped(t: string)
    requires Ends(t)
    ensures Ends(RStrip(t))
  {
    var n := Lead(t);
    if n == |t| {
      assert t[..n] == t;
      RStripIs("", t);
      assert "" + t == t;
    } else {
      var r := RStrip(t);
      KeptReaches(t, n);
      assert r == t[..n] + r[n..];
      LeadIs(t[..n], r[n..]);
      assert r[n..][0] == '#';
    }
  }

  lemma RStripBehind(a: string, t: string)
    requires a != "" && !IsSpace(a[|a| - 1])
    ensures RStrip(a + t) == a + RStrip(t)
  {
    var r := RStrip(t);
    var b := a + r;
    assert !IsSpace(b[|b| - 1]) by { if r == "" { assert b == a; } else { assert b[|b| - 1] == r[|r| - 1]; } }
    assert a + t == b + t[|r|..];
    RStripIs(b, t[|r|..]);
  }

  lemma ClosesStripped(t: string)
    requires Closes(t)
    ensures Closes(RStrip(t))
  {
    if Ends(t) {
      EndsStripped(t);
    } else {
      EndsStripped(t[1..]);
      RStripBehind("]", t[1..]);
      assert t == "]" + t[1..];
      assert ("]" + RStrip(t[1..]))[1..] == RStrip(t[1..]);
    }
  }

  lemma Reassociate(a: string, b: string, c: string)
    ensures (a + b) + c == a + (b + c)
  {
  }

  /** Trailing space does not matter for a header. */
  lemma HeaderStripped(line: string)
    requires IsHeader(line)
    ensures IsHeader(RStrip(line)) && !Blank(line)
  {
    var before, name, tail := HeaderParts(line);
    var mid := "[" + name + "]";
    assert mid[|mid| - 1] == ']' && mid[0] == '[';
    HeaderPartsStripped(line, before, mid, tail);
    ClosesStripped(tail);
    HeaderIs(before, name, RStrip(tail));
  }

  lemma HeaderPartsStripped(line: string, before: string, mid: string, tail: string)
    requires line == before + (mid + tail) && mid != "" && !IsSpace(mid[0]) && !IsSpace(mid[|mid| - 1])
    ensures RStrip(line) == before + (mid + RStrip(tail)) && !Blank(line)
  {
    var a := before + mid;
    RStripBehind(a, tail);
    Reassociate(before, mid, tail);
    Reassociate(before, mid, RStrip(tail));
    assert !AllSpace(line) by { assert line[|before|] == mid[0]; }
    BlankIsAllSpace(line);
  }

  // ----- the header of one table ------------------------------------------------------------------

  lemma BareHasNoHash(line: string)
    ensures '#' !in Bare(line)
  {
    var cut := line[..Cut(line, '#')];
    var before, after := StripParts(cut);
    assert forall c :: c in Strip(cut) ==> c in cut;
  }

  lemma BareTable(name: string)
    requires '#' !in name
    ensures Bare("[" + name + "]") == "[" + name + "]"
  {
    var s := "[" + name + "]";
    CutIs(s, '#', "");
    assert s + "" == s;
    StripIs("", s, "");
    assert "" + s + "" == s;
  }

  /** The line, given what it reads as. */
  lemma BareParts(line: string, bare: string) returns (before: string, tail: string)
    requires bare == Bare(line)
    ensures AllSpace(before) && Ends(tail)
    ensures line == before + (bare + tail)
  {
    var n := Cut(line, '#');
    var cut, comment := line[..n], line[n..];
    var after;
    before, after := StripParts(cut);
    tail := after + comment;
    SpaceThenComment(after, comment);
    assert line == cut + comment;
    RegroupLine(before, bare, after, comment);
  }

  lemma RegroupLine(a: string, b: string, c: string, d: string)
    ensures (a + b + c) + d == a + (b + (c + d))
  {
  }

  lemma SpaceThenComment(after: string, comment: string)
    requires AllSpace(after) && (comment == "" || comment[0] == '#')
    ensures Ends(after + comment)
  {
    LeadIs(after, comment);
  }

  /** A line that reads as the header of a table ends the table before it, if the name has no bracket. */
  lemma TableIsHeader(line: string, name: string)
    requires Bare(line) == "[" + name + "]" && name != "" && ']' !in name
    ensures IsHeader(line)
  {
    var before, tail := BareParts(line, "[" + name + "]");
    HeaderIs(before, name, tail);
  }

  lemma NotEnds(t: string, n: nat)
    requires n < |t| && t[n] == '"' && '#' !in t
    ensures !Ends(t)
  {
    LeadStops(t, n);
  }

  /** A quoted name with a bracket in it is not seen as a header. */
  lemma BracketHidesHeader(name: string)
    requires ']' in name && '#' !in name && name[|name| - 1] == '"'
    ensures !IsHeader("[" + name + "]")
  {
    var s := "[" + name + "]";
    StripNothing(s);
    assert s[1..] == name + "]";
    var n := FirstBracket(name);
    AfterBracket(name, n);
    assert s[n + 2..] == name[n + 1..] + "]";
    NotHeader(s, n);
  }

  lemma NotHeader(s: string, n: nat)
    requires LStrip(s) == s && s != "" && Cut(s[1..], ']') == n && n + 2 <= |s| && !Closes(s[n + 2..])
    ensures !IsHeader(s)
  {
  }

  lemma FirstBracket(name: string) returns (n: nat)
    requires ']' in name && name[|name| - 1] == '"'
    ensures n == Cut(name + "]", ']') && n < |name| - 1
  {
    var s := name + "]";
    n := Cut(s, ']');
    var i :| 0 <= i < |name| && name[i] == ']';
    CutStops(s, ']', i);
    assert s[n] == name[n];
  }

  lemma AfterBracket(name: string, n: nat)
    requires n < |name| - 1 && '#' !in name && name[|name| - 1] == '"'
    ensures !Closes(name[n + 1..] + "]")
  {
    var t := name[n + 1..] + "]";
    assert '#' !in t;
    assert t[|t| - 2] == '"';
    NotEnds(t, |t| - 2);
    if t[0] == ']' {
      assert t[1..][|t| - 3] == '"';
      NotEnds(t[1..], |t| - 3);
    }
  }

  // ----- assignments ----------------------------------------------------------------------------------

  /** A line that starts with a bracket assigns no bare key. */
  lemma TableHasNoKey(line: string)
    requires Bare(line) != "" && Bare(line)[0] == '['
    ensures KeyName(line) == None
  {
    var candidate := line[..Cut(line, '#')];
    NoKeyIn(candidate, Strip(candidate), Cut(candidate, '='));
  }

  lemma NoKeyIn(s: string, bare: string, n: nat)
    requires bare == Strip(s) && bare != "" && bare[0] == '[' && n <= |s|
    ensures n < |s| && s[n] == '=' ==> !IsBareKey(Strip(s[..n]))
  {
    if n < |s| && s[n] == '=' {
      var before, after := StripParts(s);
      assert forall i :: 0 <= i < |before| ==> IsSpace(s[i]) by { assert forall i :: 0 <= i < |before| ==> s[i] == before[i]; }
      assert s[|before|] == bare[0];
      StartsWithBracket(s[..n], |before|);
    }
  }

  lemma StartsWithBracket(s: string, b: nat)
    requires b < |s| && s[b] == '[' && forall i :: 0 <= i < b ==> IsSpace(s[i])
    ensures !IsBareKey(Strip(s))
  {
    assert s == s[..b] + s[b..];
    StripKeepsFirst(s[..b], s[b..]);
    var key := Strip(s);
    assert !IsKeyChar(key[0]);
  }

  lemma StripKeepsFirst(before: string, mid: string)
    requires AllSpace(before) && mid != "" && !IsSpace(mid[0])
    ensures Strip(before + mid) != "" && Strip(before + mid)[0] == mid[0]
  {
    KeptReaches(mid, 0);
    var r := RStrip(mid);
    assert before + mid == before + r + mid[|r|..];
    StripIs(before, r, mid[|r|..]);
  }

  /** What the mergers need of the line they write. */
  ghost predicate Assigns(line: string, key: string) {
    && KeyName(line) == Some(key) && !IsHeader(line) && !Blank(line) && RStrip(line) == line && NoBreak(line)
    && (Bare(line) == "" || Bare(line)[0] != '[')
  }

  lemma AssignmentKey(key: string, line: string, rhs: string)
    requires IsBareKey(key) && line == (key + " ") + rhs && rhs != "" && rhs[0] == '=' && '#' !in line
    ensures KeyName(line) == Some(key)
  {
    CutIs(line, '#', "");
    assert line + "" == line && line[..|line|] == line;
    var lhs := key + " ";
    assert '=' !in lhs;
    CutIs(lhs, '=', rhs);
    assert line[..|lhs|] == lhs;
    KeySurrounded(key);
  }

  lemma KeySurrounded(key: string)
    requires IsBareKey(key)
    ensures Strip(key + " ") == key
  {
    assert IsKeyChar(key[0]) && IsKeyChar(key[|key| - 1]);
    StripIs("", key, " ");
    assert "" + key + " " == key + " ";
  }

  lemma StripNothing(s: string)
    requires s != "" && !IsSpace(s[0]) && !IsSpace(s[|s| - 1])
    ensures Strip(s) == s && RStrip(s) == s && LStrip(s) == s
  {
    RStripIs(s, "");
    LStripIs("", s);
    assert "" + s == s && s + "" == s;
  }

  lemma AssignmentLine(key: string, value: string)
    requires IsBareKey(key) && value != "" && !IsSpace(value[|value| - 1]) && NoBreak(value) && '#' !in value
    ensures Assigns(key + " = " + value, key)
  {
    var line := key + " = " + value;
    assert IsKeyChar(line[0]) && line[|line| - 1] == value[|value| - 1];
    StripNothing(line);
    assert NoBreak(line) && '#' !in line by { assert forall i :: 0 <= i < |key| ==> IsKeyChar(line[i]); }
    AssignmentKey(key, line, "= " + value);
    assert Bare(line) == line by {
      CutIs(line, '#', "");
      assert line + "" == line && line[..|line|] == line;
    }
  }

  lemma EmptyLine()
    ensures Blank("") && !IsHeader("") && KeyName("") == None && Bare("") == "" && NoBreak("")
  {
  }

  // ----- space around a line ----------------------------------------------------------------------------

  /** Cutting a line that ends in space: the same cut, or all of the line. */
  lemma CutBeforeSpace(l: string, w: string, c: char)
    requires AllSpace(w) && !IsSpace(c)
    ensures if Cut(l, c) < |l| then Cut(l + w, c) == Cut(l, c) else Cut(l + w, c) == |l + w|
  {
    var n := Cut(l, c);
    if n < |l| {
      assert l + w == l[..n] + (l[n..] + w);
      CutIs(l[..n], c, l[n..] + w);
    } else {
      assert l[..n] == l;
      assert c !in w;
      CutIs(l + w, c, "");
      assert (l + w) + "" == l + w;
    }
  }

  lemma StripMore(l: string, w: string)
    requires AllSpace(w)
    ensures Strip(l + w) == Strip(l)
  {
    RStripSpace(l, w);
  }

  /** The part of a line before its comment, with space added to the line. */
  lemma CandidateBeforeSpace(l: string, w: string) returns (v: string)
    requires AllSpace(w)
    ensures AllSpace(v) && (l + w)[..Cut(l + w, '#')] == l[..Cut(l, '#')] + v
  {
    CutBeforeSpace(l, w, '#');
    var n := Cut(l, '#');
    if n < |l| {
      v := "";
      assert (l + w)[..n] == l[..n] + v;
    } else {
      v := w;
      assert l[..n] == l && (l + w)[..|l + w|] == l + w;
    }
  }

  lemma BareBeforeSpace(l: string, w: string)
    requires AllSpace(w)
    ensures Bare(l + w) == Bare(l)
  {
    var v := CandidateBeforeSpace(l, w);
    StripMore(l[..Cut(l, '#')], v);
  }

  lemma KeyInCandidate(s: string, v: string, n: nat, m: nat)
    requires AllSpace(v) && n == Cut(s, '=') && m == Cut(s + v, '=')
    ensures (n == |s| <==> m == |s + v|) && (n < |s| ==> (s + v)[..m] == s[..n])
  {
    CutBeforeSpace(s, v, '=');
  }

  lemma KeyBeforeSpace(l: string, w: string)
    requires AllSpace(w)
    ensures KeyName(l + w) == KeyName(l)
  {
    var v := CandidateBeforeSpace(l, w);
    var s := l[..Cut(l, '#')];
    KeyInCandidate(s, v, Cut(s, '='), Cut(s + v, '='));
  }

  lemma KeyStripped(l: string)
    ensures KeyName(RStrip(l)) == KeyName(l)
  {
    var r := RStrip(l);
    KeyBeforeSpace(r, l[|r|..]);
    assert l == r + l[|r|..];
  }

  lemma BlankReadsEmpty(l: string)
    requires Blank(l)
    ensures Bare(l) == ""
  {
    BlankIsAllSpace(l);
    BareBeforeSpace("", l);
    assert "" + l == l;
  }

  /** A header with any name at least starts with its bracket. */
  lemma HeaderReads(name: string)
    ensures var l := "[" + name + "]"; Bare(l) != "" && Bare(l)[0] == '[' && KeyName(l) == None && !Blank(l)
  {
    var l := "[" + name + "]";
    var n := Cut(l, '#');
    assert n > 0;
    StripKeepsFirst("", l[..n]);
    assert "" + l[..n] == l[..n];
    assert Bare(l)[0] == '[';
    TableHasNoKey(l);
    StripNothing(l);
  }

  // ----- the readings in full ------------------------------------------------------------------------------

  /** Space, and then nothing or a comment. */
  ghost predicate Blanked(t: string, space: string, comment: string) {
    t == space + comment && AllSpace(space) && (comment == "" || comment[0] == '#')
  }

  lemma EndsIff(t: string)
    ensures Ends(t) <==> exists space, comment :: Blanked(t, space, comment)
  {
    var n := Lead(t);
    if Ends(t) {
      assert t == t[..n] + t[n..];
      assert Blanked(t, t[..n], t[n..]);
    }
    if space, comment :| Blanked(t, space, comment) {
      SpaceThenComment(space, comment);
    }
  }

  /** What may stand behind a header's first closing bracket: maybe another one, space, maybe a comment. */
  ghost predicate Behind(t: string) {
    || (exists space, comment :: Blanked(t, space, comment))
    || (t != "" && t[0] == ']' && exists space, comment :: Blanked(t[1..], space, comment))
  }

  lemma BehindIff(t: string)
    ensures Closes(t) <==> Behind(t)
  {
    EndsIff(t);
    if t != "" {
      EndsIff(t[1..]);
    }
  }

  ghost predicate HeaderOf(line: string, before: string, name: string, tail: string) {
    line == before + ("[" + name + "]" + tail) && AllSpace(before) && name != "" && ']' !in name && Behind(tail)
  }

  /** A header is: space, an opening bracket, a name without closing brackets, one or two closing brackets, and
      after more space nothing or a comment. */
  lemma HeaderIff(line: string)
    ensures IsHeader(line) <==> exists before, name, tail :: HeaderOf(line, before, name, tail)
  {
    if IsHeader(line) {
      var before, name, tail := HeaderParts(line);
      BehindIff(tail);
      assert HeaderOf(line, before, name, tail);
    }
    if before, name, tail :| HeaderOf(line, before, name, tail) {
      BehindIff(tail);
      HeaderIs(before, name, tail);
    }
  }

  ghost predicate ReadOf(line: string, before: string, text: string, after: string, comment: string) {
    && line == (before + text + after) + comment && AllSpace(before) && AllSpace(after)
    && (comment == "" || comment[0] == '#')
  }

  /** A line reads as `text` exactly when it is the text between space, and maybe a comment behind it. */
  lemma BareIff(line: string, text: string)
    requires text != "" && '#' !in text && !IsSpace(text[0]) && !IsSpace(text[|text| - 1])
    ensures Bare(line) == text <==> exists before, after, comment :: ReadOf(line, before, text, after, comment)
  {
    if Bare(line) == text {
      var before, after, comment := BareSplit(line);
    }
    if before, after, comment :| ReadOf(line, before, text, after, comment) {
      BareRead(line, before, text, after, comment);
    }
  }

  lemma BareSplit(line: string) returns (before: string, after: string, comment: string)
    ensures ReadOf(line, before, Bare(line), after, comment)
  {
    var n := Cut(line, '#');
    before, after := StripParts(line[..n]);
    comment := line[n..];
    assert line == line[..n] + comment;
  }

  lemma BareRead(line: string, before: string, text: string, after: string, comment: string)
    requires text != "" && '#' !in text && !IsSpace(text[0]) && !IsSpace(text[|text| - 1])
    requires ReadOf(line, before, text, after, comment)
    ensures Bare(line) == text
  {
    var cut := before + text + after;
    NoHashAround(before, text, after);
    CutIs(cut, '#', comment);
    assert line[..|cut|] == cut;
    StripIs(before, text, after);
  }

  lemma NoHashAround(before: string, text: string, after: string)
    requires AllSpace(before) && AllSpace(after) && '#' !in text
    ensures '#' !in before + text + after
  {
    assert !IsSpace('#');
    assert forall i :: 0 <= i < |before| ==> before[i] != '#';
    assert forall i :: 0 <= i < |after| ==> after[i] != '#';
  }

  ghost predicate AssignmentOf(line: string, before: string, key: string, after: string, rest: string) {
    line == (before + key + after) + ("=" + rest) && AllSpace(before) && AllSpace(after)
  }

  /** A line assigns a bare key exactly when it starts with the key, between space, and an equals sign. */
  lemma KeyIff(line: string, key: string)
    requires IsBareKey(key)
    ensures KeyName(line) == Some(key) <==> exists before, after, rest :: AssignmentOf(line, before, key, after, rest)
  {
    if KeyName(line) == Some(key) {
      var before, after, rest := KeySplit(line, key);
    }
    if before, after, rest :| AssignmentOf(line, before, key, after, rest) {
      KeyBefore(line, before, key, after, rest);
    }
  }

  lemma KeySplit(line: string, key: string) returns (before: string, after: string, rest: string)
    requires KeyName(line) == Some(key)
    ensures AssignmentOf(line, before, key, after, rest)
  {
    var candidate := line[..Cut(line, '#')];
    var n := Cut(candidate, '=');
    before, after := StripParts(candidate[..n]);
    rest := line[n + 1..];
    assert line == candidate[..n] + ("=" + rest);
  }

  lemma KeyBefore(line: string, before: string, key: string, after: string, rest: string)
    requires IsBareKey(key) && AllSpace(before) && AllSpace(after)
    requires line == (before + key + after) + ("=" + rest)
    ensures KeyName(line) == Some(key)
  {
    var lhs, n := before + key + after, Cut(line, '#');
    PlainAround(before, key, after);
    assert n > |lhs| by {
      CutBehind(lhs + "=", rest);
      assert line == (lhs + "=") + rest;
    }
    var candidate := line[..n];
    assert candidate == lhs + ("=" + candidate[|lhs| + 1..]);
    CutIs(lhs, '=', "=" + candidate[|lhs| + 1..]);
    assert candidate[..|lhs|] == lhs;
    assert IsKeyChar(key[0]) && IsKeyChar(key[|key| - 1]);
    StripIs(before, key, after);
  }

  lemma PlainAround(before: string, key: string, after: string)
    requires IsBareKey(key) && AllSpace(before) && AllSpace(after)
    ensures '#' !in before + key + after && '=' !in before + key + after
  {
    assert !IsSpace('#') && !IsSpace('=') && !IsKeyChar('#') && !IsKeyChar('=');
    assert forall i :: 0 <= i < |before| ==> before[i] != '#' && before[i] != '=';
    assert forall i :: 0 <= i < |key| ==> key[i] != '#' && key[i] != '=';
    assert forall i :: 0 <= i < |after| ==> after[i] != '#' && after[i] != '=';
  }

  lemma {:induction false} CutBehind(a: string, b: string)
    requires '#' !in a
    ensures Cut(a + b, '#') >= |a|
    decreases |a|
  {
    if a == "" {
      assert a + b == b;
    } else {
      assert a[0] in a;
      assert (a + b)[1..] == a[1..] + b;
      CutBehind(a[1..], b);
    }
  }
}

/** Two mergers on one document: settling a second table does not unsettle the first, as long as the
    second table's header is seen as a header. */
module TomlTwoTables {
  import opened TomlMerge

  /** The rules differ only in the table they are about. */
  ghost predicate Alike(r: Rule, q: Rule) {
    r.own == q.own && r.managed == q.managed && r.starts == q.starts && r.blank == q.blank
  }

  ghost predicate Visible(q: Rule) { q.starts(q.header) && forall l :: q.mine(l) ==> q.starts(l) }

  lemma ReplaceAfter(p: Place, after: seq<string>, r: Rule)
    requires exists lines :: Settled(lines, p, r)
    requires StartsTable(after, r.starts)
    ensures Settled(p.before + [p.head] + (p.a + [r.own] + p.b) + after, p.(after := after), r)
  {
  }

  lemma ReplaceBefore(p: Place, before: seq<string>, r: Rule)
    requires exists lines :: Settled(lines, p, r)
    requires Without(before, r.mine)
    ensures Settled(before + [p.head] + (p.a + [r.own] + p.b) + p.after, p.(before := before), r)
  {
  }

  /** A new table at the end. */
  lemma AddKeepsSettled(lines: seq<string>, p: Place, r: Rule, header: string) returns (now: Place)
    requires Sound(r) && Settled(lines, p, r) && r.starts(header)
    ensures Settled(lines + ["", header, r.own], now, r)
  {
    var section := p.a + [r.own] + p.b;
    if p.after == [] {
      now := p.(b := p.b + [""], after := [header, r.own]);
      assert now.a + [r.own] + now.b == section + [""];
      assert lines + ["", header, r.own] == p.before + [p.head] + (section + [""]) + [header, r.own];
    } else {
      now := p.(after := p.after + ["", header, r.own]);
      assert lines + ["", header, r.own] == p.before + [p.head] + section + now.after;
    }
  }

  lemma RefillWithout(section: seq<string>, r: Rule, f: string -> bool)
    requires Without(section, r.starts) && Without(section, f) && !f(r.own)
    ensures Without(Refill(section, r), f)
  {
    var a, b := RefillFills(section, r);
    OthersAre(section, r.managed, f);
    var kept := a + b;
    assert forall i :: 0 <= i < |a| ==> a[i] == kept[i];
    assert forall i :: 0 <= i < |b| ==> b[i] == kept[|a| + i];
  }

  lemma Regroup(a: seq<string>, b: seq<string>, c: seq<string>, d: seq<string>, e: seq<string>)
    ensures a + b + (c + d + e) == (a + b + c) + d + e
  {
  }

  /** The other table comes first and ends before this one. */
  lemma EarlierApart(lines: seq<string>, p: Place, r: Rule, q: Rule, front: seq<string>, x: seq<string>, y: seq<string>)
    returns (now: Place)
    requires !r.mine(r.own) && Settled(lines, p, r) && Alike(r, q)
    requires front != [] && p.before == front + x + y
    requires Without(front[..|front| - 1], q.mine) && q.mine(front[|front| - 1])
    requires Without(x, r.starts) && StartsTable(y + [p.head], r.starts)
    ensures Settled(Merge(lines, q), now, r)
  {
    var tail := (p.a + [r.own] + p.b) + p.after;
    var after := y + [p.head] + tail;
    assert after[0] == (y + [p.head])[0];
    MergedApart(lines, front, x, after, q) by {
      Regroup(front, x, y, [p.head], tail);
      assert lines == p.before + [p.head] + tail;
    }
    var kept := front + Refill(x, q) + y;
    RefilledWithout(front, x, y, q, r.mine);
    Regroup(front, Refill(x, q), y, [p.head], tail);
    ReplaceBefore(p, kept, r);
    now := p.(before := kept);
    assert kept + [p.head] + tail == kept + [p.head] + (p.a + [r.own] + p.b) + p.after;
  }

  lemma RefilledWithout(front: seq<string>, x: seq<string>, y: seq<string>, q: Rule, f: string -> bool)
    requires Without(front + x + y, f) && Without(x, q.starts) && !f(q.own)
    ensures Without(front + Refill(x, q) + y, f)
  {
    PartsWithout(front, x, y, f);
    RefillWithout(x, q, f);
  }

  /** Merging, when the table's header ends `front`. */
  lemma MergedApart(lines: seq<string>, front: seq<string>, section: seq<string>, after: seq<string>, q: Rule)
    requires front != [] && Without(front[..|front| - 1], q.mine) && q.mine(front[|front| - 1])
    requires lines == front + section + after && Without(section, q.starts) && StartsTable(after, q.starts)
    ensures Merge(lines, q) == front + Refill(section, q) + after
  {
    var before, head := front[..|front| - 1], front[|front| - 1];
    assert before + [head] == front;
    MergeAround(lines, before, head, section, after, q);
  }

  lemma PartsWithout(a: seq<string>, b: seq<string>, c: seq<string>, f: string -> bool)
    requires Without(a + b + c, f)
    ensures Without(a, f) && Without(b, f) && Without(c, f)
  {
    var s := a + b + c;
    assert forall i :: 0 <= i < |a| ==> a[i] == s[i];
    assert forall i :: 0 <= i < |b| ==> b[i] == s[|a| + i];
    assert forall i :: 0 <= i < |c| ==> c[i] == s[|a| + |b| + i];
  }

  /** The other table comes first and, this one's header not being seen, runs through it. */
  lemma EarlierAround(lines: seq<string>, p: Place, r: Rule, q: Rule, front: seq<string>, x: seq<string>)
    returns (now: Place)
    requires r.managed(r.own) && !r.starts(r.own) && !r.managed(p.head) && !r.blank(p.head)
    requires Settled(lines, p, r) && Alike(r, q)
    requires front != [] && p.before == front + x
    requires Without(front[..|front| - 1], q.mine) && q.mine(front[|front| - 1])
    requires Without(x, r.starts) && !r.starts(p.head)
    ensures Settled(Merge(lines, q), now, r)
  {
    var section := p.a + [r.own] + p.b;
    MergedApart(lines, front, x + [p.head] + section, p.after, q) by {
      Regroup(front, [], x, [p.head], section);
      assert front + [] == front;
    }
    RefillThrough(x, p.head, p.a, p.b, q);
    var kept := front + Others(x, q.managed);
    assert Without(kept, r.mine) by {
      PartsWithout(front, x, [], r.mine);
      OthersAre(x, q.managed, r.mine);
    }
    ReplaceBefore(p, kept, r);
    now := p.(before := kept);
    Regroup(front, [], Others(x, q.managed), [p.head], section);
    assert front + [] == front;
  }

  lemma RefillThrough(x: seq<string>, head: string, a: seq<string>, b: seq<string>, q: Rule)
    requires q.managed(q.own) && !q.managed(head) && !q.blank(head) && Filled(a, b, q)
    ensures Refill(x + [head] + (a + [q.own] + b), q) == Others(x, q.managed) + [head] + (a + [q.own] + b)
  {
    OthersConcat(x, [head], q.managed);
    OthersOne(head, q.managed);
    RefillFilled(x + [head], a, b, q);
  }

  /** The other table comes later. */
  lemma LaterKeepsSettled(lines: seq<string>, p: Place, r: Rule, q: Rule, skip: seq<string>, head: string, x: seq<string>, y: seq<string>)
    returns (now: Place)
    requires Settled(lines, p, r) && Alike(r, q)
    requires p.after == skip + [head] + x + y
    requires Around(lines, p.before + [p.head] + (p.a + [r.own] + p.b) + skip, head, x, y, q)
    ensures Settled(Merge(lines, q), now, r)
  {
    var front := p.before + [p.head] + (p.a + [r.own] + p.b);
    MergeAround(lines, front + skip, head, x, y, q);
    var after := skip + [head] + Refill(x, q) + y;
    assert after[0] == p.after[0];
    ReplaceAfter(p, after, r);
    now := p.(after := after);
    LaterRegroup(front, skip, [head], Refill(x, q), y);
  }

  lemma LaterRegroup(a: seq<string>, b: seq<string>, c: seq<string>, d: seq<string>, e: seq<string>)
    ensures (a + b) + c + d + e == a + (b + c + d + e)
  {
  }

  /** Merging a second table keeps the first one settled. */
  lemma MergeKeepsSettled(lines: seq<string>, p: Place, r: Rule, q: Rule) returns (now: Place)
    requires Sound(r) && Sound(q) && Alike(r, q) && Visible(q) && Settled(lines, p, r)
    ensures Settled(Merge(lines, q), now, r)
  {
    if Find(lines, q.mine) == |lines| {
      now := AddKeepsSettled(lines, p, r, q.header);
    } else {
      var before, head, x, y := FoundAround(lines, q);
      if |before| < |p.before| {
        now := Earlier(lines, p, r, q, before, head);
      } else if |before| == |p.before| {
        now := p;
        SameTable(lines, p, r, q, before, head, x, y);
      } else {
        now := Later(lines, p, r, q, before, head, x, y);
      }
    }
  }

  lemma SameTable(lines: seq<string>, p: Place, r: Rule, q: Rule, before: seq<string>, head: string, x: seq<string>, y: seq<string>)
    requires Sound(r) && Alike(r, q) && Settled(lines, p, r)
    requires Around(lines, before, head, x, y, q) && |before| == |p.before|
    ensures Merge(lines, q) == lines
  {
    var section := p.a + [r.own] + p.b;
    assert before == lines[..|before|] && p.before == lines[..|before|];
    assert head == lines[|before|] && p.head == lines[|before|];
    MergeAround(lines, p.before, p.head, section, p.after, q);
    OthersOfFilled(p.a, p.b, r);
    RefillIs(section, p.a, p.b, q);
  }

  lemma FrontParts(lines: seq<string>, front: seq<string>, before: seq<string>, head: string)
    requires |before| < |front| <= |lines| && front == lines[..|front|]
    requires before == lines[..|before|] && head == lines[|before|]
    ensures front == before + [head] + front[|before| + 1..]
  {
  }

  lemma Earlier(lines: seq<string>, p: Place, r: Rule, q: Rule, before: seq<string>, head: string) returns (now: Place)
    requires Sound(r) && Alike(r, q) && Settled(lines, p, r)
    requires |before| < |p.before| && before == lines[..|before|] && head == lines[|before|]
    requires Without(before, q.mine) && q.mine(head)
    ensures Settled(Merge(lines, q), now, r)
  {
    var rest := p.before[|before| + 1..];
    FrontParts(lines, p.before, before, head) by { assert p.before == lines[..|p.before|]; }
    BodyBounds(rest, r.starts);
    var n := Body(rest, r.starts);
    var x, y := rest[..n], rest[n..];
    assert rest == x + y;
    var front := before + [head];
    assert front[..|front| - 1] == before;
    if y == [] && !r.starts(p.head) {
      assert x == rest;
      now := EarlierAround(lines, p, r, q, front, x);
    } else {
      now := EarlierApart(lines, p, r, q, front, x, y);
    }
  }

  lemma Later(lines: seq<string>, p: Place, r: Rule, q: Rule, before: seq<string>, head: string, x: seq<string>, y: seq<string>)
    returns (now: Place)
    requires Sound(r) && Alike(r, q) && Visible(q) && Settled(lines, p, r)
    requires Around(lines, before, head, x, y, q) && |before| > |p.before|
    ensures Settled(Merge(lines, q), now, r)
  {
    var section := p.a + [r.own] + p.b;
    var front := p.before + [p.head] + section;
    assert lines[|before|] == head;
    assert Without(section, r.starts) && r.starts(head);
    assert forall i :: 0 <= i < |section| ==> lines[|p.before| + 1 + i] == section[i];
    assert |before| >= |front|;
    var k := |before| - |front|;
    var skip := p.after[..k];
    assert before == front + skip by { assert before == lines[..|before|]; }
    assert p.after == skip + [head] + x + y by { assert p.after == lines[|front|..]; }
    now := LaterKeepsSettled(lines, p, r, q, skip, head, x, y);
  }

  /** A merge brings in nothing but the blank line, the header and the assignment. */
  lemma MergeWithout(lines: seq<string>, r: Rule, f: string -> bool)
    requires Without(lines, f) && !f("") && !f(r.header) && !f(r.own)
    ensures Without(Merge(lines, r), f)
  {
    if Find(lines, r.mine) < |lines| {
      var before, head, section, after := FoundAround(lines, r);
      MergeAround(lines, before, head, section, after, r);
      PartsWithout(before + [head], section, after, f);
      RefillWithout(section, r, f);
    }
  }

  // ----- any number of tables ------------------------------------------------------------------------

  function MergeAll(lines: seq<string>, rules: seq<Rule>): seq<string> {
    if rules == [] then lines else Merge(MergeAll(lines, rules[..|rules| - 1]), rules[|rules| - 1])
  }

  ghost predicate Holds(lines: seq<string>, r: Rule) { exists p :: Settled(lines, p, r) }

  ghost predicate AllHold(lines: seq<string>, rules: seq<Rule>) { forall i :: 0 <= i < |rules| ==> Holds(lines, rules[i]) }

  /** Sound rules, alike but for their tables, whose headers are found again. */
  ghost predicate Family(rules: seq<Rule>) {
    && (forall i :: 0 <= i < |rules| ==> Sound(rules[i]) && rules[i].mine(rules[i].header))
    && (forall i, j :: 0 <= i < |rules| && 0 <= j < |rules| ==> Alike(rules[i], rules[j]))
  }

  lemma KeepsHolding(lines: seq<string>, r: Rule, q: Rule)
    requires Sound(r) && Sound(q) && Alike(r, q) && Visible(q) && Holds(lines, r)
    ensures Holds(Merge(lines, q), r)
  {
    var p :| Settled(lines, p, r);
    var now := MergeKeepsSettled(lines, p, r, q);
  }

  lemma MergeHolds(lines: seq<string>, r: Rule)
    requires Sound(r) && r.mine(r.header)
    ensures Holds(Merge(lines, r), r)
  {
    var p := MergeSettles(lines, r);
  }

  lemma HoldingIsFixed(lines: seq<string>, r: Rule)
    requires Sound(r) && Holds(lines, r)
    ensures Merge(lines, r) == lines
  {
    var p :| Settled(lines, p, r);
    SettledIsFixed(lines, p, r);
  }

  /** After all merges every table holds its assignment, if all headers but the first are seen as such. */
  lemma {:induction false} MergeAllHolds(lines: seq<string>, rules: seq<Rule>)
    requires Family(rules) && forall i :: 1 <= i < |rules| ==> Visible(rules[i])
    ensures AllHold(MergeAll(lines, rules), rules)
  {
    if rules != [] {
      var init, q := rules[..|rules| - 1], rules[|rules| - 1];
      MergeAllHolds(lines, init);
      var was := MergeAll(lines, init);
      MergeHolds(was, q);
      forall i | 0 <= i < |init| ensures Holds(Merge(was, q), init[i]) {
        assert Alike(rules[i], rules[|rules| - 1]) && Visible(q);
        KeepsHolding(was, init[i], q);
      }
    }
  }

  lemma {:induction false} AllHoldingIsFixed(lines: seq<string>, rules: seq<Rule>)
    requires AllHold(lines, rules) && forall i :: 0 <= i < |rules| ==> Sound(rules[i])
    ensures MergeAll(lines, rules) == lines
  {
    if rules != [] {
      AllHoldingIsFixed(lines, rules[..|rules| - 1]);
      HoldingIsFixed(lines, rules[|rules| - 1]);
    }
  }

  /** What a merge adds to the other lines. */
  function Addition(was: seq<string>, q: Rule): seq<string> { if Find(was, q.mine) < |was| then [] else ["", q.header] }

  /** What all missing tables add to the document. */
  function NewTables(lines: seq<string>, rules: seq<Rule>): seq<string> {
    if rules == [] then []
    else
      var init := rules[..|rules| - 1];
      NewTables(lines, init) + Addition(MergeAll(lines, init), rules[|rules| - 1])
  }

  lemma MergeAddsToOthers(was: seq<string>, q: Rule)
    requires Sound(q)
    ensures Others(Merge(was, q), q.managed) == Others(was, q.managed) + Addition(was, q)
  {
    MergeKeepsOthers(was, q);
    AddNothing(Others(was, q.managed));
  }

  lemma AddNothing(a: seq<string>)
    ensures a + [] == a
  {
  }

  lemma AddThree(a: seq<string>, b: seq<string>, c: seq<string>)
    ensures (a + b) + c == a + (b + c)
  {
  }

  /** All lines that assign no managed key stay in order, and only missing tables add to them. */
  lemma {:induction false} MergeAllKeepsOthers(lines: seq<string>, rules: seq<Rule>, r: Rule)
    requires forall i :: 0 <= i < |rules| ==> Sound(rules[i]) && Alike(rules[i], r)
    ensures Others(MergeAll(lines, rules), r.managed) == Others(lines, r.managed) + NewTables(lines, rules)
  {
    if rules == [] {
      AddNothing(Others(lines, r.managed));
    } else {
      var init, q := rules[..|rules| - 1], rules[|rules| - 1];
      var was := MergeAll(lines, init);
      MergeAllKeepsOthers(lines, init, r);
      MergeAddsToOthers(was, q);
      AddThree(Others(lines, r.managed), NewTables(lines, init), Addition(was, q));
    }
  }

  method MergeAllInto(lines: seq<string>, rules: seq<Rule>) returns (merged: seq<string>)
    ensures merged == MergeAll(lines, rules)
  {
    merged := lines;
    for i := 0 to |rules|
      invariant merged == MergeAll(lines, rules[..i])
    {
      assert rules[..i + 1][..i] == rules[..i];
      merged := MergeInto(merged, rules[i]);
    }
    assert rules[..|rules|] == rules;
  }

  // ----- trailing space ------------------------------------------------------------------------------

  /** The document without its trailing blank lines and the trailing space of its last line. */
  function StripEnd(lines: seq<string>, blank: Reading, strip: string -> string): seq<string> {
    if lines == [] then []
    else if blank(lines[|lines| - 1]) then StripEnd(lines[..|lines| - 1], blank, strip)
    else lines[..|lines| - 1] + [strip(lines[|lines| - 1])]
  }

  /** What stripping a line must not change. */
  ghost predicate Harmless(r: Rule, strip: string -> string) {
    strip(r.own) == r.own && forall l :: r.starts(l) ==> r.starts(strip(l))
  }

  lemma {:induction false} StripBlanks(a: seq<string>, own: string, b: seq<string>, blank: Reading, strip: string -> string)
    requires AllBlank(b, blank) && !blank(own)
    ensures StripEnd(a + [own] + b, blank, strip) == a + [strip(own)]
    decreases |b|
  {
    var lines := a + [own] + b;
    if b == [] {
      assert lines == a + [own] && lines[..|lines| - 1] == a;
    } else {
      assert lines[..|lines| - 1] == a + [own] + b[..|b| - 1];
      StripBlanks(a, own, b[..|b| - 1], blank, strip);
    }
  }

  lemma {:induction false} StripBehind(a: seq<string>, b: seq<string>, blank: Reading, strip: string -> string)
    requires b != [] && !blank(b[0])
    ensures StripEnd(b, blank, strip) != [] && StripEnd(a + b, blank, strip) == a + StripEnd(b, blank, strip)
    ensures StripEnd(b, blank, strip)[0] == b[0] || StripEnd(b, blank, strip)[0] == strip(b[0])
    decreases |b|
  {
    assert (a + b)[..|a + b| - 1] == a + b[..|b| - 1];
    if blank(b[|b| - 1]) {
      StripBehind(a, b[..|b| - 1], blank, strip);
    }
  }

  lemma StrippedHolds(lines: seq<string>, r: Rule, strip: string -> string)
    requires Sound(r) && Holds(lines, r) && Harmless(r, strip)
    ensures Holds(StripEnd(lines, r.blank, strip), r)
  {
    var p :| Settled(lines, p, r);
    if p.after == [] {
      StrippedAtEnd(lines, p, r, strip);
    } else {
      var front := p.before + [p.head] + (p.a + [r.own] + p.b);
      StripBehind(front, p.after, r.blank, strip);
      ReplaceAfter(p, StripEnd(p.after, r.blank, strip), r);
    }
  }

  lemma StrippedAtEnd(lines: seq<string>, p: Place, r: Rule, strip: string -> string)
    requires Settled(lines, p, r) && p.after == [] && strip(r.own) == r.own && !r.blank(r.own)
    ensures Settled(StripEnd(lines, r.blank, strip), p.(b := []), r)
  {
    var kept := p.before + [p.head] + p.a;
    StripBlanks(kept, r.own, p.b, r.blank, strip);
    assert lines == kept + [r.own] + p.b;
    PartsWithout(p.a + [r.own], p.b, [], r.starts) by { assert p.a + [r.own] + p.b + [] == p.a + [r.own] + p.b; }
    assert p.a + [r.own] + [] == p.a + [r.own];
    assert kept + [r.own] == p.before + [p.head] + (p.a + [r.own] + []) + [];
  }

  // ----- headers that are not found again --------------------------------------------------------------

  /** How many lines are neither blank nor an assignment of the key. */
  function Weight(lines: seq<string>, r: Rule): nat { |Others(Others(lines, r.managed), r.blank)| }

  lemma WeightLast(init: seq<string>, last: string, r: Rule)
    ensures Weight(init + [last], r) == Weight(init, r) + if r.managed(last) || r.blank(last) then 0 else 1
  {
    OthersConcat(init, [last], r.managed);
    OthersOne(last, r.managed);
    if !r.managed(last) {
      OthersConcat(Others(init, r.managed), [last], r.blank);
      OthersOne(last, r.blank);
    } else {
      assert Others(init, r.managed) + [] == Others(init, r.managed);
    }
  }

  lemma MergeWeight(lines: seq<string>, r: Rule)
    requires Sound(r)
    ensures Find(lines, r.mine) < |lines| ==> Weight(Merge(lines, r), r) == Weight(lines, r)
    ensures Find(lines, r.mine) == |lines| ==> Weight(Merge(lines, r), r) == Weight(lines, r) + 1
  {
    MergeKeepsOthers(lines, r);
    HeaderWeight(Others(lines, r.managed), r);
  }

  lemma HeaderWeight(kept: seq<string>, r: Rule)
    requires r.blank("") && !r.blank(r.header)
    ensures |Others(kept + ["", r.header], r.blank)| == |Others(kept, r.blank)| + 1
  {
    assert kept + ["", r.header] == (kept + [""]) + [r.header];
    OthersConcat(kept + [""], [r.header], r.blank);
    OthersConcat(kept, [""], r.blank);
    OthersOne("", r.blank);
    OthersOne(r.header, r.blank);
  }

  lemma {:induction false} MergeAllWeight(lines: seq<string>, rules: seq<Rule>, r: Rule)
    requires forall i :: 0 <= i < |rules| ==> Sound(rules[i]) && Alike(rules[i], r)
    ensures Weight(MergeAll(lines, rules), r) >= Weight(lines, r)
  {
    if rules != [] {
      var init, q := rules[..|rules| - 1], rules[|rules| - 1];
      MergeAllWeight(lines, init, r);
      MergeWeight(MergeAll(lines, init), q);
    }
  }

  /** A rule whose table is never found makes every run add to the document. */
  lemma {:induction false} MergeAllGrows(lines: seq<string>, rules: seq<Rule>, r: Rule, k: nat)
    requires forall i :: 0 <= i < |rules| ==> Sound(rules[i]) && Alike(rules[i], r)
    requires k < |rules| && forall l :: !rules[k].mine(l)
    ensures Weight(MergeAll(lines, rules), r) > Weight(lines, r)
  {
    var init, q := rules[..|rules| - 1], rules[|rules| - 1];
    var was := MergeAll(lines, init);
    MergeWeight(was, q);
    if k == |rules| - 1 {
      MergeAllWeight(lines, init, r);
      FindFinds(was, q.mine);
    } else {
      MergeAllGrows(lines, init, r, k);
    }
  }

  lemma {:induction false} StripEndWeight(lines: seq<string>, r: Rule, strip: string -> string)
    requires forall l :: !r.blank(l) ==> !r.blank(strip(l)) && r.managed(strip(l)) == r.managed(l)
    ensures Weight(StripEnd(lines, r.blank, strip), r) == Weight(lines, r)
  {
    if lines != [] {
      var init, last := lines[..|lines| - 1], lines[|lines| - 1];
      assert lines == init + [last];
      WeightLast(init, last, r);
      WeightLast(init, strip(last), r);
      if r.blank(last) {
        StripEndWeight(init, r, strip);
      }
    }
  }

  // ----- headers that are not seen by other tables ----------------------------------------------------------

  /** What a new table adds. */
  function Added(r: Rule): seq<string> { ["", r.header, r.own] }

  lemma AllOfTwo(lines: seq<string>, r: Rule, q: Rule)
    ensures MergeAll(lines, [r, q]) == Merge(Merge(lines, r), q)
  {
    assert [r, q][..1] == [r] && [r][..0] == [];
    assert MergeAll(lines, [r]) == Merge(lines, r);
  }

  lemma TwoNewTables(r: Rule, q: Rule)
    requires !q.mine("") && !q.mine(r.header) && !q.mine(r.own)
    ensures MergeAll([], [r, q]) == Added(r) + Added(q)
  {
    AllOfTwo([], r, q);
    assert Merge([], r) == Added(r) by { assert [] + Added(r) == Added(r); }
    FindIs(Added(r), [], q.mine);
    assert Added(r) + [] == Added(r);
  }

  lemma Rob(before: seq<string>, kept: seq<string>, r: Rule)
    requires Without(before, r.mine) && r.mine(r.header) && r.managed(r.own) && !r.starts(r.own)
    requires Without(kept, r.managed) && Without(kept, r.starts) && EndsFull(kept, r.blank)
    ensures Merge(before + [r.header] + ([r.own] + kept + [r.own]) + [], r) == before + [r.header] + (kept + [r.own] + []) + []
  {
    var section := [r.own] + kept + [r.own];
    MergeAround(before + [r.header] + section + [], before, r.header, section, [], r);
    OthersBetween([r.own], kept, [r.own], r.managed);
    OthersOne(r.own, r.managed);
    OthersAll(kept, r.managed);
    assert [] + kept + [] == kept + [];
    RefillIs(section, kept, [], r);
  }

  lemma HeldAtEnd(before: seq<string>, q: Rule)
    requires Sound(q) && Without(before, q.mine) && q.mine(q.header)
    ensures Merge(before + [q.header] + ([] + [q.own] + []) + [], q) == before + [q.header] + ([] + [q.own] + []) + []
  {
    var lines := before + [q.header] + ([] + [q.own] + []) + [];
    var p := Place(before, q.header, [], [], []);
    assert Settled(lines, p, q);
    SettledIsFixed(lines, p, q);
  }

  lemma RobbedLines(h: string, own: string, g: string)
    ensures ["", h, own] + ["", g, own] == [""] + [h] + ([own] + ["", g] + [own]) + []
    ensures [""] + [h] + (["", g] + [own] + []) + [] == ["", h, ""] + [g] + ([] + [own] + []) + []
    ensures |["", h, ""] + [g] + ([] + [own] + []) + []| == 5
  {
  }

  /** The second run takes the first table's assignment away, since the second header does not end it. */
  lemma HiddenTableRobs(r: Rule, q: Rule)
    requires Sound(r) && Sound(q) && Alike(r, q) && r.mine(r.header) && q.mine(q.header)
    requires !q.mine(r.header) && !q.starts(q.header)
    ensures |MergeAll(Added(r) + Added(q), [r, q])| == 5
  {
    AllOfTwo(Added(r) + Added(q), r, q);
    RobbedLines(r.header, r.own, q.header);
    Rob([""], ["", q.header], r);
    HeldAtEnd(["", r.header, ""], q);
  }
}

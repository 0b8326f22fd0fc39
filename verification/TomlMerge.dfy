/** The merger at the heart of the managed feature overrides and the project trust of
    lib/provider_profiles/codex_home_config.py: one assignment is put into one table of a document that
    is kept as lines. */
module TomlMerge {
  type Reading = string -> bool

  /** Which table and which assignment, and how lines are read: as the header of that table (`mine`), as
      an assignment of the key (`managed`), as any header (`starts`), as blank. */
  datatype Rule = Rule(header: string, own: string, mine: Reading, managed: Reading, starts: Reading, blank: Reading)

  ghost predicate Sound(r: Rule) {
    && r.managed(r.own) && !r.starts(r.own) && !r.blank(r.own) && !r.mine(r.own)
    && r.blank("") && !r.managed("") && !r.starts("") && !r.mine("")
    && !r.managed(r.header) && !r.blank(r.header)
    && (forall l :: r.mine(l) ==> !r.managed(l) && !r.blank(l))
    && (forall l :: r.starts(l) ==> !r.blank(l))
  }

  // ----- finding the table --------------------------------------------------------------------

  /** The first line that reads as the header, or the number of lines. */
  function Find(lines: seq<string>, mine: Reading): (n: nat)
    ensures n <= |lines|
  {
    if lines == [] || mine(lines[0]) then 0 else 1 + Find(lines[1..], mine)
  }

  /** How many lines come before the next header. */
  function Body(lines: seq<string>, starts: Reading): (n: nat)
    ensures n <= |lines|
  {
    if lines == [] || starts(lines[0]) then 0 else 1 + Body(lines[1..], starts)
  }

  /** No line is read so. */
  ghost predicate Without(lines: seq<string>, f: Reading) { forall i :: 0 <= i < |lines| ==> !f(lines[i]) }

  ghost predicate StartsTable(lines: seq<string>, starts: Reading) { lines == [] || starts(lines[0]) }

  lemma {:induction false} FindIs(a: seq<string>, b: seq<string>, mine: Reading)
    requires Without(a, mine) && (b == [] || mine(b[0]))
    ensures Find(a + b, mine) == |a|
    decreases |a|
  {
    if a == [] {
      assert a + b == b;
    } else {
      assert (a + b)[1..] == a[1..] + b;
      FindIs(a[1..], b, mine);
    }
  }

  lemma {:induction false} FindFinds(lines: seq<string>, mine: Reading)
    ensures Without(lines[..Find(lines, mine)], mine)
    ensures Find(lines, mine) < |lines| ==> mine(lines[Find(lines, mine)])
  {
    if lines != [] && !mine(lines[0]) {
      FindFinds(lines[1..], mine);
      var n := Find(lines[1..], mine);
      assert lines[..1 + n] == [lines[0]] + lines[1..][..n];
    }
  }

  lemma {:induction false} BodyIs(a: seq<string>, b: seq<string>, starts: Reading)
    requires Without(a, starts) && StartsTable(b, starts)
    ensures Body(a + b, starts) == |a|
    decreases |a|
  {
    if a == [] {
      assert a + b == b;
    } else {
      assert (a + b)[1..] == a[1..] + b;
      BodyIs(a[1..], b, starts);
    }
  }

  lemma {:induction false} BodyBounds(lines: seq<string>, starts: Reading)
    ensures Without(lines[..Body(lines, starts)], starts) && StartsTable(lines[Body(lines, starts)..], starts)
  {
    if lines != [] && !starts(lines[0]) {
      BodyBounds(lines[1..], starts);
      var n := Body(lines[1..], starts);
      assert lines[..1 + n] == [lines[0]] + lines[1..][..n];
      assert lines[1 + n..] == lines[1..][n..];
    }
  }

  // ----- rewriting the table -------------------------------------------------------------------

  /** The lines that do not assign the key. */
  function Others(lines: seq<string>, managed: Reading): (r: seq<string>)
    ensures |r| <= |lines|
  {
    if lines == [] then []
    else
      Others(lines[..|lines| - 1], managed)
      + (if managed(lines[|lines| - 1]) then [] else [lines[|lines| - 1]])
  }

  /** How many lines there are before the trailing blank ones. */
  function Trimmed(lines: seq<string>, blank: Reading): (n: nat)
    ensures n <= |lines|
  {
    if lines != [] && blank(lines[|lines| - 1]) then Trimmed(lines[..|lines| - 1], blank) else |lines|
  }

  function Refill(section: seq<string>, r: Rule): seq<string> {
    var kept := Others(section, r.managed);
    var n := Trimmed(kept, r.blank);
    kept[..n] + [r.own] + kept[n..]
  }

  /** The table at `i` with its assignment replaced. */
  function Rewrite(lines: seq<string>, i: nat, r: Rule): seq<string>
    requires i < |lines|
  {
    var end := i + 1 + Body(lines[i + 1..], r.starts);
    lines[..i + 1] + Refill(lines[i + 1..end], r) + lines[end..]
  }

  /** The merger on lines; a missing table is added at the end. */
  function Merge(lines: seq<string>, r: Rule): seq<string> {
    var i := Find(lines, r.mine);
    if i == |lines| then lines + ["", r.header, r.own] else Rewrite(lines, i, r)
  }

  // ----- sections that hold their assignment ----------------------------------------------------------

  ghost predicate AllBlank(lines: seq<string>, blank: Reading) { forall i :: 0 <= i < |lines| ==> blank(lines[i]) }

  ghost predicate EndsFull(lines: seq<string>, blank: Reading) { lines == [] || !blank(lines[|lines| - 1]) }

  lemma {:induction false} OthersConcat(a: seq<string>, b: seq<string>, managed: Reading)
    ensures Others(a + b, managed) == Others(a, managed) + Others(b, managed)
    decreases |b|
  {
    if b == [] {
      assert a + b == a;
    } else {
      assert (a + b)[..|a + b| - 1] == a + b[..|b| - 1];
      OthersConcat(a, b[..|b| - 1], managed);
    }
  }

  lemma {:induction false} OthersAll(lines: seq<string>, managed: Reading)
    requires Without(lines, managed)
    ensures Others(lines, managed) == lines
  {
    if lines != [] {
      OthersAll(lines[..|lines| - 1], managed);
    }
  }

  lemma OthersOne(line: string, managed: Reading)
    ensures Others([line], managed) == if managed(line) then [] else [line]
  {
    assert [line][..0] == [];
  }

  lemma {:induction false} OthersAre(lines: seq<string>, managed: Reading, f: Reading)
    ensures Without(Others(lines, managed), managed)
    ensures Without(lines, f) ==> Without(Others(lines, managed), f)
  {
    if lines != [] {
      OthersAre(lines[..|lines| - 1], managed, f);
    }
  }

  lemma {:induction false} TrimmedSplits(lines: seq<string>, blank: Reading)
    ensures EndsFull(lines[..Trimmed(lines, blank)], blank) && AllBlank(lines[Trimmed(lines, blank)..], blank)
  {
    if lines != [] && blank(lines[|lines| - 1]) {
      var init := lines[..|lines| - 1];
      TrimmedSplits(init, blank);
      var n := Trimmed(init, blank);
      assert lines[..n] == init[..n];
      assert lines[n..] == init[n..] + [lines[|lines| - 1]];
    }
  }

  lemma {:induction false} TrimmedIs(a: seq<string>, b: seq<string>, blank: Reading)
    requires EndsFull(a, blank) && AllBlank(b, blank)
    ensures Trimmed(a + b, blank) == |a|
    decreases |b|
  {
    if b == [] {
      assert a + b == a;
    } else {
      assert (a + b)[..|a + b| - 1] == a + b[..|b| - 1];
      TrimmedIs(a, b[..|b| - 1], blank);
    }
  }

  /** A section that holds its assignment once, behind everything but blank lines. */
  ghost predicate Filled(a: seq<string>, b: seq<string>, r: Rule) {
    && Without(a, r.managed) && Without(b, r.managed) && Without(a, r.starts) && Without(b, r.starts)
    && EndsFull(a, r.blank) && AllBlank(b, r.blank)
  }

  lemma RefillFills(section: seq<string>, r: Rule) returns (a: seq<string>, b: seq<string>)
    requires Without(section, r.starts)
    ensures Refill(section, r) == a + [r.own] + b && Filled(a, b, r) && a + b == Others(section, r.managed)
  {
    var kept := Others(section, r.managed);
    var n := Trimmed(kept, r.blank);
    a, b := kept[..n], kept[n..];
    OthersAre(section, r.managed, r.starts);
    TrimmedSplits(kept, r.blank);
  }

  lemma OthersOfFilled(a: seq<string>, b: seq<string>, r: Rule)
    requires Without(a, r.managed) && Without(b, r.managed) && r.managed(r.own)
    ensures Others(a + [r.own] + b, r.managed) == a + b
  {
    OthersConcat(a + [r.own], b, r.managed);
    OthersConcat(a, [r.own], r.managed);
    OthersOne(r.own, r.managed);
    OthersAll(a, r.managed);
    OthersAll(b, r.managed);
  }

  lemma RefillIs(section: seq<string>, a: seq<string>, b: seq<string>, r: Rule)
    requires Others(section, r.managed) == a + b && EndsFull(a, r.blank) && AllBlank(b, r.blank)
    ensures Refill(section, r) == a + [r.own] + b
  {
    TrimmedIs(a, b, r.blank);
    assert (a + b)[..|a|] == a && (a + b)[|a|..] == b;
  }

  /** Refilling a section whose last part is filled only drops assignments before that part. */
  lemma RefillFilled(front: seq<string>, a: seq<string>, b: seq<string>, r: Rule)
    requires Filled(a, b, r) && r.managed(r.own) && EndsFull(Others(front, r.managed), r.blank)
    ensures Refill(front + (a + [r.own] + b), r) == Others(front, r.managed) + (a + [r.own] + b)
  {
    var kept, section := Others(front, r.managed), a + [r.own] + b;
    OthersConcat(front, section, r.managed);
    OthersOfFilled(a, b, r);
    Regroup(kept, a, [r.own], b);
    assert EndsFull(kept + a, r.blank) by { assert a == [] ==> kept + a == kept; }
    RefillIs(front + section, kept + a, b, r);
  }

  lemma Regroup(k: seq<string>, a: seq<string>, m: seq<string>, b: seq<string>)
    ensures k + (a + b) == (k + a) + b && k + (a + m + b) == (k + a) + m + b
  {
  }

  // ----- documents that hold their assignment --------------------------------------------------------

  /** A document around one table: what comes before its header, its lines, what comes after. */
  ghost predicate Around(lines: seq<string>, before: seq<string>, head: string, section: seq<string>, after: seq<string>, r: Rule) {
    && lines == before + [head] + section + after
    && Without(before, r.mine) && r.mine(head) && Without(section, r.starts) && StartsTable(after, r.starts)
  }

  lemma MergeAround(lines: seq<string>, before: seq<string>, head: string, section: seq<string>, after: seq<string>, r: Rule)
    requires Around(lines, before, head, section, after, r)
    ensures Find(lines, r.mine) == |before| < |lines|
    ensures Merge(lines, r) == before + [head] + Refill(section, r) + after
  {
    var rest := [head] + section + after;
    assert lines == before + rest;
    FindIs(before, rest, r.mine);
    RewriteAround(before + [head], section, after, r);
  }

  lemma RewriteAround(front: seq<string>, section: seq<string>, after: seq<string>, r: Rule)
    requires front != [] && Without(section, r.starts) && StartsTable(after, r.starts)
    ensures Rewrite(front + section + after, |front| - 1, r) == front + Refill(section, r) + after
  {
    var lines := front + section + after;
    BodyIs(section, after, r.starts);
    assert lines[|front|..] == section + after;
    assert lines[..|front|] == front;
    assert lines[|front|..|front| + |section|] == section;
    assert lines[|front| + |section|..] == after;
  }

  lemma FoundAround(lines: seq<string>, r: Rule)
    returns (before: seq<string>, head: string, section: seq<string>, after: seq<string>)
    requires Find(lines, r.mine) < |lines|
    ensures Around(lines, before, head, section, after, r)
  {
    var i := Find(lines, r.mine);
    FindFinds(lines, r.mine);
    before, head := lines[..i], lines[i];
    var rest := lines[i + 1..];
    BodyBounds(rest, r.starts);
    var n := Body(rest, r.starts);
    section, after := rest[..n], rest[n..];
    SplitAround(lines, i, n);
  }

  lemma SplitAround(lines: seq<string>, i: nat, n: nat)
    requires i + 1 + n <= |lines|
    ensures lines == lines[..i] + [lines[i]] + lines[i + 1..][..n] + lines[i + 1..][n..]
  {
  }

  /** Where the table is and how its lines split around the assignment. */
  datatype Place = Place(before: seq<string>, head: string, a: seq<string>, b: seq<string>, after: seq<string>)

  ghost predicate Settled(lines: seq<string>, p: Place, r: Rule) {
    && Around(lines, p.before, p.head, p.a + [r.own] + p.b, p.after, r)
    && Filled(p.a, p.b, r)
  }

  lemma SettledIsFixed(lines: seq<string>, p: Place, r: Rule)
    requires Sound(r) && Settled(lines, p, r)
    ensures Merge(lines, r) == lines
  {
    MergeAround(lines, p.before, p.head, p.a + [r.own] + p.b, p.after, r);
    OthersOfFilled(p.a, p.b, r);
    RefillIs(p.a + [r.own] + p.b, p.a, p.b, r);
  }

  /** Merging leaves exactly one assignment in the table and moves nothing else. */
  lemma MergeSettles(lines: seq<string>, r: Rule) returns (p: Place)
    requires Sound(r) && r.mine(r.header)
    ensures Settled(Merge(lines, r), p, r)
    ensures if Find(lines, r.mine) < |lines| then
              exists section :: Around(lines, p.before, p.head, section, p.after, r) && p.a + p.b == Others(section, r.managed)
            else p == Place(lines + [""], r.header, [], [], [])
  {
    if Find(lines, r.mine) < |lines| {
      var before, head, section, after := FoundAround(lines, r);
      MergeAround(lines, before, head, section, after, r);
      var a, b := RefillFills(section, r);
      p := Place(before, head, a, b, after);
    } else {
      FindFinds(lines, r.mine);
      assert lines[..|lines|] == lines;
      p := Place(lines + [""], r.header, [], [], []);
    }
  }

  /** Lines that do not assign the key stay, in order; a new table adds a blank line and its header. */
  lemma MergeKeepsOthers(lines: seq<string>, r: Rule)
    requires Sound(r)
    ensures Find(lines, r.mine) < |lines| ==> Others(Merge(lines, r), r.managed) == Others(lines, r.managed)
    ensures Find(lines, r.mine) == |lines| ==> Others(Merge(lines, r), r.managed) == Others(lines, r.managed) + ["", r.header]
  {
    if Find(lines, r.mine) < |lines| {
      FoundKeepsOthers(lines, r);
    } else {
      NewTableKeepsOthers(lines, r);
    }
  }

  lemma NewTableKeepsOthers(lines: seq<string>, r: Rule)
    requires r.managed(r.own) && !r.managed("") && !r.managed(r.header) && Find(lines, r.mine) == |lines|
    ensures Others(Merge(lines, r), r.managed) == Others(lines, r.managed) + ["", r.header]
  {
    var a := ["", r.header];
    assert Without(a, r.managed);
    NewTable(lines, a, r);
    AddedKeepsOthers(lines, a, Merge(lines, r), r);
  }

  lemma NewTable(lines: seq<string>, a: seq<string>, r: Rule)
    requires Find(lines, r.mine) == |lines| && a == ["", r.header]
    ensures Merge(lines, r) == lines + (a + [r.own])
  {
  }

  lemma FoundKeepsOthers(lines: seq<string>, r: Rule)
    requires r.managed(r.own) && Find(lines, r.mine) < |lines|
    ensures Others(Merge(lines, r), r.managed) == Others(lines, r.managed)
  {
    var before, head, section, after := FoundAround(lines, r);
    MergeAround(lines, before, head, section, after, r);
    RefillKeepsOthers(before + [head], section, after, r);
  }

  lemma AddedKeepsOthers(lines: seq<string>, a: seq<string>, merged: seq<string>, r: Rule)
    requires r.managed(r.own) && Without(a, r.managed) && merged == lines + (a + [r.own])
    ensures Others(merged, r.managed) == Others(lines, r.managed) + a
  {
    OthersConcat(lines, a + [r.own], r.managed);
    OthersConcat(a, [r.own], r.managed);
    OthersOne(r.own, r.managed);
    OthersAll(a, r.managed);
  }

  lemma RefillKeepsOthers(front: seq<string>, section: seq<string>, after: seq<string>, r: Rule)
    requires r.managed(r.own) && Without(section, r.starts)
    ensures Others(front + Refill(section, r) + after, r.managed) == Others(front + section + after, r.managed)
  {
    var a, b := RefillFills(section, r);
    OthersOfFilled(a, b, r);
    OthersBetween(front, section, after, r.managed);
    OthersBetween(front, Refill(section, r), after, r.managed);
  }

  lemma OthersBetween(a: seq<string>, b: seq<string>, c: seq<string>, managed: Reading)
    ensures Others(a + b + c, managed) == Others(a, managed) + Others(b, managed) + Others(c, managed)
  {
    OthersConcat(a + b, c, managed);
    OthersConcat(a, b, managed);
  }

  /** The merger settles after one round, whatever the document. */
  lemma MergeIsIdempotent(lines: seq<string>, r: Rule)
    requires Sound(r) && r.mine(r.header)
    ensures Merge(Merge(lines, r), r) == Merge(lines, r)
  {
    var p := MergeSettles(lines, r);
    SettledIsFixed(Merge(lines, r), p, r);
  }

  // ----- the merger step by step --------------------------------------------------------------------

  method FindTable(lines: seq<string>, mine: Reading) returns (n: nat)
    ensures n == Find(lines, mine)
  {
    for i := 0 to |lines|
      invariant Without(lines[..i], mine)
    {
      if mine(lines[i]) {
        FindIs(lines[..i], lines[i..], mine);
        assert lines == lines[..i] + lines[i..];
        return i;
      }
      assert lines[..i + 1] == lines[..i] + [lines[i]];
    }
    FindIs(lines, [], mine);
    assert lines[..|lines|] == lines && lines + [] == lines;
    return |lines|;
  }

  method TableEnd(lines: seq<string>, start: nat, starts: Reading) returns (n: nat)
    requires start <= |lines|
    ensures n == start + Body(lines[start..], starts)
  {
    var rest := lines[start..];
    for i := start to |lines|
      invariant Without(rest[..i - start], starts)
    {
      if starts(lines[i]) {
        BodyIs(rest[..i - start], rest[i - start..], starts);
        assert rest == rest[..i - start] + rest[i - start..];
        return i;
      }
      assert rest[..i + 1 - start] == rest[..i - start] + [lines[i]];
    }
    BodyIs(rest, [], starts);
    assert rest[..|rest|] == rest && rest + [] == rest;
    return |lines|;
  }

  /** The assignment goes in behind the last line that is not blank. */
  method InsertBehind(section: seq<string>, own: string, blank: Reading) returns (filled: seq<string>)
    ensures var n := Trimmed(section, blank); filled == section[..n] + [own] + section[n..]
  {
    var at := |section|;
    assert section[..at] == section;
    while at > 0 && blank(section[at - 1])
      invariant at <= |section| && Trimmed(section[..at], blank) == Trimmed(section, blank)
    {
      assert section[..at][..at - 1] == section[..at - 1];
      at := at - 1;
    }
    filled := section[..at] + [own] + section[at..];
  }

  method MergeInto(lines: seq<string>, r: Rule) returns (merged: seq<string>)
    ensures merged == Merge(lines, r)
  {
    var i := FindTable(lines, r.mine);
    if i == |lines| {
      merged := lines + ["", r.header, r.own];
    } else {
      merged := RewriteTable(lines, i, r);
    }
  }

  method RewriteTable(lines: seq<string>, i: nat, r: Rule) returns (merged: seq<string>)
    requires i < |lines|
    ensures merged == Rewrite(lines, i, r)
  {
    var end := TableEnd(lines, i + 1, r.starts);
    var section := InsertBehind(Others(lines[i + 1..end], r.managed), r.own, r.blank);
    merged := lines[..i + 1] + section + lines[end..];
  }
}

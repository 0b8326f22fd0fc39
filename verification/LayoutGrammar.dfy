/** What layout texts there are, independently of the parser: words and parenthesised layouts, joined by commas,
    and those joined by semicolons.  The parser accepts exactly these texts and builds their trees. */
module LayoutGrammar {
  import opened Wrappers
  import opened Layout

  datatype Syntax = Name(leaf: Leaf) | Group(inner: Syntax) | Chain(kind: Kind, left: Syntax, right: Syntax)

  predicate IsPrimary(s: Syntax)
    decreases s, 0
  {
    s.Name? || (s.Group? && IsHorizontal(s.inner))
  }

  /** Comma binds more tightly than semicolon, and both nest to the left. */
  predicate IsVertical(s: Syntax)
    decreases s, 1
  {
    IsPrimary(s) || (s.Chain? && s.kind.Vertical? && IsVertical(s.left) && IsPrimary(s.right))
  }

  predicate IsHorizontal(s: Syntax)
    decreases s, 2
  {
    IsVertical(s) || (s.Chain? && s.kind.Horizontal? && IsHorizontal(s.left) && IsVertical(s.right))
  }

  function Text(s: Syntax): seq<Token> {
    match s
    case Name(leaf) => [Word(leaf)]
    case Group(inner) => [Open] + Text(inner) + [Close]
    case Chain(k, l, r) => Text(l) + [Separator(k)] + Text(r)
  }

  function Tree(s: Syntax): Node {
    match s
    case Name(leaf) => Pane(leaf)
    case Group(inner) => Tree(inner)
    case Chain(k, l, r) => Branch(k, Tree(l), Tree(r))
  }

  lemma ChainBefore(a: seq<Token>, b: seq<Token>, c: seq<Token>, d: seq<Token>)
    ensures (a + b + c) + d == a + (b + c + d)
  {
  }

  lemma Regroup(a: seq<Token>, ts: seq<Token>, c: seq<Token>, d: seq<Token>)
    requires ts != [] && ts[1..] == c + d
    ensures a + ts == (a + [ts[0]] + c) + d
  {
    assert ts == [ts[0]] + (c + d);
  }

  // ----- every layout text is read ---------------------------------------------------------

  lemma {:induction false} PrimaryIsRead(s: Syntax, rest: seq<Token>)
    requires IsPrimary(s)
    ensures ParsePrimary(Text(s) + rest) == Read(Tree(s), rest)
    decreases s, 0
  {
    var ts := Text(s) + rest;
    if s.Name? {
      assert ts[1..] == rest;
    } else {
      assert ts[1..] == Text(s.inner) + ([Close] + rest);
      HorizontalIsRead(s.inner, [Close] + rest);
      assert ([Close] + rest)[1..] == rest;
    }
  }

  lemma VerticalStep(acc: Node, ts: seq<Token>, tail: seq<Token>, n: Node, rest: seq<Token>)
    requires ts != [] && ts[0] == Comma && ts[1..] == tail && ParsePrimary(tail) == Read(n, rest)
    ensures VerticalTail(acc, ts) == VerticalTail(Branch(Vertical, acc, n), rest)
  {
  }

  lemma HorizontalStep(acc: Node, ts: seq<Token>, tail: seq<Token>, n: Node, rest: seq<Token>)
    requires ts != [] && ts[0] == Semi && ts[1..] == tail && !StartsWith(rest, Comma)
    requires ParseVertical(tail) == VerticalTail(n, rest)
    ensures HorizontalTail(acc, ts) == HorizontalTail(Branch(Horizontal, acc, n), rest)
  {
  }

  lemma {:induction false} VerticalIsRead(s: Syntax, rest: seq<Token>)
    requires IsVertical(s)
    ensures ParseVertical(Text(s) + rest) == VerticalTail(Tree(s), rest)
    decreases s, 1
  {
    if IsPrimary(s) {
      PrimaryIsRead(s, rest);
    } else {
      var more := [Comma] + Text(s.right) + rest;
      ChainBefore(Text(s.left), [Comma], Text(s.right), rest);
      VerticalIsRead(s.left, more);
      PrimaryIsRead(s.right, rest);
      VerticalStep(Tree(s.left), more, Text(s.right) + rest, Tree(s.right), rest);
    }
  }

  lemma {:induction false} HorizontalIsRead(s: Syntax, rest: seq<Token>)
    requires IsHorizontal(s) && !StartsWith(rest, Comma)
    ensures ParseHorizontal(Text(s) + rest) == HorizontalTail(Tree(s), rest)
    decreases s, 2
  {
    if IsVertical(s) {
      VerticalIsRead(s, rest);
    } else {
      var more := [Semi] + Text(s.right) + rest;
      ChainBefore(Text(s.left), [Semi], Text(s.right), rest);
      HorizontalIsRead(s.left, more);
      VerticalIsRead(s.right, rest);
      HorizontalStep(Tree(s.left), more, Text(s.right) + rest, Tree(s.right), rest);
    }
  }

  // ----- nothing else is read -----------------------------------------------------------------

  lemma {:induction false} ReadPrimaryIsText(ts: seq<Token>) returns (s: Syntax)
    requires ParsePrimary(ts).Read?
    ensures IsPrimary(s) && Tree(s) == ParsePrimary(ts).node && ts == Text(s) + ParsePrimary(ts).rest
    decreases |ts|, 0
  {
    if ts[0].Open? {
      var inner := ReadHorizontalIsText(ts[1..]);
      s := Group(inner);
      var rest := ParseHorizontal(ts[1..]).rest;
      assert ts == [Open] + (Text(inner) + ([Close] + rest[1..]));
    } else {
      s := Name(ts[0].leaf);
      assert ts == [ts[0]] + ts[1..];
    }
  }

  lemma {:induction false} ReadVerticalIsText(ts: seq<Token>) returns (s: Syntax)
    requires ParseVertical(ts).Read?
    ensures IsVertical(s) && Tree(s) == ParseVertical(ts).node && ts == Text(s) + ParseVertical(ts).rest
    decreases |ts|, 1
  {
    var first := ReadPrimaryIsText(ts);
    s := ReadVerticalTailIsText(first, ParsePrimary(ts).rest);
  }

  lemma {:induction false} ReadVerticalTailIsText(before: Syntax, ts: seq<Token>) returns (s: Syntax)
    requires IsVertical(before) && VerticalTail(Tree(before), ts).Read?
    ensures IsVertical(s) && Tree(s) == VerticalTail(Tree(before), ts).node
    ensures Text(before) + ts == Text(s) + VerticalTail(Tree(before), ts).rest
    decreases |ts|, 3
  {
    if ts == [] || ts[0] != Comma {
      s := before;
    } else {
      var next := ReadPrimaryIsText(ts[1..]);
      var rest := ParsePrimary(ts[1..]).rest;
      var longer := Chain(Vertical, before, next);
      s := ReadVerticalTailIsText(longer, rest);
      Regroup(Text(before), ts, Text(next), rest);
    }
  }

  lemma {:induction false} ReadHorizontalIsText(ts: seq<Token>) returns (s: Syntax)
    requires ParseHorizontal(ts).Read?
    ensures IsHorizontal(s) && Tree(s) == ParseHorizontal(ts).node && ts == Text(s) + ParseHorizontal(ts).rest
    decreases |ts|, 2
  {
    var first := ReadVerticalIsText(ts);
    s := ReadHorizontalTailIsText(first, ParseVertical(ts).rest);
  }

  lemma {:induction false} ReadHorizontalTailIsText(before: Syntax, ts: seq<Token>) returns (s: Syntax)
    requires IsHorizontal(before) && HorizontalTail(Tree(before), ts).Read?
    ensures IsHorizontal(s) && Tree(s) == HorizontalTail(Tree(before), ts).node
    ensures Text(before) + ts == Text(s) + HorizontalTail(Tree(before), ts).rest
    decreases |ts|, 3
  {
    if ts == [] || ts[0] != Semi {
      s := before;
    } else {
      var next := ReadVerticalIsText(ts[1..]);
      var rest := ParseVertical(ts[1..]).rest;
      var longer := Chain(Horizontal, before, next);
      s := ReadHorizontalTailIsText(longer, rest);
      Regroup(Text(before), ts, Text(next), rest);
    }
  }

  /** The parser accepts a token list with a tree if and only if the list is a layout text of that tree. */
  lemma ParsesExactly(ts: seq<Token>, n: Node)
    ensures Parse(ts) == Some(n) <==> exists s :: IsHorizontal(s) && Text(s) == ts && Tree(s) == n
  {
    if Parse(ts) == Some(n) {
      var s := ReadHorizontalIsText(ts);
      assert Text(s) + [] == Text(s);
    }
    if s :| IsHorizontal(s) && Text(s) == ts && Tree(s) == n {
      HorizontalIsRead(s, []);
      assert Text(s) + [] == ts;
    }
  }
}

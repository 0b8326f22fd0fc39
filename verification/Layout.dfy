/** Pane layouts: the tree of lib/agents/models_runtime/layout_runtime/nodes.py, its
    rendering, and the parser that reads renderings back.

    Texts are sequences of tokens.  A word token stands for one leaf token such as
    `name:provider(worktree)`; its spelling is not modelled. */
module Layout {
  import opened Wrappers

  datatype Kind = Horizontal | Vertical

  /** A leaf names a pane; only a leaf with a provider can be a worktree. */
  datatype Leaf = Leaf(name: string, provider: Option<Provider>)
  datatype Provider = Provider(id: string, worktree: bool)

  datatype Node = Pane(leaf: Leaf) | Branch(kind: Kind, left: Node, right: Node)

  datatype Token = Word(leaf: Leaf) | Semi | Comma | Open | Close

  function Leaves(n: Node): (ls: seq<Leaf>)
    ensures ls != []
  {
    match n
    case Pane(l) => [l]
    case Branch(_, l, r) => Leaves(l) + Leaves(r)
  }

  // ----- rendering -------------------------------------------------------------

  function Separator(k: Kind): Token { if k.Horizontal? then Semi else Comma }

  function Render(n: Node): seq<Token>
    decreases n, 0
  {
    match n
    case Pane(l) => [Word(l)]
    case Branch(k, l, r) => RenderChild(l, k) + [Separator(k)] + RenderChild(r, k)
  }

  /** Only a horizontal child of a vertical branch is parenthesised, so the nesting of
      branches of the same kind is not visible in the text. */
  function RenderChild(n: Node, parent: Kind): seq<Token>
    decreases n, 1
  {
    if n.Branch? && n.kind.Horizontal? && parent.Vertical? then [Open] + Render(n) + [Close] else Render(n)
  }

  // ----- parsing ---------------------------------------------------------------

  /** A parsed node and the tokens after it. */
  datatype Parsed = Failed | Read(node: Node, rest: seq<Token>)

  predicate Shorter(p: Parsed, ts: seq<Token>) { p.Read? ==> |p.rest| < |ts| }

  function Parse(ts: seq<Token>): Option<Node> {
    match ParseHorizontal(ts)
    case Failed => None
    case Read(n, rest) => if rest == [] then Some(n) else None
  }

  function ParseHorizontal(ts: seq<Token>): (p: Parsed)
    ensures Shorter(p, ts)
    decreases |ts|, 2
  {
    match ParseVertical(ts)
    case Failed => Failed
    case Read(n, rest) => HorizontalTail(n, rest)
  }

  function HorizontalTail(acc: Node, ts: seq<Token>): (p: Parsed)
    ensures p.Read? ==> |p.rest| <= |ts|
    decreases |ts|, 3
  {
    if ts == [] || ts[0] != Semi then Read(acc, ts)
    else
      match ParseVertical(ts[1..])
      case Failed => Failed
      case Read(n, rest) => HorizontalTail(Branch(Horizontal, acc, n), rest)
  }

  function ParseVertical(ts: seq<Token>): (p: Parsed)
    ensures Shorter(p, ts)
    decreases |ts|, 1
  {
    match ParsePrimary(ts)
    case Failed => Failed
    case Read(n, rest) => VerticalTail(n, rest)
  }

  function VerticalTail(acc: Node, ts: seq<Token>): (p: Parsed)
    ensures p.Read? ==> |p.rest| <= |ts|
    decreases |ts|, 3
  {
    if ts == [] || ts[0] != Comma then Read(acc, ts)
    else
      match ParsePrimary(ts[1..])
      case Failed => Failed
      case Read(n, rest) => VerticalTail(Branch(Vertical, acc, n), rest)
  }

  function ParsePrimary(ts: seq<Token>): (p: Parsed)
    ensures Shorter(p, ts)
    decreases |ts|, 0
  {
    if ts == [] then Failed
    else
      match ts[0]
      case Open =>
        (match ParseHorizontal(ts[1..])
         case Failed => Failed
         case Read(n, rest) => if rest != [] && rest[0] == Close then Read(n, rest[1..]) else Failed)
      case Word(l) => Read(Pane(l), ts[1..])
      case _ => Failed
  }

  /** The parser object: a cursor over the tokens, moved by every method.  `None` is a
      `LayoutParseError`. */
  class LayoutParser {
    const tokens: seq<Token>
    var index: nat

    constructor (input: seq<Token>)
      ensures tokens == input && index == 0
    {
      tokens := input;
      index := 0;
    }

    ghost predicate Valid()
      reads this
    {
      index <= |tokens|
    }

    /** Node and cursor are those that the parsing function gives. */
    ghost predicate At(p: Parsed, r: Option<Node>)
      reads this
    {
      && index <= |tokens|
      && (r.None? <==> p.Failed?)
      && (r.Some? ==> p == Read(r.value, tokens[index..]))
    }

    method Run() returns (r: Option<Node>)
      requires index == 0
      modifies this`index
      ensures r == Parse(tokens)
    {
      assert tokens[0..] == tokens;
      r := ParseHorizontalChain();
      if r.Some? && index < |tokens| {
        r := None;
      }
    }

    method ParseHorizontalChain() returns (r: Option<Node>)
      requires Valid()
      modifies this`index
      ensures At(ParseHorizontal(tokens[old(index)..]), r)
      decreases |tokens| - index, 2
    {
      ghost var goal := ParseHorizontal(tokens[index..]);
      r := ParseVerticalChain();
      if r.None? { return; }
      while index < |tokens| && tokens[index] == Semi
        invariant Valid() && old(index) < index
        invariant r.Some? && goal == HorizontalTail(r.value, tokens[index..])
        decreases |tokens| - index
      {
        assert tokens[index..][1..] == tokens[index + 1..];
        index := index + 1;
        var rhs := ParseVerticalChain();
        if rhs.None? { return None; }
        r := Some(Branch(Horizontal, r.value, rhs.value));
      }
    }

    method ParseVerticalChain() returns (r: Option<Node>)
      requires Valid()
      modifies this`index
      ensures At(ParseVertical(tokens[old(index)..]), r)
      ensures r.Some? ==> old(index) < index
      decreases |tokens| - index, 1
    {
      ghost var goal := ParseVertical(tokens[index..]);
      r := ParseOne();
      if r.None? { return; }
      while index < |tokens| && tokens[index] == Comma
        invariant Valid() && old(index) < index
        invariant r.Some? && goal == VerticalTail(r.value, tokens[index..])
        decreases |tokens| - index
      {
        assert tokens[index..][1..] == tokens[index + 1..];
        index := index + 1;
        var rhs := ParseOne();
        if rhs.None? { return None; }
        r := Some(Branch(Vertical, r.value, rhs.value));
      }
    }

    method ParseOne() returns (r: Option<Node>)
      requires Valid()
      modifies this`index
      ensures At(ParsePrimary(tokens[old(index)..]), r)
      ensures r.Some? ==> old(index) < index
      decreases |tokens| - index, 0
    {
      if index == |tokens| { return None; }
      assert tokens[index..][1..] == tokens[index + 1..];
      match tokens[index] {
        case Open =>
          index := index + 1;
          r := ParseHorizontalChain();
          if r.None? { return; }
          if index == |tokens| || tokens[index] != Close { return None; }
          assert tokens[index..][1..] == tokens[index + 1..];
          index := index + 1;
        case Word(l) =>
          index := index + 1;
          r := Some(Pane(l));
        case _ =>
          r := None;
      }
    }
  }

  // ----- left-nested trees -----------------------------------------------------

  /** `a` and `b` joined the way the parser nests a chain of `k`: to the left. */
  function Attach(k: Kind, a: Node, b: Node): (n: Node)
    ensures n.Branch? && n.kind == k
  {
    if b.Branch? && b.kind == k then Branch(k, Attach(k, a, b.left), b.right) else Branch(k, a, b)
  }

  /** The same layout with every chain of equal kinds nested to the left. */
  function Norm(n: Node): (m: Node)
    ensures n.Pane? ==> m == n
    ensures n.Branch? ==> m.Branch? && m.kind == n.kind
  {
    match n
    case Pane(_) => n
    case Branch(k, l, r) => Attach(k, Norm(l), Norm(r))
  }

  /** No branch has a right child of its own kind. */
  predicate LeftNested(n: Node) {
    n.Branch? ==> LeftNested(n.left) && LeftNested(n.right) && !(n.right.Branch? && n.right.kind == n.kind)
  }

  lemma {:induction false} AttachAssociative(k: Kind, a: Node, b: Node, c: Node)
    ensures Attach(k, Attach(k, a, b), c) == Attach(k, a, Attach(k, b, c))
  {
    if c.Branch? && c.kind == k {
      AttachAssociative(k, a, b, c.left);
    }
  }

  lemma {:induction false} AttachLeaves(k: Kind, a: Node, b: Node)
    ensures Leaves(Attach(k, a, b)) == Leaves(a) + Leaves(b)
  {
    if b.Branch? && b.kind == k {
      AttachLeaves(k, a, b.left);
    }
  }

  lemma {:induction false} NormLeaves(n: Node)
    ensures Leaves(Norm(n)) == Leaves(n)
  {
    if n.Branch? {
      NormLeaves(n.left);
      NormLeaves(n.right);
      AttachLeaves(n.kind, Norm(n.left), Norm(n.right));
    }
  }

  lemma {:induction false} AttachLeftNested(k: Kind, a: Node, b: Node)
    requires LeftNested(a) && LeftNested(b)
    ensures LeftNested(Attach(k, a, b))
  {
    if b.Branch? && b.kind == k {
      AttachLeftNested(k, a, b.left);
    }
  }

  /** `Norm` reaches exactly the left-nested trees and leaves those alone. */
  lemma {:induction false} NormIsLeftNested(n: Node)
    ensures LeftNested(Norm(n))
    ensures Norm(n) == n <==> LeftNested(n)
  {
    if n.Branch? {
      NormIsLeftNested(n.left);
      NormIsLeftNested(n.right);
      AttachLeftNested(n.kind, Norm(n.left), Norm(n.right));
    }
  }

  lemma {:induction false} AttachRenders(k: Kind, a: Node, b: Node)
    ensures Render(Attach(k, a, b)) == RenderChild(a, k) + [Separator(k)] + RenderChild(b, k)
  {
    if b.Branch? && b.kind == k {
      AttachRenders(k, a, b.left);
      var sep := [Separator(k)];
      var x, y, z := RenderChild(a, k), RenderChild(b.left, k), RenderChild(b.right, k);
      assert RenderChild(Attach(k, a, b.left), k) == x + sep + y;
      assert (x + sep + y) + sep + z == x + sep + (y + sep + z);
    }
  }

  lemma {:induction false} NormRenders(n: Node)
    ensures Render(Norm(n)) == Render(n)
  {
    if n.Branch? {
      NormRenders(n.left);
      NormRenders(n.right);
      AttachRenders(n.kind, Norm(n.left), Norm(n.right));
    }
  }

  // ----- reading a rendering back ----------------------------------------------

  predicate StartsWith(ts: seq<Token>, t: Token) { ts != [] && ts[0] == t }

  lemma {:induction false} ReadPrimary(n: Node, rest: seq<Token>)
    requires n.Pane? || n.kind.Horizontal?
    ensures ParsePrimary(RenderChild(n, Vertical) + rest) == Read(Norm(n), rest)
    decreases n, 4
  {
    var ts := RenderChild(n, Vertical) + rest;
    if n.Pane? {
      assert ts[1..] == rest;
    } else {
      assert ts[1..] == Render(n) + ([Close] + rest);
      ReadHorizontal(n, [Close] + rest);
      assert ([Close] + rest)[1..] == rest;
    }
  }

  lemma {:induction false} ReadVerticalMore(acc: Node, n: Node, rest: seq<Token>)
    ensures VerticalTail(acc, [Comma] + RenderChild(n, Vertical) + rest)
         == VerticalTail(Attach(Vertical, acc, Norm(n)), rest)
    decreases n, 5
  {
    var ts := [Comma] + RenderChild(n, Vertical) + rest;
    if n.Branch? && n.kind.Vertical? {
      var more := [Comma] + RenderChild(n.right, Vertical) + rest;
      assert ts == [Comma] + RenderChild(n.left, Vertical) + more;
      ReadVerticalMore(acc, n.left, more);
      ReadVerticalMore(Attach(Vertical, acc, Norm(n.left)), n.right, rest);
      AttachAssociative(Vertical, acc, Norm(n.left), Norm(n.right));
    } else {
      assert ts[1..] == RenderChild(n, Vertical) + rest;
      ReadPrimary(n, rest);
    }
  }

  lemma {:induction false} ReadVertical(n: Node, rest: seq<Token>)
    ensures ParseVertical(RenderChild(n, Vertical) + rest) == VerticalTail(Norm(n), rest)
    decreases n, 5
  {
    if n.Branch? && n.kind.Vertical? {
      var more := [Comma] + RenderChild(n.right, Vertical) + rest;
      assert RenderChild(n, Vertical) + rest == RenderChild(n.left, Vertical) + more;
      ReadVertical(n.left, more);
      ReadVerticalMore(Norm(n.left), n.right, rest);
    } else {
      ReadPrimary(n, rest);
    }
  }

  lemma {:induction false} ReadHorizontalMore(acc: Node, n: Node, rest: seq<Token>)
    requires !StartsWith(rest, Comma)
    ensures HorizontalTail(acc, [Semi] + Render(n) + rest)
         == HorizontalTail(Attach(Horizontal, acc, Norm(n)), rest)
    decreases n, 6
  {
    var ts := [Semi] + Render(n) + rest;
    if n.Branch? && n.kind.Horizontal? {
      var more := [Semi] + Render(n.right) + rest;
      assert ts == [Semi] + Render(n.left) + more;
      ReadHorizontalMore(acc, n.left, more);
      ReadHorizontalMore(Attach(Horizontal, acc, Norm(n.left)), n.right, rest);
      AttachAssociative(Horizontal, acc, Norm(n.left), Norm(n.right));
    } else {
      assert ts[1..] == RenderChild(n, Vertical) + rest;
      ReadVertical(n, rest);
    }
  }

  lemma {:induction false} ReadHorizontal(n: Node, rest: seq<Token>)
    requires !StartsWith(rest, Comma)
    ensures ParseHorizontal(Render(n) + rest) == HorizontalTail(Norm(n), rest)
    decreases n, if n.Branch? && n.kind.Horizontal? then 0 else 7
  {
    if n.Branch? && n.kind.Horizontal? {
      var more := [Semi] + Render(n.right) + rest;
      assert Render(n) + rest == Render(n.left) + more;
      ReadHorizontal(n.left, more);
      ReadHorizontalMore(Norm(n.left), n.right, rest);
    } else {
      ReadVertical(n, rest);
    }
  }

  /** Every rendered layout parses, to the left-nested form of the tree; it parses to the
      tree itself exactly when the tree was left-nested already. */
  lemma ParseRender(n: Node)
    ensures Parse(Render(n)) == Some(Norm(n))
    ensures Parse(Render(n)) == Some(n) <==> LeftNested(n)
  {
    assert Render(n) + [] == Render(n);
    ReadHorizontal(n, []);
    NormIsLeftNested(n);
  }

  /** Comparing renderings, as the append planner does, is comparing trees up to the
      nesting of equal kinds; in particular it compares their leaves. */
  lemma SameRendering(a: Node, b: Node)
    ensures Render(a) == Render(b) <==> Norm(a) == Norm(b)
    ensures Render(a) == Render(b) ==> Leaves(a) == Leaves(b)
  {
    ParseRender(a);
    ParseRender(b);
    NormRenders(a);
    NormRenders(b);
    NormLeaves(a);
    NormLeaves(b);
  }

  /** Renderings do not determine trees. */
  lemma RenderingIsNotInjective(a: Leaf, b: Leaf, c: Leaf, k: Kind)
    ensures var left := Branch(k, Branch(k, Pane(a), Pane(b)), Pane(c));
            var right := Branch(k, Pane(a), Branch(k, Pane(b), Pane(c)));
            Render(left) == Render(right) && left != right
  {
    SameRendering(Branch(k, Branch(k, Pane(a), Pane(b)), Pane(c)), Branch(k, Pane(a), Branch(k, Pane(b), Pane(c))));
  }
}

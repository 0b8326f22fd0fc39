/** The append planner of lib/ccbd/reload_append_layout.py and its caller in
    lib/ccbd/reload_additive_agents.py: which panes must be split off, and in which
    direction, to turn the old layout of a window into the new one. */
module AppendLayout {
  import opened Wrappers
  import opened Layout

  datatype Direction = Right | Bottom

  /** Split the last pane in this direction and start this agent there. */
  datatype Append = Append(agent: string, direction: Direction)

  function DirectionOf(k: Kind): Direction { if k.Horizontal? then Right else Bottom }

  function KindOf(d: Direction): Kind { if d.Right? then Horizontal else Vertical }

  function Names(ls: seq<Leaf>): (names: seq<string>)
    ensures |names| == |ls|
  {
    seq(|ls|, i requires 0 <= i < |ls| => ls[i].name)
  }

  function Agents(p: seq<Append>): (names: seq<string>)
    ensures |names| == |p|
  {
    seq(|p|, i requires 0 <= i < |p| => p[i].agent)
  }

  // ----- the planner -----------------------------------------------------------

  /** `None` for a layout text that does not parse. */
  function AppendPlan(was: Option<Node>, now: Option<Node>): Option<seq<Append>> {
    if was.None? || now.None? then None
    else
      var plan := RightmostLeafPlan(was.value, now.value);
      if plan.Some? then plan else TrailingSequencePlan(was.value, now.value)
  }

  function RightmostLeafPlan(was: Node, now: Node): Option<seq<Append>> {
    if was.Pane? then ExpandedLeafPlan(was, now)
    else if now.Pane? || was.kind != now.kind then None
    else if Render(was.left) != Render(now.left) then None
    else RightmostLeafPlan(was.right, now.right)
  }

  function ExpandedLeafPlan(anchor: Node, now: Node): Option<seq<Append>> {
    match now
    case Pane(_) => if Render(now) == Render(anchor) then Some([]) else None
    case Branch(k, l, r) =>
      var plan := ExpandedLeafPlan(anchor, l);
      if plan.None? || r.Branch? then None else Some(plan.value + [Append(r.leaf.name, DirectionOf(k))])
  }

  function TrailingSequencePlan(was: Node, now: Node): Option<seq<Append>> {
    var before, after := Names(Leaves(was)), Names(Leaves(now));
    if !(before <= after) then None
    else
      var added := after[|before|..];
      if added == [] then Some([])
      else
        var a, b := SequenceKind(was), SequenceKind(now);
        if a.None? || b.None? || a != b then None
        else Some(seq(|added|, i requires 0 <= i < |added| => Append(added[i], DirectionOf(a.value))))
  }

  function SequenceKind(n: Node): Option<Kind> {
    if n.Pane? || !AllBranches(n, n.kind) then None else Some(n.kind)
  }

  predicate AllBranches(n: Node, k: Kind) {
    n.Branch? ==> n.kind == k && AllBranches(n.left, k) && AllBranches(n.right, k)
  }

  /** `append_agent_plan_for_window`: the agent names of the windows decide first. */
  function WindowPlan(oldAgents: seq<string>, newAgents: seq<string>, was: Option<Node>, now: Option<Node>)
    : (plan: Option<seq<Append>>)
    ensures plan.Some? && |newAgents| >= |oldAgents| ==> oldAgents + Agents(plan.value) == newAgents
    ensures |newAgents| < |oldAgents| ==> plan == Some([])
    ensures plan.Some? <==> || oldAgents == newAgents || |newAgents| < |oldAgents|
                            || (oldAgents <= newAgents && AppendPlan(was, now).Some?
                                && oldAgents + Agents(AppendPlan(was, now).value) == newAgents)
  {
    if oldAgents == newAgents then
      assert oldAgents + Agents([]) == newAgents;
      Some([])
    else if |newAgents| < |oldAgents| then Some([])
    else if newAgents[..|oldAgents|] != oldAgents then None
    else
      var plan := AppendPlan(was, now);
      if plan.None? || Agents(plan.value) != newAgents[|oldAgents|..] then None else plan
  }

  // ----- the planner's inverse ---------------------------------------------------

  /** The layout whose plan is `p`: each entry puts a pane beside everything grown so far. */
  function Expand(anchor: Node, p: seq<Append>): Node {
    if p == [] then anchor
    else
      var last := p[|p| - 1];
      Branch(KindOf(last.direction), Expand(anchor, p[..|p| - 1]), Pane(Leaf(last.agent, None)))
  }

  /** The same at the rightmost pane of a layout. */
  function Grow(was: Node, p: seq<Append>): Node {
    match was
    case Pane(_) => Expand(was, p)
    case Branch(k, l, r) => Branch(k, l, Grow(r, p))
  }

  /** Equal along the right spine and in names, equal up to rendering beside it. */
  predicate Alike(a: Node, b: Node) {
    match (a, b)
    case (Pane(x), Pane(y)) => x.name == y.name
    case (Branch(k, l, r), Branch(k', l', r')) =>
      k == k' && (Render(l) == Render(l') || Alike(l, l')) && Alike(r, r')
    case _ => false
  }

  lemma {:induction false} NamesConcat(a: seq<Leaf>, b: seq<Leaf>)
    ensures Names(a + b) == Names(a) + Names(b)
  {
    assert |Names(a + b)| == |Names(a) + Names(b)|;
    assert forall i :: 0 <= i < |a + b| ==> Names(a + b)[i] == (Names(a) + Names(b))[i];
  }

  lemma {:induction false} ExpandPlansBack(anchor: Node, p: seq<Append>)
    requires anchor.Pane?
    ensures ExpandedLeafPlan(anchor, Expand(anchor, p)) == Some(p)
  {
    if p != [] {
      ExpandPlansBack(anchor, p[..|p| - 1]);
      assert p[..|p| - 1] + [p[|p| - 1]] == p;
    }
  }

  lemma {:induction false} GrowPlansBack(was: Node, p: seq<Append>)
    ensures RightmostLeafPlan(was, Grow(was, p)) == Some(p)
  {
    if was.Pane? {
      ExpandPlansBack(was, p);
    } else {
      GrowPlansBack(was.right, p);
    }
  }

  /** Planning against a grown layout recovers the list it was grown by. */
  lemma PlanOfGrown(was: Node, p: seq<Append>)
    ensures AppendPlan(Some(was), Some(Grow(was, p))) == Some(p)
  {
    GrowPlansBack(was, p);
  }

  lemma {:induction false} ExpandedIsAlike(anchor: Node, now: Node)
    requires anchor.Pane? && ExpandedLeafPlan(anchor, now).Some?
    ensures Alike(Expand(anchor, ExpandedLeafPlan(anchor, now).value), now)
  {
    if now.Pane? {
      SameRendering(now, anchor);
    } else {
      ExpandedIsAlike(anchor, now.left);
      var p := ExpandedLeafPlan(anchor, now).value;
      assert p[..|p| - 1] == ExpandedLeafPlan(anchor, now.left).value;
    }
  }

  /** A plan of the rightmost-leaf planner regrows the new layout. */
  lemma {:induction false} PlanRegrows(was: Node, now: Node)
    requires RightmostLeafPlan(was, now).Some?
    ensures Alike(Grow(was, RightmostLeafPlan(was, now).value), now)
  {
    if was.Pane? {
      ExpandedIsAlike(was, now);
    } else {
      PlanRegrows(was.right, now.right);
    }
  }

  lemma {:induction false} AlikeNames(a: Node, b: Node)
    requires Alike(a, b)
    ensures Names(Leaves(a)) == Names(Leaves(b))
  {
    if a.Branch? {
      if Render(a.left) == Render(b.left) {
        SameRendering(a.left, b.left);
      } else {
        AlikeNames(a.left, b.left);
      }
      AlikeNames(a.right, b.right);
      NamesConcat(Leaves(a.left), Leaves(a.right));
      NamesConcat(Leaves(b.left), Leaves(b.right));
    }
  }

  lemma {:induction false} ExpandNames(anchor: Node, p: seq<Append>)
    ensures Names(Leaves(Expand(anchor, p))) == Names(Leaves(anchor)) + Agents(p)
  {
    if p == [] {
      assert Agents(p) == [];
    } else {
      var init, last := p[..|p| - 1], Pane(Leaf(p[|p| - 1].agent, None));
      ExpandNames(anchor, init);
      NamesConcat(Leaves(Expand(anchor, init)), Leaves(last));
      assert Agents(p) == Agents(init) + [p[|p| - 1].agent];
      assert Names(Leaves(last)) == [p[|p| - 1].agent];
    }
  }

  lemma {:induction false} GrowNames(was: Node, p: seq<Append>)
    ensures Names(Leaves(Grow(was, p))) == Names(Leaves(was)) + Agents(p)
  {
    if was.Pane? {
      ExpandNames(was, p);
    } else {
      GrowNames(was.right, p);
      NamesConcat(Leaves(was.left), Leaves(was.right));
      NamesConcat(Leaves(was.left), Leaves(Grow(was.right, p)));
      assert (Names(Leaves(was.left)) + Names(Leaves(was.right))) + Agents(p)
          == Names(Leaves(was.left)) + (Names(Leaves(was.right)) + Agents(p));
    }
  }

  lemma TrailingPlanAppends(was: Node, now: Node)
    requires TrailingSequencePlan(was, now).Some?
    ensures Names(Leaves(now)) == Names(Leaves(was)) + Agents(TrailingSequencePlan(was, now).value)
  {
    var before, after := Names(Leaves(was)), Names(Leaves(now));
    assert after == before + after[|before|..];
    assert Agents(TrailingSequencePlan(was, now).value) == after[|before|..];
  }

  /** On both planning paths the new leaves are the old ones followed by the planned agents. */
  lemma PlanAppendsLeaves(was: Node, now: Node)
    requires AppendPlan(Some(was), Some(now)).Some?
    ensures Names(Leaves(now)) == Names(Leaves(was)) + Agents(AppendPlan(Some(was), Some(now)).value)
  {
    var plan := RightmostLeafPlan(was, now);
    if plan.Some? {
      var grown := Grow(was, plan.value);
      assert Names(Leaves(grown)) == Names(Leaves(now)) by {
        PlanRegrows(was, now);
        AlikeNames(grown, now);
      }
      GrowNames(was, plan.value);
    } else {
      TrailingPlanAppends(was, now);
    }
  }

  // ----- the grown layout is the new layout ----------------------------------------

  /** The layout with only names on its leaves. */
  function NamesOnly(n: Node): (m: Node)
    ensures m.Pane? <==> n.Pane?
    ensures n.Branch? ==> m.kind == n.kind
  {
    match n
    case Pane(l) => Pane(Leaf(l.name, None))
    case Branch(k, l, r) => Branch(k, NamesOnly(l), NamesOnly(r))
  }

  /** The left-nested chain of panes of one kind. */
  function Chain(k: Kind, names: seq<string>): Node
    requires names != []
  {
    if |names| == 1 then Pane(Leaf(names[0], None))
    else Branch(k, Chain(k, names[..|names| - 1]), Pane(Leaf(names[|names| - 1], None)))
  }

  lemma {:induction false} AttachNamesOnly(k: Kind, a: Node, b: Node)
    ensures NamesOnly(Attach(k, a, b)) == Attach(k, NamesOnly(a), NamesOnly(b))
  {
    if b.Branch? && b.kind == k {
      AttachNamesOnly(k, a, b.left);
    }
  }

  lemma {:induction false} NormNamesOnly(n: Node)
    ensures NamesOnly(Norm(n)) == Norm(NamesOnly(n))
  {
    if n.Branch? {
      NormNamesOnly(n.left);
      NormNamesOnly(n.right);
      AttachNamesOnly(n.kind, Norm(n.left), Norm(n.right));
    }
  }

  lemma {:induction false} AlikeNorm(a: Node, b: Node)
    requires Alike(a, b)
    ensures Norm(NamesOnly(a)) == Norm(NamesOnly(b))
  {
    if a.Branch? {
      if Render(a.left) == Render(b.left) {
        SameRendering(a.left, b.left);
        NormNamesOnly(a.left);
        NormNamesOnly(b.left);
      } else {
        AlikeNorm(a.left, b.left);
      }
      AlikeNorm(a.right, b.right);
    }
  }

  lemma {:induction false} ChainAttach(k: Kind, xs: seq<string>, ys: seq<string>)
    requires xs != [] && ys != []
    ensures Attach(k, Chain(k, xs), Chain(k, ys)) == Chain(k, xs + ys)
    decreases |ys|
  {
    var last := |xs + ys| - 1;
    if |ys| == 1 {
      assert (xs + ys)[..last] == xs;
    } else {
      ChainAttach(k, xs, ys[..|ys| - 1]);
      assert (xs + ys)[..last] == xs + ys[..|ys| - 1];
    }
  }

  lemma {:induction false} UniformNorm(n: Node, k: Kind)
    requires AllBranches(n, k)
    ensures Norm(NamesOnly(n)) == Chain(k, Names(Leaves(n)))
  {
    if n.Branch? {
      UniformNorm(n.left, k);
      UniformNorm(n.right, k);
      NamesConcat(Leaves(n.left), Leaves(n.right));
      ChainAttach(k, Names(Leaves(n.left)), Names(Leaves(n.right)));
    }
  }

  lemma {:induction false} ExpandUniform(anchor: Node, p: seq<Append>, k: Kind)
    requires AllBranches(anchor, k) && forall i :: 0 <= i < |p| ==> p[i].direction == DirectionOf(k)
    ensures AllBranches(Expand(anchor, p), k)
  {
    if p != [] {
      ExpandUniform(anchor, p[..|p| - 1], k);
    }
  }

  lemma {:induction false} GrowUniform(was: Node, p: seq<Append>, k: Kind)
    requires AllBranches(was, k) && forall i :: 0 <= i < |p| ==> p[i].direction == DirectionOf(k)
    ensures AllBranches(Grow(was, p), k)
  {
    if was.Pane? {
      ExpandUniform(was, p, k);
    } else {
      GrowUniform(was.right, p, k);
    }
  }

  /** Growing the old layout by the plan gives the new layout: the two have the same text up to the
      providers written on the leaves.  The one exception is an empty plan from the trailing-sequence
      rule, which ignores the shapes of the two trees. */
  lemma PlanGrowsNewLayout(was: Node, now: Node)
    requires AppendPlan(Some(was), Some(now)).Some?
    requires AppendPlan(Some(was), Some(now)).value != [] || RightmostLeafPlan(was, now).Some?
    ensures Render(NamesOnly(Grow(was, AppendPlan(Some(was), Some(now)).value))) == Render(NamesOnly(now))
  {
    var p := AppendPlan(Some(was), Some(now)).value;
    var grown := Grow(was, p);
    if RightmostLeafPlan(was, now).Some? {
      PlanRegrows(was, now);
      AlikeNorm(grown, now);
    } else {
      var k := SequenceKind(was).value;
      assert AllBranches(was, k) && AllBranches(now, k);
      GrowUniform(was, p, k);
      UniformNorm(grown, k);
      UniformNorm(now, k);
      GrowNames(was, p);
      PlanAppendsLeaves(was, now);
    }
    SameRendering(NamesOnly(grown), NamesOnly(now));
  }

  /** The exception is real: a reshaped window with unchanged leaves gets an empty plan. */
  lemma EmptyPlanIgnoresShape(a: Leaf, b: Leaf)
    requires a.name != b.name
    ensures var was, now := Branch(Horizontal, Pane(a), Pane(b)), Branch(Vertical, Pane(a), Pane(b));
            && AppendPlan(Some(was), Some(now)) == Some([])
            && Render(NamesOnly(CarryOut(was, []))) != Render(NamesOnly(now))
  {
    var was, now := Branch(Horizontal, Pane(a), Pane(b)), Branch(Vertical, Pane(a), Pane(b));
    assert Leaves(was) == Leaves(Pane(a)) + Leaves(Pane(b));
    assert Leaves(now) == Leaves(Pane(a)) + Leaves(Pane(b));
    SameRendering(NamesOnly(was), NamesOnly(now));
  }

  // ----- carrying a plan out -----------------------------------------------------------

  /** Splitting the last pane of a layout. */
  function SplitLast(n: Node, a: Append): Node {
    match n
    case Pane(_) => Branch(KindOf(a.direction), n, Pane(Leaf(a.agent, None)))
    case Branch(k, l, r) => Branch(k, l, SplitLast(r, a))
  }

  /** What happens to the window: the first split is of its last pane, every other one of the pane that
      the split before it made. */
  function CarryOut(was: Node, p: seq<Append>): Node {
    if p == [] then was else SplitLast(CarryOut(was, p[..|p| - 1]), p[|p| - 1])
  }

  /** Splitting the pane of a given agent. */
  function SplitPane(n: Node, anchor: string, a: Append): Node {
    match n
    case Pane(leaf) => if leaf.name == anchor then Branch(KindOf(a.direction), n, Pane(Leaf(a.agent, None))) else n
    case Branch(k, l, r) => Branch(k, SplitPane(l, anchor, a), SplitPane(r, anchor, a))
  }

  /** The steps with their anchors: each split names the agent added before it. */
  function CarryOutAnchored(was: Node, anchor: string, p: seq<Append>): Node {
    if p == [] then was
    else
      var last := if |p| == 1 then anchor else p[|p| - 2].agent;
      SplitPane(CarryOutAnchored(was, anchor, p[..|p| - 1]), last, p[|p| - 1])
  }

  predicate Unrepeated(names: seq<string>) { forall i, j :: 0 <= i < j < |names| ==> names[i] != names[j] }

  lemma {:induction false} SplitPaneElsewhere(n: Node, anchor: string, a: Append)
    requires anchor !in Names(Leaves(n))
    ensures SplitPane(n, anchor, a) == n
  {
    if n.Branch? {
      NamesConcat(Leaves(n.left), Leaves(n.right));
      SplitPaneElsewhere(n.left, anchor, a);
      SplitPaneElsewhere(n.right, anchor, a);
    } else {
      assert Names(Leaves(n))[0] == n.leaf.name;
    }
  }

  lemma UnrepeatedParts(a: seq<string>, b: seq<string>)
    requires Unrepeated(a + b) && b != []
    ensures Unrepeated(b) && b[|b| - 1] !in a
  {
    var all := a + b;
    assert forall i :: 0 <= i < |b| ==> b[i] == all[|a| + i];
    assert forall i :: 0 <= i < |a| ==> a[i] == all[i];
  }

  lemma {:induction false} SplitPaneAtEnd(n: Node, anchor: string, a: Append)
    requires Unrepeated(Names(Leaves(n))) && anchor == Names(Leaves(n))[|Leaves(n)| - 1]
    ensures SplitPane(n, anchor, a) == SplitLast(n, a)
  {
    if n.Branch? {
      var l, r := Names(Leaves(n.left)), Names(Leaves(n.right));
      NamesConcat(Leaves(n.left), Leaves(n.right));
      UnrepeatedParts(l, r);
      assert anchor == r[|r| - 1];
      SplitPaneElsewhere(n.left, anchor, a);
      SplitPaneAtEnd(n.right, anchor, a);
    }
  }

  lemma {:induction false} SplitLastNames(n: Node, a: Append)
    ensures Names(Leaves(SplitLast(n, a))) == Names(Leaves(n)) + [a.agent]
  {
    if n.Pane? {
      var added := Pane(Leaf(a.agent, None));
      NamesConcat(Leaves(n), Leaves(added));
      assert Names(Leaves(added)) == [a.agent];
    } else {
      SplitLastNames(n.right, a);
      NamesConcat(Leaves(n.left), Leaves(n.right));
      NamesConcat(Leaves(n.left), Leaves(SplitLast(n.right, a)));
    }
  }

  lemma {:induction false} CarryOutNames(was: Node, p: seq<Append>)
    ensures Names(Leaves(CarryOut(was, p))) == Names(Leaves(was)) + Agents(p)
  {
    if p == [] {
      assert Agents(p) == [];
    } else {
      var init, last := p[..|p| - 1], p[|p| - 1];
      CarryOutNames(was, init);
      SplitLastNames(CarryOut(was, init), last);
      assert Agents(p) == Agents(init) + [last.agent];
    }
  }

  /** With unrepeated names, following the anchors is splitting the last pane every time. */
  lemma {:induction false} AnchorsCarryOut(was: Node, p: seq<Append>)
    requires Unrepeated(Names(Leaves(was)) + Agents(p))
    ensures CarryOutAnchored(was, Names(Leaves(was))[|Leaves(was)| - 1], p) == CarryOut(was, p)
  {
    if p != [] {
      var init := p[..|p| - 1];
      var names := Names(Leaves(was)) + Agents(init);
      assert Agents(p) == Agents(init) + [p[|p| - 1].agent];
      assert names == (Names(Leaves(was)) + Agents(p))[..|names|];
      AnchorsCarryOut(was, init);
      CarryOutNames(was, init);
      SplitPaneAtEnd(CarryOut(was, init), names[|names| - 1], p[|p| - 1]);
    }
  }

  // ----- when a plan gives the new layout -----------------------------------------------------

  predicate OneDirection(p: seq<Append>) { forall i :: 0 <= i < |p| ==> p[i].direction == p[0].direction }

  lemma {:induction false} SplitLastUniform(n: Node, a: Append, k: Kind)
    requires AllBranches(n, k) && a.direction == DirectionOf(k)
    ensures AllBranches(SplitLast(n, a), k)
  {
    if n.Branch? {
      SplitLastUniform(n.right, a, k);
    }
  }

  lemma {:induction false} CarryOutUniform(n: Node, p: seq<Append>, k: Kind)
    requires AllBranches(n, k) && forall i :: 0 <= i < |p| ==> p[i].direction == DirectionOf(k)
    ensures AllBranches(CarryOut(n, p), k)
  {
    if p != [] {
      CarryOutUniform(n, p[..|p| - 1], k);
      SplitLastUniform(CarryOut(n, p[..|p| - 1]), p[|p| - 1], k);
    }
  }

  lemma {:induction false} CarryOutBelow(k: Kind, l: Node, r: Node, p: seq<Append>)
    ensures CarryOut(Branch(k, l, r), p) == Branch(k, l, CarryOut(r, p))
  {
    if p != [] {
      CarryOutBelow(k, l, r, p[..|p| - 1]);
    }
  }

  /** Seen from the front: the first split makes a pane that all further splits are below. */
  lemma {:induction false} CarryOutFirst(n: Node, p: seq<Append>)
    requires n.Pane? && p != []
    ensures CarryOut(n, p) == Branch(KindOf(p[0].direction), n, CarryOut(Pane(Leaf(p[0].agent, None)), p[1..]))
  {
    var init := p[..|p| - 1];
    if init == [] {
      assert p[1..] == [];
    } else {
      CarryOutFirst(n, init);
      assert p[1..][..|p| - 2] == init[1..];
    }
  }

  lemma MixedTail(p: seq<Append>)
    requires |p| > 1 && !OneDirection(p) && p[1].direction == p[0].direction
    ensures !OneDirection(p[1..])
  {
    var i :| 0 <= i < |p| && p[i].direction != p[0].direction;
    assert p[1..][i - 1] == p[i];
  }

  /** Mixed directions leave, in the normal form, something else than a pane at the end. */
  lemma {:induction false} MixedEndsInBranch(n: Node, p: seq<Append>)
    requires n.Pane? && p != [] && !OneDirection(p)
    ensures Norm(NamesOnly(CarryOut(n, p))).Branch? && Norm(NamesOnly(CarryOut(n, p))).right.Branch?
    decreases |p|
  {
    CarryOutFirst(n, p);
    var x, q := Pane(Leaf(p[0].agent, None)), p[1..];
    if q != [] {
      CarryOutFirst(x, q);
      if q[0].direction == p[0].direction {
        MixedTail(p);
        MixedEndsInBranch(x, q);
      }
    }
  }

  lemma GrownEndsInPane(n: Node, p: seq<Append>)
    requires n.Pane? && p != []
    ensures Norm(NamesOnly(Expand(n, p))).Branch? && Norm(NamesOnly(Expand(n, p))).right.Pane?
  {
  }

  function Count(n: Node): nat {
    match n
    case Pane(_) => 1
    case Branch(_, l, r) => Count(l) + Count(r)
  }

  lemma {:induction false} CountPositive(n: Node)
    ensures Count(n) > 0
  {
    if n.Branch? {
      CountPositive(n.left);
    }
  }

  lemma {:induction false} CountAttach(k: Kind, a: Node, b: Node)
    ensures Count(Attach(k, a, b)) == Count(a) + Count(b)
  {
    if b.Branch? && b.kind == k {
      CountAttach(k, a, b.left);
    }
  }

  /** Joining to the same layout keeps different layouts different. */
  lemma {:induction false} AttachInjective(k: Kind, a: Node, b: Node, c: Node)
    requires Attach(k, a, b) == Attach(k, a, c)
    ensures b == c
  {
    CountAttach(k, a, b);
    CountAttach(k, a, c);
    if b.Branch? && b.kind == k {
      CountAttach(k, a, b.left);
      CountPositive(b.left);
      if c.Branch? && c.kind == k {
        AttachInjective(k, a, b.left, c.left);
      }
    } else if c.Branch? && c.kind == k {
      CountAttach(k, a, c.left);
      CountPositive(c.left);
    }
  }

  /** Splitting and growing give the same layout, up to nesting, exactly when all directions agree. */
  lemma {:induction false} CarriedIsGrown(was: Node, p: seq<Append>)
    requires p != []
    ensures Norm(NamesOnly(CarryOut(was, p))) == Norm(NamesOnly(Grow(was, p))) <==> OneDirection(p)
  {
    if was.Pane? {
      if OneDirection(p) {
        var k := KindOf(p[0].direction);
        CarryOutUniform(was, p, k);
        ExpandUniform(was, p, k);
        UniformNorm(CarryOut(was, p), k);
        UniformNorm(Expand(was, p), k);
        CarryOutNames(was, p);
        ExpandNames(was, p);
      } else {
        MixedEndsInBranch(was, p);
        GrownEndsInPane(was, p);
      }
    } else {
      CarriedIsGrown(was.right, p);
      CarryOutBelow(was.kind, was.left, was.right, p);
      var l := Norm(NamesOnly(was.left));
      var a, b := Norm(NamesOnly(CarryOut(was.right, p))), Norm(NamesOnly(Grow(was.right, p)));
      if Attach(was.kind, l, a) == Attach(was.kind, l, b) {
        AttachInjective(was.kind, l, a, b);
      }
    }
  }

  /** Carrying out a plan that adds something gives the new layout if and only if all its splits go in the
      same direction. */
  lemma PlanGivesNewLayoutIff(was: Node, now: Node)
    requires AppendPlan(Some(was), Some(now)).Some? && AppendPlan(Some(was), Some(now)).value != []
    ensures var p := AppendPlan(Some(was), Some(now)).value;
            Render(NamesOnly(CarryOut(was, p))) == Render(NamesOnly(now)) <==> OneDirection(p)
  {
    var p := AppendPlan(Some(was), Some(now)).value;
    PlanGrowsNewLayout(was, now);
    CarriedIsGrown(was, p);
    SameRendering(NamesOnly(Grow(was, p)), NamesOnly(now));
    SameRendering(NamesOnly(CarryOut(was, p)), NamesOnly(now));
  }

  /** An empty plan does nothing.  The rightmost-leaf planner gives one only if the layouts have the same
      text up to providers; the trailing-sequence rule whenever the names are the same. */
  lemma EmptyPlanMeans(was: Node, now: Node)
    requires AppendPlan(Some(was), Some(now)) == Some([])
    ensures CarryOut(was, []) == was
    ensures RightmostLeafPlan(was, now).Some? ==> Render(NamesOnly(was)) == Render(NamesOnly(now))
    ensures RightmostLeafPlan(was, now).None? ==> Names(Leaves(was)) == Names(Leaves(now))
  {
    if RightmostLeafPlan(was, now).Some? {
      PlanRegrows(was, now);
      GrowNothing(was);
      AlikeNorm(was, now);
      SameRendering(NamesOnly(was), NamesOnly(now));
    } else {
      TrailingPlanAppends(was, now);
    }
  }

  lemma {:induction false} GrowNothing(was: Node)
    ensures Grow(was, []) == was
  {
    if was.Branch? {
      GrowNothing(was.right);
    }
  }

  /** A plan with mixed directions that the window planner accepts: from `a` to `(a; b), c` it splits `a`
      to the right and then `b` downwards, which makes `a; (b, c)`. */
  lemma MixedDirectionsMiss()
    ensures var a, b, c := Leaf("a", None), Leaf("b", None), Leaf("c", None);
            var was, now := Pane(a), Branch(Vertical, Branch(Horizontal, Pane(a), Pane(b)), Pane(c));
            var p := [Append("b", Right), Append("c", Bottom)];
            && WindowPlan(["a"], ["a", "b", "c"], Some(was), Some(now)) == Some(p)
            && CarryOut(was, p) == Branch(Horizontal, Pane(a), Branch(Vertical, Pane(b), Pane(c)))
            && Render(NamesOnly(CarryOut(was, p))) != Render(NamesOnly(now))
  {
    var a, b, c := Leaf("a", None), Leaf("b", None), Leaf("c", None);
    var was, left := Pane(a), Branch(Horizontal, Pane(a), Pane(b));
    var now := Branch(Vertical, left, Pane(c));
    var p := [Append("b", Right), Append("c", Bottom)];
    assert ExpandedLeafPlan(was, was) == Some([]);
    assert ExpandedLeafPlan(was, left) == Some([] + [Append("b", Right)]);
    assert [] + [Append("b", Right)] == [Append("b", Right)];
    assert ExpandedLeafPlan(was, now) == Some([Append("b", Right)] + [Append("c", Bottom)]);
    assert [Append("b", Right)] + [Append("c", Bottom)] == p;
    assert ["a", "b", "c"][..1] == ["a"] && ["a", "b", "c"][1..] == Agents(p);
    assert p[..1] == [Append("b", Right)] && p[..1][..0] == [];
    assert CarryOut(was, p[..1]) == SplitLast(CarryOut(was, []), p[0]);
    assert p[1].direction != p[0].direction;
    PlanGivesNewLayoutIff(was, now);
  }

  // ----- when there is a plan ------------------------------------------------------------

  /** Panes put beside a pane, one after the other, each with its kind of branch. */
  datatype Beside = Beside(kind: Kind, leaf: Leaf)

  function ExpandWith(anchor: Node, added: seq<Beside>): Node {
    if added == [] then anchor
    else Branch(added[|added| - 1].kind, ExpandWith(anchor, added[..|added| - 1]), Pane(added[|added| - 1].leaf))
  }

  function GrowWith(was: Node, added: seq<Beside>): Node {
    match was
    case Pane(_) => ExpandWith(was, added)
    case Branch(k, l, r) => Branch(k, l, GrowWith(r, added))
  }

  /** The same layout, except for how the parts beside the right spine are nested. */
  predicate SameSpine(a: Node, b: Node) {
    if a.Pane? then a == b
    else b.Branch? && a.kind == b.kind && Norm(a.left) == Norm(b.left) && SameSpine(a.right, b.right)
  }

  /** The new layout is the old one with panes put beside its last pane. */
  ghost predicate GrowsTo(was: Node, now: Node) {
    exists base, added :: SameSpine(was, base) && now == GrowWith(base, added)
  }

  /** Both layouts are flat and of the same kind. */
  predicate SameFlatKind(was: Node, now: Node) {
    was.Branch? && now.Branch? && was.kind == now.kind && AllBranches(was, was.kind) && AllBranches(now, was.kind)
  }

  /** The new names go on where the old ones end, and the layouts are flat if there are more of them. */
  predicate ContinuesFlat(was: Node, now: Node) {
    var before, after := Names(Leaves(was)), Names(Leaves(now));
    before <= after && (before == after || SameFlatKind(was, now))
  }

  lemma {:induction false} ExpandedPlanExists(anchor: Node, added: seq<Beside>)
    requires anchor.Pane?
    ensures ExpandedLeafPlan(anchor, ExpandWith(anchor, added)).Some?
  {
    if added != [] {
      ExpandedPlanExists(anchor, added[..|added| - 1]);
    }
  }

  lemma {:induction false} ExpandedFrom(anchor: Node, now: Node) returns (added: seq<Beside>)
    requires anchor.Pane? && ExpandedLeafPlan(anchor, now).Some?
    ensures now == ExpandWith(anchor, added)
  {
    if now.Pane? {
      SameRendering(now, anchor);
      added := [];
    } else {
      var init := ExpandedFrom(anchor, now.left);
      added := init + [Beside(now.kind, now.right.leaf)];
      assert added[..|init|] == init;
    }
  }

  lemma {:induction false} GrownPlanExists(was: Node, base: Node, added: seq<Beside>)
    requires SameSpine(was, base)
    ensures RightmostLeafPlan(was, GrowWith(base, added)).Some?
  {
    if was.Pane? {
      ExpandedPlanExists(was, added);
    } else {
      SameRendering(was.left, base.left);
      GrownPlanExists(was.right, base.right, added);
    }
  }

  lemma {:induction false} GrownFrom(was: Node, now: Node) returns (base: Node, added: seq<Beside>)
    requires RightmostLeafPlan(was, now).Some?
    ensures SameSpine(was, base) && now == GrowWith(base, added)
  {
    if was.Pane? {
      base := was;
      added := ExpandedFrom(was, now);
    } else {
      SameRendering(was.left, now.left);
      var right, more := GrownFrom(was.right, now.right);
      base, added := Branch(now.kind, now.left, right), more;
    }
  }

  /** The planner finds a plan exactly for the layouts that grow from the last pane, and for those that
      continue the names of a flat layout. */
  lemma PlanExistsIff(was: Node, now: Node)
    ensures AppendPlan(Some(was), Some(now)).Some? <==> GrowsTo(was, now) || ContinuesFlat(was, now)
  {
    if RightmostLeafPlan(was, now).Some? {
      var base, added := GrownFrom(was, now);
    } else {
      assert !GrowsTo(was, now) by {
        forall base, added | SameSpine(was, base) ensures now != GrowWith(base, added) {
          GrownPlanExists(was, base, added);
        }
      }
      TrailingPlanExistsIff(was, now);
    }
  }

  lemma TrailingPlanExistsIff(was: Node, now: Node)
    ensures TrailingSequencePlan(was, now).Some? <==> ContinuesFlat(was, now)
  {
    var before, after := Names(Leaves(was)), Names(Leaves(now));
    if before <= after {
      assert after[|before|..] == [] <==> before == after;
    }
  }

  // ----- flat windows -------------------------------------------------------------------

  lemma {:induction false} FlatExpandedDirections(anchor: Node, now: Node, k: Kind)
    requires AllBranches(now, k) && ExpandedLeafPlan(anchor, now).Some?
    ensures forall i :: 0 <= i < |ExpandedLeafPlan(anchor, now).value| ==> ExpandedLeafPlan(anchor, now).value[i].direction == DirectionOf(k)
  {
    if now.Branch? {
      FlatExpandedDirections(anchor, now.left, k);
    }
  }

  lemma {:induction false} FlatDirections(was: Node, now: Node, k: Kind)
    requires AllBranches(now, k) && RightmostLeafPlan(was, now).Some?
    ensures forall i :: 0 <= i < |RightmostLeafPlan(was, now).value| ==> RightmostLeafPlan(was, now).value[i].direction == DirectionOf(k)
  {
    if was.Pane? {
      FlatExpandedDirections(was, now, k);
    } else {
      FlatDirections(was.right, now.right, k);
    }
  }

  /** A flat window that goes on with more panes of its kind gets a plan that adds exactly those, all to the
      right of a row and all below in a column. */
  lemma FlatWindowGrows(was: Node, now: Node, k: Kind, added: seq<string>)
    requires was.Branch? && AllBranches(was, k) && AllBranches(now, k)
    requires Names(Leaves(now)) == Names(Leaves(was)) + added && added != []
    ensures AppendPlan(Some(was), Some(now)).Some?
    ensures var p := AppendPlan(Some(was), Some(now)).value;
      && Agents(p) == added
      && forall i :: 0 <= i < |p| ==> p[i].direction == if k == Horizontal then Right else Bottom
  {
    assert AppendPlan(Some(was), Some(now)).Some? by {
      MorePanesBranch(was, now);
      assert ContinuesFlat(was, now);
      PlanExistsIff(was, now);
    }
    PlanAppendsLeaves(was, now);
    var p := AppendPlan(Some(was), Some(now)).value;
    SameTail(Names(Leaves(was)), Agents(p), added);
    assert forall i :: 0 <= i < |p| ==> p[i].direction == DirectionOf(k) by {
      if RightmostLeafPlan(was, now).Some? {
        FlatDirections(was, now, k);
      } else {
        FlatTrailingDirections(was, now, k);
      }
    }
  }

  lemma FlatTrailingDirections(was: Node, now: Node, k: Kind)
    requires was.Branch? && AllBranches(was, k) && TrailingSequencePlan(was, now).Some?
    ensures forall i :: 0 <= i < |TrailingSequencePlan(was, now).value| ==> TrailingSequencePlan(was, now).value[i].direction == DirectionOf(k)
  {
    assert was.kind == k;
  }

  lemma SameTail(a: seq<string>, b: seq<string>, c: seq<string>)
    requires a + b == a + c
    ensures b == c
  {
    assert b == (a + b)[|a|..] && c == (a + c)[|a|..];
  }

  lemma MorePanesBranch(was: Node, now: Node)
    requires was.Branch? && |Leaves(now)| > |Leaves(was)|
    ensures now.Branch?
  {
    assert |Leaves(was.left)| > 0 && |Leaves(was.right)| > 0;
  }
}

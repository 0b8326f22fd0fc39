/** What the patch steps do to the panes of a project, and the proof that an unblocked plan
    turns the windows of the old configuration into those of the new one. */
module PatchReplay {
  import opened Wrappers
  import opened Layout
  import opened AppendLayout
  import opened ReloadOperations
  import opened NamespacePatch

  /** One managed window: whether it shows the sidebar, and its agents from left to right. */
  datatype Panes = Panes(sidebar: bool, agents: seq<string>)

  /** `Broken` is a step that cannot be carried out. */
  datatype Outcome = Broken | Left(panes: Option<Panes>)

  function Remove(agents: seq<string>, agent: string): seq<string> {
    if agents == [] then []
    else (if agents[0] == agent then [] else [agents[0]]) + Remove(agents[1..], agent)
  }

  /** Splitting a pane puts the new one right after it. */
  function InsertAfter(agents: seq<string>, anchor: string, agent: string): seq<string> {
    if agents == [] then [agent]
    else if agents[0] == anchor then [anchor, agent] + agents[1..]
    else [agents[0]] + InsertAfter(agents[1..], anchor, agent)
  }

  /** One step on the window it names; `None` is a window that does not exist. */
  function StepOn(p: Option<Panes>, s: Step): Outcome {
    match s
    case RefreshView => Left(p)
    case CreateWindow(_) => if p.Some? then Broken else Left(Some(Panes(false, [])))
    case CreateSidebar(_) => if p.None? || p.value.sidebar then Broken else Left(Some(p.value.(sidebar := true)))
    case CreateAgent(_, a, anchor) =>
      if p.None? || a in p.value.agents || (anchor.Some? && anchor.value !in p.value.agents) then Broken
      else if anchor.None? then Left(Some(p.value.(agents := p.value.agents + [a])))
      else Left(Some(p.value.(agents := InsertAfter(p.value.agents, anchor.value, a))))
    case KillAgent(_, a) =>
      if p.None? || a !in p.value.agents then Broken
      else Left(Some(p.value.(agents := Remove(p.value.agents, a))))
    case KillWindow(_) => if p.None? || p.value.agents != [] then Broken else Left(None)
  }

  function Play(p: Option<Panes>, steps: seq<Step>): Outcome
    decreases |steps|
  {
    if steps == [] then Left(p)
    else
      match StepOn(p, steps[0])
      case Broken => Broken
      case Left(q) => Play(q, steps[1..])
  }

  type Project = map<string, Panes>

  function Get(s: Project, w: string): Option<Panes> { if w in s then Some(s[w]) else None }

  function Put(s: Project, w: string, p: Option<Panes>): Project {
    if p.Some? then s[w := p.value] else s - {w}
  }

  /** All steps in order on the whole project; `None` when one of them breaks. */
  function Replay(s: Project, steps: seq<Step>): Option<Project>
    decreases |steps|
  {
    if steps == [] then Some(s)
    else if steps[0].RefreshView? then Replay(s, steps[1..])
    else
      match StepOn(Get(s, steps[0].window), steps[0])
      case Broken => None
      case Left(p) => Replay(Put(s, steps[0].window, p), steps[1..])
  }

  /** The panes a configuration asks for. */
  ghost function Wanted(c: Config): Project {
    map w | w in c.windows :: w.name := Panes(c.sidebar.everyWindow, Find(c.windows, w.name).value.agents)
  }

  // ----- steps of different windows do not interfere -----------------------------

  function Only(steps: seq<Step>, w: string): seq<Step> {
    if steps == [] then []
    else (if !steps[0].RefreshView? && steps[0].window == w then [steps[0]] else []) + Only(steps[1..], w)
  }

  lemma {:induction false} OnlyConcat(a: seq<Step>, b: seq<Step>, w: string)
    ensures Only(a + b, w) == Only(a, w) + Only(b, w)
  {
    if a == [] {
      assert a + b == b;
    } else {
      assert (a + b)[1..] == a[1..] + b;
      OnlyConcat(a[1..], b, w);
    }
  }

  /** Steps that all belong to one window. */
  ghost predicate Within(steps: seq<Step>, w: string) {
    forall s :: s in steps ==> !s.RefreshView? && s.window == w
  }

  lemma {:induction false} OnlyWithin(steps: seq<Step>, v: string, w: string)
    requires Within(steps, v)
    ensures Only(steps, w) == if v == w then steps else []
  {
    if steps != [] {
      assert steps[0] in steps;
      OnlyWithin(steps[1..], v, w);
    }
  }

  lemma {:induction false} PlayConcat(p: Option<Panes>, a: seq<Step>, b: seq<Step>)
    ensures Play(p, a + b) == match Play(p, a) case Broken => Broken case Left(q) => Play(q, b)
    decreases |a|
  {
    if a == [] {
      assert a + b == b;
    } else {
      assert (a + b)[1..] == a[1..] + b;
      if StepOn(p, a[0]).Left? {
        PlayConcat(StepOn(p, a[0]).panes, a[1..], b);
      }
    }
  }

  /** A project replays window by window. */
  lemma {:induction false} ReplayByWindow(s: Project, steps: seq<Step>)
    requires forall w :: Play(Get(s, w), Only(steps, w)).Left?
    ensures Replay(s, steps).Some?
    ensures forall w :: Get(Replay(s, steps).value, w) == Play(Get(s, w), Only(steps, w)).panes
    decreases |steps|
  {
    if steps == [] {
    } else if steps[0].RefreshView? {
      assert forall w :: Only(steps, w) == Only(steps[1..], w);
      ReplayByWindow(s, steps[1..]);
    } else {
      var x := steps[0].window;
      assert Only(steps, x) == [steps[0]] + Only(steps[1..], x);
      var q := StepOn(Get(s, x), steps[0]);
      assert Play(Get(s, x), Only(steps, x)) == if q.Broken? then Broken else Play(q.panes, Only(steps[1..], x));
      var s' := Put(s, x, q.panes);
      forall w ensures Play(Get(s', w), Only(steps[1..], w)) == Play(Get(s, w), Only(steps, w)) {
        if w != x {
          assert Only(steps, w) == Only(steps[1..], w);
        }
      }
      ReplayByWindow(s', steps[1..]);
    }
  }

  // ----- one window --------------------------------------------------------------

  lemma {:induction false} PaneStepsPlay(w: string, sidebar: bool, agents: seq<string>)
    requires Distinct(agents)
    ensures Play(Some(Panes(sidebar, [])), PaneSteps(w, agents)) == Left(Some(Panes(sidebar, agents)))
  {
    if agents != [] {
      var init, last := agents[..|agents| - 1], agents[|agents| - 1];
      PaneStepsPlay(w, sidebar, init);
      PlayConcat(Some(Panes(sidebar, [])), PaneSteps(w, init), [CreateAgent(w, last, None)]);
      assert last !in init;
      assert init + [last] == agents;
    }
  }

  lemma OpenStepsPlay(w: Window, sidebar: bool)
    requires Distinct(w.agents)
    ensures Play(None, OpenSteps(w, sidebar)) == Left(Some(Panes(sidebar, w.agents)))
  {
    PaneStepsPlay(w.name, sidebar, w.agents);
    var head := [CreateWindow(w.name)] + (if sidebar then [CreateSidebar(w.name)] else []);
    PlayConcat(None, head, PaneSteps(w.name, w.agents));
    if sidebar {
      assert head[1..] == [CreateSidebar(w.name)];
    }
  }

  lemma {:induction false} InsertAfterLast(agents: seq<string>, agent: string)
    requires Distinct(agents) && agents != []
    ensures InsertAfter(agents, agents[|agents| - 1], agent) == agents + [agent]
  {
    if |agents| > 1 {
      assert agents[0] != agents[|agents| - 1];
      InsertAfterLast(agents[1..], agent);
    }
  }

  lemma AppendOne(w: string, sidebar: bool, agents: seq<string>, agent: string)
    requires Distinct(agents) && agent !in agents
    ensures StepOn(Some(Panes(sidebar, agents)), CreateAgent(w, agent, LastOf(agents)))
         == Left(Some(Panes(sidebar, agents + [agent])))
  {
    if agents != [] {
      InsertAfterLast(agents, agent);
    }
  }

  lemma DistinctPrefix(a: seq<string>, x: string, b: seq<string>)
    requires Distinct(a + [x] + b)
    ensures Distinct(a) && x !in a
  {
    var s := a + [x] + b;
    assert forall i :: 0 <= i < |a| ==> s[i] == a[i];
    assert s[|a|] == x;
  }

  /** The anchor chain appends the planned agents in order. */
  lemma {:induction false} AppendStepsPlay(w: string, sidebar: bool, agents: seq<string>, plan: seq<Append>)
    requires Distinct(agents + Agents(plan))
    ensures Play(Some(Panes(sidebar, agents)), AppendSteps(w, LastOf(agents), plan))
         == Left(Some(Panes(sidebar, agents + Agents(plan))))
    decreases |plan|
  {
    if plan == [] {
      assert agents + Agents(plan) == agents;
    } else {
      var a, rest := plan[0].agent, plan[1..];
      assert agents + Agents(plan) == agents + [a] + Agents(rest);
      DistinctPrefix(agents, a, Agents(rest));
      AppendOne(w, sidebar, agents, a);
      AppendStepsPlay(w, sidebar, agents + [a], rest);
    }
  }

  lemma {:induction false} RemoveAbsent(agents: seq<string>, agent: string)
    requires agent !in agents
    ensures Remove(agents, agent) == agents
  {
    if agents != [] {
      RemoveAbsent(agents[1..], agent);
    }
  }

  lemma {:induction false} RemoveKeeps(agents: seq<string>, agent: string)
    requires Distinct(agents)
    ensures Distinct(Remove(agents, agent))
    ensures forall a :: a in Remove(agents, agent) <==> a in agents && a != agent
  {
    if agents != [] {
      RemoveKeeps(agents[1..], agent);
      var rest := Remove(agents[1..], agent);
      assert Remove(agents, agent) == (if agents[0] == agent then [] else [agents[0]]) + rest;
      assert agents[0] !in agents[1..];
    }
  }

  /** Removing the first dropped agent leaves the other agents and the other drops. */
  lemma {:induction false} DropFirst(agents: seq<string>, others: seq<string>)
    requires Distinct(agents) && Keep(agents, others, false) != []
    ensures var first := Keep(agents, others, false)[0];
            && Keep(Remove(agents, first), others, false) == Keep(agents, others, false)[1..]
            && Keep(Remove(agents, first), others, true) == Keep(agents, others, true)
  {
    var first := Keep(agents, others, false)[0];
    if agents[0] in others {
      DropFirst(agents[1..], others);
      assert first in agents[1..] && first != agents[0];
      assert Remove(agents, first) == [agents[0]] + Remove(agents[1..], first);
    } else {
      assert agents[0] !in agents[1..];
      RemoveAbsent(agents[1..], agents[0]);
      assert Remove(agents, first) == agents[1..];
      assert Keep(agents, others, false)[1..] == Keep(agents[1..], others, false);
    }
  }

  lemma {:induction false} NoDropsKeepsAll(agents: seq<string>, others: seq<string>)
    requires Keep(agents, others, false) == []
    ensures Keep(agents, others, true) == agents
  {
    if agents != [] {
      assert agents[0] in others;
      NoDropsKeepsAll(agents[1..], others);
    }
  }

  lemma {:induction false} NothingDropped(agents: seq<string>, others: seq<string>)
    requires forall a :: a in agents ==> a in others
    ensures Keep(agents, others, false) == []
  {
    if agents != [] {
      NothingDropped(agents[1..], others);
    }
  }

  lemma {:induction false} KillStepsPlay(w: string, sidebar: bool, agents: seq<string>, others: seq<string>)
    requires Distinct(agents)
    ensures Play(Some(Panes(sidebar, agents)), KillSteps(w, Keep(agents, others, false)))
         == Left(Some(Panes(sidebar, Keep(agents, others, true))))
    decreases |Keep(agents, others, false)|
  {
    var dropped := Keep(agents, others, false);
    if dropped == [] {
      NoDropsKeepsAll(agents, others);
    } else {
      assert dropped[0] in dropped;
      DropFirst(agents, others);
      RemoveKeeps(agents, dropped[0]);
      KillStepsPlay(w, sidebar, Remove(agents, dropped[0]), others);
    }
  }

  lemma {:induction false} KeepNone(agents: seq<string>)
    ensures Keep(agents, [], false) == agents && Keep(agents, [], true) == []
  {
    if agents != [] {
      KeepNone(agents[1..]);
    }
  }

  lemma CloseStepsPlay(was: Window, sidebar: bool)
    requires Distinct(was.agents) && CloseWindow(was).blocked == []
    ensures Play(Some(Panes(sidebar, was.agents)), CloseWindow(was).steps) == Left(None)
  {
    KeepNone(was.agents);
    KillStepsPlay(was.name, sidebar, was.agents, []);
    PlayConcat(Some(Panes(sidebar, was.agents)), KillSteps(was.name, was.agents), [KillWindow(was.name)]);
  }

  /** A list without repetition that fits into another one is no longer than it. */
  lemma {:induction false} Pigeonhole(a: seq<string>, b: seq<string>)
    requires Distinct(a) && forall x :: x in a ==> x in b
    ensures |a| <= |b|
  {
    if a != [] {
      var x := a[|a| - 1];
      assert x in a;
      var i :| 0 <= i < |b| && b[i] == x;
      var rest := b[..i] + b[i + 1..];
      forall y | y in a[..|a| - 1] ensures y in rest {
        assert y in a && y != x;
        var j :| 0 <= j < |b| && b[j] == y;
        assert rest[if j < i then j else j - 1] == y;
      }
      Pigeonhole(a[..|a| - 1], rest);
    }
  }

  /** A window in both configurations: growing and shrinking steps together give its new agents. */
  lemma SharedWindowPlay(was: Window, now: Window, sidebar: bool)
    requires Distinct(was.agents) && Distinct(now.agents) && was.name == now.name
    requires GrowWindow(was, now).blocked == [] && ShrinkWindow(was, now).blocked == []
    ensures Play(Some(Panes(sidebar, was.agents)), GrowWindow(was, now).steps + ShrinkWindow(was, now).steps)
         == Left(Some(Panes(sidebar, now.agents)))
  {
    var grow, shrink := GrowWindow(was, now).steps, ShrinkWindow(was, now).steps;
    var dropped := Keep(was.agents, now.agents, false);
    if |now.agents| < |was.agents| {
      if dropped == [] {
        Pigeonhole(was.agents, now.agents);
        assert false;
      }
      assert grow + shrink == KillSteps(was.name, dropped);
      KillStepsPlay(was.name, sidebar, was.agents, now.agents);
    } else {
      assert now.agents == was.agents + now.agents[|was.agents|..];
      NothingDropped(was.agents, now.agents);
      assert grow + shrink == grow;
      if was.agents != now.agents {
        var plan := WindowPlan(was.agents, now.agents, Parse(was.spec), Parse(now.spec)).value;
        AppendStepsPlay(now.name, sidebar, was.agents, plan);
      }
    }
  }

  // ----- all windows ---------------------------------------------------------------

  ghost predicate UniqueNames(ws: seq<Window>) {
    forall i, j :: 0 <= i < j < |ws| ==> ws[i].name != ws[j].name
  }

  lemma FindInit(ws: seq<Window>)
    requires UniqueNames(ws) && ws != []
    ensures Find(ws[..|ws| - 1], ws[|ws| - 1].name).None?
  {
  }

  /** The part of one window in a pass over `ws`. */
  function PartOf(ws: seq<Window>, f: Window -> Part, name: string): Part {
    if Has(ws, name) then f(Find(ws, name).value) else NOTHING
  }

  /** From a pass over all windows, one window gets its own part. */
  lemma {:induction false} OnlyFold(ws: seq<Window>, f: Window -> Part, name: string)
    requires UniqueNames(ws) && forall w :: w in ws ==> Within(f(w).steps, w.name)
    ensures Only(Fold(ws, f).steps, name) == PartOf(ws, f, name).steps
    ensures Fold(ws, f).blocked == [] ==> PartOf(ws, f, name).blocked == []
  {
    if ws != [] {
      var init, last := ws[..|ws| - 1], ws[|ws| - 1];
      var x, y := Only(Fold(init, f).steps, name), Only(f(last).steps, name);
      assert Only(Fold(ws, f).steps, name) == x + y by {
        OnlyConcat(Fold(init, f).steps, f(last).steps, name);
      }
      assert last in ws;
      OnlyWithin(f(last).steps, last.name, name);
      OnlyFold(init, f, name);
      if last.name == name {
        FindInit(ws);
        assert x == [] && PartOf(ws, f, name) == f(last);
      } else {
        assert y == [] && PartOf(ws, f, name) == PartOf(init, f, name);
      }
    }
  }

  lemma {:induction false} AppendStepsWithin(w: string, anchor: Option<string>, plan: seq<Append>)
    ensures Within(AppendSteps(w, anchor, plan), w)
    decreases |plan|
  {
    if plan != [] {
      AppendStepsWithin(w, Some(plan[0].agent), plan[1..]);
    }
  }

  lemma {:induction false} KillStepsWithin(w: string, agents: seq<string>)
    ensures Within(KillSteps(w, agents), w)
  {
    if agents != [] {
      KillStepsWithin(w, agents[1..]);
    }
  }

  lemma {:induction false} PaneStepsWithin(w: string, agents: seq<string>)
    ensures Within(PaneSteps(w, agents), w)
  {
    if agents != [] {
      PaneStepsWithin(w, agents[..|agents| - 1]);
    }
  }

  lemma GrowWithin(was: Window, now: Window)
    ensures Within(GrowWindow(was, now).steps, now.name)
  {
    var plan := WindowPlan(was.agents, now.agents, Parse(was.spec), Parse(now.spec));
    if plan.Some? {
      AppendStepsWithin(now.name, LastOf(was.agents), plan.value);
    }
  }

  /** Every pass works on the window it is at. */
  lemma PassesWithin(was: seq<Window>, now: seq<Window>, sidebar: bool)
    ensures forall w :: Within(Opening(was, sidebar)(w).steps, w.name)
    ensures forall w :: Within(Growing(was)(w).steps, w.name)
    ensures forall w :: Within(Shrinking(now)(w).steps, w.name)
  {
    forall w: Window ensures Within(Opening(was, sidebar)(w).steps, w.name) {
      PaneStepsWithin(w.name, w.agents);
    }
    forall w: Window ensures Within(Growing(was)(w).steps, w.name) {
      if Has(was, w.name) {
        GrowWithin(Find(was, w.name).value, w);
      }
    }
    forall w: Window ensures Within(Shrinking(now)(w).steps, w.name) {
      KillStepsWithin(w.name, w.agents);
      if Has(now, w.name) {
        KillStepsWithin(w.name, Keep(w.agents, Find(now, w.name).value.agents, false));
      }
    }
  }

  // ----- the main result -------------------------------------------------------------

  function PanesOf(w: Option<Window>, sidebar: bool): Option<Panes> {
    if w.Some? then Some(Panes(sidebar, w.value.agents)) else None
  }

  lemma WantedGet(c: Config, w: string)
    ensures Get(Wanted(c), w) == PanesOf(Find(c.windows, w), c.sidebar.everyWindow)
  {
    var found := Find(c.windows, w);
    assert found.Some? ==> found.value in c.windows && found.value.name == w;
  }

  lemma OnlyFour(a: seq<Step>, b: seq<Step>, c: seq<Step>, d: seq<Step>, w: string)
    requires Only(a, w) == []
    ensures Only(a + b + c + d, w) == Only(b, w) + Only(c, w) + Only(d, w)
  {
    OnlyConcat(a + b + c, d, w);
    OnlyConcat(a + b, c, w);
    OnlyConcat(a, b, w);
  }

  lemma OnlyPasses(view: seq<Step>, was: seq<Window>, now: seq<Window>,
                   f: Window -> Part, g: Window -> Part, h: Window -> Part, name: string)
    requires UniqueNames(was) && UniqueNames(now) && Only(view, name) == []
    requires forall w :: w in now ==> Within(f(w).steps, w.name) && Within(g(w).steps, w.name)
    requires forall w :: w in was ==> Within(h(w).steps, w.name)
    requires Fold(now, g).blocked == [] && Fold(was, h).blocked == []
    ensures PartOf(now, g, name).blocked == [] && PartOf(was, h, name).blocked == []
    ensures Only(view + Fold(now, f).steps + Fold(now, g).steps + Fold(was, h).steps, name)
         == PartOf(now, f, name).steps + PartOf(now, g, name).steps + PartOf(was, h, name).steps
  {
    var a, b, c := Fold(now, f).steps, Fold(now, g).steps, Fold(was, h).steps;
    assert Only(view + a + b + c, name) == Only(a, name) + Only(b, name) + Only(c, name) by {
      OnlyFour(view, a, b, c, name);
    }
    assert Only(a, name) == PartOf(now, f, name).steps by { OnlyFold(now, f, name); }
    assert Only(b, name) == PartOf(now, g, name).steps && PartOf(now, g, name).blocked == [] by {
      OnlyFold(now, g, name);
    }
    assert Only(c, name) == PartOf(was, h, name).steps && PartOf(was, h, name).blocked == [] by {
      OnlyFold(was, h, name);
    }
  }

  /** The parts of one window take it from its old panes to its new ones. */
  lemma PartsPlay(was: Option<Window>, now: Option<Window>, sidebar: bool, open: Part, grow: Part, shrink: Part)
    requires was.Some? ==> Distinct(was.value.agents)
    requires now.Some? ==> Distinct(now.value.agents)
    requires was.Some? && now.Some? ==> was.value.name == now.value.name
    requires open == if was.None? && now.Some? then Part(OpenSteps(now.value, sidebar), []) else NOTHING
    requires grow == if was.Some? && now.Some? then GrowWindow(was.value, now.value) else NOTHING
    requires shrink == if was.None? then NOTHING
                       else if now.Some? then ShrinkWindow(was.value, now.value) else CloseWindow(was.value)
    requires grow.blocked == [] && shrink.blocked == []
    ensures Play(PanesOf(was, sidebar), open.steps + grow.steps + shrink.steps) == Left(PanesOf(now, sidebar))
  {
    if was.Some? && now.Some? {
      assert open.steps + grow.steps + shrink.steps == grow.steps + shrink.steps;
      SharedWindowPlay(was.value, now.value, sidebar);
    } else if was.Some? {
      assert open.steps + grow.steps + shrink.steps == shrink.steps;
      CloseStepsPlay(was.value, sidebar);
    } else if now.Some? {
      assert open.steps + grow.steps + shrink.steps == open.steps;
      OpenStepsPlay(now.value, sidebar);
    }
  }

  lemma WindowPlays(was: Config, now: Config, ops: seq<Op>, name: string)
    requires WellFormed(was) && WellFormed(now) && was.sidebar == now.sidebar
    requires GrowPart(was, now).blocked == [] && ShrinkPart(was, now).blocked == []
    ensures Play(Get(Wanted(was), name), Only(AllSteps(was, now, ops), name)) == Left(Get(Wanted(now), name))
  {
    var sb := now.sidebar.everyWindow;
    var f, g, h := Opening(was.windows, sb), Growing(was.windows), Shrinking(now.windows);
    PassesWithin(was.windows, now.windows, sb);
    assert Only(ViewSteps(ops), name) == [];
    OnlyPasses(ViewSteps(ops), was.windows, now.windows, f, g, h, name);
    WantedGet(was, name);
    WantedGet(now, name);
    PartsPlay(Find(was.windows, name), Find(now.windows, name), sb,
              PartOf(now.windows, f, name), PartOf(now.windows, g, name), PartOf(was.windows, h, name));
  }

  lemma SameProject(a: Project, b: Project)
    requires forall w :: Get(a, w) == Get(b, w)
    ensures a == b
  {
    forall w ensures w in a <==> w in b {
      assert Get(a, w) == Get(b, w);
    }
    forall w | w in a ensures a[w] == b[w] {
      assert Get(a, w) == Get(b, w);
    }
  }

  lemma UnblockedKeepsSidebar(was: Config, now: Config, ops: seq<Op>, scopeVerified: bool)
    requires IsDryRun(ops, was, now) && EarlyBlocked(ops, scopeVerified) == []
    ensures was.sidebar == now.sidebar
  {
    assert !Supported(SidebarChange) && SidebarChange !in ops;
    assert !Describes(SidebarChange, was, now);
  }

  /** A dry-run plan without blocked entries, replayed on the panes of the old configuration,
      gives exactly the panes of the new one: same windows, same sidebars, same agents in the
      same order, and no step breaks on the way. */
  lemma UnblockedPlanReplays(was: Config, now: Config, ops: seq<Op>, scopeVerified: bool)
    requires WellFormed(was) && WellFormed(now) && IsDryRun(ops, was, now)
    requires PatchPlan(was, now, ops, scopeVerified).blocked == []
    ensures Replay(Wanted(was), PatchPlan(was, now, ops, scopeVerified).steps) == Some(Wanted(now))
  {
    UnblockedKeepsSidebar(was, now, ops, scopeVerified);
    var steps := AllSteps(was, now, ops);
    forall w ensures Play(Get(Wanted(was), w), Only(steps, w)) == Left(Get(Wanted(now), w)) {
      WindowPlays(was, now, ops, w);
    }
    ReplayByWindow(Wanted(was), steps);
    var end := Replay(Wanted(was), steps).value;
    forall w ensures Get(end, w) == Get(Wanted(now), w) {
      assert Get(end, w) == Play(Get(Wanted(was), w), Only(steps, w)).panes;
    }
    SameProject(end, Wanted(now));
  }

  // ----- layouts ------------------------------------------------------------------------------

  lemma UnblockedWindow(was: Config, now: Config, ops: seq<Op>, scopeVerified: bool, b: Window)
    requires WellFormed(was) && WellFormed(now) && b in now.windows && Has(was.windows, b.name)
    requires PatchPlan(was, now, ops, scopeVerified).blocked == []
    ensures GrowWindow(Find(was.windows, b.name).value, b).blocked == []
  {
    PassesWithin(was.windows, now.windows, false);
    OnlyFold(now.windows, Growing(was.windows), b.name);
    FindUnique(now, b);
  }

  /** What the splits planned for a window that gains agents do to its layout. */
  ghost predicate LaidOut(a: Window, b: Window) {
    var plan := WindowPlan(a.agents, b.agents, Parse(a.spec), Parse(b.spec));
    && Parse(a.spec).Some? && Parse(b.spec).Some? && plan.Some?
    && (Render(NamesOnly(CarryOut(Parse(a.spec).value, plan.value))) == Render(NamesOnly(Parse(b.spec).value))
        <==> OneDirection(plan.value))
  }

  lemma GrownWindowIsLaidOut(a: Window, b: Window)
    requires GrowWindow(a, b).blocked == [] && |a.agents| < |b.agents|
    ensures LaidOut(a, b)
  {
    var plan := WindowPlan(a.agents, b.agents, Parse(a.spec), Parse(b.spec));
    assert plan.value != [] by { assert |Agents(plan.value)| == |plan.value|; }
    PlanGivesNewLayoutIff(Parse(a.spec).value, Parse(b.spec).value);
  }

  lemma UnblockedKeepsShape(was: Config, now: Config, ops: seq<Op>, scopeVerified: bool, name: string)
    requires IsDryRun(ops, was, now) && EarlyBlocked(ops, scopeVerified) == []
    requires Has(was.windows, name) && Has(now.windows, name)
    ensures var a, b := Find(was.windows, name).value, Find(now.windows, name).value;
      (set x | x in a.agents) == (set x | x in b.agents) ==> a.spec == b.spec && a.agents == b.agents
  {
    assert !Supported(ReshapeWindow(name)) && ReshapeWindow(name) !in ops;
    assert SameIdentity(was, now) || !Describes(ReshapeWindow(name), was, now);
  }

  /** The layouts of an unblocked plan.  A window that keeps its set of agents keeps its layout text; one
      that gains agents gets the new layout, once its splits are carried out, if and only if they all go in
      the same direction. */
  lemma UnblockedLayouts(was: Config, now: Config, ops: seq<Op>, scopeVerified: bool, b: Window)
    requires WellFormed(was) && WellFormed(now) && IsDryRun(ops, was, now)
    requires PatchPlan(was, now, ops, scopeVerified).blocked == []
    requires b in now.windows && Has(was.windows, b.name)
    ensures var a := Find(was.windows, b.name).value;
      && ((set x | x in a.agents) == (set x | x in b.agents) ==> a.spec == b.spec && a.agents == b.agents)
      && (|a.agents| < |b.agents| ==> LaidOut(a, b))
  {
    FindUnique(now, b);
    UnblockedKeepsShape(was, now, ops, scopeVerified, b.name);
    UnblockedWindow(was, now, ops, scopeVerified, b);
    var a := Find(was.windows, b.name).value;
    if |a.agents| < |b.agents| {
      GrownWindowIsLaidOut(a, b);
    }
  }
}

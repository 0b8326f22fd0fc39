/** The namespace patch planner (lib/ccbd/reload_patch.py, reload_patch_additive_agents.py and
    reload_patch_remove_agents.py): operations become pane steps, or blocked entries. */
module NamespacePatch {
  import opened Wrappers
  import opened Layout
  import opened AppendLayout
  import opened ReloadOperations

  datatype Step =
    | RefreshView
    | CreateWindow(window: string)
    | CreateSidebar(window: string)
    | CreateAgent(window: string, agent: string, anchor: Option<string>)
    | KillAgent(window: string, agent: string)
    | KillWindow(window: string)

  datatype Blocked =
    | UnsupportedOp(op: Op)
    | ScopeUnverified
    | BadAppend(window: string)
    | BadRemoval(window: string)
    | UncoveredAdd(agent: string)
    | UncoveredRemoval(agent: string)

  datatype Part = Part(steps: seq<Step>, blocked: seq<Blocked>)

  function Join(a: Part, b: Part): Part { Part(a.steps + b.steps, a.blocked + b.blocked) }

  const NOTHING := Part([], [])

  // ----- one window ------------------------------------------------------------

  function OpenSteps(w: Window, sidebar: bool): seq<Step> {
    [CreateWindow(w.name)] + (if sidebar then [CreateSidebar(w.name)] else []) + PaneSteps(w.name, w.agents)
  }

  function PaneSteps(window: string, agents: seq<string>): seq<Step> {
    if agents == [] then []
    else PaneSteps(window, agents[..|agents| - 1]) + [CreateAgent(window, agents[|agents| - 1], None)]
  }

  /** Each appended pane is split off the one before it, the first off the last old pane. */
  function AppendSteps(window: string, anchor: Option<string>, plan: seq<Append>): seq<Step>
    decreases |plan|
  {
    if plan == [] then []
    else [CreateAgent(window, plan[0].agent, anchor)] + AppendSteps(window, Some(plan[0].agent), plan[1..])
  }

  function KillSteps(window: string, agents: seq<string>): seq<Step> {
    if agents == [] then [] else [KillAgent(window, agents[0])] + KillSteps(window, agents[1..])
  }

  function LastOf(agents: seq<string>): Option<string> {
    if agents == [] then None else Some(agents[|agents| - 1])
  }

  /** The agents that are, or are not, among `others`, in order. */
  function Keep(agents: seq<string>, others: seq<string>, present: bool): (r: seq<string>)
    ensures forall a :: a in r <==> a in agents && (a in others) == present
  {
    if agents == [] then []
    else (if (agents[0] in others) == present then [agents[0]] else []) + Keep(agents[1..], others, present)
  }

  function GrowWindow(was: Window, now: Window): Part {
    if was.agents == now.agents || |now.agents| < |was.agents| then NOTHING
    else if now.agents[..|was.agents|] != was.agents then Part([], [BadAppend(now.name)])
    else
      var plan := WindowPlan(was.agents, now.agents, Parse(was.spec), Parse(now.spec));
      if plan.None? then Part([], [BadAppend(now.name)])
      else Part(AppendSteps(now.name, LastOf(was.agents), plan.value), [])
  }

  function ShrinkWindow(was: Window, now: Window): Part {
    var removed := Keep(was.agents, now.agents, false);
    if removed == [] then NOTHING
    else if Keep(was.agents, now.agents, true) != now.agents then Part([], [BadRemoval(was.name)])
    else Part(KillSteps(was.name, removed), [])
  }

  function CloseWindow(was: Window): Part {
    if was.agents == [] then Part([], [BadRemoval(was.name)])
    else Part(KillSteps(was.name, was.agents) + [KillWindow(was.name)], [])
  }

  // ----- all windows -----------------------------------------------------------

  /** The parts of all windows, one after the other. */
  function Fold(ws: seq<Window>, f: Window -> Part): Part {
    if ws == [] then NOTHING else Join(Fold(ws[..|ws| - 1], f), f(ws[|ws| - 1]))
  }

  function Opening(was: seq<Window>, sidebar: bool): Window -> Part {
    (w: Window) => if Has(was, w.name) then NOTHING else Part(OpenSteps(w, sidebar), [])
  }

  function Growing(was: seq<Window>): Window -> Part {
    (w: Window) => if Has(was, w.name) then GrowWindow(Find(was, w.name).value, w) else NOTHING
  }

  function Shrinking(now: seq<Window>): Window -> Part {
    (w: Window) => if Has(now, w.name) then ShrinkWindow(w, Find(now, w.name).value) else CloseWindow(w)
  }

  function OpenPart(was: Config, now: Config): Part {
    Fold(now.windows, Opening(was.windows, now.sidebar.everyWindow))
  }

  function GrowPart(was: Config, now: Config): Part { Fold(now.windows, Growing(was.windows)) }

  function ShrinkPart(was: Config, now: Config): Part { Fold(was.windows, Shrinking(now.windows)) }

  lemma FoldSnoc(ws: seq<Window>, i: nat, f: Window -> Part)
    requires i < |ws|
    ensures Fold(ws[..i + 1], f) == Join(Fold(ws[..i], f), f(ws[i]))
  {
    assert ws[..i + 1][..i] == ws[..i];
  }

  lemma JoinNothing(p: Part)
    ensures Join(p, NOTHING) == p
  {
  }

  method OpenWindowSteps(w: Window, sidebar: bool) returns (steps: seq<Step>)
    ensures steps == OpenSteps(w, sidebar)
  {
    steps := [CreateWindow(w.name)];
    if sidebar {
      steps := steps + [CreateSidebar(w.name)];
    }
    ghost var head := steps;
    for j := 0 to |w.agents|
      invariant steps == head + PaneSteps(w.name, w.agents[..j])
    {
      assert w.agents[..j + 1][..j] == w.agents[..j];
      steps := steps + [CreateAgent(w.name, w.agents[j], None)];
    }
    assert w.agents[..|w.agents|] == w.agents;
  }

  method AdditiveWindowSteps(was: Config, now: Config) returns (steps: seq<Step>)
    ensures Part(steps, []) == OpenPart(was, now)
  {
    steps := [];
    ghost var f := Opening(was.windows, now.sidebar.everyWindow);
    for i := 0 to |now.windows|
      invariant Part(steps, []) == Fold(now.windows[..i], f)
    {
      var w := now.windows[i];
      FoldSnoc(now.windows, i, f);
      if Has(was.windows, w.name) {
        JoinNothing(Part(steps, []));
        continue;
      }
      var more := OpenWindowSteps(w, now.sidebar.everyWindow);
      steps := steps + more;
    }
    assert now.windows[..|now.windows|] == now.windows;
  }

  method AppendAgentSteps(window: string, agents: seq<string>, plan: seq<Append>) returns (steps: seq<Step>)
    ensures steps == AppendSteps(window, LastOf(agents), plan)
  {
    var anchor := LastOf(agents);
    steps := [];
    ghost var goal := AppendSteps(window, anchor, plan);
    assert plan[0..] == plan;
    for i := 0 to |plan|
      invariant goal == steps + AppendSteps(window, anchor, plan[i..])
    {
      assert plan[i..][1..] == plan[i + 1..];
      steps := steps + [CreateAgent(window, plan[i].agent, anchor)];
      anchor := Some(plan[i].agent);
    }
  }

  method AdditiveAgentSteps(was: Config, now: Config) returns (part: Part)
    ensures part == GrowPart(was, now)
  {
    part := NOTHING;
    ghost var f := Growing(was.windows);
    for i := 0 to |now.windows|
      invariant part == Fold(now.windows[..i], f)
    {
      var w := now.windows[i];
      FoldSnoc(now.windows, i, f);
      var found := Find(was.windows, w.name);
      if found.None? {
        JoinNothing(part);
        continue;
      }
      var result := StepsForWindow(found.value, w);
      part := Part(part.steps + result.steps, part.blocked + result.blocked);
    }
    assert now.windows[..|now.windows|] == now.windows;
  }

  /** The agents that steps create, in order. */
  function Created(steps: seq<Step>): seq<string> {
    if steps == [] then [] else (if steps[0].CreateAgent? then [steps[0].agent] else []) + Created(steps[1..])
  }

  lemma {:induction false} AppendStepsCreate(window: string, anchor: Option<string>, plan: seq<Append>)
    ensures Created(AppendSteps(window, anchor, plan)) == Agents(plan)
    ensures forall s :: s in AppendSteps(window, anchor, plan) ==> s.CreateAgent? && s.window == window
    decreases |plan|
  {
    if plan == [] {
      assert Agents(plan) == [];
    } else {
      var rest := AppendSteps(window, Some(plan[0].agent), plan[1..]);
      AppendStepsCreate(window, Some(plan[0].agent), plan[1..]);
      assert AppendSteps(window, anchor, plan)[1..] == rest;
      assert Agents(plan) == [plan[0].agent] + Agents(plan[1..]);
    }
  }

  /** Unblocked, the steps complete the old agents to the new ones, in order; blocked, there are none. */
  method StepsForWindow(was: Window, now: Window) returns (part: Part)
    ensures part == GrowWindow(was, now)
    ensures part.blocked == [] && |was.agents| <= |now.agents| ==> was.agents + Created(part.steps) == now.agents
    ensures part.blocked != [] || |now.agents| < |was.agents| ==> part.steps == []
    ensures forall s :: s in part.steps ==> s.CreateAgent? && s.window == now.name
  {
    if was.agents == now.agents || |now.agents| < |was.agents| { return NOTHING; }
    if now.agents[..|was.agents|] != was.agents { return Part([], [BadAppend(now.name)]); }
    var plan := WindowPlan(was.agents, now.agents, Parse(was.spec), Parse(now.spec));
    if plan.None? { return Part([], [BadAppend(now.name)]); }
    var steps := AppendAgentSteps(now.name, was.agents, plan.value);
    AppendStepsCreate(now.name, LastOf(was.agents), plan.value);
    return Part(steps, []);
  }

  method RemoveAgentSteps(was: Config, now: Config) returns (part: Part)
    ensures part == ShrinkPart(was, now)
  {
    part := NOTHING;
    ghost var f := Shrinking(now.windows);
    for i := 0 to |was.windows|
      invariant part == Fold(was.windows[..i], f)
    {
      var w := was.windows[i];
      FoldSnoc(was.windows, i, f);
      var after := Find(now.windows, w.name);
      var result := if after.None? then CloseWindow(w) else ShrinkWindow(w, after.value);
      part := Part(part.steps + result.steps, part.blocked + result.blocked);
    }
    assert was.windows[..|was.windows|] == was.windows;
  }

  // ----- the plan --------------------------------------------------------------

  predicate Supported(op: Op) {
    op.ViewOnlyChange? || op.AddAgent? || op.AddWindow? || op.RemoveAgent? || op.RemoveWindow?
  }

  predicate Mutating(op: Op) { op.AddAgent? || op.AddWindow? || op.RemoveAgent? }

  function UnsupportedOps(ops: seq<Op>): (r: seq<Blocked>)
    ensures r == [] <==> forall op :: op in ops ==> Supported(op)
  {
    if ops == [] then []
    else (if Supported(ops[0]) then [] else [UnsupportedOp(ops[0])]) + UnsupportedOps(ops[1..])
  }

  predicate Creates(steps: seq<Step>, agent: string) {
    exists s :: s in steps && s.CreateAgent? && s.agent == agent
  }

  predicate Kills(steps: seq<Step>, agent: string) {
    exists s :: s in steps && s.KillAgent? && s.agent == agent
  }

  /** Operations that no step carries out. */
  function UncoveredOps(ops: seq<Op>, steps: seq<Step>): (r: seq<Blocked>)
    ensures r == [] <==> forall op :: op in ops ==>
                           && (op.AddAgent? ==> Creates(steps, op.agent))
                           && (op.RemoveAgent? ==> Kills(steps, op.agent))
  {
    if ops == [] then []
    else
      var op := ops[0];
      (if op.AddAgent? && !Creates(steps, op.agent) then [UncoveredAdd(op.agent)]
       else if op.RemoveAgent? && !Kills(steps, op.agent) then [UncoveredRemoval(op.agent)]
       else [])
      + UncoveredOps(ops[1..], steps)
  }

  function ViewSteps(ops: seq<Op>): seq<Step> { if ViewOnlyChange in ops then [RefreshView] else [] }

  function AllSteps(was: Config, now: Config, ops: seq<Op>): seq<Step> {
    ViewSteps(ops) + OpenPart(was, now).steps + GrowPart(was, now).steps + ShrinkPart(was, now).steps
  }

  /** What stops the planner before it looks at any window. */
  function EarlyBlocked(ops: seq<Op>, scopeVerified: bool): seq<Blocked> {
    UnsupportedOps(ops)
    + (if (exists op :: op in ops && Mutating(op)) && !scopeVerified then [ScopeUnverified] else [])
  }

  function PatchPlan(was: Config, now: Config, ops: seq<Op>, scopeVerified: bool): Part {
    var early := EarlyBlocked(ops, scopeVerified);
    if early != [] then Part([], early)
    else
      var steps := AllSteps(was, now, ops);
      Part(steps, GrowPart(was, now).blocked + ShrinkPart(was, now).blocked + UncoveredOps(ops, steps))
  }
}

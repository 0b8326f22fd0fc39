/** The gate in front of reload apply (lib/ccbd/reload_apply_plan.py) and what it guarantees
    about every plan it lets through. */
module ReloadGate {
  import opened Wrappers
  import opened Layout
  import opened AppendLayout
  import opened ReloadOperations
  import opened NamespacePatch
  import opened PatchReplay
  import opened PatchBlocking

  datatype Plan = Plan(ok: bool, planClass: PlanClass, ops: seq<Op>, futureSafe: bool, patch: Part, scopeVerified: bool)

  datatype Reason =
    | PlanNotOk
    | UnsupportedPlanClass
    | UnsupportedOperations(classes: set<PlanClass>)
    | PlanNotFutureSafe
    | PatchNotPlanned
    | PatchBlocked
    | ScopeNotVerified

  /** The dry-run plan of two loaded configurations. */
  function PlanFor(was: Config, now: Config, ops: seq<Op>, scopeVerified: bool): Plan {
    var c := SelectClass(ops);
    Plan(true, c, ops, FutureSafe(c, ops), PatchPlan(was, now, ops, scopeVerified), scopeVerified)
  }

  predicate AllowedClass(c: PlanClass) { c.ViewOnly? || c.AddsAgent? || c.AddsWindow? || c.RemovesAgent? }

  predicate AllowedOp(op: Op) {
    op.ViewOnlyChange? || op.AddAgent? || op.AddWindow? || op.RemoveAgent? || IsLayoutChange(op)
  }

  function RejectedClasses(ops: seq<Op>): set<PlanClass> {
    set op | op in ops && !AllowedOp(op) :: ClassOf(op)
  }

  method UnsupportedOpClasses(ops: seq<Op>) returns (r: set<PlanClass>)
    ensures r == RejectedClasses(ops)
  {
    r := {};
    for i := 0 to |ops|
      invariant r == RejectedClasses(ops[..i])
    {
      assert ops[..i + 1] == ops[..i] + [ops[i]];
      if !AllowedOp(ops[i]) {
        r := r + {ClassOf(ops[i])};
      }
    }
    assert ops[..|ops|] == ops;
  }

  function PatchBlocker(plan: Plan): Option<Reason> {
    if plan.patch.blocked != [] || plan.patch.steps == [] then Some(PatchNotPlanned)
    else if plan.patch.blocked != [] then Some(PatchBlocked)
    else if !plan.scopeVerified then Some(ScopeNotVerified)
    else None
  }

  function PlanBlocker(plan: Plan): Option<Reason> {
    if !plan.ok then Some(PlanNotOk)
    else if !AllowedClass(plan.planClass) then Some(UnsupportedPlanClass)
    else if RejectedClasses(plan.ops) != {} then Some(UnsupportedOperations(RejectedClasses(plan.ops)))
    else if !plan.futureSafe then Some(PlanNotFutureSafe)
    else if plan.planClass.ViewOnly? then None
    else PatchBlocker(plan)
  }

  // ----- where steps come from -----------------------------------------------------

  lemma {:induction false} FoldOrigin(ws: seq<Window>, f: Window -> Part, s: Step) returns (w: Window)
    requires s in Fold(ws, f).steps
    ensures w in ws && s in f(w).steps
  {
    var init, last := ws[..|ws| - 1], ws[|ws| - 1];
    if s in f(last).steps {
      w := last;
    } else {
      w := FoldOrigin(init, f, s);
    }
  }

  lemma {:induction false} PaneOrigin(w: string, agents: seq<string>, s: Step)
    requires s in PaneSteps(w, agents)
    ensures s.CreateAgent? && s.window == w && s.agent in agents
  {
    if s in PaneSteps(w, agents[..|agents| - 1]) {
      PaneOrigin(w, agents[..|agents| - 1], s);
    }
  }

  lemma {:induction false} AppendOrigin(w: string, anchor: Option<string>, plan: seq<Append>, s: Step)
    requires s in AppendSteps(w, anchor, plan)
    ensures s.CreateAgent? && s.window == w && s.agent in Agents(plan)
    decreases |plan|
  {
    if s in AppendSteps(w, Some(plan[0].agent), plan[1..]) {
      AppendOrigin(w, Some(plan[0].agent), plan[1..], s);
      assert Agents(plan) == [plan[0].agent] + Agents(plan[1..]);
    } else {
      assert Agents(plan)[0] == plan[0].agent;
    }
  }

  lemma {:induction false} KillOrigin(w: string, agents: seq<string>, s: Step)
    requires s in KillSteps(w, agents)
    ensures s.KillAgent? && s.window == w && s.agent in agents
  {
    if s in KillSteps(w, agents[1..]) {
      KillOrigin(w, agents[1..], s);
    }
  }

  /** The agent `a` is in window `w` of `c` but not in window `w` of `d`. */
  ghost predicate OnlyThere(c: Config, d: Config, w: string, a: string) {
    && Has(c.windows, w) && a in Find(c.windows, w).value.agents
    && (Has(d.windows, w) ==> a !in Find(d.windows, w).value.agents)
  }

  /** A step adds something that only the new configuration has at that place. */
  ghost predicate Adds(s: Step, was: Config, now: Config) {
    match s
    case CreateWindow(w) => Has(now.windows, w) && !Has(was.windows, w)
    case CreateSidebar(w) => Has(now.windows, w) && !Has(was.windows, w)
    case CreateAgent(w, a, _) => OnlyThere(now, was, w, a)
    case _ => false
  }

  /** A step removes something that only the old configuration has at that place. */
  ghost predicate Removes(s: Step, was: Config, now: Config) {
    match s
    case KillWindow(w) => Has(was.windows, w) && !Has(now.windows, w)
    case KillAgent(w, a) => OnlyThere(was, now, w, a)
    case _ => false
  }

  lemma OpenPartAdds(was: Config, now: Config, s: Step)
    requires WellFormed(now) && s in OpenPart(was, now).steps
    ensures Adds(s, was, now)
  {
    var w := FoldOrigin(now.windows, Opening(was.windows, now.sidebar.everyWindow), s);
    FindUnique(now, w);
    if s in PaneSteps(w.name, w.agents) {
      PaneOrigin(w.name, w.agents, s);
    }
  }

  lemma SuffixIsNew(a: seq<string>, b: seq<string>, x: string)
    requires Distinct(a + b) && x in b
    ensures x in a + b && x !in a
  {
    var i :| 0 <= i < |b| && b[i] == x;
    assert (a + b)[|a| + i] == x;
    assert forall j :: 0 <= j < |a| ==> (a + b)[j] == a[j];
  }

  lemma GrowWindowAdds(was: Window, now: Window, s: Step)
    requires Distinct(now.agents) && s in GrowWindow(was, now).steps
    ensures s.CreateAgent? && s.window == now.name && s.agent in now.agents && s.agent !in was.agents
  {
    var plan := WindowPlan(was.agents, now.agents, Parse(was.spec), Parse(now.spec)).value;
    AppendOrigin(now.name, LastOf(was.agents), plan, s);
    SuffixIsNew(was.agents, Agents(plan), s.agent);
  }

  lemma GrowPartAdds(was: Config, now: Config, s: Step)
    requires WellFormed(now) && s in GrowPart(was, now).steps
    ensures Adds(s, was, now)
  {
    var w := FoldOrigin(now.windows, Growing(was.windows), s);
    FindUnique(now, w);
    GrowWindowAdds(Find(was.windows, w.name).value, w, s);
  }

  lemma ShrinkPartRemoves(was: Config, now: Config, s: Step)
    requires WellFormed(was) && s in ShrinkPart(was, now).steps
    ensures Removes(s, was, now)
  {
    var w := FoldOrigin(was.windows, Shrinking(now.windows), s);
    FindUnique(was, w);
    if Has(now.windows, w.name) {
      KillOrigin(w.name, Keep(w.agents, Find(now.windows, w.name).value.agents, false), s);
    } else if s in KillSteps(w.name, w.agents) {
      KillOrigin(w.name, w.agents, s);
    }
  }

  lemma StepOrigin(was: Config, now: Config, ops: seq<Op>, s: Step)
    requires WellFormed(was) && WellFormed(now) && s in AllSteps(was, now, ops)
    ensures s.RefreshView? || Adds(s, was, now) || Removes(s, was, now)
    ensures s.RefreshView? ==> ViewOnlyChange in ops
  {
    if s in ShrinkPart(was, now).steps {
      ShrinkPartRemoves(was, now, s);
    } else if s in GrowPart(was, now).steps {
      GrowPartAdds(was, now, s);
    } else if s in OpenPart(was, now).steps {
      OpenPartAdds(was, now, s);
    }
  }

  // ----- what a list of operations says about the configurations --------------------

  /** No agent changes its window. */
  ghost predicate NoMoves(was: Config, now: Config) {
    forall a :: a in was.agents && a in now.agents ==> HomeOf(was.windows, a) == HomeOf(now.windows, a)
  }

  /** Everything in `c` is still in `d`. */
  ghost predicate Contained(c: Config, d: Config) {
    && (forall a :: a in c.agents ==> a in d.agents)
    && (forall w :: Has(c.windows, w) ==> Has(d.windows, w))
  }

  lemma NoMoveOps(ops: seq<Op>, was: Config, now: Config)
    requires IsDiff(ops, was, now) && forall op :: op in ops ==> !op.MoveAgent?
    ensures NoMoves(was, now)
  {
    forall a | a in was.agents && a in now.agents ensures HomeOf(was.windows, a) == HomeOf(now.windows, a) {
      assert !Describes(MoveAgent(a, HomeOf(was.windows, a), HomeOf(now.windows, a)), was, now);
    }
  }

  lemma NoRemovalOps(ops: seq<Op>, was: Config, now: Config)
    requires IsDiff(ops, was, now) && forall op :: op in ops ==> !op.RemoveAgent? && !op.RemoveWindow?
    ensures Contained(was, now)
  {
    forall a | a in was.agents ensures a in now.agents {
      assert !Describes(RemoveAgent(a, HomeOf(was.windows, a)), was, now);
    }
    forall w | Has(was.windows, w) ensures Has(now.windows, w) {
      assert !Describes(RemoveWindow(w), was, now);
    }
  }

  lemma NoAdditionOps(ops: seq<Op>, was: Config, now: Config)
    requires IsDiff(ops, was, now) && forall op :: op in ops ==> !op.AddAgent? && !op.AddWindow?
    ensures Contained(now, was)
  {
    forall a | a in now.agents ensures a in was.agents {
      assert !Describes(AddAgent(a, HomeOf(now.windows, a)), was, now);
    }
    forall w | Has(now.windows, w) ensures Has(was.windows, w) {
      assert !Describes(AddWindow(w, Find(now.windows, w).value.agents), was, now);
    }
  }

  lemma HomeMember(c: Config, a: string, w: string)
    requires WellFormed(c) && HomeOf(c.windows, a) == Some(w)
    ensures Has(c.windows, w) && a in Find(c.windows, w).value.agents
  {
    var v :| v in c.windows && a in v.agents && v.name == w;
    FindUnique(c, v);
  }

  /** Without moves, an agent that only `c` has in some window is not in `d` at all. */
  lemma OnlyThereMeansOnly(c: Config, d: Config, w: string, a: string)
    requires WellFormed(c) && WellFormed(d) && (NoMoves(c, d) || NoMoves(d, c)) && OnlyThere(c, d, w, a)
    ensures a in c.agents && a !in d.agents
  {
    var v := Find(c.windows, w).value;
    HomeUnique(c, v, a);
    if a in d.agents {
      HomeMember(d, a, w);
      assert false;
    }
  }

  // ----- the main result --------------------------------------------------------------

  predicate Additive(steps: seq<Step>) {
    forall s :: s in steps ==> s.RefreshView? || s.CreateWindow? || s.CreateSidebar? || s.CreateAgent?
  }

  predicate Removing(steps: seq<Step>) {
    forall s :: s in steps ==> s.KillAgent? || s.KillWindow?
  }

  lemma SameWindowsNoParts(was: Config, now: Config)
    requires WellFormed(was) && was.windows == now.windows
    ensures OpenPart(was, now) == GrowPart(was, now) == ShrinkPart(was, now) == NOTHING
  {
    forall w | w in was.windows
      ensures Opening(was.windows, now.sidebar.everyWindow)(w) == NOTHING
      ensures Growing(was.windows)(w) == NOTHING
      ensures Shrinking(was.windows)(w) == NOTHING
    {
      FindUnique(was, w);
      NothingDropped(w.agents, w.agents);
    }
    EmptyFold(was.windows, Opening(was.windows, now.sidebar.everyWindow));
    EmptyFold(was.windows, Growing(was.windows));
    EmptyFold(was.windows, Shrinking(was.windows));
  }

  lemma ViewOnlyPatch(was: Config, now: Config, scopeVerified: bool)
    requires WellFormed(was) && SameIdentity(was, now)
    ensures PatchPlan(was, now, [ViewOnlyChange], scopeVerified) == Part([RefreshView], [])
  {
    ViewOnlyOps(scopeVerified);
    assert AllSteps(was, now, [ViewOnlyChange]) == [RefreshView] by { SameWindowsNoParts(was, now); }
    assert GrowPart(was, now).blocked + ShrinkPart(was, now).blocked == [] by { SameWindowsNoParts(was, now); }
  }

  lemma ViewOnlyOps(scopeVerified: bool)
    ensures EarlyBlocked([ViewOnlyChange], scopeVerified) == [] && UncoveredOps([ViewOnlyChange], [RefreshView]) == []
  {
  }

  /** Creates exactly the agents that are new and kills exactly those that are gone. */
  ghost predicate Exact(steps: seq<Step>, was: Config, now: Config) {
    && (forall a :: Creates(steps, a) <==> a in now.agents && a !in was.agents)
    && (forall a :: Kills(steps, a) <==> a in was.agents && a !in now.agents)
  }

  /** The gate lets through only plans whose operations all add or all remove. */
  lemma AcceptedOps(ops: seq<Op>)
    requires AllowedClass(SelectClass(ops)) && FutureSafe(SelectClass(ops), ops)
    ensures (forall op :: op in ops ==> op.AddAgent? || op.AddWindow? || op.ViewOnlyChange?)
         || (forall op :: op in ops ==> op.RemoveAgent? || op.RemoveWindow?)
  {
    var c := SelectClass(ops);
    if !c.RemovesAgent? {
      forall op | op in ops ensures op.AddAgent? || op.AddWindow? || op.ViewOnlyChange? {
        assert Priority(ClassOf(op)) <= Priority(c) <= 50;
      }
    }
  }

  /** The steps of a difference that only adds or only removes. */
  lemma PureSteps(was: Config, now: Config, ops: seq<Op>)
    requires WellFormed(was) && WellFormed(now) && ViewOnlyChange !in ops
    requires NoMoves(was, now) && (Contained(was, now) || Contained(now, was))
    ensures Additive(AllSteps(was, now, ops)) || Removing(AllSteps(was, now, ops))
    ensures forall s :: s in AllSteps(was, now, ops) && s.CreateAgent? ==> s.agent in now.agents && s.agent !in was.agents
    ensures forall s :: s in AllSteps(was, now, ops) && s.KillAgent? ==> s.agent in was.agents && s.agent !in now.agents
  {
    forall s | s in AllSteps(was, now, ops)
      ensures Contained(was, now) ==> !s.KillAgent? && !s.KillWindow? && !s.RefreshView?
      ensures Contained(now, was) ==> s.KillAgent? || s.KillWindow?
      ensures s.CreateAgent? ==> s.agent in now.agents && s.agent !in was.agents
      ensures s.KillAgent? ==> s.agent in was.agents && s.agent !in now.agents
    {
      StepOrigin(was, now, ops, s);
      if s.CreateAgent? {
        OnlyThereMeansOnly(now, was, s.window, s.agent);
      } else if s.KillAgent? {
        OnlyThereMeansOnly(was, now, s.window, s.agent);
      }
    }
  }

  lemma PureStepsAreExact(was: Config, now: Config, ops: seq<Op>, steps: seq<Step>)
    requires IsDiff(ops, was, now) && UncoveredOps(ops, steps) == []
    requires forall s :: s in steps && s.CreateAgent? ==> s.agent in now.agents && s.agent !in was.agents
    requires forall s :: s in steps && s.KillAgent? ==> s.agent in was.agents && s.agent !in now.agents
    ensures Exact(steps, was, now)
  {
    forall a | a in now.agents && a !in was.agents ensures Creates(steps, a) {
      assert Describes(AddAgent(a, HomeOf(now.windows, a)), was, now);
    }
    forall a | a in was.agents && a !in now.agents ensures Kills(steps, a) {
      assert Describes(RemoveAgent(a, HomeOf(was.windows, a)), was, now);
    }
  }

  lemma AcceptedFacts(was: Config, now: Config, ops: seq<Op>)
    requires IsDiff(ops, was, now)
    requires AllowedClass(SelectClass(ops)) && FutureSafe(SelectClass(ops), ops)
    ensures NoMoves(was, now) && (Contained(was, now) || Contained(now, was)) && ViewOnlyChange !in ops
  {
    AcceptedOps(ops);
    NoMoveOps(ops, was, now);
    if forall op :: op in ops ==> op.RemoveAgent? || op.RemoveWindow? {
      NoAdditionOps(ops, was, now);
    } else {
      NoRemovalOps(ops, was, now);
    }
    assert !Describes(ViewOnlyChange, was, now);
  }

  lemma AcceptedIsDiff(was: Config, now: Config, ops: seq<Op>)
    requires IsDryRun(ops, was, now) && AllowedClass(SelectClass(ops)) && FutureSafe(SelectClass(ops), ops)
    ensures if SameIdentity(was, now) then ops == [ViewOnlyChange] else IsDiff(ops, was, now)
  {
    AcceptedOps(ops);
    if !SameIdentity(was, now) {
      var diff :| IsDiff(diff, was, now) && ops == if diff == [] then [UnclassifiedChange] else diff;
      assert UnclassifiedChange !in ops;
    }
  }

  /** What the gate has checked when it accepts a plan. */
  lemma AcceptedPatch(was: Config, now: Config, ops: seq<Op>, scopeVerified: bool)
    requires PlanBlocker(PlanFor(was, now, ops, scopeVerified)) == None
    ensures AllowedClass(SelectClass(ops)) && FutureSafe(SelectClass(ops), ops)
    ensures !SelectClass(ops).ViewOnly? ==>
              var patch := PatchPlan(was, now, ops, scopeVerified);
              && patch.blocked == [] && patch.steps != []
              && patch.steps == AllSteps(was, now, ops) && UncoveredOps(ops, patch.steps) == []
  {
  }

  /** The promise about an accepted plan. */
  ghost predicate Pure(steps: seq<Step>, was: Config, now: Config) {
    Exact(steps, was, now) && steps != [] && (Additive(steps) || Removing(steps))
  }

  lemma AcceptedDiffIsPure(was: Config, now: Config, ops: seq<Op>, steps: seq<Step>)
    requires WellFormed(was) && WellFormed(now) && IsDiff(ops, was, now)
    requires NoMoves(was, now) && (Contained(was, now) || Contained(now, was)) && ViewOnlyChange !in ops
    requires steps == AllSteps(was, now, ops) && steps != [] && UncoveredOps(ops, steps) == []
    ensures Pure(steps, was, now)
  {
    PureSteps(was, now, ops);
    PureStepsAreExact(was, now, ops, steps);
  }

  /** A plan that the gate accepts creates exactly the agents that are new and kills exactly those
      that are gone, so no agent present in both configurations is touched; it either only adds or
      only removes; and replaying it gives the panes of the new configuration. */
  lemma AcceptedPlanIsPure(was: Config, now: Config, ops: seq<Op>, scopeVerified: bool)
    requires WellFormed(was) && WellFormed(now) && IsDryRun(ops, was, now)
    requires PlanBlocker(PlanFor(was, now, ops, scopeVerified)) == None
    ensures Pure(PatchPlan(was, now, ops, scopeVerified).steps, was, now)
    ensures Replay(Wanted(was), PatchPlan(was, now, ops, scopeVerified).steps) == Some(Wanted(now))
  {
    AcceptedPatch(was, now, ops, scopeVerified);
    AcceptedIsDiff(was, now, ops);
    var patch := PatchPlan(was, now, ops, scopeVerified);
    assert patch.blocked == [] && Pure(patch.steps, was, now) by {
      if SameIdentity(was, now) {
        ViewOnlyPatch(was, now, scopeVerified);
        RefreshIsPure(was, now);
      } else {
        AcceptedFacts(was, now, ops);
        ViewClassNeedsViewOp(ops);
        AcceptedDiffIsPure(was, now, ops, patch.steps);
      }
    }
    UnblockedPlanReplays(was, now, ops, scopeVerified);
  }

  lemma ViewClassNeedsViewOp(ops: seq<Op>)
    requires ViewOnlyChange !in ops
    ensures !SelectClass(ops).ViewOnly?
  {
  }

  lemma RefreshIsPure(was: Config, now: Config)
    requires SameIdentity(was, now)
    ensures Pure([RefreshView], was, now)
  {
  }

  // ----- when a plan is accepted --------------------------------------------------------------------

  lemma OnlyAddsAccepted(ops: seq<Op>)
    requires ops != [] && forall op :: op in ops ==> op.AddAgent? || op.AddWindow?
    ensures AllowedClass(SelectClass(ops)) && FutureSafe(SelectClass(ops), ops) && RejectedClasses(ops) == {}
    ensures !SelectClass(ops).ViewOnly?
  {
  }

  lemma OnlyRemovesAccepted(ops: seq<Op>)
    requires (forall op :: op in ops ==> op.RemoveAgent? || op.RemoveWindow?) && exists op :: op in ops && op.RemoveAgent?
    ensures AllowedClass(SelectClass(ops)) && FutureSafe(SelectClass(ops), ops) && RejectedClasses(ops) == {}
    ensures !SelectClass(ops).ViewOnly?
  {
    var r :| r in ops && r.RemoveAgent?;
    assert Priority(ClassOf(r)) == 80;
    assert SelectClass(ops).RemovesAgent?;
  }

  /** No agent of `was` is gone: only additions are listed. */
  lemma KeptAgentsOnlyAdd(was: Config, now: Config, op: Op)
    requires WellFormed(was) && WellFormed(now) && RestStays(was, now) && Describes(op, was, now)
    requires was.agents.Keys <= now.agents.Keys
    ensures op.AddAgent? || op.AddWindow?
  {
    StayingIsSupported(was, now, op);
    if op.RemoveWindow? {
      KeptWindow(was, now, Find(was.windows, op.window).value);
    }
  }

  lemma NoNewAgentsOnlyRemove(was: Config, now: Config, op: Op)
    requires WellFormed(was) && WellFormed(now) && RestStays(was, now) && Describes(op, was, now)
    requires now.agents.Keys <= was.agents.Keys
    ensures op.RemoveAgent? || op.RemoveWindow?
  {
    StayingIsSupported(was, now, op);
    if op.AddWindow? {
      KeptWindow(now, was, Find(now.windows, op.window).value);
    }
  }

  lemma KeptWindow(c: Config, d: Config, w: Window)
    requires WellFormed(c) && WellFormed(d) && w in c.windows && c.agents.Keys <= d.agents.Keys
    requires forall a :: a in c.agents && a in d.agents ==> HomeOf(c.windows, a) == HomeOf(d.windows, a)
    ensures Has(d.windows, w.name)
  {
    var x := w.agents[0];
    assert x in w.agents && x in c.agents && x in c.agents.Keys && x in d.agents;
    HomeUnique(c, w, x);
    HomeMember(d, x, w.name);
  }

  /** Agents only come or only go. */
  predicate OneWay(was: Config, now: Config) {
    was.agents.Keys <= now.agents.Keys || now.agents.Keys <= was.agents.Keys
  }

  lemma AcceptedIsOneWay(was: Config, now: Config, ops: seq<Op>)
    requires IsDiff(ops, was, now) && AllowedClass(SelectClass(ops)) && FutureSafe(SelectClass(ops), ops)
    ensures OneWay(was, now)
  {
    AcceptedOps(ops);
    if forall op :: op in ops ==> op.RemoveAgent? || op.RemoveWindow? {
      NoAdditionOps(ops, was, now);
    } else {
      NoRemovalOps(ops, was, now);
    }
  }

  lemma OneWayIsAccepted(was: Config, now: Config, ops: seq<Op>)
    requires WellFormed(was) && WellFormed(now) && IsDiff(ops, was, now) && ops != [] && RestStays(was, now) && OneWay(was, now)
    ensures AllowedClass(SelectClass(ops)) && FutureSafe(SelectClass(ops), ops) && RejectedClasses(ops) == {}
    ensures !SelectClass(ops).ViewOnly?
  {
    if was.agents.Keys <= now.agents.Keys {
      forall op | op in ops ensures op.AddAgent? || op.AddWindow? {
        KeptAgentsOnlyAdd(was, now, op);
      }
      OnlyAddsAccepted(ops);
    } else {
      forall op | op in ops ensures op.RemoveAgent? || op.RemoveWindow? {
        NoNewAgentsOnlyRemove(was, now, op);
      }
      ListedIff(was, now, ops);
      OnlyRemovesAccepted(ops);
    }
  }

  /** A change of more than the view, with its list of differences. */
  lemma ChangeAcceptedIff(was: Config, now: Config, ops: seq<Op>, scopeVerified: bool)
    requires WellFormed(was) && WellFormed(now) && IsDryRun(ops, was, now) && !SameIdentity(was, now)
    ensures PlanBlocker(PlanFor(was, now, ops, scopeVerified)) == None
       <==> CanReload(was, now, scopeVerified) && OneWay(was, now)
  {
    PlanBlocksIff(was, now, ops, scopeVerified);
    CanReloadIff(was, now, scopeVerified);
    if PlanBlocker(PlanFor(was, now, ops, scopeVerified)) == None {
      AcceptedPatch(was, now, ops, scopeVerified);
      AcceptedIsDiff(was, now, ops);
      ViewClassNeedsViewOp(ops) by { assert !Describes(ViewOnlyChange, was, now); }
      AcceptedIsOneWay(was, now, ops);
    }
    if CanReload(was, now, scopeVerified) && OneWay(was, now) {
      PlanIsEmptyIff(was, now, ops, scopeVerified);
      var diff :| IsDiff(diff, was, now) && ops == if diff == [] then [UnclassifiedChange] else diff;
      ListedIff(was, now, diff);
      OneWayIsAccepted(was, now, ops);
    }
  }

  /** The gate accepts a dry run if and only if only the view changed, or the reload can be carried out in place
      and agents only come or only go. */
  lemma AcceptedIff(was: Config, now: Config, ops: seq<Op>, scopeVerified: bool)
    requires WellFormed(was) && WellFormed(now) && IsDryRun(ops, was, now)
    ensures PlanBlocker(PlanFor(was, now, ops, scopeVerified)) == None
       <==> if SameIdentity(was, now) then was != now else CanReload(was, now, scopeVerified) && OneWay(was, now)
  {
    if SameIdentity(was, now) {
      if was != now {
        ViewOnlyAccepted(ops);
      }
    } else {
      ChangeAcceptedIff(was, now, ops, scopeVerified);
    }
  }

  lemma ViewOnlyAccepted(ops: seq<Op>)
    requires ops == [ViewOnlyChange]
    ensures SelectClass(ops).ViewOnly? && FutureSafe(SelectClass(ops), ops) && RejectedClasses(ops) == {}
  {
    assert ViewOnlyChange in ops;
  }
}

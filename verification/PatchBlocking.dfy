/** Which differences between two configurations the patch planner blocks, said in terms of the
    configurations alone. */
module PatchBlocking {
  import opened Wrappers
  import opened Layout
  import opened AppendLayout
  import opened ReloadOperations
  import opened NamespacePatch
  import opened PatchReplay

  // ----- what can be reloaded in place -----------------------------------------------------

  /** `b` is `a` with some elements left out. */
  predicate Thinned(a: seq<string>, b: seq<string>) {
    b == [] || (a != [] && ((a[0] == b[0] && Thinned(a[1..], b[1..])) || Thinned(a[1..], b)))
  }

  ghost predicate SameAgents(a: Window, b: Window) { forall x :: x in a.agents <==> x in b.agents }

  /** The new agents go on where the old ones end, and so do the layouts, in a way the append planner knows. */
  ghost predicate GrowsInPlace(a: Window, b: Window) {
    && a.agents <= b.agents && Parse(a.spec).Some? && Parse(b.spec).Some?
    && var was, now := Parse(a.spec).value, Parse(b.spec).value;
       && (GrowsTo(was, now) || ContinuesFlat(was, now))
       && Names(Leaves(now)) == Names(Leaves(was)) + b.agents[|a.agents|..]
  }

  /** A window in both configurations: unchanged, or with agents added at its end, or with agents left out. */
  ghost predicate WindowFits(a: Window, b: Window) {
    if SameAgents(a, b) then a == b
    else if |a.agents| < |b.agents| then GrowsInPlace(a, b)
    else Thinned(a.agents, b.agents)
  }

  /** Agents in both configurations keep their records and their windows. */
  ghost predicate AgentsStay(was: Config, now: Config) {
    forall a :: a in was.agents && a in now.agents ==>
      was.agents[a] == now.agents[a] && HomeOf(was.windows, a) == HomeOf(now.windows, a)
  }

  ghost predicate AllFit(was: Config, now: Config) {
    forall a, b :: a in was.windows && b in now.windows && a.name == b.name ==> WindowFits(a, b)
  }

  /** The two configurations differ at most in their view; or the namespace is known to be the project's own,
      agents come or go, and all else stays: entry, sidebar, the records and windows of the agents in both, and
      the windows in both but for agents at their end or left out. */
  ghost predicate CanReload(was: Config, now: Config, scopeVerified: bool) {
    || SameIdentity(was, now)
    || (&& scopeVerified && was.agents.Keys != now.agents.Keys
        && was.entry == now.entry && was.sidebar == now.sidebar && AgentsStay(was, now) && AllFit(was, now))
  }

  // ----- one window ----------------------------------------------------------------------------

  lemma {:induction false} ThinnedMembers(a: seq<string>, b: seq<string>)
    requires Thinned(a, b)
    ensures |b| <= |a| && (|a| == |b| ==> a == b) && forall x :: x in b ==> x in a
  {
    if b != [] {
      if a[0] == b[0] && Thinned(a[1..], b[1..]) {
        ThinnedMembers(a[1..], b[1..]);
        assert a == [a[0]] + a[1..] && b == [b[0]] + b[1..];
      } else {
        ThinnedMembers(a[1..], b);
      }
    }
  }

  lemma {:induction false} KeepIsThinned(a: seq<string>, others: seq<string>)
    ensures Thinned(a, Keep(a, others, true))
  {
    if a != [] {
      KeepIsThinned(a[1..], others);
      var rest := Keep(a[1..], others, true);
      if a[0] in others {
        assert Keep(a, others, true)[1..] == rest;
      } else {
        assert Keep(a, others, true) == rest;
      }
    }
  }

  /** What is kept does not depend on others that do not occur. */
  lemma {:induction false} KeepWithout(a: seq<string>, x: string, others: seq<string>)
    requires x !in a
    ensures Keep(a, [x] + others, true) == Keep(a, others, true)
  {
    if a != [] {
      KeepWithout(a[1..], x, others);
    }
  }

  lemma {:induction false} ThinnedIsKept(a: seq<string>, b: seq<string>)
    requires Distinct(a) && Thinned(a, b)
    ensures Keep(a, b, true) == b
  {
    if a != [] {
      var rest := a[1..];
      assert a[0] !in rest;
      if b != [] && a[0] == b[0] && Thinned(rest, b[1..]) {
        ThinnedIsKept(rest, b[1..]);
        assert b == [b[0]] + b[1..];
        KeepWithout(rest, b[0], b[1..]);
      } else {
        assert Thinned(rest, b);
        ThinnedMembers(rest, b);
        ThinnedIsKept(rest, b);
      }
    } else {
      assert b == [];
    }
  }

  lemma KeptIffThinned(a: seq<string>, b: seq<string>)
    requires Distinct(a)
    ensures Keep(a, b, true) == b <==> Thinned(a, b)
  {
    KeepIsThinned(a, b);
    if Thinned(a, b) {
      ThinnedIsKept(a, b);
    }
  }

  lemma GrowUnblockedIff(a: Window, b: Window)
    requires |a.agents| < |b.agents|
    ensures GrowWindow(a, b).blocked == [] <==> GrowsInPlace(a, b)
  {
    var was, now := Parse(a.spec), Parse(b.spec);
    assert a.agents <= b.agents <==> b.agents[..|a.agents|] == a.agents;
    if a.agents <= b.agents && was.Some? && now.Some? {
      var rest := b.agents[|a.agents|..];
      assert b.agents == a.agents + rest;
      PlanExistsIff(was.value, now.value);
      if AppendPlan(was, now).Some? {
        PlanAppendsLeaves(was.value, now.value);
        var p := AppendPlan(was, now).value;
        if a.agents + Agents(p) == b.agents {
          SameTail(a.agents, Agents(p), rest);
        }
        if Names(Leaves(now.value)) == Names(Leaves(was.value)) + rest {
          SameTail(Names(Leaves(was.value)), Agents(p), rest);
        }
      }
    }
  }

  /** When the steps of a window in both configurations are not blocked. */
  ghost predicate Passes(a: Window, b: Window) { GrowWindow(a, b).blocked == [] && ShrinkWindow(a, b).blocked == [] }

  lemma PassesIff(a: Window, b: Window)
    requires Distinct(a.agents) && Distinct(b.agents)
    ensures Passes(a, b) <==> || a.agents == b.agents
                              || (|a.agents| < |b.agents| && GrowsInPlace(a, b))
                              || (|b.agents| < |a.agents| && Thinned(a.agents, b.agents))
  {
    if a.agents == b.agents {
      NothingDropped(a.agents, b.agents);
    } else if |b.agents| < |a.agents| {
      KeptIffThinned(a.agents, b.agents);
      assert Keep(a.agents, b.agents, false) != [] by {
        if Keep(a.agents, b.agents, false) == [] {
          Pigeonhole(a.agents, b.agents);
        }
      }
    } else if |a.agents| < |b.agents| {
      GrowUnblockedIff(a, b);
      if a.agents <= b.agents {
        NothingDropped(a.agents, b.agents);
      }
    } else {
      assert b.agents[..|a.agents|] == b.agents;
    }
  }

  lemma FitsIff(a: Window, b: Window)
    requires Distinct(a.agents) && Distinct(b.agents)
    ensures WindowFits(a, b) <==> (SameAgents(a, b) ==> a == b) && Passes(a, b)
  {
    PassesIff(a, b);
    if Thinned(a.agents, b.agents) {
      ThinnedMembers(a.agents, b.agents);
    }
  }

  // ----- all windows ------------------------------------------------------------------------------

  lemma {:induction false} FoldUnblockedIff(ws: seq<Window>, f: Window -> Part)
    ensures Fold(ws, f).blocked == [] <==> forall w :: w in ws ==> f(w).blocked == []
  {
    if ws != [] {
      var init, last := ws[..|ws| - 1], ws[|ws| - 1];
      FoldUnblockedIff(init, f);
      assert last in ws && forall w :: w in ws <==> w in init || w == last;
    }
  }

  lemma {:induction false} FoldHas(ws: seq<Window>, f: Window -> Part, w: Window, s: Step)
    requires w in ws && s in f(w).steps
    ensures s in Fold(ws, f).steps
  {
    if w != ws[|ws| - 1] {
      FoldHas(ws[..|ws| - 1], f, w, s);
    }
  }

  ghost predicate AllGrow(was: Config, now: Config) {
    forall a, b :: a in was.windows && b in now.windows && a.name == b.name ==> GrowWindow(a, b).blocked == []
  }

  ghost predicate AllShrink(was: Config, now: Config) {
    forall a, b :: a in was.windows && b in now.windows && a.name == b.name ==> ShrinkWindow(a, b).blocked == []
  }

  lemma GrowingPasses(was: Config, now: Config)
    requires WellFormed(was) && WellFormed(now)
    ensures GrowPart(was, now).blocked == [] <==> AllGrow(was, now)
  {
    FoldUnblockedIff(now.windows, Growing(was.windows));
    forall a, b | a in was.windows && b in now.windows && a.name == b.name
      ensures Growing(was.windows)(b) == GrowWindow(a, b)
    {
      FindUnique(was, a);
    }
  }

  lemma ShrinkingPasses(was: Config, now: Config)
    requires WellFormed(was) && WellFormed(now)
    ensures ShrinkPart(was, now).blocked == [] <==> AllShrink(was, now)
  {
    FoldUnblockedIff(was.windows, Shrinking(now.windows));
    forall a, b | a in was.windows && b in now.windows && a.name == b.name
      ensures Shrinking(now.windows)(a) == ShrinkWindow(a, b)
    {
      FindUnique(now, b);
    }
    forall a | a in was.windows && !Has(now.windows, a.name) ensures Shrinking(now.windows)(a).blocked == [] {
    }
  }

  /** Every window in both configurations passes. */
  ghost predicate AllPass(was: Config, now: Config) { AllGrow(was, now) && AllShrink(was, now) }

  lemma WindowPasses(was: Config, now: Config, a: Window, b: Window)
    requires AllPass(was, now) && a in was.windows && b in now.windows && a.name == b.name
    ensures Passes(a, b)
  {
  }

  lemma PartsPassIff(was: Config, now: Config)
    requires WellFormed(was) && WellFormed(now)
    ensures GrowPart(was, now).blocked == [] && ShrinkPart(was, now).blocked == [] <==> AllPass(was, now)
  {
    GrowingPasses(was, now);
    ShrinkingPasses(was, now);
  }

  /** The window of an agent. */
  lemma WindowOf(c: Config, x: string) returns (w: Window)
    requires WellFormed(c) && x in c.agents
    ensures w in c.windows && x in w.agents
  {
    w :| w in c.windows && x in w.agents;
  }

  lemma NotInWindow(c: Config, w: Window, x: string)
    requires WellFormed(c) && x !in c.agents && w in c.windows
    ensures x !in w.agents
  {
  }

  // ----- every operation is carried out ---------------------------------------------------------------

  lemma {:induction false} PaneStepsCreate(window: string, agents: seq<string>, x: string)
    requires x in agents
    ensures CreateAgent(window, x, None) in PaneSteps(window, agents)
  {
    if x != agents[|agents| - 1] {
      PaneStepsCreate(window, agents[..|agents| - 1], x);
    }
  }

  lemma {:induction false} KillStepsKill(window: string, agents: seq<string>, x: string)
    requires x in agents
    ensures KillAgent(window, x) in KillSteps(window, agents)
  {
    if x != agents[0] {
      KillStepsKill(window, agents[1..], x);
    }
  }

  lemma {:induction false} CreatedMember(steps: seq<Step>, x: string) returns (s: Step)
    requires x in Created(steps)
    ensures s in steps && s.CreateAgent? && s.agent == x
  {
    if steps[0].CreateAgent? && steps[0].agent == x {
      s := steps[0];
    } else {
      s := CreatedMember(steps[1..], x);
    }
  }

  lemma GrownAgentIsCreated(a: Window, b: Window, x: string) returns (s: Step)
    requires Distinct(a.agents) && Distinct(b.agents) && Passes(a, b) && x in b.agents && x !in a.agents
    ensures s in GrowWindow(a, b).steps && s.CreateAgent? && s.agent == x
  {
    PassesIff(a, b);
    if Thinned(a.agents, b.agents) {
      ThinnedMembers(a.agents, b.agents);
    }
    var plan := WindowPlan(a.agents, b.agents, Parse(a.spec), Parse(b.spec)).value;
    AppendStepsCreate(b.name, LastOf(a.agents), plan);
    assert x in Agents(plan) by { assert a.agents + Agents(plan) == b.agents; }
    s := CreatedMember(AppendSteps(b.name, LastOf(a.agents), plan), x);
  }

  lemma OpenedAgentIsCreated(was: Config, now: Config, b: Window, x: string)
    requires b in now.windows && x in b.agents && Find(was.windows, b.name).None?
    ensures Creates(OpenPart(was, now).steps, x)
  {
    var s, f := CreateAgent(b.name, x, None), Opening(was.windows, now.sidebar.everyWindow);
    PaneStepsCreate(b.name, b.agents, x);
    assert s in f(b).steps;
    FoldHas(now.windows, f, b, s);
  }

  lemma AppendedAgentIsCreated(was: Config, now: Config, a: Window, b: Window, x: string)
    requires b in now.windows && Find(was.windows, b.name) == Some(a) && x in b.agents && x !in a.agents
    requires Distinct(a.agents) && Distinct(b.agents) && Passes(a, b)
    ensures Creates(GrowPart(was, now).steps, x)
  {
    var s := GrownAgentIsCreated(a, b, x);
    assert s in Growing(was.windows)(b).steps;
    FoldHas(now.windows, Growing(was.windows), b, s);
  }

  lemma AddedAgentIsCreated(was: Config, now: Config, x: string)
    requires WellFormed(was) && WellFormed(now) && AllPass(was, now) && x in now.agents && x !in was.agents
    ensures Creates(OpenPart(was, now).steps, x) || Creates(GrowPart(was, now).steps, x)
  {
    var b := WindowOf(now, x);
    var found := Find(was.windows, b.name);
    if found.None? {
      OpenedAgentIsCreated(was, now, b, x);
    } else {
      NotInWindow(was, found.value, x);
      WindowPasses(was, now, found.value, b);
      AppendedAgentIsCreated(was, now, found.value, b, x);
    }
  }

  lemma DroppedAgentIsKilled(a: Window, found: Option<Window>, x: string)
    requires x in a.agents && (found.Some? ==> x !in found.value.agents && ShrinkWindow(a, found.value).blocked == [])
    ensures KillAgent(a.name, x) in (if found.None? then CloseWindow(a) else ShrinkWindow(a, found.value)).steps
  {
    if found.None? {
      KillStepsKill(a.name, a.agents, x);
    } else {
      KillStepsKill(a.name, Keep(a.agents, found.value.agents, false), x);
    }
  }

  lemma GoneAgentIsKilled(was: Config, now: Config, x: string)
    requires WellFormed(was) && WellFormed(now) && AllPass(was, now) && x in was.agents && x !in now.agents
    ensures Kills(ShrinkPart(was, now).steps, x)
  {
    var a := WindowOf(was, x);
    var found := Find(now.windows, a.name);
    if found.Some? {
      NotInWindow(now, found.value, x);
      WindowPasses(was, now, a, found.value);
    }
    DroppedAgentIsKilled(a, found, x);
    assert KillAgent(a.name, x) in Shrinking(now.windows)(a).steps;
    FoldHas(was.windows, Shrinking(now.windows), a, KillAgent(a.name, x));
  }

  lemma MoreCreates(steps: seq<Step>, more: seq<Step>, x: string)
    requires Creates(steps, x) && forall s :: s in steps ==> s in more
    ensures Creates(more, x)
  {
    var s :| s in steps && s.CreateAgent? && s.agent == x;
    assert s in more;
  }

  lemma MoreKills(steps: seq<Step>, more: seq<Step>, x: string)
    requires Kills(steps, x) && forall s :: s in steps ==> s in more
    ensures Kills(more, x)
  {
    var s :| s in steps && s.KillAgent? && s.agent == x;
    assert s in more;
  }

  /** The checks for operations without steps never find any. */
  lemma NothingUncovered(was: Config, now: Config, ops: seq<Op>)
    requires WellFormed(was) && WellFormed(now) && AllPass(was, now)
    requires forall op :: op in ops && (op.AddAgent? || op.RemoveAgent?) ==> Describes(op, was, now)
    ensures UncoveredOps(ops, AllSteps(was, now, ops)) == []
  {
    var steps := AllSteps(was, now, ops);
    forall op | op in ops
      ensures op.AddAgent? ==> Creates(steps, op.agent)
      ensures op.RemoveAgent? ==> Kills(steps, op.agent)
    {
      if op.AddAgent? {
        AddedAgentIsCreated(was, now, op.agent);
        if Creates(OpenPart(was, now).steps, op.agent) {
          MoreCreates(OpenPart(was, now).steps, steps, op.agent);
        } else {
          MoreCreates(GrowPart(was, now).steps, steps, op.agent);
        }
      } else if op.RemoveAgent? {
        GoneAgentIsKilled(was, now, op.agent);
        MoreKills(ShrinkPart(was, now).steps, steps, op.agent);
      }
    }
  }

  // ----- the whole plan ------------------------------------------------------------------------------------

  /** Windows that keep their agents stay as they are. */
  ghost predicate WindowsStay(was: Config, now: Config) {
    forall a, b :: a in was.windows && b in now.windows && a.name == b.name && SameAgents(a, b) ==> a == b
  }

  ghost predicate RestStays(was: Config, now: Config) {
    was.entry == now.entry && was.sidebar == now.sidebar && AgentsStay(was, now) && WindowsStay(was, now)
  }

  lemma ReshapeDescribed(was: Config, now: Config, a: Window, b: Window)
    requires WellFormed(was) && WellFormed(now) && a in was.windows && b in now.windows && a.name == b.name
    ensures Describes(ReshapeWindow(a.name), was, now) <==> SameAgents(a, b) && a != b
  {
    FindUnique(was, a);
    FindUnique(now, b);
    var x, y := (set n | n in a.agents), (set n | n in b.agents);
    assert x == y <==> SameAgents(a, b) by {
      assert forall n :: n in x <==> n in a.agents;
      assert forall n :: n in y <==> n in b.agents;
    }
  }

  lemma SupportedAgentsStay(was: Config, now: Config, ops: seq<Op>)
    requires IsDiff(ops, was, now) && UnsupportedOps(ops) == []
    ensures AgentsStay(was, now)
  {
    forall a | a in was.agents && a in now.agents
      ensures was.agents[a] == now.agents[a] && HomeOf(was.windows, a) == HomeOf(now.windows, a)
    {
      NotListed(was, now, ops, ReplaceAgent(a));
      NotListed(was, now, ops, MoveAgent(a, HomeOf(was.windows, a), HomeOf(now.windows, a)));
    }
  }

  lemma SupportedWindowsStay(was: Config, now: Config, ops: seq<Op>)
    requires WellFormed(was) && WellFormed(now) && IsDiff(ops, was, now) && UnsupportedOps(ops) == []
    ensures WindowsStay(was, now)
  {
    forall a, b | a in was.windows && b in now.windows && a.name == b.name && SameAgents(a, b) ensures a == b {
      NotListed(was, now, ops, ReshapeWindow(a.name));
      ReshapeDescribed(was, now, a, b);
    }
  }

  lemma SupportedStays(was: Config, now: Config, ops: seq<Op>)
    requires WellFormed(was) && WellFormed(now) && IsDiff(ops, was, now) && UnsupportedOps(ops) == []
    ensures RestStays(was, now)
  {
    NotListed(was, now, ops, EntryChange);
    NotListed(was, now, ops, SidebarChange);
    SupportedAgentsStay(was, now, ops);
    SupportedWindowsStay(was, now, ops);
  }

  lemma NotListed(was: Config, now: Config, ops: seq<Op>, op: Op)
    requires IsDiff(ops, was, now) && UnsupportedOps(ops) == []
    requires op.EntryChange? || op.SidebarChange? || op.ReplaceAgent? || op.MoveAgent? || op.ReshapeWindow?
    ensures !Describes(op, was, now)
  {
    assert !Supported(op);
  }

  lemma StayingIsSupported(was: Config, now: Config, op: Op)
    requires WellFormed(was) && WellFormed(now) && RestStays(was, now) && Describes(op, was, now)
    ensures op.AddAgent? || op.AddWindow? || op.RemoveAgent? || op.RemoveWindow?
  {
    if op.ReshapeWindow? {
      ReshapeDescribed(was, now, Find(was.windows, op.window).value, Find(now.windows, op.window).value);
    }
  }

  /** The listed differences are all of a kind that steps exist for exactly when the rest stays. */
  lemma SupportedIff(was: Config, now: Config, ops: seq<Op>)
    requires WellFormed(was) && WellFormed(now) && IsDiff(ops, was, now)
    ensures UnsupportedOps(ops) == [] <==> RestStays(was, now)
  {
    if UnsupportedOps(ops) == [] {
      SupportedStays(was, now, ops);
    }
    if RestStays(was, now) {
      forall op | op in ops ensures Supported(op) {
        StayingIsSupported(was, now, op);
      }
    }
  }

  ghost predicate ListsAgent(ops: seq<Op>) { exists op :: op in ops && (op.AddAgent? || op.RemoveAgent?) }

  lemma AgentChangeIsListed(was: Config, now: Config, ops: seq<Op>, x: string)
    requires IsDiff(ops, was, now) && (x in was.agents) != (x in now.agents)
    ensures ListsAgent(ops)
  {
    var op := if x in now.agents then AddAgent(x, HomeOf(now.windows, x)) else RemoveAgent(x, HomeOf(was.windows, x));
    assert Describes(op, was, now);
    assert op in ops;
  }

  lemma DifferentKeys(was: Config, now: Config) returns (x: string)
    requires was.agents.Keys != now.agents.Keys
    ensures (x in was.agents) != (x in now.agents)
  {
    x :| (x in was.agents.Keys) != (x in now.agents.Keys);
  }

  /** With the rest staying, some difference is listed exactly when agents come or go. */
  lemma ListedIff(was: Config, now: Config, ops: seq<Op>)
    requires WellFormed(was) && WellFormed(now) && IsDiff(ops, was, now) && RestStays(was, now)
    ensures ops != [] <==> was.agents.Keys != now.agents.Keys
    ensures ops != [] ==> ListsAgent(ops)
  {
    if was.agents.Keys != now.agents.Keys {
      var x := DifferentKeys(was, now);
      AgentChangeIsListed(was, now, ops, x);
    } else if ops != [] {
      assert ops[0] in ops;
      NothingListed(was, now, ops[0]);
    }
  }

  lemma NothingListed(was: Config, now: Config, op: Op)
    requires WellFormed(was) && WellFormed(now) && RestStays(was, now) && was.agents.Keys == now.agents.Keys
    ensures !Describes(op, was, now)
  {
    if Describes(op, was, now) {
      StayingIsSupported(was, now, op);
      if op.AddWindow? {
        SameHome(now, was, Find(now.windows, op.window).value);
      } else if op.RemoveWindow? {
        SameHome(was, now, Find(was.windows, op.window).value);
      }
    }
  }

  /** A window whose agents are all in the other configuration, at home in the same window, is there too. */
  lemma SameHome(c: Config, d: Config, w: Window)
    requires WellFormed(c) && WellFormed(d) && w in c.windows && c.agents.Keys == d.agents.Keys
    requires forall a :: a in c.agents && a in d.agents ==> HomeOf(c.windows, a) == HomeOf(d.windows, a)
    ensures Has(d.windows, w.name)
  {
    var x := w.agents[0];
    assert x in w.agents && x in c.agents && x in d.agents;
    HomeUnique(c, w, x);
    assert HomeOf(d.windows, x) == Some(w.name);
  }

  lemma FitsAllIff(was: Config, now: Config)
    requires WellFormed(was) && WellFormed(now)
    ensures AllFit(was, now) <==> AllPass(was, now) && WindowsStay(was, now)
  {
    forall a, b | a in was.windows && b in now.windows && a.name == b.name
      ensures WindowFits(a, b) <==> (SameAgents(a, b) ==> a == b) && Passes(a, b)
    {
      FitsIff(a, b);
    }
  }

  lemma DiffBlocksIff(was: Config, now: Config, ops: seq<Op>, scopeVerified: bool)
    requires WellFormed(was) && WellFormed(now) && IsDiff(ops, was, now) && ops != []
    ensures PatchPlan(was, now, ops, scopeVerified).blocked == []
       <==> scopeVerified && RestStays(was, now) && AllPass(was, now)
  {
    SupportedIff(was, now, ops);
    PartsPassIff(was, now);
    if RestStays(was, now) {
      ListedIff(was, now, ops);
      if AllPass(was, now) {
        NothingUncovered(was, now, ops);
      }
    }
  }

  lemma CanReloadIff(was: Config, now: Config, scopeVerified: bool)
    requires WellFormed(was) && WellFormed(now)
    ensures CanReload(was, now, scopeVerified)
       <==> SameIdentity(was, now)
            || (scopeVerified && was.agents.Keys != now.agents.Keys && RestStays(was, now) && AllPass(was, now))
  {
    FitsAllIff(was, now);
  }

  lemma ChangeBlocksIff(was: Config, now: Config, diff: seq<Op>, ops: seq<Op>, scopeVerified: bool)
    requires WellFormed(was) && WellFormed(now) && IsDiff(diff, was, now)
    requires ops == if diff == [] then [UnclassifiedChange] else diff
    ensures PatchPlan(was, now, ops, scopeVerified).blocked == []
       <==> scopeVerified && was.agents.Keys != now.agents.Keys && RestStays(was, now) && AllPass(was, now)
  {
    if RestStays(was, now) {
      ListedIff(was, now, diff);
    }
    if diff == [] {
      UnclassifiedIsBlocked(was, now, scopeVerified);
    } else {
      DiffBlocksIff(was, now, ops, scopeVerified);
    }
  }

  /** A dry run of two well-formed configurations is not blocked if and only if the reload can be carried out
      in place. */
  lemma PlanBlocksIff(was: Config, now: Config, ops: seq<Op>, scopeVerified: bool)
    requires WellFormed(was) && WellFormed(now) && IsDryRun(ops, was, now)
    ensures PatchPlan(was, now, ops, scopeVerified).blocked == [] <==> CanReload(was, now, scopeVerified)
  {
    CanReloadIff(was, now, scopeVerified);
    if SameIdentity(was, now) {
      IdentityIsUnblocked(was, now, ops, scopeVerified);
    } else {
      var diff :| IsDiff(diff, was, now) && ops == if diff == [] then [UnclassifiedChange] else diff;
      ChangeBlocksIff(was, now, diff, ops, scopeVerified);
    }
  }

  lemma UnclassifiedIsBlocked(was: Config, now: Config, scopeVerified: bool)
    ensures PatchPlan(was, now, [UnclassifiedChange], scopeVerified).blocked != []
  {
    assert UnclassifiedChange in [UnclassifiedChange] && !Supported(UnclassifiedChange);
  }

  lemma SameWindowsPass(was: Config, now: Config)
    requires WellFormed(was) && was.windows == now.windows
    ensures AllPass(was, now)
  {
    forall a, b | a in was.windows && b in now.windows && a.name == b.name
      ensures GrowWindow(a, b).blocked == [] && ShrinkWindow(a, b).blocked == []
    {
      FindUnique(was, a);
      FindUnique(was, b);
      PassesIff(a, b);
    }
  }

  lemma ViewOpsAreCovered(ops: seq<Op>, steps: seq<Step>, scopeVerified: bool)
    requires ops == [] || ops == [ViewOnlyChange]
    ensures EarlyBlocked(ops, scopeVerified) == [] && UncoveredOps(ops, steps) == []
  {
  }

  lemma IdentityIsUnblocked(was: Config, now: Config, ops: seq<Op>, scopeVerified: bool)
    requires WellFormed(was) && WellFormed(now) && SameIdentity(was, now) && (ops == [] || ops == [ViewOnlyChange])
    ensures PatchPlan(was, now, ops, scopeVerified).blocked == []
  {
    ViewOpsAreCovered(ops, AllSteps(was, now, ops), scopeVerified);
    SameWindowsPass(was, now);
    PartsPassIff(was, now);
  }

  /** An unblocked plan has nothing to do exactly when nothing changed. */
  lemma PlanIsEmptyIff(was: Config, now: Config, ops: seq<Op>, scopeVerified: bool)
    requires WellFormed(was) && WellFormed(now) && IsDryRun(ops, was, now)
    requires PatchPlan(was, now, ops, scopeVerified).blocked == []
    ensures PatchPlan(was, now, ops, scopeVerified).steps == [] <==> was == now
  {
    if was == now {
      NoStepsWithoutChange(was);
    } else if SameIdentity(was, now) {
      assert RefreshView in AllSteps(was, now, ops);
    } else {
      PlanBlocksIff(was, now, ops, scopeVerified);
      CanReloadIff(was, now, scopeVerified);
      SomethingIsDone(was, now, ops);
    }
  }

  lemma SomethingIsDone(was: Config, now: Config, ops: seq<Op>)
    requires WellFormed(was) && WellFormed(now) && was.agents.Keys != now.agents.Keys && AllPass(was, now)
    ensures AllSteps(was, now, ops) != []
  {
    var x := DifferentKeys(was, now);
    if x in now.agents {
      AddedAgentIsCreated(was, now, x);
    } else {
      GoneAgentIsKilled(was, now, x);
    }
  }

  lemma NoStepsWithoutChange(c: Config)
    requires WellFormed(c)
    ensures AllSteps(c, c, []) == []
  {
    forall w | w in c.windows
      ensures Opening(c.windows, c.sidebar.everyWindow)(w) == NOTHING
      ensures Growing(c.windows)(w) == NOTHING && Shrinking(c.windows)(w) == NOTHING
    {
      FindUnique(c, w);
      NothingDropped(w.agents, w.agents);
    }
    EmptyFold(c.windows, Opening(c.windows, c.sidebar.everyWindow));
    EmptyFold(c.windows, Growing(c.windows));
    EmptyFold(c.windows, Shrinking(c.windows));
  }

  lemma {:induction false} EmptyFold(ws: seq<Window>, f: Window -> Part)
    requires forall w :: w in ws ==> f(w) == NOTHING
    ensures Fold(ws, f) == NOTHING
  {
    if ws != [] {
      assert ws[|ws| - 1] in ws;
      EmptyFold(ws[..|ws| - 1], f);
    }
  }

  // ----- whole windows --------------------------------------------------------------------------------

  /** All windows of `c` stand unchanged in `d`. */
  ghost predicate WindowsIn(c: Config, d: Config) { forall w :: w in c.windows ==> w in d.windows }

  lemma SameNameSameWindow(c: Config, a: Window, b: Window)
    requires WellFormed(c) && a in c.windows && b in c.windows && a.name == b.name
    ensures a == b
  {
    FindUnique(c, a);
    FindUnique(c, b);
  }

  lemma ContainedWindowsFit(was: Config, now: Config)
    requires WellFormed(was) && WellFormed(now) && (WindowsIn(was, now) || WindowsIn(now, was))
    ensures AllFit(was, now)
  {
    forall a, b | a in was.windows && b in now.windows && a.name == b.name ensures WindowFits(a, b) {
      if WindowsIn(was, now) {
        SameNameSameWindow(now, a, b);
      } else {
        SameNameSameWindow(was, a, b);
      }
    }
  }

  /** A window only `d` has brings an agent that only `d` has. */
  lemma NewWindowBringsAgent(c: Config, d: Config, w: Window)
    requires WellFormed(c) && WellFormed(d) && WindowsIn(c, d) && w in d.windows && w !in c.windows
    requires forall a :: a in c.agents && a in d.agents ==> HomeOf(c.windows, a) == HomeOf(d.windows, a)
    ensures c.agents.Keys != d.agents.Keys
  {
    var x := w.agents[0];
    assert x in w.agents && x in d.agents;
    HomeUnique(d, w, x);
    if Has(c.windows, w.name) {
      SameNameSameWindow(d, Find(c.windows, w.name).value, w);
    }
    assert HomeOf(c.windows, x) != Some(w.name);
    assert x in d.agents.Keys && x !in c.agents.Keys;
  }

  /** Opening whole windows, and closing whole windows, is never blocked and always has steps. */
  lemma WholeWindowsReload(was: Config, now: Config, ops: seq<Op>)
    requires WellFormed(was) && WellFormed(now) && IsDryRun(ops, was, now)
    requires was.entry == now.entry && was.sidebar == now.sidebar && AgentsStay(was, now)
    requires WindowsIn(was, now) != WindowsIn(now, was)
    ensures PatchPlan(was, now, ops, true).blocked == [] && PatchPlan(was, now, ops, true).steps != []
  {
    ContainedWindowsFit(was, now);
    if WindowsIn(was, now) {
      var w :| w in now.windows && w !in was.windows;
      NewWindowBringsAgent(was, now, w);
    } else {
      var w :| w in was.windows && w !in now.windows;
      NewWindowBringsAgent(now, was, w);
    }
    PlanBlocksIff(was, now, ops, true);
    PlanIsEmptyIff(was, now, ops, true);
  }

  /** The planner.  From a dry run of two well-formed configurations it blocks nothing exactly when the reload
      can be carried out in place, and what it does not block leads from the old panes to the new ones. */
  method BuildPatchPlan(was: Config, now: Config, ops: seq<Op>, scopeVerified: bool) returns (plan: Part)
    ensures plan == PatchPlan(was, now, ops, scopeVerified)
    ensures WellFormed(was) && WellFormed(now) && IsDryRun(ops, was, now) ==>
              (plan.blocked == [] <==> CanReload(was, now, scopeVerified))
    ensures WellFormed(was) && WellFormed(now) && IsDryRun(ops, was, now) && plan.blocked == [] ==>
              && Replay(Wanted(was), plan.steps) == Some(Wanted(now))
              && (plan.steps == [] <==> was == now)
  {
    var blocked := UnsupportedOps(ops);
    var steps: seq<Step> := [];
    if (exists op :: op in ops && Mutating(op)) && !scopeVerified {
      blocked := blocked + [ScopeUnverified];
    }
    if blocked == [] {
      steps := ViewSteps(ops);
      var created := AdditiveWindowSteps(was, now);
      steps := steps + created;
      var grown := AdditiveAgentSteps(was, now);
      steps := steps + grown.steps;
      blocked := grown.blocked;
      var shrunk := RemoveAgentSteps(was, now);
      steps := steps + shrunk.steps;
      blocked := blocked + shrunk.blocked;
      blocked := blocked + UncoveredOps(ops, steps);
    }
    plan := Part(steps, blocked);
    if WellFormed(was) && WellFormed(now) && IsDryRun(ops, was, now) {
      PlanBlocksIff(was, now, ops, scopeVerified);
      if plan.blocked == [] {
        UnblockedPlanReplays(was, now, ops, scopeVerified);
        PlanIsEmptyIff(was, now, ops, scopeVerified);
      }
    }
  }
}

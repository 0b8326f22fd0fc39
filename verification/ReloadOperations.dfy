/** Project configurations and the operations that tell two of them apart
    (lib/ccbd/reload_plan.py). */
module ReloadOperations {
  import opened Wrappers
  import opened NameOrder
  import opened Layout

  /** A configured window; its layout text is a token sequence. */
  datatype Window = Window(name: string, order: int, spec: seq<Token>, agents: seq<string>)

  datatype Sidebar = Sidebar(everyWindow: bool, geometry: string)

  /** `agents` maps a name to its canonical record, `view` is the presentation part that the
      signature leaves out, and `other` stands for the remaining signed fields. */
  datatype Config = Config(windows: seq<Window>, agents: map<string, string>, entry: string,
                           sidebar: Sidebar, view: string, other: string)

  ghost predicate Distinct(s: seq<string>) {
    forall i, j :: 0 <= i < j < |s| ==> s[i] != s[j]
  }

  /** What `ProjectConfig` validates: unique window names, non-empty windows, every agent at one
      place, and the windows together hold exactly the configured agents. */
  ghost predicate WellFormed(c: Config) {
    && (forall i, j :: 0 <= i < j < |c.windows| ==> c.windows[i].name != c.windows[j].name)
    && (forall w :: w in c.windows ==> Distinct(w.agents) && w.agents != [])
    && (forall v, w, a :: v in c.windows && w in c.windows && a in v.agents && a in w.agents ==> v == w)
    && (forall w, a :: w in c.windows && a in w.agents ==> a in c.agents)
    && (forall a :: a in c.agents ==> HomeOf(c.windows, a).Some?)
  }

  /** The dictionary of windows by name; a later window of the same name wins. */
  function Find(ws: seq<Window>, name: string): (r: Option<Window>)
    ensures r.Some? ==> r.value in ws && r.value.name == name
    ensures r.None? ==> forall w :: w in ws ==> w.name != name
  {
    if ws == [] then None
    else if ws[|ws| - 1].name == name then Some(ws[|ws| - 1])
    else Find(ws[..|ws| - 1], name)
  }

  predicate Has(ws: seq<Window>, name: string) { Find(ws, name).Some? }

  /** The window an agent lives in. */
  function HomeOf(ws: seq<Window>, agent: string): (r: Option<string>)
    ensures r.Some? ==> exists w :: w in ws && agent in w.agents && w.name == r.value
    ensures r.None? ==> forall w :: w in ws ==> agent !in w.agents
  {
    if ws == [] then None
    else if agent in ws[|ws| - 1].agents then
      assert ws[|ws| - 1] in ws;
      Some(ws[|ws| - 1].name)
    else HomeOf(ws[..|ws| - 1], agent)
  }

  lemma FindUnique(c: Config, w: Window)
    requires WellFormed(c) && w in c.windows
    ensures Find(c.windows, w.name) == Some(w)
  {
    var found := Find(c.windows, w.name).value;
    var i :| 0 <= i < |c.windows| && c.windows[i] == w;
    var j :| 0 <= j < |c.windows| && c.windows[j] == found;
  }

  lemma HomeUnique(c: Config, w: Window, agent: string)
    requires WellFormed(c) && w in c.windows && agent in w.agents
    ensures HomeOf(c.windows, agent) == Some(w.name)
  {
  }

  // ----- operations ------------------------------------------------------------

  datatype Op =
    | ViewOnlyChange
    | AddWindow(window: string, agents: seq<string>)
    | AddAgent(agent: string, home: Option<string>)
    | RemoveAgent(agent: string, home: Option<string>)
    | MoveAgent(agent: string, from: Option<string>, to: Option<string>)
    | ReplaceAgent(agent: string)
    | RemoveWindow(window: string)        // layout_change with change 'remove_window'
    | ReshapeWindow(window: string)       // layout_change of one window
    | EntryChange                         // layout_change of the entry window
    | SidebarChange                       // layout_change of the sidebar
    | UnclassifiedChange                  // layout_change nothing narrower explains

  predicate IsLayoutChange(op: Op) {
    op.RemoveWindow? || op.ReshapeWindow? || op.EntryChange? || op.SidebarChange? || op.UnclassifiedChange?
  }

  /** When an operation describes the difference between two configurations. */
  predicate Describes(op: Op, was: Config, now: Config) {
    match op
    case ViewOnlyChange => false
    case AddWindow(w, agents) =>
      !Has(was.windows, w) && Has(now.windows, w) && agents == Find(now.windows, w).value.agents
    case AddAgent(a, w) => a in now.agents && a !in was.agents && w == HomeOf(now.windows, a)
    case RemoveAgent(a, w) => a in was.agents && a !in now.agents && w == HomeOf(was.windows, a)
    case MoveAgent(a, from, to) =>
      && a in was.agents && a in now.agents && from != to
      && from == HomeOf(was.windows, a) && to == HomeOf(now.windows, a)
    case ReplaceAgent(a) => a in was.agents && a in now.agents && was.agents[a] != now.agents[a]
    case RemoveWindow(w) => Has(was.windows, w) && !Has(now.windows, w)
    case ReshapeWindow(w) =>
      && Has(was.windows, w) && Has(now.windows, w)
      && var a, b := Find(was.windows, w).value, Find(now.windows, w).value;
         && (set x | x in a.agents) == (set x | x in b.agents)
         && (a.order != b.order || a.spec != b.spec || a.agents != b.agents)
    case EntryChange => was.entry != now.entry
    case SidebarChange => was.sidebar != now.sidebar
    case UnclassifiedChange => false
  }

  /** The listed operations are exactly the differences. */
  ghost predicate IsDiff(ops: seq<Op>, was: Config, now: Config) {
    forall op :: op in ops <==> Describes(op, was, now)
  }

  // ----- the passes that list them ---------------------------------------------

  /** The loops of the planner, in their order. */
  datatype Pass = WindowsAdded | AgentsAdded | AgentsRemoved | AgentsMoved | AgentsReplaced | WindowsRemoved | WindowsReshaped

  function Rank(op: Op): int {
    match op
    case ViewOnlyChange => -1
    case AddWindow(_, _) => 0
    case AddAgent(_, _) => 1
    case RemoveAgent(_, _) => 2
    case MoveAgent(_, _, _) => 3
    case ReplaceAgent(_) => 4
    case RemoveWindow(_) => 5
    case ReshapeWindow(_) => 6
    case EntryChange => 7
    case SidebarChange => 8
    case UnclassifiedChange => 9
  }

  function PassRank(pass: Pass): int {
    match pass
    case WindowsAdded => 0
    case AgentsAdded => 1
    case AgentsRemoved => 2
    case AgentsMoved => 3
    case AgentsReplaced => 4
    case WindowsRemoved => 5
    case WindowsReshaped => 6
  }

  /** The window or agent an operation is about. */
  function Subject(op: Op): string {
    match op
    case AddWindow(w, _) => w
    case RemoveWindow(w) => w
    case ReshapeWindow(w) => w
    case AddAgent(a, _) => a
    case RemoveAgent(a, _) => a
    case MoveAgent(a, _, _) => a
    case ReplaceAgent(a) => a
    case _ => ""
  }

  function WindowNames(ws: seq<Window>): set<string> { set w | w in ws :: w.name }

  /** The names a pass runs over. */
  function PassNames(pass: Pass, was: Config, now: Config): set<string> {
    match pass
    case WindowsAdded => WindowNames(now.windows) - WindowNames(was.windows)
    case AgentsAdded => now.agents.Keys - was.agents.Keys
    case AgentsRemoved => was.agents.Keys - now.agents.Keys
    case AgentsMoved => was.agents.Keys * now.agents.Keys
    case AgentsReplaced => was.agents.Keys * now.agents.Keys
    case WindowsRemoved => WindowNames(was.windows) - WindowNames(now.windows)
    case WindowsReshaped => WindowNames(was.windows) * WindowNames(now.windows)
  }

  function WindowOrder(ws: seq<Window>): string -> int {
    n => var w := Find(ws, n); if w.Some? then w.value.order else 999999
  }

  /** Windows are sorted by their order and name, agents by name. */
  function PassOrder(pass: Pass, was: Config, now: Config): string -> int {
    match pass
    case WindowsAdded => WindowOrder(now.windows)
    case WindowsRemoved => WindowOrder(was.windows)
    case WindowsReshaped => WindowOrder(now.windows)
    case _ => NoOrder()
  }

  function NoOrder(): string -> int { n => 0 }

  /** What a pass lists for a name, if anything. */
  function OpFor(pass: Pass, was: Config, now: Config, name: string): Option<Op>
    requires name in PassNames(pass, was, now)
  {
    match pass
    case WindowsAdded => Some(AddWindow(name, var w := Find(now.windows, name); if w.Some? then w.value.agents else []))
    case AgentsAdded => Some(AddAgent(name, HomeOf(now.windows, name)))
    case AgentsRemoved => Some(RemoveAgent(name, HomeOf(was.windows, name)))
    case AgentsMoved =>
      var before, after := HomeOf(was.windows, name), HomeOf(now.windows, name);
      if before != after then Some(MoveAgent(name, before, after)) else None
    case AgentsReplaced => if was.agents[name] != now.agents[name] then Some(ReplaceAgent(name)) else None
    case WindowsRemoved => Some(RemoveWindow(name))
    case WindowsReshaped =>
      var before, after := Find(was.windows, name), Find(now.windows, name);
      if before.None? || after.None? then None
      else
        var a, b := before.value, after.value;
        if (set x | x in a.agents) != (set x | x in b.agents) then None
        else if a.order != b.order || a.spec != b.spec || a.agents != b.agents then Some(ReshapeWindow(name))
        else None
  }

  lemma NamesAreFound(ws: seq<Window>, name: string)
    ensures name in WindowNames(ws) <==> Has(ws, name)
  {
  }

  /** A pass lists, for a name it runs over, exactly the difference of its kind. */
  lemma OpForDescribes(pass: Pass, was: Config, now: Config, op: Op)
    ensures Rank(op) == PassRank(pass) && Describes(op, was, now)
       <==> Subject(op) in PassNames(pass, was, now) && OpFor(pass, was, now, Subject(op)) == Some(op)
  {
    NamesAreFound(was.windows, Subject(op));
    NamesAreFound(now.windows, Subject(op));
  }

  function OrderOf(was: Config, now: Config, op: Op): int {
    if op.AddWindow? || op.ReshapeWindow? then WindowOrder(now.windows)(op.window)
    else if op.RemoveWindow? then WindowOrder(was.windows)(op.window)
    else 0
  }

  /** Where an operation belongs in the list. */
  function OpKey(was: Config, now: Config): Op -> Key { op => Key(Rank(op), OrderOf(was, now, op), Subject(op)) }

  lemma OpForKey(pass: Pass, was: Config, now: Config, name: string)
    requires name in PassNames(pass, was, now) && OpFor(pass, was, now, name).Some?
    ensures var op := OpFor(pass, was, now, name).value;
            Subject(op) == name && OpKey(was, now)(op) == Key(PassRank(pass), PassOrder(pass, was, now)(name), name)
  {
    var op := OpFor(pass, was, now, name).value;
    assert Rank(op) == PassRank(pass);
    assert OrderOf(was, now, op) == PassOrder(pass, was, now)(name);
  }

  /** One loop of the planner over its sorted names. */
  method PassOperations(pass: Pass, was: Config, now: Config) returns (ops: seq<Op>)
    ensures forall op :: op in ops <==> Rank(op) == PassRank(pass) && Describes(op, was, now)
    ensures Ascending(ops, OpKey(was, now))
  {
    var all, order := PassNames(pass, was, now), PassOrder(pass, was, now);
    var names := SortNames(all, order);
    ops := [];
    for i := 0 to |names|
      invariant forall op :: op in ops <==> Subject(op) in names[..i] && Subject(op) in all && OpFor(pass, was, now, Subject(op)) == Some(op)
      invariant Ascending(ops, OpKey(was, now))
    {
      assert names[i] in names && names[i] in all;
      assert names[..i + 1] == names[..i] + [names[i]];
      var op := OpFor(pass, was, now, names[i]);
      if op.Some? {
        ghost var last := op.value;
        OpForKey(pass, was, now, names[i]);
        forall x | x in ops ensures KeyLess(OpKey(was, now)(x), OpKey(was, now)(last)) {
          OpForKey(pass, was, now, Subject(x));
          var j :| 0 <= j < i && names[j] == Subject(x);
          assert KeyLess(NameKey(order)(names[j]), NameKey(order)(names[i]));
        }
        AppendAscending(ops, last, OpKey(was, now));
        ops := ops + [op.value];
      } else {
        assert forall x :: Subject(x) == names[i] ==> OpFor(pass, was, now, Subject(x)) != Some(x);
      }
    }
    assert names[..|names|] == names;
    forall op ensures op in ops <==> Rank(op) == PassRank(pass) && Describes(op, was, now) {
      OpForDescribes(pass, was, now, op);
    }
  }

  lemma AppendAscending(ops: seq<Op>, op: Op, key: Op -> Key)
    requires Ascending(ops, key) && forall x :: x in ops ==> KeyLess(key(x), key(op))
    ensures Ascending(ops + [op], key)
  {
  }

  lemma JoinAscending(a: seq<Op>, b: seq<Op>, was: Config, now: Config, r: int)
    requires Ascending(a, OpKey(was, now)) && Ascending(b, OpKey(was, now))
    requires (forall x :: x in a ==> Rank(x) < r) && forall x :: x in b ==> Rank(x) >= r
    ensures Ascending(a + b, OpKey(was, now))
  {
    var key := OpKey(was, now);
    forall i, j | 0 <= i < j < |a + b| ensures KeyLess(key((a + b)[i]), key((a + b)[j])) {
      if i < |a| && j >= |a| {
        assert a[i] in a && b[j - |a|] in b;
      }
    }
  }

  /** The differences in the topology, listed last. */
  method TopologyOperations(was: Config, now: Config) returns (ops: seq<Op>)
    ensures forall op :: op in ops <==> IsLayoutChange(op) && Describes(op, was, now)
    ensures Ascending(ops, OpKey(was, now))
  {
    var removed := PassOperations(WindowsRemoved, was, now);
    var reshaped := PassOperations(WindowsReshaped, was, now);
    var entry := if was.entry != now.entry then [EntryChange] else [];
    var sidebar := if was.sidebar != now.sidebar then [SidebarChange] else [];
    JoinAscending(removed, reshaped, was, now, 6);
    JoinAscending(removed + reshaped, entry, was, now, 7);
    JoinAscending(removed + reshaped + entry, sidebar, was, now, 8);
    ops := removed + reshaped + entry + sidebar;
  }

  /** All differences, in the planner's order. */
  method BuildOperations(was: Config, now: Config) returns (ops: seq<Op>)
    ensures IsDiff(ops, was, now)
    ensures Ascending(ops, OpKey(was, now))
  {
    var windows := PassOperations(WindowsAdded, was, now);
    var added := PassOperations(AgentsAdded, was, now);
    var removed := PassOperations(AgentsRemoved, was, now);
    var moved := PassOperations(AgentsMoved, was, now);
    var replaced := PassOperations(AgentsReplaced, was, now);
    var topology := TopologyOperations(was, now);
    JoinAscending(windows, added, was, now, 1);
    JoinAscending(windows + added, removed, was, now, 2);
    JoinAscending(windows + added + removed, moved, was, now, 3);
    JoinAscending(windows + added + removed + moved, replaced, was, now, 4);
    JoinAscending(windows + added + removed + moved + replaced, topology, was, now, 5);
    ops := windows + added + removed + moved + replaced + topology;
  }

  /** The list of operations is determined by what it lists and its order. */
  lemma OperationsAreDetermined(was: Config, now: Config, a: seq<Op>, b: seq<Op>)
    requires IsDiff(a, was, now) && IsDiff(b, was, now)
    requires Ascending(a, OpKey(was, now)) && Ascending(b, OpKey(was, now))
    ensures a == b
  {
    AscendingUnique(a, b, OpKey(was, now));
  }

  /** The order of the kinds of operations. */
  ghost predicate NotAfter(x: Op, y: Op) {
    && (y.AddWindow? ==> x.AddWindow?)
    && (y.AddAgent? ==> x.AddWindow? || x.AddAgent?)
    && (y.RemoveAgent? ==> x.AddWindow? || x.AddAgent? || x.RemoveAgent?)
    && (y.MoveAgent? ==> x.AddWindow? || x.AddAgent? || x.RemoveAgent? || x.MoveAgent?)
    && (y.ReplaceAgent? ==> !IsLayoutChange(x))
    && (y.RemoveWindow? ==> !x.ReshapeWindow? && !x.EntryChange? && !x.SidebarChange?)
    && (y.ReshapeWindow? ==> !x.EntryChange? && !x.SidebarChange?)
    && (y.EntryChange? ==> !x.SidebarChange?)
  }

  /** In the list, kinds follow one another; agents of a kind come by name, and windows by order and name. */
  lemma OperationsInOrder(was: Config, now: Config, ops: seq<Op>, i: nat, j: nat)
    requires WellFormed(was) && WellFormed(now) && IsDiff(ops, was, now) && Ascending(ops, OpKey(was, now))
    requires i < j < |ops|
    ensures NotAfter(ops[i], ops[j])
    ensures ops[i].AddAgent? && ops[j].AddAgent? ==> Less(ops[i].agent, ops[j].agent)
    ensures ops[i].RemoveAgent? && ops[j].RemoveAgent? ==> Less(ops[i].agent, ops[j].agent)
    ensures ops[i].MoveAgent? && ops[j].MoveAgent? ==> Less(ops[i].agent, ops[j].agent)
    ensures ops[i].ReplaceAgent? && ops[j].ReplaceAgent? ==> Less(ops[i].agent, ops[j].agent)
    ensures ops[i].AddWindow? && ops[j].AddWindow? ==> WindowsInOrder(now.windows, ops[i].window, ops[j].window)
    ensures ops[i].RemoveWindow? && ops[j].RemoveWindow? ==> WindowsInOrder(was.windows, ops[i].window, ops[j].window)
    ensures ops[i].ReshapeWindow? && ops[j].ReshapeWindow? ==> WindowsInOrder(now.windows, ops[i].window, ops[j].window)
  {
    var x, y := ops[i], ops[j];
    assert x in ops && y in ops && KeyLess(OpKey(was, now)(x), OpKey(was, now)(y));
    forall a | a in now.windows ensures WindowOrder(now.windows)(a.name) == a.order {
      FindUnique(now, a);
    }
    forall a | a in was.windows ensures WindowOrder(was.windows)(a.name) == a.order {
      FindUnique(was, a);
    }
  }

  ghost predicate WindowsInOrder(ws: seq<Window>, x: string, y: string) {
    forall a, b :: a in ws && b in ws && a.name == x && b.name == y ==>
      a.order < b.order || (a.order == b.order && Less(a.name, b.name))
  }

  // ----- the dry-run plan ------------------------------------------------------

  /** Equal config signatures; the hash of the signed fields is taken to be injective. */
  predicate SameIdentity(was: Config, now: Config) { was == now.(view := was.view) }

  /** The operations of a dry-run plan. */
  ghost predicate IsDryRun(ops: seq<Op>, was: Config, now: Config) {
    if was == now then ops == []
    else if SameIdentity(was, now) then ops == [ViewOnlyChange]
    else exists diff :: IsDiff(diff, was, now) && ops == if diff == [] then [UnclassifiedChange] else diff
  }

  method DryRunOperations(was: Config, now: Config) returns (ops: seq<Op>)
    ensures IsDryRun(ops, was, now) && Ascending(ops, OpKey(was, now))
  {
    if SameIdentity(was, now) {
      return if was == now then [] else [ViewOnlyChange];
    }
    var diff := BuildOperations(was, now);
    ops := if diff == [] then [UnclassifiedChange] else diff;
  }

  datatype PlanClass = NoChange | ViewOnly | AddsAgent | AddsWindow | ChangesLayout | MovesAgent | RemovesAgent | ReplacesAgent

  function ClassOf(op: Op): PlanClass {
    match op
    case ViewOnlyChange => ViewOnly
    case AddWindow(_, _) => AddsWindow
    case AddAgent(_, _) => AddsAgent
    case RemoveAgent(_, _) => RemovesAgent
    case MoveAgent(_, _, _) => MovesAgent
    case ReplaceAgent(_) => ReplacesAgent
    case _ => ChangesLayout
  }

  function Priority(c: PlanClass): nat {
    match c
    case NoChange => 0
    case ViewOnly => 10
    case AddsAgent => 40
    case AddsWindow => 50
    case ChangesLayout => 60
    case MovesAgent => 70
    case RemovesAgent => 80
    case ReplacesAgent => 90
  }

  /** The class of highest priority among the operations. */
  function SelectClass(ops: seq<Op>): (c: PlanClass)
    ensures forall op :: op in ops ==> Priority(ClassOf(op)) <= Priority(c)
    ensures ops != [] ==> exists op :: op in ops && ClassOf(op) == c
    ensures ops == [] ==> c == NoChange
  {
    if ops == [] then NoChange
    else
      var rest := SelectClass(ops[1..]);
      if Priority(rest) > Priority(ClassOf(ops[0])) then rest else ClassOf(ops[0])
  }

  predicate FutureSafe(c: PlanClass, ops: seq<Op>) {
    match c
    case NoChange => true
    case ViewOnly => true
    case RemovesAgent =>
      && ops != []
      && (forall op :: op in ops ==> op.RemoveAgent? || op.RemoveWindow?)
      && (exists op :: op in ops && op.RemoveAgent?)
    case _ =>
      && (forall op :: op in ops ==> !op.ReplaceAgent? && !op.MoveAgent? && !IsLayoutChange(op))
      && (c.AddsAgent? || c.AddsWindow?)
  }
}

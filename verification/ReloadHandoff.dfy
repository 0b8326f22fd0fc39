/** The reload handoff (lib/ccbd/reload_handoff.py) and the locked apply pipeline around it
    (lib/ccbd/reload_apply_service.py).  While a reload is being applied, a file records which daemon
    moves which signature to which; a keeper that finds the two signatures different may consult it. */
module ReloadHandoff {
  import opened Wrappers
  import opened ReloadPublish

  const TTL_SECONDS := 60.0

  datatype Handoff = Handoff(project: string, startedAt: Option<real>, source: Signature, target: Signature,
                             pid: int, instance: string, generation: int)

  /** The handoff file: absent, unreadable, or holding a record. */
  datatype File = Missing | Corrupt | Holds(handoff: Handoff)

  datatype Begin = Skipped | Started(handoff: Handoff) | Rejected

  /** The handoff a reload would record; the record type refuses an empty project. */
  function BeginFor(w: World, project: string, target: Signature, now: Option<real>): Begin {
    var lease := if w.cached.Some? then w.cached else w.lease;
    if w.graph.signature == "" || target == "" || w.graph.signature == target then Skipped
    else if lease.None? || lease.value.pid <= 0 || lease.value.instance == "" || lease.value.generation <= 0 then Skipped
    else if project == "" then Rejected
    else Started(Handoff(project, now, w.graph.signature, target, lease.value.pid, lease.value.instance,
                         lease.value.generation))
  }

  /** A call records a handoff exactly when it moves from one known signature to another and the lease the
      application goes by names a process, an instance and a generation; without a project that is an error. */
  lemma BeginsIff(w: World, project: string, target: Signature, now: Option<real>)
    ensures var lease := if w.cached.Some? then w.cached else w.lease;
            var moves := && w.graph.signature != "" && target != "" && w.graph.signature != target
                         && lease.Some? && lease.value.pid > 0 && lease.value.instance != "" && lease.value.generation > 0;
            && (BeginFor(w, project, target, now).Skipped? <==> !moves)
            && (BeginFor(w, project, target, now).Rejected? <==> moves && project == "")
            && (moves && project != "" ==>
                  BeginFor(w, project, target, now)
                  == Started(Handoff(project, now, w.graph.signature, target, lease.value.pid, lease.value.instance,
                                     lease.value.generation)))
  {
  }

  // ----- the keeper's question -----------------------------------------------------------------

  datatype Inspection = Unavailable | Inspected(lease: Option<Lease>, alive: bool, connectable: bool)

  datatype Check = Check(project: string, expected: Signature, actual: Signature, now: Option<real>,
                         inspection: Inspection)

  predicate AgeValid(h: Handoff, now: Option<real>) {
    h.startedAt.Some? && now.Some? && 0.0 <= now.value - h.startedAt.value <= TTL_SECONDS
  }

  predicate MatchesHolder(i: Inspection, h: Handoff) {
    && i.Inspected? && i.lease.Some?
    && i.lease.value.pid == h.pid && i.lease.value.instance == h.instance && i.lease.value.generation == h.generation
    && i.alive && i.connectable
  }

  /** `reload_handoff_allows_signature_mismatch`. */
  predicate AllowsMismatch(file: File, c: Check) {
    if c.expected == "" || c.actual == "" then false
    else if !file.Holds? then false
    else if !AgeValid(file.handoff, c.now) then false
    else if file.handoff.project != c.project then false
    else if file.handoff.source != c.actual then false
    else if file.handoff.target != c.expected then false
    else MatchesHolder(c.inspection, file.handoff)
  }

  /** `daemon_matches_project_config` of the keeper loop, for a daemon that answers the ping. */
  predicate KeeperAccepts(file: File, c: Check, knownAgents: seq<string>, expectedAgents: seq<string>) {
    if c.actual != "" then
      if c.actual == c.expected then true
      else if AllowsMismatch(file, c) then true
      else true
    else knownAgents == expectedAgents
  }

  /** The keeper's answer does not depend on the handoff: any daemon that reports a signature is
      accepted, matching or not. */
  lemma KeeperIgnoresHandoff(file: File, other: File, c: Check, known: seq<string>, expected: seq<string>)
    ensures KeeperAccepts(file, c, known, expected) == KeeperAccepts(other, c, known, expected)
    ensures KeeperAccepts(file, c, known, expected) <==> c.actual != "" || known == expected
  {
  }

  // ----- all interleavings ------------------------------------------------------------------------

  /** The call that holds the apply lock: what it recorded, what it asks for, and how far it is. */
  datatype Active = Active(begun: Begin, request: Request, tried: bool, published: bool)

  datatype System = System(daemon: Daemon, world: World, file: File, call: Option<Active>)

  /** The steps of reload calls, what can go wrong around them, and the questions asked in between.
      `Crashed` ends the daemon without cleaning up, and another one mounts with a world of its own;
      `Stored` is another writer of the lease or the lifecycle; `Damaged` is a file that can no longer be
      read. */
  datatype Event =
    | Began(project: string, request: Request, now: Option<real>, saveFault: bool)
    | Tried(faults: Faults)
    | Ended(clearFault: bool)
    | Crashed(daemon: Daemon, world: World)
    | Stored(lease: Option<Lease>, lifecycle: Option<Lifecycle>, cached: Option<Lease>)
    | Damaged
    | Asked(check: Check)

  /** Beginning a call; while the lock is taken nothing happens. */
  function NextBegun(s: System, project: string, request: Request, now: Option<real>, saveFault: bool): System {
    if s.call.Some? then s
    else
      match BeginFor(s.world, project, request.graph.signature, now)
      case Rejected => s
      case Skipped => s.(call := Some(Active(Skipped, request, false, false)))
      case Started(h) =>
        if saveFault then s
        else s.(file := Holds(h), call := Some(Active(Started(h), request, false, false)))
  }

  /** One step; a step of no call changes nothing. */
  function Next(s: System, e: Event): System {
    match e
    case Began(project, request, now, saveFault) => NextBegun(s, project, request, now, saveFault)
    case Tried(faults) =>
      if s.call.None? || s.call.value.tried then s
      else
        var (w, r) := Transact(s.daemon, s.world, s.call.value.request.(stagesDone := true), faults);
        s.(world := w, call := Some(s.call.value.(tried := true, published := r.status.Published?)))
    case Ended(clearFault) =>
      if s.call.None? then s
      else s.(file := if s.call.value.begun.Started? && !clearFault then Missing else s.file, call := None)
    case Crashed(daemon, world) => System(daemon, world, s.file, None)
    case Stored(lease, lifecycle, cached) =>
      s.(world := s.world.(lease := lease, lifecycle := lifecycle, cached := cached))
    case Damaged => s.(file := Corrupt)
    case Asked(_) => s
  }

  function After(start: System, events: seq<Event>): System {
    if events == [] then start else Next(After(start, events[..|events| - 1]), events[|events| - 1])
  }

  /** No handoff on disk and no call under way. */
  predicate Fresh(s: System) { s.file.Missing? && s.call.None? }

  /** Event `e` begins a call that records a handoff. */
  predicate Records(s: System, e: Event) {
    && e.Began? && s.call.None? && !e.saveFault
    && BeginFor(s.world, e.project, e.request.graph.signature, e.now).Started?
  }

  /** Event `e` ends a call that recorded a handoff, and removes it. */
  predicate Clears(s: System, e: Event) {
    e.Ended? && !e.clearFault && s.call.Some? && s.call.value.begun.Started?
  }

  predicate Touches(s: System, e: Event) { Records(s, e) || Clears(s, e) || e.Damaged? }

  /** The handoff that event `i` recorded has since been neither removed, damaged nor replaced. */
  ghost predicate Standing(start: System, events: seq<Event>, i: nat) {
    && i < |events| && Records(After(start, events[..i]), events[i])
    && forall j :: i < j < |events| ==> !Touches(After(start, events[..j]), events[j])
  }

  /** The handoff that a recording event writes. */
  function Recorded(s: System, e: Event): Handoff
    requires Records(s, e)
  {
    BeginFor(s.world, e.project, e.request.graph.signature, e.now).handoff
  }

  lemma StandingStep(start: System, init: seq<Event>, e: Event, i: nat)
    ensures Standing(start, init + [e], i)
       <==> if i == |init| then Records(After(start, init), e)
            else Standing(start, init, i) && !Touches(After(start, init), e)
  {
    var events := init + [e];
    assert events[..|init|] == init;
    assert forall j :: 0 <= j <= |init| ==> events[..j] == init[..j];
    if Standing(start, init, i) && !Touches(After(start, init), e) {
      forall j | i < j < |events| ensures !Touches(After(start, events[..j]), events[j]) {
      }
    }
    if Standing(start, events, i) && i < |init| {
      forall j | i < j < |init| ensures !Touches(After(start, init[..j]), init[j]) {
        assert events[j] == init[j];
      }
      assert events[|init|] == e;
    }
  }

  lemma UntouchedFile(s: System, e: Event)
    ensures !Touches(s, e) ==> Next(s, e).file == s.file
    ensures Records(s, e) ==> Next(s, e).file == Holds(Recorded(s, e))
    ensures Clears(s, e) || e.Damaged? ==> !Next(s, e).file.Holds?
  {
  }

  /** What is on disk is what the last standing record wrote. */
  ghost predicate WrittenBy(start: System, events: seq<Event>, h: Handoff, i: nat) {
    Standing(start, events, i) && Recorded(After(start, events[..i]), events[i]) == h
  }

  lemma {:induction false} FileIsStanding(start: System, events: seq<Event>, h: Handoff)
    requires Fresh(start)
    ensures After(start, events).file == Holds(h) <==> exists i: nat :: WrittenBy(start, events, h, i)
  {
    if events != [] {
      var n := |events| - 1;
      var init, e := events[..n], events[n];
      assert events == init + [e];
      var s := After(start, init);
      FileIsStanding(start, init, h);
      UntouchedFile(s, e);
      if After(start, events).file == Holds(h) {
        if Records(s, e) {
          StandingStep(start, init, e, n);
          assert WrittenBy(start, events, h, n);
        } else {
          var i: nat :| WrittenBy(start, init, h, i);
          StandingStep(start, init, e, i);
          assert events[..i] == init[..i];
          assert WrittenBy(start, events, h, i);
        }
      }
      if i: nat :| WrittenBy(start, events, h, i) {
        StandingStep(start, init, e, i);
        if i < n {
          assert events[..i] == init[..i];
          assert WrittenBy(start, init, h, i);
        }
      }
    }
  }

  /** What the world `w` in which event `e` began says about the check `c`: it reports the signature that
      was published then, expects the one the call asked for, at most 60 seconds later, and the live holder
      of the lease is the one the application had then. */
  ghost predicate Excuses(w: World, e: Event, c: Check)
    requires e.Began?
  {
    var lease := if w.cached.Some? then w.cached else w.lease;
    && c.project == e.project && c.actual == w.graph.signature && c.expected == e.request.graph.signature
    && e.now.Some? && c.now.Some? && 0.0 <= c.now.value - e.now.value <= 60.0
    && c.inspection.Inspected? && c.inspection.alive && c.inspection.connectable
    && c.inspection.lease.Some? && lease.Some? && c.inspection.lease.value.pid == lease.value.pid
    && c.inspection.lease.value.instance == lease.value.instance
    && c.inspection.lease.value.generation == lease.value.generation
  }

  /** In every interleaving a mismatch is allowed if and only if some reload recorded a handoff that
      nothing has touched since, and the world it began in excuses the check. */
  lemma MismatchNeedsReload(start: System, events: seq<Event>, c: Check)
    requires Fresh(start)
    ensures AllowsMismatch(After(start, events).file, c)
       <==> exists i: nat :: Standing(start, events, i) && Excuses(After(start, events[..i]).world, events[i], c)
  {
    var file := After(start, events).file;
    if AllowsMismatch(file, c) {
      FileIsStanding(start, events, file.handoff);
      var i: nat :| WrittenBy(start, events, file.handoff, i);
      assert Excuses(After(start, events[..i]).world, events[i], c);
    }
    if i: nat :| Standing(start, events, i) && Excuses(After(start, events[..i]).world, events[i], c) {
      var h := Recorded(After(start, events[..i]), events[i]);
      assert WrittenBy(start, events, h, i);
      FileIsStanding(start, events, h);
    }
  }

  // ----- inside and outside of calls -----------------------------------------------------------------

  /** Nothing cut the call short and its clean-up did not fail. */
  predicate Cleans(e: Event) { !e.Crashed? && !(e.Ended? && e.clearFault) }

  /** The call that recorded `h` holds the lock. */
  predicate Running(s: System, h: Handoff) { s.call.Some? && s.call.value.begun == Started(h) }

  lemma RunningStep(s: System, e: Event, h: Handoff)
    ensures Records(s, e) && Recorded(s, e) == h ==> Running(Next(s, e), h)
    ensures Running(s, h) && !Touches(s, e) && Cleans(e) ==> Running(Next(s, e), h)
  {
  }

  /** As long as nothing goes wrong, the call that wrote a standing handoff is still under way. */
  lemma {:induction false} StandingIsRunning(start: System, events: seq<Event>, h: Handoff, i: nat)
    requires WrittenBy(start, events, h, i) && forall j :: i < j < |events| ==> Cleans(events[j])
    ensures Running(After(start, events), h)
  {
    var n := |events| - 1;
    var init, e := events[..n], events[n];
    assert events == init + [e];
    StandingStep(start, init, e, i);
    RunningStep(After(start, init), e, h);
    if i < n {
      assert events[..i] == init[..i] && events[i] == init[i];
      forall j | i < j < n ensures Cleans(init[j]) {
        assert init[j] == events[j];
      }
      StandingIsRunning(start, init, h, i);
      assert Cleans(e);
    }
  }

  /** In every interleaving, a mismatch is allowed only while the very call is under way that recorded the
      handoff, or after a crash or a failed clean-up that came after it. */
  lemma AllowedOnlyInCallOrAfterFault(start: System, events: seq<Event>, c: Check)
    requires Fresh(start) && AllowsMismatch(After(start, events).file, c)
    ensures var s := After(start, events);
            Running(s, s.file.handoff)
            || exists i: nat, j: nat :: WrittenBy(start, events, s.file.handoff, i) && i < j < |events| && !Cleans(events[j])
  {
    var h := After(start, events).file.handoff;
    FileIsStanding(start, events, h);
    var i: nat :| WrittenBy(start, events, h, i);
    if j: nat :| i < j < |events| && !Cleans(events[j]) {
    } else {
      StandingIsRunning(start, events, h, i);
    }
  }

  /** A call that recorded a handoff: the handoff is on disk unless it was damaged, and the live graph is
      the one it names as source until the call publishes, and as target afterwards. */
  ghost predicate CallIsTruthful(s: System) {
    s.call.Some? ==>
      var a := s.call.value;
      && (a.published ==> a.tried && s.world.graph == a.request.graph)
      && (a.begun.Started? ==>
            var h := a.begun.handoff;
            && (s.file == Holds(h) || s.file.Corrupt?)
            && h.target == a.request.graph.signature && h.source != h.target
            && s.world.graph.signature == if a.published then h.target else h.source)
  }

  lemma {:induction false} CallsAreTruthful(start: System, events: seq<Event>)
    requires Fresh(start)
    ensures CallIsTruthful(After(start, events))
  {
    if events != [] {
      var init, e := events[..|events| - 1], events[|events| - 1];
      CallsAreTruthful(start, init);
      var s := After(start, init);
      if e.Tried? && s.call.Some? {
        TransactIsAtomicOnTheGraph(s.daemon, s.world, s.call.value.request.(stagesDone := true), e.faults);
      }
    }
  }

  /** In every interleaving, while a call with a handoff is under way: the allowed pair is from the source
      to the target of the call, and a check that reports the live graph is allowed only until the call
      publishes. */
  lemma LiveGraphIsExcusedUntilPublished(start: System, events: seq<Event>, c: Check)
    requires Fresh(start) && AllowsMismatch(After(start, events).file, c)
    requires After(start, events).call.Some? && After(start, events).call.value.begun.Started?
    ensures var s := After(start, events);
            var h := s.call.value.begun.handoff;
            && c.actual == h.source && c.expected == h.target == s.call.value.request.graph.signature
            && (c.actual == s.world.graph.signature <==> !s.call.value.published)
            && (c.expected == s.world.graph.signature <==> s.call.value.published)
  {
    CallsAreTruthful(start, events);
  }

  /** The hypothesis about the clean-up is needed: a handoff that could not be removed excuses the old
      graph although no reload is under way. */
  lemma LeftoverExcuses()
    ensures exists start, events, c :: Fresh(start) && After(start, events).call.None?
                                    && AllowsMismatch(After(start, events).file, c)
                                    && c.actual == After(start, events).world.graph.signature
  {
    var lease := Lease(1, "i", 1, true, "a");
    var start := System(Daemon(1, "i"), World(Some(lease), None, Graph(1, "a"), Some(lease)), Missing, None);
    var e := Began("p", Request(Graph(2, "b"), true, None), Some(0.0), false);
    var events := [e, Ended(true)];
    var c := Check("p", "b", "a", Some(1.0), Inspected(Some(lease), true, true));
    assert events[..1] == [e] && [e][..0] == [];
    assert After(start, [e]) == Next(After(start, []), e);
    assert After(start, events) == Next(After(start, [e]), Ended(true));
    assert AllowsMismatch(After(start, events).file, c);
  }

  // ----- the locked pipeline ------------------------------------------------------------------------

  /** How a stage before publishing ends. */
  datatype Stage = Ready | NotReady | Raises

  datatype Exit = Returned(outcome: Outcome) | Propagated

  /** One call of the locked apply: the gates, the stages, the request, and what may fail. */
  datatype Call = Call(project: string, now: Option<real>, accepted: bool, saveFault: bool, clearFault: bool,
                       buildGraph: Stage, namespacePatch: Stage, runtimeMount: Stage, request: Request, faults: Faults)

  predicate AllReady(c: Call) { !c.buildGraph.Raises? && c.namespacePatch.Ready? && c.runtimeMount.Ready? }

  /** The steps of one call. */
  function CallEvents(c: Call): seq<Event> {
    if !c.accepted then []
    else [Began(c.project, c.request, c.now, c.saveFault)]
         + (if AllReady(c) then [Tried(c.faults)] else [])
         + [Ended(c.clearFault)]
  }

  lemma AfterCall(s: System, c: Call)
    requires c.accepted
    ensures var t := Next(s, Began(c.project, c.request, c.now, c.saveFault));
            After(s, CallEvents(c)) == Next(if AllReady(c) then Next(t, Tried(c.faults)) else t, Ended(c.clearFault))
  {
    var b, e := Began(c.project, c.request, c.now, c.saveFault), Ended(c.clearFault);
    assert After(s, [b]) == Next(s, b) by { assert [b][..0] == [] && After(s, []) == s; }
    if AllReady(c) {
      assert [b, Tried(c.faults)][..1] == [b];
      assert CallEvents(c) == [b, Tried(c.faults), e] && CallEvents(c)[..2] == [b, Tried(c.faults)];
    } else {
      assert CallEvents(c) == [b, e] && CallEvents(c)[..1] == [b];
    }
  }

  class ReloadService {
    const app: ReloadApp
    var file: File

    constructor (app: ReloadApp)
      ensures this.app == app && file == Missing
    {
      this.app := app;
      file := Missing;
    }

    /** The body of the `try` block. */
    method RunStages(c: Call) returns (exit: Exit)
      modifies app`lease, app`lifecycle, app`graph, app`cached
      ensures c.buildGraph.Raises? || !c.namespacePatch.Ready? || !c.runtimeMount.Ready? ==>
                app.State() == old(app.State()) && (exit.Propagated? || exit == Returned(Outcome(Failed, false)))
      ensures exit.Propagated? <==>
                || c.buildGraph.Raises? || c.namespacePatch.Raises?
                || (c.namespacePatch.Ready? && c.runtimeMount.Raises?)
      ensures !c.buildGraph.Raises? && c.namespacePatch.Ready? && c.runtimeMount.Ready? ==>
                var (w, outcome) := Transact(app.daemon, old(app.State()), c.request.(stagesDone := true), c.faults);
                app.State() == w && exit == Returned(outcome)
      ensures exit == Returned(Outcome(Published, true)) ==> app.graph == c.request.graph && Agree(app.State())
      ensures exit != Returned(Outcome(Published, true)) ==> app.graph == old(app.graph)
      ensures old(Agree(app.State())) && exit.Returned? && !exit.outcome.written && !c.faults.report ==>
                Agree(app.State())
    {
      if c.buildGraph.Raises? { return Propagated; }
      if c.namespacePatch.Raises? { return Propagated; }
      if c.namespacePatch.NotReady? { return Returned(Outcome(Failed, false)); }
      if c.runtimeMount.Raises? { return Propagated; }
      if c.runtimeMount.NotReady? { return Returned(Outcome(Failed, false)); }
      var q := c.request.(stagesDone := true);
      TransactIsAtomicOnTheGraph(app.daemon, app.State(), q, c.faults);
      if Agree(app.State()) {
        ReportIsExact(app.daemon, app.State(), q, c.faults);
      }
      var outcome := app.PublishTransaction(q, c.faults);
      return Returned(outcome);
    }

    /** Every exit of the locked apply, by return or by exception, removes the handoff that this call
        wrote; a call that wrote none leaves the file alone. */
    method RunLocked(c: Call) returns (exit: Exit)
      modifies this`file, app`lease, app`lifecycle, app`graph, app`cached
      ensures var s := After(System(app.daemon, old(app.State()), old(file), None), CallEvents(c));
              app.State() == s.world && file == s.file && s.call.None?
      ensures var begun := BeginFor(old(app.State()), c.project, c.request.graph.signature, c.now);
              if c.accepted && begun.Started? && !c.saveFault
              then file == if c.clearFault then Holds(begun.handoff) else Missing
              else file == old(file)
      ensures !c.accepted ==> app.State() == old(app.State()) && exit == Returned(Outcome(Blocked, false))
      ensures c.buildGraph.Raises? || !c.namespacePatch.Ready? || !c.runtimeMount.Ready? ==>
                app.State() == old(app.State()) && exit != Returned(Outcome(Published, true))
      ensures c.accepted && !c.buildGraph.Raises? && c.namespacePatch.Ready? && c.runtimeMount.Ready? ==>
                var begun := BeginFor(old(app.State()), c.project, c.request.graph.signature, c.now);
                var (w, outcome) := Transact(app.daemon, old(app.State()), c.request.(stagesDone := true), c.faults);
                if begun.Rejected? || (begun.Started? && c.saveFault)
                then app.State() == old(app.State()) && exit == Propagated
                else app.State() == w && exit == if begun.Started? && c.clearFault then Propagated else Returned(outcome)
      ensures exit == Returned(Outcome(Published, true)) ==> app.graph == c.request.graph && Agree(app.State())
      ensures exit != Returned(Outcome(Published, true)) && !c.clearFault ==> app.graph == old(app.graph)
      ensures old(Agree(app.State())) && exit.Returned? && !exit.outcome.written && !c.faults.report ==>
                Agree(app.State())
    {
      if !c.accepted { return Returned(Outcome(Blocked, false)); }
      AfterCall(System(app.daemon, app.State(), file, None), c);
      var begun := BeginFor(app.State(), c.project, c.request.graph.signature, c.now);
      if begun.Rejected? { return Propagated; }
      if begun.Started? {
        if c.saveFault { return Propagated; }
        file := Holds(begun.handoff);
      }
      exit := RunStages(c);
      // finally
      if begun.Started? {
        if c.clearFault { return Propagated; }
        file := Missing;
      }
    }
  }
}

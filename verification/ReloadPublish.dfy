/** Publishing a reload (lib/ccbd/reload_transaction_*.py and reload_apply_publish.py): the config
    signature moves from the old to the new value in two durable stores, the lease and the
    lifecycle, and then the new service graph is published in memory.  Every write may fail, and a
    failure after the first write is answered by writing the old signature back. */
module ReloadPublish {
  import opened Wrappers

  /** A signature is a non-empty string; the empty string is a missing one. */
  type Signature = string

  datatype Lease = Lease(pid: int, instance: string, generation: int, mounted: bool, signature: Signature)

  datatype Lifecycle = Lifecycle(mounted: bool, generation: int, owner: Option<int>, instance: string,
                                 signature: Signature, epoch: Option<int>, running: bool, failure: Option<string>)

  datatype Graph = Graph(version: int, signature: Signature)

  /** The daemon that runs the transaction. */
  datatype Daemon = Daemon(pid: int, instance: string)

  /** Both stores, the published graph, and the lease object the application caches. */
  datatype World = World(lease: Option<Lease>, lifecycle: Option<Lifecycle>, graph: Graph, cached: Option<Lease>)

  /** Which operations raise.  A write that raises leaves its store as it was; `report` is a store
      read for the failure report that raises after the rollback. */
  datatype Faults = Faults(leaseWrite: bool, lifecycleWrite: bool, publish: bool,
                           lifecycleRollback: bool, leaseRollback: bool, report: bool)

  datatype Status = Published | Blocked | Failed

  /** `written` is the reported `lease_or_lifecycle_written`. */
  datatype Outcome = Outcome(status: Status, written: bool)

  /** What the reload asks for: the new graph, whether the earlier stages are done, and the
      namespace epoch to record. */
  datatype Request = Request(graph: Graph, stagesDone: bool, epoch: Option<int>)

  // ----- guarded writes ---------------------------------------------------------------

  predicate SameInstance(expected: string, found: string) { expected != "" ==> found == expected }

  predicate HoldsLease(d: Daemon, lease: Option<Lease>, generation: int) {
    && lease.Some? && lease.value.pid == d.pid && SameInstance(d.instance, lease.value.instance)
    && lease.value.generation == generation
  }

  predicate OwnsLifecycle(d: Daemon, lc: Option<Lifecycle>, generation: int) {
    && lc.Some? && lc.value.mounted && lc.value.generation == generation
    && (lc.value.owner.None? || lc.value.owner.value == d.pid)
    && SameInstance(d.instance, lc.value.instance)
  }

  /** The lease with another signature; `None` when the update raises. */
  function LeaseUpdate(d: Daemon, w: World, signature: Signature, generation: int, fault: bool): Option<Lease> {
    if fault || !HoldsLease(d, w.lease, generation) || !w.lease.value.mounted || signature == "" then None
    else Some(w.lease.value.(signature := signature))
  }

  function LifecycleUpdate(d: Daemon, w: World, signature: Signature, epoch: Option<int>, generation: int, fault: bool)
    : Option<Lifecycle>
  {
    if fault || !OwnsLifecycle(d, w.lifecycle, generation) || signature == "" then None
    else Some(w.lifecycle.value.(signature := signature, owner := Some(d.pid), instance := d.instance,
                                 epoch := if epoch.Some? then epoch else w.lifecycle.value.epoch,
                                 running := true, failure := None))
  }

  // ----- what the transaction does ------------------------------------------------------

  /** Writing the old signature back; the flag says that every attempted write succeeded. */
  function RolledBack(d: Daemon, w: World, signature: Signature, epoch: Option<int>, generation: int,
                      lifecycleToo: bool, f: Faults): (World, bool)
  {
    var lc := LifecycleUpdate(d, w, signature, epoch, generation, f.lifecycleRollback);
    var w1 := if lifecycleToo && lc.Some? then w.(lifecycle := lc) else w;
    var lease := LeaseUpdate(d, w1, signature, generation, f.leaseRollback);
    (if lease.Some? then w1.(lease := lease) else w1, (lifecycleToo ==> lc.Some?) && lease.Some?)
  }

  function ExpectedGeneration(w: World): Option<int> {
    var lease := if w.cached.Some? then w.cached else w.lease;
    if lease.Some? then Some(lease.value.generation) else None
  }

  /** The outcome of a failure that was rolled back; a report read that raises hides the rollback. */
  function FailedOutcome(complete: bool, f: Faults): Outcome { Outcome(Failed, !complete && !f.report) }

  /** The whole transaction on the world `w`. */
  function Transact(d: Daemon, w: World, q: Request, f: Faults): (World, Outcome) {
    var generation := ExpectedGeneration(w);
    if !q.stagesDone then (w, Outcome(Blocked, false))
    else if w.graph.signature == "" || q.graph.signature == "" || generation.None? then (w, Outcome(Failed, false))
    else if !HoldsLease(d, w.lease, generation.value) || !OwnsLifecycle(d, w.lifecycle, generation.value) then
      (w, Outcome(Failed, false))
    else
      var lease := LeaseUpdate(d, w, q.graph.signature, generation.value, f.leaseWrite);
      if lease.None? then (w, FailedOutcome(true, f))
      else
        var w1 := w.(lease := lease);
        var lc := LifecycleUpdate(d, w1, q.graph.signature, q.epoch, generation.value, f.lifecycleWrite);
        if lc.None? then
          var (w2, complete) := RolledBack(d, w1, w.graph.signature, q.epoch, generation.value, false, f);
          (w2, FailedOutcome(complete, f))
        else
          var w2 := w1.(lifecycle := lc, cached := lease);
          if f.publish then
            var (w3, complete) := RolledBack(d, w2, w.graph.signature, q.epoch, generation.value, true, f);
            var back := LeaseUpdate(d, w2, w.graph.signature, generation.value, f.leaseRollback);
            (if back.Some? then w3.(cached := back) else w3, FailedOutcome(complete, f))
          else (w2.(graph := q.graph), Outcome(Published, true))
  }

  // ----- the application object ------------------------------------------------------------

  class ReloadApp {
    const daemon: Daemon
    var lease: Option<Lease>
    var lifecycle: Option<Lifecycle>
    var graph: Graph
    var cached: Option<Lease>

    constructor (d: Daemon, w: World)
      ensures daemon == d && State() == w
    {
      daemon := d;
      lease, lifecycle, graph, cached := w.lease, w.lifecycle, w.graph, w.cached;
    }

    function State(): World
      reads this
    {
      World(lease, lifecycle, graph, cached)
    }

    method WriteLease(signature: Signature, generation: int, fault: bool) returns (r: Option<Lease>)
      modifies this`lease
      ensures r == LeaseUpdate(daemon, old(State()), signature, generation, fault)
      ensures r.Some? <==> && !fault && signature != "" && old(lease).Some? && old(lease).value.mounted
                           && old(lease).value.pid == daemon.pid && old(lease).value.generation == generation
                           && (daemon.instance == "" || old(lease).value.instance == daemon.instance)
      ensures r.Some? ==> r == Some(old(lease).value.(signature := signature))
      ensures lease == if r.Some? then r else old(lease)
    {
      if lease.None? || !lease.value.mounted { return None; }
      if lease.value.pid != daemon.pid || (daemon.instance != "" && lease.value.instance != daemon.instance) {
        return None;
      }
      if lease.value.generation != generation { return None; }
      if signature == "" { return None; }
      if fault { return None; }
      lease := Some(lease.value.(signature := signature));
      return lease;
    }

    method WriteLifecycle(signature: Signature, epoch: Option<int>, generation: int, fault: bool)
      returns (r: Option<Lifecycle>)
      modifies this`lifecycle
      ensures r == LifecycleUpdate(daemon, old(State()), signature, epoch, generation, fault)
      ensures r.Some? <==> && !fault && signature != "" && old(lifecycle).Some? && old(lifecycle).value.mounted
                           && old(lifecycle).value.generation == generation
                           && (old(lifecycle).value.owner.None? || old(lifecycle).value.owner == Some(daemon.pid))
                           && (daemon.instance == "" || old(lifecycle).value.instance == daemon.instance)
      ensures r.Some? ==> && r.value.signature == signature && r.value.mounted && r.value.generation == generation
                          && r.value.owner == Some(daemon.pid) && r.value.instance == daemon.instance
                          && r.value.epoch == (if epoch.Some? then epoch else old(lifecycle).value.epoch)
                          && r.value.running && r.value.failure.None?
      ensures lifecycle == if r.Some? then r else old(lifecycle)
    {
      if !OwnsLifecycle(daemon, lifecycle, generation) { return None; }
      if signature == "" { return None; }
      var epoch' := if epoch.Some? then epoch else lifecycle.value.epoch;
      var updated := lifecycle.value.(signature := signature, owner := Some(daemon.pid), instance := daemon.instance,
                                      epoch := epoch', running := true, failure := None);
      if fault { return None; }
      lifecycle := Some(updated);
      return lifecycle;
    }

    /** Writes the old signature back, lifecycle first; errors are recorded, not raised. */
    method RollbackSignatures(signature: Signature, epoch: Option<int>, generation: int, lifecycleToo: bool, f: Faults)
      returns (complete: bool, back: Option<Lease>)
      modifies this`lease, this`lifecycle
      ensures (State(), complete) == RolledBack(daemon, old(State()), signature, epoch, generation, lifecycleToo, f)
      ensures back == LeaseUpdate(daemon, old(State()), signature, generation, f.leaseRollback)
    {
      complete := true;
      if lifecycleToo {
        var lc := WriteLifecycle(signature, epoch, generation, f.lifecycleRollback);
        if lc.None? {
          complete := false;
        }
      }
      back := WriteLease(signature, generation, f.leaseRollback);
      if back.None? {
        complete := false;
      }
    }

    method PublishTransaction(q: Request, f: Faults) returns (r: Outcome)
      modifies this`lease, this`lifecycle, this`graph, this`cached
      ensures (State(), r) == Transact(daemon, old(State()), q, f)
    {
      if !q.stagesDone { return Outcome(Blocked, false); }
      var oldSignature := graph.signature;
      if oldSignature == "" || q.graph.signature == "" { return Outcome(Failed, false); }
      var generation := ExpectedGeneration(State());
      if generation.None? { return Outcome(Failed, false); }
      if !HoldsLease(daemon, lease, generation.value) || !OwnsLifecycle(daemon, lifecycle, generation.value) {
        return Outcome(Failed, false);
      }
      var newLease := WriteLease(q.graph.signature, generation.value, f.leaseWrite);
      if newLease.None? {
        return FailedOutcome(true, f);
      }
      var newLifecycle := WriteLifecycle(q.graph.signature, q.epoch, generation.value, f.lifecycleWrite);
      if newLifecycle.None? {
        var complete, _ := RollbackSignatures(oldSignature, q.epoch, generation.value, false, f);
        return FailedOutcome(complete, f);
      }
      cached := newLease;
      if f.publish {
        var complete, back := RollbackSignatures(oldSignature, q.epoch, generation.value, true, f);
        if back.Some? {
          cached := back;
        }
        return FailedOutcome(complete, f);
      }
      graph := q.graph;
      return Outcome(Published, true);
    }
  }

  // ----- agreement ----------------------------------------------------------------------------

  predicate Carries(w: World, signature: Signature) {
    && w.lease.Some? && w.lease.value.signature == signature
    && w.lifecycle.Some? && w.lifecycle.value.signature == signature
  }

  /** Lease, lifecycle and published graph name the same configuration. */
  predicate Agree(w: World) { Carries(w, w.graph.signature) }

  /** Whatever the world and the faults: `Published` puts the new signature everywhere, anything else
      keeps the old graph; and the holder, generation and mount state of the lease never change. */
  lemma TransactIsAtomicOnTheGraph(d: Daemon, w: World, q: Request, f: Faults)
    ensures var (w', r) := Transact(d, w, q, f);
            && (r.status.Published? ==> w'.graph == q.graph && Agree(w') && w'.cached == w'.lease)
            && (!r.status.Published? ==> w'.graph == w.graph)
            && (w'.lease.Some? <==> w.lease.Some?)
            && (w.lease.Some? ==> w'.lease.value.(signature := w.lease.value.signature) == w.lease.value)
  {
  }

  /** From agreement, the report tells the truth except when a report read raises: agreement is kept
      exactly when the report says that nothing was left written, or the graph was published. */
  lemma ReportIsExact(d: Daemon, w: World, q: Request, f: Faults)
    requires Agree(w)
    ensures var (w', r) := Transact(d, w, q, f);
            && (!r.status.Published? && !r.written && !f.report ==> Carries(w', w.graph.signature))
            && (!r.status.Published? && r.written ==>
                  w'.lease.value.signature == q.graph.signature || w'.lifecycle.value.signature == q.graph.signature)
            && (!f.report && q.graph.signature != w.graph.signature ==>
                  (Agree(w') <==> r.status.Published? || !r.written))
            && (!r.status.Published? && r.written ==> f.leaseRollback || f.lifecycleRollback)
  {
  }

  /** A transaction publishes if and only if the earlier stages are done, both signatures are known, the lease
      is mounted and held by this daemon at the generation the application goes by, the lifecycle is mounted and
      its own at that generation, and no write and not the publication itself fails. */
  lemma PublishesIff(d: Daemon, w: World, q: Request, f: Faults)
    ensures Transact(d, w, q, f).1.status.Published?
       <==> && q.stagesDone && w.graph.signature != "" && q.graph.signature != ""
            && w.lease.Some? && w.lease.value.mounted && w.lease.value.pid == d.pid
            && (d.instance == "" || w.lease.value.instance == d.instance)
            && (w.cached.Some? ==> w.cached.value.generation == w.lease.value.generation)
            && w.lifecycle.Some? && w.lifecycle.value.mounted
            && w.lifecycle.value.generation == w.lease.value.generation
            && (w.lifecycle.value.owner.None? || w.lifecycle.value.owner == Some(d.pid))
            && (d.instance == "" || w.lifecycle.value.instance == d.instance)
            && !f.leaseWrite && !f.lifecycleWrite && !f.publish
    ensures Transact(d, w, q, f).1.status.Blocked? <==> !q.stagesDone
    ensures Transact(d, w, q, f).1.status.Published? ==> Transact(d, w, q, f).1.written
  {
  }

  /** The preflight passes and the lease takes the new signature. */
  predicate Begins(d: Daemon, w: World, q: Request, f: Faults) {
    var generation := ExpectedGeneration(w);
    && q.stagesDone && w.graph.signature != "" && q.graph.signature != "" && generation.Some?
    && HoldsLease(d, w.lease, generation.value) && OwnsLifecycle(d, w.lifecycle, generation.value)
    && w.lease.value.mounted && !f.leaseWrite
  }

  /** A write fails after the lease was written, and so does a write of the rollback. */
  predicate Torn(d: Daemon, w: World, q: Request, f: Faults) {
    && Begins(d, w, q, f) && q.graph.signature != w.graph.signature
    && if f.lifecycleWrite then f.leaseRollback else f.publish && (f.leaseRollback || f.lifecycleRollback)
  }

  /** Agreement is lost exactly in a torn transaction; and the report "nothing written" is false exactly
      when the transaction is torn and the read for the report raises. */
  lemma HiddenRollback(d: Daemon, w: World, q: Request, f: Faults)
    requires Agree(w)
    ensures var (w', r) := Transact(d, w, q, f);
            && (Agree(w') <==> !Torn(d, w, q, f))
            && (!r.written && !Carries(w', w.graph.signature) <==> Torn(d, w, q, f) && f.report)
  {
  }

  /** The lifecycle after it was written and written back: these fields keep what the new write put there. */
  function Rewritten(d: Daemon, lc: Lifecycle, epoch: Option<int>): Lifecycle {
    lc.(owner := Some(d.pid), instance := d.instance, epoch := if epoch.Some? then epoch else lc.epoch,
        running := true, failure := None)
  }

  /** What a failed attempt leaves when its rollback is complete: lease and graph are the old ones; the
      lifecycle too, unless it was written before publishing failed, and then all but its signature,
      mount state and generation is as the attempt wrote it. */
  lemma RollbackRestores(d: Daemon, w: World, q: Request, f: Faults)
    requires Agree(w) && !Torn(d, w, q, f) && !Transact(d, w, q, f).1.status.Published?
    ensures var w' := Transact(d, w, q, f).0;
            && w'.graph == w.graph && w'.lease == w.lease
            && w'.lifecycle == if Begins(d, w, q, f) && !f.lifecycleWrite
                               then Some(Rewritten(d, w.lifecycle.value, q.epoch)) else w.lifecycle
  {
  }

  /** An epoch that is not restored. */
  lemma RollbackKeepsNewEpoch()
    ensures exists d, w, q, f :: Agree(w) && Transact(d, w, q, f).1 == Outcome(Failed, false) && !f.report
                              && Transact(d, w, q, f).0.lifecycle.Some? && w.lifecycle.Some?
                              && Transact(d, w, q, f).0.lifecycle.value.epoch != w.lifecycle.value.epoch
  {
    var d := Daemon(1, "i");
    var lease := Lease(1, "i", 1, true, "a");
    var w := World(Some(lease), Some(Lifecycle(true, 1, Some(1), "i", "a", Some(1), true, None)), Graph(1, "a"), Some(lease));
    var q := Request(Graph(2, "b"), true, Some(2));
    var f := Faults(false, false, true, false, false, false);
    assert Agree(w) && Transact(d, w, q, f).1 == Outcome(Failed, false);
    RollbackRestores(d, w, q, f);
    assert Transact(d, w, q, f).0.lifecycle.value.epoch == Some(2);
  }

  /** Such a false report is reachable: publishing fails, the lease cannot be rolled back, and the
      read for the report raises. */
  lemma FalseReportExists()
    ensures exists d, w, q, f :: Agree(w) && Transact(d, w, q, f).1 == Outcome(Failed, false)
                              && Transact(d, w, q, f).0.lease != w.lease && !Agree(Transact(d, w, q, f).0)
  {
    var d := Daemon(1, "i");
    var lease := Lease(1, "i", 1, true, "a");
    var w := World(Some(lease), Some(Lifecycle(true, 1, Some(1), "i", "a", None, true, None)), Graph(1, "a"), Some(lease));
    var q := Request(Graph(2, "b"), true, None);
    var f := Faults(false, false, true, false, true, true);
    assert Agree(w) && Transact(d, w, q, f).1 == Outcome(Failed, false);
    assert Transact(d, w, q, f).0.lease == Some(lease.(signature := "b"));
  }

  // ----- runs of reloads -------------------------------------------------------------------------

  datatype Attempt = Attempt(request: Request, faults: Faults)

  function Run(d: Daemon, w: World, attempts: seq<Attempt>): World {
    if attempts == [] then w
    else
      var last := attempts[|attempts| - 1];
      Transact(d, Run(d, w, attempts[..|attempts| - 1]), last.request, last.faults).0
  }

  function ResultOf(d: Daemon, w: World, attempts: seq<Attempt>, i: nat): Outcome
    requires i < |attempts|
  {
    Transact(d, Run(d, w, attempts[..i]), attempts[i].request, attempts[i].faults).1
  }

  /** The graph of the last published attempt. */
  function LastPublished(d: Daemon, w: World, attempts: seq<Attempt>): Graph {
    if attempts == [] then w.graph
    else
      var n := |attempts| - 1;
      if ResultOf(d, w, attempts, n).status.Published? then attempts[n].request.graph
      else LastPublished(d, w, attempts[..n])
  }

  /** In every run of reloads the published graph is the last one reported as published; and if every
      failed attempt reported a complete rollback, both stores agree with it at the end. */
  lemma {:induction false} RunKeepsAgreement(d: Daemon, w: World, attempts: seq<Attempt>)
    requires Agree(w)
    ensures Run(d, w, attempts).graph == LastPublished(d, w, attempts)
    ensures (forall i :: 0 <= i < |attempts| ==>
               !attempts[i].faults.report
               && (ResultOf(d, w, attempts, i).status.Published? || !ResultOf(d, w, attempts, i).written))
            ==> Agree(Run(d, w, attempts))
  {
    if attempts != [] {
      var n := |attempts| - 1;
      var init, last := attempts[..n], attempts[n];
      RunKeepsAgreement(d, w, init);
      var before := Run(d, w, init);
      TransactIsAtomicOnTheGraph(d, before, last.request, last.faults);
      if forall i :: 0 <= i < |attempts| ==>
           !attempts[i].faults.report
           && (ResultOf(d, w, attempts, i).status.Published? || !ResultOf(d, w, attempts, i).written)
      {
        forall i | 0 <= i < n
          ensures init[i] == attempts[i] && ResultOf(d, w, init, i) == ResultOf(d, w, attempts, i)
        {
          assert init[..i] == attempts[..i];
        }
        ReportIsExact(d, before, last.request, last.faults);
        assert !attempts[n].faults.report;
      }
    }
  }

  /** Stated over the inputs: while no attempt is torn, the stores agree with the graph. */
  lemma {:induction false} UntornRunAgrees(d: Daemon, w: World, attempts: seq<Attempt>)
    requires Agree(w)
    requires forall i :: 0 <= i < |attempts| ==> !Torn(d, Run(d, w, attempts[..i]), attempts[i].request, attempts[i].faults)
    ensures Agree(Run(d, w, attempts))
  {
    if attempts != [] {
      var n := |attempts| - 1;
      var init := attempts[..n];
      forall i | 0 <= i < n ensures !Torn(d, Run(d, w, init[..i]), init[i].request, init[i].faults) {
        assert init[..i] == attempts[..i];
      }
      UntornRunAgrees(d, w, init);
      HiddenRollback(d, Run(d, w, init), attempts[n].request, attempts[n].faults);
    }
  }

  /** Stores and graph agree after every attempt of a run if and only if no attempt is torn. */
  lemma AgreesThroughoutIff(d: Daemon, w: World, attempts: seq<Attempt>)
    requires Agree(w)
    ensures (forall k :: 0 <= k <= |attempts| ==> Agree(Run(d, w, attempts[..k])))
       <==> (forall i :: 0 <= i < |attempts| ==> !Torn(d, Run(d, w, attempts[..i]), attempts[i].request, attempts[i].faults))
  {
    if forall k :: 0 <= k <= |attempts| ==> Agree(Run(d, w, attempts[..k])) {
      forall i | 0 <= i < |attempts|
        ensures !Torn(d, Run(d, w, attempts[..i]), attempts[i].request, attempts[i].faults)
      {
        assert attempts[..i + 1][..i] == attempts[..i];
        assert Agree(Run(d, w, attempts[..i + 1]));
        HiddenRollback(d, Run(d, w, attempts[..i]), attempts[i].request, attempts[i].faults);
      }
    }
    if forall i :: 0 <= i < |attempts| ==> !Torn(d, Run(d, w, attempts[..i]), attempts[i].request, attempts[i].faults) {
      forall k | 0 <= k <= |attempts| ensures Agree(Run(d, w, attempts[..k])) {
        var prefix := attempts[..k];
        forall i | 0 <= i < k ensures !Torn(d, Run(d, w, prefix[..i]), prefix[i].request, prefix[i].faults) {
          assert prefix[..i] == attempts[..i];
        }
        UntornRunAgrees(d, w, prefix);
      }
    }
  }

  /** A published attempt repairs any disagreement that an earlier incomplete rollback left. */
  lemma PublishRepairs(d: Daemon, w: World, attempts: seq<Attempt>)
    requires attempts != [] && ResultOf(d, w, attempts, |attempts| - 1).status.Published?
    ensures Agree(Run(d, w, attempts))
    ensures Run(d, w, attempts).graph == attempts[|attempts| - 1].request.graph
  {
    var n := |attempts| - 1;
    TransactIsAtomicOnTheGraph(d, Run(d, w, attempts[..n]), attempts[n].request, attempts[n].faults);
  }
}

/** The drain queue of lib/ccbd/reload_drain.py: intents to unload or replace an agent wait, with
    deadlines, until the agent is idle.  Times are seconds. */
module ReloadDrain {
  import opened Wrappers

  datatype Bounds = Bounds(maxPending: int, timeout: real, maxAge: real)

  predicate ValidBounds(b: Bounds) { b.maxPending > 0 && b.timeout > 0.0 && b.maxAge > 0.0 }

  datatype IntentKind = Unload | Replace

  datatype Intent = Intent(id: string, kind: IntentKind, agent: string, createdAt: real)

  datatype Phase = PendingUnload | PendingReplace | Draining | Retiring | Gone | Refused

  datatype Status = Pending | Waiting | IdleReady | TimedOut | RejectedQueueFull | Retired

  datatype Record = Record(intent: Intent, phase: Phase, status: Status, createdAt: real, updatedAt: real,
                           deadline: real, maxAgeDeadline: real, busy: Option<bool>, transitions: nat)

  datatype Queue = Queue(bounds: Bounds, records: seq<Record>)

  predicate Terminal(r: Record) { r.status.TimedOut? || r.status.RejectedQueueFull? || r.status.Retired? }

  // ----- records -----------------------------------------------------------------------

  function NewRecord(intent: Intent, b: Bounds, now: real): Record {
    Record(intent, if intent.kind.Unload? then PendingUnload else PendingReplace, Pending, now, now,
           now + b.timeout, intent.createdAt + b.maxAge, None, 0)
  }

  function Moved(r: Record, phase: Phase, status: Status, now: real, busy: Option<bool>): Record {
    r.(phase := phase, status := status, updatedAt := now, busy := busy, transitions := r.transitions + 1)
  }

  function PlanTransition(r: Record, now: real, busy: bool): Record {
    if Terminal(r) then r
    else if r.status.IdleReady? then r
    else if now >= r.maxAgeDeadline then Moved(r, Draining, TimedOut, now, None)
    else if now >= r.deadline then Moved(r, Draining, TimedOut, now, None)
    else if busy then Moved(r, Draining, Waiting, now, Some(true))
    else Moved(r, Retiring, IdleReady, now, Some(false))
  }

  function RetireRecord(r: Record, now: real): Record {
    if r.status.Retired? then r
    else if !r.status.IdleReady? then r
    else Moved(r, Gone, Retired, now, Some(false))
  }

  // ----- the life of one record ----------------------------------------------------------

  datatype Event = Plan(now: real, busy: bool) | Retire(now: real)

  function Apply(r: Record, e: Event): Record {
    match e
    case Plan(now, busy) => PlanTransition(r, now, busy)
    case Retire(now) => RetireRecord(r, now)
  }

  function Life(r: Record, events: seq<Event>): Record {
    if events == [] then r else Apply(Life(r, events[..|events| - 1]), events[|events| - 1])
  }

  /** The earlier of the two deadlines. */
  function Due(r: Record): real { if r.deadline < r.maxAgeDeadline then r.deadline else r.maxAgeDeadline }

  function Rank(s: Status): nat {
    match s
    case Pending => 0
    case Waiting => 1
    case IdleReady => 2
    case _ => 3
  }

  /** The first `n` events: whenever planning looked, the agent was busy and it was in time. */
  ghost predicate OnlyWaited(events: seq<Event>, n: nat, due: real)
    requires n <= |events|
  {
    forall k :: 0 <= k < n && events[k].Plan? ==> events[k].busy && events[k].now < due
  }

  /** Event `i` is the first that decides: every plan before it found the agent busy in time. */
  ghost predicate Decides(events: seq<Event>, i: nat, due: real) {
    && i < |events| && events[i].Plan? && OnlyWaited(events, i, due)
    && (events[i].now >= due || !events[i].busy)
  }

  /** What a record's status says about the events so far. */
  ghost predicate StatusTells(s: Status, events: seq<Event>, due: real) {
    match s
    case Pending => forall k :: 0 <= k < |events| ==> events[k].Retire?
    case Waiting => OnlyWaited(events, |events|, due) && exists k :: 0 <= k < |events| && events[k].Plan?
    case TimedOut => exists i: nat :: Decides(events, i, due) && events[i].now >= due
    case IdleReady =>
      exists i: nat :: Decides(events, i, due) && events[i].now < due && forall j :: i < j < |events| ==> events[j].Plan?
    case Retired =>
      exists i: nat, j: nat :: Decides(events, i, due) && events[i].now < due && i < j < |events| && events[j].Retire?
    case RejectedQueueFull => false
  }

  lemma DecidesExtends(events: seq<Event>, e: Event, i: nat, due: real)
    requires Decides(events, i, due)
    ensures Decides(events + [e], i, due) && (events + [e])[i] == events[i]
  {
  }

  lemma ApplyOnce(r: Record, e: Event)
    ensures Apply(r, e).intent == r.intent && Due(Apply(r, e)) == Due(r)
    ensures Rank(r.status) <= Rank(Apply(r, e).status)
    ensures Terminal(r) ==> Apply(r, e) == r
  {
  }

  lemma TellsStep(s: Record, events: seq<Event>, e: Event, due: real)
    requires StatusTells(s.status, events, due) && Due(s) == due
    ensures StatusTells(Apply(s, e).status, events + [e], due)
  {
    var more, n := events + [e], |events|;
    var next := Apply(s, e).status;
    match s.status {
      case Pending =>
        if next.IdleReady? || next.TimedOut? {
          assert Decides(more, n, due);
        } else if next.Waiting? {
          assert more[n].Plan?;
        }
      case Waiting =>
        if next.IdleReady? || next.TimedOut? {
          assert Decides(more, n, due);
        } else {
          var k :| 0 <= k < |events| && events[k].Plan?;
          assert more[k].Plan?;
        }
      case TimedOut =>
        var i: nat :| Decides(events, i, due) && events[i].now >= due;
        DecidesExtends(events, e, i, due);
      case IdleReady =>
        var i: nat :| Decides(events, i, due) && events[i].now < due && forall j :: i < j < |events| ==> events[j].Plan?;
        DecidesExtends(events, e, i, due);
        assert next.Retired? ==> more[n].Retire?;
      case Retired =>
        var i: nat, j: nat :| Decides(events, i, due) && events[i].now < due && i < j < |events| && events[j].Retire?;
        DecidesExtends(events, e, i, due);
        assert more[j].Retire?;
      case RejectedQueueFull =>
    }
  }

  lemma {:induction false} LifeTells(intent: Intent, b: Bounds, start: real, events: seq<Event>)
    ensures var r := Life(NewRecord(intent, b, start), events);
            && r.intent == intent && Due(r) == Due(NewRecord(intent, b, start))
            && StatusTells(r.status, events, Due(r))
  {
    var r0 := NewRecord(intent, b, start);
    if events != [] {
      var init, last := events[..|events| - 1], events[|events| - 1];
      LifeTells(intent, b, start, init);
      ApplyOnce(Life(r0, init), last);
      TellsStep(Life(r0, init), init, last, Due(r0));
      assert init + [last] == events;
    }
  }

  /** Two statuses never tell the same story, so `StatusTells` determines the status. */
  lemma StatusIsDetermined(s: Status, t: Status, events: seq<Event>, due: real)
    requires StatusTells(s, events, due) && StatusTells(t, events, due)
    ensures s == t
  {
    assert forall i: nat, j: nat :: Decides(events, i, due) && Decides(events, j, due) ==> i == j;
    assert forall i: nat :: Decides(events, i, due) ==> !OnlyWaited(events, |events|, due);
  }

  /** The status of a record after any run says exactly what happened: it timed out if and only if the
      first deciding plan came at or after the earlier deadline, it was retired if and only if that plan
      found the agent idle strictly before both deadlines and a retire step followed, and so on. */
  lemma StatusExactly(intent: Intent, b: Bounds, start: real, events: seq<Event>, s: Status)
    ensures Life(NewRecord(intent, b, start), events).status == s
            <==> StatusTells(s, events, Due(NewRecord(intent, b, start)))
  {
    LifeTells(intent, b, start, events);
    if StatusTells(s, events, Due(NewRecord(intent, b, start))) {
      StatusIsDetermined(s, Life(NewRecord(intent, b, start), events).status, events, Due(NewRecord(intent, b, start)));
    }
  }

  /** Status rank never falls along a run, and a terminal record never changes again. */
  lemma {:induction false} LifeNeverFallsBack(r: Record, events: seq<Event>, k: nat)
    requires k <= |events|
    ensures Rank(Life(r, events[..k]).status) <= Rank(Life(r, events).status)
    ensures Terminal(Life(r, events[..k])) ==> Life(r, events) == Life(r, events[..k])
  {
    if k == |events| {
      assert events[..k] == events;
    } else {
      var init := events[..|events| - 1];
      LifeNeverFallsBack(r, init, k);
      assert init[..k] == events[..k];
      ApplyOnce(Life(r, init), events[|events| - 1]);
    }
  }

  /** Once idle-ready, planning alone never ends a record, however late it is. */
  lemma {:induction false} IdleReadyNeverTimesOut(r: Record, events: seq<Event>)
    requires r.status.IdleReady? && forall k :: 0 <= k < |events| ==> events[k].Plan?
    ensures Life(r, events) == r
  {
    if events != [] {
      IdleReadyNeverTimesOut(r, events[..|events| - 1]);
    }
  }

  // ----- the queue -----------------------------------------------------------------------

  function PendingCount(rs: seq<Record>): nat {
    if rs == [] then 0 else PendingCount(rs[..|rs| - 1]) + (if Terminal(rs[|rs| - 1]) then 0 else 1)
  }

  datatype EnqueueResult = EnqueueResult(queue: Queue, record: Record, accepted: bool)

  function Enqueue(q: Queue, intent: Intent, now: real): EnqueueResult {
    if now > intent.createdAt + q.bounds.maxAge then
      EnqueueResult(q, Moved(NewRecord(intent, q.bounds, now), Draining, TimedOut, now, None), false)
    else if PendingCount(q.records) >= q.bounds.maxPending then
      EnqueueResult(q, NewRecord(intent, q.bounds, now).(phase := Refused, status := RejectedQueueFull), false)
    else
      var r := NewRecord(intent, q.bounds, now);
      EnqueueResult(q.(records := q.records + [r]), r, true)
  }

  /** A new record waits for its timeout from now and for its age from the intent's creation. */
  lemma NewRecordIsDue(intent: Intent, b: Bounds, now: real)
    ensures var r := NewRecord(intent, b, now);
      && r.intent == intent && r.status == Pending && r.phase == (if intent.kind == Unload then PendingUnload else PendingReplace)
      && r.deadline == now + b.timeout && r.maxAgeDeadline == intent.createdAt + b.maxAge
      && Due(r) == if now + b.timeout < intent.createdAt + b.maxAge then now + b.timeout else intent.createdAt + b.maxAge
  {
  }

  /** An intent enters the queue, at its end, exactly when it is not older than the maximum age and fewer
      records than the bound are pending; one that is too old counts as timed out, one too many as rejected. */
  lemma EnqueuesIff(q: Queue, intent: Intent, now: real)
    ensures var e := Enqueue(q, intent, now);
      && (e.accepted <==> now - intent.createdAt <= q.bounds.maxAge && PendingCount(q.records) < q.bounds.maxPending)
      && (e.accepted ==> e.queue == q.(records := q.records + [e.record]) && e.record == NewRecord(intent, q.bounds, now))
      && (!e.accepted ==> e.queue == q && e.record.intent == intent)
      && (e.record.status == TimedOut <==> now - intent.createdAt > q.bounds.maxAge)
      && (e.record.status == RejectedQueueFull <==>
            now - intent.createdAt <= q.bounds.maxAge && PendingCount(q.records) >= q.bounds.maxPending)
  {
  }

  /** Every record with the updated record's id is overwritten. */
  function Overwritten(rs: seq<Record>, u: Record): (r: seq<Record>)
    ensures |r| == |rs|
  {
    seq(|rs|, i requires 0 <= i < |rs| => if rs[i].intent.id == u.intent.id then u else rs[i])
  }

  method ReplaceRecord(q: Queue, updated: Record) returns (q': Queue)
    ensures q' == q.(records := Overwritten(q.records, updated))
  {
    var records: seq<Record> := [];
    var replaced := false;
    for i := 0 to |q.records|
      invariant records == Overwritten(q.records[..i], updated)
      invariant !replaced ==> records == q.records[..i]
    {
      if q.records[i].intent.id == updated.intent.id {
        records := records + [updated];
        replaced := true;
      } else {
        records := records + [q.records[i]];
      }
    }
    assert q.records[..|q.records|] == q.records;
    if !replaced { return q; }
    return q.(records := records);
  }

  predicate BlocksNewWork(q: Queue, agent: string) {
    exists r :: r in q.records && r.intent.agent == agent && !Terminal(r)
  }

  function CountId(rs: seq<Record>, id: string, terminal: bool): nat {
    if rs == [] then 0
    else
      var r := rs[|rs| - 1];
      CountId(rs[..|rs| - 1], id, terminal) + (if r.intent.id == id && Terminal(r) == terminal then 1 else 0)
  }

  /** Overwriting with a live record revives the terminal records of that id; overwriting with a
      terminal one ends the live ones. */
  lemma {:induction false} OverwrittenCount(rs: seq<Record>, u: Record)
    ensures PendingCount(Overwritten(rs, u))
         == if Terminal(u) then PendingCount(rs) - CountId(rs, u.intent.id, false)
            else PendingCount(rs) + CountId(rs, u.intent.id, true)
  {
    if rs != [] {
      var init := rs[..|rs| - 1];
      OverwrittenCount(init, u);
      assert Overwritten(rs, u)[..|rs| - 1] == Overwritten(init, u);
    }
  }

  /** One transition keeps the bound if and only if it ends the record, or the queue has room for
      every terminal record that shares its id. */
  lemma TransitionKeepsBound(q: Queue, i: nat, e: Event)
    requires i < |q.records| && PendingCount(q.records) <= q.bounds.maxPending
    ensures var u := Apply(q.records[i], e);
            PendingCount(Overwritten(q.records, u)) <= q.bounds.maxPending
            <==> Terminal(u) || PendingCount(q.records) + CountId(q.records, u.intent.id, true) <= q.bounds.maxPending
  {
    OverwrittenCount(q.records, Apply(q.records[i], e));
  }

  // ----- runs of a queue -------------------------------------------------------------------

  /** An intent arrives, or the record at an index is planned or retired and put back. */
  datatype Step = Arrive(intent: Intent, now: real) | Advance(index: nat, event: Event)

  function Take(q: Queue, s: Step): Queue {
    match s
    case Arrive(intent, now) => Enqueue(q, intent, now).queue
    case Advance(i, e) =>
      if i < |q.records| then q.(records := Overwritten(q.records, Apply(q.records[i], e))) else q
  }

  function RunQueue(b: Bounds, steps: seq<Step>): Queue {
    if steps == [] then Queue(b, []) else Take(RunQueue(b, steps[..|steps| - 1]), steps[|steps| - 1])
  }

  ghost predicate DistinctIds(rs: seq<Record>) {
    forall i, j :: 0 <= i < j < |rs| ==> rs[i].intent.id != rs[j].intent.id
  }

  /** The intents of a run have pairwise distinct ids. */
  ghost predicate FreshIds(steps: seq<Step>) {
    forall i, j :: 0 <= i < j < |steps| && steps[i].Arrive? && steps[j].Arrive? ==> steps[i].intent.id != steps[j].intent.id
  }

  /** The ids in a queue come from the run that made it. */
  ghost predicate IdsFrom(rs: seq<Record>, steps: seq<Step>) {
    forall r :: r in rs ==> exists k :: 0 <= k < |steps| && steps[k].Arrive? && steps[k].intent.id == r.intent.id
  }

  lemma {:induction false} NoIdNoCount(rs: seq<Record>, id: string, terminal: bool)
    requires forall i :: 0 <= i < |rs| ==> rs[i].intent.id != id || Terminal(rs[i]) != terminal
    ensures CountId(rs, id, terminal) == 0
  {
    if rs != [] {
      NoIdNoCount(rs[..|rs| - 1], id, terminal);
    }
  }

  lemma OverwritesOne(rs: seq<Record>, i: nat, u: Record)
    requires i < |rs| && DistinctIds(rs) && u.intent == rs[i].intent
    ensures Overwritten(rs, u) == rs[i := u]
  {
  }

  lemma AdvanceKeeps(q: Queue, i: nat, e: Event)
    requires i < |q.records| && DistinctIds(q.records) && PendingCount(q.records) <= q.bounds.maxPending
    ensures var q' := Take(q, Advance(i, e));
            && q'.records == q.records[i := Apply(q.records[i], e)]
            && DistinctIds(q'.records) && PendingCount(q'.records) <= q.bounds.maxPending
  {
    var r := q.records[i];
    var u := Apply(r, e);
    ApplyOnce(r, e);
    OverwritesOne(q.records, i, u);
    if !Terminal(u) {
      NoIdNoCount(q.records, u.intent.id, true);
    }
    TransitionKeepsBound(q, i, e);
  }

  /** Every run whose intents have distinct ids keeps the queue within its bound. */
  lemma {:induction false} BoundHolds(b: Bounds, steps: seq<Step>)
    requires ValidBounds(b) && FreshIds(steps)
    ensures var q := RunQueue(b, steps);
            && q.bounds == b && PendingCount(q.records) <= b.maxPending
            && DistinctIds(q.records) && IdsFrom(q.records, steps)
  {
    if steps != [] {
      var n := |steps| - 1;
      var init, last := steps[..n], steps[n];
      BoundHolds(b, init);
      var q := RunQueue(b, init);
      assert steps == init + [last];
      IdsFromMore(q.records, init, last);
      match last {
        case Arrive(intent, now) => ArriveKeeps(q, init, steps, intent, now);
        case Advance(i, e) =>
          if i < |q.records| {
            AdvanceKeeps(q, i, e);
            AdvanceKeepsIds(q.records, i, e, steps);
          }
      }
    }
  }

  lemma IdsFromMore(rs: seq<Record>, steps: seq<Step>, last: Step)
    requires IdsFrom(rs, steps)
    ensures IdsFrom(rs, steps + [last])
  {
    var more := steps + [last];
    forall r | r in rs ensures exists k :: 0 <= k < |more| && more[k].Arrive? && more[k].intent.id == r.intent.id {
      var k :| 0 <= k < |steps| && steps[k].Arrive? && steps[k].intent.id == r.intent.id;
      assert more[k] == steps[k];
    }
  }

  lemma AdvanceKeepsIds(rs: seq<Record>, i: nat, e: Event, steps: seq<Step>)
    requires i < |rs| && IdsFrom(rs, steps)
    ensures IdsFrom(rs[i := Apply(rs[i], e)], steps)
  {
    ApplyOnce(rs[i], e);
    assert rs[i] in rs;
    forall r | r in rs[i := Apply(rs[i], e)]
      ensures exists k :: 0 <= k < |steps| && steps[k].Arrive? && steps[k].intent.id == r.intent.id
    {
      assert r in rs || r.intent == rs[i].intent;
    }
  }

  lemma ArriveKeeps(q: Queue, init: seq<Step>, steps: seq<Step>, intent: Intent, now: real)
    requires steps == init + [Arrive(intent, now)] && FreshIds(steps)
    requires DistinctIds(q.records) && IdsFrom(q.records, init) && IdsFrom(q.records, steps)
    requires PendingCount(q.records) <= q.bounds.maxPending
    ensures var q' := Enqueue(q, intent, now).queue;
            && PendingCount(q'.records) <= q.bounds.maxPending
            && DistinctIds(q'.records) && IdsFrom(q'.records, steps)
  {
    var r := NewRecord(intent, q.bounds, now);
    assert (q.records + [r])[..|q.records|] == q.records;
    assert steps[|init|] == Arrive(intent, now);
    forall x | x in q.records ensures x.intent.id != intent.id {
      var k :| 0 <= k < |init| && init[k].Arrive? && init[k].intent.id == x.intent.id;
      assert steps[k] == init[k];
    }
  }

  /** The hypothesis is needed: with one slot, an intent that timed out and is enqueued again under the
      same id comes back to life when the second one is planned. */
  lemma RepeatedIdBreaksBound()
    ensures exists b, steps :: ValidBounds(b) && PendingCount(RunQueue(b, steps).records) > b.maxPending
  {
    var b := Bounds(1, 10.0, 100.0);
    var x := Intent("x", Unload, "agent", 0.0);
    var s1 := [Arrive(x, 0.0)];
    var s2 := s1 + [Advance(0, Plan(10.0, true))];
    var s3 := s2 + [Arrive(x, 20.0)];
    var s4 := s3 + [Advance(1, Plan(21.0, true))];
    assert s1[..0] == [] && s2[..1] == s1 && s3[..2] == s2 && s4[..3] == s3;
    var r1 := NewRecord(x, b, 0.0);
    var r2 := Moved(r1, Draining, TimedOut, 10.0, None);
    var r3 := NewRecord(x, b, 20.0);
    var r4 := Moved(r3, Draining, Waiting, 21.0, Some(true));
    assert RunQueue(b, s1).records == [r1];
    assert Overwritten([r1], r2) == [r2];
    assert RunQueue(b, s2).records == [r2];
    assert [r2][..0] == [] && PendingCount([r2]) == 0;
    assert RunQueue(b, s3).records == [r2, r3];
    assert Overwritten([r2, r3], r4) == [r4, r4];
    assert RunQueue(b, s4).records == [r4, r4];
    assert [r4, r4][..1] == [r4] && [r4][..0] == [] && PendingCount([r4]) == 1;
  }

  /** Planning a pending or waiting record at or after its earlier deadline ends it, and every other record
      with its id; all others stay. */
  lemma OverdueEndsItsId(q: Queue, i: nat, now: real, busy: bool)
    requires i < |q.records|
    requires q.records[i].status.Pending? || q.records[i].status.Waiting?
    requires now >= Due(q.records[i])
    ensures var rs := Take(q, Advance(i, Plan(now, busy))).records;
            && |rs| == |q.records|
            && forall j :: 0 <= j < |q.records| ==>
                  if q.records[j].intent.id == q.records[i].intent.id
                  then rs[j].status.TimedOut? && rs[j].intent == q.records[i].intent
                  else rs[j] == q.records[j]
  {
  }

  /** Its agent stays blocked exactly if a live record with another id names it. */
  lemma OverdueStopsBlocking(q: Queue, i: nat, now: real, busy: bool)
    requires i < |q.records|
    requires q.records[i].status.Pending? || q.records[i].status.Waiting?
    requires now >= Due(q.records[i])
    ensures var q' := Take(q, Advance(i, Plan(now, busy)));
            var id, agent := q.records[i].intent.id, q.records[i].intent.agent;
            && |q'.records| == |q.records|
            && (forall j :: 0 <= j < |q.records| ==>
                  if q.records[j].intent.id == id then q'.records[j].status.TimedOut? else q'.records[j] == q.records[j])
            && (BlocksNewWork(q', agent)
                <==> exists j :: 0 <= j < |q.records| && q.records[j].intent.id != id && !Terminal(q.records[j])
                                 && q.records[j].intent.agent == agent)
  {
    OverdueEndsItsId(q, i, now, busy);
    StillBlockedIff(q.records, Take(q, Advance(i, Plan(now, busy))), q.records[i].intent.id, q.records[i].intent.agent);
  }

  lemma StillBlockedIff(was: seq<Record>, q: Queue, id: string, agent: string)
    requires |q.records| == |was|
    requires forall j :: 0 <= j < |was| ==>
               if was[j].intent.id == id then q.records[j].status.TimedOut? else q.records[j] == was[j]
    ensures BlocksNewWork(q, agent)
       <==> exists j :: 0 <= j < |was| && was[j].intent.id != id && !Terminal(was[j]) && was[j].intent.agent == agent
  {
    if BlocksNewWork(q, agent) {
      var r :| r in q.records && r.intent.agent == agent && !Terminal(r);
      var j :| 0 <= j < |q.records| && q.records[j] == r;
      assert was[j].intent.id != id;
    }
    if j :| 0 <= j < |was| && was[j].intent.id != id && !Terminal(was[j]) && was[j].intent.agent == agent {
      assert q.records[j] in q.records;
    }
  }
}

/** Callback edges (lib/message_bureau/callback_edges.py and facade.py): one log line per change of an
    edge.  A single edge is looked up with the backward search of the log store; the pending edges are
    collected by a forward pass that lets later lines overwrite earlier ones. */
module CallbackEdges {
  import opened Wrappers
  import opened Jsonl
  import opened JsonlStore

  datatype EdgeState = Pending | ChildCompleted | ContinuationSubmitted | Done | Failed | TimedOut

  /** The identity of an edge, the jobs it joins, its state, and the rest of the record as text. */
  datatype Edge = Edge(id: string, parentJob: string, childJob: string, childMessage: string, state: EdgeState, rest: string)

  predicate Outstanding(s: EdgeState) { s.Pending? || s.ChildCompleted? }

  /** Edge ids in the order of their first appearance: the keys of the overwritten dictionary. */
  function Ids(log: seq<Edge>): seq<string> {
    if log == [] then []
    else
      var before := Ids(log[..|log| - 1]);
      if log[|log| - 1].id in before then before else before + [log[|log| - 1].id]
  }

  function LatestEdge(log: seq<Edge>, id: string): Option<Edge> {
    if log == [] then None
    else if log[|log| - 1].id == id then Some(log[|log| - 1])
    else LatestEdge(log[..|log| - 1], id)
  }

  lemma {:induction false} LatestIsLast(log: seq<Edge>, id: string, pred: Edge -> bool)
    requires forall e :: pred(e) <==> e.id == id
    ensures forall r :: IsLast(log, pred, r) <==> r == LatestEdge(log, id)
  {
    if log != [] {
      var init, last := log[..|log| - 1], log[|log| - 1];
      LatestIsLast(init, id, pred);
      forall r: Option<Edge> ensures IsLast(log, pred, r) <==> r == LatestEdge(log, id) {
        LastOfSnoc(init, last, pred, r);
        assert init + [last] == log;
      }
    }
  }

  /** The last match of a longer log: the new line if it matches, else the earlier last match. */
  lemma LastOfSnoc(init: seq<Edge>, last: Edge, pred: Edge -> bool, r: Option<Edge>)
    ensures IsLast(init + [last], pred, r) <==> if pred(last) then r == Some(last) else IsLast(init, pred, r)
  {
    var log := init + [last];
    assert log[|init|] == last;
    assert forall i :: 0 <= i < |init| ==> log[i] == init[i];
    if r.Some? && !pred(last) && IsLast(init, pred, r) {
      var i :| 0 <= i < |init| && init[i] == r.value && pred(r.value) && forall j :: i < j < |init| ==> !pred(init[j]);
      assert log[i] == r.value;
    }
  }

  ghost predicate Unique(ids: seq<string>) {
    forall i, j :: 0 <= i < j < |ids| ==> ids[i] != ids[j]
  }

  lemma {:induction false} IdsFacts(log: seq<Edge>)
    ensures Unique(Ids(log))
    ensures forall id :: id in Ids(log) <==> LatestEdge(log, id).Some?
  {
    if log != [] {
      IdsFacts(log[..|log| - 1]);
    }
  }

  lemma {:induction false} LatestHasId(log: seq<Edge>, id: string)
    ensures LatestEdge(log, id).Some? ==> LatestEdge(log, id).value.id == id
  {
    if log != [] {
      LatestHasId(log[..|log| - 1], id);
    }
  }

  /** Ids are listed in the order in which they first occur. */
  lemma {:induction false} IdsInOrder(log: seq<Edge>, i: nat, j: nat) returns (k: nat)
    requires i < j < |Ids(log)|
    ensures k < |log| && log[k].id == Ids(log)[i] && forall m :: 0 <= m <= k ==> log[m].id != Ids(log)[j]
  {
    var init := log[..|log| - 1];
    IdsFacts(init);
    if j < |Ids(init)| {
      k := IdsInOrder(init, i, j);
    } else {
      k := FirstOf(init, Ids(init)[i]);
      forall m | 0 <= m <= k ensures log[m].id != Ids(log)[j] {
        IdsFacts(init);
        LatestKnown(init, m);
      }
    }
  }

  lemma FirstOf(log: seq<Edge>, id: string) returns (k: nat)
    requires id in Ids(log)
    ensures k < |log| && log[k].id == id
  {
    IdsFacts(log);
    k := LatestAt(log, id);
  }

  lemma {:induction false} LatestAt(log: seq<Edge>, id: string) returns (k: nat)
    requires LatestEdge(log, id).Some?
    ensures k < |log| && log[k].id == id
  {
    if log[|log| - 1].id == id {
      k := |log| - 1;
    } else {
      k := LatestAt(log[..|log| - 1], id);
    }
  }

  lemma {:induction false} LatestKnown(log: seq<Edge>, m: nat)
    requires m < |log|
    ensures LatestEdge(log, log[m].id).Some?
  {
    if m < |log| - 1 {
      LatestKnown(log[..|log| - 1], m);
    }
  }

  /** The latest edges of the listed ids that still await something. */
  function StillPending(log: seq<Edge>, ids: seq<string>): seq<Edge> {
    if ids == [] then []
    else
      var latest := LatestEdge(log, ids[|ids| - 1]);
      StillPending(log, ids[..|ids| - 1])
      + (if latest.Some? && Outstanding(latest.value.state) then [latest.value] else [])
  }

  /** `e` occurs at exactly one position of `s`. */
  ghost predicate ExactlyOnce<T>(e: T, s: seq<T>) {
    multiset(s)[e] == 1
  }

  lemma {:induction false} StillPendingMembers(log: seq<Edge>, ids: seq<string>, e: Edge)
    requires Unique(ids)
    ensures multiset(StillPending(log, ids))[e]
         == if e.id in ids && LatestEdge(log, e.id) == Some(e) && Outstanding(e.state) then 1 else 0
  {
    if ids != [] {
      var init, last := ids[..|ids| - 1], ids[|ids| - 1];
      StillPendingMembers(log, init, e);
      LatestHasId(log, last);
      assert ids == init + [last];
      assert last !in init;
      var latest := LatestEdge(log, last);
      var more := if latest.Some? && Outstanding(latest.value.state) then [latest.value] else [];
      assert multiset(StillPending(log, ids)) == multiset(StillPending(log, init)) + multiset(more);
    }
  }

  /** A line that the search for an id passes over. */
  predicate Passes(entry: Entry<Edge>, id: string) { !entry.Malformed? && (entry.Row? ==> entry.row.id != id) }

  /** The first `k` lines end with one that the search does not pass over, and all lines behind it are passed. */
  ghost predicate StopsAt(log: seq<Entry<Edge>>, id: string, k: nat) {
    && k <= |log| && (forall j :: k <= j < |log| ==> Passes(log[j], id))
    && (k > 0 ==> !Passes(log[k - 1], id))
  }

  /** What the search gives where it stops: a line that cannot be read raises. */
  function Found(log: seq<Entry<Edge>>, k: nat): Result<Option<Edge>>
    requires k <= |log|
  {
    if k == 0 || log[k - 1].Blank? then Ok(None) else if log[k - 1].Malformed? then Raised else Ok(Some(log[k - 1].row))
  }

  lemma {:induction false} BackwardSearch(log: seq<Entry<Edge>>, id: string, pred: Edge -> bool) returns (k: nat)
    requires forall e :: pred(e) <==> e.id == id
    ensures StopsAt(log, id, k) && LastMatching(log, pred) == Found(log, k)
  {
    if log == [] || !Passes(log[|log| - 1], id) {
      k := |log|;
    } else {
      k := BackwardSearch(log[..|log| - 1], id, pred);
    }
  }

  class CallbackEdgeStore {
    const file: JsonlFile<Edge>

    constructor (file: JsonlFile<Edge>)
      ensures this.file == file
    {
      this.file := file;
    }

    /** The rows of the log, when every line is readable. */
    ghost function Rows(): seq<Edge>
      requires AllRows(file.Log())
      reads this, file
    {
      RowsOf(file.Log())
    }

    method Record(edge: Edge)
      requires ReadsBlank(file.codec) && RoundTrips(file.codec, edge)
      modifies file`content
      ensures old(file.Terminated() && AllRows(file.Log())) ==>
                file.Terminated() && AllRows(file.Log()) && Rows() == old(Rows()) + [edge]
    {
      file.Append(edge);
    }

    /** Latest record of one edge, by backward search; it raises exactly when it meets a line that cannot be
        read before it meets the id. */
    method GetLatest(id: string) returns (r: Result<Option<Edge>>)
      requires ReadsBlank(file.codec)
      ensures exists k: nat :: StopsAt(file.Log(), id, k) && r == Found(file.Log(), k)
      ensures AllRows(file.Log()) ==> r == Ok(LatestEdge(Rows(), id))
    {
      var pred := (e: Edge) => e.id == id;
      r := file.FindLast(pred, 4096);
      ghost var k := BackwardSearch(file.Log(), id, pred);
      if AllRows(file.Log()) {
        LatestIsLast(Rows(), id, pred);
      }
    }

    /** The pending edges, by a forward pass with overwriting; a malformed line makes it raise. */
    method PendingEdges() returns (r: Result<seq<Edge>>)
      requires ReadsBlank(file.codec)
      ensures r.Ok? <==> AllRows(file.Log())
      ensures r.Ok? ==> r.value == StillPending(Rows(), Ids(Rows()))
      ensures r.Ok? ==> forall e: Edge :: LatestEdge(Rows(), e.id) == Some(e) && (e.state == Pending || e.state == ChildCompleted)
                                          <==> ExactlyOnce(e, r.value)
      ensures r.Ok? ==> forall e: Edge :: e in r.value ==> ExactlyOnce(e, r.value)
    {
      var all := file.ReadAll();
      if all.Raised? { return Raised; }
      var log := all.value;
      var keys, latest := Overwrite(log);
      var pending := Select(log, keys, latest);
      PendingIsExact(log);
      return Ok(pending);
    }

    /** The dictionary of latest records: its keys in order of insertion, and its values. */
    static method Overwrite(log: seq<Edge>) returns (keys: seq<string>, latest: map<string, Edge>)
      ensures keys == Ids(log)
      ensures forall id :: id in latest <==> LatestEdge(log, id).Some?
      ensures forall id :: id in latest ==> LatestEdge(log, id) == Some(latest[id])
    {
      latest := map[];
      keys := [];
      for i := 0 to |log|
        invariant keys == Ids(log[..i])
        invariant forall id :: id in latest <==> LatestEdge(log[..i], id).Some?
        invariant forall id :: id in latest ==> LatestEdge(log[..i], id) == Some(latest[id])
      {
        assert log[..i + 1][..i] == log[..i];
        IdsFacts(log[..i]);
        if log[i].id !in latest {
          keys := keys + [log[i].id];
        }
        latest := latest[log[i].id := log[i]];
      }
      assert log[..|log|] == log;
    }

    static method Select(log: seq<Edge>, keys: seq<string>, latest: map<string, Edge>) returns (pending: seq<Edge>)
      requires keys == Ids(log)
      requires forall id :: id in latest <==> LatestEdge(log, id).Some?
      requires forall id :: id in latest ==> LatestEdge(log, id) == Some(latest[id])
      ensures pending == StillPending(log, keys)
    {
      IdsFacts(log);
      pending := [];
      for i := 0 to |keys|
        invariant pending == StillPending(log, keys[..i])
      {
        assert keys[..i + 1][..i] == keys[..i] && keys[i] in keys;
        if Outstanding(latest[keys[i]].state) {
          pending := pending + [latest[keys[i]]];
        }
      }
      assert keys[..|keys|] == keys;
    }
  }

  /** The forward pass lists an edge record exactly once if the backward search returns that record and
      it is outstanding, and does not list it otherwise. */
  lemma PendingIsExact(log: seq<Edge>)
    ensures forall e: Edge :: LatestEdge(log, e.id) == Some(e) && (e.state == Pending || e.state == ChildCompleted)
                        <==> ExactlyOnce(e, StillPending(log, Ids(log)))
    ensures forall e: Edge :: e in StillPending(log, Ids(log)) ==> ExactlyOnce(e, StillPending(log, Ids(log)))
  {
    IdsFacts(log);
    forall e: Edge
      ensures multiset(StillPending(log, Ids(log)))[e]
           == if LatestEdge(log, e.id) == Some(e) && Outstanding(e.state) then 1 else 0
    {
      StillPendingMembers(log, Ids(log), e);
    }
  }
}

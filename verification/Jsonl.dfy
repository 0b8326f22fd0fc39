/** The append-only JSONL log of lib/storage/jsonl_store.py.

    A log is a sequence of bytes.  Forward readers walk its lines from the start;
    the backward readers walk it in fixed-size chunks and carry a partial first line
    from one chunk to the next.  The results here show that the backward walk sees
    exactly the rows that the forward walk sees; the store itself is in `JsonlStore`.

    Decoding, stripping and JSON parsing of one line are a parameter: a `Codec`
    says which lines are blank, which hold a row, and which make the reader raise. */
module Jsonl {
  import opened Wrappers

  newtype byte = b: int | 0 <= b < 256

  const LF: byte := 10
  const CR: byte := 13

  /** `Raised` is a Python exception leaving the call. */
  datatype Result<+T> = Ok(value: T) | Raised

  /** What one line of the file is to a reader. */
  datatype Entry<R> = Blank | Row(row: R) | Malformed

  datatype Codec<!R> = Codec(classify: seq<byte> -> Entry<R>, encode: R -> seq<byte>)

  /** An empty line is blank, as `''.strip()` is. */
  ghost predicate ReadsBlank<R>(codec: Codec<R>) {
    codec.classify([]) == Blank
  }

  /** `json.dumps` escapes the line breaks of a row and `json.loads` reads its output back. */
  ghost predicate RoundTrips<R>(codec: Codec<R>, row: R) {
    codec.classify(codec.encode(row)) == Row(row) && NoBreak(codec.encode(row))
  }

  // ----- lines -----------------------------------------------------------------

  predicate IsBreak(b: byte) { b == LF || b == CR }

  predicate NoBreak(s: seq<byte>) { forall i :: 0 <= i < |s| ==> !IsBreak(s[i]) }

  /** Index of the first break byte, or the length when there is none. */
  function FirstBreak(s: seq<byte>): (k: nat)
    ensures k <= |s|
    ensures NoBreak(s[..k])
    ensures k < |s| ==> IsBreak(s[k])
  {
    if s == [] || IsBreak(s[0]) then 0 else 1 + FirstBreak(s[1..])
  }

  /** Where the line after the break at `k` starts: `\r\n` is one break. */
  function AfterBreak(s: seq<byte>, k: nat): (e: nat)
    requires k < |s|
    ensures k < e <= |s|
  {
    if s[k] == CR && k + 1 < |s| && s[k + 1] == LF then k + 2 else k + 1
  }

  /** `bytes.splitlines()`, and also the lines of a file opened in text mode. */
  function Lines(s: seq<byte>): seq<seq<byte>>
    decreases |s|
  {
    if s == [] then []
    else
      var k := FirstBreak(s);
      if k == |s| then [s] else [s[..k]] + Lines(s[AfterBreak(s, k)..])
  }

  /** The entries of the non-blank lines, in order. */
  function NonBlank<R>(codec: Codec<R>, lines: seq<seq<byte>>): seq<Entry<R>> {
    if lines == [] then []
    else
      var e := codec.classify(lines[0]);
      (if e.Blank? then [] else [e]) + NonBlank(codec, lines[1..])
  }

  /** What a whole file holds: the reference for every reader below. */
  function Entries<R>(codec: Codec<R>, s: seq<byte>): seq<Entry<R>> {
    NonBlank(codec, Lines(s))
  }

  lemma {:induction false} NonBlankConcat<R>(codec: Codec<R>, a: seq<seq<byte>>, b: seq<seq<byte>>)
    ensures NonBlank(codec, a + b) == NonBlank(codec, a) + NonBlank(codec, b)
  {
    if a == [] {
      assert a + b == b;
    } else {
      assert (a + b)[1..] == a[1..] + b;
      NonBlankConcat(codec, a[1..], b);
    }
  }

  /** The entries of one more line. */
  lemma NonBlankSnoc<R>(codec: Codec<R>, lines: seq<seq<byte>>, i: nat)
    requires i < |lines|
    ensures codec.classify(lines[i]).Blank? ==> NonBlank(codec, lines[..i + 1]) == NonBlank(codec, lines[..i])
    ensures !codec.classify(lines[i]).Blank? ==>
              NonBlank(codec, lines[..i + 1]) == NonBlank(codec, lines[..i]) + [codec.classify(lines[i])]
  {
    assert lines[..i + 1] == lines[..i] + [lines[i]];
    NonBlankConcat(codec, lines[..i], [lines[i]]);
  }

  lemma FirstBreakUnique(s: seq<byte>, k: nat)
    requires k <= |s| && NoBreak(s[..k]) && (k < |s| ==> IsBreak(s[k]))
    ensures FirstBreak(s) == k
  {
    var j := FirstBreak(s);
    assert forall i :: 0 <= i < k ==> s[..k][i] == s[i];
    assert forall i :: 0 <= i < j ==> s[..j][i] == s[i];
  }

  /** The first line of `s` and the rest, one unrolling of `splitlines`. */
  lemma EntriesStep<R>(codec: Codec<R>, s: seq<byte>, k: nat)
    requires k < |s| && NoBreak(s[..k]) && IsBreak(s[k])
    ensures FirstBreak(s) == k
    ensures Entries(codec, s) == NonBlank(codec, [s[..k]]) + Entries(codec, s[AfterBreak(s, k)..])
  {
    FirstBreakUnique(s, k);
    NonBlankConcat(codec, [s[..k]], Lines(s[AfterBreak(s, k)..]));
  }

  lemma EntriesOfOneLine<R>(codec: Codec<R>, s: seq<byte>)
    requires NoBreak(s) && ReadsBlank(codec)
    ensures Entries(codec, s) == NonBlank(codec, [s])
  {
    assert s[..|s|] == s;
    FirstBreakUnique(s, |s|);
  }

  lemma EntriesLeadingBreak<R>(codec: Codec<R>, v: seq<byte>)
    requires ReadsBlank(codec) && v != [] && IsBreak(v[0])
    ensures Entries(codec, v) == Entries(codec, v[AfterBreak(v, 0)..])
  {
    assert v[..0] == [];
    EntriesStep(codec, v, 0);
    assert NonBlank(codec, [[]]) == [];
  }

  lemma SplitAfterOneLine<R>(codec: Codec<R>, u: seq<byte>, v: seq<byte>)
    requires ReadsBlank(codec) && NoBreak(u) && v != [] && IsBreak(v[0])
    ensures Entries(codec, u + v) == Entries(codec, u) + Entries(codec, v)
  {
    var s := u + v;
    var rest := v[AfterBreak(v, 0)..];
    assert Entries(codec, v) == Entries(codec, rest) by { EntriesLeadingBreak(codec, v); }
    assert Entries(codec, u) == NonBlank(codec, [u]) by { EntriesOfOneLine(codec, u); }
    assert Entries(codec, s) == NonBlank(codec, [u]) + Entries(codec, rest) by {
      assert s[..|u|] == u && s[AfterBreak(s, |u|)..] == rest;
      EntriesStep(codec, s, |u|);
    }
  }

  /** A file may be cut next to any break byte, even inside `\r\n`, without changing
      its entries: the cut can only create a blank line. */
  lemma {:induction false} EntriesSplit<R>(codec: Codec<R>, u: seq<byte>, v: seq<byte>)
    requires ReadsBlank(codec)
    requires u == [] || v == [] || IsBreak(u[|u| - 1]) || IsBreak(v[0])
    ensures Entries(codec, u + v) == Entries(codec, u) + Entries(codec, v)
    decreases |u|
  {
    var k := FirstBreak(u);
    if u == [] {
      assert u + v == v;
    } else if v == [] {
      assert u + v == u;
    } else if k == |u| {
      assert u[..k] == u;
      SplitAfterOneLine(codec, u, v);
    } else {
      var e, e' := AfterBreak(u, k), AfterBreak(u + v, k);
      if e' == e {
        assert (u + v)[e..] == u[e..] + v;
        EntriesSplit(codec, u[e..], v);
      } else {
        assert (u + v)[e'..] == v[AfterBreak(v, 0)..];
        EntriesLeadingBreak(codec, v);
      }
      SplitAfterBreak(codec, u, v, k, e, e');
    }
  }

  lemma SplitAfterBreak<R>(codec: Codec<R>, u: seq<byte>, v: seq<byte>, k: nat, e: nat, e': nat)
    requires k < |u| && NoBreak(u[..k]) && IsBreak(u[k])
    requires e == AfterBreak(u, k) && e' == AfterBreak(u + v, k)
    requires Entries(codec, (u + v)[e'..]) == Entries(codec, u[e..]) + Entries(codec, v)
    ensures Entries(codec, u + v) == Entries(codec, u) + Entries(codec, v)
  {
    assert (u + v)[..k] == u[..k];
    EntriesStep(codec, u + v, k);
    EntriesStep(codec, u, k);
  }

  /** The step that keeps a partial line: `b` is the buffer, `x` the unread part of the
      file.  Keeping the first line of `b` without its break, and processing the others,
      loses nothing. */
  lemma CarryPartialLine<R>(codec: Codec<R>, x: seq<byte>, b: seq<byte>)
    requires ReadsBlank(codec)
    requires b != [] && !IsBreak(b[0])
    ensures Lines(b) != []
    ensures Entries(codec, x + b) == Entries(codec, x + Lines(b)[0]) + NonBlank(codec, Lines(b)[1..])
  {
    var k := FirstBreak(b);
    if k == |b| {
      assert Lines(b)[1..] == [];
    } else {
      var l, v := b[..k], b[k..];
      CarryBefore(codec, x, l, v);
      assert b == l + v;
      FirstOfLines(b, l, v);
    }
  }

  lemma CarryBefore<R>(codec: Codec<R>, x: seq<byte>, l: seq<byte>, v: seq<byte>)
    requires ReadsBlank(codec) && v != [] && IsBreak(v[0])
    ensures Entries(codec, x + (l + v)) == Entries(codec, x + l) + Entries(codec, v[AfterBreak(v, 0)..])
  {
    assert x + (l + v) == (x + l) + v;
    EntriesSplit(codec, x + l, v);
    EntriesLeadingBreak(codec, v);
  }

  lemma FirstOfLines(b: seq<byte>, l: seq<byte>, v: seq<byte>)
    requires v != [] && l == b[..FirstBreak(b)] && v == b[FirstBreak(b)..]
    ensures Lines(b) == [l] + Lines(v[AfterBreak(v, 0)..])
    ensures Lines(b)[0] == l && Lines(b)[1..] == Lines(v[AfterBreak(v, 0)..])
  {
    var k := FirstBreak(b);
    assert v[AfterBreak(v, 0)..] == b[AfterBreak(b, k)..];
  }

  // ----- what the readers promise ----------------------------------------------

  predicate AllRows<R>(es: seq<Entry<R>>) { forall i :: 0 <= i < |es| ==> es[i].Row? }

  function RowsOf<R>(es: seq<Entry<R>>): (rows: seq<R>)
    requires AllRows(es)
    ensures |rows| == |es|
    ensures forall i :: 0 <= i < |es| ==> es[i] == Row(rows[i])
  {
    seq(|es|, i requires 0 <= i < |es| => es[i].row)
  }

  /** Searching backwards: a malformed row met before a match makes the search raise. */
  function LastMatching<R>(es: seq<Entry<R>>, pred: R -> bool): Result<Option<R>> {
    if es == [] then Ok(None)
    else
      match es[|es| - 1]
      case Malformed => Raised
      case Blank => LastMatching(es[..|es| - 1], pred)
      case Row(r) => if pred(r) then Ok(Some(r)) else LastMatching(es[..|es| - 1], pred)
  }

  /** The last `limit` rows, reading backwards. */
  function TailOf<R>(es: seq<Entry<R>>, limit: nat): Result<seq<R>> {
    if es == [] || limit == 0 then Ok([])
    else
      match es[|es| - 1]
      case Malformed => Raised
      case Blank => TailOf(es[..|es| - 1], limit)
      case Row(r) =>
        match TailOf(es[..|es| - 1], limit - 1)
        case Raised => Raised
        case Ok(rows) => Ok(rows + [r])
  }

  /** `r` is the last of `rows` that satisfies `pred`, or there is none. */
  ghost predicate IsLast<R>(rows: seq<R>, pred: R -> bool, r: Option<R>) {
    match r
    case None => forall i :: 0 <= i < |rows| ==> !pred(rows[i])
    case Some(x) =>
      exists i :: 0 <= i < |rows| && rows[i] == x && pred(x) && forall j :: i < j < |rows| ==> !pred(rows[j])
  }

  function Min(a: nat, b: nat): nat { if a < b then a else b }

  function Reversed<R>(rows: seq<R>): seq<R> {
    seq(|rows|, i requires 0 <= i < |rows| => rows[|rows| - 1 - i])
  }

  lemma {:induction false} LastMatchingIsLast<R>(es: seq<Entry<R>>, pred: R -> bool)
    requires AllRows(es)
    ensures LastMatching(es, pred).Ok? && IsLast(RowsOf(es), pred, LastMatching(es, pred).value)
  {
    if es != [] {
      var init := es[..|es| - 1];
      LastMatchingIsLast(init, pred);
      var rows, less := RowsOf(es), RowsOf(init);
      assert less == rows[..|es| - 1];
      var found := LastMatching(init, pred).value;
      if !pred(rows[|es| - 1]) && found.Some? {
        var i :| 0 <= i < |less| && less[i] == found.value && pred(found.value)
                 && forall j :: i < j < |less| ==> !pred(less[j]);
        assert rows[i] == found.value;
        forall j | i < j < |rows| ensures !pred(rows[j]) {
          if j < |less| {
            assert rows[j] == less[j];
          }
        }
      }
    }
  }

  lemma {:induction false} TailOfIsSuffix<R>(es: seq<Entry<R>>, limit: nat)
    requires AllRows(es)
    ensures TailOf(es, limit) == Ok(RowsOf(es)[|es| - Min(limit, |es|)..])
  {
    var rows := RowsOf(es);
    if limit == 0 || es == [] {
      assert rows[|es|..] == [];
    } else {
      var init := es[..|es| - 1];
      TailOfIsSuffix(init, limit - 1);
      assert RowsOf(init) == rows[..|es| - 1];
      var from := |es| - Min(limit, |es|);
      assert rows[..|es| - 1][from..] + [rows[|es| - 1]] == rows[from..];
    }
  }

  // ----- one step of a backward scan --------------------------------------------

  lemma LastMatchingStep<R>(es: seq<Entry<R>>, e: Entry<R>, pred: R -> bool)
    ensures LastMatching(es + [e], pred)
         == match e
            case Malformed => Raised
            case Blank => LastMatching(es, pred)
            case Row(r) => if pred(r) then Ok(Some(r)) else LastMatching(es, pred)
  {
    assert (es + [e])[..|es|] == es;
  }

  /** The tail still to be read from `es` once `rows`, newest first, are collected. */
  ghost function TailWith<R>(es: seq<Entry<R>>, limit: nat, rows: seq<R>): Result<seq<R>>
    requires |rows| <= limit
  {
    match TailOf(es, limit - |rows|)
    case Raised => Raised
    case Ok(older) => Ok(older + Reversed(rows))
  }

  lemma TailWithNothingLeft<R>(es: seq<Entry<R>>, limit: nat, rows: seq<R>)
    requires |rows| <= limit && (es == [] || |rows| == limit)
    ensures TailWith(es, limit, rows) == Ok(Reversed(rows))
  {
    assert [] + Reversed(rows) == Reversed(rows);
  }

  lemma TailWithStep<R>(es: seq<Entry<R>>, e: Entry<R>, limit: nat, rows: seq<R>)
    requires |rows| < limit
    ensures e.Malformed? ==> TailWith(es + [e], limit, rows) == Raised
    ensures e.Row? ==> TailWith(es + [e], limit, rows) == TailWith(es, limit, rows + [e.row])
  {
    assert (es + [e])[..|es|] == es;
    if e.Row? && TailOf(es, limit - |rows| - 1).Ok? {
      var older := TailOf(es, limit - |rows| - 1).value;
      assert older + [e.row] + Reversed(rows) == older + Reversed(rows + [e.row]);
    }
  }

  // ----- reading on from a cursor ------------------------------------------------

  /** A file whose last line is complete. */
  predicate EndsLine(s: seq<byte>) { s == [] || IsBreak(s[|s| - 1]) }

  function After<R>(es: seq<Entry<R>>, start: nat): seq<Entry<R>> { es[Min(start, |es|)..] }

  lemma AfterSnoc<R>(es: seq<Entry<R>>, e: Entry<R>, start: nat)
    ensures |es| < start ==> After(es, start) == After(es + [e], start) == []
    ensures |es| >= start ==> After(es + [e], start) == After(es, start) + [e]
  {
  }

  lemma MalformedAfter<R>(seen: seq<Entry<R>>, log: seq<Entry<R>>, start: nat)
    requires start < |seen| && seen <= log && seen[|seen| - 1].Malformed?
    ensures !AllRows(After(log, start))
  {
    assert After(log, start)[|seen| - 1 - start] == seen[|seen| - 1];
  }

  lemma NonBlankPrefix<R>(codec: Codec<R>, lines: seq<seq<byte>>, i: nat)
    requires i <= |lines|
    ensures NonBlank(codec, lines[..i]) <= NonBlank(codec, lines)
  {
    assert lines == lines[..i] + lines[i..];
    NonBlankConcat(codec, lines[..i], lines[i..]);
  }

  lemma AppendExtends<R>(codec: Codec<R>, s: seq<byte>, row: R)
    requires ReadsBlank(codec) && RoundTrips(codec, row) && EndsLine(s)
    ensures EndsLine(s + codec.encode(row) + [LF])
    ensures Entries(codec, s + codec.encode(row) + [LF]) == Entries(codec, s) + [Row(row)]
  {
    var text := codec.encode(row);
    var line := text + [LF];
    assert s + text + [LF] == s + line;
    EntriesSplit(codec, s, line);
    assert codec.classify(text) == Row(row);
    assert line[..|text|] == text && line[|text| + 1..] == [];
    EntriesStep(codec, line, |text|);
  }

  /** What `read_since` returns, from the entries of the file. */
  ghost function SinceOf<R>(codec: Codec<R>, content: Option<seq<byte>>, start: int): Result<(int, seq<R>)> {
    if start < 0 then Raised
    else if content.None? then Ok((start, []))
    else
      var es := Entries(codec, content.value);
      if AllRows(After(es, start)) then Ok((|es|, RowsOf(After(es, start)))) else Raised
  }

  /** For a file that exists: the rows behind the cursor and the number of rows, unless one of those rows
      cannot be read. */
  lemma SinceExactly<R>(codec: Codec<R>, file: seq<byte>, start: nat)
    ensures var es, r := Entries(codec, file), SinceOf(codec, Some(file), start);
      var rest := if start <= |es| then es[start..] else [];
      (r.Ok? <==> AllRows(rest)) && (r.Ok? ==> r.value == (|es|, RowsOf(rest)))
  {
    var es := Entries(codec, file);
    assert es[|es|..] == [];
  }

  // ----- a follower that feeds its cursor back ----------------------------------

  datatype Event<R> = Appended(row: R) | Polled

  /** The file, the follower's cursor, and all rows it was given so far. */
  datatype Follower<R> = Follower(content: Option<seq<byte>>, cursor: int, delivered: seq<R>)

  ghost function Follow<R>(codec: Codec<R>, events: seq<Event<R>>): Result<Follower<R>> {
    if events == [] then Ok(Follower(None, 0, []))
    else
      match Follow(codec, events[..|events| - 1])
      case Raised => Raised
      case Ok(f) =>
        match events[|events| - 1]
        case Appended(row) =>
          var before := if f.content.Some? then f.content.value else [];
          Ok(f.(content := Some(before + codec.encode(row) + [LF])))
        case Polled =>
          match SinceOf(codec, f.content, f.cursor)
          case Raised => Raised
          case Ok((cursor, rows)) => Ok(Follower(f.content, cursor, f.delivered + rows))
  }

  function AppendedRows<R>(events: seq<Event<R>>): seq<R> {
    if events == [] then []
    else
      AppendedRows(events[..|events| - 1])
      + (if events[|events| - 1].Appended? then [events[|events| - 1].row] else [])
  }

  /** The state of a follower after any run, and the file it reads. */
  ghost predicate Faithful<R>(codec: Codec<R>, all: seq<R>, f: Follower<R>) {
    && 0 <= f.cursor <= |all|
    && f.delivered == all[..f.cursor]
    && (f.content.None? ==> all == [])
    && (f.content.Some? ==>
          && EndsLine(f.content.value)
          && AllRows(Entries(codec, f.content.value))
          && RowsOf(Entries(codec, f.content.value)) == all)
  }

  /** Every interleaving of appends and polls delivers the appended rows once each and in
      order; right after a poll nothing is outstanding. */
  lemma {:induction false} FollowerSeesEachRowOnce<R>(codec: Codec<R>, events: seq<Event<R>>)
    requires ReadsBlank(codec)
    requires forall i :: 0 <= i < |events| && events[i].Appended? ==> RoundTrips(codec, events[i].row)
    ensures Follow(codec, events).Ok?
    ensures Faithful(codec, AppendedRows(events), Follow(codec, events).value)
    ensures events != [] && events[|events| - 1].Polled? ==>
              Follow(codec, events).value.delivered == AppendedRows(events)
  {
    if events != [] {
      var init, last := events[..|events| - 1], events[|events| - 1];
      FollowerSeesEachRowOnce(codec, init);
      var f := Follow(codec, init).value;
      var all := AppendedRows(init);
      if last.Appended? {
        var before := if f.content.Some? then f.content.value else [];
        AppendExtends(codec, before, last.row);
        var es := Entries(codec, before + codec.encode(last.row) + [LF]);
        assert RowsOf(es) == all + [last.row];
      } else if f.content.Some? {
        var es := Entries(codec, f.content.value);
        assert RowsOf(After(es, f.cursor)) == all[f.cursor..];
        assert f.delivered + all[f.cursor..] == all;
        assert all + [] == all;
      } else {
        assert all + [] == all;
      }
    }
  }
}

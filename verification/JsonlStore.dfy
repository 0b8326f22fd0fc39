/** The log file of lib/storage/jsonl_store.py as an object: appending to it, reading it forwards, and
    reading it backwards in chunks. */
module JsonlStore {
  import opened Wrappers
  import opened Jsonl

  /** One log file; `content` is `None` while the file does not exist. */
  class JsonlFile<!R> {
    const codec: Codec<R>
    var content: Option<seq<byte>>

    constructor (codec: Codec<R>)
      ensures this.codec == codec && content == None
    {
      this.codec := codec;
      content := None;
    }

    ghost function Bytes(): seq<byte>
      reads this
    {
      if content.Some? then content.value else []
    }

    /** Every row that a complete forward read would meet. */
    ghost function Log(): seq<Entry<R>>
      reads this
    {
      Entries(codec, Bytes())
    }

    /** Every append so far was written in full. */
    ghost predicate Terminated()
      reads this
    {
      EndsLine(Bytes())
    }

    method Append(row: R)
      requires ReadsBlank(codec) && RoundTrips(codec, row)
      modifies this`content
      ensures content == Some(old(Bytes()) + codec.encode(row) + [LF])
      ensures old(Terminated()) ==> Terminated() && Log() == old(Log()) + [Row(row)]
    {
      var before := if content.Some? then content.value else [];
      content := Some(before + codec.encode(row) + [LF]);
      if EndsLine(before) {
        AppendExtends(codec, before, row);
      }
    }

    method ReadAll() returns (r: Result<seq<R>>)
      requires ReadsBlank(codec)
      ensures r.Ok? <==> AllRows(Log())
      ensures r.Ok? ==> r.value == RowsOf(Log())
    {
      if content.None? { return Ok([]); }
      var lines := Lines(content.value);
      var rows: seq<R> := [];
      for i := 0 to |lines|
        invariant AllRows(NonBlank(codec, lines[..i]))
        invariant rows == RowsOf(NonBlank(codec, lines[..i]))
      {
        ghost var seen := NonBlank(codec, lines[..i]);
        NonBlankSnoc(codec, lines, i);
        NonBlankPrefix(codec, lines, i + 1);
        match codec.classify(lines[i]) {
          case Blank =>
            assert NonBlank(codec, lines[..i + 1]) == seen;
          case Malformed =>
            assert Log()[|seen|].Malformed?;
            return Raised;
          case Row(x) =>
            assert NonBlank(codec, lines[..i + 1]) == seen + [Row(x)];
            rows := rows + [x];
        }
      }
      assert lines[..|lines|] == lines;
      return Ok(rows);
    }

    /** Rows after the first `start` non-blank lines, and the new cursor. */
    method ReadSince(start: int) returns (r: Result<(int, seq<R>)>)
      requires ReadsBlank(codec)
      ensures r == SinceOf(codec, content, start)
      ensures start < 0 ==> r.Raised?
      ensures start >= 0 && content.None? ==> r == Ok((start, []))
    {
      if start < 0 { return Raised; }
      if content.None? { return Ok((start, [])); }
      var lines := Lines(content.value);
      var rows: seq<R> := [];
      var current := 0;
      ghost var log := Log();
      for i := 0 to |lines|
        invariant current == |NonBlank(codec, lines[..i])|
        invariant AllRows(After(NonBlank(codec, lines[..i]), start))
        invariant rows == RowsOf(After(NonBlank(codec, lines[..i]), start))
      {
        NonBlankSnoc(codec, lines, i);
        var e := codec.classify(lines[i]);
        if e.Blank? { continue; }
        AfterSnoc(NonBlank(codec, lines[..i]), e, start);
        current := current + 1;
        if current <= start { continue; }
        if e.Malformed? {
          NonBlankPrefix(codec, lines, i + 1);
          MalformedAfter(NonBlank(codec, lines[..i + 1]), log, start);
          return Raised;
        }
        rows := rows + [e.row];
      }
      assert lines[..|lines|] == lines;
      return Ok((current, rows));
    }

    /** Moves the next chunk into the buffer and splits off its complete lines. */
    static method TakeChunk(codec: Codec<R>, file: seq<byte>, position: nat, buffer: seq<byte>, chunk: nat)
      returns (position': nat, buffer': seq<byte>, lines: seq<seq<byte>>)
      requires ReadsBlank(codec) && chunk >= 1
      requires 0 < position <= |file|
      ensures position' < position && (position' == 0 ==> buffer' == [])
      ensures Entries(codec, file[..position] + buffer)
           == Entries(codec, file[..position'] + buffer') + NonBlank(codec, lines)
    {
      var size := Min(chunk, position);
      position' := position - size;
      buffer' := file[position'..position' + size] + buffer;
      assert file[..position'] + buffer' == file[..position] + buffer;
      lines := Lines(buffer');
      if position' > 0 && !IsBreak(buffer'[0]) {
        CarryPartialLine(codec, file[..position'], buffer');
        buffer' := lines[0];
        lines := lines[1..];
      } else {
        EntriesSplit(codec, file[..position'], buffer');
        buffer' := [];
        assert file[..position'] + buffer' == file[..position'];
      }
    }

    /** The last `limit` rows, read backwards in chunks. */
    method ReadTail(limit: int, chunk: nat) returns (r: Result<seq<R>>)
      requires ReadsBlank(codec) && chunk >= 1
      ensures limit < 0 ==> r == Raised
      ensures limit >= 0 ==> r == TailOf(Log(), limit)
    {
      if limit < 0 { return Raised; }
      if limit == 0 { return Ok([]); }
      if content.None? { return Ok([]); }
      var file := content.value;
      var rows: seq<R> := [];
      var position := |file|;
      var buffer: seq<byte> := [];
      ghost var rest, goal := Log(), TailOf(Log(), limit);
      assert file[..position] + buffer == file;
      assert goal.Ok? ==> goal.value + Reversed<R>([]) == goal.value;
      while position > 0 && |rows| < limit
        invariant position <= |file| && (position == 0 ==> buffer == []) && |rows| <= limit
        invariant goal == TailWith(rest, limit, rows)
        invariant |rows| < limit ==> rest == Entries(codec, file[..position] + buffer)
        decreases position
      {
        var lines;
        position, buffer, lines := TakeChunk(codec, file, position, buffer, chunk);
        rest := Entries(codec, file[..position] + buffer);
        r, rest := CollectBackwards(codec, lines, rows, limit, rest);
        if r.Raised? { return; }
        rows := r.value;
      }
      assert |rows| < limit ==> file[..position] + buffer == [];
      TailWithNothingLeft(rest, limit, rows);
      return Ok(Reversed(rows));
    }

    /** Adds rows of one chunk, last line first, until the limit is met; `rest` is what
        precedes the chunk and `left` what is then still unread. */
    static method CollectBackwards(codec: Codec<R>, lines: seq<seq<byte>>, rows: seq<R>, limit: nat,
                                   ghost rest: seq<Entry<R>>)
      returns (r: Result<seq<R>>, ghost left: seq<Entry<R>>)
      requires |rows| <= limit
      ensures match r
              case Raised => TailWith(rest + NonBlank(codec, lines), limit, rows) == Raised
              case Ok(rows') =>
                && |rows'| <= limit
                && TailWith(rest + NonBlank(codec, lines), limit, rows) == TailWith(left, limit, rows')
                && (|rows'| < limit ==> left == rest)
    {
      var acc := rows;
      var j := |lines|;
      ghost var goal := TailWith(rest + NonBlank(codec, lines), limit, rows);
      assert lines[..j] == lines;
      while j > 0
        invariant j <= |lines| && |acc| <= limit
        invariant goal == TailWith(rest + NonBlank(codec, lines[..j]), limit, acc)
      {
        if |acc| >= limit { break; }
        j := j - 1;
        NonBlankSnoc(codec, lines, j);
        var e := codec.classify(lines[j]);
        if e.Blank? { continue; }
        ghost var ahead := rest + NonBlank(codec, lines[..j]);
        assert rest + NonBlank(codec, lines[..j + 1]) == ahead + [e];
        TailWithStep(ahead, e, limit, acc);
        if e.Malformed? { return Raised, rest; }
        acc := acc + [e.row];
      }
      assert j == 0 ==> rest + NonBlank(codec, lines[..j]) == rest;
      return Ok(acc), rest + NonBlank(codec, lines[..j]);
    }

    /** The last row that satisfies `pred`, searched backwards in chunks. */
    method FindLast(pred: R -> bool, chunk: nat) returns (r: Result<Option<R>>)
      requires ReadsBlank(codec) && chunk >= 1
      ensures r == LastMatching(Log(), pred)
      ensures AllRows(Log()) ==> r.Ok? && IsLast(RowsOf(Log()), pred, r.value)
    {
      if AllRows(Log()) {
        LastMatchingIsLast(Log(), pred);
      }
      if content.None? { return Ok(None); }
      var file := content.value;
      var position := |file|;
      var buffer: seq<byte> := [];
      ghost var goal := LastMatching(Log(), pred);
      assert file[..position] + buffer == file;
      while position > 0
        invariant position <= |file| && (position == 0 ==> buffer == [])
        invariant goal == LastMatching(Entries(codec, file[..position] + buffer), pred)
        decreases position
      {
        var lines;
        position, buffer, lines := TakeChunk(codec, file, position, buffer, chunk);
        r := SearchBackwards(codec, lines, pred, Entries(codec, file[..position] + buffer));
        if r != Ok(None) { return; }
      }
      if buffer != [] {
        // The store parses a left-over buffer here; there never is one.
        assert false;
      }
      assert file[..position] + buffer == [];
      return Ok(None);
    }

    /** Searches the complete lines of one chunk, last line first; `rest` precedes them. */
    static method SearchBackwards(codec: Codec<R>, lines: seq<seq<byte>>, pred: R -> bool, ghost rest: seq<Entry<R>>)
      returns (r: Result<Option<R>>)
      ensures LastMatching(rest + NonBlank(codec, lines), pred)
           == if r == Ok(None) then LastMatching(rest, pred) else r
    {
      var j := |lines|;
      ghost var goal := LastMatching(rest + NonBlank(codec, lines), pred);
      assert lines[..j] == lines;
      while j > 0
        invariant j <= |lines|
        invariant goal == LastMatching(rest + NonBlank(codec, lines[..j]), pred)
      {
        j := j - 1;
        NonBlankSnoc(codec, lines, j);
        var e := codec.classify(lines[j]);
        if e.Blank? { continue; }
        ghost var ahead := rest + NonBlank(codec, lines[..j]);
        assert rest + NonBlank(codec, lines[..j + 1]) == ahead + [e];
        LastMatchingStep(ahead, e, pred);
        if e.Malformed? { return Raised; }
        if pred(e.row) { return Ok(Some(e.row)); }
      }
      assert rest + NonBlank(codec, lines[..j]) == rest;
      return Ok(None);
    }
  }
}

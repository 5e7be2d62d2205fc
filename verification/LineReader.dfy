/**
 The capped line reader of the agent (crates/agent/src/job_executor.rs,
 read_line_capped): it reads one log line from a pipe that hands out its bytes
 in chunks of any size.
 */
module LineReader {
  import opened Text

  const LF: byte := 10

  /** A buffered reader over a pipe that will deliver `data`, of which the bytes
      before `pos` have been consumed. Each fill returns a stretch of what comes
      next, of a length the reader does not control; it is empty only at the
      end of the stream. */
  class ChunkedReader {
    const data: seq<byte>
    var pos: nat

    ghost predicate Valid()
      reads this
    {
      pos <= |data|
    }

    constructor (data: seq<byte>)
      ensures this.data == data && pos == 0 && Valid()
    {
      this.data := data;
      pos := 0;
    }

    method FillBuf() returns (buf: seq<byte>)
      requires Valid()
      ensures pos + |buf| <= |data| && buf == data[pos..pos + |buf|]
      ensures buf == [] <==> pos == |data|
    {
      if pos == |data| {
        buf := [];
      } else {
        var n: nat :| 1 <= n <= |data| - pos;
        buf := data[pos..pos + n];
      }
    }

    method Consume(n: nat)
      requires pos + n <= |data|
      modifies this
      ensures Valid() && pos == old(pos) + n
    {
      pos := pos + n;
    }
  }

  /** A line as returned: its bytes, and whether the truncation mark follows. */
  datatype Line = Line(bytes: seq<byte>, truncated: bool)

  /** There is no LF between the two positions. */
  predicate LfFree(s: seq<byte>, from: nat, to: nat)
    requires to <= |s|
  {
    forall k | from <= k < to :: s[k] != LF
  }

  /** Where the line starting at `from` ends: its LF, or the end of the stream. */
  function LineEnd(s: seq<byte>, from: nat): (e: nat)
    requires from <= |s|
    ensures from <= e <= |s|
    ensures LfFree(s, from, e)
    ensures e < |s| ==> s[e] == LF
    decreases |s| - from
  {
    if from == |s| || s[from] == LF then from else LineEnd(s, from + 1)
  }

  /** Where the line after it starts. */
  function NextLine(s: seq<byte>, from: nat): (n: nat)
    requires from <= |s|
    ensures from <= n <= |s|
    ensures from < |s| ==> from < n
  {
    var e := LineEnd(s, from);
    if e < |s| then e + 1 else e
  }

  /** The line starting at `from` as the caller sees it: its content without the
      LF when content and LF fit under the cap, else its first `cap` bytes,
      marked. */
  function Rendered(s: seq<byte>, from: nat, cap: nat): Line
    requires from <= |s|
  {
    if NextLine(s, from) - from > cap
    then Line(s[from..from + cap], true)
    else Line(s[from..LineEnd(s, from)], false)
  }

  lemma LineEndIs(s: seq<byte>, from: nat, e: nat)
    requires from <= e <= |s| && LfFree(s, from, e)
    requires e == |s| || s[e] == LF
    ensures LineEnd(s, from) == e
  {
  }

  /** Position of the first LF in a chunk, as the code's `position` call. */
  method FindLf(chunk: seq<byte>) returns (at: Option<nat>)
    ensures at.None? ==> LfFree(chunk, 0, |chunk|)
    ensures at.Some? ==> at.value < |chunk| && chunk[at.value] == LF && LfFree(chunk, 0, at.value)
  {
    var i := 0;
    while i < |chunk|
      invariant i <= |chunk| && LfFree(chunk, 0, i)
    {
      if chunk[i] == LF {
        return Some(i);
      }
      i := i + 1;
    }
    return None;
  }

  /** What a chunk says about the stream it was taken from. */
  lemma ChunkLfFree(s: seq<byte>, pos: nat, chunk: seq<byte>, n: nat)
    requires pos + |chunk| <= |s| && chunk == s[pos..pos + |chunk|]
    requires n <= |chunk| && LfFree(chunk, 0, n)
    ensures LfFree(s, pos, pos + n)
    ensures n < |chunk| ==> chunk[n] == s[pos + n]
  {
    assert forall k | pos <= k < pos + n :: s[k] == chunk[k - pos];
  }

  /** Drain the remainder of an over-long line: whatever the chunks, the reader
      ends up after the next LF, or at the end of the stream. */
  method Drain(reader: ChunkedReader)
    requires reader.Valid()
    modifies reader
    ensures reader.Valid() && reader.pos == NextLine(reader.data, old(reader.pos))
  {
    ghost var start := reader.pos;
    while true
      invariant reader.Valid() && start <= reader.pos && LfFree(reader.data, start, reader.pos)
      decreases |reader.data| - reader.pos
    {
      var b := reader.FillBuf();
      if b == [] {
        LineEndIs(reader.data, start, reader.pos);
        return;
      }
      var at := FindLf(b);
      if at.Some? {
        ChunkLfFree(reader.data, reader.pos, b, at.value);
        LineEndIs(reader.data, start, reader.pos + at.value);
        reader.Consume(at.value + 1);
        return;
      }
      ChunkLfFree(reader.data, reader.pos, b, |b|);
      reader.Consume(|b|);
    }
  }

  /** The start of a line, extended by the front of the next chunk. */
  lemma AppendChunk(s: seq<byte>, start: nat, pos: nat, chunk: seq<byte>, n: nat)
    requires start <= pos && pos + |chunk| <= |s| && chunk == s[pos..pos + |chunk|] && n <= |chunk|
    ensures s[start..pos] + chunk[..n] == s[start..pos + n]
  {
    assert chunk[..n] == s[pos..pos + n];
  }

  /** The state of a call in progress: `line` is what has been read of the line
      starting at `start`, the reader stands right behind it, and `pending` is
      the next chunk. */
  ghost predicate Reading(reader: ChunkedReader, start: nat, line: seq<byte>, pending: seq<byte>)
    reads reader
  {
    && start <= reader.pos && reader.pos + |pending| <= |reader.data|
    && LfFree(reader.data, start, reader.pos)
    && line == reader.data[start..reader.pos]
    && pending == reader.data[reader.pos..reader.pos + |pending|]
  }

  /** The pending chunk holds the LF that ends the line, at `at`. */
  method FinishAtLf(reader: ChunkedReader, read: seq<byte>, pending: seq<byte>, at: nat, cap: nat,
                    ghost start: nat) returns (r: Line)
    requires Reading(reader, start, read, pending) && |read| <= cap
    requires at < |pending| && pending[at] == LF && LfFree(pending, 0, at)
    modifies reader
    ensures reader.Valid() && reader.pos == NextLine(reader.data, start)
    ensures r == Rendered(reader.data, start, cap)
  {
    var take := at + 1;
    ChunkLfFree(reader.data, reader.pos, pending, at);
    LineEndIs(reader.data, start, reader.pos + at);
    if |read| + take > cap {
      AppendChunk(reader.data, start, reader.pos, pending, cap - |read|);
      reader.Consume(take);
      return Line(read + pending[..cap - |read|], true);
    }
    AppendChunk(reader.data, start, reader.pos, pending, take);
    var whole := read + pending[..take];
    reader.Consume(take);
    if whole[|whole| - 1] == LF {
      whole := whole[..|whole| - 1];
    }
    return Line(whole, false);
  }

  /** The pending chunk overflows the cap without ending the line. */
  method FinishOverlong(reader: ChunkedReader, read: seq<byte>, pending: seq<byte>, cap: nat,
                        ghost start: nat) returns (r: Line)
    requires Reading(reader, start, read, pending) && |read| <= cap
    requires LfFree(pending, 0, |pending|) && |pending| > cap - |read|
    modifies reader
    ensures reader.Valid() && reader.pos == NextLine(reader.data, start)
    ensures r == Rendered(reader.data, start, cap)
  {
    var room := cap - |read|;
    ChunkLfFree(reader.data, reader.pos, pending, |pending|);
    AppendChunk(reader.data, start, reader.pos, pending, room);
    SameLine(reader.data, start, reader.pos + |pending|);
    reader.Consume(|pending|);
    Drain(reader);
    return Line(read + pending[..room], true);
  }

  /** One call: it consumes exactly through the next LF, or to the end of the
      stream, and returns that line under the cap, however the bytes were
      chunked; nothing is returned only at the end of the stream. */
  method ReadLineCapped(reader: ChunkedReader, cap: nat) returns (r: Option<Line>)
    requires reader.Valid()
    modifies reader
    ensures reader.Valid() && reader.pos == NextLine(reader.data, old(reader.pos))
    ensures r == if old(reader.pos) == |reader.data| then None
                 else Some(Rendered(reader.data, old(reader.pos), cap))
  {
    ghost var start := reader.pos;
    var line: seq<byte> := [];
    while true
      invariant Reading(reader, start, line, []) && |line| <= cap
      decreases |reader.data| - reader.pos
    {
      var pending := reader.FillBuf();
      if pending == [] {
        LineEndIs(reader.data, start, reader.pos);
        return if line == [] then None else Some(Line(line, false));
      }
      var at := FindLf(pending);
      if at.Some? {
        var whole := FinishAtLf(reader, line, pending, at.value, cap, start);
        return Some(whole);
      }
      if |pending| > cap - |line| {
        var cut := FinishOverlong(reader, line, pending, cap, start);
        return Some(cut);
      }
      ChunkLfFree(reader.data, reader.pos, pending, |pending|);
      AppendChunk(reader.data, start, reader.pos, pending, |pending|);
      line := line + pending[..|pending|];
      reader.Consume(|pending|);
    }
  }

  /** Within one line, every position has the same end. */
  lemma SameLine(s: seq<byte>, start: nat, pos: nat)
    requires start <= pos <= |s| && LfFree(s, start, pos)
    ensures LineEnd(s, start) == LineEnd(s, pos)
  {
    LineEndIs(s, start, LineEnd(s, pos));
  }

  // ----- repeated calls -----

  /** The start positions of all lines from `from` on. */
  function Starts(s: seq<byte>, from: nat): seq<nat>
    requires from <= |s|
    decreases |s| - from
  {
    if from == |s| then [] else [from] + Starts(s, NextLine(s, from))
  }

  /** The streaming loop reads one line per start position, in order. */
  method ReadAll(reader: ChunkedReader, cap: nat) returns (lines: seq<Line>)
    requires reader.Valid()
    modifies reader
    ensures reader.Valid() && reader.pos == |reader.data|
    ensures LinesFrom(reader.data, Starts(reader.data, old(reader.pos)), cap, lines)
  {
    ghost var all := Starts(reader.data, reader.pos);
    StartsInRange(reader.data, reader.pos);
    lines := [];
    while true
      invariant reader.Valid()
      invariant |lines| <= |all| && Starts(reader.data, reader.pos) == all[|lines|..]
      invariant forall i | 0 <= i < |lines| :: lines[i] == Rendered(reader.data, all[i], cap)
      decreases |reader.data| - reader.pos
    {
      ghost var before := reader.pos;
      var line := ReadLineCapped(reader, cap);
      if line.None? {
        return;
      }
      assert all[|lines|] == before;
      assert all[|lines| + 1..] == Starts(reader.data, before)[1..];
      lines := lines + [line.value];
    }
  }

  ghost predicate LinesFrom(s: seq<byte>, starts: seq<nat>, cap: nat, lines: seq<Line>) {
    && |lines| == |starts|
    && forall i | 0 <= i < |lines| :: starts[i] <= |s| && lines[i] == Rendered(s, starts[i], cap)
  }

  lemma {:induction false} StartsInRange(s: seq<byte>, from: nat)
    requires from <= |s|
    ensures forall i | 0 <= i < |Starts(s, from)| :: from <= Starts(s, from)[i] < |s|
    decreases |s| - from
  {
    if from < |s| {
      StartsInRange(s, NextLine(s, from));
    }
  }

  function Flatten(parts: seq<seq<byte>>): seq<byte> {
    if parts == [] then [] else parts[0] + Flatten(parts[1..])
  }

  /** The stretches that successive calls consume. */
  function Consumed(s: seq<byte>, from: nat): seq<seq<byte>>
    requires from <= |s|
    decreases |s| - from
  {
    if from == |s| then [] else [s[from..NextLine(s, from)]] + Consumed(s, NextLine(s, from))
  }

  lemma FlattenFirst(part: seq<byte>, rest: seq<seq<byte>>)
    ensures Flatten([part] + rest) == part + Flatten(rest)
  {
    assert ([part] + rest)[1..] == rest;
  }

  lemma SplitAt(s: seq<byte>, from: nat, n: nat)
    requires from <= n <= |s|
    ensures s[from..] == s[from..n] + s[n..]
  {
  }

  /** Repeated calls partition the stream: nothing is skipped or read twice. */
  lemma {:induction false} CallsPartitionStream(s: seq<byte>, from: nat)
    requires from <= |s|
    ensures Flatten(Consumed(s, from)) == s[from..]
    ensures |Consumed(s, from)| == |Starts(s, from)|
    decreases |s| - from
  {
    if from < |s| {
      var n := NextLine(s, from);
      CallsPartitionStream(s, n);
      FlattenFirst(s[from..n], Consumed(s, n));
      SplitAt(s, from, n);
    }
  }

  lemma FirstStart(s: seq<byte>, from: nat, p: nat)
    requires from < |s|
    ensures p in Starts(s, from) <==> p == from || p in Starts(s, NextLine(s, from))
  {
  }

  /** Inside a line no position follows an LF; the next line does. */
  lemma InsideLine(s: seq<byte>, from: nat, p: nat)
    requires from < p < |s|
    ensures p < NextLine(s, from) ==> s[p - 1] != LF
    ensures p == NextLine(s, from) ==> s[p - 1] == LF
  {
  }

  lemma StartsNotBefore(s: seq<byte>, from: nat, p: nat)
    requires p < from <= |s|
    ensures p !in Starts(s, from)
  {
    StartsInRange(s, from);
  }

  /** A line starts at the beginning of the stream and after each LF, and
      nowhere else: the reader never loses alignment with the lines. */
  lemma {:induction false} LinesStartAfterLf(s: seq<byte>, from: nat, p: nat)
    requires from <= p < |s|
    ensures p in Starts(s, from) <==> p == from || s[p - 1] == 10
    decreases |s| - from
  {
    var n := NextLine(s, from);
    FirstStart(s, from, p);
    if from < p {
      InsideLine(s, from, p);
      if p < n {
        StartsNotBefore(s, n, p);
      } else {
        LinesStartAfterLf(s, n, p);
      }
    }
  }

  /** When the mark tells the truth: a line is marked although none of its
      content is missing exactly when it is terminated and its content is
      exactly as long as the cap, because the LF is counted against the cap. */
  lemma MarkedButComplete(s: seq<byte>, from: nat, cap: nat)
    requires from < |s|
    ensures var line := Rendered(s, from, cap);
            (line.truncated && line.bytes == s[from..LineEnd(s, from)])
            <==> (LineEnd(s, from) < |s| && LineEnd(s, from) - from == cap)
  {
    assert NextLine(s, from) - from > cap ==> |s[from..from + cap]| == cap;
  }

  lemma MarkedButCompleteExample()
    ensures Rendered([65, 66, 10], 0, 2) == Line([65, 66], true)
  {
    LineEndIs([65, 66, LF], 0, 2);
  }
}

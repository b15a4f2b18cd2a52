/**
  The adapter from a byte stream to whole lines (driver/docker/logs.go): partial
  writes are buffered until a newline arrives.
 */
module LineSplitter {
  import opened Common

  type Byte = b: int | 0 <= b < 256
  type Bytes = seq<Byte>

  const NEWLINE: Byte := 10

  ghost predicate NoNewline(s: Bytes) {
    forall k :: 0 <= k < |s| ==> s[k] != 10
  }

  /** bytes.IndexByte(s, '\n'), or |s| if there is none. */
  function IndexOfNewline(s: Bytes): (i: nat)
    ensures i <= |s| && (i < |s| ==> s[i] == NEWLINE)
    ensures forall k :: 0 <= k < i ==> s[k] != NEWLINE
  {
    if s == [] || s[0] == NEWLINE then 0 else 1 + IndexOfNewline(s[1..])
  }

  /** The terminated lines of a stream. */
  function Lines(s: Bytes): seq<Bytes>
    decreases |s|
  {
    var i := IndexOfNewline(s);
    if i == |s| then [] else [s[..i + 1]] + Lines(s[i + 1..])
  }

  /** What follows the last newline of a stream. */
  function Rest(s: Bytes): Bytes
    decreases |s|
  {
    var i := IndexOfNewline(s);
    if i == |s| then s else Rest(s[i + 1..])
  }

  function Concat(lines: seq<Bytes>): Bytes {
    if lines == [] then [] else lines[0] + Concat(lines[1..])
  }

  lemma {:induction false} ConcatAppends(a: seq<Bytes>, b: seq<Bytes>)
    ensures Concat(a + b) == Concat(a) + Concat(b)
    decreases |a|
  {
    if a == [] {
      assert a + b == b;
    } else {
      assert (a + b)[1..] == a[1..] + b;
      ConcatAppends(a[1..], b);
    }
  }

  lemma ConcatOne(line: Bytes)
    ensures Concat([line]) == line
  {
    assert [line][1..] == [];
  }

  /** A line as Write emits it: its only newline is its last byte. */
  ghost predicate IsLine(line: Bytes) {
    |line| > 0 && line[|line| - 1] == 10 && NoNewline(line[..|line| - 1])
  }

  ghost predicate AreLines(lines: seq<Bytes>) {
    forall i :: 0 <= i < |lines| ==> IsLine(lines[i])
  }

  lemma ConcatPrepends(line: Bytes, lines: seq<Bytes>)
    ensures Concat([line] + lines) == line + Concat(lines)
  {
    assert ([line] + lines)[1..] == lines;
  }

  lemma TakeDrop(s: Bytes, i: nat)
    requires i <= |s|
    ensures s[..i] + s[i..] == s
  {
  }

  /** Nothing is lost or reordered. */
  lemma {:induction false} NothingIsLost(s: Bytes)
    ensures Concat(Lines(s)) + Rest(s) == s
    decreases |s|
  {
    var i := IndexOfNewline(s);
    if i < |s| {
      var line, tail := s[..i + 1], s[i + 1..];
      NothingIsLost(tail);
      ConcatPrepends(line, Lines(tail));
      Associates(line, Concat(Lines(tail)), Rest(tail));
      TakeDrop(s, i + 1);
    }
  }

  /** Every line is whole and the rest holds none. */
  lemma {:induction false} LinesAreWhole(s: Bytes)
    ensures AreLines(Lines(s)) && NoNewline(Rest(s))
    decreases |s|
  {
    var i := IndexOfNewline(s);
    if i < |s| {
      LinesAreWhole(s[i + 1..]);
      assert IsLine(s[..i + 1]);
    }
  }

  lemma NewlineOfLine(line: Bytes, tail: Bytes)
    requires IsLine(line)
    ensures IndexOfNewline(line + tail) == |line| - 1
  {
    var s, n := line + tail, |line| - 1;
    assert s[n] == NEWLINE;
    assert forall k :: 0 <= k < n ==> s[k] == line[..n][k];
  }

  lemma FirstLine(line: Bytes, tail: Bytes)
    requires IsLine(line)
    ensures Lines(line + tail) == [line] + Lines(tail) && Rest(line + tail) == Rest(tail)
  {
    NewlineOfLine(line, tail);
    assert (line + tail)[..|line|] == line && (line + tail)[|line|..] == tail;
  }

  /** The decomposition into whole lines and a rest without newline is unique. */
  lemma {:induction false} DecompositionIsUnique(lines: seq<Bytes>, rest: Bytes)
    requires AreLines(lines) && NoNewline(rest)
    ensures Lines(Concat(lines) + rest) == lines && Rest(Concat(lines) + rest) == rest
    decreases |lines|
  {
    if lines == [] {
      assert Concat(lines) + rest == rest;
    } else {
      var tail := Concat(lines[1..]) + rest;
      assert Concat(lines) + rest == lines[0] + tail;
      FirstLine(lines[0], tail);
      DecompositionIsUnique(lines[1..], rest);
    }
  }

  /** Splitting may be resumed from the rest of what was split before. */
  lemma {:induction false} SplitResumes(s: Bytes, p: Bytes)
    ensures Lines(s + p) == Lines(s) + Lines(Rest(s) + p)
    ensures Rest(s + p) == Rest(Rest(s) + p)
    decreases |s|
  {
    var i := IndexOfNewline(s);
    if i < |s| {
      var line, tail := s[..i + 1], s[i + 1..];
      assert s + p == line + (tail + p);
      FirstLine(line, tail + p);
      SplitResumes(tail, p);
    }
  }

  /** What was emitted and what is buffered are together what was written. */
  lemma EmittedAndBuffered(flushed: seq<Bytes>, written: Bytes)
    ensures Concat(flushed + Lines(written)) + Rest(written) == Concat(flushed) + written
  {
    NothingIsLost(written);
    ConcatAppends(flushed, Lines(written));
  }

  lemma SplitMore(flushed: seq<Bytes>, written: Bytes, p: Bytes)
    ensures flushed + Lines(written + p) == flushed + Lines(written) + Lines(Rest(written) + p)
    ensures Rest(written + p) == Rest(Rest(written) + p)
  {
    SplitResumes(written, p);
    Associates(flushed, Lines(written), Lines(Rest(written) + p));
  }

  class Splitter {
    var buf: Bytes
    var lines: seq<Bytes>      // what was emitted, in order
    ghost var flushed: seq<Bytes> // emitted up to the last flush
    ghost var written: Bytes      // written since the last flush

    /** The emitted lines and the buffer depend on the bytes alone, not on how they were chunked. */
    ghost predicate Valid()
      reads this
    {
      lines == flushed + Lines(written) && buf == Rest(written)
    }

    constructor ()
      ensures Valid() && lines == [] && buf == [] && flushed == [] && written == []
    {
      buf, lines, flushed, written := [], [], [], [];
    }

    /** The loop of Write: every whole line leaves the buffer. */
    method EmitLines()
      modifies this`buf, this`lines
      ensures lines == old(lines) + Lines(old(buf)) && buf == Rest(old(buf))
    {
      while true
        invariant lines + Lines(buf) == old(lines) + Lines(old(buf)) && Rest(buf) == Rest(old(buf))
        decreases |buf|
      {
        var i := IndexOfNewline(buf);
        if i == |buf| {
          break;
        }
        EmitOne(i);
      }
    }

    method EmitOne(i: nat)
      requires i == IndexOfNewline(buf) < |buf|
      modifies this`buf, this`lines
      ensures |buf| < |old(buf)|
      ensures lines + Lines(buf) == old(lines + Lines(buf)) && Rest(buf) == old(Rest(buf))
    {
      var line := buf[..i + 1];
      Associates(lines, [line], Lines(buf[i + 1..]));
      lines := lines + [line];
      buf := buf[i + 1..];
    }

    method Write(p: Bytes) returns (n: nat)
      requires Valid()
      modifies this
      ensures Valid() && written == old(written) + p && flushed == old(flushed) && n == |p|
      ensures Concat(lines) + buf == old(Concat(lines)) + (old(buf) + p)
      ensures old(lines) <= lines && AreLines(lines[|old(lines)|..])
    {
      SplitMore(flushed, written, p);
      ghost var before := lines;
      buf := buf + p;
      EmittedAndBuffered(lines, buf);
      ghost var more := Lines(buf);
      assert AreLines(more) by {
        LinesAreWhole(buf);
      }
      EmitLines();
      written := written + p;
      assert lines[|before|..] == more;
      n := |p|;
    }

    /** flush: the unterminated tail is emitted as the last line. */
    method Flush()
      requires Valid()
      modifies this
      ensures Valid() && buf == [] && written == [] && flushed == lines
      ensures Concat(lines) == old(Concat(lines) + buf)
      ensures lines == if old(buf) == [] then old(lines) else old(lines) + [old(buf)]
    {
      if |buf| > 0 {
        ConcatAppends(lines, [buf]);
        ConcatOne(buf);
        lines := lines + [buf];
        buf := [];
      }
      flushed, written := lines, [];
    }
  }

  lemma ConcatUpTo(chunks: seq<Bytes>, i: nat)
    requires i < |chunks|
    ensures Concat(chunks[..i + 1]) == Concat(chunks[..i]) + chunks[i]
  {
    assert chunks[..i + 1] == chunks[..i] + [chunks[i]];
    ConcatAppends(chunks[..i], [chunks[i]]);
    ConcatOne(chunks[i]);
  }

  /** Feeding a stream in any chunks emits the same lines, which after a flush are the whole stream. */
  method SplitChunks(chunks: seq<Bytes>) returns (lines: seq<Bytes>)
    ensures var s := Concat(chunks);
            lines == Lines(s) + if Rest(s) == [] then [] else [Rest(s)]
    ensures Concat(lines) == Concat(chunks)
  {
    var w := new Splitter();
    for i := 0 to |chunks|
      invariant fresh(w) && w.Valid() && w.flushed == [] && w.written == Concat(chunks[..i])
    {
      ConcatUpTo(chunks, i);
      var n := w.Write(chunks[i]);
    }
    assert chunks[..|chunks|] == chunks;
    EmittedAndBuffered([], Concat(chunks));
    w.Flush();
    lines := w.lines;
  }
}

/** The ring buffer of log lines. */
module RingWriters {

  const NEWLINE: char := '\n'

  // ------------------------------------------------- lines of a byte stream

  /** The position of the first newline, or the length when there is none. */
  function IndexNewline(data: string): (i: nat)
    ensures i <= |data|
  {
    if data == [] || data[0] == NEWLINE then 0 else IndexNewline(data[1..]) + 1
  }

  lemma {:induction false} IndexNewlineFirst(data: string)
    ensures var i := IndexNewline(data);
      (i < |data| ==> data[i] == NEWLINE) && NEWLINE !in data[..i]
  {
    if data != [] && data[0] != NEWLINE {
      IndexNewlineFirst(data[1..]);
      var i := IndexNewline(data[1..]);
      assert data[..i + 1] == [data[0]] + data[1..][..i];
    }
  }

  /** The complete lines of a stream, without their newlines. */
  function Complete(stream: string): (lines: seq<string>) {
    var i := IndexNewline(stream);
    if i == |stream| then [] else [stream[..i]] + Complete(stream[i + 1..])
  }

  /** What follows the last newline of a stream. */
  function Rest(stream: string): (s: string)
    decreases |stream|
  {
    var i := IndexNewline(stream);
    if i == |stream| then stream else Rest(stream[i + 1..])
  }

  /** The stream with its line structure undone. */
  function Joined(lines: seq<string>, rest: string): (s: string) {
    if lines == [] then rest else lines[0] + [NEWLINE] + Joined(lines[1..], rest)
  }

  /** Splitting into lines loses nothing, and no line or rest contains a newline. */
  lemma {:induction false} SplitIsFaithful(stream: string)
    ensures Joined(Complete(stream), Rest(stream)) == stream
    ensures NEWLINE !in Rest(stream) && forall l | l in Complete(stream) :: NEWLINE !in l
    decreases |stream|
  {
    var i := IndexNewline(stream);
    IndexNewlineFirst(stream);
    if i < |stream| {
      SplitIsFaithful(stream[i + 1..]);
      assert stream == stream[..i] + [NEWLINE] + stream[i + 1..];
      assert Complete(stream)[1..] == Complete(stream[i + 1..]);
    } else {
      assert stream[..i] == stream;
    }
  }

  lemma IndexNewlineUnique(data: string, i: nat)
    requires i < |data| && data[i] == NEWLINE && NEWLINE !in data[..i]
    ensures IndexNewline(data) == i
  {
    var k := IndexNewline(data);
    IndexNewlineFirst(data);
    assert forall t | 0 <= t < i :: data[t] == data[..i][t] && data[..i][t] in data[..i];
    assert forall t | 0 <= t < k :: data[t] == data[..k][t] && data[..k][t] in data[..k];
  }

  /** Cutting a stream in two changes neither its lines nor its rest: the second part continues the first's rest. */
  lemma {:induction false} SplitAcrossChunks(a: string, b: string)
    ensures Complete(a + b) == Complete(a) + Complete(Rest(a) + b)
    ensures Rest(a + b) == Rest(Rest(a) + b)
    decreases |a|
  {
    var i := IndexNewline(a);
    IndexNewlineFirst(a);
    if i < |a| {
      assert (a + b)[..i] == a[..i];
      IndexNewlineUnique(a + b, i);
      assert (a + b)[i + 1..] == a[i + 1..] + b;
      SplitAcrossChunks(a[i + 1..], b);
    }
  }

  function LastN(s: seq<string>, n: nat): (t: seq<string>) {
    if |s| <= n then s else s[|s| - n..]
  }

  function Concat(chunks: seq<string>): (s: string) {
    if chunks == [] then "" else Concat(chunks[..|chunks| - 1]) + chunks[|chunks| - 1]
  }

  // A step of unfolding; an induction hypothesis would only lead the proof astray.
  lemma {:induction false} FirstLine(rest: string, i: nat)
    requires i == IndexNewline(rest) < |rest|
    ensures Complete(rest) == [rest[..i]] + Complete(rest[i + 1..])
    ensures Rest(rest) == Rest(rest[i + 1..])
  {
    var line, tail := rest[..i], rest[i + 1..];
    assert Complete(rest) == [line] + Complete(tail);
  }

  lemma ConcatAssociates(a: seq<string>, b: seq<string>, c: seq<string>)
    ensures a + b + c == a + (b + c)
  {
  }

  lemma NoLineLeft(taken: seq<string>, rest: string)
    requires IndexNewline(rest) == |rest|
    ensures taken + Complete(rest) == taken && Rest(rest) == rest
  {
  }

  lemma ConcatStep(chunks: seq<string>, i: nat)
    requires i < |chunks|
    ensures Concat(chunks[..i + 1]) == Concat(chunks[..i]) + chunks[i]
  {
    assert chunks[..i + 1][..i] == chunks[..i];
  }

  class RingWriter {
    const capacity: nat
    var lines: array<string>
    var pos: nat
    var full: bool
    var partial: string
    var hasCallback: bool

    /** The calls made to the callback. */
    var delivered: seq<string>

    /** Everything written so far. */
    ghost var stream: string

    /** The stored lines in chronological order. */
    ghost function Stored(): (s: seq<string>)
      requires pos <= lines.Length
      reads this, lines
    {
      if full then lines[pos..] + lines[..pos] else lines[..pos]
    }

    ghost predicate Valid()
      reads this, lines
    {
      Holds(Complete(stream)) && partial == Rest(stream)
    }

    constructor (capacity: nat)
      requires capacity > 0
      ensures Valid() && fresh(lines) && this.capacity == capacity && stream == "" && delivered == [] && !hasCallback
    {
      this.capacity := capacity;
      lines := new string[capacity](_ => "");
      pos, full, partial, hasCallback, delivered, stream := 0, false, "", false, [], "";
    }

    /** The buffer holds the last lines of `history`. */
    ghost predicate Holds(history: seq<string>)
      reads this, lines
    {
      && lines.Length == capacity && pos < capacity
      && Stored() == LastN(history, capacity)
      && (full <==> |history| >= capacity)
    }

    /** Stores one line over the oldest one. */
    method Store(line: string, ghost history: seq<string>)
      requires Holds(history)
      modifies this`pos, this`full, lines
      ensures Holds(history + [line])
    {
      LastNPush(history, line, capacity);
      lines[pos] := line;
      pos := pos + 1;
      if pos >= capacity {
        pos := 0;
        full := true;
      }
    }

    /** Stores the complete lines of `all` one by one and returns them with what is left. */
    method StoreLines(all: string, ghost history: seq<string>) returns (newLines: seq<string>, rest: string)
      requires Holds(history)
      modifies this`pos, this`full, lines
      ensures Holds(history + newLines) && newLines == Complete(all) && rest == Rest(all)
    {
      newLines, rest := [], all;
      assert history + newLines == history;
      while true
        invariant Holds(history + newLines)
        invariant newLines + Complete(rest) == Complete(all) && Rest(rest) == Rest(all)
        decreases |rest|
      {
        var idx := IndexNewline(rest);
        if idx == |rest| {
          NoLineLeft(newLines, rest);
          return;
        }
        var line := rest[..idx];
        FirstLine(rest, idx);
        ConcatAssociates(newLines, [line], Complete(rest[idx + 1..]));
        ConcatAssociates(history, newLines, [line]);
        rest := rest[idx + 1..];
        Store(line, history + newLines);
        newLines := newLines + [line];
      }
    }

    /** Appends to the stream: stores its new lines, keeps the incomplete one, and reports the new lines. */
    method Write(p: string) returns (n: nat)
      requires Valid()
      modifies this`pos, this`full, this`partial, this`delivered, this`stream, lines
      ensures Valid() && n == |p| && stream == old(stream) + p
      ensures delivered == old(delivered) + (if hasCallback then Complete(old(partial) + p) else [])
    {
      SplitAcrossChunks(stream, p);
      var newLines;
      newLines, partial := StoreLines(partial + p, Complete(stream));
      stream := stream + p;
      if hasCallback {
        delivered := delivered + newLines;
      }
      n := |p|;
    }

    /** The stored lines, oldest first. */
    method Lines() returns (out: seq<string>)
      requires Valid()
      ensures |out| == if |Complete(stream)| < capacity then |Complete(stream)| else capacity
      ensures out == Complete(stream)[|Complete(stream)| - |out|..]
    {
      if !full {
        return lines[..pos];
      }
      out := lines[pos..] + lines[..pos];
    }

    method OnLine()
      requires Valid()
      modifies this`hasCallback
      ensures Valid() && hasCallback
    {
      hasCallback := true;
    }
  }

  lemma LastNPush(s: seq<string>, x: string, n: nat)
    requires n > 0
    ensures LastN(LastN(s, n) + [x], n) == LastN(s + [x], n)
  {
  }

  /** What a fresh writer with a callback has stored, kept back and reported after a sequence of writes. */
  method WriteAll(chunks: seq<string>, capacity: nat)
      returns (w: RingWriter)
    requires capacity > 0
    ensures w.Valid() && w.capacity == capacity && w.stream == Concat(chunks)
    ensures w.delivered == Complete(Concat(chunks))
  {
    w := new RingWriter(capacity);
    w.OnLine();
    for i := 0 to |chunks|
      invariant w.Valid() && w.hasCallback && fresh(w) && fresh(w.lines) && w.capacity == capacity
      invariant w.stream == Concat(chunks[..i]) && w.delivered == Complete(w.stream)
    {
      ConcatStep(chunks, i);
      SplitAcrossChunks(w.stream, chunks[i]);
      var n := w.Write(chunks[i]);
    }
    assert chunks[..|chunks|] == chunks;
  }

  /** Two ways of cutting the same bytes into writes leave the same lines, rest and callbacks. */
  method ChunkingDoesNotMatter(a: seq<string>, b: seq<string>, capacity: nat)
      returns (linesA: seq<string>, linesB: seq<string>, wa: RingWriter, wb: RingWriter)
    requires capacity > 0 && Concat(a) == Concat(b)
    ensures linesA == linesB && wa.partial == wb.partial && wa.delivered == wb.delivered
  {
    wa := WriteAll(a, capacity);
    wb := WriteAll(b, capacity);
    linesA := wa.Lines();
    linesB := wb.Lines();
  }
}

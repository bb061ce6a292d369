// Newline framing: one encoded message per line, written under a mutex and read back through a
// buffered reader that sees the stream in arbitrary chunks.
module Framing {
  newtype byte = x: int | 0 <= x < 256

  const NL: byte := 10
  const CR: byte := 13

  // ---------------------------------------------------------------------------------------------
  // What the reader loop makes of a whole stream

  // bytes.TrimRight(line, "\r\n")
  function TrimRight(line: seq<byte>): (t: seq<byte>)
    ensures t <= line
    ensures t == [] || (t[|t| - 1] != NL && t[|t| - 1] != CR)
    ensures forall i :: |t| <= i < |line| ==> line[i] == NL || line[i] == CR
  {
    if line != [] && (line[|line| - 1] == NL || line[|line| - 1] == CR) then TrimRight(line[..|line| - 1]) else line
  }

  // The position after the first newline, or the length when there is none.
  function LineEnd(s: seq<byte>): (n: nat)
    ensures n <= |s| && (s != [] ==> n > 0)
    ensures forall i :: 0 <= i < n - 1 ==> s[i] != NL
    ensures n < |s| ==> s[n - 1] == NL
  {
    if s == [] then 0 else if s[0] == NL then 1 else 1 + LineEnd(s[1..])
  }

  function Lines(s: seq<byte>): seq<seq<byte>> {
    if s == [] then [] else [TrimRight(s[..LineEnd(s)])] + Lines(s[LineEnd(s)..])
  }

  function Stream(ms: seq<seq<byte>>): seq<byte> {
    if ms == [] then [] else ms[0] + [NL] + Stream(ms[1..])
  }

  // An encoding the framing can carry: no newline inside, no carriage return at the end.
  predicate Clean(m: seq<byte>) { NL !in m && (m != [] ==> m[|m| - 1] != CR) }

  // ---------------------------------------------------------------------------------------------
  // Round trip

  lemma {:induction false} LineEndOf(m: seq<byte>, rest: seq<byte>)
    requires NL !in m
    ensures LineEnd(m + [NL] + rest) == |m| + 1
  {
    if m == [] {
      assert m + [NL] + rest == [NL] + rest;
    } else {
      assert (m + [NL] + rest)[1..] == m[1..] + [NL] + rest;
      LineEndOf(m[1..], rest);
    }
  }

  lemma {:induction false} LineEndWhole(m: seq<byte>)
    requires NL !in m
    ensures LineEnd(m) == |m|
  {
    if m != [] {
      LineEndWhole(m[1..]);
    }
  }

  lemma TrimTerminator(m: seq<byte>)
    ensures TrimRight(m + [NL]) == TrimRight(m)
  {
    assert (m + [NL])[..|m|] == m;
  }

  lemma TrimClean(m: seq<byte>)
    requires NL !in m
    ensures TrimRight(m) == m <==> Clean(m)
  {}

  lemma LinesCons(m: seq<byte>, rest: seq<byte>)
    requires NL !in m
    ensures Lines(m + [NL] + rest) == [TrimRight(m)] + Lines(rest)
  {
    var s := m + [NL] + rest;
    LineEndOf(m, rest);
    assert s[..|m| + 1] == m + [NL];
    assert s[|m| + 1..] == rest;
    TrimTerminator(m);
  }

  // Every newline ends a line, so a stream of terminated lines has as many lines as newlines.
  function Newlines(s: seq<byte>): nat {
    if s == [] then 0 else (if s[0] == NL then 1 else 0) + Newlines(s[1..])
  }

  lemma {:induction false} NewlinesSplit(s: seq<byte>, t: seq<byte>)
    ensures Newlines(s + t) == Newlines(s) + Newlines(t)
  {
    if s == [] {
      assert s + t == t;
    } else {
      assert (s + t)[1..] == s[1..] + t;
      NewlinesSplit(s[1..], t);
    }
  }

  lemma {:induction false} NewlinesNone(s: seq<byte>)
    ensures Newlines(s) == 0 <==> NL !in s
  {
    if s != [] {
      NewlinesNone(s[1..]);
    }
  }

  lemma NewlinesAfterLine(s: seq<byte>)
    requires s != [] && s[|s| - 1] == NL
    ensures Newlines(s) == 1 + Newlines(s[LineEnd(s)..])
    ensures s[LineEnd(s)..] == [] || s[LineEnd(s)..][|s[LineEnd(s)..]| - 1] == NL
  {
    var n := LineEnd(s);
    assert s == s[..n - 1] + ([NL] + s[n..]);
    NewlinesSplit(s[..n - 1], [NL] + s[n..]);
    NewlinesNone(s[..n - 1]);
    assert ([NL] + s[n..])[1..] == s[n..];
  }

  lemma {:induction false} LineCount(s: seq<byte>)
    requires s == [] || s[|s| - 1] == NL
    ensures |Lines(s)| == Newlines(s)
    decreases |s|
  {
    hide TrimRight, LineEnd;
    if s != [] {
      NewlinesAfterLine(s);
      LineCount(s[LineEnd(s)..]);
    }
  }

  function Inside(ms: seq<seq<byte>>): nat {
    if ms == [] then 0 else Newlines(ms[0]) + Inside(ms[1..])
  }

  lemma {:induction false} StreamNewlines(ms: seq<seq<byte>>)
    ensures Newlines(Stream(ms)) == |ms| + Inside(ms)
    ensures Stream(ms) == [] || Stream(ms)[|Stream(ms)| - 1] == NL
  {
    if ms != [] {
      var rest := Stream(ms[1..]);
      assert Stream(ms) == ms[0] + ([NL] + rest);
      NewlinesSplit(ms[0], [NL] + rest);
      assert ([NL] + rest)[1..] == rest;
      StreamNewlines(ms[1..]);
    }
  }

  lemma {:induction false} InsideNone(ms: seq<seq<byte>>)
    requires Inside(ms) == 0
    ensures forall i :: 0 <= i < |ms| ==> NL !in ms[i]
  {
    if ms != [] {
      NewlinesNone(ms[0]);
      InsideNone(ms[1..]);
    }
  }

  lemma {:induction false} LinesOfStream(ms: seq<seq<byte>>)
    requires forall i :: 0 <= i < |ms| ==> NL !in ms[i]
    ensures |Lines(Stream(ms))| == |ms|
    ensures forall i :: 0 <= i < |ms| ==> Lines(Stream(ms))[i] == TrimRight(ms[i])
  {
    if ms != [] {
      LinesCons(ms[0], Stream(ms[1..]));
      LinesOfStream(ms[1..]);
    }
  }

  // The framing round trip, exactly: the reader recovers what was written, message by message and in
  // order, if and only if every encoding is clean.
  lemma FramingRoundTrip(ms: seq<seq<byte>>)
    ensures Lines(Stream(ms)) == ms <==> forall i :: 0 <= i < |ms| ==> Clean(ms[i])
  {
    if Lines(Stream(ms)) == ms {
      StreamNewlines(ms);
      LineCount(Stream(ms));
      InsideNone(ms);
    }
    if forall i :: 0 <= i < |ms| ==> NL !in ms[i] {
      LinesOfStream(ms);
      forall i | 0 <= i < |ms| ensures TrimRight(ms[i]) == ms[i] <==> Clean(ms[i]) {
        TrimClean(ms[i]);
      }
    }
  }

  lemma OneLine(last: seq<byte>)
    requires NL !in last && last != []
    ensures Lines(last) == [TrimRight(last)] && Lines([]) == []
  {
    LineEndWhole(last);
    assert last[..|last|] == last && last[|last|..] == [];
  }

  lemma {:induction false} LinesOpenEnd(ms: seq<seq<byte>>, last: seq<byte>)
    requires NL !in last && last != [] && forall i :: 0 <= i < |ms| ==> NL !in ms[i]
    ensures Lines(Stream(ms) + last) == Lines(Stream(ms)) + [TrimRight(last)]
  {
    hide TrimRight, LineEnd, Lines;
    if ms == [] {
      assert Stream(ms) + last == last;
      OneLine(last);
    } else {
      assert Stream(ms) + last == ms[0] + [NL] + (Stream(ms[1..]) + last);
      LinesCons(ms[0], Stream(ms[1..]) + last);
      LinesCons(ms[0], Stream(ms[1..]));
      LinesOpenEnd(ms[1..], last);
    }
  }

  // A final message without its newline is recovered as well.
  lemma OpenEndRoundTrip(ms: seq<seq<byte>>, last: seq<byte>)
    requires Clean(last) && last != [] && forall i :: 0 <= i < |ms| ==> Clean(ms[i])
    ensures Lines(Stream(ms) + last) == ms + [last]
  {
    LinesOpenEnd(ms, last);
    FramingRoundTrip(ms);
    TrimClean(last);
  }

  // ---------------------------------------------------------------------------------------------
  // The reader: a buffer over a source of chunks

  function Flatten(chunks: seq<seq<byte>>): seq<byte> {
    if chunks == [] then [] else chunks[0] + Flatten(chunks[1..])
  }

  class LineReader {
    var buffer: seq<byte>
    var source: seq<seq<byte>>  // what the remaining calls of Read will return, in order

    ghost function Rest(): seq<byte>
      reads this
    {
      buffer + Flatten(source)
    }

    constructor (chunks: seq<seq<byte>>)
      ensures Rest() == Flatten(chunks)
    {
      buffer := [];
      source := chunks;
    }

    // bufio.Reader.ReadBytes('\n'): through the first newline, or everything and end of file.
    method ReadLine() returns (line: seq<byte>, eof: bool)
      modifies this
      ensures line == old(Rest())[..LineEnd(old(Rest()))] && Rest() == old(Rest())[LineEnd(old(Rest()))..]
      ensures eof ==> Rest() == []
      ensures !eof ==> line != []
    {
      while NL !in buffer && source != []
        invariant Rest() == old(Rest())
        decreases |source|
      {
        buffer := buffer + source[0];
        source := source[1..];
        assert Rest() == old(Rest());
      }
      LineEndPrefix(buffer, Flatten(source));
      var n := LineEnd(buffer);
      eof := NL !in buffer;
      if eof {
        LineEndWhole(buffer);
        assert Rest() == buffer;
      }
      line := buffer[..n];
      buffer := buffer[n..];
    }

    // The goroutine of newIOConn: every non-empty line is trimmed and delivered, until end of file.
    method ReadLoop() returns (delivered: seq<seq<byte>>)
      modifies this
      ensures delivered == Lines(old(Rest())) && Rest() == []
    {
      hide Flatten, TrimRight, Lines, LineEnd;
      delivered := [];
      var eof := false;
      while !eof
        invariant delivered + Lines(Rest()) == Lines(old(Rest()))
        invariant eof ==> Rest() == []
        decreases !eof, |Rest()|
      {
        ghost var before := Rest();
        var line;
        line, eof := ReadLine();
        FirstLine(before);
        if |line| > 0 {
          delivered := delivered + [TrimRight(line)];
        }
      }
      NothingToRead();
    }
  }

  lemma FirstLine(s: seq<byte>)
    ensures s[..LineEnd(s)] == [] <==> s == []
    ensures s != [] ==> Lines(s) == [TrimRight(s[..LineEnd(s)])] + Lines(s[LineEnd(s)..]) && |s[LineEnd(s)..]| < |s|
  {}

  lemma NothingToRead()
    ensures Lines([]) == []
  {}

  lemma {:induction false} LineEndPrefix(s: seq<byte>, t: seq<byte>)
    requires NL in s || t == []
    ensures LineEnd(s + t) == LineEnd(s)
  {
    if t == [] {
      assert s + t == s;
    } else if s[0] != NL {
      assert (s + t)[1..] == s[1..] + t;
      LineEndPrefix(s[1..], t);
    }
  }

  // Any chunking of the stream delivers the same messages: those that were written.
  method ReadBack(ms: seq<seq<byte>>, chunks: seq<seq<byte>>) returns (delivered: seq<seq<byte>>)
    requires Flatten(chunks) == Stream(ms)
    ensures delivered == ms <==> forall i :: 0 <= i < |ms| ==> Clean(ms[i])
  {
    var reader := new LineReader(chunks);
    delivered := reader.ReadLoop();
    FramingRoundTrip(ms);
  }

  // ---------------------------------------------------------------------------------------------
  // The writer

  // ioConn: each Write appends one whole frame under the mutex; Close reaches the stream once and
  // every caller sees the same result.
  class IoConn {
    var stream: seq<byte>
    ghost var written: seq<seq<byte>>
    var closeCalls: nat
    var closeErr: bool

    ghost predicate Valid()
      reads this
    {
      stream == Stream(written) && closeCalls <= 1
    }

    constructor ()
      ensures Valid() && written == [] && closeCalls == 0
    {
      stream, written, closeCalls, closeErr := [], [], 0, false;
    }

    // Write with a context that is already cancelled writes nothing.
    method Write(data: seq<byte>, ctxDone: bool) returns (ok: bool)
      requires Valid()
      modifies this`stream, this`written
      ensures Valid() && ok == !ctxDone
      ensures written == if ok then old(written) + [data] else old(written)
    {
      if ctxDone {
        return false;
      }
      stream := stream + data + [NL];
      StreamSnoc(written, data);
      written := written + [data];
      ok := true;
    }

    method Close(result: bool) returns (err: bool)
      requires Valid()
      modifies this`closeCalls, this`closeErr
      ensures Valid() && closeCalls == 1 && err == closeErr
      ensures old(closeCalls) == 1 ==> closeErr == old(closeErr)
      ensures old(closeCalls) == 0 ==> closeErr == result
    {
      if closeCalls == 0 {
        closeErr := result;
        closeCalls := closeCalls + 1;
      }
      err := closeErr;
    }
  }

  lemma {:induction false} StreamSnoc(ms: seq<seq<byte>>, m: seq<byte>)
    ensures Stream(ms + [m]) == Stream(ms) + m + [NL]
  {
    if ms == [] {
      assert ms + [m] == [m];
    } else {
      assert (ms + [m])[1..] == ms[1..] + [m];
      StreamSnoc(ms[1..], m);
    }
  }

  // One call of Write, and what a writer's calls leave on the stream: nothing of the cancelled ones.
  datatype Attempt = Attempt(msg: seq<byte>, ctxDone: bool)

  function Trace(attempt: Attempt): seq<seq<byte>> { if attempt.ctxDone then [] else [attempt.msg] }

  function Kept(attempts: seq<Attempt>): seq<seq<byte>> {
    if attempts == [] then [] else Trace(attempts[0]) + Kept(attempts[1..])
  }

  // The writers' calls, each writer's in its own order, happen one at a time in the order of a schedule.
  predicate Runs(todo: seq<seq<Attempt>>, schedule: seq<nat>)
    decreases |schedule|
  {
    if schedule == [] then forall w :: 0 <= w < |todo| ==> todo[w] == []
    else
      var w := schedule[0];
      w < |todo| && todo[w] != [] && Runs(todo[w := todo[w][1..]], schedule[1..])
  }

  function Written(todo: seq<seq<Attempt>>, schedule: seq<nat>): seq<seq<byte>>
    requires Runs(todo, schedule)
    decreases |schedule|
  {
    if schedule == [] then []
    else
      var w := schedule[0];
      Trace(todo[w][0]) + Written(todo[w := todo[w][1..]], schedule[1..])
  }

  // The lines at the places of one owner.
  function Of(lines: seq<seq<byte>>, owners: seq<nat>, w: nat): seq<seq<byte>>
    requires |owners| == |lines|
  {
    if lines == [] then [] else (if owners[0] == w then [lines[0]] else []) + Of(lines[1..], owners[1..], w)
  }

  // The lines are the lists shuffled: every line belongs to one list, and each list is there whole and
  // in its own order.
  ghost predicate Shuffled(lines: seq<seq<byte>>, lists: seq<seq<seq<byte>>>) {
    exists owners: seq<nat> ::
      |owners| == |lines| && (forall i :: 0 <= i < |owners| ==> owners[i] < |lists|)
      && forall w :: 0 <= w < |lists| ==> Of(lines, owners, w) == lists[w]
  }

  function KeptBy(todo: seq<seq<Attempt>>): seq<seq<seq<byte>>> { seq(|todo|, w requires 0 <= w < |todo| => Kept(todo[w])) }

  lemma {:induction false} WrittenIsShuffled(todo: seq<seq<Attempt>>, schedule: seq<nat>) returns (owners: seq<nat>)
    requires Runs(todo, schedule)
    ensures |owners| == |Written(todo, schedule)| && forall i :: 0 <= i < |owners| ==> owners[i] < |todo|
    ensures forall w :: 0 <= w < |todo| ==> Of(Written(todo, schedule), owners, w) == Kept(todo[w])
    decreases |schedule|
  {
    if schedule == [] {
      owners := [];
    } else {
      var w := schedule[0];
      var rest := todo[w := todo[w][1..]];
      var later := WrittenIsShuffled(rest, schedule[1..]);
      owners := if todo[w][0].ctxDone then later else [w] + later;
      forall v | 0 <= v < |todo| ensures Of(Written(todo, schedule), owners, v) == Kept(todo[v]) {
        assert Of(Written(rest, schedule[1..]), later, v) == Kept(rest[v]);
        if todo[w][0].ctxDone {
          assert Written(todo, schedule) == Written(rest, schedule[1..]);
        } else {
          assert Written(todo, schedule)[1..] == Written(rest, schedule[1..]) && owners[1..] == later;
        }
      }
    }
  }

  // A written message is one that some writer kept.
  lemma {:induction false} WrittenWasKept(todo: seq<seq<Attempt>>, schedule: seq<nat>, i: nat)
    requires Runs(todo, schedule) && i < |Written(todo, schedule)|
    ensures exists w :: 0 <= w < |todo| && Written(todo, schedule)[i] in Kept(todo[w])
    decreases |schedule|
  {
    var w := schedule[0];
    var rest := todo[w := todo[w][1..]];
    var first := |Trace(todo[w][0])|;
    if i < first {
      assert Kept(todo[w])[0] == Written(todo, schedule)[i];
    } else {
      WrittenWasKept(rest, schedule[1..], i - first);
      var v :| 0 <= v < |rest| && Written(rest, schedule[1..])[i - first] in Kept(rest[v]);
      assert Written(todo, schedule)[i] in Kept(todo[v]);
    }
  }

  // However the writers interleave, the lines read back are their messages shuffled: whole, and each
  // writer's in its own order.
  lemma EveryWriterInOrder(todo: seq<seq<Attempt>>, schedule: seq<nat>)
    requires Runs(todo, schedule)
    requires forall w, m :: 0 <= w < |todo| && m in Kept(todo[w]) ==> Clean(m)
    ensures Shuffled(Lines(Stream(Written(todo, schedule))), KeptBy(todo))
  {
    var written := Written(todo, schedule);
    forall i | 0 <= i < |written| ensures Clean(written[i]) {
      WrittenWasKept(todo, schedule, i);
    }
    FramingRoundTrip(written);
    var owners := WrittenIsShuffled(todo, schedule);
    assert Lines(Stream(written)) == written;
  }
}

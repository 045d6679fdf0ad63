/** The log reader: chunks from a pipe in, lines out, with a bounded buffer. */
module LogSink {
  import opened Framing

  /** A partial line longer than this is written out as a line of its own. */
  const LIMIT := 64 * 1024

  /** The reader's buffer, what it wrote, and how often it had to flush a partial line. */
  datatype Sink = Sink(pending: Bytes, emitted: seq<Bytes>, flushes: nat)

  const EMPTY := Sink([], [], 0)

  /** One successful read. */
  function Take(s: Sink, chunk: Bytes): Sink {
    var cut := CutLines(s.pending + chunk);
    if |cut.tail| > LIMIT then Sink([], s.emitted + (cut.lines + [cut.tail]), s.flushes + 1)
    else Sink(cut.tail, s.emitted + cut.lines, s.flushes)
  }

  function TakeAll(chunks: seq<Bytes>): Sink {
    if chunks == [] then EMPTY
    else Take(TakeAll(chunks[..|chunks| - 1]), chunks[|chunks| - 1])
  }

  /** End of the stream: a partial line is written out. */
  function Close(s: Sink): seq<Bytes> {
    if s.pending != [] then s.emitted + [s.pending] else s.emitted
  }

  class LogReader {
    var pending: Bytes
    var emitted: seq<Bytes>
    ghost var flushes: nat

    constructor ()
      ensures Sink(pending, emitted, flushes) == EMPTY
    {
      pending, emitted, flushes := [], [], 0;
    }

    /** One pass over the buffer: the complete lines, and where the rest starts. */
    static method CompleteLines(buffer: Bytes) returns (lines: seq<Bytes>, start: nat)
      ensures start <= |buffer| && CutLines(buffer) == Cut(lines, buffer[start..])
    {
      lines, start := [], 0;
      var i := 0;
      Begin(buffer);
      while i < |buffer|
        invariant CutSoFar(buffer, lines, start, i)
      {
        if buffer[i] == NEWLINE {
          LineOut(buffer, lines, start, i);
          lines := lines + [buffer[start..i]];
          start := i + 1;
        } else {
          NoLineYet(buffer, lines, start, i);
        }
        i := i + 1;
      }
      AllCut(buffer, lines, start);
    }

    method Read(chunk: Bytes)
      modifies this
      ensures Sink(pending, emitted, flushes) == Take(old(Sink(pending, emitted, flushes)), chunk)
    {
      pending := pending + chunk;
      var lines, start := CompleteLines(pending);
      emitted, pending := emitted + lines, pending[start..];
      if |pending| > LIMIT {
        assert old(emitted) + lines + [pending] == old(emitted) + (lines + [pending]);
        emitted, pending := emitted + [pending], [];
        flushes := flushes + 1;
      }
    }

    method ReaderLoop(chunks: seq<Bytes>)
      requires Sink(pending, emitted, flushes) == EMPTY
      modifies this
      ensures emitted == Close(TakeAll(chunks))
    {
      var i := 0;
      while i < |chunks|
        invariant 0 <= i <= |chunks|
        invariant Sink(pending, emitted, flushes) == TakeAll(chunks[..i])
      {
        assert chunks[..i + 1][..i] == chunks[..i];
        Read(chunks[i]);
        i := i + 1;
      }
      assert chunks[..i] == chunks;
      if pending != [] { emitted := emitted + [pending]; }
    }
  }

  lemma NewlineFreeIsTail(s: Bytes)
    requires forall k | 0 <= k < |s| :: s[k] != NEWLINE
    ensures CutLines(s) == Cut([], s)
  {
  }

  /** The complete lines among the first `i` bytes are out; the last of them ended before `start`. */
  ghost predicate CutSoFar(s: Bytes, lines: seq<Bytes>, start: nat, i: nat) {
    && start <= i <= |s| && (forall k | start <= k < i :: s[k] != NEWLINE)
    && var rest := CutLines(s[start..]); CutLines(s) == Cut(lines + rest.lines, rest.tail)
  }

  lemma Begin(s: Bytes)
    ensures CutSoFar(s, [], 0, 0)
  {
    assert s[0..] == s && [] + CutLines(s).lines == CutLines(s).lines;
  }

  lemma NoLineYet(s: Bytes, lines: seq<Bytes>, start: nat, i: nat)
    requires CutSoFar(s, lines, start, i) && i < |s| && s[i] != NEWLINE
    ensures CutSoFar(s, lines, start, i + 1)
  {
  }

  lemma AllCut(s: Bytes, lines: seq<Bytes>, start: nat)
    requires CutSoFar(s, lines, start, |s|)
    ensures CutLines(s) == Cut(lines, s[start..])
  {
    var rest := s[start..];
    assert forall k | 0 <= k < |rest| :: rest[k] == s[start + k];
    NewlineFreeIsTail(rest);
    assert lines + [] == lines;
  }

  /** The line that ends at `i` goes out. */
  lemma LineOut(s: Bytes, lines: seq<Bytes>, start: nat, i: nat)
    requires CutSoFar(s, lines, start, i) && i < |s| && s[i] == NEWLINE
    ensures CutSoFar(s, lines + [s[start..i]], i + 1, i + 1)
  {
    var line, rest := s[start..i], s[i + 1..];
    assert forall k | 0 <= k < |line| :: line[k] == s[start + k];
    assert s[start..] == Frame(line) + rest;
    CutOfFirstLine(line, rest);
    LinesAssoc(lines, [line], CutLines(rest).lines);
  }

  // ---- The stream ----------------------------------------------------------

  function Flatten(parts: seq<Bytes>): Bytes {
    if parts == [] then [] else Flatten(parts[..|parts| - 1]) + parts[|parts| - 1]
  }

  /** The bytes that are no newlines. */
  function Strip(s: Bytes): Bytes {
    if s == [] then [] else Strip(s[..|s| - 1]) + (if s[|s| - 1] == NEWLINE then [] else [s[|s| - 1]])
  }

  /** The whole stream split at its newlines, with a last line that may lack one. */
  function Split(s: Bytes): seq<Bytes> {
    var cut := CutLines(s);
    if cut.tail != [] then cut.lines + [cut.tail] else cut.lines
  }

  lemma {:induction false} FlattenConcat(a: seq<Bytes>, b: seq<Bytes>)
    ensures Flatten(a + b) == Flatten(a) + Flatten(b)
    decreases |b|
  {
    if b == [] {
      assert a + b == a;
    } else {
      assert (a + b)[..|a + b| - 1] == a + b[..|b| - 1];
      FlattenConcat(a, b[..|b| - 1]);
    }
  }

  lemma {:induction false} StripConcat(a: Bytes, b: Bytes)
    ensures Strip(a + b) == Strip(a) + Strip(b)
    decreases |b|
  {
    if b == [] {
      assert a + b == a;
    } else {
      assert (a + b)[..|a + b| - 1] == a + b[..|b| - 1];
      StripConcat(a, b[..|b| - 1]);
    }
  }

  lemma {:induction false} StripNewlineFree(s: Bytes)
    requires NewlineFree(s)
    ensures Strip(s) == s
  {
    if s != [] {
      var front, last := s[..|s| - 1], s[|s| - 1];
      assert s == front + [last];
      StripNewlineFree(front);
    }
  }

  lemma FlattenOne(l: Bytes)
    ensures Flatten([l]) == l
  {
    assert [l][..0] == [];
  }

  lemma CutStep(s: Bytes, k: nat)
    requires k == FindNewline(s, 0) && k < |s|
    ensures NewlineFree(s[..k]) && s == Frame(s[..k]) + s[k + 1..]
    ensures CutLines(s) == Cut([s[..k]] + CutLines(s[k + 1..]).lines, CutLines(s[k + 1..]).tail)
  {
  }

  /** Cutting drops nothing but the newlines. */
  lemma {:induction false} CutKeepsBytes(s: Bytes)
    ensures Flatten(CutLines(s).lines) + CutLines(s).tail == Strip(s)
    decreases |s|
  {
    var k := FindNewline(s, 0);
    if k == |s| {
      StripNewlineFree(s);
      assert Flatten([]) + s == s;
    } else {
      var l, rest := s[..k], s[k + 1..];
      CutStep(s, k);
      CutKeepsBytes(rest);
      LineKeepsBytes(l, CutLines(rest));
      StripLine(l, rest);
    }
  }

  lemma LineKeepsBytes(l: Bytes, cut: Cut)
    ensures Flatten([l] + cut.lines) + cut.tail == l + (Flatten(cut.lines) + cut.tail)
  {
    FlattenConcat([l], cut.lines);
    FlattenOne(l);
    Reassociate(l, Flatten(cut.lines), cut.tail);
  }

  lemma Reassociate(a: Bytes, b: Bytes, c: Bytes)
    ensures (a + b) + c == a + (b + c)
  {
  }

  lemma StripFrame(l: Bytes)
    requires NewlineFree(l)
    ensures Strip(Frame(l)) == l
  {
    StripConcat(l, [NEWLINE]);
    StripNewlineFree(l);
    assert [NEWLINE][..0] == [];
    assert Strip([NEWLINE]) == [] && l + [] == l;
  }

  lemma StripLine(l: Bytes, rest: Bytes)
    requires NewlineFree(l)
    ensures Strip(Frame(l) + rest) == l + Strip(rest)
  {
    StripConcat(Frame(l), rest);
    StripFrame(l);
  }

  /** What one read adds, lines and rest together. */
  lemma CutKeepsRead(pending: Bytes, chunk: Bytes)
    requires NewlineFree(pending)
    ensures var cut := CutLines(pending + chunk); Flatten(cut.lines) + cut.tail == pending + Strip(chunk)
  {
    CutKeepsBytes(pending + chunk);
    StripConcat(pending, chunk);
    StripNewlineFree(pending);
  }

  lemma FlattenTail(emitted: seq<Bytes>, lines: seq<Bytes>, tail: Bytes)
    ensures Flatten(emitted + lines) + tail == Flatten(emitted) + (Flatten(lines) + tail)
    ensures Flatten(emitted + (lines + [tail])) == Flatten(emitted) + (Flatten(lines) + tail)
  {
    FlattenConcat(emitted, lines);
    Reassociate(Flatten(emitted), Flatten(lines), tail);
    FlattenConcat(lines, [tail]);
    FlattenOne(tail);
    FlattenConcat(emitted, lines + [tail]);
  }

  lemma TakeKeepsBytes(s: Sink, chunk: Bytes)
    requires NewlineFree(s.pending)
    ensures var t := Take(s, chunk);
            Flatten(t.emitted) + t.pending == Flatten(s.emitted) + s.pending + Strip(chunk)
  {
    var cut := CutLines(s.pending + chunk);
    CutKeepsRead(s.pending, chunk);
    FlattenTail(s.emitted, cut.lines, cut.tail);
    Reassociate(Flatten(s.emitted), s.pending, Strip(chunk));
    assert Flatten(Take(s, chunk).emitted) + [] == Flatten(Take(s, chunk).emitted);
  }

  /** After every read the buffer holds no newline and at most 65536 bytes. */
  lemma PendingIsBounded(chunks: seq<Bytes>)
    ensures NewlineFree(TakeAll(chunks).pending) && |TakeAll(chunks).pending| <= 65536
  {
  }

  lemma {:induction false} BytesSoFar(chunks: seq<Bytes>)
    ensures var s := TakeAll(chunks); Flatten(s.emitted) + s.pending == Strip(Flatten(chunks))
  {
    if chunks != [] {
      var front, last := chunks[..|chunks| - 1], chunks[|chunks| - 1];
      BytesSoFar(front);
      PendingIsBounded(front);
      TakeKeepsBytes(TakeAll(front), last);
      StripConcat(Flatten(front), last);
    }
  }

  /** However the stream is cut into chunks, the lines written, one after the other, are
      the stream without its newlines: nothing is lost, repeated or reordered. */
  lemma NothingIsLost(chunks: seq<Bytes>)
    ensures Flatten(Close(TakeAll(chunks))) == Strip(Flatten(chunks))
  {
    var s := TakeAll(chunks);
    BytesSoFar(chunks);
    if s.pending != [] {
      FlattenConcat(s.emitted, [s.pending]);
      FlattenOne(s.pending);
    }
  }

  // ---- Are the lines the lines? --------------------------------------------

  /** Without a flush the reader is exactly the cutter of the whole stream. */
  lemma {:induction false} NoFlushIsCut(chunks: seq<Bytes>)
    ensures TakeAll(chunks).flushes == 0 ==>
              var cut := CutLines(Flatten(chunks)); TakeAll(chunks) == Sink(cut.tail, cut.lines, 0)
  {
    if chunks != [] {
      var front, last := chunks[..|chunks| - 1], chunks[|chunks| - 1];
      NoFlushIsCut(front);
      CutConcat(Flatten(front), last);
    }
  }

  /** A piece that starts with a partial line is at least as long. */
  lemma FirstPiece(tail: Bytes, more: Bytes)
    requires tail != [] && NewlineFree(tail)
    ensures Split(tail + more) != [] && |Split(tail + more)[0]| >= |tail|
  {
    var s := tail + more;
    var k := FindNewline(s, 0);
    assert forall j | 0 <= j < |tail| :: s[j] == tail[j] && tail[j] in tail;
    assert k >= |tail|;
  }

  lemma SplitConcat(a: Bytes, b: Bytes)
    ensures Split(a + b) == CutLines(a).lines + Split(CutLines(a).tail + b)
  {
    CutConcat(a, b);
    var rest := CutLines(CutLines(a).tail + b);
    LinesAssoc(CutLines(a).lines, rest.lines, [rest.tail]);
  }

  predicate Within(lines: seq<Bytes>, limit: nat) {
    forall i | 0 <= i < |lines| :: |lines[i]| <= limit
  }

  /** If no line of the stream is longer than 65536 bytes, nothing is ever flushed early. */
  lemma {:induction false} ShortLinesNeverFlush(chunks: seq<Bytes>, rest: Bytes)
    requires Within(Split(Flatten(chunks) + rest), LIMIT)
    ensures TakeAll(chunks).flushes == 0
  {
    if chunks != [] {
      var front, last := chunks[..|chunks| - 1], chunks[|chunks| - 1];
      Reassociate(Flatten(front), last, rest);
      ShortLinesNeverFlush(front, last + rest);
      NoFlushIsCut(front);
      CutConcat(Flatten(front), last);
      TailIsShort(Flatten(chunks), rest);
    }
  }

  lemma TailIsShort(a: Bytes, b: Bytes)
    requires Within(Split(a + b), LIMIT)
    ensures |CutLines(a).tail| <= LIMIT
  {
    var tail := CutLines(a).tail;
    SplitConcat(a, b);
    if tail != [] {
      FirstPiece(tail, b);
      var n := |CutLines(a).lines|;
      assert Split(a + b)[n] == Split(tail + b)[0];
    }
  }

  /** So with no line over 65536 bytes, what is written is exactly the split of the whole
      stream, whatever the chunks. */
  lemma ShortLinesAreTheSplit(chunks: seq<Bytes>)
    requires Within(Split(Flatten(chunks)), 65536)
    ensures Close(TakeAll(chunks)) == Split(Flatten(chunks))
  {
    assert Flatten(chunks) + [] == Flatten(chunks);
    ShortLinesNeverFlush(chunks, []);
    NoFlushIsCut(chunks);
  }

  // ---- Exactly when they are -----------------------------------------------

  function Newlines(s: Bytes): nat {
    |CutLines(s).lines|
  }

  /** Each flush writes one line too many so far. */
  lemma {:induction false} LinesCounted(chunks: seq<Bytes>)
    ensures var s := TakeAll(chunks); |s.emitted| == Newlines(Flatten(chunks)) + s.flushes
  {
    if chunks != [] {
      var front, last := chunks[..|chunks| - 1], chunks[|chunks| - 1];
      LinesCounted(front);
      PendingIsBounded(front);
      NewlinesAdd(Flatten(front), last);
      TailDoesNotCount(TakeAll(front).pending, last);
    }
  }

  lemma FreeConcat(a: Bytes, b: Bytes)
    requires NewlineFree(a) && forall i | 0 <= i < |b| :: b[i] != NEWLINE
    ensures NewlineFree(a + b)
  {
  }

  /** A partial line joins the first line of what follows it. */
  lemma JoinsFirstLine(a: Bytes, b: Bytes, k: nat)
    requires NewlineFree(a) && k == FindNewline(b, 0) && k < |b|
    ensures CutLines(a + b) == Cut([a + b[..k]] + CutLines(b[k + 1..]).lines, CutLines(b[k + 1..]).tail)
    ensures CutLines(b) == Cut([b[..k]] + CutLines(b[k + 1..]).lines, CutLines(b[k + 1..]).tail)
  {
    FreeConcat(a, b[..k]);
    assert a + b == Frame(a + b[..k]) + b[k + 1..];
    CutOfFirstLine(a + b[..k], b[k + 1..]);
  }

  lemma TailDoesNotCount(a: Bytes, b: Bytes)
    requires NewlineFree(a)
    ensures Newlines(a + b) == Newlines(b)
  {
    var k := FindNewline(b, 0);
    if k == |b| {
      FreeConcat(a, b);
      assert forall j | 0 <= j < |a + b| :: (a + b)[j] in a + b;
      NewlineFreeIsTail(a + b);
    } else {
      JoinsFirstLine(a, b, k);
    }
  }

  lemma NewlinesAdd(a: Bytes, b: Bytes)
    ensures Newlines(a + b) == Newlines(a) + Newlines(b)
  {
    CutConcat(a, b);
    TailDoesNotCount(CutLines(a).tail, b);
  }

  // The condition, on the chunks alone: at every read boundary the unfinished line is
  // within the limit, or nothing follows any more.

  function TailAt(chunks: seq<Bytes>, i: nat): Bytes
    requires i <= |chunks|
  {
    CutLines(Flatten(chunks[..i])).tail
  }

  /** No read boundary leaves a partial line over the limit. */
  predicate ShortTails(chunks: seq<Bytes>) {
    forall i | 0 <= i <= |chunks| :: |TailAt(chunks, i)| <= 65536
  }

  /** None does, unless the stream ends there. */
  predicate ShortTailsBeforeMore(chunks: seq<Bytes>) {
    forall i | 0 <= i <= |chunks| :: |TailAt(chunks, i)| <= 65536 || Flatten(chunks[i..]) == []
  }

  lemma TailOfFront(chunks: seq<Bytes>, i: nat)
    requires chunks != [] && i < |chunks|
    ensures TailAt(chunks[..|chunks| - 1], i) == TailAt(chunks, i)
  {
    assert chunks[..|chunks| - 1][..i] == chunks[..i];
  }

  /** One more chunk after an unflushed run flushes exactly when its tail is too long. */
  lemma FlushOrNot(chunks: seq<Bytes>)
    requires chunks != [] && TakeAll(chunks[..|chunks| - 1]).flushes == 0
    ensures TakeAll(chunks).flushes == if |TailAt(chunks, |chunks|)| <= LIMIT then 0 else 1
    ensures TakeAll(chunks).flushes == 1 ==>
              var cut := CutLines(Flatten(chunks)); TakeAll(chunks) == Sink([], cut.lines + [cut.tail], 1)
  {
    var front, last := chunks[..|chunks| - 1], chunks[|chunks| - 1];
    NoFlushIsCut(front);
    CutConcat(Flatten(front), last);
    assert chunks[..|chunks|] == chunks;
    var cut := CutLines(CutLines(Flatten(front)).tail + last);
    LinesAssoc(CutLines(Flatten(front)).lines, cut.lines, [cut.tail]);
  }

  /** Nothing is ever flushed early exactly when every tail is short. */
  lemma {:induction false} NoFlushExactlyWhen(chunks: seq<Bytes>)
    ensures TakeAll(chunks).flushes == 0 <==> ShortTails(chunks)
  {
    if chunks == [] {
      assert chunks[..0] == [];
      assert TailAt(chunks, 0) == [];
    } else {
      var front := chunks[..|chunks| - 1];
      NoFlushExactlyWhen(front);
      forall i | 0 <= i < |chunks| ensures TailAt(front, i) == TailAt(chunks, i) { TailOfFront(chunks, i); }
      if TakeAll(front).flushes == 0 { FlushOrNot(chunks); }
    }
  }

  lemma {:induction false} NothingMore(chunks: seq<Bytes>, i: nat, j: nat)
    requires i <= j <= |chunks| && Flatten(chunks[i..]) == []
    ensures Flatten(chunks[j..]) == []
  {
    assert chunks[i..] == chunks[i..j] + chunks[j..];
    FlattenConcat(chunks[i..j], chunks[j..]);
  }

  /** The first boundary with a long tail, given one. */
  lemma {:induction false} FirstLongTail(chunks: seq<Bytes>, i: nat) returns (j: nat)
    requires i <= |chunks| && |TailAt(chunks, i)| > LIMIT
    ensures j <= i && |TailAt(chunks, j)| > LIMIT && forall k | 0 <= k < j :: |TailAt(chunks, k)| <= LIMIT
  {
    j := i;
    if k :| 0 <= k < i && |TailAt(chunks, k)| > LIMIT { j := FirstLongTail(chunks, k); }
  }

  lemma ShortBefore(chunks: seq<Bytes>, n: nat)
    requires n <= |chunks| && forall k | 0 <= k <= n :: |TailAt(chunks, k)| <= LIMIT
    ensures TakeAll(chunks[..n]).flushes == 0
  {
    forall k | 0 <= k <= n ensures TailAt(chunks[..n], k) == TailAt(chunks, k) {
      assert chunks[..n][..k] == chunks[..k];
    }
    NoFlushExactlyWhen(chunks[..n]);
  }

  /** Where a run first flushes: the tails before are short, the one there is not. */
  lemma FirstFlush(chunks: seq<Bytes>) returns (j: nat)
    requires TakeAll(chunks).flushes > 0
    ensures FlushesAt(chunks, j) && forall k | 0 <= k < j :: |TailAt(chunks, k)| <= LIMIT
  {
    NoFlushExactlyWhen(chunks);
    var i :| 0 <= i <= |chunks| && |TailAt(chunks, i)| > LIMIT;
    j := FirstLongTail(chunks, i);
    assert chunks[..0] == [] && TailAt(chunks, 0) == [];
    ShortBefore(chunks, j - 1);
  }

  /** The first flush comes with chunk `j`. */
  predicate FlushesAt(chunks: seq<Bytes>, j: nat) {
    0 < j <= |chunks| && TakeAll(chunks[..j - 1]).flushes == 0 && |TailAt(chunks, j)| > LIMIT
  }

  /** After a flush, a run goes on as if it began anew. */
  lemma {:induction false} AfterFlush(chunks: seq<Bytes>, j: nat)
    requires j <= |chunks| && TakeAll(chunks[..j]).pending == []
    ensures var s, t := TakeAll(chunks[..j]), TakeAll(chunks[j..]);
            TakeAll(chunks) == Sink(t.pending, s.emitted + t.emitted, s.flushes + t.flushes)
    decreases |chunks|
  {
    if j == |chunks| {
      assert chunks[..j] == chunks && chunks[j..] == [];
      assert TakeAll(chunks).emitted + [] == TakeAll(chunks).emitted;
    } else {
      var front, last := chunks[..|chunks| - 1], chunks[|chunks| - 1];
      var rest := chunks[j..];
      assert front[..j] == chunks[..j] && front[j..] == rest[..|rest| - 1] && rest[|rest| - 1] == last;
      AfterFlush(front, j);
      var cut := CutLines(TakeAll(front[j..]).pending + last);
      LinesAssoc(TakeAll(chunks[..j]).emitted, TakeAll(front[j..]).emitted, cut.lines);
      LinesAssoc(TakeAll(chunks[..j]).emitted, TakeAll(front[j..]).emitted, cut.lines + [cut.tail]);
    }
  }

  lemma {:induction false} EmptyChunks(chunks: seq<Bytes>)
    requires Flatten(chunks) == []
    ensures TakeAll(chunks) == EMPTY
  {
    if chunks != [] {
      var front, last := chunks[..|chunks| - 1], chunks[|chunks| - 1];
      assert Flatten(front) == [] && last == [];
      EmptyChunks(front);
    }
  }

  /** A run with its first flush at `j`: cut up to there, and begun anew from there. */
  lemma FlushSplitsRun(chunks: seq<Bytes>, j: nat)
    requires FlushesAt(chunks, j)
    ensures var cut, t := CutLines(Flatten(chunks[..j])), TakeAll(chunks[j..]);
            TakeAll(chunks) == Sink(t.pending, (cut.lines + [cut.tail]) + t.emitted, 1 + t.flushes)
  {
    var first := chunks[..j];
    assert first[..j - 1] == chunks[..j - 1] && first[..j] == first;
    FlushOrNot(first);
    AfterFlush(chunks, j);
  }

  lemma StreamAt(chunks: seq<Bytes>, j: nat)
    requires j <= |chunks|
    ensures Flatten(chunks) == Flatten(chunks[..j]) + Flatten(chunks[j..])
  {
    assert chunks == chunks[..j] + chunks[j..];
    FlattenConcat(chunks[..j], chunks[j..]);
  }

  /** If nothing follows the first flush, it took the end of the stream. */
  lemma FlushAtEndIsSplit(chunks: seq<Bytes>, j: nat)
    requires FlushesAt(chunks, j) && Flatten(chunks[j..]) == []
    ensures Close(TakeAll(chunks)) == Split(Flatten(chunks))
  {
    FlushSplitsRun(chunks, j);
    StreamAt(chunks, j);
    EmptyChunks(chunks[j..]);
    var first := Flatten(chunks[..j]);
    var lines := CutLines(first).lines + [CutLines(first).tail];
    assert first + [] == first && lines + [] == lines;
  }

  /** Once a newline has come in, the partial line before it does not matter. */
  lemma SameTail(a: Bytes, b: Bytes)
    requires NewlineFree(a) && Newlines(b) > 0
    ensures CutLines(a + b).tail == CutLines(b).tail
  {
    JoinsFirstLine(a, b, FindNewline(b, 0));
  }

  lemma NoNewlineIsTail(b: Bytes)
    requires Newlines(b) == 0
    ensures CutLines(b).tail == b
  {
  }

  /** If something follows the first flush, there is a line too many. */
  lemma EarlyFlushShows(chunks: seq<Bytes>, j: nat)
    requires FlushesAt(chunks, j) && Flatten(chunks[j..]) != []
    ensures |Close(TakeAll(chunks))| > |Split(Flatten(chunks))|
  {
    FlushSplitsRun(chunks, j);
    LinesCounted(chunks);
    StreamAt(chunks, j);
    if TakeAll(chunks[j..]).flushes == 0 { RestHasItsOwnTail(Flatten(chunks[..j]), chunks[j..]); }
  }

  lemma RestHasItsOwnTail(a: Bytes, rest: seq<Bytes>)
    requires TakeAll(rest).flushes == 0 && Flatten(rest) != []
    ensures CutLines(a + Flatten(rest)).tail != [] ==> TakeAll(rest).pending != []
  {
    var b := Flatten(rest);
    NoFlushIsCut(rest);
    CutConcat(a, b);
    if Newlines(b) > 0 { SameTail(CutLines(a).tail, b); } else { NoNewlineIsTail(b); }
  }

  /** What is written equals the split of the stream exactly when no read ends inside a
      partial line of more than 65536 bytes, unless nothing follows it. */
  lemma SplitExactlyWhen(chunks: seq<Bytes>)
    ensures Close(TakeAll(chunks)) == Split(Flatten(chunks)) <==> ShortTailsBeforeMore(chunks)
  {
    NoFlushExactlyWhen(chunks);
    if TakeAll(chunks).flushes == 0 {
      NoFlushIsCut(chunks);
    } else {
      var j := FirstFlush(chunks);
      if Flatten(chunks[j..]) == [] {
        FlushAtEndIsSplit(chunks, j);
        forall i | j <= i <= |chunks| ensures Flatten(chunks[i..]) == [] { NothingMore(chunks, j, i); }
      } else {
        EarlyFlushShows(chunks, j);
      }
    }
  }

  // ---- A stream that is not split at its newlines --------------------------

  /** A piece of a line. */
  function Letters(n: nat): (s: Bytes)
    ensures |s| == n && forall i | 0 <= i < n :: s[i] != NEWLINE
  {
    if n == 0 then [] else Letters(n - 1) + [120]
  }

  /** Full reads of a line that does not end. */
  function Blocks(n: nat): seq<Bytes> {
    if n == 0 then [] else Blocks(n - 1) + [Letters(4096)]
  }

  lemma {:induction false} BlocksAreOneLine(n: nat)
    ensures |Blocks(n)| == n && |Flatten(Blocks(n))| == 4096 * n && NewlineFree(Flatten(Blocks(n)))
  {
    if n > 0 {
      BlocksAreOneLine(n - 1);
      var done, block := Flatten(Blocks(n - 1)), Letters(4096);
      FlattenConcat(Blocks(n - 1), [block]);
      FlattenOne(block);
      FreeConcat(done, block);
    }
  }

  /** Eighteen full reads of a line without an end: after the seventeenth the buffer is
      over the limit and goes out early, so one line is written as two. */
  lemma LongLineInTwoPieces()
    ensures Split(Flatten(Blocks(18))) == [Flatten(Blocks(18))]
    ensures Close(TakeAll(Blocks(18))) != Split(Flatten(Blocks(18)))
  {
    var chunks := Blocks(18);
    BlocksAreOneLine(18);
    BlocksAreOneLine(17);
    assert chunks[..17] == Blocks(17) && chunks[17..] == [Letters(4096)];
    NewlineFreeIsUnfinished(Flatten(chunks));
    NewlineFreeIsUnfinished(Flatten(Blocks(17)));
    FlattenOne(Letters(4096));
    OneLine(Flatten(chunks));
    assert |TailAt(chunks, 17)| > LIMIT && Flatten(chunks[17..]) != [];
    SplitExactlyWhen(chunks);
  }

  lemma OneLine(s: Bytes)
    requires NewlineFree(s) && s != []
    ensures Split(s) == [s]
  {
    assert forall k | 0 <= k < |s| :: s[k] in s;
    NewlineFreeIsTail(s);
  }
}

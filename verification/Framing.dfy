/** Newline framing, the only framing on the page socket and in the log pipe.

    The writer appends one newline to each message; the reader appends whatever
    chunk the descriptor returned to an inbox and cuts every complete line off its
    front. What the reader hands on must not depend on how the kernel cut the
    stream into chunks. */
module Framing {

  newtype byte = x: int | 0 <= x < 256

  type Bytes = seq<byte>

  const NEWLINE: byte := 10

  predicate NewlineFree(s: Bytes) {
    NEWLINE !in s
  }

  /** A message the framing can carry: non-empty, and no newline of its own. */
  predicate Framable(m: Bytes) {
    m != [] && NewlineFree(m)
  }

  predicate AllFramable(ms: seq<Bytes>) {
    forall i | 0 <= i < |ms| :: Framable(ms[i])
  }

  // ---- The writer's side ---------------------------------------------------

  function Frame(m: Bytes): Bytes {
    m + [NEWLINE]
  }

  function Encode(ms: seq<Bytes>): Bytes {
    if ms == [] then [] else Frame(ms[0]) + Encode(ms[1..])
  }

  // ---- The reader's side ---------------------------------------------------

  /** The position of the first newline of `s` from `i` on, or `|s|`. */
  function FindNewline(s: Bytes, i: nat): (k: nat)
    requires i <= |s|
    ensures i <= k <= |s|
    ensures forall j | i <= j < k :: s[j] != NEWLINE
    ensures k < |s| ==> s[k] == NEWLINE
    decreases |s| - i
  {
    if i == |s| || s[i] == NEWLINE then i else FindNewline(s, i + 1)
  }

  /** A byte stream cut into its complete lines and the unfinished rest. */
  datatype Cut = Cut(lines: seq<Bytes>, tail: Bytes)

  function CutLines(s: Bytes): (c: Cut)
    ensures NewlineFree(c.tail)
    ensures forall i | 0 <= i < |c.lines| :: NewlineFree(c.lines[i])
    decreases |s|
  {
    var k := FindNewline(s, 0);
    if k == |s| then
      Cut([], s)
    else
      var rest := CutLines(s[k + 1..]);
      Cut([s[..k]] + rest.lines, rest.tail)
  }

  /** The lines that are delivered: empty ones are skipped. */
  function NonEmpty(ls: seq<Bytes>): (ms: seq<Bytes>)
    ensures (forall i | 0 <= i < |ls| :: NewlineFree(ls[i])) ==> AllFramable(ms)
  {
    if ls == [] then []
    else if ls[0] == [] then NonEmpty(ls[1..])
    else [ls[0]] + NonEmpty(ls[1..])
  }

  function Messages(s: Bytes): (ms: seq<Bytes>)
    ensures AllFramable(ms)
  {
    NonEmpty(CutLines(s).lines)
  }

  function Unfinished(s: Bytes): Bytes {
    CutLines(s).tail
  }

  // ---- Laws ----------------------------------------------------------------

  lemma CutOfFirstLine(l: Bytes, rest: Bytes)
    requires NewlineFree(l)
    ensures CutLines(Frame(l) + rest) == Cut([l] + CutLines(rest).lines, CutLines(rest).tail)
  {
    var s := Frame(l) + rest;
    assert s[|l|] == NEWLINE;
    assert forall j | 0 <= j < |l| :: s[j] == l[j] && l[j] in l;
    assert FindNewline(s, 0) == |l|;
    assert s[..|l|] == l && s[|l| + 1..] == rest;
  }

  lemma LinesAssoc(a: seq<Bytes>, b: seq<Bytes>, c: seq<Bytes>)
    ensures a + (b + c) == (a + b) + c
  {
  }

  /** Cutting a longer stream: what was complete stays, the unfinished rest is
      cut again together with what arrived. */
  lemma {:induction false} CutConcat(a: Bytes, b: Bytes)
    ensures CutLines(a + b)
         == Cut(CutLines(a).lines + CutLines(CutLines(a).tail + b).lines, CutLines(CutLines(a).tail + b).tail)
    decreases |a|
  {
    var k := FindNewline(a, 0);
    if k == |a| {
      assert CutLines(a) == Cut([], a);
      assert [] + CutLines(a + b).lines == CutLines(a + b).lines;
    } else {
      var l, rest := a[..k], a[k + 1..];
      assert a + b == Frame(l) + (rest + b);
      CutOfFirstLine(l, rest + b);
      CutConcat(rest, b);
      assert CutLines(a) == Cut([l] + CutLines(rest).lines, CutLines(rest).tail);
      LinesAssoc([l], CutLines(rest).lines, CutLines(CutLines(rest).tail + b).lines);
    }
  }

  lemma {:induction false} NonEmptyConcat(a: seq<Bytes>, b: seq<Bytes>)
    ensures NonEmpty(a + b) == NonEmpty(a) + NonEmpty(b)
  {
    if a == [] {
      assert a + b == b;
    } else {
      NonEmptyConcat(a[1..], b);
      assert (a + b)[0] == a[0] && (a + b)[1..] == a[1..] + b;
      LinesAssoc([a[0]], NonEmpty(a[1..]), NonEmpty(b));
    }
  }

  /** The messages of a stream do not depend on where it was cut: feeding the
      second part to the inbox that the first part left gives the rest. */
  lemma MessagesConcat(a: Bytes, b: Bytes)
    ensures Messages(a + b) == Messages(a) + Messages(Unfinished(a) + b)
    ensures Unfinished(a + b) == Unfinished(Unfinished(a) + b)
  {
    CutConcat(a, b);
    NonEmptyConcat(CutLines(a).lines, CutLines(Unfinished(a) + b).lines);
  }

  lemma NewlineFreeIsUnfinished(s: Bytes)
    requires NewlineFree(s)
    ensures Messages(s) == [] && Unfinished(s) == s
  {
    assert forall j | 0 <= j < |s| :: s[j] in s;
    assert FindNewline(s, 0) == |s|;
  }

  lemma {:induction false} CutOfEncode(ms: seq<Bytes>, rest: Bytes)
    requires forall i | 0 <= i < |ms| :: NewlineFree(ms[i])
    ensures CutLines(Encode(ms) + rest) == Cut(ms + CutLines(rest).lines, CutLines(rest).tail)
  {
    if ms == [] {
      assert Encode(ms) + rest == rest && ms + CutLines(rest).lines == CutLines(rest).lines;
    } else {
      CutOfEncode(ms[1..], rest);
      assert Encode(ms) + rest == Frame(ms[0]) + (Encode(ms[1..]) + rest);
      CutOfFirstLine(ms[0], Encode(ms[1..]) + rest);
      LinesAssoc([ms[0]], ms[1..], CutLines(rest).lines);
      assert [ms[0]] + ms[1..] == ms;
    }
  }

  lemma {:induction false} NonEmptyIsIdentity(ms: seq<Bytes>)
    requires forall i | 0 <= i < |ms| :: ms[i] != []
    ensures NonEmpty(ms) == ms
  {
    if ms != [] { NonEmptyIsIdentity(ms[1..]); }
  }

  lemma MessagesOfEncode(ms: seq<Bytes>, rest: Bytes)
    requires AllFramable(ms)
    ensures Messages(Encode(ms) + rest) == ms + Messages(rest)
    ensures Unfinished(Encode(ms) + rest) == Unfinished(rest)
  {
    CutOfEncode(ms, rest);
    NonEmptyConcat(ms, CutLines(rest).lines);
    NonEmptyIsIdentity(ms);
  }

  /** The framing round trip holds for exactly the lists of framable messages: an
      empty message is skipped by the reader and a newline splits one in two. */
  lemma RoundTripIff(ms: seq<Bytes>)
    ensures Messages(Encode(ms)) == ms <==> AllFramable(ms)
  {
    if AllFramable(ms) {
      MessagesOfEncode(ms, []);
      assert Encode(ms) + [] == Encode(ms) && ms + Messages([]) == ms;
    }
  }

  /** A stream of whole frames, none of them empty. */
  predicate Whole(s: Bytes) {
    s == Encode(Messages(s))
  }

  lemma EncodedIsWhole(ms: seq<Bytes>)
    requires AllFramable(ms)
    ensures Whole(Encode(ms)) && Messages(Encode(ms)) == ms && Unfinished(Encode(ms)) == []
  {
    MessagesOfEncode(ms, []);
    assert Encode(ms) + [] == Encode(ms) && ms + Messages([]) == ms;
  }

  lemma {:induction false} EncodeOneMore(ms: seq<Bytes>, m: Bytes)
    ensures Encode(ms + [m]) == Encode(ms) + Frame(m)
  {
    if ms == [] {
      assert ms + [m] == [m] && Encode([m][1..]) == [];
    } else {
      assert (ms + [m])[0] == ms[0] && (ms + [m])[1..] == ms[1..] + [m];
      EncodeOneMore(ms[1..], m);
    }
  }

  lemma FrameAdded(s: Bytes, m: Bytes)
    requires Whole(s) && Framable(m)
    ensures Whole(s + Frame(m)) && Messages(s + Frame(m)) == Messages(s) + [m]
  {
    EncodeOneMore(Messages(s), m);
    EncodedIsWhole(Messages(s) + [m]);
  }

  /** Whole frames stay whole when a reader takes a first part of them, wherever it ends. */
  lemma {:induction false} EncodedRest(ms: seq<Bytes>, a: Bytes, b: Bytes)
    requires AllFramable(ms) && a + b == Encode(ms)
    ensures Whole(Unfinished(a) + b)
    decreases |ms|
  {
    if ms != [] && |a| > |ms[0]| {
      var f := Frame(ms[0]);
      var rest := a[|f|..];
      assert a == f + rest by { assert a == (a + b)[..|a|]; }
      assert rest + b == Encode(ms[1..]) by { assert (a + b)[|f|..] == rest + b; }
      assert Encode([ms[0]]) == f;
      MessagesOfEncode([ms[0]], rest);
      EncodedRest(ms[1..], rest, b);
    } else {
      assert NewlineFree(a) by {
        if ms != [] {
          assert a == ms[0][..|a|] by { assert a == (a + b)[..|a|]; }
        }
      }
      NewlineFreeIsUnfinished(a);
      EncodedIsWhole(ms);
    }
  }

  lemma WholeRest(a: Bytes, b: Bytes)
    requires Whole(a + b)
    ensures Whole(Unfinished(a) + b)
  {
    EncodedRest(Messages(a + b), a, b);
  }

  // ---- The decoder object --------------------------------------------------

  /** The inbox both ends of the socket keep: the pump's `inbox` string and the
      webhost's `inbox` byte array, with the same loop over them. */
  class Decoder {
    var inbox: Bytes

    constructor ()
      ensures inbox == []
    {
      inbox := [];
    }

    /** One chunk from the socket. Returns the messages handed on, in order. */
    method Feed(chunk: Bytes) returns (delivered: seq<Bytes>)
      modifies this
      ensures delivered == Messages(old(inbox) + chunk)
      ensures inbox == Unfinished(old(inbox) + chunk)
    {
      inbox := inbox + chunk;
      delivered := [];
      ghost var whole := inbox;
      var nl := FindNewline(inbox, 0);
      while nl < |inbox|
        invariant nl == FindNewline(inbox, 0)
        invariant delivered + Messages(inbox) == Messages(whole)
        invariant Unfinished(inbox) == Unfinished(whole)
        decreases |inbox|
      {
        var line := inbox[..nl];
        ghost var before := inbox;
        inbox := inbox[nl + 1..];
        assert before == Frame(line) + inbox;
        CutOfFirstLine(line, inbox);
        if line != [] {
          delivered := delivered + [line];
        }
        nl := FindNewline(inbox, 0);
      }
    }
  }
}

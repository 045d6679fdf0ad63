/** The text of a token: 32 random bytes packed six bits at a time.

    The packer keeps a 32-bit accumulator that overflows long before the last byte;
    the specification is the unpadded base64url text of sections 4 and 5 of RFC 4648,
    defined here group by group without any accumulator. */
module TokenText {
  import opened Division

  type byte = x: int | 0 <= x < 256
  type sextet = x: int | 0 <= x < 64

  const RAW_BYTES := 32
  const OUT_CHARS := 43
  const WORD := 0x1_0000_0000

  /** The URL and file name safe alphabet (RFC 4648, table 2): A-Z, a-z, 0-9, '-', '_'. */
  function Letter(v: sextet): char {
    var n: int := v;
    if n < 26 then ('A' as int + n) as char
    else if n < 52 then ('a' as int + (n - 26)) as char
    else if n < 62 then ('0' as int + (n - 52)) as char
    else if n == 62 then '-'
    else '_'
  }

  // ---- The specification ---------------------------------------------------

  /** Six bits: the upper six of a byte, the border between two, the lower six. */
  function Upper(a: byte): sextet {
    (a / 4)
  }

  function Border1(a: byte, b: int): sextet
    requires 0 <= b < 256
  {
    (a % 4 * 16 + b / 16)
  }

  function Border2(b: byte, c: int): sextet
    requires 0 <= c < 256
  {
    (b % 16 * 4 + c / 64)
  }

  function Lower(c: byte): sextet {
    (c % 64)
  }

  /** Three bytes are four sextets; a final one or two bytes are padded with zero bits. */
  function Sextets(bs: seq<byte>): seq<sextet> {
    if |bs| == 0 then []
    else if |bs| == 1 then [Upper(bs[0]), Border1(bs[0], 0)]
    else if |bs| == 2 then [Upper(bs[0]), Border1(bs[0], bs[1]), Border2(bs[1], 0)]
    else Group(bs[0], bs[1], bs[2]) + Sextets(bs[3..])
  }

  function Group(a: byte, b: byte, c: byte): (ss: seq<sextet>)
    ensures |ss| == 4
  {
    [Upper(a), Border1(a, b), Border2(b, c), Lower(c)]
  }

  function Text(ss: seq<sextet>): (s: string)
    ensures |s| == |ss|
  {
    if ss == [] then "" else [Letter(ss[0])] + Text(ss[1..])
  }

  function Base64Url(bs: seq<byte>): string {
    Text(Sextets(bs))
  }

  // ---- The decoder ---------------------------------------------------------

  function CharValue(c: char): (v: int)
    ensures -1 <= v < 64
  {
    if 'A' <= c <= 'Z' then c as int - 'A' as int
    else if 'a' <= c <= 'z' then c as int - 'a' as int + 26
    else if '0' <= c <= '9' then c as int - '0' as int + 52
    else if c == '-' then 62
    else if c == '_' then 63
    else -1
  }

  predicate InAlphabet(s: string) {
    forall i | 0 <= i < |s| :: CharValue(s[i]) >= 0
  }

  function Values(s: string): (ss: seq<sextet>)
    requires InAlphabet(s)
    ensures |ss| == |s|
  {
    if s == "" then [] else [CharValue(s[0])] + Values(s[1..])
  }

  function First(s: sextet, t: sextet): byte {
    (s * 4 + t / 16)
  }

  function Second(t: sextet, u: sextet): byte {
    (t % 16 * 16 + u / 4)
  }

  function Third(u: sextet, v: sextet): byte {
    (u % 4 * 64 + v)
  }

  function Bytes(ss: seq<sextet>): seq<byte> {
    if |ss| <= 1 then []
    else if |ss| == 2 then [First(ss[0], ss[1])]
    else if |ss| == 3 then [First(ss[0], ss[1]), Second(ss[1], ss[2])]
    else [First(ss[0], ss[1]), Second(ss[1], ss[2]), Third(ss[2], ss[3])] + Bytes(ss[4..])
  }

  // ---- Round trip ----------------------------------------------------------

  lemma {:induction false} TextRoundTrip(ss: seq<sextet>)
    ensures InAlphabet(Text(ss)) && Values(Text(ss)) == ss
  {
    if ss != [] {
      assert CharValue(Letter(ss[0])) == ss[0];
      TextRoundTrip(ss[1..]);
      assert Text(ss)[1..] == Text(ss[1..]);
    }
  }

  lemma GroupRoundTrip(a: byte, b: byte, c: byte)
    ensures First(Upper(a), Border1(a, b)) == a
    ensures Second(Border1(a, b), Border2(b, c)) == b
    ensures Third(Border2(b, c), Lower(c)) == c
  {
  }

  lemma GroupThen(a: byte, b: byte, c: byte, rest: seq<sextet>)
    ensures Bytes(Group(a, b, c) + rest) == [a, b, c] + Bytes(rest)
  {
    var ss := Group(a, b, c) + rest;
    assert ss[..4] == Group(a, b, c) && ss[4..] == rest;
    assert ss[0] == Upper(a) && ss[1] == Border1(a, b) && ss[2] == Border2(b, c) && ss[3] == Lower(c);
    GroupRoundTrip(a, b, c);
  }

  /** Decoding recovers every byte, for any number of bytes. */
  lemma {:induction false} SextetsRoundTrip(bs: seq<byte>)
    ensures Bytes(Sextets(bs)) == bs
  {
    if |bs| >= 3 {
      SextetsRoundTrip(bs[3..]);
      GroupThen(bs[0], bs[1], bs[2], Sextets(bs[3..]));
      assert bs == [bs[0], bs[1], bs[2]] + bs[3..];
    } else {
      ShortRoundTrip(bs);
    }
  }

  lemma ShortRoundTrip(bs: seq<byte>)
    requires |bs| < 3
    ensures Bytes(Sextets(bs)) == bs
  {
    if |bs| == 1 {
      OneRoundTrip(bs[0]);
      assert bs == [bs[0]];
    } else if |bs| == 2 {
      TwoRoundTrip(bs[0], bs[1]);
      assert bs == [bs[0], bs[1]];
    }
  }

  lemma OneSextets(a: byte)
    ensures Sextets([a]) == [Upper(a), Border1(a, 0)]
  {
  }

  lemma TwoBytes(x: sextet, y: sextet)
    ensures Bytes([x, y]) == [First(x, y)]
  {
  }

  lemma OneRoundTrip(a: byte)
    ensures Bytes(Sextets([a])) == [a]
  {
    OneSextets(a);
    TwoBytes(Upper(a), Border1(a, 0));
    GroupRoundTrip(a, 0, 0);
  }

  lemma TwoRoundTrip(a: byte, b: byte)
    ensures Bytes(Sextets([a, b])) == [a, b]
  {
    GroupRoundTrip(a, b, 0);
    assert Sextets([a, b]) == [Upper(a), Border1(a, b), Border2(b, 0)];
  }

  lemma Base64RoundTrip(bs: seq<byte>)
    ensures InAlphabet(Base64Url(bs)) && Bytes(Values(Base64Url(bs))) == bs
  {
    TextRoundTrip(Sextets(bs));
    SextetsRoundTrip(bs);
  }

  /** Distinct byte strings have distinct texts. */
  lemma TextsAreDistinct(a: seq<byte>, b: seq<byte>)
    requires Base64Url(a) == Base64Url(b)
    ensures a == b
  {
    Base64RoundTrip(a);
    Base64RoundTrip(b);
  }

  // ---- The packer ----------------------------------------------------------

  /** The position inside a group of three. */
  function Phase(n: nat): (p: nat)
    ensures p < 3
  {
    if n < 3 then n else Phase(n - 3)
  }

  lemma {:induction false} PhaseStep(n: nat)
    ensures Phase(n + 1) == if Phase(n) == 2 then 0 else Phase(n) + 1
  {
    if n >= 3 { PhaseStep(n - 3); }
  }

  /** The sextets that the bytes so far determine, without padding. */
  function Early(bs: seq<byte>): seq<sextet> {
    if bs == [] then []
    else
      var before := bs[..|bs| - 1];
      Early(before) + Completed(before, bs[|bs| - 1])
  }

  /** The sextets that one more byte completes. */
  function Completed(bs: seq<byte>, b: byte): seq<sextet> {
    if Phase(|bs|) == 0 then [Upper(b)]
    else if Phase(|bs|) == 1 then [Border1(bs[|bs| - 1], b)]
    else [Border2(bs[|bs| - 1], b), Lower(b)]
  }

  /** How many bits of the last byte have not been emitted after `n` bytes. */
  function Bits(n: nat): nat {
    if Phase(n) == 0 then 0 else if Phase(n) == 1 then 2 else 4
  }

  /** The low bits of the accumulator are the ones not yet emitted. */
  predicate Holds(acc: int, bs: seq<byte>) {
    && 0 <= acc < WORD
    && (Phase(|bs|) == 1 ==> acc % 4 == bs[|bs| - 1] % 4)
    && (Phase(|bs|) == 2 ==> acc % 16 == bs[|bs| - 1] % 16)
  }

  lemma Regroup(a: seq<sextet>, b: seq<sextet>, c: seq<sextet>)
    ensures a + (b + c) == a + b + c
  {
  }

  lemma EarlyAppend(bs: seq<byte>, b: byte)
    ensures Early(bs + [b]) == Early(bs) + Completed(bs, b)
  {
    assert (bs + [b])[..|bs|] == bs;
  }

  /** Whole groups come out of the packer one by one. */
  lemma {:induction false} EarlyGroup(a: byte, b: byte, c: byte, rest: seq<byte>)
    ensures Early([a, b, c] + rest) == Group(a, b, c) + Early(rest)
    decreases |rest|
  {
    if rest == [] {
      FirstGroup(a, b, c);
      assert [a, b, c] + rest == [a, b, c];
    } else {
      var before, last := rest[..|rest| - 1], rest[|rest| - 1];
      EarlyGroup(a, b, c, before);
      assert [a, b, c] + rest == ([a, b, c] + before) + [last] && rest == before + [last];
      EarlyAppend([a, b, c] + before, last);
      EarlyAppend(before, last);
      CompletedGroup(a, b, c, before, last);
      Regroup(Group(a, b, c), Early(before), Completed(before, last));
    }
  }

  lemma FirstGroup(a: byte, b: byte, c: byte)
    ensures Early([a, b, c]) == Group(a, b, c)
  {
    EarlyAppend([a, b], c);
    EarlyAppend([a], b);
    EarlyAppend([], a);
    assert [] + [a] == [a] && [a] + [b] == [a, b] && [a, b] + [c] == [a, b, c];
  }

  lemma CompletedGroup(a: byte, b: byte, c: byte, bs: seq<byte>, last: byte)
    ensures Completed([a, b, c] + bs, last) == Completed(bs, last)
  {
    var all := [a, b, c] + bs;
    assert |all| == |bs| + 3;
    if bs != [] { assert all[|all| - 1] == bs[|bs| - 1]; }
  }

  /** What is padded at the end: one sextet if bits remain. */
  function Padding(bs: seq<byte>): seq<sextet> {
    if Phase(|bs|) == 0 then []
    else if Phase(|bs|) == 1 then [Border1(bs[|bs| - 1], 0)]
    else [Border2(bs[|bs| - 1], 0)]
  }

  lemma {:induction false} SextetsSplit(bs: seq<byte>)
    ensures Sextets(bs) == Early(bs) + Padding(bs)
  {
    if |bs| >= 3 {
      SextetsSplit(bs[3..]);
      EarlyGroup(bs[0], bs[1], bs[2], bs[3..]);
      assert bs == [bs[0], bs[1], bs[2]] + bs[3..];
      assert Padding(bs) == Padding(bs[3..]);
      Regroup(Group(bs[0], bs[1], bs[2]), Early(bs[3..]), Padding(bs));
    } else if |bs| == 2 {
      SplitTwo(bs, bs[0], bs[1]);
    } else if |bs| == 1 {
      SplitOne(bs, bs[0]);
    }
  }

  lemma SplitOne(bs: seq<byte>, a: byte)
    requires bs == [a]
    ensures Sextets(bs) == Early(bs) + Padding(bs)
  {
    EarlyAppend([], a);
    assert [] + [a] == [a];
  }

  lemma SplitTwo(bs: seq<byte>, a: byte, b: byte)
    requires bs == [a, b]
    ensures Sextets(bs) == Early(bs) + Padding(bs)
  {
    EarlyAppend([], a);
    EarlyAppend([a], b);
    assert [] + [a] == [a] && [a] + [b] == [a, b];
  }

  lemma TextCons(c: char, a: string, b: string)
    ensures [c] + (a + b) == ([c] + a) + b
  {
  }

  lemma {:induction false} TextAppend(a: seq<sextet>, b: seq<sextet>)
    ensures Text(a + b) == Text(a) + Text(b)
  {
    if a == [] {
      assert a + b == b;
      assert "" + Text(b) == Text(b);
    } else {
      TextAppend(a[1..], b);
      assert (a + b)[1..] == a[1..] + b;
      TextCons(Letter(a[0]), Text(a[1..]), Text(b));
    }
  }

  /** Shifting in a byte: the top byte falls off, the rest moves up by eight bits. */
  lemma Shift(acc: int, b: int)
    requires 0 <= acc < WORD && 0 <= b < 256
    ensures acc * 256 % WORD + b == 256 * (acc % 0x100_0000) + b < WORD
  {
    Quotient(acc * 256, WORD, acc / 0x100_0000, acc % 0x100_0000 * 256);
  }

  /** Masking the shifted accumulator reads exactly the sextets that the new byte
      completes, whatever older bits are still above them. */
  lemma Chunks(acc: int, next: int, b: int)
    requires 0 <= acc < WORD && 0 <= b < 256 && next == 256 * (acc % 0x100_0000) + b
    ensures next / 4 % 64 == b / 4 && next % 4 == b % 4
    ensures next / 16 % 64 == acc % 4 * 16 + b / 16 && next % 16 == b % 16
    ensures next / 64 % 64 == acc % 16 * 4 + b / 64 && next % 64 == b % 64
  {
    var low := acc % 0x100_0000;
    Quotient(acc, 4, 0x40_0000 * (acc / 0x100_0000) + low / 4, low % 4);
    Quotient(acc, 16, 0x10_0000 * (acc / 0x100_0000) + low / 16, low % 16);
    Quotient(next, 4, 64 * low + b / 4, b % 4);
    Quotient(64 * low + b / 4, 64, low, b / 4);
    Quotient(next, 16, 16 * low + b / 16, b % 16);
    Quotient(16 * low + b / 16, 64, low / 4, low % 4 * 16 + b / 16);
    Quotient(next, 64, 4 * low + b / 64, b % 64);
    Quotient(4 * low + b / 64, 64, low / 16, low % 16 * 4 + b / 64);
  }

  function Pow2(n: nat): (p: nat)
    ensures p >= 1
  {
    if n == 0 then 1 else 2 * Pow2(n - 1)
  }

  /** `seeded` is whether the random source succeeded, `raw` what it returned. */
  method GenerateToken(raw: seq<byte>, seeded: bool) returns (s: string)
    requires |raw| == RAW_BYTES
    ensures !seeded ==> s == ""
    ensures seeded ==> s == Base64Url(raw) && |s| == OUT_CHARS
  {
    if !seeded { return ""; }
    var acc, bits, emitted;
    s, acc, bits, emitted := Pack(raw);
    if emitted < OUT_CHARS && bits > 0 {
      var chunk := acc * Pow2(6 - bits) % WORD % 64;
      LastLetter(raw, acc);
      s := s + [Letter(chunk)];
    }
  }

  /** The packer after `i` bytes: the letters out, and the bits left in the accumulator. */
  predicate Packed(raw: seq<byte>, i: nat, s: string, acc: int, bits: nat, emitted: nat)
    requires i <= |raw|
  {
    && s == Text(Early(raw[..i])) && emitted == |s| && Holds(acc, raw[..i])
    && bits == Bits(i) && 6 * emitted + bits == 8 * i
  }

  /** The packing loop: bytes go into the accumulator, letters come out. */
  method Pack(raw: seq<byte>) returns (s: string, acc: int, bits: nat, emitted: nat)
    requires |raw| == RAW_BYTES
    ensures s == Text(Early(raw)) && |s| == emitted == 42
    ensures bits == 4 && Holds(acc, raw)
  {
    s, acc, bits, emitted := "", 0, 0, 0;
    var i := 0;
    while i < RAW_BYTES && emitted < OUT_CHARS
      invariant 0 <= i <= RAW_BYTES && Packed(raw, i, s, acc, bits, emitted)
    {
      s, acc, bits, emitted := PackByte(raw, i, s, acc, bits, emitted);
      i := i + 1;
    }
    assert raw[..RAW_BYTES] == raw;
    assert Bits(RAW_BYTES) == 4;
  }

  method PackByte(raw: seq<byte>, i: nat, s0: string, acc0: int, bits0: nat, emitted0: nat)
    returns (s: string, acc: int, bits: nat, emitted: nat)
    requires i < |raw| <= RAW_BYTES && Packed(raw, i, s0, acc0, bits0, emitted0)
    ensures Packed(raw, i + 1, s, acc, bits, emitted)
  {
    ghost var more := PackedNext(raw, i, s0, acc0, bits0, emitted0);
    acc := acc0 * 256 % WORD + raw[i];
    bits := bits0 + 8;
    s, bits, emitted := Emit(s0, acc, bits, emitted0, more, Bits(i + 1));
  }

  /** What the inner loop finds, and that its letters complete the byte. */
  lemma PackedNext(raw: seq<byte>, i: nat, s: string, acc: int, bits: nat, emitted: nat) returns (more: seq<sextet>)
    requires i < |raw| <= RAW_BYTES && Packed(raw, i, s, acc, bits, emitted)
    ensures var next, left := acc * 256 % WORD + raw[i], Bits(i + 1);
            && 0 <= next && left < 6 && bits + 8 == left + 6 * |more| && emitted + |more| <= OUT_CHARS
            && (forall k | 0 <= k < |more| :: next / Pow2(left + 6 * (|more| - 1 - k)) % 64 == more[k])
            && Packed(raw, i + 1, s + Text(more), next, left, emitted + |more|)
  {
    more := Completed(raw[..i], raw[i]);
    ByteStep(raw, i, acc);
    RoomFor(i, emitted, |more|, bits, Bits(i + 1));
  }

  /** The bits of 32 bytes never need more than 43 letters. */
  lemma RoomFor(i: nat, emitted: nat, more: nat, bits: nat, left: nat)
    requires i < RAW_BYTES && 6 * emitted + bits == 8 * i && 6 * more + left == bits + 8
    ensures 6 * (emitted + more) + left == 8 * (i + 1) && emitted + more <= OUT_CHARS
  {
  }

  /** The inner loop: one letter for every six bits that `acc` has ready. */
  method Emit(s0: string, acc: int, bits0: nat, emitted0: nat, ghost more: seq<sextet>, ghost left: nat)
    returns (s: string, bits: nat, emitted: nat)
    requires 0 <= acc && left < 6 && bits0 == left + 6 * |more|
    requires emitted0 == |s0| && emitted0 + |more| <= OUT_CHARS
    requires forall k | 0 <= k < |more| :: acc / Pow2(left + 6 * (|more| - 1 - k)) % 64 == more[k]
    ensures s == s0 + Text(more) && bits == left && emitted == |s|
  {
    s, bits, emitted := s0, bits0, emitted0;
    ghost var k := 0;
    while bits >= 6 && emitted < OUT_CHARS
      invariant 0 <= k <= |more| && emitted == |s0| + k == |s|
      invariant bits == left + 6 * (|more| - k)
      invariant s == s0 + Text(more[..k])
      decreases bits
    {
      TextPush(s0, more, k);
      var chunk := acc / Pow2(bits - 6) % 64;
      s := s + [Letter(chunk)];
      bits := bits - 6;
      emitted := emitted + 1;
      k := k + 1;
    }
    assert more[..|more|] == more;
  }

  lemma TextPush(was: string, ss: seq<sextet>, k: nat)
    requires k < |ss|
    ensures was + Text(ss[..k + 1]) == was + Text(ss[..k]) + [Letter(ss[k])]
  {
    TextAppend(ss[..k], [ss[k]]);
    assert ss[..k] + [ss[k]] == ss[..k + 1];
  }

  /** One byte of the packer: the new accumulator still holds the bits not emitted, and
      shifting it right reads off, one by one, the sextets that the byte completes. */
  lemma ByteStep(raw: seq<byte>, i: nat, acc: int)
    requires i < |raw| && Holds(acc, raw[..i])
    ensures var next, more := acc * 256 % WORD + raw[i], Completed(raw[..i], raw[i]);
            && Holds(next, raw[..i + 1])
            && Text(Early(raw[..i + 1])) == Text(Early(raw[..i])) + Text(more)
            && 6 * |more| + Bits(i + 1) == Bits(i) + 8
            && (forall k | 0 <= k < |more| ::
                  next / Pow2(Bits(i + 1) + 6 * (|more| - 1 - k)) % 64 == more[k])
  {
    var done, b := raw[..i], raw[i];
    assert done + [b] == raw[..i + 1];
    EarlyAppend(done, b);
    TextAppend(Early(done), Completed(done, b));
    ByteShift(done, b, acc);
  }

  /** The arithmetic of one byte. */
  lemma ByteShift(done: seq<byte>, b: byte, acc: int)
    requires Holds(acc, done)
    ensures var next, more, i := acc * 256 % WORD + b, Completed(done, b), |done|;
            && Holds(next, done + [b])
            && 6 * |more| + Bits(i + 1) == Bits(i) + 8
            && (forall k | 0 <= k < |more| ::
                  next / Pow2(Bits(i + 1) + 6 * (|more| - 1 - k)) % 64 == more[k])
  {
    var next := acc * 256 % WORD + b;
    PhaseStep(|done|);
    Shift(acc, b);
    Chunks(acc, next, b);
    CompletedBy(done, b, acc, next);
  }

  lemma CompletedBy(done: seq<byte>, b: byte, acc: int, next: int)
    requires Holds(acc, done)
    requires next / 4 % 64 == b / 4
    requires next / 16 % 64 == acc % 4 * 16 + b / 16
    requires next / 64 % 64 == acc % 16 * 4 + b / 64 && next % 64 == b % 64
    ensures var more, i := Completed(done, b), |done|;
            && 6 * |more| + Bits(i + 1) == Bits(i) + 8
            && (forall k | 0 <= k < |more| ::
                  next / Pow2(Bits(i + 1) + 6 * (|more| - 1 - k)) % 64 == more[k])
  {
    PhaseStep(|done|);
    assert Pow2(0) == 1 && Pow2(2) == 4 && Pow2(4) == 16 && Pow2(6) == 64;
  }

  /** The last chunk is the four remaining bits, padded right with zeros. */
  lemma FinalChunk(acc: int)
    requires 0 <= acc < WORD
    ensures Pow2(2) == 4 && acc * 4 % WORD % 64 == acc % 16 * 4
  {
    var low := acc % 0x4000_0000;
    Quotient(acc * 4, WORD, acc / 0x4000_0000, low * 4);
    Quotient(low * 4, 64, low / 16, low % 16 * 4);
    Quotient(acc, 16, 0x400_0000 * (acc / 0x4000_0000) + low / 16, low % 16);
  }

  lemma FinalText(raw: seq<byte>)
    requires |raw| == RAW_BYTES
    ensures Base64Url(raw) == Text(Early(raw)) + [Letter(Border2(raw[31], 0))]
  {
    SextetsSplit(raw);
    TextAppend(Early(raw), Padding(raw));
    assert Phase(RAW_BYTES) == 2;
    assert Text([Border2(raw[31], 0)]) == [Letter(Border2(raw[31], 0))];
  }

  /** The 43rd letter. */
  lemma LastLetter(raw: seq<byte>, acc: int)
    requires |raw| == RAW_BYTES && Holds(acc, raw)
    ensures Base64Url(raw) == Text(Early(raw)) + [Letter(acc * Pow2(2) % WORD % 64)]
  {
    FinalChunk(acc);
    FinalText(raw);
  }
}

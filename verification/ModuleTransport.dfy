/** The `--module-transport NAME=PROTOCOL,k=v,...` flag. */
module ModuleTransport {
  import opened Options
  import opened Decimals
  import opened DaemonConfig

  datatype SpecError =
    | BadSpec | NoProtocol | BadPair | BadVerify | BadPort | PortRange | UnknownKey | BadCodec | NoCertificate | UnknownProtocol

  datatype Result<T> = Ok(value: T) | Err(error: SpecError)

  datatype Listener = Listener(name: string, transport: Transport)

  // ---- Splitting -----------------------------------------------------------

  /** Where a character first occurs; the length when it does not. */
  function Find(s: string, c: char): (n: nat)
    ensures n <= |s| && (n < |s| ==> s[n] == c) && forall i | 0 <= i < n :: s[i] != c
  {
    if s == "" || s[0] == c then 0 else 1 + Find(s[1..], c)
  }

  /** The comma-separated parts; nothing follows a comma at the very end. */
  function Split(body: string): seq<string>
    decreases |body|
  {
    if body == "" then []
    else
      var comma := Find(body, ',');
      if comma == |body| then [body] else [body[..comma]] + Split(body[comma + 1..])
  }

  lemma Push(parts: seq<string>, part: string, more: seq<string>)
    ensures (parts + [part]) + more == parts + ([part] + more)
    ensures parts + [] == parts
  {
  }

  method SplitBody(body: string) returns (parts: seq<string>)
    ensures parts == Split(body)
  {
    parts := [];
    var i := 0;
    while i < |body|
      invariant 0 <= i <= |body|
      invariant parts + Split(body[i..]) == Split(body)
    {
      ghost var rest := body[i..];
      var comma := Find(body[i..], ',');
      if comma == |body| - i {
        assert Split(rest) == [rest];
        parts := parts + [body[i..]];
        return;
      }
      Push(parts, rest[..comma], Split(rest[comma + 1..]));
      assert rest[comma + 1..] == body[i + comma + 1..];
      parts := parts + [body[i..][..comma]];
      i := i + comma + 1;
    }
    Push(parts, "", []);
  }

  function Join(parts: seq<string>): string {
    if parts == [] then ""
    else if |parts| == 1 then parts[0]
    else parts[0] + "," + Join(parts[1..])
  }

  predicate CommaFree(s: string) {
    forall i | 0 <= i < |s| :: s[i] != ','
  }

  predicate AllCommaFree(parts: seq<string>) {
    forall i | 0 <= i < |parts| :: CommaFree(parts[i])
  }

  lemma JoinOne(part: string, more: seq<string>)
    ensures Join([part] + more) == if more == [] then part else part + "," + Join(more)
  {
    assert ([part] + more)[1..] == more;
  }

  function WithoutLastComma(body: string): string {
    if body != "" && body[|body| - 1] == ',' then body[..|body| - 1] else body
  }

  lemma LastComma(head: string, rest: string)
    ensures WithoutLastComma(head + "," + rest) == if rest == "" then head else head + "," + WithoutLastComma(rest)
  {
    var body := head + "," + rest;
    if rest == "" {
      assert body[..|body| - 1] == head;
    } else {
      assert body[|body| - 1] == rest[|rest| - 1];
      assert body[..|body| - 1] == head + "," + rest[..|rest| - 1];
    }
  }

  lemma {:induction false} PartsAreCommaFree(body: string)
    ensures AllCommaFree(Split(body))
    decreases |body|
  {
    if body != "" && Find(body, ',') < |body| {
      PartsAreCommaFree(body[Find(body, ',') + 1..]);
    }
  }

  /** Splitting gives comma-free parts and loses nothing but one comma at the very end. */
  lemma {:induction false} JoinOfSplit(body: string)
    ensures Join(Split(body)) == WithoutLastComma(body) && AllCommaFree(Split(body))
    decreases |body|
  {
    PartsAreCommaFree(body);
    if body != "" {
      var comma := Find(body, ',');
      if comma < |body| {
        var head, rest := body[..comma], body[comma + 1..];
        JoinOfSplit(rest);
        JoinOne(head, Split(rest));
        LastComma(head, rest);
        assert body == head + "," + rest;
      }
    }
  }

  lemma {:induction false} FindIs(s: string, c: char, n: nat)
    requires n <= |s| && (n < |s| ==> s[n] == c) && forall i | 0 <= i < n :: s[i] != c
    ensures Find(s, c) == n
  {
    if n > 0 { FindIs(s[1..], c, n - 1); }
  }

  lemma SplitHead(part: string, text: string)
    requires CommaFree(part)
    ensures Split(part + "," + text) == [part] + Split(text)
  {
    var body := part + "," + text;
    FindIs(body, ',', |part|);
    assert body[..|part|] == part && body[|part| + 1..] == text;
  }

  lemma SplitLast(part: string)
    requires CommaFree(part)
    ensures Split(part) == if part == "" then [] else [part]
  {
    FindIs(part, ',', |part|);
  }

  /** Comma-free parts come back from their joined text exactly when the last one is not
      empty. */
  lemma {:induction false} SplitOfJoin(parts: seq<string>)
    requires AllCommaFree(parts)
    ensures Split(Join(parts)) == parts <==> parts == [] || parts[|parts| - 1] != ""
    decreases |parts|
  {
    if |parts| == 1 {
      SplitLast(parts[0]);
      assert parts == [parts[0]];
    } else if |parts| > 1 {
      SplitOfJoin(parts[1..]);
      SplitHead(parts[0], Join(parts[1..]));
      Cons(parts[0], Split(Join(parts[1..])), parts);
    }
  }

  lemma Cons(part: string, more: seq<string>, parts: seq<string>)
    requires parts != [] && parts[0] == part
    ensures [part] + more == parts <==> more == parts[1..]
  {
    assert ([part] + more)[1..] == more;
    assert parts == [part] + parts[1..];
  }

  // ---- One key=value part --------------------------------------------------

  function PortOf(v: string): Result<int> {
    match Stol(v, -0x8000_0000, 0x7fff_ffff)
    case None => Err(BadPort)
    case Some(r) =>
      if r.consumed != |v| then Err(BadPort)
      else if r.value < 0 || r.value > 0xFFFF then Err(PortRange)
      else Ok(r.value)
  }

  function Set(t: Transport, k: string, v: string): Result<Transport> {
    if k == "host" then Ok(t.(host := v))
    else if k == "codec" then Ok(t.(codec := v))
    else if k == "ca" then Ok(t.(caFile := v))
    else if k == "cert" then Ok(t.(certFile := v))
    else if k == "key" then Ok(t.(keyFile := v))
    else if k == "verify_peer" then
      if v == "true" || v == "1" then Ok(t.(verifyPeer := true))
      else if v == "false" || v == "0" then Ok(t.(verifyPeer := false))
      else Err(BadVerify)
    else if k == "port" then
      match PortOf(v)
      case Err(e) => Err(e)
      case Ok(p) => Ok(t.(port := p))
    else Err(UnknownKey)
  }

  function SetPair(t: Transport, kv: string): Result<Transport> {
    var eq := Find(kv, '=');
    if eq == |kv| then Err(BadPair) else Set(t, kv[..eq], kv[eq + 1..])
  }

  function SetAll(t: Transport, parts: seq<string>): Result<Transport>
    decreases |parts|
  {
    if parts == [] then Ok(t)
    else match SetPair(t, parts[0])
      case Err(e) => Err(e)
      case Ok(next) => SetAll(next, parts[1..])
  }

  predicate KnownCodec(c: string) {
    c == "json" || c == "cbor"
  }

  function Check(t: Transport): Result<Transport> {
    if t.protocol == "local" then Ok(t)
    else if t.protocol == "tcp" || t.protocol == "tcp_ssl" then
      if !KnownCodec(t.codec) then Err(BadCodec)
      else if t.protocol == "tcp_ssl" && (t.certFile == "" || t.keyFile == "") then Err(NoCertificate)
      else Ok(t)
    else Err(UnknownProtocol)
  }

  /** A fresh listener of the protocol, before any key is applied. */
  function Fresh(protocol: string): Transport {
    Transport(protocol, if protocol == "tcp" || protocol == "tcp_ssl" then "127.0.0.1" else "", 0, "", true, "json", "", "")
  }

  /** What follows the '=': the protocol and its keys. */
  function ParseBody(body: string): Result<Transport> {
    var parts := Split(body);
    if parts == [] || parts[0] == "" then Err(NoProtocol)
    else match SetAll(Fresh(parts[0]), parts[1..])
      case Err(e) => Err(e)
      case Ok(t) => Check(t)
  }

  function WithName(name: string, t: Result<Transport>): Result<Listener> {
    match t
    case Err(e) => Err(e)
    case Ok(u) => Ok(Listener(name, u))
  }

  function ParseSpec(spec: string): Result<Listener> {
    var eq := Find(spec, '=');
    if eq == |spec| || eq == 0 || eq == |spec| - 1 then Err(BadSpec)
    else WithName(spec[..eq], ParseBody(spec[eq + 1..]))
  }

  method SetKeys(t: Transport, parts: seq<string>) returns (r: Result<Transport>)
    requires parts != []
    ensures r == SetAll(t, parts[1..])
  {
    var u, i := t, 1;
    while i < |parts|
      invariant 1 <= i <= |parts|
      invariant SetAll(u, parts[i..]) == SetAll(t, parts[1..])
    {
      var kv := parts[i];
      assert parts[i..][1..] == parts[i + 1..];
      var eq := Find(kv, '=');
      if eq == |kv| { return Err(BadPair); }
      var next := Set(u, kv[..eq], kv[eq + 1..]);
      if next.Err? { return next; }
      u := next.value;
      i := i + 1;
    }
    return Ok(u);
  }

  method ReadBody(body: string) returns (r: Result<Transport>)
    ensures r == ParseBody(body)
  {
    var parts := SplitBody(body);
    if parts == [] || parts[0] == "" { return Err(NoProtocol); }
    var keyed := SetKeys(Fresh(parts[0]), parts);
    if keyed.Err? { return keyed; }
    return Check(keyed.value);
  }

  method ParseFlag(spec: string) returns (r: Result<Listener>)
    ensures r == ParseSpec(spec)
  {
    var eq := Find(spec, '=');
    if eq == |spec| || eq == 0 || eq == |spec| - 1 { return Err(BadSpec); }
    var t := ReadBody(spec[eq + 1..]);
    return WithName(spec[..eq], t);
  }

  // ---- Rendering a listener and parsing it ---------------------------------

  function Pair(k: string, v: string): string {
    k + "=" + v
  }

  function Render(name: string, t: Transport): string
    requires t.port >= 0
  {
    name + "=" + Join([t.protocol] + Pairs(t))
  }

  function Pairs(t: Transport): seq<string>
    requires t.port >= 0
  {
    [Pair("host", t.host)] + ([Pair("port", Decimal(t.port))] + ([Pair("codec", t.codec)] + TlsPairs(t)))
  }

  function TlsPairs(t: Transport): seq<string> {
    [Pair("ca", t.caFile)] + VerifyPairs(t)
  }

  function VerifyPairs(t: Transport): seq<string> {
    [Pair("verify_peer", if t.verifyPeer then "true" else "false")]
    + ([Pair("cert", t.certFile)] + ([Pair("key", t.keyFile)] + []))
  }

  lemma PairIsRead(t: Transport, k: string, v: string)
    requires forall i | 0 <= i < |k| :: k[i] != '='
    ensures SetPair(t, Pair(k, v)) == Set(t, k, v)
  {
    var kv := Pair(k, v);
    FindIs(kv, '=', |k|);
    assert kv[..|k|] == k && kv[|k| + 1..] == v;
  }

  lemma SetFirst(t: Transport, k: string, v: string, more: seq<string>, next: Transport)
    requires forall i | 0 <= i < |k| :: k[i] != '='
    requires Set(t, k, v) == Ok(next)
    ensures SetAll(t, [Pair(k, v)] + more) == SetAll(next, more)
  {
    PairIsRead(t, k, v);
    assert ([Pair(k, v)] + more)[1..] == more;
  }

  lemma PortIsRead(p: nat)
    ensures PortOf(Decimal(p)) == if p <= 0xFFFF then Ok(p) else if p <= 0x7fff_ffff then Err(PortRange) else Err(BadPort)
  {
    ScanOfDecimal(p);
  }

  lemma KeyPairsAreRead(u: Transport, cert: string, key: string)
    ensures SetAll(u, [Pair("cert", cert)] + ([Pair("key", key)] + [])) == Ok(u.(certFile := cert, keyFile := key))
  {
    var v := u.(certFile := cert);
    SetFirst(u, "cert", cert, [Pair("key", key)] + [], v);
    SetFirst(v, "key", key, [], v.(keyFile := key));
  }

  lemma VerifyPairsAreRead(u: Transport, t: Transport)
    ensures SetAll(u, VerifyPairs(t)) == Ok(u.(verifyPeer := t.verifyPeer, certFile := t.certFile, keyFile := t.keyFile))
  {
    var v := u.(verifyPeer := t.verifyPeer);
    SetFirst(u, "verify_peer", if t.verifyPeer then "true" else "false",
             [Pair("cert", t.certFile)] + ([Pair("key", t.keyFile)] + []), v);
    KeyPairsAreRead(v, t.certFile, t.keyFile);
  }

  lemma TlsPairsAreRead(u: Transport, t: Transport)
    ensures SetAll(u, TlsPairs(t)) == Ok(u.(caFile := t.caFile, verifyPeer := t.verifyPeer, certFile := t.certFile, keyFile := t.keyFile))
  {
    SetFirst(u, "ca", t.caFile, VerifyPairs(t), u.(caFile := t.caFile));
    VerifyPairsAreRead(u.(caFile := t.caFile), t);
  }

  lemma LaterPairsAreRead(u: Transport, t: Transport)
    requires u.protocol == t.protocol && u.host == t.host && u.port == t.port
    ensures SetAll(u, [Pair("codec", t.codec)] + TlsPairs(t)) == Ok(t)
  {
    SetFirst(u, "codec", t.codec, TlsPairs(t), u.(codec := t.codec));
    TlsPairsAreRead(u.(codec := t.codec), t);
  }

  lemma PortPairIsRead(u: Transport, p: nat, more: seq<string>)
    ensures var r := SetAll(u, [Pair("port", Decimal(p))] + more);
            if p <= 0xFFFF then r == SetAll(u.(port := p), more) else r.Err?
  {
    PortIsRead(p);
    PairIsRead(u, "port", Decimal(p));
    if p <= 0xFFFF { SetFirst(u, "port", Decimal(p), more, u.(port := p)); }
  }

  lemma PairsAreRead(t: Transport)
    requires t.port >= 0
    ensures var r := SetAll(Fresh(t.protocol), Pairs(t));
            if t.port <= 0xFFFF then r == Ok(t) else r.Err?
  {
    var u := Fresh(t.protocol).(host := t.host);
    var rest := [Pair("codec", t.codec)] + TlsPairs(t);
    SetFirst(Fresh(t.protocol), "host", t.host, [Pair("port", Decimal(t.port))] + rest, u);
    PortPairIsRead(u, t.port, rest);
    if t.port <= 0xFFFF { LaterPairsAreRead(u.(port := t.port), t); }
  }

  predicate FieldsCommaFree(t: Transport) {
    CommaFree(t.protocol) && CommaFree(t.host) && CommaFree(t.codec) && CommaFree(t.caFile) && CommaFree(t.certFile) && CommaFree(t.keyFile)
  }

  lemma PairCommaFree(k: string, v: string)
    requires CommaFree(k) && CommaFree(v)
    ensures CommaFree(Pair(k, v))
  {
  }

  lemma PartsComeBack(t: Transport)
    requires t.port >= 0 && FieldsCommaFree(t)
    ensures Split(Join([t.protocol] + Pairs(t))) == [t.protocol] + Pairs(t)
  {
    PairsCommaFree(t);
    var parts := [t.protocol] + Pairs(t);
    assert parts[|parts| - 1] == Pair("key", t.keyFile) != "";
    SplitOfJoin(parts);
  }

  lemma PairsCommaFree(t: Transport)
    requires t.port >= 0 && FieldsCommaFree(t)
    ensures AllCommaFree([t.protocol] + Pairs(t))
  {
    PairCommaFree("host", t.host);
    PairCommaFree("port", Decimal(t.port));
    PairCommaFree("codec", t.codec);
    PairCommaFree("ca", t.caFile);
    PairCommaFree("verify_peer", if t.verifyPeer then "true" else "false");
    PairCommaFree("cert", t.certFile);
    PairCommaFree("key", t.keyFile);
  }

  /** Rendering a listener and parsing it: for comma-free fields it gives back the same
      name and listener exactly when the port is in range and the listener is one the
      program accepts (known protocol and codec, a certificate and key for TLS). */
  lemma RenderedIsParsed(name: string, t: Transport)
    requires name != "" && (forall i | 0 <= i < |name| :: name[i] != '=')
    requires t.protocol != "" && t.port >= 0 && FieldsCommaFree(t)
    ensures ParseSpec(Render(name, t)) == Ok(Listener(name, t))
       <==> && t.port <= 65535 && (t.protocol == "local" || t.protocol == "tcp" || t.protocol == "tcp_ssl")
            && (t.protocol != "local" ==> t.codec == "json" || t.codec == "cbor")
            && (t.protocol == "tcp_ssl" ==> t.certFile != "" && t.keyFile != "")
    ensures ParseSpec(Render(name, t)).Ok? ==> ParseSpec(Render(name, t)) == Ok(Listener(name, t))
    ensures t.port <= 65535 && t.protocol != "local" && ParseSpec(Render(name, t)).Err? ==>
              ParseSpec(Render(name, t)).error == if t.protocol != "tcp" && t.protocol != "tcp_ssl" then UnknownProtocol
                                                  else if t.codec != "json" && t.codec != "cbor" then BadCodec else NoCertificate
  {
    NameAndBody(name, Join([t.protocol] + Pairs(t)));
    JoinOne(t.protocol, Pairs(t));
    BodyIsParsed(t);
  }

  lemma NameAndBody(name: string, body: string)
    requires name != "" && body != "" && (forall i | 0 <= i < |name| :: name[i] != '=')
    ensures ParseSpec(name + "=" + body) == WithName(name, ParseBody(body))
  {
    var spec := name + "=" + body;
    FindIs(spec, '=', |name|);
    assert spec[..|name|] == name && spec[|name| + 1..] == body;
  }

  lemma BodyIsParsed(t: Transport)
    requires t.protocol != "" && t.port >= 0 && FieldsCommaFree(t)
    ensures var r := ParseBody(Join([t.protocol] + Pairs(t)));
            if t.port <= 0xFFFF then r == Check(t) else r.Err?
  {
    PartsComeBack(t);
    PairsAreRead(t);
    assert ([t.protocol] + Pairs(t))[1..] == Pairs(t);
  }

  // ---- What is not said ----------------------------------------------------

  /** The keys that a flag does not set: a protocol alone listens on the loopback address
      with any port, plain JSON and peer verification; for TLS that is not enough. */
  lemma ProtocolAlone(name: string, protocol: string)
    requires name != "" && (forall i | 0 <= i < |name| :: name[i] != '=')
    requires protocol != "" && CommaFree(protocol)
    ensures ParseSpec(name + "=" + protocol)
         == if protocol == "local" then Ok(Listener(name, Transport("local", "", 0, "", true, "json", "", "")))
            else if protocol == "tcp" then Ok(Listener(name, Transport("tcp", "127.0.0.1", 0, "", true, "json", "", "")))
            else if protocol == "tcp_ssl" then Err(NoCertificate)
            else Err(UnknownProtocol)
  {
    NameAndBody(name, protocol);
    SplitLast(protocol);
    assert [protocol][1..] == [];
  }

  /** Both spellings of a flag are read, and no other. */
  lemma VerifyPeerIsRead(t: Transport, v: string)
    ensures SetPair(t, "verify_peer=" + v)
         == if v == "true" || v == "1" then Ok(t.(verifyPeer := true))
            else if v == "false" || v == "0" then Ok(t.(verifyPeer := false)) else Err(BadVerify)
  {
    assert "verify_peer=" + v == Pair("verify_peer", v) by { assert "verify_peer" + "=" == "verify_peer="; }
    PairIsRead(t, "verify_peer", v);
  }

  /** A key that is none of the seven is refused, and so is a part without '='. */
  lemma OtherKeysAreRefused(t: Transport, k: string, v: string)
    requires forall i | 0 <= i < |k| :: k[i] != '='
    ensures SetPair(t, Pair(k, v)) == Err(UnknownKey)
       <==> k != "host" && k != "port" && k != "codec" && k != "ca" && k != "verify_peer" && k != "cert" && k != "key"
    ensures SetPair(t, k) == Err(BadPair)
  {
    PairIsRead(t, k, v);
    FindNone(k);
  }

  lemma FindNone(k: string)
    requires forall i | 0 <= i < |k| :: k[i] != '='
    ensures Find(k, '=') == |k|
  {
  }

  /** A flag needs a name, a '=' and something after it. */
  lemma FlagShape(spec: string)
    ensures ParseSpec(spec) == Err(BadSpec)
       <==> (forall i | 0 <= i < |spec| :: spec[i] != '=') || spec[0] == '='
            || (spec[|spec| - 1] == '=' && forall i | 0 <= i < |spec| - 1 :: spec[i] != '=')
  {
    var eq := Find(spec, '=');
    if eq < |spec| && 0 < eq < |spec| - 1 {
      BodyErrs(spec[eq + 1..]);
      assert spec[eq] == '=';
    }
  }

  lemma BodyErrs(body: string)
    ensures ParseBody(body) != Err(BadSpec)
  {
    var parts := Split(body);
    if parts != [] && parts[0] != "" { KeysErr(Fresh(parts[0]), parts[1..]); }
  }

  lemma {:induction false} KeysErr(t: Transport, parts: seq<string>)
    ensures SetAll(t, parts) != Err(BadSpec)
    decreases |parts|
  {
    if parts != [] && SetPair(t, parts[0]).Ok? { KeysErr(SetPair(t, parts[0]).value, parts[1..]); }
  }

  // ---- Later keys win ------------------------------------------------------

  /** Two listeners agree on what a key sets. */
  predicate Same(a: Transport, b: Transport, k: string) {
    && (k == "host" ==> a.host == b.host) && (k == "codec" ==> a.codec == b.codec) && (k == "ca" ==> a.caFile == b.caFile)
    && (k == "cert" ==> a.certFile == b.certFile) && (k == "key" ==> a.keyFile == b.keyFile)
    && (k == "verify_peer" ==> a.verifyPeer == b.verifyPeer) && (k == "port" ==> a.port == b.port)
  }

  function KeyOf(kv: string): string {
    kv[..Find(kv, '=')]
  }

  lemma OtherKeysKeep(t: Transport, k: string, other: string, v: string)
    requires k != other && Set(t, other, v).Ok?
    ensures Same(Set(t, other, v).value, t, k)
  {
  }

  lemma {:induction false} UnmentionedKeysKeep(t: Transport, parts: seq<string>, k: string)
    requires SetAll(t, parts).Ok? && forall i | 0 <= i < |parts| :: KeyOf(parts[i]) != k
    ensures Same(SetAll(t, parts).value, t, k)
    decreases |parts|
  {
    if parts != [] {
      var kv := parts[0];
      var eq := Find(kv, '=');
      OtherKeysKeep(t, k, kv[..eq], kv[eq + 1..]);
      UnmentionedKeysKeep(SetPair(t, kv).value, parts[1..], k);
    }
  }

  lemma {:induction false} SetAllConcat(t: Transport, a: seq<string>, b: seq<string>)
    ensures SetAll(t, a + b) == if SetAll(t, a).Err? then SetAll(t, a) else SetAll(SetAll(t, a).value, b)
    decreases |a|
  {
    if a == [] {
      assert a + b == b;
    } else {
      assert (a + b)[1..] == a[1..] + b;
      match SetPair(t, a[0])
      case Err(_) =>
      case Ok(next) => SetAllConcat(next, a[1..], b);
    }
  }

  /** If a key is given more than once, the last one decides, whatever came before. */
  lemma LastOneWins(t: Transport, before: seq<string>, k: string, v: string, after: seq<string>)
    requires (forall i | 0 <= i < |k| :: k[i] != '=') && forall i | 0 <= i < |after| :: KeyOf(after[i]) != k
    requires SetAll(t, before + ([Pair(k, v)] + after)).Ok?
    ensures Set(t, k, v).Ok? && Same(SetAll(t, before + ([Pair(k, v)] + after)).value, Set(t, k, v).value, k)
  {
    SetAllConcat(t, before, [Pair(k, v)] + after);
    var u := SetAll(t, before).value;
    PairIsRead(u, k, v);
    assert ([Pair(k, v)] + after)[1..] == after;
    UnmentionedKeysKeep(Set(u, k, v).value, after, k);
  }

  // ---- All the flags -------------------------------------------------------

  function ListenersOf(m: Modules, name: string): seq<Transport> {
    if name in m then m[name] else []
  }

  function Added(m: Modules, l: Listener): Modules {
    m[l.name := ListenersOf(m, l.name) + [l.transport]]
  }

  /** Every flag adds one listener to its module; the first bad flag stops the program. */
  function ParseAll(m: Modules, specs: seq<string>): Result<Modules>
    decreases |specs|
  {
    if specs == [] then Ok(m)
    else match ParseSpec(specs[0])
      case Err(e) => Err(e)
      case Ok(l) => ParseAll(Added(m, l), specs[1..])
  }

  method ParseFlags(specs: seq<string>) returns (r: Result<Modules>)
    ensures r == ParseAll(map[], specs)
  {
    var m: Modules, i := map[], 0;
    while i < |specs|
      invariant 0 <= i <= |specs|
      invariant ParseAll(m, specs[i..]) == ParseAll(map[], specs)
    {
      assert specs[i..][1..] == specs[i + 1..];
      var l := ParseFlag(specs[i]);
      if l.Err? { return Err(l.error); }
      m := Added(m, l.value);
      i := i + 1;
    }
    return Ok(m);
  }

  /** The listeners that the flags name for one module, in order. */
  function Named(specs: seq<string>, name: string): seq<Transport> {
    if specs == [] then []
    else
      match ParseSpec(specs[0])
      case Ok(l) => (if l.name == name then [l.transport] else []) + Named(specs[1..], name)
      case Err(_) => Named(specs[1..], name)
  }

  lemma ListenersAdded(m: Modules, l: Listener, name: string, more: seq<Transport>)
    ensures ListenersOf(Added(m, l), name) + more == ListenersOf(m, name) + ((if l.name == name then [l.transport] else []) + more)
  {
  }

  /** Each module ends with exactly its own listeners, in the order of the flags. */
  lemma {:induction false} FlagsByModule(m: Modules, specs: seq<string>, name: string)
    requires ParseAll(m, specs).Ok?
    ensures ListenersOf(ParseAll(m, specs).value, name) == ListenersOf(m, name) + Named(specs, name)
    decreases |specs|
  {
    if specs == [] {
      assert ListenersOf(m, name) + [] == ListenersOf(m, name);
    } else {
      var l := ParseSpec(specs[0]).value;
      FlagsByModule(Added(m, l), specs[1..], name);
      ListenersAdded(m, l, name, Named(specs[1..], name));
    }
  }
}

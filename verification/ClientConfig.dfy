/** The client's configuration document: the dial entry of each module, the reader, and
    what makes a document usable. */
module ClientConfig {
  import opened Options
  import opened Json
  import opened JsonSchema
  import opened Orders
  import DaemonConfig

  datatype Dial = Dial(protocol: string, host: string, port: int, codec: string, caFile: string, verifyPeer: bool)

  type Dials = map<string, Dial>

  datatype ClientState = ClientState(fileOk: bool, tokenFile: string, instanceId: string, daemon: Dials)

  type Fields = DaemonConfig.Fields

  const VERSION := 2

  // ---- Printing ------------------------------------------------------------

  function DialToJson(d: Dial): Json {
    Obj(map["transport" := Str(d.protocol)] + DaemonConfig.DialFields(d.protocol, d.host, d.port, d.codec)
        + (if d.protocol == "tcp_ssl" then DaemonConfig.Filled("ca", d.caFile) + map["verify_peer" := Bool(d.verifyPeer)] else map[]))
  }

  // ---- Reading, as a function ----------------------------------------------

  function NetworkPart(j: Json, at: Path, protocol: string): Read<Dial> {
    if protocol == "local" then Read(Dial(protocol, "", 0, "json", "", true), None)
    else
      var host := StrOf(j, at, "host", "");
      var port := IntOf(j, at, "port", 0, 0, 0xFFFF);
      var codec := StrOf(j, at, "codec", "json");
      Read(Dial(protocol, host.value, port.value, codec.value, "", true), First(host.err, First(port.err, codec.err)))
  }

  function TlsPart(j: Json, at: Path, protocol: string): Read<(string, bool)> {
    if protocol != "tcp_ssl" then Read(("", true), None)
    else
      var ca, verify := StrOf(j, at, "ca", ""), BoolOf(j, at, "verify_peer", true);
      Read((ca.value, verify.value), First(ca.err, verify.err))
  }

  function ParseDial(j: Json, at: Path): DaemonConfig.Parsed<Dial> {
    if !j.Obj? then DaemonConfig.Bad(WrongType(at, "a mapping describing one transport", TypeName(j)))
    else
      var protocol := StrOf(j, at, "transport", "");
      if !DaemonConfig.KnownProtocol(protocol.value) then
        DaemonConfig.Bad(First(protocol.err, Some(NotOneOf(at + [Key("transport")], protocol.value))).value)
      else
        var net, tls := NetworkPart(j, at, protocol.value), TlsPart(j, at, protocol.value);
        DaemonConfig.Unless(First(protocol.err, First(net.err, tls.err)),
                            net.value.(caFile := tls.value.0, verifyPeer := tls.value.1))
  }

  /** The entries under `daemon`, read in the given order of their names. */
  function ParseDials(f: Fields, order: seq<string>): DaemonConfig.Parsed<Dials>
    requires forall n <- order :: n in f
    decreases |order|
  {
    if order == [] then DaemonConfig.Good(map[])
    else
      var last := |order| - 1;
      match ParseDials(f, order[..last])
      case Bad(p) => DaemonConfig.Bad(p)
      case Good(m) =>
        if order[last] == "" then DaemonConfig.Good(m)
        else match ParseDial(f[order[last]], [Key("daemon"), Key(order[last])])
          case Bad(p) => DaemonConfig.Bad(p)
          case Good(d) => DaemonConfig.Good(m[order[last] := d])
  }

  /** The version is narrowed to 32 bits before it is compared. */
  function Narrowed(v: int): (n: int)
    ensures -0x8000_0000 <= n < 0x8000_0000
    ensures (n - v) % 0x1_0000_0000 == 0
  {
    (v + 0x8000_0000) % 0x1_0000_0000 - 0x8000_0000
  }

  function DialNames(obj: Json): set<string> {
    DaemonConfig.FieldsIn(Present(obj, "daemon")).Keys
  }

  function ParseBody(obj: Json, order: seq<string>): DaemonConfig.Parsed<ClientState>
    requires Lists(order, DialNames(obj))
  {
    var token, id := StrOf(obj, [], "token_file", ""), StrOf(obj, [], "instance_id", "");
    var block := MappingOf(obj, [], "daemon");
    var dials := if block.err.Some? then DaemonConfig.Bad(block.err.value)
                 else ParseDials(DaemonConfig.FieldsIn(block.value), order);
    var err := First(token.err, First(id.err, dials.Err()));
    if err.Some? then DaemonConfig.Bad(err.value)
    else DaemonConfig.Good(ClientState(dials.value != map[] && token.value != "", token.value, id.value, dials.value))
  }

  function ParseClient(obj: Json, order: seq<string>): DaemonConfig.Parsed<ClientState>
    requires Lists(order, DialNames(obj))
  {
    if !obj.Obj? then DaemonConfig.Bad(NotAMapping)
    else
      var v := IntOf(obj, [], "version", 0, INT64_MIN, INT64_MAX);
      if v.err.Some? then DaemonConfig.Bad(v.err.value)
      else if Narrowed(v.value) != VERSION then DaemonConfig.Bad(WrongVersion(Narrowed(v.value)))
      else ParseBody(obj, order)
  }

  // ---- The reader as it runs -----------------------------------------------

  method ReadDial(j: Json, errs: Errors, at: Path) returns (d: Option<Dial>)
    modifies errs
    ensures errs.first == First(old(errs.first), ParseDial(j, at).Err())
    ensures d == if errs.first.Some? then None else Some(ParseDial(j, at).value)
  {
    if !j.Obj? {
      errs.Note(WrongType(at, "a mapping describing one transport", TypeName(j)));
      return None;
    }
    var r := new Reader(j, errs, at);
    var protocol := r.ReadStr("transport", "");
    if protocol != "local" && protocol != "tcp" && protocol != "tcp_ssl" {
      errs.Note(NotOneOf(at + [Key("transport")], protocol));
      return None;
    }
    var t := Dial(protocol, "", 0, "json", "", true);
    if protocol != "local" {
      var host := r.ReadStr("host", "");
      var port := r.ReadInt("port", 0, 0, 0xFFFF);
      var codec := r.ReadStr("codec", "json");
      t := t.(host := host, port := port, codec := codec);
    }
    if protocol == "tcp_ssl" {
      var ca := r.ReadStr("ca", "");
      var verify := r.ReadBool("verify_peer", true);
      t := t.(caFile := ca, verifyPeer := verify);
    }
    return if errs.first.Some? then None else Some(t);
  }

  lemma {:induction false} BadStays(f: Fields, order: seq<string>, i: nat)
    requires (forall n <- order :: n in f) && i <= |order|
    requires ParseDials(f, order[..i]).Bad?
    ensures ParseDials(f, order) == ParseDials(f, order[..i])
    decreases |order|
  {
    if i < |order| {
      assert order[..|order| - 1][..i] == order[..i];
      BadStays(f, order[..|order| - 1], i);
    } else {
      assert order[..i] == order;
    }
  }

  method ReadDials(f: Fields, errs: Errors, order: seq<string>) returns (r: Option<Dials>)
    requires forall n <- order :: n in f
    modifies errs
    ensures errs.first == First(old(errs.first), ParseDials(f, order).Err())
    ensures errs.first.None? ==> r == Some(ParseDials(f, order).value)
    ensures r.None? ==> errs.first.Some?
  {
    var m: Dials, i := map[], 0;
    while i < |order|
      invariant 0 <= i <= |order| && errs.first == old(errs.first)
      invariant errs.first.None? ==> ParseDials(f, order[..i]) == DaemonConfig.Good(m)
    {
      var name := order[i];
      assert order[..i + 1][..i] == order[..i];
      i := i + 1;
      if name == "" { continue; }
      var d := ReadDial(f[name], errs, [Key("daemon"), Key(name)]);
      if errs.first != old(errs.first) { BadStays(f, order, i); }
      if d.None? { return None; }
      m := m[name := d.value];
    }
    assert order[..i] == order;
    return Some(m);
  }

  /** `parseClientStateDocument`. A refusal always comes with its reason. */
  method ReadClient(obj: Json, order: seq<string>) returns (state: Option<ClientState>, problem: Errs)
    requires Lists(order, DialNames(obj))
    ensures problem == ParseClient(obj, order).Err()
    ensures state == if problem.Some? then None else Some(ParseClient(obj, order).value)
  {
    if !obj.Obj? { return None, Some(NotAMapping); }
    var errs := new Errors();
    var r := new Reader(obj, errs, []);
    var version := r.ReadInt("version", 0, INT64_MIN, INT64_MAX);
    if errs.first.Some? { return None, errs.first; }
    if Narrowed(version) != VERSION { return None, Some(WrongVersion(Narrowed(version))); }
    var token := r.ReadStr("token_file", "");
    var id := r.ReadStr("instance_id", "");
    var block := r.ReadMapping("daemon");
    var dials: Dials := map[];
    assert order != [] ==> order[0] in DialNames(obj);
    if block.Some? {
      var read := ReadDials(block.value.fields, errs, order);
      if read.None? { return None, errs.first; }
      dials := read.value;
    }
    if errs.first.Some? { return None, errs.first; }
    return Some(ClientState(dials != map[] && token != "", token, id, dials)), None;
  }

  // ---- What the reader accepts ---------------------------------------------

  lemma NarrowedIsCongruent(v: int)
    ensures Narrowed(v) == VERSION <==> v % 0x1_0000_0000 == VERSION
  {
  }

  /** Any version that agrees with 2 in its low 32 bits is taken for version 2. */
  lemma WrongVersionAccepted(token: string)
    ensures var obj := Obj(map["version" := Num(0x1_0000_0002), "token_file" := Str(token)]);
            ParseClient(obj, []) == DaemonConfig.Good(ClientState(false, token, "", map[]))
  {
    var obj := Obj(map["version" := Num(0x1_0000_0002), "token_file" := Str(token)]);
    assert IntOf(obj, [], "version", 0, INT64_MIN, INT64_MAX) == Read(0x1_0000_0002, None);
    NarrowedIsCongruent(0x1_0000_0002);
  }

  predicate Parses(f: Fields, name: string)
    requires name in f
  {
    name != "" ==> ParseDial(f[name], [Key("daemon"), Key(name)]).Good?
  }

  lemma {:induction false} DialsByName(f: Fields, order: seq<string>)
    requires forall n <- order :: n in f
    ensures var r := ParseDials(f, order);
            && (r.Good? <==> forall i | 0 <= i < |order| :: Parses(f, order[i]))
            && (r.Good? ==> forall n :: n in r.value <==> n in order && n != "")
            && (r.Good? ==> forall n <- r.value :: n in f && ParseDial(f[n], [Key("daemon"), Key(n)]) == DaemonConfig.Good(r.value[n]))
    decreases |order|
  {
    if order != [] {
      var last, front := order[|order| - 1], order[..|order| - 1];
      DialsByName(f, front);
      assert forall n :: n in order <==> n in front || n == last;
    }
  }

  predicate ValidDial(d: Dial) {
    DaemonConfig.ValidEndpoint(d.protocol, d.port)
  }

  /** What a dial entry reads back as: fields the protocol does not use are reset. */
  function NormalDial(d: Dial): Dial {
    if d.protocol == "local" then Dial("local", "", 0, "json", "", true)
    else
      var codec := if d.codec == "" then "json" else d.codec;
      if d.protocol == "tcp" then Dial("tcp", d.host, d.port, codec, "", true)
      else Dial(d.protocol, d.host, d.port, codec, d.caFile, d.verifyPeer)
  }

  lemma NetworkKeys(d: Dial, at: Path)
    ensures var j := DialToJson(d);
            && StrOf(j, at, "transport", "") == Read(d.protocol, None)
            && (d.protocol != "local" ==> StrOf(j, at, "host", "") == Read(d.host, None))
            && (d.protocol != "local" ==> Present(j, "port") == Some(Num(d.port)))
            && (d.protocol != "local" ==> StrOf(j, at, "codec", "json") == Read(if d.codec == "" then "json" else d.codec, None))
  {
  }

  lemma TlsKeys(d: Dial, at: Path)
    requires d.protocol == "tcp_ssl"
    ensures var j := DialToJson(d);
            StrOf(j, at, "ca", "") == Read(d.caFile, None) && BoolOf(j, at, "verify_peer", true) == Read(d.verifyPeer, None)
  {
  }

  lemma DialRoundTrip(d: Dial, at: Path)
    ensures var r := ParseDial(DialToJson(d), at);
            (r.Good? <==> ValidDial(d)) && (r.Good? ==> r.value == NormalDial(d))
  {
    NetworkKeys(d, at);
    if d.protocol == "tcp_ssl" { TlsKeys(d, at); }
  }

  // ---- The client's own file -----------------------------------------------

  function DialsToJson(m: Dials): Fields {
    map name <- m :: DialToJson(m[name])
  }

  /** What `ClientStateFile::write` puts into the file. */
  function ClientDocument(s: ClientState): Json {
    Obj(map["version" := Num(VERSION), "token_file" := Str(s.tokenFile), "daemon" := Obj(DialsToJson(s.daemon))]
        + DaemonConfig.Filled("instance_id", s.instanceId))
  }

  function NormalDials(m: Dials): Dials {
    map name | name in m && name != "" :: NormalDial(m[name])
  }

  predicate ValidDials(m: Dials) {
    forall name <- m :: name != "" ==> ValidDial(m[name])
  }

  lemma DocumentTexts(s: ClientState)
    ensures var j := ClientDocument(s);
            && IntOf(j, [], "version", 0, INT64_MIN, INT64_MAX) == Read(VERSION, None)
            && StrOf(j, [], "token_file", "") == Read(s.tokenFile, None)
            && StrOf(j, [], "instance_id", "") == Read(s.instanceId, None)
  {
  }

  lemma DocumentDials(s: ClientState)
    ensures var j := ClientDocument(s);
            && MappingOf(j, [], "daemon") == Read(Some(Obj(DialsToJson(s.daemon))), None)
            && DialNames(j) == s.daemon.Keys
  {
  }

  lemma ParsesWhenValid(m: Dials, name: string)
    requires name in m
    ensures Parses(DialsToJson(m), name) <==> (name != "" ==> ValidDial(m[name]))
    ensures ValidDial(m[name]) ==> ParseDial(DialsToJson(m)[name], [Key("daemon"), Key(name)]) == DaemonConfig.Good(NormalDial(m[name]))
  {
    DialRoundTrip(m[name], [Key("daemon"), Key(name)]);
  }

  lemma AllParse(m: Dials, order: seq<string>)
    requires Lists(order, m.Keys)
    ensures (forall i | 0 <= i < |order| :: Parses(DialsToJson(m), order[i])) <==> ValidDials(m)
  {
    forall n <- m ensures Parses(DialsToJson(m), n) <==> (n != "" ==> ValidDial(m[n])) {
      ParsesWhenValid(m, n);
    }
    if forall i | 0 <= i < |order| :: Parses(DialsToJson(m), order[i]) {
      forall n <- m ensures Parses(DialsToJson(m), n) {
        assert n in order;
      }
    }
  }

  lemma DialsRoundTrip(m: Dials, order: seq<string>)
    requires Lists(order, m.Keys)
    ensures var r := ParseDials(DialsToJson(m), order);
            (r.Good? <==> ValidDials(m)) && (r.Good? ==> r.value == NormalDials(m))
  {
    DialsByName(DialsToJson(m), order);
    AllParse(m, order);
    if ValidDials(m) {
      var r := ParseDials(DialsToJson(m), order);
      forall n <- r.value ensures n in m && r.value[n] == NormalDial(m[n]) {
        ParsesWhenValid(m, n);
      }
      assert r.value.Keys == NormalDials(m).Keys;
    }
  }

  /** A written client configuration is read back in its normal form, exactly when its
      dial entries are valid; it is usable when it names a token file and a module. */
  lemma ClientRoundTrip(s: ClientState, order: seq<string>)
    requires Lists(order, DialNames(ClientDocument(s)))
    ensures var r, dials := ParseClient(ClientDocument(s), order), NormalDials(s.daemon);
            && (r.Good? <==> ValidDials(s.daemon))
            && (r.Good? ==> r.value == ClientState(dials != map[] && s.tokenFile != "", s.tokenFile, s.instanceId, dials))
  {
    DocumentTexts(s);
    DocumentDials(s);
    DialsRoundTrip(s.daemon, order);
  }
}

/** Which client documents are accepted, and as what, said about the document alone. */
module ClientAcceptance {
  import opened Options
  import opened Json
  import opened JsonSchema
  import opened Orders
  import opened ClientConfig
  import opened ConfigAcceptance
  import DaemonConfig

  /** A `local` entry is read for its protocol only, a `tcp` one for its address too. */
  predicate DialOk(j: Json) {
    && j.Obj? && "transport" in j.fields && IsProtocol(j.fields["transport"])
    && (j.fields["transport"] != Str("local") ==> MayText(j, "host") && MayWhole(j, "port", 0, 65535) && MayText(j, "codec"))
    && (j.fields["transport"] == Str("tcp_ssl") ==> MayText(j, "ca") && MayFlag(j, "verify_peer"))
  }

  function DialFrom(j: Json): Dial {
    var protocol := TextAt(j, "transport", "");
    var network, tls := protocol != "local", protocol == "tcp_ssl";
    Dial(protocol, if network then TextAt(j, "host", "") else "", if network then WholeAt(j, "port", 0) else 0,
         if network then TextAt(j, "codec", "json") else "json", if tls then TextAt(j, "ca", "") else "",
         if tls then FlagAt(j, "verify_peer", true) else true)
  }

  lemma NetworkAccepted(j: Json, at: Path, protocol: string)
    ensures var r := NetworkPart(j, at, protocol);
            && (r.err.None? <==> (protocol != "local" ==> MayText(j, "host") && MayWhole(j, "port", 0, 65535) && MayText(j, "codec")))
            && (r.err.None? ==>
                  r.value == if protocol == "local" then Dial(protocol, "", 0, "json", "", true)
                             else Dial(protocol, TextAt(j, "host", ""), WholeAt(j, "port", 0), TextAt(j, "codec", "json"), "", true))
  {
    TextIsRead(j, at, "host", "");
    WholeIsRead(j, at, "port", 0, 0, 0xFFFF);
    TextIsRead(j, at, "codec", "json");
  }

  lemma TlsAccepted(j: Json, at: Path, protocol: string)
    ensures var r := TlsPart(j, at, protocol);
            && (r.err.None? <==> (protocol == "tcp_ssl" ==> MayText(j, "ca") && MayFlag(j, "verify_peer")))
            && (r.err.None? ==> r.value == if protocol == "tcp_ssl" then (TextAt(j, "ca", ""), FlagAt(j, "verify_peer", true)) else ("", true))
  {
    TextIsRead(j, at, "ca", "");
    FlagIsRead(j, at, "verify_peer", true);
  }

  lemma DialAccepted(j: Json, at: Path)
    ensures var r := ParseDial(j, at);
            (r.Good? <==> DialOk(j)) && (r.Good? ==> r.value == DialFrom(j))
  {
    if j.Obj? {
      TextIsRead(j, at, "transport", "");
      NetworkAccepted(j, at, TextAt(j, "transport", ""));
      TlsAccepted(j, at, TextAt(j, "transport", ""));
    }
  }

  predicate DialsOk(f: Fields) {
    forall n <- f :: n != "" ==> DialOk(f[n])
  }

  function DialsFrom(f: Fields): Dials {
    map n | n in f && n != "" :: DialFrom(f[n])
  }

  lemma DialsAccepted(f: Fields, order: seq<string>)
    requires Lists(order, f.Keys)
    ensures var r := ParseDials(f, order);
            (r.Good? <==> DialsOk(f)) && (r.Good? ==> r.value == DialsFrom(f))
  {
    DialsByName(f, order);
    forall n <- f ensures Parses(f, n) <==> (n != "" ==> DialOk(f[n])) {
      DialAccepted(f[n], [Key("daemon"), Key(n)]);
    }
    forall n <- f ensures n in order { }
    if ParseDials(f, order).Good? { DialsAreThose(f, order); }
  }

  lemma DialsAreThose(f: Fields, order: seq<string>)
    requires Lists(order, f.Keys) && ParseDials(f, order).Good?
    ensures ParseDials(f, order).value == DialsFrom(f)
  {
    DialsByName(f, order);
    var m, want := ParseDials(f, order).value, DialsFrom(f);
    forall n <- m ensures m[n] == DialFrom(f[n]) { DialAccepted(f[n], [Key("daemon"), Key(n)]); }
    assert m.Keys == want.Keys;
  }

  predicate ClientOk(obj: Json) {
    && MayText(obj, "token_file") && MayText(obj, "instance_id")
    && MayBlock(obj, "daemon") && DialsOk(BlockAt(obj, "daemon").fields)
  }

  /** A client document is accepted exactly if it is a mapping whose version is a whole
      number that agrees with 2 in its low 32 bits and whose body is well-typed; it is
      usable if it names a token file and a module. */
  lemma ClientAccepted(obj: Json, order: seq<string>)
    requires Lists(order, DialNames(obj))
    ensures var r, dials, token := ParseClient(obj, order), DialsFrom(BlockAt(obj, "daemon").fields), TextAt(obj, "token_file", "");
            && (r.Good? <==> obj.Obj? && "version" in obj.fields && obj.fields["version"].Num?
                             && INT64_MIN <= obj.fields["version"].number <= INT64_MAX
                             && obj.fields["version"].number % 0x1_0000_0000 == 2 && ClientOk(obj))
            && (r.Good? ==> r.value == ClientState(dials != map[] && token != "", token, TextAt(obj, "instance_id", ""), dials))
  {
    WholeIsRead(obj, [], "version", 0, INT64_MIN, INT64_MAX);
    NarrowedIsCongruent(WholeAt(obj, "version", 0));
    BodyAccepted(obj, order);
  }

  lemma BodyAccepted(obj: Json, order: seq<string>)
    requires Lists(order, DialNames(obj))
    ensures var r, dials, token := ParseBody(obj, order), DialsFrom(BlockAt(obj, "daemon").fields), TextAt(obj, "token_file", "");
            && (r.Good? <==> ClientOk(obj))
            && (r.Good? ==> r.value == ClientState(dials != map[] && token != "", token, TextAt(obj, "instance_id", ""), dials))
  {
    TextIsRead(obj, [], "token_file", "");
    TextIsRead(obj, [], "instance_id", "");
    BlockIsRead(obj, [], "daemon");
    if MayBlock(obj, "daemon") { DialsAccepted(BlockAt(obj, "daemon").fields, order); }
  }
}

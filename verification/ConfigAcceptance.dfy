/** Which configuration documents are accepted, and as what, said about the document alone.

    The reader goes key by key through accessors with a shared problem; here a document is
    described by what an operator may write, whoever wrote it. */
module ConfigAcceptance {
  import opened Options
  import opened Json
  import opened JsonSchema
  import opened DaemonConfig
  import opened ConfigRoundTrip
  import opened Orders

  // ---- One key -------------------------------------------------------------

  /** The key is missing, or there is nothing after it. */
  predicate Unset(j: Json, key: string) {
    j.Obj? ==> key in j.fields ==> j.fields[key] == Null
  }

  predicate MayText(j: Json, key: string) {
    Unset(j, key) || j.fields[key].Str?
  }

  function TextAt(j: Json, key: string, dflt: string): string {
    if !Unset(j, key) && j.fields[key].Str? then j.fields[key].text else dflt
  }

  predicate MayFlag(j: Json, key: string) {
    Unset(j, key) || j.fields[key].Bool?
  }

  function FlagAt(j: Json, key: string, dflt: bool): bool {
    if !Unset(j, key) && j.fields[key].Bool? then j.fields[key].flag else dflt
  }

  predicate MayWhole(j: Json, key: string, min: int, max: int) {
    Unset(j, key) || (j.fields[key].Num? && min <= j.fields[key].number <= max)
  }

  function WholeAt(j: Json, key: string, dflt: int): int {
    if !Unset(j, key) && j.fields[key].Num? then j.fields[key].number else dflt
  }

  predicate MayTexts(j: Json, key: string) {
    Unset(j, key) || (j.fields[key].Arr? && forall i | 0 <= i < |j.fields[key].items| :: j.fields[key].items[i].Str?)
  }

  function TextsAt(j: Json, key: string): seq<string> {
    if !Unset(j, key) && j.fields[key].Arr? then
      var items := j.fields[key].items;
      seq(|items|, i requires 0 <= i < |items| => if items[i].Str? then items[i].text else "")
    else []
  }

  predicate MayBlock(j: Json, key: string) {
    Unset(j, key) || j.fields[key].Obj?
  }

  /** A block that is not there is read as an empty one. */
  function BlockAt(j: Json, key: string): Json {
    if !Unset(j, key) && j.fields[key].Obj? then j.fields[key] else Obj(map[])
  }

  lemma TextIsRead(j: Json, at: Path, key: string, dflt: string)
    ensures var r := StrOf(j, at, key, dflt);
            (r.err.None? <==> MayText(j, key)) && r.value == TextAt(j, key, dflt)
  {
  }

  lemma FlagIsRead(j: Json, at: Path, key: string, dflt: bool)
    ensures var r := BoolOf(j, at, key, dflt);
            (r.err.None? <==> MayFlag(j, key)) && r.value == FlagAt(j, key, dflt)
  {
  }

  lemma WholeIsRead(j: Json, at: Path, key: string, dflt: int, min: int, max: int)
    requires min <= dflt <= max <= INT64_MAX
    ensures var r := IntOf(j, at, key, dflt, min, max);
            (r.err.None? <==> MayWhole(j, key, min, max)) && (r.err.None? ==> r.value == WholeAt(j, key, dflt))
  {
  }

  lemma {:induction false} StringsAreRead(items: seq<Json>, at: Path, i: nat)
    requires i <= |items|
    ensures var r := StringsOf(items, at, i);
            r.err.None? ==> |r.value| == |items| - i
                            && forall k | i <= k < |items| :: items[k].Str? && r.value[k - i] == items[k].text
    decreases |items| - i
  {
    if i < |items| { StringsAreRead(items, at, i + 1); }
  }

  lemma TextsAreRead(j: Json, at: Path, key: string)
    ensures var r := StringListOf(j, at, key);
            (r.err.None? <==> MayTexts(j, key)) && (r.err.None? ==> r.value == TextsAt(j, key))
  {
    if !Unset(j, key) && j.fields[key].Arr? { StringsAreRead(j.fields[key].items, at + [Key(key)], 0); }
  }

  lemma BlockIsRead(j: Json, at: Path, key: string)
    ensures var r := MappingOf(j, at, key);
            && (r.err.None? <==> MayBlock(j, key))
            && r.value == if Unset(j, key) || !j.fields[key].Obj? then None else Some(BlockAt(j, key))
  {
  }

  /** What a problem calls the value it found tells the kinds of values apart. */
  lemma KindsAreNamed(a: Json, b: Json)
    ensures TypeName(a) == TypeName(b)
       <==> (a.Null? <==> b.Null?) && (a.Bool? <==> b.Bool?) && (a.Num? <==> b.Num?) && (a.Float? <==> b.Float?)
            && (a.Str? <==> b.Str?) && (a.Arr? <==> b.Arr?) && (a.Obj? <==> b.Obj?)
  {
    var names := ["nothing", "a mapping", "a list", "a string", "true or false", "a whole number", "a decimal number"];
    assert names[0][0] == 'n' && names[4][0] == 't';
    assert names[1][2] == 'm' && names[2][2] == 'l' && names[3][2] == 's' && names[5][2] == 'w' && names[6][2] == 'd';
  }

  // ---- One transport -------------------------------------------------------

  predicate IsProtocol(j: Json) {
    j == Str("local") || j == Str("tcp") || j == Str("tcp_ssl")
  }

  predicate TransportOk(j: Json) {
    && j.Obj? && "protocol" in j.fields && IsProtocol(j.fields["protocol"])
    && MayText(j, "host") && MayWhole(j, "port", 0, 65535) && MayText(j, "codec")
    && MayText(j, "ca_file") && MayFlag(j, "verify_peer") && MayText(j, "cert") && MayText(j, "key")
  }

  function TransportFrom(j: Json): Transport {
    Transport(TextAt(j, "protocol", ""), TextAt(j, "host", ""), WholeAt(j, "port", 0), TextAt(j, "ca_file", ""),
              FlagAt(j, "verify_peer", true), TextAt(j, "codec", "json"), TextAt(j, "cert", ""), TextAt(j, "key", ""))
  }

  lemma FieldsAccepted(j: Json, at: Path, protocol: string)
    requires protocol == TextAt(j, "protocol", "")
    ensures var r := FieldsOf(j, at, protocol);
            && (r.err.None? <==> MayText(j, "host") && MayWhole(j, "port", 0, 65535) && MayText(j, "codec") && MayText(j, "ca_file")
                                 && MayFlag(j, "verify_peer") && MayText(j, "cert") && MayText(j, "key"))
            && (r.err.None? ==> r.value == TransportFrom(j))
  {
    TextIsRead(j, at, "host", "");
    WholeIsRead(j, at, "port", 0, 0, 0xFFFF);
    TextIsRead(j, at, "ca_file", "");
    FlagIsRead(j, at, "verify_peer", true);
    TextIsRead(j, at, "cert", "");
    TextIsRead(j, at, "key", "");
    TextIsRead(j, at, "codec", "json");
  }

  /** A transport is accepted exactly if it is a mapping with one of the three protocols
      and every key it sets has its type and range; keys it does not set have defaults. */
  lemma TransportAccepted(j: Json, at: Path)
    ensures var r := ParseTransport(j, at);
            (r.Good? <==> TransportOk(j)) && (r.Good? ==> r.value == TransportFrom(j))
  {
    if j.Obj? {
      TextIsRead(j, at, "protocol", "");
      FieldsAccepted(j, at, TextAt(j, "protocol", ""));
    }
  }

  // ---- One module ----------------------------------------------------------

  predicate TransportsOk(items: seq<Json>) {
    forall i | 0 <= i < |items| :: TransportOk(items[i])
  }

  function TransportsFrom(items: seq<Json>): seq<Transport> {
    seq(|items|, i requires 0 <= i < |items| => TransportFrom(items[i]))
  }

  /** The transports that a module's entry lists, in either spelling. */
  function Listed(j: Json): seq<Json> {
    if j.Arr? then j.items
    else if !Unset(j, "transports") && j.Obj? && j.fields["transports"].Arr? then j.fields["transports"].items
    else []
  }

  predicate ModuleOk(j: Json) {
    && (j.Null? || j.Arr? || (j.Obj? && (Unset(j, "transports") || j.fields["transports"].Arr?)))
    && TransportsOk(Listed(j))
  }

  lemma {:induction false} TransportsAccepted(items: seq<Json>, at: Path, i: nat)
    requires i <= |items|
    ensures var r := ParseTransports(items, at, i);
            && (r.Good? <==> forall k | i <= k < |items| :: TransportOk(items[k]))
            && (r.Good? ==> |r.value| == |items| - i && forall k | i <= k < |items| :: r.value[k - i] == TransportFrom(items[k]))
    decreases |items| - i
  {
    if i < |items| {
      TransportAccepted(items[i], at + [Key("transports"), Index(i)]);
      TransportsAccepted(items, at, i + 1);
    }
  }

  lemma ListAccepted(items: seq<Json>, at: Path)
    ensures var r := ParseTransports(items, at, 0);
            (r.Good? <==> TransportsOk(items)) && (r.Good? ==> r.value == TransportsFrom(items))
  {
    TransportsAccepted(items, at, 0);
    var r := ParseTransports(items, at, 0);
    if r.Good? {
      assert forall k | 0 <= k < |items| :: r.value[k] == r.value[k - 0] == TransportFrom(items[k]);
    }
  }

  /** A mapping is read by its list, if it has one. */
  lemma MappingIsItsList(j: Json, at: Path)
    requires j.Obj?
    ensures ParseModule(j, at)
         == if Unset(j, "transports") then Good([])
            else if j.fields["transports"].Arr? then ParseTransports(j.fields["transports"].items, at, 0)
            else Bad(WrongType(at + [Key("transports")], "a list of transports", TypeName(j.fields["transports"])))
  {
  }

  /** A module's entry names the transports it lists, in order, none dropped; it may be
      empty, a bare list, or a mapping with or without such a list, and nothing else. */
  lemma ModuleAccepted(j: Json, at: Path)
    ensures var r := ParseModule(j, at);
            (r.Good? <==> ModuleOk(j)) && (r.Good? ==> r.value == TransportsFrom(Listed(j)))
  {
    ListAccepted(Listed(j), at);
    if j.Obj? { MappingIsItsList(j, at); }
  }

  /** The first bad transport of a list is the one that is reported. */
  lemma {:induction false} FirstBadTransport(items: seq<Json>, at: Path, i: nat) returns (k: nat)
    requires i <= |items| && ParseTransports(items, at, i).Bad?
    ensures i <= k < |items| && !TransportOk(items[k]) && forall l | i <= l < k :: TransportOk(items[l])
    ensures ParseTransports(items, at, i).Err() == ParseTransport(items[k], at + [Key("transports"), Index(k)]).Err()
    decreases |items| - i
  {
    TransportAccepted(items[i], at + [Key("transports"), Index(i)]);
    if TransportOk(items[i]) {
      k := FirstBadTransport(items, at, i + 1);
    } else {
      k := i;
    }
  }

  // ---- The two spellings ---------------------------------------------------

  /** A bare list of transports is shorthand for a mapping with that list: the same
      transports, and the same problem if one is wrong. */
  lemma BareListIsShorthand(items: seq<Json>, at: Path)
    ensures ParseModule(Arr(items), at) == ParseModule(Obj(map["transports" := Arr(items)]), at)
  {
  }

  function Respelled(j: Json): Json {
    if j.Arr? then Obj(map["transports" := j]) else j
  }

  lemma {:induction false} RespelledModules(f: Fields, g: Fields, at: Path, order: seq<string>)
    requires g.Keys == f.Keys && forall n <- f :: g[n] == f[n] || g[n] == Respelled(f[n])
    ensures ParseModules(g, at, order) == ParseModules(f, at, order)
    decreases |order|
  {
    if order != [] {
      var name := order[|order| - 1];
      RespelledModules(f, g, at, order[..|order| - 1]);
      if name in f && f[name].Arr? { BareListIsShorthand(f[name].items, at + [Key(name)]); }
    }
  }

  lemma OtherBlocksAreRead(a: Json, b: Json, at: Path)
    requires Present(a, "ssl") == Present(b, "ssl") && Present(a, "dirs") == Present(b, "dirs")
    requires Present(a, "logging") == Present(b, "logging")
    ensures ReadSsl(a, at) == ReadSsl(b, at) && ReadDirs(a, at) == ReadDirs(b, at) && ReadLogging(a, at) == ReadLogging(b, at)
  {
    assert MappingOf(a, at, "ssl") == MappingOf(b, at, "ssl");
    assert MappingOf(a, at, "dirs") == MappingOf(b, at, "dirs");
    assert MappingOf(a, at, "logging") == MappingOf(b, at, "logging");
  }

  lemma OtherKeysAreRead(a: Json, b: Json, at: Path)
    requires Present(a, "insecure_tcp") == Present(b, "insecure_tcp") && Present(a, "container") == Present(b, "container")
    requires Present(a, "access_policy") == Present(b, "access_policy") && Present(a, "access_group") == Present(b, "access_group")
    requires Present(a, "signature_policy") == Present(b, "signature_policy")
    ensures ReadTail(a, at) == ReadTail(b, at)
  {
    assert StrOf(a, at, "container", "") == StrOf(b, at, "container", "");
    assert StrOf(a, at, "access_policy", "") == StrOf(b, at, "access_policy", "");
    assert StrOf(a, at, "access_group", "") == StrOf(b, at, "access_group", "");
    assert ReadPolicy(a, at) == ReadPolicy(b, at);
  }

  lemma OtherKeyStays(f: Fields, modules: Json, key: string)
    requires key != "modules"
    ensures Present(Obj(f["modules" := modules]), key) == Present(Obj(f), key)
  {
  }

  lemma RestIsRead(f: Fields, modules: Json, at: Path)
    ensures var a, b := Obj(f["modules" := modules]), Obj(f);
            && StringListOf(a, at, "modules_dirs") == StringListOf(b, at, "modules_dirs")
            && StrOf(a, at, "persistence_path", "") == StrOf(b, at, "persistence_path", "")
            && ReadSsl(a, at) == ReadSsl(b, at) && ReadDirs(a, at) == ReadDirs(b, at)
            && ReadLogging(a, at) == ReadLogging(b, at) && ReadTail(a, at) == ReadTail(b, at)
  {
    var a, b := Obj(f["modules" := modules]), Obj(f);
    OtherKeyStays(f, modules, "modules_dirs");
    OtherKeyStays(f, modules, "persistence_path");
    OtherKeyStays(f, modules, "ssl");
    OtherKeyStays(f, modules, "dirs");
    OtherKeyStays(f, modules, "logging");
    OtherBlocksAreRead(a, b, at);
    OtherKeyStays(f, modules, "insecure_tcp");
    OtherKeyStays(f, modules, "container");
    OtherKeyStays(f, modules, "access_policy");
    OtherKeyStays(f, modules, "access_group");
    OtherKeyStays(f, modules, "signature_policy");
    OtherKeysAreRead(a, b, at);
  }

  /** Respelling any of the modules changes nothing about the configuration. */
  lemma SpellingDoesNotMatter(f: Fields, m: Fields, g: Fields, at: Path, order: seq<string>)
    requires "modules" in f && f["modules"] == Obj(m)
    requires g.Keys == m.Keys && forall n <- m :: g[n] == m[n] || g[n] == Respelled(m[n])
    ensures ParseConfig(Obj(f["modules" := Obj(g)]), at, order) == ParseConfig(Obj(f), at, order)
  {
    RestIsRead(f, Obj(g), at);
    RespelledModules(m, g, at + [Key("modules")], order);
    BlockOfModules(f["modules" := Obj(g)], g, at, order);
    BlockOfModules(f, m, at, order);
  }

  lemma BlockOfModules(f: Fields, m: Fields, at: Path, order: seq<string>)
    requires "modules" in f && f["modules"] == Obj(m)
    ensures ParseModulesBlock(Obj(f), at, order) == ParseModules(m, at + [Key("modules")], order)
  {
  }

  // ---- The other blocks ----------------------------------------------------

  predicate SslOk(j: Json) {
    MayText(j, "cert") && MayText(j, "key") && MayText(j, "ca")
  }

  function SslFrom(j: Json): Ssl {
    Ssl(TextAt(j, "cert", ""), TextAt(j, "key", ""), TextAt(j, "ca", ""))
  }

  lemma SslAccepted(obj: Json, at: Path)
    ensures var r := ReadSsl(obj, at);
            && (r.err.None? <==> MayBlock(obj, "ssl") && SslOk(BlockAt(obj, "ssl")))
            && (r.err.None? ==> r.value == SslFrom(BlockAt(obj, "ssl")))
  {
    var j, sub := BlockAt(obj, "ssl"), at + [Key("ssl")];
    BlockIsRead(obj, at, "ssl");
    TextIsRead(j, sub, "cert", "");
    TextIsRead(j, sub, "key", "");
    TextIsRead(j, sub, "ca", "");
  }

  predicate DirsOk(j: Json) {
    && MayText(j, "modules") && MayText(j, "plugins") && MayText(j, "keyring")
    && MayText(j, "data") && MayText(j, "cache") && MayText(j, "logs")
  }

  function DirsFrom(j: Json): Dirs {
    Dirs(TextAt(j, "modules", ""), TextAt(j, "plugins", ""), TextAt(j, "keyring", ""),
         TextAt(j, "data", ""), TextAt(j, "cache", ""), TextAt(j, "logs", ""))
  }

  lemma DirsAccepted(obj: Json, at: Path)
    ensures var r := ReadDirs(obj, at);
            && (r.err.None? <==> MayBlock(obj, "dirs") && DirsOk(BlockAt(obj, "dirs")))
            && (r.err.None? ==> r.value == DirsFrom(BlockAt(obj, "dirs")))
  {
    var j, sub := BlockAt(obj, "dirs"), at + [Key("dirs")];
    BlockIsRead(obj, at, "dirs");
    TextIsRead(j, sub, "modules", "");
    TextIsRead(j, sub, "plugins", "");
    TextIsRead(j, sub, "keyring", "");
    TextIsRead(j, sub, "data", "");
    TextIsRead(j, sub, "cache", "");
    TextIsRead(j, sub, "logs", "");
  }

  predicate LoggingOk(j: Json) {
    && MayFlag(j, "enabled") && MayText(j, "file") && MayWhole(j, "max_size_mb", 0, 1048576)
    && MayWhole(j, "max_files", 0, 1000000) && MayFlag(j, "console")
  }

  function LoggingFrom(j: Json): Logging {
    Logging(FlagAt(j, "enabled", true), TextAt(j, "file", "daemon.log"), WholeAt(j, "max_size_mb", 10),
            WholeAt(j, "max_files", 5), FlagAt(j, "console", true))
  }

  lemma LoggingAccepted(obj: Json, at: Path)
    ensures var r := ReadLogging(obj, at);
            && (r.err.None? <==> MayBlock(obj, "logging") && LoggingOk(BlockAt(obj, "logging")))
            && (r.err.None? ==> r.value == LoggingFrom(BlockAt(obj, "logging")))
  {
    var j, sub := BlockAt(obj, "logging"), at + [Key("logging")];
    BlockIsRead(obj, at, "logging");
    FlagIsRead(j, sub, "enabled", true);
    TextIsRead(j, sub, "file", "daemon.log");
    WholeIsRead(j, sub, "max_size_mb", 10, 0, 1024 * 1024);
    WholeIsRead(j, sub, "max_files", 5, 0, 1000000);
    FlagIsRead(j, sub, "console", true);
  }

  predicate PolicyOk(p: string) {
    p == "" || p == "none" || p == "warn" || p == "require"
  }

  predicate TailOk(j: Json) {
    && MayFlag(j, "insecure_tcp") && MayText(j, "container") && MayText(j, "access_policy") && MayText(j, "access_group")
    && MayText(j, "signature_policy") && PolicyOk(TextAt(j, "signature_policy", ""))
  }

  function TailFrom(j: Json): Tail {
    Tail(FlagAt(j, "insecure_tcp", false), TextAt(j, "container", ""), TextAt(j, "access_policy", ""),
         TextAt(j, "access_group", ""), TextAt(j, "signature_policy", ""))
  }

  lemma TailAccepted(obj: Json, at: Path)
    ensures var r := ReadTail(obj, at);
            (r.err.None? <==> TailOk(obj)) && (r.err.None? ==> r.value == TailFrom(obj))
  {
    FlagIsRead(obj, at, "insecure_tcp", false);
    TextIsRead(obj, at, "container", "");
    TextIsRead(obj, at, "access_policy", "");
    TextIsRead(obj, at, "access_group", "");
    TextIsRead(obj, at, "signature_policy", "");
  }

  // ---- The modules ---------------------------------------------------------

  predicate ModulesOk(f: Fields) {
    forall n <- f :: n != "" ==> ModuleOk(f[n])
  }

  function ModulesFrom(f: Fields): Modules {
    map n | n in f && n != "" && Listed(f[n]) != [] :: TransportsFrom(Listed(f[n]))
  }

  lemma ModulesAccepted(f: Fields, at: Path, order: seq<string>)
    requires Lists(order, f.Keys)
    ensures var r := ParseModules(f, at, order);
            (r.Good? <==> ModulesOk(f)) && (r.Good? ==> r.value == ModulesFrom(f))
  {
    ModulesGood(f, at, order);
    ReadableByName(f, at, order);
    forall n <- f ensures Readable(f, at, n) <==> (n != "" ==> ModuleOk(f[n])) {
      ModuleAccepted(f[n], at + [Key(n)]);
    }
    if ParseModules(f, at, order).Good? { ModulesAreThose(f, at, order); }
  }

  lemma ModulesAreThose(f: Fields, at: Path, order: seq<string>)
    requires Lists(order, f.Keys) && ParseModules(f, at, order).Good? && ModulesOk(f)
    ensures ParseModules(f, at, order).value == ModulesFrom(f)
  {
    var m, want := ParseModules(f, at, order).value, ModulesFrom(f);
    forall n ensures (n in m <==> n in want) && (n in m ==> m[n] == want[n]) {
      ModulesValue(f, at, order, n);
      if n in f { ModuleAccepted(f[n], at + [Key(n)]); }
    }
    assert m.Keys == want.Keys;
  }

  lemma ModulesBlockAccepted(obj: Json, at: Path, order: seq<string>)
    requires Lists(order, ModuleNames(obj))
    ensures var r := ParseModulesBlock(obj, at, order);
            && (r.Good? <==> MayBlock(obj, "modules") && ModulesOk(BlockAt(obj, "modules").fields))
            && (r.Good? ==> r.value == ModulesFrom(BlockAt(obj, "modules").fields))
  {
    BlockIsRead(obj, at, "modules");
    if MayBlock(obj, "modules") { ModulesAccepted(BlockAt(obj, "modules").fields, at + [Key("modules")], order); }
  }

  // ---- The whole document --------------------------------------------------

  predicate ConfigOk(obj: Json) {
    && MayTexts(obj, "modules_dirs") && MayText(obj, "persistence_path")
    && MayBlock(obj, "modules") && ModulesOk(BlockAt(obj, "modules").fields)
    && MayBlock(obj, "ssl") && SslOk(BlockAt(obj, "ssl"))
    && MayBlock(obj, "dirs") && DirsOk(BlockAt(obj, "dirs"))
    && MayBlock(obj, "logging") && LoggingOk(BlockAt(obj, "logging"))
    && TailOk(obj)
  }

  /** `persistence_path` stands in for a data directory that is not given. */
  function ConfigFrom(obj: Json): Config {
    var dirs, path := DirsFrom(BlockAt(obj, "dirs")), TextAt(obj, "persistence_path", "");
    var tail := TailFrom(obj);
    Config(TextsAt(obj, "modules_dirs"), path, ModulesFrom(BlockAt(obj, "modules").fields), SslFrom(BlockAt(obj, "ssl")),
           if dirs.data != "" then dirs else Dirs(dirs.modules, dirs.plugins, dirs.keyring, path, dirs.cache, dirs.logs),
           LoggingFrom(BlockAt(obj, "logging")), tail.insecureTcp, tail.container, tail.accessPolicy, tail.accessGroup,
           tail.signaturePolicy)
  }

  /** The configuration is read exactly if every key that is set has its type, range and
      allowed value, wherever it is; it is then what is set, and defaults for the rest. */
  lemma ConfigAccepted(obj: Json, at: Path, order: seq<string>)
    requires Lists(order, ModuleNames(obj))
    ensures var r := ParseConfig(obj, at, order);
            (r.Good? <==> ConfigOk(obj)) && (r.Good? ==> r.value == ConfigFrom(obj))
  {
    TextsAreRead(obj, at, "modules_dirs");
    TextIsRead(obj, at, "persistence_path", "");
    ModulesBlockAccepted(obj, at, order);
    SslAccepted(obj, at);
    DirsAccepted(obj, at);
    LoggingAccepted(obj, at);
    TailAccepted(obj, at);
    Combined(obj, StringListOf(obj, at, "modules_dirs"), StrOf(obj, at, "persistence_path", ""), ParseModulesBlock(obj, at, order),
             ReadSsl(obj, at), ReadDirs(obj, at), ReadLogging(obj, at), ReadTail(obj, at));
  }

  /** The parts decide together. */
  lemma Combined(obj: Json, texts: Read<seq<string>>, path: Read<string>, modules: Parsed<Modules>, ssl: Read<Ssl>,
          dirs: Read<Dirs>, logging: Read<Logging>, tail: Read<Tail>)
    requires (texts.err.None? <==> MayTexts(obj, "modules_dirs")) && (texts.err.None? ==> texts.value == TextsAt(obj, "modules_dirs"))
    requires (path.err.None? <==> MayText(obj, "persistence_path")) && path.value == TextAt(obj, "persistence_path", "")
    requires modules.Good? <==> MayBlock(obj, "modules") && ModulesOk(BlockAt(obj, "modules").fields)
    requires modules.Good? ==> modules.value == ModulesFrom(BlockAt(obj, "modules").fields)
    requires ssl.err.None? <==> MayBlock(obj, "ssl") && SslOk(BlockAt(obj, "ssl"))
    requires ssl.err.None? ==> ssl.value == SslFrom(BlockAt(obj, "ssl"))
    requires dirs.err.None? <==> MayBlock(obj, "dirs") && DirsOk(BlockAt(obj, "dirs"))
    requires dirs.err.None? ==> dirs.value == DirsFrom(BlockAt(obj, "dirs"))
    requires logging.err.None? <==> MayBlock(obj, "logging") && LoggingOk(BlockAt(obj, "logging"))
    requires logging.err.None? ==> logging.value == LoggingFrom(BlockAt(obj, "logging"))
    requires (tail.err.None? <==> TailOk(obj)) && (tail.err.None? ==> tail.value == TailFrom(obj))
    ensures var r := Combine(texts, path, modules, ssl, dirs, logging, tail);
            (r.Good? <==> ConfigOk(obj)) && (r.Good? ==> r.value == ConfigFrom(obj))
  {
  }

  /** A document is accepted exactly if it is a mapping of version 2 with such a body. */
  lemma DocumentAccepted(obj: Json, order: seq<string>)
    requires Lists(order, ModuleNames(obj))
    ensures var r := ParseDocument(obj, order);
            && (r.Good? <==> obj.Obj? && "version" in obj.fields && obj.fields["version"] == Num(2) && ConfigOk(obj))
            && (r.Good? ==> r.value == ConfigFrom(obj))
  {
    WholeIsRead(obj, [], "version", 0, INT64_MIN, INT64_MAX);
    ConfigAccepted(obj, [], order);
  }

  /** What a document that sets nothing but its version means. */
  lemma MinimalDocument()
    ensures ParseDocument(Obj(map["version" := Num(2)]), [])
         == Good(Config([], "", map[], Ssl("", "", ""), Dirs("", "", "", "", "", ""),
                        Logging(true, "daemon.log", 10, 5, true), false, "", "", "", ""))
  {
    var obj := Obj(map["version" := Num(2)]);
    assert forall k: string | k != "version" :: Unset(obj, k);
    NothingSet(obj);
    DocumentAccepted(obj, []);
  }

  lemma NothingSet(obj: Json)
    requires forall k: string | k != "version" :: Unset(obj, k)
    ensures ConfigOk(obj)
    ensures ConfigFrom(obj) == Config([], "", map[], Ssl("", "", ""), Dirs("", "", "", "", "", ""),
                                      Logging(true, "daemon.log", 10, 5, true), false, "", "", "", "")
  {
    NoBlocks(obj);
    NoKeys(obj);
    assert ModulesFrom(map[]) == map[];
    EmptyBlocks();
  }

  lemma NoBlocks(obj: Json)
    requires Unset(obj, "modules") && Unset(obj, "ssl") && Unset(obj, "dirs") && Unset(obj, "logging")
    ensures MayBlock(obj, "modules") && MayBlock(obj, "ssl") && MayBlock(obj, "dirs") && MayBlock(obj, "logging")
    ensures BlockAt(obj, "modules") == BlockAt(obj, "ssl") == BlockAt(obj, "dirs") == BlockAt(obj, "logging") == Obj(map[])
  {
  }

  lemma NoKeys(obj: Json)
    requires forall k: string | k != "version" :: Unset(obj, k)
    ensures MayTexts(obj, "modules_dirs") && MayText(obj, "persistence_path") && TailOk(obj)
    ensures TextsAt(obj, "modules_dirs") == [] && TextAt(obj, "persistence_path", "") == "" && TailFrom(obj) == Tail(false, "", "", "", "")
  {
    assert Unset(obj, "modules_dirs") && Unset(obj, "persistence_path") && Unset(obj, "insecure_tcp") && Unset(obj, "container");
    assert Unset(obj, "access_policy") && Unset(obj, "access_group") && Unset(obj, "signature_policy");
  }

  lemma EmptyBlocks()
    ensures var none := Obj(map[]);
            && SslOk(none) && SslFrom(none) == Ssl("", "", "")
            && DirsOk(none) && DirsFrom(none) == Dirs("", "", "", "", "", "")
            && LoggingOk(none) && LoggingFrom(none) == Logging(true, "daemon.log", 10, 5, true)
  {
    assert forall k: string :: Unset(Obj(map[]), k);
  }

  /** The problem that is reported is that of the first part of the document that has one. */
  lemma FirstProblemIsReported(obj: Json, at: Path, order: seq<string>)
    requires ParseConfig(obj, at, order).Bad?
    ensures var parts := [StringListOf(obj, at, "modules_dirs").err, StrOf(obj, at, "persistence_path", "").err,
                          ParseModulesBlock(obj, at, order).Err(), ReadSsl(obj, at).err, ReadDirs(obj, at).err,
                          ReadLogging(obj, at).err, ReadTail(obj, at).err];
            exists k | 0 <= k < |parts| :: parts[k] == Some(ParseConfig(obj, at, order).problem) && forall l | 0 <= l < k :: parts[l].None?
  {
    var parts := [StringListOf(obj, at, "modules_dirs").err, StrOf(obj, at, "persistence_path", "").err,
                  ParseModulesBlock(obj, at, order).Err(), ReadSsl(obj, at).err, ReadDirs(obj, at).err,
                  ReadLogging(obj, at).err, ReadTail(obj, at).err];
    var k := if parts[0].Some? then 0 else if parts[1].Some? then 1 else if parts[2].Some? then 2 else if parts[3].Some? then 3
             else if parts[4].Some? then 4 else if parts[5].Some? then 5 else 6;
    assert parts[k] == Some(ParseConfig(obj, at, order).problem);
  }
}

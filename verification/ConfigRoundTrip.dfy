/** Printing a configuration and reading it back. */
module ConfigRoundTrip {
  import opened Options
  import opened Json
  import opened JsonSchema
  import opened DaemonConfig
  import opened Orders

  // ---- Transports ----------------------------------------------------------

  predicate ValidTransport(t: Transport) {
    ValidEndpoint(t.protocol, t.port)
  }

  /** What survives of a transport: a `local` one keeps nothing but its protocol, a `tcp`
      one nothing about certificates. */
  function NormalTransport(t: Transport, secrets: bool): Transport {
    if t.protocol == "local" then Transport("local", "", 0, "", true, "json", "", "")
    else
      var codec := if t.codec == "" then "json" else t.codec;
      if t.protocol == "tcp" then Transport("tcp", t.host, t.port, "", true, codec, "", "")
      else Transport("tcp_ssl", t.host, t.port, t.caFile, t.verifyPeer, codec,
                     if secrets then t.certFile else "", if secrets then t.keyFile else "")
  }

  predicate HasText(f: Fields, key: string, text: string) {
    if text == "" then key !in f else key in f && f[key] == Str(text)
  }

  lemma TlsFieldsHold(t: Transport, secrets: bool)
    requires t.protocol == "tcp_ssl"
    ensures var f := TlsFields(t, secrets);
            && HasText(f, "ca_file", t.caFile) && "verify_peer" in f && f["verify_peer"] == Bool(t.verifyPeer)
            && HasText(f, "cert", if secrets then t.certFile else "") && HasText(f, "key", if secrets then t.keyFile else "")
            && "protocol" !in f && "host" !in f && "port" !in f && "codec" !in f
  {
  }

  lemma DialFieldsHold(t: Transport)
    ensures var f := DialFields(t.protocol, t.host, t.port, t.codec);
            && "ca_file" !in f && "verify_peer" !in f && "cert" !in f && "key" !in f && "protocol" !in f
            && (t.protocol != "local" ==> "host" in f && f["host"] == Str(t.host))
            && (t.protocol != "local" ==> "port" in f && f["port"] == Num(t.port))
            && (t.protocol != "local" ==> "codec" in f && f["codec"] == Str(if t.codec == "" then "json" else t.codec))
  {
  }

  lemma DialKeys(t: Transport, secrets: bool)
    ensures var j := TransportToJson(t, secrets);
            && Present(j, "protocol") == Some(Str(t.protocol))
            && Present(j, "host") == (if t.protocol == "local" then None else Some(Str(t.host)))
            && Present(j, "port") == (if t.protocol == "local" then None else Some(Num(t.port)))
            && Present(j, "codec") == (if t.protocol == "local" then None else Some(Str(if t.codec == "" then "json" else t.codec)))
  {
    if t.protocol == "tcp_ssl" { TlsFieldsHold(t, secrets); }
    DialFieldsHold(t);
  }

  lemma PeerKeys(t: Transport, secrets: bool, at: Path)
    ensures var j, tls := TransportToJson(t, secrets), t.protocol == "tcp_ssl";
            && StrOf(j, at, "ca_file", "") == Read(if tls then t.caFile else "", None)
            && BoolOf(j, at, "verify_peer", true) == Read(if tls then t.verifyPeer else true, None)
  {
    if t.protocol == "tcp_ssl" { TlsFieldsHold(t, secrets); }
    DialFieldsHold(t);
  }

  lemma SecretKeys(t: Transport, secrets: bool, at: Path)
    ensures var j, tls := TransportToJson(t, secrets), t.protocol == "tcp_ssl";
            && StrOf(j, at, "cert", "") == Read(if tls && secrets then t.certFile else "", None)
            && StrOf(j, at, "key", "") == Read(if tls && secrets then t.keyFile else "", None)
  {
    if t.protocol == "tcp_ssl" { TlsFieldsHold(t, secrets); }
    DialFieldsHold(t);
  }

  /** A printed transport is read back, in its normal form, exactly when it is valid. */
  lemma TransportRoundTrip(t: Transport, secrets: bool, at: Path)
    ensures var r := ParseTransport(TransportToJson(t, secrets), at);
            && (r.Good? <==> ValidTransport(t))
            && (r.Good? ==> r.value == NormalTransport(t, secrets))
  {
    DialKeys(t, secrets);
    PeerKeys(t, secrets, at);
    SecretKeys(t, secrets, at);
  }

  predicate ValidTransports(ts: seq<Transport>) {
    forall i | 0 <= i < |ts| :: ValidTransport(ts[i])
  }

  function NormalTransports(ts: seq<Transport>, secrets: bool): seq<Transport> {
    if ts == [] then [] else [NormalTransport(ts[0], secrets)] + NormalTransports(ts[1..], secrets)
  }

  lemma {:induction false} PrintedTransports(ts: seq<Transport>, secrets: bool)
    ensures |TransportsToJson(ts, secrets)| == |ts|
    ensures forall i | 0 <= i < |ts| :: TransportsToJson(ts, secrets)[i] == TransportToJson(ts[i], secrets)
  {
    if ts != [] { PrintedTransports(ts[1..], secrets); }
  }

  lemma {:induction false} TransportsRoundTrip(ts: seq<Transport>, secrets: bool, at: Path, i: nat)
    requires i <= |ts|
    ensures |TransportsToJson(ts, secrets)| == |ts|
    ensures var r := ParseTransports(TransportsToJson(ts, secrets), at, i);
            && (r.Good? <==> ValidTransports(ts[i..]))
            && (r.Good? ==> r.value == NormalTransports(ts[i..], secrets))
    decreases |ts| - i
  {
    PrintedTransports(ts, secrets);
    if i < |ts| {
      TransportRoundTrip(ts[i], secrets, at + [Key("transports"), Index(i)]);
      TransportsRoundTrip(ts, secrets, at, i + 1);
      var rest := ts[i..];
      assert rest[0] == ts[i] && rest[1..] == ts[i + 1..];
      assert ValidTransports(rest) <==> ValidTransport(rest[0]) && ValidTransports(rest[1..]) by {
        assert forall k | 0 <= k < |rest| - 1 :: rest[1..][k] == rest[k + 1];
      }
    }
  }

  // ---- Modules -------------------------------------------------------------

  /** Unnamed modules and modules without transports are dropped. */
  function NormalModules(m: Modules, secrets: bool): Modules {
    map name | name in m && name != "" && m[name] != [] :: NormalTransports(m[name], secrets)
  }

  predicate ValidModules(m: Modules) {
    forall name <- m :: name != "" ==> ValidTransports(m[name])
  }

  lemma ModuleRoundTrip(ts: seq<Transport>, secrets: bool, at: Path)
    ensures var r := ParseModule(ModuleToJson(ts, secrets), at);
            && (r.Good? <==> ValidTransports(ts))
            && (r.Good? ==> r.value == NormalTransports(ts, secrets))
  {
    ModuleIsItsList(ts, secrets, at);
    TransportsRoundTrip(ts, secrets, at, 0);
    assert ts[0..] == ts;
  }

  lemma ModuleIsItsList(ts: seq<Transport>, secrets: bool, at: Path)
    ensures ParseModule(ModuleToJson(ts, secrets), at) == ParseTransports(TransportsToJson(ts, secrets), at, 0)
  {
    assert ListOf(ModuleToJson(ts, secrets), at, "transports", "a list of transports") == Read(Some(TransportsToJson(ts, secrets)), None);
  }

  /** The entries with the given names are valid. */
  predicate ValidNames(m: Modules, names: seq<string>) {
    forall i | 0 <= i < |names| && names[i] in m && names[i] != "" :: ValidTransports(m[names[i]])
  }

  function Only(m: Modules, names: seq<string>): Modules {
    map name | name in m && name in names :: m[name]
  }

  lemma {:induction false} ModulesInOrder(m: Modules, secrets: bool, at: Path, order: seq<string>)
    requires forall n <- order :: n in m
    ensures var r := ParseModules(ModulesToJson(m, secrets), at, order);
            && (r.Good? <==> ValidNames(m, order))
            && (r.Good? ==> r.value == NormalModules(Only(m, order), secrets))
    decreases |order|
  {
    if order != [] {
      var last, front := order[|order| - 1], order[..|order| - 1];
      assert forall n :: n in order <==> n in front || n == last;
      ModulesInOrder(m, secrets, at, front);
      ModuleRoundTrip(m[last], secrets, at + [Key(last)]);
      OneMoreName(m, order);
      OneMoreModule(m, secrets, order);
    }
  }

  lemma OneMoreName(m: Modules, order: seq<string>)
    requires order != [] && order[|order| - 1] in m
    ensures var last, front := order[|order| - 1], order[..|order| - 1];
            ValidNames(m, order) <==> ValidNames(m, front) && (last != "" ==> ValidTransports(m[last]))
  {
  }

  lemma OneMoreModule(m: Modules, secrets: bool, order: seq<string>)
    requires order != [] && order[|order| - 1] in m
    ensures var last, front := order[|order| - 1], order[..|order| - 1];
            NormalModules(Only(m, order), secrets)
            == if last == "" || m[last] == [] then NormalModules(Only(m, front), secrets)
               else NormalModules(Only(m, front), secrets)[last := NormalTransports(m[last], secrets)]
  {
    var last, front := order[|order| - 1], order[..|order| - 1];
    assert forall n :: n in order <==> n in front || n == last;
    assert Only(m, order) == Only(m, front)[last := m[last]];
    OneMoreNormal(Only(m, front), last, m[last], secrets);
  }

  lemma OneMoreNormal(m: Modules, name: string, ts: seq<Transport>, secrets: bool)
    requires name in m ==> m[name] == ts
    ensures NormalModules(m[name := ts], secrets)
         == if name == "" || ts == [] then NormalModules(m, secrets)
            else NormalModules(m, secrets)[name := NormalTransports(ts, secrets)]
  {
    if name == "" || ts == [] {
      OneSkipped(m, name, ts, secrets);
    } else {
      OneKept(m, name, ts, secrets);
    }
  }

  lemma OneSkipped(m: Modules, name: string, ts: seq<Transport>, secrets: bool)
    requires (name in m ==> m[name] == ts) && (name == "" || ts == [])
    ensures NormalModules(m[name := ts], secrets) == NormalModules(m, secrets)
  {
  }

  lemma OneKept(m: Modules, name: string, ts: seq<Transport>, secrets: bool)
    requires name != "" && ts != []
    ensures NormalModules(m[name := ts], secrets) == NormalModules(m, secrets)[name := NormalTransports(ts, secrets)]
  {
  }

  // ---- The other blocks ----------------------------------------------------

  lemma {:induction false} TextsRoundTrip(texts: seq<string>, at: Path, i: nat)
    requires i <= |texts|
    ensures |TextsToJson(texts)| == |texts|
    ensures StringsOf(TextsToJson(texts), at, i) == Read(texts[i..], None)
    decreases |texts| - i
  {
    PrintedTexts(texts);
    if i < |texts| {
      TextsRoundTrip(texts, at, i + 1);
      assert texts[i..] == [texts[i]] + texts[i + 1..];
    } else {
      assert texts[i..] == [];
    }
  }

  lemma {:induction false} PrintedTexts(texts: seq<string>)
    ensures |TextsToJson(texts)| == |texts|
    ensures forall i | 0 <= i < |texts| :: TextsToJson(texts)[i] == Str(texts[i])
  {
    if texts != [] { PrintedTexts(texts[1..]); }
  }

  predicate Has(f: Fields, key: string, j: Json) {
    key in f && f[key] == j
  }

  lemma SslRoundTrip(f: Fields, ssl: Ssl, at: Path)
    requires Has(f, "ssl", SslToJson(ssl))
    ensures ReadSsl(Obj(f), at) == Read(ssl, None)
  {
  }

  lemma FirstDirsHold(d: Dirs)
    ensures var f := DirsToJson(d);
            HasText(f, "modules", d.modules) && HasText(f, "plugins", d.plugins) && HasText(f, "keyring", d.keyring)
  {
  }

  lemma LastDirsHold(d: Dirs)
    ensures var f := DirsToJson(d);
            HasText(f, "data", d.data) && HasText(f, "cache", d.cache) && HasText(f, "logs", d.logs)
  {
  }

  lemma TextIn(f: Fields, at: Path, key: string, text: string)
    requires HasText(f, key, text)
    ensures StrOf(Obj(f), at, key, "") == Read(text, None)
  {
  }

  lemma DirsAreRead(d: Dirs, at: Path)
    ensures var j := Obj(DirsToJson(d));
            && StrOf(j, at, "modules", "") == Read(d.modules, None) && StrOf(j, at, "plugins", "") == Read(d.plugins, None)
            && StrOf(j, at, "keyring", "") == Read(d.keyring, None) && StrOf(j, at, "data", "") == Read(d.data, None)
            && StrOf(j, at, "cache", "") == Read(d.cache, None) && StrOf(j, at, "logs", "") == Read(d.logs, None)
  {
    FirstDirsHold(d);
    LastDirsHold(d);
    var f := DirsToJson(d);
    TextIn(f, at, "modules", d.modules);
    TextIn(f, at, "plugins", d.plugins);
    TextIn(f, at, "keyring", d.keyring);
    TextIn(f, at, "data", d.data);
    TextIn(f, at, "cache", d.cache);
    TextIn(f, at, "logs", d.logs);
  }

  lemma NothingRedirected(d: Dirs)
    requires DirsToJson(d) == map[]
    ensures d == Dirs("", "", "", "", "", "")
  {
    FirstDirsHold(d);
    LastDirsHold(d);
  }

  lemma DirsRoundTrip(f: Fields, d: Dirs, at: Path)
    requires if DirsToJson(d) == map[] then "dirs" !in f else Has(f, "dirs", Obj(DirsToJson(d)))
    ensures ReadDirs(Obj(f), at) == Read(d, None)
  {
    if DirsToJson(d) == map[] {
      NothingRedirected(d);
    } else {
      assert MappingOf(Obj(f), at, "dirs") == Read(Some(Obj(DirsToJson(d))), None);
      DirsAreRead(d, at + [Key("dirs")]);
    }
  }

  predicate ValidLogging(l: Logging) {
    0 <= l.maxSizeMb <= 1024 * 1024 && 0 <= l.maxFiles <= 1000000
  }

  lemma LoggingRoundTrip(f: Fields, l: Logging, at: Path)
    requires Has(f, "logging", LoggingToJson(l))
    ensures var r := ReadLogging(Obj(f), at);
            && (r.err.None? <==> ValidLogging(l)) && (r.err.None? ==> r.value == l)
  {
  }

  predicate ValidPolicy(p: string) {
    p == "" || KnownPolicy(p)
  }

  lemma TailRoundTrip(f: Fields, cfg: Config, at: Path)
    requires Has(f, "insecure_tcp", Bool(cfg.insecureTcp)) && HasText(f, "container", cfg.container)
    requires HasText(f, "access_policy", cfg.accessPolicy) && HasText(f, "access_group", cfg.accessGroup)
    requires HasText(f, "signature_policy", cfg.signaturePolicy)
    ensures var r := ReadTail(Obj(f), at);
            && (r.err.None? <==> ValidPolicy(cfg.signaturePolicy))
            && (r.err.None? ==> r.value == Tail(cfg.insecureTcp, cfg.container, cfg.accessPolicy, cfg.accessGroup, cfg.signaturePolicy))
  {
  }

  // ---- The whole document --------------------------------------------------

  /** The fields hold what `ConfigToJson` prints; other keys do not matter. */
  predicate Holds(f: Fields, cfg: Config, secrets: bool) {
    HoldsHead(f, cfg, secrets) && HoldsMiddle(f, cfg) && HoldsTail(f, cfg)
  }

  predicate HoldsHead(f: Fields, cfg: Config, secrets: bool) {
    && Has(f, "modules_dirs", Arr(TextsToJson(cfg.modulesDirs))) && Has(f, "persistence_path", Str(cfg.persistencePath))
    && Has(f, "modules", Obj(ModulesToJson(cfg.modules, secrets))) && Has(f, "ssl", SslToJson(cfg.ssl))
  }

  predicate HoldsMiddle(f: Fields, cfg: Config) {
    && (if DirsToJson(cfg.dirs) == map[] then "dirs" !in f else Has(f, "dirs", Obj(DirsToJson(cfg.dirs))))
    && Has(f, "logging", LoggingToJson(cfg.logging)) && Has(f, "insecure_tcp", Bool(cfg.insecureTcp))
  }

  predicate HoldsTail(f: Fields, cfg: Config) {
    && HasText(f, "container", cfg.container) && HasText(f, "access_policy", cfg.accessPolicy)
    && HasText(f, "access_group", cfg.accessGroup) && HasText(f, "signature_policy", cfg.signaturePolicy)
  }

  predicate NoHeadKeys(f: Fields) {
    "modules_dirs" !in f && "persistence_path" !in f && "modules" !in f && "ssl" !in f
  }

  predicate NoMiddleKeys(f: Fields) {
    "dirs" !in f && "logging" !in f && "insecure_tcp" !in f
  }

  predicate NoTailKeys(f: Fields) {
    "container" !in f && "access_policy" !in f && "access_group" !in f && "signature_policy" !in f
  }

  lemma HeadFieldsHold(cfg: Config, secrets: bool)
    ensures HoldsHead(HeadFields(cfg, secrets), cfg, secrets)
    ensures NoMiddleKeys(HeadFields(cfg, secrets)) && NoTailKeys(HeadFields(cfg, secrets))
  {
  }

  lemma MiddleFieldsHold(cfg: Config)
    ensures HoldsMiddle(MiddleFields(cfg), cfg)
  {
  }

  lemma MiddleKeysOnly(cfg: Config)
    ensures forall k <- MiddleFields(cfg) :: k == "dirs" || k == "logging" || k == "insecure_tcp"
  {
  }

  lemma MiddleHasNoHead(cfg: Config)
    ensures NoHeadKeys(MiddleFields(cfg))
  {
    MiddleKeysOnly(cfg);
  }

  lemma MiddleHasNoTail(cfg: Config)
    ensures NoTailKeys(MiddleFields(cfg))
  {
    MiddleKeysOnly(cfg);
  }

  lemma TailFieldsHold(cfg: Config)
    ensures HoldsTail(TailFields(cfg), cfg)
  {
  }

  predicate IsTailKey(key: string) {
    key == "container" || key == "access_policy" || key == "access_group" || key == "signature_policy"
  }

  lemma TailKeysOnly(cfg: Config)
    ensures forall k <- TailFields(cfg) :: IsTailKey(k)
  {
  }

  lemma TailKeysApart()
    ensures !IsTailKey("modules_dirs") && !IsTailKey("persistence_path") && !IsTailKey("modules") && !IsTailKey("ssl")
    ensures !IsTailKey("dirs") && !IsTailKey("logging") && !IsTailKey("insecure_tcp")
  {
  }

  lemma TailFieldsApart(cfg: Config)
    ensures NoHeadKeys(TailFields(cfg)) && NoMiddleKeys(TailFields(cfg))
  {
    TailKeysOnly(cfg);
    TailKeysApart();
  }

  lemma HeadStays(f: Fields, more: Fields, cfg: Config, secrets: bool)
    requires HoldsHead(f, cfg, secrets) && NoHeadKeys(more)
    ensures HoldsHead(f + more, cfg, secrets)
  {
  }

  lemma MiddleAdded(f: Fields, middle: Fields, more: Fields, cfg: Config)
    requires HoldsMiddle(middle, cfg) && NoMiddleKeys(f) && NoMiddleKeys(more)
    ensures HoldsMiddle(f + middle + more, cfg)
  {
  }

  lemma TailAdded(f: Fields, middle: Fields, tail: Fields, cfg: Config)
    requires HoldsTail(tail, cfg) && NoTailKeys(f) && NoTailKeys(middle)
    ensures HoldsTail(f + middle + tail, cfg)
  {
  }

  lemma ConfigHolds(cfg: Config, secrets: bool)
    ensures Holds(ConfigToJson(cfg, secrets), cfg, secrets)
  {
    var a, b, c := HeadFields(cfg, secrets), MiddleFields(cfg), TailFields(cfg);
    HeadFieldsHold(cfg, secrets);
    MiddleFieldsHold(cfg);
    MiddleHasNoHead(cfg);
    MiddleHasNoTail(cfg);
    TailFieldsHold(cfg);
    TailFieldsApart(cfg);
    HeadStays(a, b, cfg, secrets);
    HeadStays(a + b, c, cfg, secrets);
    MiddleAdded(a, b, c, cfg);
    TailAdded(a, b, c, cfg);
  }

  predicate ValidConfig(cfg: Config) {
    ValidModules(cfg.modules) && ValidLogging(cfg.logging) && ValidPolicy(cfg.signaturePolicy)
  }

  /** What a configuration reads back as. */
  function Normal(cfg: Config, secrets: bool): Config {
    cfg.(modules := NormalModules(cfg.modules, secrets), dirs := Folded(cfg.dirs, cfg.persistencePath))
  }

  lemma ModulesRoundTrip(f: Fields, m: Modules, secrets: bool, at: Path, order: seq<string>)
    requires Has(f, "modules", Obj(ModulesToJson(m, secrets))) && Lists(order, m.Keys)
    ensures var r := ParseModulesBlock(Obj(f), at, order);
            && (r.Good? <==> ValidModules(m))
            && (r.Good? ==> r.value == NormalModules(m, secrets))
  {
    assert MappingOf(Obj(f), at, "modules") == Read(Some(Obj(ModulesToJson(m, secrets))), None);
    ModulesInOrder(m, secrets, at + [Key("modules")], order);
    assert Only(m, order) == m;
    NamesCoverModules(m, order);
  }

  lemma NamesCoverModules(m: Modules, order: seq<string>)
    requires forall n :: n in order <==> n in m.Keys
    ensures ValidNames(m, order) <==> ValidModules(m)
  {
    if ValidNames(m, order) {
      forall n <- m | n != "" ensures ValidTransports(m[n]) {
        var i :| 0 <= i < |order| && order[i] == n;
      }
    }
  }

  lemma HeadIsReadBack(f: Fields, cfg: Config, secrets: bool, at: Path)
    requires HoldsHead(f, cfg, secrets)
    ensures StringListOf(Obj(f), at, "modules_dirs") == Read(cfg.modulesDirs, None)
    ensures StrOf(Obj(f), at, "persistence_path", "") == Read(cfg.persistencePath, None)
    ensures ReadSsl(Obj(f), at) == Read(cfg.ssl, None)
  {
    TextsRoundTrip(cfg.modulesDirs, at + [Key("modules_dirs")], 0);
    assert cfg.modulesDirs[0..] == cfg.modulesDirs;
    SslRoundTrip(f, cfg.ssl, at);
  }

  lemma ConfigIsReadBack(f: Fields, cfg: Config, secrets: bool, at: Path, order: seq<string>)
    requires Holds(f, cfg, secrets) && Lists(order, cfg.modules.Keys)
    ensures var r := ParseConfig(Obj(f), at, order);
            && (r.Good? <==> ValidConfig(cfg))
            && (r.Good? ==> r.value == Normal(cfg, secrets))
  {
    HeadIsReadBack(f, cfg, secrets, at);
    ModulesRoundTrip(f, cfg.modules, secrets, at, order);
    DirsRoundTrip(f, cfg.dirs, at);
    LoggingRoundTrip(f, cfg.logging, at);
    TailRoundTrip(f, cfg, at);
    CombinesTo(cfg, secrets, ParseModulesBlock(Obj(f), at, order), ReadLogging(Obj(f), at), ReadTail(Obj(f), at));
  }

  /** The blocks that cannot fail are given; the other three decide. */
  lemma CombinesTo(cfg: Config, secrets: bool, modules: Parsed<Modules>, logging: Read<Logging>, tail: Read<Tail>)
    requires (modules.Good? <==> ValidModules(cfg.modules)) && (modules.Good? ==> modules.value == NormalModules(cfg.modules, secrets))
    requires (logging.err.None? <==> ValidLogging(cfg.logging)) && (logging.err.None? ==> logging.value == cfg.logging)
    requires tail.err.None? <==> ValidPolicy(cfg.signaturePolicy)
    requires tail.err.None? ==> tail.value == Tail(cfg.insecureTcp, cfg.container, cfg.accessPolicy, cfg.accessGroup, cfg.signaturePolicy)
    ensures var r := Combine(Read(cfg.modulesDirs, None), Read(cfg.persistencePath, None), modules, Read(cfg.ssl, None),
                             Read(cfg.dirs, None), logging, tail);
            && (r.Good? <==> ValidConfig(cfg))
            && (r.Good? ==> r.value == Normal(cfg, secrets))
  {
  }

  lemma OtherKeysDoNotMatter(f: Fields, cfg: Config, secrets: bool, j: Json)
    requires Holds(f, cfg, secrets)
    ensures Holds(f["version" := j], cfg, secrets)
  {
    VersionIsApart(f, j);
  }

  lemma VersionIsApart(f: Fields, j: Json)
    ensures forall k: string | k != "version" :: (k in f["version" := j] <==> k in f) && (k in f ==> f["version" := j][k] == f[k])
  {
  }

  /** Reading the configuration file that was written: it succeeds exactly for a
      configuration with known protocols and policy and with numbers in range, and gives
      its normal form. */
  lemma DocumentRoundTrip(cfg: Config, order: seq<string>)
    requires Lists(order, cfg.modules.Keys)
    ensures var r := ParseDocument(ConfigDocument(cfg), order);
            && (r.Good? <==> ValidConfig(cfg))
            && (r.Good? ==> r.value == Normal(cfg, true))
  {
    var f := ConfigToJson(cfg, true);
    ConfigHolds(cfg, true);
    OtherKeysDoNotMatter(f, cfg, true, Num(VERSION));
    DocumentIsItsConfig(f, order);
    ConfigIsReadBack(f["version" := Num(VERSION)], cfg, true, [], order);
  }

  lemma DocumentIsItsConfig(f: Fields, order: seq<string>)
    ensures ParseDocument(Obj(f["version" := Num(VERSION)]), order) == ParseConfig(Obj(f["version" := Num(VERSION)]), [], order)
  {
  }

  /** The block that `state.json` carries, without secrets. */
  lemma StateRoundTrip(cfg: Config, at: Path, order: seq<string>)
    requires Lists(order, cfg.modules.Keys)
    ensures var r := ParseConfig(Obj(ConfigToJson(cfg, false)), at, order);
            && (r.Good? <==> ValidConfig(cfg))
            && (r.Good? ==> r.value == Normal(cfg, false))
  {
    ConfigHolds(cfg, false);
    ConfigIsReadBack(ConfigToJson(cfg, false), cfg, false, at, order);
  }

  // ---- The normal form is a fixed point ------------------------------------

  lemma {:induction false} NormalTransportsTwice(ts: seq<Transport>, secrets: bool)
    requires ValidTransports(ts)
    ensures NormalTransports(NormalTransports(ts, secrets), secrets) == NormalTransports(ts, secrets)
    ensures ValidTransports(NormalTransports(ts, secrets)) && |NormalTransports(ts, secrets)| == |ts|
  {
    if ts != [] {
      assert forall i | 0 <= i < |ts| - 1 :: ts[1..][i] == ts[i + 1];
      NormalTransportsTwice(ts[1..], secrets);
      var n, rest := NormalTransports(ts, secrets), NormalTransports(ts[1..], secrets);
      assert n[1..] == rest;
      assert forall i | 1 <= i < |n| :: n[i] == rest[i - 1];
    }
  }

  /** A normal form is valid, and reading back what it prints gives it again. */
  lemma NormalIsFixed(cfg: Config, secrets: bool)
    requires ValidConfig(cfg)
    ensures ValidConfig(Normal(cfg, secrets)) && Normal(Normal(cfg, secrets), secrets) == Normal(cfg, secrets)
  {
    var m, n := cfg.modules, NormalModules(cfg.modules, secrets);
    forall name <- n
      ensures ValidTransports(n[name]) && n[name] != [] && NormalTransports(n[name], secrets) == n[name]
    {
      NormalTransportsTwice(m[name], secrets);
    }
  }

  // ---- What is published without secrets -----------------------------------

  function Forget(t: Transport): Transport {
    t.(certFile := "", keyFile := "")
  }

  function ForgetAll(ts: seq<Transport>): seq<Transport> {
    if ts == [] then [] else [Forget(ts[0])] + ForgetAll(ts[1..])
  }

  /** The configuration with every listener's certificate and key path blanked. */
  function WithoutKeys(cfg: Config): Config {
    cfg.(modules := map name <- cfg.modules :: ForgetAll(cfg.modules[name]))
  }

  lemma {:induction false} KeysAreNotPrinted(ts: seq<Transport>)
    ensures TransportsToJson(ForgetAll(ts), false) == TransportsToJson(ts, false)
  {
    if ts != [] {
      KeysAreNotPrinted(ts[1..]);
      assert ForgetAll(ts)[1..] == ForgetAll(ts[1..]);
    }
  }

  /** Without secrets, what is printed does not depend on any listener's certificate or
      key path: two configurations that differ only there print the same. */
  lemma NoListenerKeys(a: Config, b: Config)
    requires WithoutKeys(a) == WithoutKeys(b)
    ensures ConfigToJson(a, false) == ConfigToJson(b, false)
  {
    BlankingPrintsTheSame(a);
    BlankingPrintsTheSame(b);
  }

  lemma BlankingPrintsTheSame(cfg: Config)
    ensures ConfigToJson(WithoutKeys(cfg), false) == ConfigToJson(cfg, false)
  {
    var w := WithoutKeys(cfg);
    forall name <- cfg.modules
      ensures ModuleToJson(w.modules[name], false) == ModuleToJson(cfg.modules[name], false)
    {
      KeysAreNotPrinted(cfg.modules[name]);
    }
    assert ModulesToJson(w.modules, false) == ModulesToJson(cfg.modules, false);
    SamePrint(w, cfg);
  }

  lemma SamePrint(a: Config, b: Config)
    requires ModulesToJson(a.modules, false) == ModulesToJson(b.modules, false)
    requires a == b.(modules := a.modules)
    ensures ConfigToJson(a, false) == ConfigToJson(b, false)
  {
    assert HeadFields(a, false) == HeadFields(b, false);
    assert MiddleFields(a) == MiddleFields(b);
    assert TailFields(a) == TailFields(b);
  }

  /** The session-wide key path is published all the same. */
  lemma SessionKeyIsPublished(cfg: Config)
    ensures var ssl := Get(Obj(ConfigToJson(cfg, false)), "ssl");
            ssl.Some? && Get(ssl.value, "key") == Some(Str(cfg.ssl.key))
  {
    ConfigHolds(cfg, false);
    SslIsHeld(ConfigToJson(cfg, false), cfg);
  }

  lemma SslIsHeld(f: Fields, cfg: Config)
    requires HoldsHead(f, cfg, false)
    ensures Get(Obj(f), "ssl") == Some(SslToJson(cfg.ssl)) && Get(SslToJson(cfg.ssl), "key") == Some(Str(cfg.ssl.key))
  {
  }

  // ---- The order of the modules does not matter ----------------------------

  /** What one entry contributes, read on its own. */
  predicate Readable(f: Fields, at: Path, name: string)
    requires name in f
  {
    name != "" ==> ParseModule(f[name], at + [Key(name)]).Good?
  }

  lemma {:induction false} ModulesGood(f: Fields, at: Path, order: seq<string>)
    requires forall n <- order :: n in f
    ensures ParseModules(f, at, order).Good? <==> forall i | 0 <= i < |order| :: Readable(f, at, order[i])
    decreases |order|
  {
    if order != [] { ModulesGood(f, at, order[..|order| - 1]); }
  }

  /** What an entry contributes; nothing when it is wrong. */
  function EntryOf(f: Fields, at: Path, name: string): seq<Transport>
    requires name in f
  {
    match ParseModule(f[name], at + [Key(name)])
    case Good(ts) => ts
    case Bad(_) => []
  }

  /** Whether a module has an entry, and which, does not depend on the others. */
  lemma {:induction false} ModulesValue(f: Fields, at: Path, order: seq<string>, n: string)
    requires (forall n <- order :: n in f) && ParseModules(f, at, order).Good?
    ensures var m := ParseModules(f, at, order).value;
            && (n in m <==> n in order && n != "" && EntryOf(f, at, n) != [])
            && (n in m ==> m[n] == EntryOf(f, at, n))
    decreases |order|
  {
    if order != [] {
      var last, front := order[|order| - 1], order[..|order| - 1];
      assert n in order <==> n in front || n == last;
      ModulesValue(f, at, front, n);
    }
  }

  /** Which order the modules are visited in decides nothing but which problem is
      reported first. */
  lemma OrderDoesNotMatter(obj: Json, order: seq<string>, other: seq<string>)
    requires Lists(order, ModuleNames(obj)) && Lists(other, ModuleNames(obj))
    ensures ParseDocument(obj, order).Good? <==> ParseDocument(obj, other).Good?
    ensures ParseDocument(obj, order).Good? ==> ParseDocument(obj, order) == ParseDocument(obj, other)
  {
    SameModules(obj, [], order, other);
  }

  lemma SameModules(obj: Json, at: Path, order: seq<string>, other: seq<string>)
    requires Lists(order, ModuleNames(obj)) && Lists(other, ModuleNames(obj))
    ensures var r, s := ParseModulesBlock(obj, at, order), ParseModulesBlock(obj, at, other);
            (r.Good? <==> s.Good?) && (r.Good? ==> r == s)
  {
    var m := MappingOf(obj, at, "modules");
    if m.err.None? {
      var f, sub := FieldsIn(m.value), at + [Key("modules")];
      assert f.Keys == ModuleNames(obj);
      SameInAnyOrder(f, sub, order, other);
    }
  }

  lemma SameValue(f: Fields, at: Path, order: seq<string>, other: seq<string>)
    requires Lists(order, f.Keys) && Lists(other, f.Keys)
    requires ParseModules(f, at, order).Good? && ParseModules(f, at, other).Good?
    ensures ParseModules(f, at, order).value == ParseModules(f, at, other).value
  {
    var r, s := ParseModules(f, at, order).value, ParseModules(f, at, other).value;
    forall n ensures (n in r <==> n in s) && (n in r ==> r[n] == s[n]) {
      ModulesValue(f, at, order, n);
      ModulesValue(f, at, other, n);
    }
    assert r.Keys == s.Keys;
  }

  lemma SameInAnyOrder(f: Fields, at: Path, order: seq<string>, other: seq<string>)
    requires Lists(order, f.Keys) && Lists(other, f.Keys)
    ensures var r, s := ParseModules(f, at, order), ParseModules(f, at, other);
            (r.Good? <==> s.Good?) && (r.Good? ==> r == s)
  {
    ModulesGood(f, at, order);
    ModulesGood(f, at, other);
    ReadableByName(f, at, order);
    ReadableByName(f, at, other);
    if ParseModules(f, at, order).Good? { SameValue(f, at, order, other); }
  }

  lemma ReadableByName(f: Fields, at: Path, order: seq<string>)
    requires Lists(order, f.Keys)
    ensures (forall i | 0 <= i < |order| :: Readable(f, at, order[i])) <==> (forall n <- f :: Readable(f, at, n))
  {
    if forall i | 0 <= i < |order| :: Readable(f, at, order[i]) {
      forall n <- f ensures Readable(f, at, n) {
        assert n in order;
      }
    }
  }
}

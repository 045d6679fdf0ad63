/** The daemon's configuration document: its printer and its reader. */
module DaemonConfig {
  import opened Options
  import opened Json
  import opened JsonSchema
  import opened Orders

  datatype Transport = Transport(protocol: string, host: string, port: int, caFile: string, verifyPeer: bool,
                                 codec: string, certFile: string, keyFile: string)

  datatype Ssl = Ssl(cert: string, key: string, ca: string)

  datatype Dirs = Dirs(modules: string, plugins: string, keyring: string, data: string, cache: string, logs: string)

  datatype Logging = Logging(enabled: bool, file: string, maxSizeMb: int, maxFiles: int, console: bool)

  type Modules = map<string, seq<Transport>>

  datatype Config = Config(
    modulesDirs: seq<string>, persistencePath: string, modules: Modules, ssl: Ssl, dirs: Dirs, logging: Logging,
    insecureTcp: bool, container: string, accessPolicy: string, accessGroup: string, signaturePolicy: string)

  const VERSION := 2

  // ---- Printing ------------------------------------------------------------

  type Fields = map<string, Json>

  /** A text field that is left out when empty. */
  function Filled(key: string, text: string): Fields {
    if text == "" then map[] else map[key := Str(text)]
  }

  /** Where to listen or dial; a `local` endpoint has no address. */
  function DialFields(protocol: string, host: string, port: int, codec: string): Fields {
    if protocol == "local" then map[]
    else map["host" := Str(host), "port" := Num(port), "codec" := Str(if codec == "" then "json" else codec)]
  }

  function TlsFields(t: Transport, secrets: bool): Fields {
    if t.protocol != "tcp_ssl" then map[]
    else
      Filled("ca_file", t.caFile) + map["verify_peer" := Bool(t.verifyPeer)]
      + (if secrets then Filled("cert", t.certFile) + Filled("key", t.keyFile) else map[])
  }

  function TransportToJson(t: Transport, secrets: bool): Json {
    Obj(map["protocol" := Str(t.protocol)] + DialFields(t.protocol, t.host, t.port, t.codec) + TlsFields(t, secrets))
  }

  function TransportsToJson(ts: seq<Transport>, secrets: bool): seq<Json> {
    if ts == [] then [] else [TransportToJson(ts[0], secrets)] + TransportsToJson(ts[1..], secrets)
  }

  function ModuleToJson(ts: seq<Transport>, secrets: bool): Json {
    Obj(map["transports" := Arr(TransportsToJson(ts, secrets))])
  }

  function ModulesToJson(m: Modules, secrets: bool): Fields {
    map name <- m :: ModuleToJson(m[name], secrets)
  }

  function TextsToJson(texts: seq<string>): seq<Json> {
    if texts == [] then [] else [Str(texts[0])] + TextsToJson(texts[1..])
  }

  function SslToJson(s: Ssl): Json {
    Obj(map["cert" := Str(s.cert), "key" := Str(s.key), "ca" := Str(s.ca)])
  }

  function DirsToJson(d: Dirs): Fields {
    Filled("modules", d.modules) + Filled("plugins", d.plugins) + Filled("keyring", d.keyring)
    + Filled("data", d.data) + Filled("cache", d.cache) + Filled("logs", d.logs)
  }

  function LoggingToJson(l: Logging): Json {
    Obj(map["enabled" := Bool(l.enabled), "file" := Str(l.file), "max_size_mb" := Num(l.maxSizeMb),
            "max_files" := Num(l.maxFiles), "console" := Bool(l.console)])
  }

  function HeadFields(cfg: Config, secrets: bool): Fields {
    map["modules_dirs" := Arr(TextsToJson(cfg.modulesDirs)), "persistence_path" := Str(cfg.persistencePath),
        "modules" := Obj(ModulesToJson(cfg.modules, secrets)), "ssl" := SslToJson(cfg.ssl)]
  }

  /** `dirs` is printed only when something is redirected. */
  function MiddleFields(cfg: Config): Fields {
    var dirs := DirsToJson(cfg.dirs);
    (if dirs == map[] then map[] else map["dirs" := Obj(dirs)])
    + map["logging" := LoggingToJson(cfg.logging), "insecure_tcp" := Bool(cfg.insecureTcp)]
  }

  function TailFields(cfg: Config): Fields {
    Filled("container", cfg.container) + Filled("access_policy", cfg.accessPolicy)
    + Filled("access_group", cfg.accessGroup) + Filled("signature_policy", cfg.signaturePolicy)
  }

  function ConfigToJson(cfg: Config, secrets: bool): Fields {
    HeadFields(cfg, secrets) + MiddleFields(cfg) + TailFields(cfg)
  }

  /** The configuration file as it is written. */
  function ConfigDocument(cfg: Config): Json {
    Obj(ConfigToJson(cfg, true)["version" := Num(VERSION)])
  }

  // ---- Reading, as a function ----------------------------------------------

  datatype Parsed<T> = Good(value: T) | Bad(problem: Problem) {
    function Err(): Errs { if Bad? then Some(problem) else None }
  }

  /** A value when nothing went wrong, and the first problem otherwise. */
  function Unless<T>(err: Errs, value: T): Parsed<T> {
    if err.Some? then Bad(err.value) else Good(value)
  }

  predicate KnownProtocol(p: string) {
    p == "local" || p == "tcp" || p == "tcp_ssl"
  }

  /** An endpoint that both readers accept. */
  predicate ValidEndpoint(protocol: string, port: int) {
    KnownProtocol(protocol) && (protocol != "local" ==> 0 <= port <= 0xFFFF)
  }

  predicate KnownPolicy(p: string) {
    p == "none" || p == "warn" || p == "require"
  }

  function FieldsOf(j: Json, at: Path, protocol: string): Read<Transport> {
    var host := StrOf(j, at, "host", "");
    var port := IntOf(j, at, "port", 0, 0, 0xFFFF);
    var ca := StrOf(j, at, "ca_file", "");
    var verify := BoolOf(j, at, "verify_peer", true);
    var cert := StrOf(j, at, "cert", "");
    var key := StrOf(j, at, "key", "");
    var codec := StrOf(j, at, "codec", "json");
    Read(Transport(protocol, host.value, port.value, ca.value, verify.value, codec.value, cert.value, key.value),
         First(host.err, First(port.err, First(ca.err, First(verify.err, First(cert.err, First(key.err, codec.err)))))))
  }

  function ParseTransport(j: Json, at: Path): Parsed<Transport> {
    if !j.Obj? then Bad(WrongType(at, "a mapping describing one transport", TypeName(j)))
    else
      var protocol := StrOf(j, at, "protocol", "");
      if !KnownProtocol(protocol.value) then
        Bad(First(protocol.err, Some(NotOneOf(at + [Key("protocol")], protocol.value))).value)
      else
        var t := FieldsOf(j, at, protocol.value);
        Unless(First(protocol.err, t.err), t.value)
  }

  function ParseTransports(items: seq<Json>, at: Path, i: nat): Parsed<seq<Transport>>
    requires i <= |items|
    decreases |items| - i
  {
    if i == |items| then Good([])
    else
      match ParseTransport(items[i], at + [Key("transports"), Index(i)])
      case Bad(p) => Bad(p)
      case Good(t) =>
        match ParseTransports(items, at, i + 1)
        case Bad(p) => Bad(p)
        case Good(ts) => Good([t] + ts)
  }

  /** One entry under `modules`; nothing when it names no transports. */
  function ParseModule(j: Json, at: Path): Parsed<seq<Transport>> {
    match j
    case Null => Good([])
    case Arr(items) => ParseTransports(items, at, 0)
    case Obj(_) =>
      var l := ListOf(j, at, "transports", "a list of transports");
      if l.err.Some? then Bad(l.err.value)
      else if l.value.None? then Good([]) else ParseTransports(l.value.value, at, 0)
    case _ => Bad(WrongType(at, "a list of transports, or a mapping with a \"transports\" list", TypeName(j)))
  }

  /** The modules, read in the given order of their names. */
  function ParseModules(f: Fields, at: Path, order: seq<string>): Parsed<Modules>
    decreases |order|
  {
    if order == [] then Good(map[])
    else
      var last := |order| - 1;
      match ParseModules(f, at, order[..last])
      case Bad(p) => Bad(p)
      case Good(m) =>
        if order[last] == "" || order[last] !in f then Good(m)
        else match ParseModule(f[order[last]], at + [Key(order[last])])
          case Bad(p) => Bad(p)
          case Good(ts) => Good(if ts == [] then m else m[order[last] := ts])
  }

  function FieldsIn(j: Option<Json>): Fields {
    if j.Some? && j.value.Obj? then j.value.fields else map[]
  }

  /** The names under `modules`. */
  function ModuleNames(obj: Json): set<string> {
    FieldsIn(Present(obj, "modules")).Keys
  }

  function ReadSsl(obj: Json, at: Path): Read<Ssl> {
    var m := MappingOf(obj, at, "ssl");
    if m.value.None? then Read(Ssl("", "", ""), m.err)
    else
      var j, sub := m.value.value, at + [Key("ssl")];
      var cert, key, ca := StrOf(j, sub, "cert", ""), StrOf(j, sub, "key", ""), StrOf(j, sub, "ca", "");
      Read(Ssl(cert.value, key.value, ca.value), First(cert.err, First(key.err, ca.err)))
  }

  function ReadDirs(obj: Json, at: Path): Read<Dirs> {
    var m := MappingOf(obj, at, "dirs");
    if m.value.None? then Read(Dirs("", "", "", "", "", ""), m.err)
    else
      var j, sub := m.value.value, at + [Key("dirs")];
      var modules, plugins, keyring := StrOf(j, sub, "modules", ""), StrOf(j, sub, "plugins", ""), StrOf(j, sub, "keyring", "");
      var data, cache, logs := StrOf(j, sub, "data", ""), StrOf(j, sub, "cache", ""), StrOf(j, sub, "logs", "");
      Read(Dirs(modules.value, plugins.value, keyring.value, data.value, cache.value, logs.value),
           First(modules.err, First(plugins.err, First(keyring.err, First(data.err, First(cache.err, logs.err))))))
  }

  function ReadLogging(obj: Json, at: Path): Read<Logging> {
    var m := MappingOf(obj, at, "logging");
    if m.value.None? then Read(Logging(true, "daemon.log", 10, 5, true), m.err)
    else
      var j, sub := m.value.value, at + [Key("logging")];
      var enabled := BoolOf(j, sub, "enabled", true);
      var file := StrOf(j, sub, "file", "daemon.log");
      var size := IntOf(j, sub, "max_size_mb", 10, 0, 1024 * 1024);
      var count := IntOf(j, sub, "max_files", 5, 0, 1000000);
      var console := BoolOf(j, sub, "console", true);
      Read(Logging(enabled.value, file.value, size.value, count.value, console.value),
           First(enabled.err, First(file.err, First(size.err, First(count.err, console.err)))))
  }

  function ReadPolicy(obj: Json, at: Path): Read<string> {
    var r := StrOf(obj, at, "signature_policy", "");
    if r.value != "" && !KnownPolicy(r.value) then Read(r.value, Some(NotOneOf(at + [Key("signature_policy")], r.value)))
    else r
  }

  /** `persistence_path` is the older spelling of `dirs.data`. */
  function Folded(d: Dirs, persistencePath: string): Dirs {
    if d.data == "" then d.(data := persistencePath) else d
  }

  datatype Tail = Tail(insecureTcp: bool, container: string, accessPolicy: string, accessGroup: string, signaturePolicy: string)

  function ReadTail(obj: Json, at: Path): Read<Tail> {
    var insecure := BoolOf(obj, at, "insecure_tcp", false);
    var container := StrOf(obj, at, "container", "");
    var policy := StrOf(obj, at, "access_policy", "");
    var group := StrOf(obj, at, "access_group", "");
    var signature := ReadPolicy(obj, at);
    Read(Tail(insecure.value, container.value, policy.value, group.value, signature.value),
         First(insecure.err, First(container.err, First(policy.err, First(group.err, signature.err)))))
  }

  function ParseModulesBlock(obj: Json, at: Path, order: seq<string>): Parsed<Modules>
  {
    var m := MappingOf(obj, at, "modules");
    if m.err.Some? then Bad(m.err.value)
    else ParseModules(FieldsIn(m.value), at + [Key("modules")], order)
  }

  /** Every field on its own, and the first problem in document order rejects the whole. */
  function Combine(texts: Read<seq<string>>, path: Read<string>, modules: Parsed<Modules>, ssl: Read<Ssl>,
          dirs: Read<Dirs>,
                   logging: Read<Logging>, tail: Read<Tail>): Parsed<Config>
  {
    var err := First(texts.err, First(path.err, First(modules.Err(), First(ssl.err, First(dirs.err, First(logging.err, tail.err))))));
    if err.Some? then Bad(err.value)
    else
      Good(Config(texts.value, path.value, modules.value, ssl.value, Folded(dirs.value, path.value), logging.value,
                  tail.value.insecureTcp, tail.value.container, tail.value.accessPolicy, tail.value.accessGroup,
                  tail.value.signaturePolicy))
  }

  /** What reading a document means. */
  function ParseConfig(obj: Json, at: Path, order: seq<string>): Parsed<Config>
  {
    Combine(StringListOf(obj, at, "modules_dirs"), StrOf(obj, at, "persistence_path", ""), ParseModulesBlock(obj, at, order),
            ReadSsl(obj, at), ReadDirs(obj, at), ReadLogging(obj, at), ReadTail(obj, at))
  }

  function ParseDocument(obj: Json, order: seq<string>): Parsed<Config>
  {
    if !obj.Obj? then Bad(NotAMapping)
    else
      var v := IntOf(obj, [], "version", 0, INT64_MIN, INT64_MAX);
      if v.err.Some? then Bad(v.err.value)
      else if v.value != VERSION then Bad(WrongVersion(v.value))
      else ParseConfig(obj, [], order)
  }
}

/** The reader of the daemon's configuration as it runs: one shared collector, early exits,
    and a loop over the modules. Each method does what the function of the same part in
    `DaemonConfig` says, whatever the collector held before. */
module DaemonConfigReader {
  import opened Options
  import opened Json
  import opened JsonSchema
  import opened DaemonConfig
  import opened Orders

  method ReadFields(r: Reader, protocol: string) returns (t: Transport)
    modifies r.errors
    ensures t == FieldsOf(r.obj, r.prefix, protocol).value
    ensures r.errors.first == First(old(r.errors.first), FieldsOf(r.obj, r.prefix, protocol).err)
  {
    var host := r.ReadStr("host", "");
    var port := r.ReadInt("port", 0, 0, 0xFFFF);
    var ca := r.ReadStr("ca_file", "");
    var verify := r.ReadBool("verify_peer", true);
    var cert := r.ReadStr("cert", "");
    var key := r.ReadStr("key", "");
    var codec := r.ReadStr("codec", "json");
    return Transport(protocol, host, port, ca, verify, codec, cert, key);
  }

  method ReadTransport(j: Json, errs: Errors, at: Path) returns (t: Option<Transport>)
    modifies errs
    ensures errs.first == First(old(errs.first), ParseTransport(j, at).Err())
    ensures t == if errs.first.Some? then None else Some(ParseTransport(j, at).value)
  {
    if !j.Obj? {
      errs.Note(WrongType(at, "a mapping describing one transport", TypeName(j)));
      return None;
    }
    var r := new Reader(j, errs, at);
    var protocol := r.ReadStr("protocol", "");
    if protocol != "local" && protocol != "tcp" && protocol != "tcp_ssl" {
      errs.Note(NotOneOf(at + [Key("protocol")], protocol));
      return None;
    }
    var fields := ReadFields(r, protocol);
    return if errs.first.Some? then None else Some(fields);
  }

  /** What is read so far, put before what the rest reads as. */
  function Before(ts: seq<Transport>, rest: Parsed<seq<Transport>>): Parsed<seq<Transport>> {
    if rest.Bad? then rest else Good(ts + rest.value)
  }

  method ReadTransports(items: seq<Json>, errs: Errors, at: Path) returns (r: Option<seq<Transport>>)
    modifies errs
    ensures errs.first == First(old(errs.first), ParseTransports(items, at, 0).Err())
    ensures errs.first.None? ==> r == Some(ParseTransports(items, at, 0).value)
    ensures r.None? ==> errs.first.Some?
    ensures r.Some? ==> errs.first == old(errs.first)
    ensures items == [] ==> r == Some([])
  {
    var ts: seq<Transport>, i := [], 0;
    assert forall u: seq<Transport> :: [] + u == u && u + [] == u;
    while i < |items|
      invariant 0 <= i <= |items|
      invariant errs.first == old(errs.first) && (i > 0 ==> errs.first.None?)
      invariant ParseTransports(items, at, 0) == Before(ts, ParseTransports(items, at, i))
      invariant i == 0 ==> ts == []
    {
      ghost var here, rest := ParseTransport(items[i], at + [Key("transports"), Index(i)]), ParseTransports(items, at, i + 1);
      var t := ReadTransport(items[i], errs, at + [Key("transports"), Index(i)]);
      if t.None? { return None; }
      assert here == Good(t.value);
      assert rest.Good? ==> ts + ([t.value] + rest.value) == (ts + [t.value]) + rest.value;
      ts := ts + [t.value];
      i := i + 1;
    }
    return Some(ts);
  }

  /** One module's entry; nothing when the document has to be refused. */
  method ReadModule(j: Json, errs: Errors, at: Path) returns (r: Option<seq<Transport>>)
    modifies errs
    ensures errs.first == First(old(errs.first), ParseModule(j, at).Err())
    ensures errs.first.None? ==> r == Some(ParseModule(j, at).value)
    ensures r.None? ==> errs.first.Some?
    ensures r.Some? ==> errs.first == old(errs.first)
  {
    if j.Null? { return Some([]); }
    var items: seq<Json>;
    if j.Arr? {
      items := j.items;
    } else if j.Obj? {
      var mr := new Reader(j, errs, at);
      var listed := mr.ReadList("transports", "a list of transports");
      if listed.None? {
        if errs.first.Some? { return None; }
        return Some([]);
      }
      items := listed.value;
    } else {
      errs.Note(WrongType(at, "a list of transports, or a mapping with a \"transports\" list", TypeName(j)));
      return None;
    }
    r := ReadTransports(items, errs, at);
  }

  lemma {:induction false} BadStays(f: Fields, at: Path, order: seq<string>, i: nat)
    requires i <= |order| && ParseModules(f, at, order[..i]).Bad?
    ensures ParseModules(f, at, order) == ParseModules(f, at, order[..i])
    decreases |order|
  {
    if i < |order| {
      var last := |order| - 1;
      assert order[..last][..i] == order[..i];
      BadStays(f, at, order[..last], i);
    } else {
      assert order[..i] == order;
    }
  }

  method ReadModules(f: Fields, errs: Errors, at: Path, order: seq<string>) returns (r: Option<Modules>)
    requires forall n <- order :: n in f
    modifies errs
    ensures errs.first == First(old(errs.first), ParseModules(f, at, order).Err())
    ensures errs.first.None? ==> r == Some(ParseModules(f, at, order).value)
    ensures r.None? ==> errs.first.Some?
    ensures r.Some? ==> errs.first == old(errs.first)
  {
    var m: Modules, i := map[], 0;
    while i < |order|
      invariant 0 <= i <= |order| && errs.first == old(errs.first)
      invariant errs.first.None? ==> ParseModules(f, at, order[..i]) == Good(m)
    {
      var name := order[i];
      assert order[..i + 1][..i] == order[..i];
      i := i + 1;
      if name == "" { continue; }
      var ts := ReadModule(f[name], errs, at + [Key(name)]);
      if errs.first != old(errs.first) { BadStays(f, at, order, i); }
      if ts.None? { return None; }
      if ts.value != [] { m := m[name := ts.value]; }
    }
    assert order[..i] == order;
    return Some(m);
  }

  method ReadSslBlock(r: Reader) returns (ssl: Ssl)
    modifies r.errors
    ensures ssl == ReadSsl(r.obj, r.prefix).value
    ensures r.errors.first == First(old(r.errors.first), ReadSsl(r.obj, r.prefix).err)
  {
    ssl := Ssl("", "", "");
    var m := r.ReadMapping("ssl");
    if m.Some? {
      var sr := new Reader(m.value, r.errors, r.prefix + [Key("ssl")]);
      var cert := sr.ReadStr("cert", "");
      var key := sr.ReadStr("key", "");
      var ca := sr.ReadStr("ca", "");
      ssl := Ssl(cert, key, ca);
    }
  }

  method ReadDirsBlock(r: Reader) returns (dirs: Dirs)
    modifies r.errors
    ensures dirs == ReadDirs(r.obj, r.prefix).value
    ensures r.errors.first == First(old(r.errors.first), ReadDirs(r.obj, r.prefix).err)
  {
    dirs := Dirs("", "", "", "", "", "");
    var m := r.ReadMapping("dirs");
    if m.Some? {
      var d := new Reader(m.value, r.errors, r.prefix + [Key("dirs")]);
      var modules := d.ReadStr("modules", "");
      var plugins := d.ReadStr("plugins", "");
      var keyring := d.ReadStr("keyring", "");
      var data := d.ReadStr("data", "");
      var cache := d.ReadStr("cache", "");
      var logs := d.ReadStr("logs", "");
      dirs := Dirs(modules, plugins, keyring, data, cache, logs);
    }
  }

  method ReadLoggingBlock(r: Reader) returns (logging: Logging)
    modifies r.errors
    ensures logging == ReadLogging(r.obj, r.prefix).value
    ensures r.errors.first == First(old(r.errors.first), ReadLogging(r.obj, r.prefix).err)
  {
    logging := Logging(true, "daemon.log", 10, 5, true);
    var m := r.ReadMapping("logging");
    if m.Some? {
      var l := new Reader(m.value, r.errors, r.prefix + [Key("logging")]);
      var enabled := l.ReadBool("enabled", true);
      var file := l.ReadStr("file", "daemon.log");
      var size := l.ReadInt("max_size_mb", 10, 0, 1024 * 1024);
      var count := l.ReadInt("max_files", 5, 0, 1000000);
      var console := l.ReadBool("console", true);
      logging := Logging(enabled, file, size, count, console);
    }
  }

  method ReadRest(r: Reader) returns (tail: Option<Tail>)
    modifies r.errors
    ensures r.errors.first == First(old(r.errors.first), ReadTail(r.obj, r.prefix).err)
    ensures tail == if r.errors.first.Some? then None else Some(ReadTail(r.obj, r.prefix).value)
  {
    var insecure := r.ReadBool("insecure_tcp", false);
    var container := r.ReadStr("container", "");
    var policy := r.ReadStr("access_policy", "");
    var group := r.ReadStr("access_group", "");
    var signature := r.ReadStr("signature_policy", "");
    if signature != "" && !KnownPolicy(signature) {
      r.errors.Note(NotOneOf(r.prefix + [Key("signature_policy")], signature));
      return None;
    }
    return if r.errors.first.Some? then None else Some(Tail(insecure, container, policy, group, signature));
  }

  method ReadModulesBlock(r: Reader, order: seq<string>) returns (modules: Option<Modules>)
    requires Lists(order, ModuleNames(r.obj))
    modifies r.errors
    ensures r.errors.first == First(old(r.errors.first), ParseModulesBlock(r.obj, r.prefix, order).Err())
    ensures r.errors.first.None? ==> modules == Some(ParseModulesBlock(r.obj, r.prefix, order).value)
    ensures modules.None? ==> r.errors.first.Some?
  {
    modules := Some(map[]);
    var m := r.ReadMapping("modules");
    assert order != [] ==> order[0] in ModuleNames(r.obj);
    if m.Some? {
      modules := ReadModules(m.value.fields, r.errors, r.prefix + [Key("modules")], order);
    }
  }

  /** `daemonConfigFromJson`: with the collector empty on entry it answers what
      `ParseConfig` says, and with the same first problem. */
  method ReadConfig(obj: Json, errs: Errors, at: Path, order: seq<string>) returns (cfg: Option<Config>)
    requires Lists(order, ModuleNames(obj))
    modifies errs
    ensures errs.first == First(old(errs.first), ParseConfig(obj, at, order).Err())
    ensures cfg == if errs.first.Some? then None else Some(ParseConfig(obj, at, order).value)
  {
    var r := new Reader(obj, errs, at);
    var texts := r.ReadStringList("modules_dirs");
    var path := r.ReadStr("persistence_path", "");
    var modules := ReadModulesBlock(r, order);
    if modules.None? { return None; }
    var ssl := ReadSslBlock(r);
    var dirs := ReadDirsBlock(r);
    if dirs.data == "" { dirs := dirs.(data := path); }
    var logging := ReadLoggingBlock(r);
    var tail := ReadRest(r);
    if tail.None? { return None; }
    return Some(Config(texts, path, modules.value, ssl, dirs, logging, tail.value.insecureTcp, tail.value.container,
                       tail.value.accessPolicy, tail.value.accessGroup, tail.value.signaturePolicy));
  }

  /** `parseDaemonConfigDocument`. A refusal always comes with its reason. */
  method ReadDocument(obj: Json, order: seq<string>) returns (cfg: Option<Config>, problem: Errs)
    requires Lists(order, ModuleNames(obj))
    ensures cfg.Some? <==> ParseDocument(obj, order).Good?
    ensures cfg.Some? ==> cfg.value == ParseDocument(obj, order).value
    ensures problem == ParseDocument(obj, order).Err()
  {
    if !obj.Obj? { return None, Some(NotAMapping); }
    var errs := new Errors();
    var r := new Reader(obj, errs, []);
    var version := r.ReadInt("version", 0, INT64_MIN, INT64_MAX);
    if errs.first.Some? { return None, errs.first; }
    if version != VERSION { return None, Some(WrongVersion(version)); }
    cfg := ReadConfig(obj, errs, [], order);
    problem := errs.first;
  }
}

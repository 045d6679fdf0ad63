/** The client configuration that the daemon writes for clients on the same host, over any
    sequence of boots. */
module LocalArtifacts {
  import opened Options
  import opened Json
  import opened JsonSchema
  import opened DaemonConfig
  import opened Orders
  import ClientConfig

  // ---- What a boot writes --------------------------------------------------

  predicate Offers(ts: seq<Transport>, protocol: string) {
    exists i | 0 <= i < |ts| :: ts[i].protocol == protocol
  }

  /** A `local` listener if there is one, else the first, else nothing. */
  method PickClientDialTransport(ts: seq<Transport>) returns (t: Option<Transport>)
    ensures t == PickOf(ts)
  {
    if ts == [] { return None; }
    var i := 0;
    while i < |ts|
      invariant 0 <= i <= |ts|
      invariant forall k | 0 <= k < i :: ts[k].protocol != "local"
      invariant FirstLocal(ts) == FirstLocal(ts[i..])
    {
      if ts[i].protocol == "local" { return Some(ts[i]); }
      assert ts[i..][1..] == ts[i + 1..];
      i := i + 1;
    }
    return Some(ts[0]);
  }

  function FirstLocal(ts: seq<Transport>): Option<Transport> {
    if ts == [] then None else if ts[0].protocol == "local" then Some(ts[0]) else FirstLocal(ts[1..])
  }

  function PickOf(ts: seq<Transport>): Option<Transport> {
    if ts == [] then None else if FirstLocal(ts).Some? then FirstLocal(ts) else Some(ts[0])
  }

  predicate Wildcard(host: string) {
    host == "" || host == "0.0.0.0" || host == "::" || host == "::0"
  }

  function ToClientDialHost(bindHost: string): (host: string)
    ensures !Wildcard(host)
    ensures !Wildcard(bindHost) ==> host == bindHost
  {
    if bindHost == "" || bindHost == "0.0.0.0" then "127.0.0.1"
    else if bindHost == "::" || bindHost == "::0" then "::1"
    else bindHost
  }

  /** A wildcard becomes the loopback address of its own family. */
  lemma WildcardsBecomeLoopback(bindHost: string)
    ensures bindHost == "" || bindHost == "0.0.0.0" ==> ToClientDialHost(bindHost) == "127.0.0.1"
    ensures bindHost == "::" || bindHost == "::0" ==> ToClientDialHost(bindHost) == "::1"
    ensures bindHost != "" && bindHost != "0.0.0.0" && bindHost != "::" && bindHost != "::0" ==> ToClientDialHost(bindHost) == bindHost
  {
  }

  function NetworkFields(t: Transport): Fields {
    if t.protocol == "tcp" || t.protocol == "tcp_ssl" then
      map["host" := Str(ToClientDialHost(t.host)), "port" := Num(t.port)] + Filled("codec", t.codec)
    else map[]
  }

  function ToClientEntry(t: Transport): Json {
    Obj(map["transport" := Str(t.protocol)] + NetworkFields(t)
        + (if t.protocol == "tcp_ssl" then Filled("ca", t.caFile) + map["verify_peer" := Bool(t.verifyPeer)] else map[]))
  }

  function EntryFor(ts: seq<Transport>): Json {
    match PickOf(ts)
    case Some(t) => ToClientEntry(t)
    case None => Obj(map["transport" := Str("local")])
  }

  function ClientDocument(id: string, tokenFile: string, core: seq<Transport>, capability: seq<Transport>): Json {
    Obj(map["version" := Num(2), "token_file" := Str(tokenFile), "instance_id" := Str(id),
            "daemon" := Obj(map["core_service" := EntryFor(core), "capability_module" := EntryFor(capability)])])
  }

  // ---- When a boot writes --------------------------------------------------

  /** The client configuration on disk; text that is not a mapping counts as no fields. */
  datatype OnDisk = Absent | Unparsed | Text(json: Json)

  /** One boot, and whether opening and writing the file work. */
  datatype Boot = Boot(id: string, core: seq<Transport>, capability: seq<Transport>, opens: bool, writes: bool)

  /** A field of the wrong type reads as absent here. */
  function FieldText(file: OnDisk, key: string): string {
    if file.Text? && file.json.Obj? then StrOf(file.json, [], key, "").value else ""
  }

  function IdOf(file: OnDisk): string { FieldText(file, "instance_id") }

  function TokenOf(file: OnDisk): string { FieldText(file, "token_file") }

  const AUTO := "auto.json"

  function KeptToken(file: OnDisk): string {
    if TokenOf(file) == "" then AUTO else TokenOf(file)
  }

  /** The token file to name in a new document, or nothing when the file stays. */
  function Refresh(file: OnDisk, id: string, opens: bool): Option<string> {
    if file.Absent? then Some(AUTO)
    else if !opens then None
    else if IdOf(file) != "" && IdOf(file) != id then Some(KeptToken(file))
    else None
  }

  function AfterBoot(file: OnDisk, b: Boot): OnDisk {
    var token := Refresh(file, b.id, b.opens);
    if token.Some? && b.writes then Text(ClientDocument(b.id, token.value, b.core, b.capability)) else file
  }

  function AfterBoots(file: OnDisk, boots: seq<Boot>): OnDisk
    decreases |boots|
  {
    if boots == [] then file else AfterBoots(AfterBoot(file, boots[0]), boots[1..])
  }

  class ClientArtifact {
    var file: OnDisk

    constructor (file: OnDisk)
      ensures this.file == file
    {
      this.file := file;
    }

    /** The configuration part of `writeLocalClientArtifacts`; false stops the boot. */
    method WriteLocalClientArtifacts(b: Boot) returns (ok: bool)
      modifies this
      ensures file == AfterBoot(old(file), b)
      ensures ok == (Refresh(old(file), b.id, b.opens).None? || b.writes)
    {
      var write, tokenFile := false, AUTO;
      if file.Absent? {
        write := true;
      } else if b.opens {
        var existing := if file.Text? && file.json.Obj? then file.json else Obj(map[]);
        var ignored := new Errors();
        var reader := new Reader(existing, ignored, []);
        var existingId := reader.ReadStr("instance_id", "");
        if existingId != "" && existingId != b.id {
          write := true;
          var named := reader.ReadStr("token_file", "");
          if named != "" { tokenFile := named; }
        }
      }
      if write {
        if !b.writes { return false; }
        var core := PickClientDialTransport(b.core);
        var capability := PickClientDialTransport(b.capability);
        var local := Obj(map["transport" := Str("local")]);
        var coreEntry := if core.Some? then ToClientEntry(core.value) else local;
        var capabilityEntry := if capability.Some? then ToClientEntry(capability.value) else local;
        file := Text(Obj(map["version" := Num(2), "token_file" := Str(tokenFile), "instance_id" := Str(b.id),
                             "daemon" := Obj(map["core_service" := coreEntry, "capability_module" := capabilityEntry])]));
      }
      return true;
    }
  }

  // ---- Whose file it is ----------------------------------------------------

  /** The operator's file: it is there and has no instance id. */
  predicate OperatorOwned(file: OnDisk) {
    !file.Absent? && IdOf(file) == ""
  }

  /** A file without an instance id survives every boot as it is. */
  lemma {:induction false} OperatorFileIsKept(file: OnDisk, boots: seq<Boot>)
    requires OperatorOwned(file)
    ensures AfterBoots(file, boots) == file
    decreases |boots|
  {
    if boots != [] { OperatorFileIsKept(file, boots[1..]); }
  }

  /** So does one whose instance id is not text: it is taken for the operator's. */
  lemma MistypedIdIsKept(fields: Fields, boots: seq<Boot>)
    requires "instance_id" in fields && !fields["instance_id"].Str?
    ensures AfterBoots(Text(Obj(fields)), boots) == Text(Obj(fields))
  {
    OperatorFileIsKept(Text(Obj(fields)), boots);
  }

  /** A daemon that finds its own id there rewrites nothing, however often it comes up:
      what an operator changed beside the id stays. */
  lemma {:induction false} OwnFileIsKept(file: OnDisk, boots: seq<Boot>)
    requires !file.Absent? && forall i | 0 <= i < |boots| :: boots[i].id == IdOf(file)
    ensures AfterBoots(file, boots) == file
    decreases |boots|
  {
    if boots != [] {
      assert boots[0].id == IdOf(file);
      OwnFileIsKept(file, boots[1..]);
    }
  }

  lemma WrittenFields(id: string, token: string, core: seq<Transport>, capability: seq<Transport>)
    ensures IdOf(Text(ClientDocument(id, token, core, capability))) == id
    ensures TokenOf(Text(ClientDocument(id, token, core, capability))) == token
  {
  }

  predicate Works(file: OnDisk, b: Boot) {
    b.writes && (file.Absent? || b.opens)
  }

  /** The id of the last boot that could write, or what there was before. */
  function LatestId(file: OnDisk, boots: seq<Boot>): string
    decreases |boots|
  {
    if boots == [] then IdOf(file)
    else
      var last := boots[|boots| - 1];
      if Works(AfterBoots(file, boots[..|boots| - 1]), last) then last.id else LatestId(file, boots[..|boots| - 1])
  }

  lemma {:induction false} LastBoot(file: OnDisk, boots: seq<Boot>)
    requires boots != []
    ensures AfterBoots(file, boots) == AfterBoot(AfterBoots(file, boots[..|boots| - 1]), boots[|boots| - 1])
    decreases |boots|
  {
    if |boots| > 1 {
      assert boots[1..][..|boots| - 2] == boots[..|boots| - 1][1..];
      LastBoot(AfterBoot(file, boots[0]), boots[1..]);
    } else {
      assert boots[..0] == [];
    }
  }

  ghost predicate RealIds(boots: seq<Boot>) {
    forall i | 0 <= i < |boots| :: boots[i].id != ""
  }

  /** A file that was absent, or carries an instance id, follows the daemon: it ends with
      the id of the last boot that could write, and keeps naming the token file it named,
      which is `auto.json` when it named none. */
  lemma {:induction false} OwnedFileFollows(file: OnDisk, boots: seq<Boot>)
    requires RealIds(boots) && !OperatorOwned(file)
    ensures var end := AfterBoots(file, boots);
            && !OperatorOwned(end) && IdOf(end) == LatestId(file, boots)
            && (end == file || (end.Text? && TokenOf(end) == if TokenOf(file) != "" then TokenOf(file) else "auto.json"))
            && (end.Absent? <==> file.Absent? && forall i | 0 <= i < |boots| :: !boots[i].writes)
    decreases |boots|
  {
    if boots != [] {
      var front, last := boots[..|boots| - 1], boots[|boots| - 1];
      LastBoot(file, boots);
      OwnedFileFollows(file, front);
      OneBoot(AfterBoots(file, front), last);
      assert forall i | 0 <= i < |front| :: boots[i] == front[i];
    }
  }

  lemma OneBoot(file: OnDisk, b: Boot)
    requires b.id != "" && !OperatorOwned(file)
    ensures var end := AfterBoot(file, b);
            && !OperatorOwned(end) && IdOf(end) == (if Works(file, b) then b.id else IdOf(file))
            && (end == file || (end.Text? && TokenOf(end) == KeptToken(file)))
            && (end.Absent? <==> file.Absent? && !b.writes)
  {
    WrittenFields(b.id, KeptToken(file), b.core, b.capability);
  }

  // ---- What the client makes of it -----------------------------------------

  function DialOf(t: Transport): ClientConfig.Dial {
    if t.protocol == "local" then ClientConfig.Dial("local", "", 0, "json", "", true)
    else
      ClientConfig.Dial(t.protocol, ToClientDialHost(t.host), t.port, if t.codec == "" then "json" else t.codec,
                        if t.protocol == "tcp_ssl" then t.caFile else "", if t.protocol == "tcp_ssl" then t.verifyPeer else true)
  }

  lemma EntryProtocol(t: Transport, at: Path)
    ensures StrOf(ToClientEntry(t), at, "transport", "") == Read(t.protocol, None)
  {
  }

  lemma EntryKeys(t: Transport, at: Path)
    requires t.protocol == "tcp" || t.protocol == "tcp_ssl"
    ensures var j := ToClientEntry(t);
            && StrOf(j, at, "host", "") == Read(ToClientDialHost(t.host), None)
            && Present(j, "port") == Some(Num(t.port))
  {
  }

  lemma EntryCodec(t: Transport, at: Path)
    requires t.protocol == "tcp" || t.protocol == "tcp_ssl"
    ensures StrOf(ToClientEntry(t), at, "codec", "json") == Read(if t.codec == "" then "json" else t.codec, None)
  {
  }

  lemma EntryTlsKeys(t: Transport, at: Path)
    requires t.protocol == "tcp_ssl"
    ensures var j := ToClientEntry(t);
            StrOf(j, at, "ca", "") == Read(t.caFile, None) && BoolOf(j, at, "verify_peer", true) == Read(t.verifyPeer, None)
  {
  }

  lemma EntryIsRead(t: Transport, at: Path)
    ensures var r := ClientConfig.ParseDial(ToClientEntry(t), at);
            (r.Good? <==> ValidEndpoint(t.protocol, t.port)) && (r.Good? ==> r.value == DialOf(t))
  {
    EntryProtocol(t, at);
    if t.protocol == "tcp" || t.protocol == "tcp_ssl" {
      EntryKeys(t, at);
      EntryCodec(t, at);
    }
    if t.protocol == "tcp_ssl" { EntryTlsKeys(t, at); }
  }

  /** What a client of the same host should dial: the `local` listener if one is bound,
      else the first one. */
  function DialFor(ts: seq<Transport>): ClientConfig.Dial {
    match PickOf(ts)
    case Some(t) => DialOf(t)
    case None => ClientConfig.Dial("local", "", 0, "json", "", true)
  }

  predicate Pickable(ts: seq<Transport>) {
    PickOf(ts).Some? ==> ValidEndpoint(PickOf(ts).value.protocol, PickOf(ts).value.port)
  }

  lemma EntryForIsRead(ts: seq<Transport>, at: Path)
    ensures var r := ClientConfig.ParseDial(EntryFor(ts), at);
            (r.Good? <==> Pickable(ts)) && (r.Good? ==> r.value == DialFor(ts))
  {
    match PickOf(ts)
    case Some(t) => EntryIsRead(t, at);
    case None =>
      assert StrOf(EntryFor(ts), at, "transport", "") == Read("local", None);
  }

  lemma {:induction false} FirstLocalIs(ts: seq<Transport>)
    ensures FirstLocal(ts).Some? <==> Offers(ts, "local")
    ensures FirstLocal(ts).Some? ==> FirstLocal(ts).value.protocol == "local"
  {
    if ts != [] {
      FirstLocalIs(ts[1..]);
      assert Offers(ts[1..], "local") ==> Offers(ts, "local") by {
        if i :| 0 <= i < |ts| - 1 && ts[1..][i].protocol == "local" { assert ts[i + 1].protocol == "local"; }
      }
      if ts[0].protocol != "local" && Offers(ts, "local") {
        var i :| 0 <= i < |ts| && ts[i].protocol == "local";
        assert ts[1..][i - 1].protocol == "local";
      }
    }
  }

  /** The emitted dial entry: `local` whenever a `local` listener is bound or nothing is,
      otherwise the first listener, and never a wildcard or empty host. */
  lemma DialsTheRightListener(ts: seq<Transport>)
    ensures DialFor(ts).protocol == if ts == [] || Offers(ts, "local") then "local" else ts[0].protocol
    ensures DialFor(ts).protocol != "local" ==> DialFor(ts) == DialOf(ts[0]) && !Wildcard(DialFor(ts).host)
    ensures DialFor(ts).protocol != "local" && !Wildcard(ts[0].host) ==> DialFor(ts).host == ts[0].host
  {
    FirstLocalIs(ts);
  }

  function DaemonBlock(core: seq<Transport>, capability: seq<Transport>): Fields {
    map["core_service" := EntryFor(core), "capability_module" := EntryFor(capability)]
  }

  lemma DocumentKeys(id: string, token: string, core: seq<Transport>, capability: seq<Transport>)
    ensures var j := ClientDocument(id, token, core, capability);
            && IntOf(j, [], "version", 0, INT64_MIN, INT64_MAX) == Read(2, None)
            && StrOf(j, [], "token_file", "") == Read(token, None) && StrOf(j, [], "instance_id", "") == Read(id, None)
            && MappingOf(j, [], "daemon") == Read(Some(Obj(DaemonBlock(core, capability))), None)
            && ClientConfig.DialNames(j) == DaemonBlock(core, capability).Keys
  {
  }

  lemma BothParse(f: Fields, order: seq<string>)
    requires Lists(order, f.Keys)
    requires forall n :: n in f <==> n == "core_service" || n == "capability_module"
    ensures (forall i | 0 <= i < |order| :: ClientConfig.Parses(f, order[i]))
            <==> ClientConfig.Parses(f, "core_service") && ClientConfig.Parses(f, "capability_module")
  {
    assert "core_service" in order && "capability_module" in order;
    forall i | 0 <= i < |order| ensures order[i] == "core_service" || order[i] == "capability_module" {
      assert order[i] in order;
    }
  }

  lemma BlockIsRead(core: seq<Transport>, capability: seq<Transport>, order: seq<string>)
    requires Lists(order, DaemonBlock(core, capability).Keys)
    ensures var r := ClientConfig.ParseDials(DaemonBlock(core, capability), order);
            && (r.Good? <==> Pickable(core) && Pickable(capability))
            && (r.Good? ==> r.value == map["core_service" := DialFor(core), "capability_module" := DialFor(capability)])
  {
    var f := DaemonBlock(core, capability);
    ClientConfig.DialsByName(f, order);
    BothParse(f, order);
    assert f["core_service"] == EntryFor(core) && f["capability_module"] == EntryFor(capability);
    EntryForIsRead(core, [Key("daemon"), Key("core_service")]);
    EntryForIsRead(capability, [Key("daemon"), Key("capability_module")]);
    if ClientConfig.ParseDials(f, order).Good? { BlockValue(core, capability, order); }
  }

  /** What a good read of the block says of one of its names. */
  lemma ValueOf(core: seq<Transport>, capability: seq<Transport>, order: seq<string>, name: string, ts: seq<Transport>)
    requires Lists(order, DaemonBlock(core, capability).Keys) && name != ""
    requires name in DaemonBlock(core, capability) && DaemonBlock(core, capability)[name] == EntryFor(ts)
    requires ClientConfig.ParseDials(DaemonBlock(core, capability), order).Good?
    ensures var m := ClientConfig.ParseDials(DaemonBlock(core, capability), order).value;
            name in m && m[name] == DialFor(ts)
  {
    ClientConfig.DialsByName(DaemonBlock(core, capability), order);
    EntryForIsRead(ts, [Key("daemon"), Key(name)]);
  }

  lemma NoOtherNames(core: seq<Transport>, capability: seq<Transport>, order: seq<string>)
    requires Lists(order, DaemonBlock(core, capability).Keys)
    requires ClientConfig.ParseDials(DaemonBlock(core, capability), order).Good?
    ensures ClientConfig.ParseDials(DaemonBlock(core, capability), order).value.Keys <= {"core_service", "capability_module"}
  {
    ClientConfig.DialsByName(DaemonBlock(core, capability), order);
  }

  lemma BlockValue(core: seq<Transport>, capability: seq<Transport>, order: seq<string>)
    requires Lists(order, DaemonBlock(core, capability).Keys)
    requires ClientConfig.ParseDials(DaemonBlock(core, capability), order).Good?
    ensures ClientConfig.ParseDials(DaemonBlock(core, capability), order).value
         == map["core_service" := DialFor(core), "capability_module" := DialFor(capability)]
  {
    NoOtherNames(core, capability, order);
    ValueOf(core, capability, order, "core_service", core);
    ValueOf(core, capability, order, "capability_module", capability);
  }

  /** Every document the daemon emits is accepted by the client's reader, and usable,
      exactly when the listeners it picked are valid ones. */
  lemma EmittedIsUsable(id: string, token: string, core: seq<Transport>, capability: seq<Transport>, order: seq<string>)
    requires token != "" && Lists(order, ClientConfig.DialNames(ClientDocument(id, token, core, capability)))
    ensures var r := ClientConfig.ParseClient(ClientDocument(id, token, core, capability), order);
            && (r.Good? <==> Pickable(core) && Pickable(capability))
            && (r.Good? ==> r.value == ClientConfig.ClientState(true, token, id,
                  map["core_service" := DialFor(core), "capability_module" := DialFor(capability)]))
  {
    DocumentKeys(id, token, core, capability);
    BlockIsRead(core, capability, order);
    assert ClientConfig.Narrowed(2) == 2;
    assert "core_service" in map["core_service" := DialFor(core), "capability_module" := DialFor(capability)];
  }

  predicate EmittedBy(end: OnDisk, file: OnDisk, b: Boot) {
    end == Text(ClientDocument(b.id, KeptToken(file), b.core, b.capability))
  }

  /** The i-th boot could write, and so could after it only boots of the same id, which
      then leave the file alone: with distinct ids, it is the last boot that could. */
  predicate LastWriter(file: OnDisk, boots: seq<Boot>, i: nat) {
    && i < |boots| && Works(AfterBoots(file, boots[..i]), boots[i])
    && (forall j | i < j < |boots| && Works(AfterBoots(file, boots[..j]), boots[j]) :: boots[j].id == boots[i].id)
  }

  lemma WriterStays(file: OnDisk, boots: seq<Boot>, i: nat)
    requires boots != [] && LastWriter(file, boots[..|boots| - 1], i)
    requires Works(AfterBoots(file, boots[..|boots| - 1]), boots[|boots| - 1]) ==> boots[|boots| - 1].id == boots[i].id
    ensures LastWriter(file, boots, i)
  {
    var front := boots[..|boots| - 1];
    assert front[..i] == boots[..i];
    forall j | i < j < |boots| && Works(AfterBoots(file, boots[..j]), boots[j]) ensures boots[j].id == boots[i].id {
      if j < |front| { assert front[..j] == boots[..j] && front[j] == boots[j]; }
    }
  }

  lemma {:induction false} WriterHasLatestId(file: OnDisk, boots: seq<Boot>, i: nat)
    requires LastWriter(file, boots, i)
    ensures boots[i].id == LatestId(file, boots)
    decreases |boots|
  {
    var front, last := boots[..|boots| - 1], boots[|boots| - 1];
    if i < |front| && !Works(AfterBoots(file, front), last) {
      assert front[..i] == boots[..i];
      assert forall j | 0 <= j < |front| :: front[..j] == boots[..j] && front[j] == boots[j];
      WriterHasLatestId(file, front, i);
    }
  }

  /** After any boots the file is what it was, or exactly what the last boot that could
      write emitted. */
  lemma {:induction false} EndsAsEmitted(file: OnDisk, boots: seq<Boot>)
    requires RealIds(boots) && !OperatorOwned(file)
    ensures var end := AfterBoots(file, boots);
            end == file || exists i | 0 <= i < |boots| :: EmittedBy(end, file, boots[i]) && LastWriter(file, boots, i)
    decreases |boots|
  {
    if boots != [] {
      var front, last := boots[..|boots| - 1], boots[|boots| - 1];
      LastBoot(file, boots);
      assert forall i | 0 <= i < |front| :: front[i] == boots[i];
      EndsAsEmitted(file, front);
      OwnedFileFollows(file, front);
      var before, end := AfterBoots(file, front), AfterBoots(file, boots);
      if end != before {
        WrittenFields(last.id, KeptToken(before), last.core, last.capability);
        assert EmittedBy(end, file, boots[|boots| - 1]) && LastWriter(file, boots, |boots| - 1);
      } else if end != file {
        var i :| 0 <= i < |front| && EmittedBy(before, file, front[i]) && LastWriter(file, front, i);
        WrittenFields(front[i].id, KeptToken(file), front[i].core, front[i].capability);
        WrittenFields(last.id, KeptToken(before), last.core, last.capability);
        WriterStays(file, boots, i);
        assert EmittedBy(end, file, boots[i]);
      }
    }
  }

  /** What a client on the same host reads: the latest id, the token file, and the
      listeners of the given boot. */
  predicate Follows(read: Parsed<ClientConfig.ClientState>, file: OnDisk, boots: seq<Boot>, b: Boot) {
    read == Good(ClientConfig.ClientState(true, KeptToken(file), LatestId(file, boots),
      map["core_service" := DialFor(b.core), "capability_module" := DialFor(b.capability)]))
  }

  /** So a client on the same host can use whatever a run of boots leaves behind: it reads
      the latest id and the token file, and dials what the last boot that could write had
      bound. */
  lemma ClientFollowsTheDaemon(file: OnDisk, boots: seq<Boot>, order: seq<string>)
    requires RealIds(boots) && !OperatorOwned(file) && AfterBoots(file, boots) != file
    requires forall i | 0 <= i < |boots| :: Pickable(boots[i].core) && Pickable(boots[i].capability)
    requires AfterBoots(file, boots).Text? ==> Lists(order, ClientConfig.DialNames(AfterBoots(file, boots).json))
    ensures var end := AfterBoots(file, boots);
            end.Text? && exists i | 0 <= i < |boots| ::
              LastWriter(file, boots, i) && Follows(ClientConfig.ParseClient(end.json, order), file, boots, boots[i])
  {
    EndsAsEmitted(file, boots);
    var i :| 0 <= i < |boots| && EmittedBy(AfterBoots(file, boots), file, boots[i]) && LastWriter(file, boots, i);
    var b := boots[i];
    WriterHasLatestId(file, boots, i);
    EmittedIsUsable(b.id, KeptToken(file), b.core, b.capability, order);
  }
}

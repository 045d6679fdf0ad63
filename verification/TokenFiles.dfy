/** The files behind the token store: the hashed index `tokens.json`, and one raw token
    file per name with its `.new` side file. Files are reached by path; a rename is
    atomic, and any write, rename or removal may fail. */
module TokenFiles {
  import opened Options
  import opened Json

  /** What a path holds: a whole document, or the unparseable front of one. */
  datatype Content = Document(json: Json) | Scrap

  type Files = map<string, Content>

  // ---- Names and paths -----------------------------------------------------

  predicate NameChar(c: char) {
    'a' <= c <= 'z' || 'A' <= c <= 'Z' || '0' <= c <= '9' || c == '_' || c == '-' || c == '.'
  }

  predicate SafeName(name: string) {
    && 1 <= |name| <= 64
    && name[0] != '.' && name[0] != '-'
    && (forall i | 0 <= i < |name| :: NameChar(name[i]))
    && (forall i | 0 <= i < |name| - 1 :: !(name[i] == '.' && name[i + 1] == '.'))
  }

  function IndexPath(dir: string): string { dir + "/tokens.json" }

  function TempPath(dir: string): string { dir + "/tokens.json.tmp" }

  function RawPath(dir: string, name: string): string { dir + "/tokens" + "/" + name + ".json" }

  function NewPath(dir: string, name: string): string { RawPath(dir, name) + ".new" }

  /** No two files of the store share a path, whatever the names. */
  lemma PathsAreDistinct(dir: string, a: string, b: string)
    ensures RawPath(dir, a) == RawPath(dir, b) <==> a == b
    ensures NewPath(dir, a) == NewPath(dir, b) <==> a == b
    ensures RawPath(dir, a) != NewPath(dir, b)
    ensures IndexPath(dir) != TempPath(dir)
    ensures RawPath(dir, a) != IndexPath(dir) && RawPath(dir, a) != TempPath(dir)
    ensures NewPath(dir, a) != IndexPath(dir) && NewPath(dir, a) != TempPath(dir)
  {
    var n := |dir|;
    var ra, rb, na, nb := RawPath(dir, a), RawPath(dir, b), NewPath(dir, a), NewPath(dir, b);
    assert ra[n + 8..|ra| - 5] == a && rb[n + 8..|rb| - 5] == b;
    assert na[..|na| - 4] == ra && nb[..|nb| - 4] == rb;
    assert ra[|ra| - 1] == 'n' && nb[|nb| - 1] == 'w';
    assert |IndexPath(dir)| != |TempPath(dir)|;
    assert IndexPath(dir)[n + 7] == '.' && TempPath(dir)[n + 7] == '.';
    assert ra[n + 7] == '/' && na[n + 7] == '/';
  }

  // ---- Documents -----------------------------------------------------------

  datatype Entry = Entry(name: string, hash: string, issuedAt: string, expiresAt: string, localOnly: bool)

  const SCHEMA := 2

  function EntryToJson(e: Entry): Json {
    Obj(map["name" := Str(e.name), "hash" := Str(e.hash), "issued_at" := Str(e.issuedAt),
            "expires_at" := if e.expiresAt == "" then Null else Str(e.expiresAt),
            "local_only" := Bool(e.localOnly)])
  }

  /** A string field, or the empty string; a value of another type is not modelled as
      anything but the default. */
  function Text(j: Json, key: string): string {
    match Get(j, key)
    case Some(Str(s)) => s
    case _ => ""
  }

  function EntryFromJson(j: Json): Option<Entry> {
    if !j.Obj? then None
    else
      var e := Entry(Text(j, "name"), Text(j, "hash"), Text(j, "issued_at"), Text(j, "expires_at"),
                     Get(j, "local_only") == Some(Bool(true)));
      if e.name == "" || e.hash == "" then None else Some(e)
  }

  function EntriesToJson(es: seq<Entry>): seq<Json> {
    if es == [] then [] else [EntryToJson(es[0])] + EntriesToJson(es[1..])
  }

  function EntriesFromJson(js: seq<Json>): seq<Entry> {
    if js == [] then []
    else
      var rest := EntriesFromJson(js[1..]);
      match EntryFromJson(js[0])
      case Some(e) => [e] + rest
      case None => rest
  }

  function IndexDocument(es: seq<Entry>): Json {
    Obj(map["version" := Num(SCHEMA), "tokens" := Arr(EntriesToJson(es))])
  }

  function RawDocument(name: string, token: string, issuedAt: string): Json {
    Obj(map["version" := Num(1), "name" := Str(name), "token" := Str(token), "issued_at" := Str(issuedAt)])
  }

  function VersionOf(j: Json): int {
    match Get(j, "version")
    case Some(Num(v)) => v
    case _ => 0
  }

  /** `TokensFile::read`: missing, unparseable or of another version reads as empty. */
  function ReadIndex(files: Files, dir: string): seq<Entry> {
    var path := IndexPath(dir);
    if path !in files || files[path].Scrap? then []
    else
      var j := files[path].json;
      if VersionOf(j) != SCHEMA then []
      else match Get(j, "tokens")
        case Some(Arr(items)) => EntriesFromJson(items)
        case _ => []
  }

  predicate VersionUnsupported(files: Files, dir: string) {
    var path := IndexPath(dir);
    path in files && files[path].Document? && files[path].json.Obj? && VersionOf(files[path].json) != SCHEMA
  }

  /** The token a raw or side file names. */
  function TokenAt(files: Files, path: string): Option<string> {
    if path in files && files[path].Document? then
      match Get(files[path].json, "token")
      case Some(Str(t)) => Some(t)
      case _ => None
    else None
  }

  predicate Storable(e: Entry) {
    e.name != "" && e.hash != ""
  }

  lemma EntryRoundTrip(e: Entry)
    requires Storable(e)
    ensures EntryFromJson(EntryToJson(e)) == Some(e)
  {
  }

  /** Reading undoes writing, entry by entry. */
  lemma {:induction false} EntriesRoundTrip(es: seq<Entry>)
    requires forall i | 0 <= i < |es| :: Storable(es[i])
    ensures EntriesFromJson(EntriesToJson(es)) == es
  {
    if es != [] {
      EntryRoundTrip(es[0]);
      EntriesRoundTrip(es[1..]);
      assert EntriesToJson(es)[1..] == EntriesToJson(es[1..]);
    }
  }

  lemma IndexRoundTrip(files: Files, dir: string, es: seq<Entry>)
    requires forall i | 0 <= i < |es| :: Storable(es[i])
    requires IndexPath(dir) in files && files[IndexPath(dir)] == Document(IndexDocument(es))
    ensures ReadIndex(files, dir) == es && !VersionUnsupported(files, dir)
  {
    EntriesRoundTrip(es);
  }

  lemma RawRoundTrip(files: Files, path: string, name: string, token: string, issuedAt: string)
    requires path in files && files[path] == Document(RawDocument(name, token, issuedAt))
    ensures TokenAt(files, path) == Some(token)
  {
  }

  // ---- File operations -----------------------------------------------------

  /** How writing a whole file can go. `ShortUnseen` is a failure that shows only when
      the stream is closed, after the last check of the stream. */
  datatype Put = Full | CannotOpen | Short | ShortUnseen

  /** The states a write goes through: opening truncates, closing completes. */
  function PutSteps(files: Files, path: string, json: Json, how: Put): seq<Files> {
    match how
    case CannotOpen => []
    case Full => [files[path := Scrap], files[path := Document(json)]]
    case _ => [files[path := Scrap]]
  }

  function MoveSteps(files: Files, source: string, target: string, works: bool): seq<Files> {
    if works && source in files then [(files - {source})[target := files[source]]] else []
  }

  function RemoveSteps(files: Files, path: string, works: bool): seq<Files> {
    if works && path in files then [files - {path}] else []
  }

  function After(files: Files, steps: seq<Files>): Files {
    if steps == [] then files else steps[|steps| - 1]
  }

  /** A directory tree that remembers every state it went through. */
  class FileSystem {
    var files: Files
    ghost var history: seq<Files>

    constructor ()
      ensures files == map[] && history == []
    {
      files, history := map[], [];
    }

    method PutFile(path: string, json: Json, how: Put)
      modifies this
      ensures history == old(history) + PutSteps(old(files), path, json, how)
      ensures files == After(old(files), PutSteps(old(files), path, json, how))
    {
      history := history + PutSteps(files, path, json, how);
      if how.CannotOpen? { return; }
      files := files[path := if how.Full? then Document(json) else Scrap];
    }

    method Move(source: string, target: string, works: bool) returns (ok: bool)
      modifies this
      ensures history == old(history) + MoveSteps(old(files), source, target, works)
      ensures files == After(old(files), MoveSteps(old(files), source, target, works))
      ensures ok == (works && source in old(files))
    {
      history := history + MoveSteps(files, source, target, works);
      ok := works && source in files;
      if ok {
        var content := files[source];
        files := files - {source};
        files := files[target := content];
      }
    }

    method Remove(path: string, works: bool)
      modifies this
      ensures history == old(history) + RemoveSteps(old(files), path, works)
      ensures files == After(old(files), RemoveSteps(old(files), path, works))
    {
      history := history + RemoveSteps(files, path, works);
      if works { files := files - {path}; }
    }
  }
}

/** Issuing, revoking and looking up tokens on a file system that may fail anywhere.

    Three questions: does the store behave as a plain map from names to grants, through
    every failure; is a committed token still on disk whenever the process stops; and
    is a token accepted exactly when the map says so. */
module TokenStore {
  import opened Options
  import opened Json
  import opened TokenFiles
  import Expiry

  type Hash = string -> string

  datatype IssueStatus = Issued | InvalidName | AlreadyExists | IssueIoError
  datatype IssueResult = IssueResult(status: IssueStatus, token: string)
  datatype RevokeStatus = Revoked | BadName | NotFound | RevokeIoError

  /** One way for the file steps of a call to go. */
  datatype Faults = Faults(
    stage: Put,                        // writing <raw>.new
    index: Put, commit: bool,          // writing tokens.json.tmp, renaming it
    dropTemp: bool, dropStaged: bool,  // the clean-up removals
    promote: bool, promoteAgain: bool, // renaming <raw>.new to <raw>, twice
    dropRaw: bool)                     // removing the raw file on revoke

  datatype Request = Request(name: string, expiresAt: string, localOnly: bool, replace: bool,
                             token: Option<string>, issuedAt: string)

  // ---- The specification of each call, as the states it goes through -------

  function Without(es: seq<Entry>, name: string): (r: seq<Entry>)
    ensures |r| <= |es|
    ensures forall i | 0 <= i < |r| :: r[i] in es && r[i].name != name
    ensures forall i | 0 <= i < |es| :: es[i].name != name ==> es[i] in r
    ensures |r| == |es| <==> forall i | 0 <= i < |es| :: es[i].name != name
  {
    if es == [] then []
    else if es[0].name == name then Without(es[1..], name)
    else [es[0]] + Without(es[1..], name)
  }

  /** `issueToken` erases the first entry of the name only. */
  function EraseFirst(es: seq<Entry>, name: string): seq<Entry> {
    if es == [] then []
    else if es[0].name == name then es[1..]
    else [es[0]] + EraseFirst(es[1..], name)
  }

  lemma {:induction false} EraseFirstAbsent(es: seq<Entry>, name: string)
    ensures !Exists(es, name) ==> EraseFirst(es, name) == es
  {
    if es != [] && !Exists(es, name) {
      assert forall i | 0 <= i < |es| - 1 :: es[1..][i] == es[i + 1];
      assert es[0].name != name;
      EraseFirstAbsent(es[1..], name);
    }
  }

  predicate NamesDiffer(es: seq<Entry>) {
    forall i, j | 0 <= i < j < |es| :: es[i].name != es[j].name
  }

  lemma {:induction false} EraseFirstIsWithout(es: seq<Entry>, name: string)
    requires NamesDiffer(es)
    ensures EraseFirst(es, name) == Without(es, name)
  {
    if es != [] {
      EraseFirstIsWithout(es[1..], name);
      if es[0].name == name { WithoutAbsent(es[1..], name); }
    }
  }

  lemma {:induction false} WithoutAbsent(es: seq<Entry>, name: string)
    requires forall i | 0 <= i < |es| :: es[i].name != name
    ensures Without(es, name) == es
  {
    if es != [] { WithoutAbsent(es[1..], name); }
  }

  /** `TokensFile::write`: a temporary file, then a rename over the index. A stream that
      fails at close is noticed here, so `ShortUnseen` counts as a failure too. */
  function WriteIndexSteps(files: Files, dir: string, es: seq<Entry>, f: Faults): seq<Files> {
    var put := PutSteps(files, TempPath(dir), IndexDocument(es), f.index);
    if !f.index.Full? then put
    else
      var written := After(files, put);
      var moved := MoveSteps(written, TempPath(dir), IndexPath(dir), f.commit);
      put + (if f.commit then moved else RemoveSteps(written, TempPath(dir), f.dropTemp))
  }

  predicate IndexWritten(f: Faults) {
    f.index.Full? && f.commit
  }

  function NewEntry(q: Request, hash: Hash): Entry
    requires q.token.Some?
  {
    Entry(q.name, hash(q.token.value), q.issuedAt, q.expiresAt, q.localOnly)
  }

  predicate Exists(es: seq<Entry>, name: string) {
    exists i | 0 <= i < |es| :: es[i].name == name
  }

  function IssueStatusOf(files: Files, dir: string, q: Request, f: Faults): IssueStatus {
    if !SafeName(q.name) then InvalidName
    else if VersionUnsupported(files, dir) then IssueIoError
    else if Exists(ReadIndex(files, dir), q.name) && !q.replace then AlreadyExists
    else if q.token.None? then IssueIoError
    else if f.stage.CannotOpen? || f.stage.Short? then IssueIoError
    else if !IndexWritten(f) then IssueIoError
    else Issued
  }

  /** Stage the raw token beside its file, commit the index, promote the raw token. */
  function PublishSteps(files: Files, dir: string, q: Request, es: seq<Entry>, f: Faults): seq<Files>
    requires q.token.Some?
  {
    var raw, side := RawPath(dir, q.name), NewPath(dir, q.name);
    var staging := PutSteps(files, side, RawDocument(q.name, q.token.value, q.issuedAt), f.stage);
    if f.stage.CannotOpen? || f.stage.Short? then staging
    else
      var staged := After(files, staging);
      var writing := WriteIndexSteps(staged, dir, es, f);
      var indexed := After(staged, writing);
      if !IndexWritten(f) then
        staging + (writing + RemoveSteps(indexed, side, f.dropStaged))
      else
        staging + (writing + PromoteSteps(indexed, side, raw, f))
  }

  function PromoteSteps(files: Files, side: string, raw: string, f: Faults): seq<Files> {
    var first := MoveSteps(files, side, raw, f.promote);
    if f.promote && side in files then first
    else first + MoveSteps(After(files, first), side, raw, f.promoteAgain)
  }

  predicate Refused(files: Files, dir: string, q: Request) {
    || !SafeName(q.name)
    || VersionUnsupported(files, dir)
    || (Exists(ReadIndex(files, dir), q.name) && !q.replace)
    || q.token.None?
  }

  /** Everything `issueToken` does to the files. */
  function IssueSteps(files: Files, dir: string, q: Request, f: Faults, hash: Hash): seq<Files> {
    if Refused(files, dir, q) then []
    else PublishSteps(files, dir, q, EraseFirst(ReadIndex(files, dir), q.name) + [NewEntry(q, hash)], f)
  }

  function RevokeStatusOf(files: Files, dir: string, name: string, f: Faults): RevokeStatus {
    if !SafeName(name) then BadName
    else if VersionUnsupported(files, dir) then RevokeIoError
    else if !Exists(ReadIndex(files, dir), name) then NotFound
    else if !IndexWritten(f) then RevokeIoError
    else Revoked
  }

  function RevokeSteps(files: Files, dir: string, name: string, f: Faults): seq<Files> {
    var es := ReadIndex(files, dir);
    if !SafeName(name) || VersionUnsupported(files, dir) || !Exists(es, name) then []
    else
      var writing := WriteIndexSteps(files, dir, Without(es, name), f);
      if !IndexWritten(f) then writing
      else writing + RemoveSteps(After(files, writing), RawPath(dir, name), f.dropRaw)
  }

  function LookupSpec(es: seq<Entry>, h: string, transport: string, now: int): Option<string> {
    if es == [] then None
    else if es[0].hash != h then LookupSpec(es[1..], h, transport, now)
    else if Expiry.IsExpired(es[0].expiresAt, now) then None
    else if es[0].localOnly && transport != "local" then None
    else Some(es[0].name)
  }

  lemma AfterConcat(files: Files, a: seq<Files>, b: seq<Files>)
    ensures After(files, a + b) == After(After(files, a), b)
  {
  }

  lemma Chain(files: Files, history: seq<Files>, a: seq<Files>, b: seq<Files>, c: seq<Files>)
    ensures history + a + b + c == history + (a + (b + c))
    ensures After(files, a + (b + c)) == After(After(After(files, a), b), c)
  {
  }

  // ---- The store object ----------------------------------------------------

  class Store {
    const dir: string
    const fs: FileSystem
    const hash: Hash

    constructor (dir: string, fs: FileSystem, hash: Hash)
      ensures this.dir == dir && this.fs == fs && this.hash == hash
    {
      this.dir, this.fs, this.hash := dir, fs, hash;
    }

    method WriteIndex(es: seq<Entry>, f: Faults) returns (ok: bool)
      modifies fs
      ensures fs.history == old(fs.history) + WriteIndexSteps(old(fs.files), dir, es, f)
      ensures fs.files == After(old(fs.files), WriteIndexSteps(old(fs.files), dir, es, f))
      ensures ok == IndexWritten(f)
    {
      fs.PutFile(TempPath(dir), IndexDocument(es), f.index);
      if !f.index.Full? { return false; }
      var moved := fs.Move(TempPath(dir), IndexPath(dir), f.commit);
      if !moved {
        fs.Remove(TempPath(dir), f.dropTemp);
        return false;
      }
      return true;
    }

    method IssueToken(q: Request, f: Faults) returns (r: IssueResult)
      modifies fs
      ensures fs.history == old(fs.history) + IssueSteps(old(fs.files), dir, q, f, hash)
      ensures fs.files == After(old(fs.files), IssueSteps(old(fs.files), dir, q, f, hash))
      ensures r.status == IssueStatusOf(old(fs.files), dir, q, f)
      ensures r.token == if r.status.Issued? then q.token.value else ""
    {
      if !SafeName(q.name) { return IssueResult(InvalidName, ""); }
      if VersionUnsupported(fs.files, dir) { return IssueResult(IssueIoError, ""); }
      var tokens := ReadIndex(fs.files, dir);
      if Exists(tokens, q.name) {
        if !q.replace { return IssueResult(AlreadyExists, ""); }
        tokens := EraseFirst(tokens, q.name);
      } else {
        EraseFirstAbsent(tokens, q.name);
      }
      if q.token.None? { return IssueResult(IssueIoError, ""); }
      tokens := tokens + [NewEntry(q, hash)];
      var ok := Publish(q, tokens, f);
      return if ok then IssueResult(Issued, q.token.value) else IssueResult(IssueIoError, "");
    }

    /** The three file stages of `issueToken`. */
    method Publish(q: Request, tokens: seq<Entry>, f: Faults) returns (ok: bool)
      requires q.token.Some?
      modifies fs
      ensures fs.history == old(fs.history) + PublishSteps(old(fs.files), dir, q, tokens, f)
      ensures fs.files == After(old(fs.files), PublishSteps(old(fs.files), dir, q, tokens, f))
      ensures ok == (!f.stage.CannotOpen? && !f.stage.Short? && IndexWritten(f))
    {
      var raw, side := RawPath(dir, q.name), NewPath(dir, q.name);
      ghost var h := fs.history;
      fs.PutFile(side, RawDocument(q.name, q.token.value, q.issuedAt), f.stage);
      if f.stage.CannotOpen? || f.stage.Short? { return false; }
      ghost var staged := fs.files;
      ghost var staging := PutSteps(old(fs.files), side, RawDocument(q.name, q.token.value, q.issuedAt), f.stage);
      ok := WriteIndex(tokens, f);
      ghost var indexed, writing := fs.files, WriteIndexSteps(staged, dir, tokens, f);
      ghost var last;
      if !ok {
        fs.Remove(side, f.dropStaged);
        last := RemoveSteps(indexed, side, f.dropStaged);
      } else {
        Promote(side, raw, f);
        last := PromoteSteps(indexed, side, raw, f);
      }
      Chain(old(fs.files), h, staging, writing, last);
    }

    method Promote(side: string, raw: string, f: Faults)
      modifies fs
      ensures fs.history == old(fs.history) + PromoteSteps(old(fs.files), side, raw, f)
      ensures fs.files == After(old(fs.files), PromoteSteps(old(fs.files), side, raw, f))
    {
      var moved := fs.Move(side, raw, f.promote);
      if !moved {
        moved := fs.Move(side, raw, f.promoteAgain);
      }
    }

    method RevokeToken(name: string, f: Faults) returns (r: RevokeStatus)
      modifies fs
      ensures fs.history == old(fs.history) + RevokeSteps(old(fs.files), dir, name, f)
      ensures fs.files == After(old(fs.files), RevokeSteps(old(fs.files), dir, name, f))
      ensures r == RevokeStatusOf(old(fs.files), dir, name, f)
    {
      if !SafeName(name) { return BadName; }
      if VersionUnsupported(fs.files, dir) { return RevokeIoError; }
      var tokens := ReadIndex(fs.files, dir);
      var before := |tokens|;
      tokens := Without(tokens, name);
      if |tokens| == before { return NotFound; }
      var written := WriteIndex(tokens, f);
      if !written { return RevokeIoError; }
      fs.Remove(RawPath(dir, name), f.dropRaw);
      return Revoked;
    }

    method LookupByToken(token: string, transport: string, now: int) returns (r: Option<string>)
      ensures r == if token == "" then None
                   else LookupSpec(ReadIndex(fs.files, dir), hash(token), transport, now)
    {
      if token == "" { return None; }
      var h, tokens := hash(token), ReadIndex(fs.files, dir);
      var i := 0;
      while i < |tokens|
        invariant 0 <= i <= |tokens|
        invariant LookupSpec(tokens[i..], h, transport, now) == LookupSpec(tokens, h, transport, now)
      {
        var e := tokens[i];
        assert tokens[i..][1..] == tokens[i + 1..];
        if e.hash == h {
          if Expiry.IsExpired(e.expiresAt, now) { return None; }
          if e.localOnly && transport != "local" { return None; }
          return Some(e.name);
        }
        i := i + 1;
      }
      return None;
    }
  }
}

/** What a call to the store reports and what it leaves on disk, in terms of the map, the
    name and the steps that fail. */
module TokenStatuses {
  import opened Options
  import opened Json
  import opened TokenFiles
  import opened TokenStore
  import opened TokenGrants

  // ---- Names ---------------------------------------------------------------

  predicate Alphanumeric(c: char) {
    'a' <= c <= 'z' || 'A' <= c <= 'Z' || '0' <= c <= '9'
  }

  /** A safe name cannot lead out of the directory of the raw files: it has no separator,
      no ".." and is no hidden file or option. */
  lemma SafeNamesStayInside(dir: string, name: string)
    requires SafeName(name)
    ensures RawPath(dir, name) == dir + "/tokens/" + (name + ".json")
    ensures '/' !in name && '\\' !in name && name[0] != '.' && name[0] != '-' && |name| <= 64
    ensures forall i | 0 < i < |name| :: !(name[i - 1] == '.' && name[i] == '.')
  {
    assert dir + "/tokens" + "/" + name + ".json" == dir + "/tokens/" + (name + ".json");
    SafeExactlyWhen(name);
  }

  /** Letters and digits, with dashes, underscores and single dots after the first, are
      accepted; the rest is refused. */
  lemma SafeExactlyWhen(name: string)
    ensures SafeName(name)
       <==> && 1 <= |name| <= 64 && (Alphanumeric(name[0]) || name[0] == '_')
            && (forall i | 0 <= i < |name| :: Alphanumeric(name[i]) || name[i] == '_' || name[i] == '-' || name[i] == '.')
            && (forall i | 0 < i < |name| :: name[i - 1] == '.' ==> name[i] != '.')
  {
    if SafeName(name) {
      forall i | 0 < i < |name| ensures name[i - 1] == '.' ==> name[i] != '.' { }
      assert NameChar(name[0]);
    } else if 1 <= |name| <= 64 && (forall i | 0 < i < |name| :: name[i - 1] == '.' ==> name[i] != '.') {
      forall i | 0 <= i < |name| - 1 ensures !(name[i] == '.' && name[i + 1] == '.') {
        assert name[i + 1 - 1] == '.' ==> name[i + 1] != '.';
      }
    }
  }

  // ---- Statuses ------------------------------------------------------------

  /** The statuses of an issue, by the map and the failing steps. */
  lemma IssueReports(files: Files, dir: string, g: Grants, hash: Hash, tokens: set<string>, q: Request, f: Faults)
    requires Represents(files, dir, g, hash) && Grounded(g, tokens) && Sound(hash, tokens)
    ensures IssueStatusOf(files, dir, q, f)
         == if !SafeName(q.name) then InvalidName
            else if q.name in g && !q.replace then AlreadyExists
            else if q.token.Some? && !f.stage.CannotOpen? && !f.stage.Short? && f.index.Full? && f.commit then Issued
            else IssueIoError
  {
    ReadBack(files, dir, g, hash, tokens);
    StatusMatchesMap(files, dir, g, hash, tokens, q, f);
  }

  lemma RevokeReports(files: Files, dir: string, g: Grants, hash: Hash, tokens: set<string>, q: Request, f: Faults)
    requires Represents(files, dir, g, hash) && Grounded(g, tokens) && Sound(hash, tokens)
    ensures RevokeStatusOf(files, dir, q.name, f)
         == if !SafeName(q.name) then BadName else if q.name !in g then NotFound
            else if f.index.Full? && f.commit then Revoked else RevokeIoError
  {
    ReadBack(files, dir, g, hash, tokens);
    StatusMatchesMap(files, dir, g, hash, tokens, q, f);
  }

  /** An index of any other version, or without one, is not touched: both calls fail, and a
      lookup finds nothing. */
  lemma OtherVersionIsLeftAlone(files: Files, dir: string, hash: Hash, q: Request, f: Faults, fields: map<string, Json>,
          token: string, transport: string, now: int)
    requires IndexPath(dir) in files && files[IndexPath(dir)] == Document(Obj(fields))
    requires !("version" in fields && fields["version"] == Num(2)) && SafeName(q.name)
    ensures IssueStatusOf(files, dir, q, f) == IssueIoError && IssueSteps(files, dir, q, f, hash) == []
    ensures RevokeStatusOf(files, dir, q.name, f) == RevokeIoError && RevokeSteps(files, dir, q.name, f) == []
    ensures Lookup(files, dir, hash, token, transport, now) == None
  {
  }

  // ---- What a call leaves on disk ------------------------------------------

  predicate NothingFails(f: Faults) {
    f.stage.Full? && f.index.Full? && f.commit && f.promote && f.dropRaw
  }

  /** An issue in which nothing fails: the index has the new entry, the raw file the token,
      no other file of the store is left over, and all other files are as they were. */
  lemma CleanIssue(files: Files, dir: string, q: Request, f: Faults, hash: Hash)
    requires !Refused(files, dir, q) && NothingFails(f)
    ensures var entry := Entry(q.name, hash(q.token.value), q.issuedAt, q.expiresAt, q.localOnly);
            var index := Document(IndexDocument(EraseFirst(ReadIndex(files, dir), q.name) + [entry]));
            After(files, IssueSteps(files, dir, q, f, hash))
            == (files - {NewPath(dir, q.name), TempPath(dir)})
                 [IndexPath(dir) := index]
                 [RawPath(dir, q.name) := Document(RawDocument(q.name, q.token.value, q.issuedAt))]
  {
    PathsAreDistinct(dir, q.name, q.name);
    var es := EraseFirst(ReadIndex(files, dir), q.name) + [NewEntry(q, hash)];
    var side, raw := NewPath(dir, q.name), RawPath(dir, q.name);
    var staging := PutSteps(files, side, RawDocument(q.name, q.token.value, q.issuedAt), f.stage);
    var staged := After(files, staging);
    var writing := WriteIndexSteps(staged, dir, es, f);
    var indexed := After(staged, writing);
    IndexReplaced(staged, dir, es, f);
    Chain(files, [], staging, writing, PromoteSteps(indexed, side, raw, f));
  }

  lemma IndexReplaced(files: Files, dir: string, es: seq<Entry>, f: Faults)
    requires f.index.Full? && f.commit
    ensures After(files, WriteIndexSteps(files, dir, es, f)) == (files - {TempPath(dir)})[IndexPath(dir) := Document(IndexDocument(es))]
  {
    PathsAreDistinct(dir, "", "");
  }

  /** A commit that fails, with clean-up that works, leaves nothing behind but that the
      `.new` and temporary files of earlier calls are gone. */
  lemma FailedCommitIsCleanedUp(files: Files, dir: string, q: Request, f: Faults, hash: Hash)
    requires !Refused(files, dir, q) && f.stage.Full? && f.index.Full? && !f.commit && f.dropTemp && f.dropStaged
    ensures After(files, IssueSteps(files, dir, q, f, hash)) == files - {NewPath(dir, q.name), TempPath(dir)}
  {
    PathsAreDistinct(dir, q.name, q.name);
    var es := EraseFirst(ReadIndex(files, dir), q.name) + [NewEntry(q, hash)];
    var side := NewPath(dir, q.name);
    var staging := PutSteps(files, side, RawDocument(q.name, q.token.value, q.issuedAt), f.stage);
    var staged := After(files, staging);
    var writing := WriteIndexSteps(staged, dir, es, f);
    var indexed := After(staged, writing);
    NothingReplaced(staged, dir, es, f);
    Chain(files, [], staging, writing, RemoveSteps(indexed, side, f.dropStaged));
  }

  lemma NothingReplaced(files: Files, dir: string, es: seq<Entry>, f: Faults)
    requires f.index.Full? && !f.commit && f.dropTemp
    ensures After(files, WriteIndexSteps(files, dir, es, f)) == files - {TempPath(dir)}
  {
  }

  /** A revoke in which nothing fails: the entry and the raw file are gone, and nothing
      else has changed. */
  lemma CleanRevoke(files: Files, dir: string, name: string, f: Faults)
    requires SafeName(name) && !VersionUnsupported(files, dir) && Exists(ReadIndex(files, dir), name) && NothingFails(f)
    ensures After(files, RevokeSteps(files, dir, name, f))
         == (files - {TempPath(dir), RawPath(dir, name)})[IndexPath(dir) := Document(IndexDocument(Without(ReadIndex(files, dir), name)))]
  {
    PathsAreDistinct(dir, name, name);
    var left := Without(ReadIndex(files, dir), name);
    IndexReplaced(files, dir, left, f);
    AfterConcat(files, WriteIndexSteps(files, dir, left, f),
                RemoveSteps(After(files, WriteIndexSteps(files, dir, left, f)), RawPath(dir, name), f.dropRaw));
  }
}

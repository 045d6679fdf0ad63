/** What the token store means: a map from names to grants, kept through any run of
    calls with any failures, and a raw token that can always be found again. */
module TokenGrants {
  import opened Options
  import opened Json
  import opened TokenFiles
  import opened TokenStore
  import Expiry

  datatype Grant = Grant(token: string, expiresAt: string, localOnly: bool)

  type Grants = map<string, Grant>

  /** SHA-256 as the store relies on it: never empty, and without collisions among the
      tokens that occur. */
  ghost predicate Sound(hash: Hash, tokens: set<string>) {
    && (forall t | t in tokens :: hash(t) != "")
    && (forall t, u | t in tokens && u in tokens && hash(t) == hash(u) :: t == u)
  }

  predicate Grounded(g: Grants, tokens: set<string>) {
    && (forall n <- g :: n != "" && g[n].token in tokens && g[n].token != "")
    && (forall n, m | n in g && m in g && n != m :: g[n].token != g[m].token)
  }

  predicate Records(e: Entry, g: Grants, hash: Hash) {
    e.name in g && e.hash == hash(g[e.name].token)
    && e.expiresAt == g[e.name].expiresAt && e.localOnly == g[e.name].localOnly
  }

  /** The index entries are exactly the grants, one entry a name. */
  ghost predicate Refines(es: seq<Entry>, g: Grants, hash: Hash) {
    && NamesDiffer(es)
    && (forall i | 0 <= i < |es| :: Records(es[i], g, hash))
    && (forall n <- g :: Exists(es, n))
  }

  /** The index on disk is absent, or a whole document that refines the map. */
  ghost predicate Represents(files: Files, dir: string, g: Grants, hash: Hash) {
    var path := IndexPath(dir);
    if path in files then
      exists es :: files[path] == Document(IndexDocument(es)) && Refines(es, g, hash)
    else g == map[]
  }

  lemma EntriesAreStorable(es: seq<Entry>, g: Grants, hash: Hash, tokens: set<string>)
    requires Refines(es, g, hash) && Grounded(g, tokens) && Sound(hash, tokens)
    ensures forall i | 0 <= i < |es| :: Storable(es[i])
  {
    forall i | 0 <= i < |es| ensures Storable(es[i]) {
      assert Records(es[i], g, hash);
    }
  }

  lemma ReadBack(files: Files, dir: string, g: Grants, hash: Hash, tokens: set<string>)
    requires Represents(files, dir, g, hash) && Grounded(g, tokens) && Sound(hash, tokens)
    ensures Refines(ReadIndex(files, dir), g, hash) && !VersionUnsupported(files, dir)
  {
    var path := IndexPath(dir);
    if path in files {
      var es :| files[path] == Document(IndexDocument(es)) && Refines(es, g, hash);
      EntriesAreStorable(es, g, hash, tokens);
      IndexRoundTrip(files, dir, es);
    }
  }

  // ---- One call ------------------------------------------------------------

  function AfterIssue(g: Grants, q: Request, status: IssueStatus): Grants
    requires status.Issued? ==> q.token.Some?
  {
    if status.Issued? then g[q.name := Grant(q.token.value, q.expiresAt, q.localOnly)] else g
  }

  function AfterRevoke(g: Grants, name: string, status: RevokeStatus): Grants {
    if status.Revoked? then g - {name} else g
  }

  /** The generator returned a token that is new to the store. */
  ghost predicate Fresh(q: Request, g: Grants, tokens: set<string>) {
    q.token.Some? ==> q.token.value != "" && q.token.value in tokens && forall n <- g :: g[n].token != q.token.value
  }

  lemma WithoutRefines(es: seq<Entry>, g: Grants, hash: Hash, name: string)
    requires Refines(es, g, hash)
    ensures Refines(Without(es, name), g - {name}, hash)
  {
    var r := Without(es, name);
    WithoutNamesDiffer(es, name);
    forall i | 0 <= i < |r| ensures Records(r[i], g - {name}, hash) {
      var k :| 0 <= k < |es| && es[k] == r[i];
      assert Records(es[k], g, hash);
    }
    forall n | n in g - {name} ensures Exists(r, n) {
      assert Exists(es, n);
      var k :| 0 <= k < |es| && es[k].name == n;
      assert es[k] in r;
    }
  }

  lemma {:induction false} WithoutNamesDiffer(es: seq<Entry>, name: string)
    requires NamesDiffer(es)
    ensures NamesDiffer(Without(es, name))
  {
    if es != [] {
      WithoutNamesDiffer(es[1..], name);
      if es[0].name != name {
        var r := Without(es[1..], name);
        forall i | 0 <= i < |r| ensures r[i].name != es[0].name {
          assert r[i] in es[1..];
          var k :| 0 <= k < |es| - 1 && es[1..][k] == r[i];
          assert es[k + 1] == r[i];
        }
      }
    }
  }

  lemma AddRefines(es: seq<Entry>, g: Grants, q: Request, hash: Hash)
    requires Refines(es, g, hash) && q.name !in g && q.token.Some?
    ensures Refines(es + [NewEntry(q, hash)], AfterIssue(g, q, Issued), hash)
  {
    var all, h := es + [NewEntry(q, hash)], AfterIssue(g, q, Issued);
    forall i | 0 <= i < |all| ensures Records(all[i], h, hash) {
      if i < |es| { assert Records(es[i], g, hash); }
    }
    forall n | n in h ensures Exists(all, n) {
      if n == q.name {
        assert all[|es|].name == n;
      } else {
        assert Exists(es, n);
        var k :| 0 <= k < |es| && es[k].name == n;
        assert all[k].name == n;
      }
    }
  }

  /** Writing the index changes it to the new entries if it reports success, and leaves
      it alone otherwise; either way it touches only the index and its temporary file. */
  lemma WriteIndexEffect(files: Files, dir: string, es: seq<Entry>, f: Faults)
    ensures var after := After(files, WriteIndexSteps(files, dir, es, f));
            && (IndexWritten(f) ==> IndexPath(dir) in after && after[IndexPath(dir)] == Document(IndexDocument(es)))
            && (!IndexWritten(f) ==> SameAt(files, after, IndexPath(dir)))
            && (forall p: string | p != IndexPath(dir) && p != TempPath(dir) :: SameAt(files, after, p))
  {
    PathsAreDistinct(dir, "", "");
  }

  /** Two states agree on what one path holds. */
  predicate SameAt(a: Files, b: Files, path: string) {
    (path in a <==> path in b) && (path in a ==> a[path] == b[path])
  }

  lemma PromoteEffect(files: Files, side: string, raw: string, f: Faults, p: string)
    requires p != side && p != raw
    ensures SameAt(files, After(files, PromoteSteps(files, side, raw, f)), p)
  {
  }

  lemma SameIndexSameMap(a: Files, b: Files, dir: string, g: Grants, hash: Hash)
    requires Represents(a, dir, g, hash) && SameAt(a, b, IndexPath(dir))
    ensures Represents(b, dir, g, hash)
  {
  }

  lemma NewEntriesRefine(es: seq<Entry>, g: Grants, q: Request, hash: Hash)
    requires Refines(es, g, hash) && q.token.Some?
    ensures Refines(EraseFirst(es, q.name) + [NewEntry(q, hash)], AfterIssue(g, q, Issued), hash)
  {
    EraseFirstIsWithout(es, q.name);
    WithoutRefines(es, g, hash, q.name);
    AddRefines(Without(es, q.name), g - {q.name}, q, hash);
    assert AfterIssue(g - {q.name}, q, Issued) == AfterIssue(g, q, Issued);
  }

  lemma IssueKeepsGrounded(g: Grants, q: Request, tokens: set<string>)
    requires Grounded(g, tokens) && Fresh(q, g, tokens) && q.token.Some? && q.name != ""
    ensures Grounded(AfterIssue(g, q, Issued), tokens)
  {
  }

  lemma IssueRepresents(files: Files, dir: string, g: Grants, q: Request, f: Faults, hash: Hash)
    requires Represents(files, dir, g, hash) && Refines(ReadIndex(files, dir), g, hash)
    requires IssueStatusOf(files, dir, q, f).Issued? ==> q.token.Some?
    ensures Represents(After(files, IssueSteps(files, dir, q, f, hash)), dir,
                       AfterIssue(g, q, IssueStatusOf(files, dir, q, f)), hash)
  {
    IssueOutcome(files, dir, q, f);
    if !Refused(files, dir, q) { PublishRefines(files, dir, g, q, f, hash); }
  }

  lemma IssueRefines(files: Files, dir: string, g: Grants, q: Request, f: Faults, hash: Hash, tokens: set<string>)
    requires Represents(files, dir, g, hash) && Grounded(g, tokens) && Sound(hash, tokens) && Fresh(q, g, tokens)
    ensures var status := IssueStatusOf(files, dir, q, f);
            && (status.Issued? ==> q.token.Some?)
            && Represents(After(files, IssueSteps(files, dir, q, f, hash)), dir, AfterIssue(g, q, status), hash)
            && Grounded(AfterIssue(g, q, status), tokens)
  {
    ReadBack(files, dir, g, hash, tokens);
    IssueOutcome(files, dir, q, f);
    IssueRepresents(files, dir, g, q, f, hash);
    if IssueStatusOf(files, dir, q, f).Issued? { IssueKeepsGrounded(g, q, tokens); }
  }

  lemma IssueOutcome(files: Files, dir: string, q: Request, f: Faults)
    ensures IssueStatusOf(files, dir, q, f).Issued?
       <==> !Refused(files, dir, q) && !f.stage.CannotOpen? && !f.stage.Short? && IndexWritten(f)
  {
  }

  lemma PublishRefines(files: Files, dir: string, g: Grants, q: Request, f: Faults, hash: Hash)
    requires Represents(files, dir, g, hash) && Refines(ReadIndex(files, dir), g, hash) && q.token.Some?
    ensures var next := EraseFirst(ReadIndex(files, dir), q.name) + [NewEntry(q, hash)];
            var after := After(files, PublishSteps(files, dir, q, next, f));
            Represents(after, dir,
                       if !f.stage.CannotOpen? && !f.stage.Short? && IndexWritten(f) then AfterIssue(g, q, Issued) else g,
                       hash)
  {
    var next := EraseFirst(ReadIndex(files, dir), q.name) + [NewEntry(q, hash)];
    var after := After(files, PublishSteps(files, dir, q, next, f));
    PublishKeepsOrCommits(files, dir, q, next, f);
    if !f.stage.CannotOpen? && !f.stage.Short? && IndexWritten(f) {
      NewEntriesRefine(ReadIndex(files, dir), g, q, hash);
    } else {
      SameIndexSameMap(files, after, dir, g, hash);
    }
  }

  lemma PublishKeepsOrCommits(files: Files, dir: string, q: Request, es: seq<Entry>, f: Faults)
    requires q.token.Some?
    ensures var after := After(files, PublishSteps(files, dir, q, es, f));
            var index := IndexPath(dir);
            if !f.stage.CannotOpen? && !f.stage.Short? && IndexWritten(f)
            then index in after && after[index] == Document(IndexDocument(es))
            else SameAt(files, after, index)
  {
    PathsAreDistinct(dir, q.name, q.name);
    var raw, side, index := RawPath(dir, q.name), NewPath(dir, q.name), IndexPath(dir);
    var staging := PutSteps(files, side, RawDocument(q.name, q.token.value, q.issuedAt), f.stage);
    if !f.stage.CannotOpen? && !f.stage.Short? {
      var staged := After(files, staging);
      var writing := WriteIndexSteps(staged, dir, es, f);
      var indexed := After(staged, writing);
      WriteIndexEffect(staged, dir, es, f);
      PromoteEffect(indexed, side, raw, f, index);
      var last := if IndexWritten(f) then PromoteSteps(indexed, side, raw, f) else RemoveSteps(indexed, side, f.dropStaged);
      Chain(files, [], staging, writing, last);
    }
  }

  lemma RevokeRefines(files: Files, dir: string, g: Grants, name: string, f: Faults, hash: Hash, tokens: set<string>)
    requires Represents(files, dir, g, hash) && Grounded(g, tokens) && Sound(hash, tokens)
    ensures var after := After(files, RevokeSteps(files, dir, name, f));
            var left := AfterRevoke(g, name, RevokeStatusOf(files, dir, name, f));
            Represents(after, dir, left, hash) && Grounded(left, tokens)
  {
    ReadBack(files, dir, g, hash, tokens);
    var es := ReadIndex(files, dir);
    if SafeName(name) && Exists(es, name) {
      var after := After(files, RevokeSteps(files, dir, name, f));
      WithoutRefines(es, g, hash, name);
      RevokeEffect(files, dir, name, f);
      if IndexWritten(f) {
        RevokeKeepsGrounded(g, name, tokens);
      } else {
        SameIndexSameMap(files, after, dir, g, hash);
      }
    }
  }

  lemma RevokeKeepsGrounded(g: Grants, name: string, tokens: set<string>)
    requires Grounded(g, tokens)
    ensures Grounded(g - {name}, tokens)
  {
  }

  lemma RevokeEnds(files: Files, dir: string, name: string, f: Faults)
    requires SafeName(name) && !VersionUnsupported(files, dir) && Exists(ReadIndex(files, dir), name)
    ensures var written := After(files, WriteIndexSteps(files, dir, Without(ReadIndex(files, dir), name), f));
            After(files, RevokeSteps(files, dir, name, f))
            == if IndexWritten(f) && f.dropRaw then written - {RawPath(dir, name)} else written
  {
    var writing := WriteIndexSteps(files, dir, Without(ReadIndex(files, dir), name), f);
    AfterConcat(files, writing, RemoveSteps(After(files, writing), RawPath(dir, name), f.dropRaw));
  }

  lemma RevokeEffect(files: Files, dir: string, name: string, f: Faults)
    requires SafeName(name) && !VersionUnsupported(files, dir) && Exists(ReadIndex(files, dir), name)
    ensures var after := After(files, RevokeSteps(files, dir, name, f));
            var index := IndexPath(dir);
            && (if IndexWritten(f)
                then index in after && after[index] == Document(IndexDocument(Without(ReadIndex(files, dir), name)))
                else SameAt(files, after, index))
            && (forall p: string | p != index && p != TempPath(dir) && p != RawPath(dir, name) :: SameAt(files, after, p))
  {
    var es := Without(ReadIndex(files, dir), name);
    var written := After(files, WriteIndexSteps(files, dir, es, f));
    RevokeEnds(files, dir, name, f);
    WriteIndexEffect(files, dir, es, f);
    PathsAreDistinct(dir, name, name);
    ElsewhereTheSame(written, RawPath(dir, name), f);
  }

  /** Removing one file, or not, changes no other. */
  lemma ElsewhereTheSame(written: Files, raw: string, f: Faults)
    ensures var after := if IndexWritten(f) && f.dropRaw then written - {raw} else written;
            forall p: string | p != raw :: SameAt(written, after, p)
  {
  }

  // ---- Lookup --------------------------------------------------------------

  lemma {:induction false} LookupFinds(es: seq<Entry>, i: nat, h: string, transport: string, now: int)
    requires i < |es| && es[i].hash == h
    requires forall k | 0 <= k < i :: es[k].hash != h
    ensures LookupSpec(es, h, transport, now)
         == if Expiry.IsExpired(es[i].expiresAt, now) || (es[i].localOnly && transport != "local") then None
            else Some(es[i].name)
  {
    if i > 0 { LookupFinds(es[1..], i - 1, h, transport, now); }
  }

  lemma {:induction false} LookupMisses(es: seq<Entry>, h: string, transport: string, now: int)
    requires forall k | 0 <= k < |es| :: es[k].hash != h
    ensures LookupSpec(es, h, transport, now) == None
  {
    if es != [] { LookupMisses(es[1..], h, transport, now); }
  }

  /** The name a token is accepted for, as the map says it. */
  ghost predicate Accepts(g: Grants, token: string, transport: string, now: int, name: string) {
    && name in g && g[name].token == token
    && !Expiry.IsExpired(g[name].expiresAt, now)
    && (g[name].localOnly ==> transport == "local")
  }

  /** What `lookupByToken` returns. */
  function Lookup(files: Files, dir: string, hash: Hash, token: string, transport: string, now: int): Option<string> {
    if token == "" then None else LookupSpec(ReadIndex(files, dir), hash(token), transport, now)
  }

  /** The lookup answers exactly as the map does, both ways. */
  lemma LookupMatches(files: Files, dir: string, g: Grants, hash: Hash, tokens: set<string>,
                      token: string, transport: string, now: int)
    requires Represents(files, dir, g, hash) && Grounded(g, tokens) && Sound(hash, tokens) && token in tokens
    ensures forall name: string ::
              Lookup(files, dir, hash, token, transport, now) == Some(name) <==> Accepts(g, token, transport, now, name)
  {
    ReadBack(files, dir, g, hash, tokens);
    var es := ReadIndex(files, dir);
    if owner :| owner in g && g[owner].token == token {
      assert Exists(es, owner);
      var i :| 0 <= i < |es| && es[i].name == owner;
      assert Records(es[i], g, hash);
      forall k | 0 <= k < i ensures es[k].hash != hash(token) { assert Records(es[k], g, hash); }
      LookupFinds(es, i, hash(token), transport, now);
    } else {
      forall k | 0 <= k < |es| ensures es[k].hash != hash(token) { assert Records(es[k], g, hash); }
      LookupMisses(es, hash(token), transport, now);
    }
  }

  // ---- Whole runs ----------------------------------------------------------

  datatype Call = Issue(q: Request, f: Faults) | Revoke(name: string, f: Faults)

  function FilesAfter(files: Files, dir: string, c: Call, hash: Hash): Files {
    match c
    case Issue(q, f) => After(files, IssueSteps(files, dir, q, f, hash))
    case Revoke(name, f) => After(files, RevokeSteps(files, dir, name, f))
  }

  /** The map's own answer to a call: only a call that reports success changes it. */
  function GrantsAfter(files: Files, dir: string, g: Grants, c: Call): Grants {
    match c
    case Issue(q, f) =>
      var status := IssueStatusOf(files, dir, q, f);
      IssueOutcome(files, dir, q, f);
      AfterIssue(g, q, status)
    case Revoke(name, f) => AfterRevoke(g, name, RevokeStatusOf(files, dir, name, f))
  }

  function RunFiles(files: Files, dir: string, calls: seq<Call>, hash: Hash): Files
    decreases |calls|
  {
    if calls == [] then files else RunFiles(FilesAfter(files, dir, calls[0], hash), dir, calls[1..], hash)
  }

  function RunGrants(files: Files, dir: string, g: Grants, calls: seq<Call>, hash: Hash): Grants
    decreases |calls|
  {
    if calls == [] then g
    else RunGrants(FilesAfter(files, dir, calls[0], hash), dir, GrantsAfter(files, dir, g, calls[0]), calls[1..], hash)
  }

  ghost predicate FreshRun(files: Files, dir: string, g: Grants, calls: seq<Call>, hash: Hash, tokens: set<string>)
    decreases |calls|
  {
    calls == []
    || ((calls[0].Issue? ==> Fresh(calls[0].q, g, tokens))
        && FreshRun(FilesAfter(files, dir, calls[0], hash), dir, GrantsAfter(files, dir, g, calls[0]), calls[1..], hash, tokens))
  }

  /** Over any run of calls with any failures the store stays a map from names to
      grants, changed by exactly the calls that report success. */
  lemma {:induction false} StoreIsAMap(files: Files, dir: string, g: Grants, calls: seq<Call>, hash: Hash,
          tokens: set<string>)
    requires Represents(files, dir, g, hash) && Grounded(g, tokens) && Sound(hash, tokens)
    requires FreshRun(files, dir, g, calls, hash, tokens)
    ensures Represents(RunFiles(files, dir, calls, hash), dir, RunGrants(files, dir, g, calls, hash), hash)
    ensures Grounded(RunGrants(files, dir, g, calls, hash), tokens)
    decreases |calls|
  {
    if calls != [] {
      var next := FilesAfter(files, dir, calls[0], hash);
      var after := GrantsAfter(files, dir, g, calls[0]);
      match calls[0] {
        case Issue(q, f) => IssueRefines(files, dir, g, q, f, hash, tokens);
        case Revoke(name, f) => RevokeRefines(files, dir, g, name, f, hash, tokens);
      }
      StoreIsAMap(next, dir, after, calls[1..], hash, tokens);
    }
  }

  /** From an empty directory, whatever ran and whatever failed: names are unique on
      disk, and every lookup answers as the map of the successful calls. */
  lemma LookupAfterAnyRun(dir: string, calls: seq<Call>, hash: Hash, tokens: set<string>,
                          token: string, transport: string, now: int)
    requires Sound(hash, tokens) && FreshRun(map[], dir, map[], calls, hash, tokens) && token in tokens
    ensures var files, g := RunFiles(map[], dir, calls, hash), RunGrants(map[], dir, map[], calls, hash);
            && NamesDiffer(ReadIndex(files, dir))
            && (forall name: string ::
                  Lookup(files, dir, hash, token, transport, now) == Some(name) <==> Accepts(g, token, transport, now, name))
  {
    StoreIsAMap(map[], dir, map[], calls, hash, tokens);
    var files, g := RunFiles(map[], dir, calls, hash), RunGrants(map[], dir, map[], calls, hash);
    ReadBack(files, dir, g, hash, tokens);
    LookupMatches(files, dir, g, hash, tokens, token, transport, now);
  }

  /** The status a call reports, in terms of the map alone. */
  lemma StatusMatchesMap(files: Files, dir: string, g: Grants, hash: Hash, tokens: set<string>, q: Request, f: Faults)
    requires Represents(files, dir, g, hash) && Grounded(g, tokens) && Sound(hash, tokens)
    ensures IssueStatusOf(files, dir, q, f).AlreadyExists? <==> SafeName(q.name) && q.name in g && !q.replace
    ensures RevokeStatusOf(files, dir, q.name, f).NotFound? <==> SafeName(q.name) && q.name !in g
  {
    ReadBack(files, dir, g, hash, tokens);
    var es := ReadIndex(files, dir);
    if Exists(es, q.name) {
      var i :| 0 <= i < |es| && es[i].name == q.name;
      assert Records(es[i], g, hash);
    }
  }
}

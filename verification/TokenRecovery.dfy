/** Stopping `issueToken` anywhere: is the token that the index accepts still on disk?

    The raw token exists nowhere but in its raw file and its `.new` side file, so a name
    is recoverable when one of the two holds a token with the committed hash. */
module TokenRecovery {
  import opened Options
  import opened Json
  import opened TokenFiles
  import opened TokenStore
  import opened TokenGrants

  function HashOf(es: seq<Entry>, name: string): (r: Option<string>)
    ensures r.Some? <==> Exists(es, name)
  {
    if es == [] then None
    else if es[0].name == name then Some(es[0].hash)
    else
      assert Exists(es[1..], name) ==> Exists(es, name) by {
        if i :| 0 <= i < |es[1..]| && es[1..][i].name == name { assert es[i + 1].name == name; }
      }
      assert Exists(es, name) ==> Exists(es[1..], name) by {
        if i :| 0 <= i < |es| && es[i].name == name { assert es[1..][i - 1].name == name; }
      }
      HashOf(es[1..], name)
  }

  /** The hash under which the index on disk accepts `name`. */
  function Committed(files: Files, dir: string, name: string): Option<string> {
    HashOf(ReadIndex(files, dir), name)
  }

  predicate HoldsToken(files: Files, path: string, h: string, hash: Hash) {
    TokenAt(files, path).Some? && hash(TokenAt(files, path).value) == h
  }

  predicate InRawFile(files: Files, dir: string, name: string, hash: Hash) {
    var c := Committed(files, dir, name);
    c.Some? ==> HoldsToken(files, RawPath(dir, name), c.value, hash)
  }

  predicate Recoverable(files: Files, dir: string, name: string, hash: Hash) {
    var c := Committed(files, dir, name);
    c.Some? ==> HoldsToken(files, RawPath(dir, name), c.value, hash) || HoldsToken(files, NewPath(dir, name), c.value, hash)
  }

  /** Neither file of another name changes. */
  predicate OthersUntouched(a: Files, b: Files, dir: string, name: string, other: string) {
    other != name ==> SameAt(a, b, RawPath(dir, other)) && SameAt(a, b, NewPath(dir, other))
  }

  /** The index and the raw file of the name are as they were. */
  predicate AsBefore(files: Files, g: Files, dir: string, name: string) {
    SameAt(files, g, IndexPath(dir)) && SameAt(files, g, RawPath(dir, name))
  }

  lemma RawStays(files: Files, g: Files, dir: string, name: string, hash: Hash)
    requires InRawFile(files, dir, name, hash)
    requires AsBefore(files, g, dir, name)
    ensures Recoverable(g, dir, name, hash)
  {
    assert ReadIndex(files, dir) == ReadIndex(g, dir);
  }

  lemma {:induction false} HashOfLast(es: seq<Entry>, e: Entry)
    requires !Exists(es, e.name)
    ensures HashOf(es + [e], e.name) == Some(e.hash)
  {
    if es != [] {
      assert es[0].name != e.name;
      assert forall i | 0 <= i < |es| - 1 :: es[1..][i] == es[i + 1];
      HashOfLast(es[1..], e);
      assert (es + [e])[1..] == es[1..] + [e];
    }
  }

  /** The entries `issueToken` writes. */
  function NextEntries(es: seq<Entry>, q: Request, hash: Hash): seq<Entry>
    requires q.token.Some?
  {
    EraseFirst(es, q.name) + [NewEntry(q, hash)]
  }

  predicate Sane(es: seq<Entry>, q: Request, hash: Hash) {
    && q.token.Some? && q.name != "" && hash(q.token.value) != ""
    && NamesDiffer(es)
    && (forall i | 0 <= i < |es| :: Storable(es[i]))
  }

  lemma NextIsStorable(es: seq<Entry>, q: Request, hash: Hash)
    requires Sane(es, q, hash)
    ensures var all := NextEntries(es, q, hash);
            (forall i | 0 <= i < |all| :: Storable(all[i])) && HashOf(all, q.name) == Some(hash(q.token.value))
  {
    EraseFirstIsWithout(es, q.name);
    var kept := Without(es, q.name);
    forall i | 0 <= i < |kept| ensures Storable(kept[i]) {
      assert kept[i] in es;
    }
    HashOfLast(kept, NewEntry(q, hash));
  }

  predicate IndexHolds(g: Files, dir: string, es: seq<Entry>) {
    IndexPath(dir) in g && g[IndexPath(dir)] == Document(IndexDocument(es))
  }

  predicate HoldsRaw(g: Files, path: string, q: Request)
    requires q.token.Some?
  {
    path in g && g[path] == Document(RawDocument(q.name, q.token.value, q.issuedAt))
  }

  /** Once the new index is in place, its token is what has to be on disk. */
  lemma CommittedIsNew(g: Files, dir: string, es: seq<Entry>, q: Request, hash: Hash)
    requires Sane(es, q, hash) && IndexHolds(g, dir, NextEntries(es, q, hash))
    ensures Committed(g, dir, q.name) == Some(hash(q.token.value))
  {
    NextIsStorable(es, q, hash);
    IndexRoundTrip(g, dir, NextEntries(es, q, hash));
  }

  /** A state of `WriteIndexSteps`: the old index, or the whole new one. */
  lemma WritingStates(files: Files, dir: string, es: seq<Entry>, f: Faults, k: nat)
    requires k < |WriteIndexSteps(files, dir, es, f)|
    ensures var g := WriteIndexSteps(files, dir, es, f)[k];
            && (SameAt(files, g, IndexPath(dir)) || IndexHolds(g, dir, es))
            && (forall p: string | p != IndexPath(dir) && p != TempPath(dir) :: SameAt(files, g, p))
  {
    PathsAreDistinct(dir, "", "");
  }

  /** A failed index write never changes the index. */
  lemma UncommittedWriting(files: Files, dir: string, es: seq<Entry>, f: Faults, k: nat)
    requires !IndexWritten(f) && k < |WriteIndexSteps(files, dir, es, f)|
    ensures SameAt(files, WriteIndexSteps(files, dir, es, f)[k], IndexPath(dir))
  {
    PathsAreDistinct(dir, "", "");
  }

  // ---- Staging -------------------------------------------------------------

  function Staging(files: Files, dir: string, q: Request, f: Faults): seq<Files>
    requires q.token.Some?
  {
    PutSteps(files, NewPath(dir, q.name), RawDocument(q.name, q.token.value, q.issuedAt), f.stage)
  }

  /** Staging touches the side file only. */
  lemma StagingStates(files: Files, dir: string, q: Request, f: Faults, k: nat)
    requires q.token.Some? && k < |Staging(files, dir, q, f)|
    ensures forall p: string | p != NewPath(dir, q.name) :: SameAt(files, Staging(files, dir, q, f)[k], p)
    ensures AsBefore(files, Staging(files, dir, q, f)[k], dir, q.name)
  {
    PathsAreDistinct(dir, q.name, q.name);
  }

  lemma StagedIsAsBefore(files: Files, dir: string, q: Request, f: Faults)
    requires q.token.Some?
    ensures AsBefore(files, After(files, Staging(files, dir, q, f)), dir, q.name)
  {
    var staging := Staging(files, dir, q, f);
    if staging != [] { StagingStates(files, dir, q, f, |staging| - 1); }
  }

  lemma NewTokenRecoverable(g: Files, dir: string, es: seq<Entry>, q: Request, hash: Hash)
    requires Sane(es, q, hash) && IndexHolds(g, dir, NextEntries(es, q, hash))
    requires HoldsRaw(g, NewPath(dir, q.name), q) || HoldsRaw(g, RawPath(dir, q.name), q)
    ensures Recoverable(g, dir, q.name, hash)
  {
    CommittedIsNew(g, dir, es, q, hash);
    if HoldsRaw(g, NewPath(dir, q.name), q) {
      RawRoundTrip(g, NewPath(dir, q.name), q.name, q.token.value, q.issuedAt);
    } else {
      RawRoundTrip(g, RawPath(dir, q.name), q.name, q.token.value, q.issuedAt);
    }
  }

  // ---- With the index written ----------------------------------------------

  /** While the index is replaced: the old one with the old raw file, or the new one with
      the staged token. */
  lemma IndexStates(files: Files, staged: Files, dir: string, q: Request, es: seq<Entry>, f: Faults, hash: Hash, k: nat)
    requires Sane(es, q, hash) && InRawFile(files, dir, q.name, hash)
    requires AsBefore(files, staged, dir, q.name) && HoldsRaw(staged, NewPath(dir, q.name), q)
    requires k < |WriteIndexSteps(staged, dir, NextEntries(es, q, hash), f)|
    ensures Recoverable(WriteIndexSteps(staged, dir, NextEntries(es, q, hash), f)[k], dir, q.name, hash)
  {
    var next := NextEntries(es, q, hash);
    var g := WriteIndexSteps(staged, dir, next, f)[k];
    WritingStates(staged, dir, next, f, k);
    PathsAreDistinct(dir, q.name, q.name);
    assert SameAt(staged, g, RawPath(dir, q.name)) && SameAt(staged, g, NewPath(dir, q.name));
    if SameAt(staged, g, IndexPath(dir)) {
      RawStays(files, g, dir, q.name, hash);
    } else {
      assert IndexHolds(g, dir, next);
      NewTokenRecoverable(g, dir, es, q, hash);
    }
  }

  lemma CommittedState(staged: Files, dir: string, q: Request, es: seq<Entry>, f: Faults)
    requires q.token.Some? && HoldsRaw(staged, NewPath(dir, q.name), q) && IndexWritten(f)
    ensures var indexed := After(staged, WriteIndexSteps(staged, dir, es, f));
            IndexHolds(indexed, dir, es) && HoldsRaw(indexed, NewPath(dir, q.name), q)
  {
    WriteIndexEffect(staged, dir, es, f);
    PathsAreDistinct(dir, q.name, q.name);
    assert SameAt(staged, After(staged, WriteIndexSteps(staged, dir, es, f)), NewPath(dir, q.name));
  }

  lemma PromotingStates(indexed: Files, dir: string, q: Request, es: seq<Entry>, f: Faults, hash: Hash, k: nat)
    requires Sane(es, q, hash) && IndexHolds(indexed, dir, NextEntries(es, q, hash))
    requires HoldsRaw(indexed, NewPath(dir, q.name), q)
    requires k < |PromoteSteps(indexed, NewPath(dir, q.name), RawPath(dir, q.name), f)|
    ensures Recoverable(PromoteSteps(indexed, NewPath(dir, q.name), RawPath(dir, q.name), f)[k], dir, q.name, hash)
  {
    var raw, side := RawPath(dir, q.name), NewPath(dir, q.name);
    PathsAreDistinct(dir, q.name, q.name);
    Promoted(indexed, side, raw, f, k);
    NewTokenRecoverable(PromoteSteps(indexed, side, raw, f)[k], dir, es, q, hash);
  }

  lemma Promoted(files: Files, side: string, raw: string, f: Faults, k: nat)
    requires side in files && side != raw && k < |PromoteSteps(files, side, raw, f)|
    ensures PromoteSteps(files, side, raw, f)[k] == (files - {side})[raw := files[side]]
  {
  }

  lemma Segments(a: seq<Files>, b: seq<Files>, c: seq<Files>, k: nat)
    requires k < |a + (b + c)|
    ensures k < |a| ==> (a + (b + c))[k] == a[k]
    ensures |a| <= k < |a| + |b| ==> (a + (b + c))[k] == b[k - |a|]
    ensures |a| + |b| <= k ==> (a + (b + c))[k] == c[k - |a| - |b|]
  {
  }

  lemma CommittedStates(files: Files, dir: string, q: Request, es: seq<Entry>, f: Faults, hash: Hash, k: nat)
    requires Sane(es, q, hash) && InRawFile(files, dir, q.name, hash) && f.stage.Full? && IndexWritten(f)
    requires k < |PublishSteps(files, dir, q, NextEntries(es, q, hash), f)|
    ensures Recoverable(PublishSteps(files, dir, q, NextEntries(es, q, hash), f)[k], dir, q.name, hash)
  {
    var side, next, staging := NewPath(dir, q.name), NextEntries(es, q, hash), Staging(files, dir, q, f);
    var staged := After(files, staging);
    var writing := WriteIndexSteps(staged, dir, next, f);
    var indexed := After(staged, writing);
    StagedIsAsBefore(files, dir, q, f);
    Segments(staging, writing, PromoteSteps(indexed, side, RawPath(dir, q.name), f), k);
    if k < |staging| {
      StagingStates(files, dir, q, f, k);
      RawStays(files, staging[k], dir, q.name, hash);
    } else if k < |staging| + |writing| {
      IndexStates(files, staged, dir, q, es, f, hash, k - |staging|);
    } else {
      CommittedState(staged, dir, q, next, f);
      PromotingStates(indexed, dir, q, es, f, hash, k - |staging| - |writing|);
    }
  }

  // ---- Without -------------------------------------------------------------

  lemma UncommittedIsAsBefore(files: Files, staged: Files, dir: string, name: string, es: seq<Entry>, f: Faults, k: nat)
    requires AsBefore(files, staged, dir, name) && !IndexWritten(f) && k < |WriteIndexSteps(staged, dir, es, f)|
    ensures AsBefore(files, WriteIndexSteps(staged, dir, es, f)[k], dir, name)
  {
    WritingStates(staged, dir, es, f, k);
    UncommittedWriting(staged, dir, es, f, k);
    PathsAreDistinct(dir, name, name);
    assert SameAt(staged, WriteIndexSteps(staged, dir, es, f)[k], RawPath(dir, name));
  }

  /** A call that does not get its index written leaves the index and the raw file alone,
      at every step and however staging went. */
  lemma UncommittedStates(files: Files, dir: string, q: Request, es: seq<Entry>, f: Faults, k: nat)
    requires q.token.Some? && !IndexWritten(f) && k < |PublishSteps(files, dir, q, es, f)|
    ensures AsBefore(files, PublishSteps(files, dir, q, es, f)[k], dir, q.name)
  {
    var side, staging := NewPath(dir, q.name), Staging(files, dir, q, f);
    if k < |staging| { StagingStates(files, dir, q, f, k); }
    if f.stage.Full? || f.stage.ShortUnseen? {
      var staged := After(files, staging);
      var writing := WriteIndexSteps(staged, dir, es, f);
      var indexed := After(staged, writing);
      StagedIsAsBefore(files, dir, q, f);
      Segments(staging, writing, RemoveSteps(indexed, side, f.dropStaged), k);
      if |staging| <= k < |staging| + |writing| {
        UncommittedIsAsBefore(files, staged, dir, q.name, es, f, k - |staging|);
      } else if |staging| + |writing| <= k {
        if writing != [] { UncommittedIsAsBefore(files, staged, dir, q.name, es, f, |writing| - 1); }
        PathsAreDistinct(dir, q.name, q.name);
      }
    }
  }

  // ---- The whole call ------------------------------------------------------

  /** Staging went wrong without a sign, and its result was committed. */
  predicate LostUnseen(f: Faults) {
    f.stage.ShortUnseen? && IndexWritten(f)
  }

  lemma PublishStates(files: Files, dir: string, q: Request, es: seq<Entry>, f: Faults, hash: Hash, k: nat)
    requires Sane(es, q, hash) && InRawFile(files, dir, q.name, hash) && !LostUnseen(f)
    requires k < |PublishSteps(files, dir, q, NextEntries(es, q, hash), f)|
    ensures Recoverable(PublishSteps(files, dir, q, NextEntries(es, q, hash), f)[k], dir, q.name, hash)
  {
    var next := NextEntries(es, q, hash);
    if f.stage.Full? && IndexWritten(f) {
      CommittedStates(files, dir, q, es, f, hash, k);
    } else {
      if IndexWritten(f) {
        StagingStates(files, dir, q, f, k);
      } else {
        UncommittedStates(files, dir, q, next, f, k);
      }
      RawStays(files, PublishSteps(files, dir, q, next, f)[k], dir, q.name, hash);
    }
  }

  lemma PublishTouches(files: Files, dir: string, q: Request, es: seq<Entry>, f: Faults, p: string, k: nat)
    requires q.token.Some? && k < |PublishSteps(files, dir, q, es, f)|
    requires p != NewPath(dir, q.name) && p != RawPath(dir, q.name) && p != IndexPath(dir) && p != TempPath(dir)
    ensures SameAt(files, PublishSteps(files, dir, q, es, f)[k], p)
  {
    var side, raw, staging := NewPath(dir, q.name), RawPath(dir, q.name), Staging(files, dir, q, f);
    if f.stage.Full? || f.stage.ShortUnseen? {
      var staged := After(files, staging);
      var writing := WriteIndexSteps(staged, dir, es, f);
      var indexed := After(staged, writing);
      var last := if IndexWritten(f) then PromoteSteps(indexed, side, raw, f) else RemoveSteps(indexed, side, f.dropStaged);
      Segments(staging, writing, last, k);
      WriteIndexEffect(staged, dir, es, f);
      assert SameAt(files, staged, p) && SameAt(staged, indexed, p);
      if |staging| <= k < |staging| + |writing| {
        WritingStates(staged, dir, es, f, k - |staging|);
        assert SameAt(staged, writing[k - |staging|], p);
      } else if |staging| + |writing| <= k {
        LastTouches(indexed, side, raw, f, p, k - |staging| - |writing|);
      }
    }
  }

  lemma LastTouches(indexed: Files, side: string, raw: string, f: Faults, p: string, k: nat)
    requires p != side && p != raw
    ensures k < |PromoteSteps(indexed, side, raw, f)| ==> SameAt(indexed, PromoteSteps(indexed, side, raw, f)[k], p)
    ensures k < |RemoveSteps(indexed, side, f.dropStaged)| ==> SameAt(indexed, RemoveSteps(indexed, side, f.dropStaged)[k], p)
  {
  }

  /** Whatever fails, no step of a call changes the files of another name. */
  lemma OthersNeverChange(files: Files, dir: string, q: Request, f: Faults, hash: Hash, other: string, k: nat)
    requires k < |IssueSteps(files, dir, q, f, hash)|
    ensures OthersUntouched(files, IssueSteps(files, dir, q, f, hash)[k], dir, q.name, other)
  {
    if other != q.name {
      var es := EraseFirst(ReadIndex(files, dir), q.name) + [NewEntry(q, hash)];
      PathsAreDistinct(dir, q.name, other);
      PathsAreDistinct(dir, other, q.name);
      PublishTouches(files, dir, q, es, f, RawPath(dir, other), k);
      PublishTouches(files, dir, q, es, f, NewPath(dir, other), k);
    }
  }

  /** Stop `issueToken` after any file step, with any failures but a committed token whose
      staging failed unseen: if the name's committed token was in its raw file before the
      call, the token committed at that moment is in the raw file or the `.new` file. */
  lemma StoppedAnywhere(files: Files, dir: string, g: Grants, q: Request, f: Faults, hash: Hash, tokens: set<string>, k: nat)
    requires Represents(files, dir, g, hash) && Grounded(g, tokens) && Sound(hash, tokens) && Fresh(q, g, tokens)
    requires InRawFile(files, dir, q.name, hash) && !LostUnseen(f)
    requires k < |IssueSteps(files, dir, q, f, hash)|
    ensures Recoverable(IssueSteps(files, dir, q, f, hash)[k], dir, q.name, hash)
  {
    ReadBack(files, dir, g, hash, tokens);
    var es := ReadIndex(files, dir);
    EntriesAreStorable(es, g, hash, tokens);
    PublishStates(files, dir, q, es, f, hash, k);
  }

  // ---- What the guarantee rests on -----------------------------------------

  /** Opening the side file truncates it: a token that was only there is gone. */
  lemma FirstStepLosesSideFile(files: Files, dir: string, q: Request, f: Faults, hash: Hash)
    requires !Refused(files, dir, q) && !f.stage.CannotOpen?
    requires !InRawFile(files, dir, q.name, hash)
    ensures |IssueSteps(files, dir, q, f, hash)| > 0
    ensures !Recoverable(IssueSteps(files, dir, q, f, hash)[0], dir, q.name, hash)
  {
    PathsAreDistinct(dir, q.name, q.name);
    var side := NewPath(dir, q.name);
    var first := files[side := Scrap];
    var put := PutSteps(files, side, RawDocument(q.name, q.token.value, q.issuedAt), f.stage);
    assert put[0] == first;
    assert IssueSteps(files, dir, q, f, hash)[0] == first;
    assert ReadIndex(first, dir) == ReadIndex(files, dir);
    assert !HoldsToken(first, side, Committed(files, dir, q.name).value, hash);
  }

  ghost predicate SafeThroughout(files: Files, dir: string, q: Request, f: Faults, hash: Hash) {
    forall k: nat | k < |IssueSteps(files, dir, q, f, hash)| ::
      Recoverable(IssueSteps(files, dir, q, f, hash)[k], dir, q.name, hash)
  }

  /** Where the two files of the name end after the index was committed. */
  lemma PromotedEnd(indexed: Files, side: string, raw: string, f: Faults)
    requires side in indexed && side != raw
    ensures var end := After(indexed, PromoteSteps(indexed, side, raw, f));
            && (forall p: string | p != side && p != raw :: SameAt(indexed, end, p))
            && if f.promote || f.promoteAgain then side !in end && raw in end && end[raw] == indexed[side]
               else end == indexed
  {
  }

  /** The files after a call that returned success, around whatever it staged. */
  predicate IssuedEnd(files: Files, end: Files, dir: string, q: Request, es: seq<Entry>, f: Faults)
    requires q.token.Some?
  {
    var side, raw := NewPath(dir, q.name), RawPath(dir, q.name);
    && IndexHolds(end, dir, es)
    && (f.stage.Full? ==> HoldsRaw(end, if f.promote || f.promoteAgain then raw else side, q))
    && (!f.stage.Full? ==> TokenAt(end, side) == None && (TokenAt(end, raw) == None || TokenAt(end, raw) == TokenAt(files, raw)))
  }

  lemma IssuedEnds(files: Files, dir: string, q: Request, es: seq<Entry>, f: Faults)
    requires q.token.Some? && IndexWritten(f) && (f.stage.Full? || f.stage.ShortUnseen?)
    ensures IssuedEnd(files, After(files, PublishSteps(files, dir, q, es, f)), dir, q, es, f)
  {
    PathsAreDistinct(dir, q.name, q.name);
    var side, raw := NewPath(dir, q.name), RawPath(dir, q.name);
    var staging := PutSteps(files, side, RawDocument(q.name, q.token.value, q.issuedAt), f.stage);
    var staged := After(files, staging);
    var writing := WriteIndexSteps(staged, dir, es, f);
    var indexed := After(staged, writing);
    WriteIndexEffect(staged, dir, es, f);
    assert SameAt(staged, indexed, side) && SameAt(staged, indexed, raw);
    PromotedEnd(indexed, side, raw, f);
    Chain(files, [], staging, writing, PromoteSteps(indexed, side, raw, f));
  }

  lemma EndIsRecoverable(files: Files, end: Files, dir: string, es: seq<Entry>, q: Request, f: Faults, hash: Hash)
    requires Sane(es, q, hash) && IssuedEnd(files, end, dir, q, NextEntries(es, q, hash), f)
    requires !HoldsToken(files, RawPath(dir, q.name), hash(q.token.value), hash)
    ensures Recoverable(end, dir, q.name, hash) <==> f.stage.Full?
  {
    CommittedIsNew(end, dir, es, q, hash);
    if f.stage.Full? {
      RawRoundTrip(end, if f.promote || f.promoteAgain then RawPath(dir, q.name) else NewPath(dir, q.name),
                   q.name, q.token.value, q.issuedAt);
    }
  }

  /** `writeRawTokenFile` does not look at the stream again after closing it. So a call
      that reports success has left its token on disk exactly when the last flush went
      through; a failure there goes unnoticed and the token is only in the reply. */
  lemma IssuedTokenIsOnDisk(files: Files, dir: string, g: Grants, q: Request, f: Faults, hash: Hash,
          tokens: set<string>)
    requires Represents(files, dir, g, hash) && Grounded(g, tokens) && Sound(hash, tokens) && Fresh(q, g, tokens)
    requires IssueStatusOf(files, dir, q, f).Issued?
    requires !HoldsToken(files, RawPath(dir, q.name), hash(q.token.value), hash)
    ensures Recoverable(After(files, IssueSteps(files, dir, q, f, hash)), dir, q.name, hash) <==> f.stage.Full?
  {
    ReadBack(files, dir, g, hash, tokens);
    var es := ReadIndex(files, dir);
    EntriesAreStorable(es, g, hash, tokens);
    var next := NextEntries(es, q, hash);
    IssuedEnds(files, dir, q, next, f);
    EndIsRecoverable(files, After(files, PublishSteps(files, dir, q, next, f)), dir, es, q, f, hash);
  }

  /** A commit whose staging failed unseen ends with its token nowhere on disk. */
  lemma LostAtTheEnd(files: Files, dir: string, g: Grants, q: Request, f: Faults, hash: Hash, tokens: set<string>)
    requires Represents(files, dir, g, hash) && Grounded(g, tokens) && Sound(hash, tokens) && Fresh(q, g, tokens)
    requires !Refused(files, dir, q) && LostUnseen(f)
    requires !HoldsToken(files, RawPath(dir, q.name), hash(q.token.value), hash)
    ensures !SafeThroughout(files, dir, q, f, hash)
  {
    IssuedTokenIsOnDisk(files, dir, g, q, f, hash, tokens);
    var steps := IssueSteps(files, dir, q, f, hash);
    FirstIsThere(files, dir, q, f, hash);
    assert After(files, steps) == steps[|steps| - 1];
  }

  lemma FirstIsThere(files: Files, dir: string, q: Request, f: Faults, hash: Hash)
    requires !Refused(files, dir, q) && !f.stage.CannotOpen?
    ensures |IssueSteps(files, dir, q, f, hash)| > 0
  {
  }

  /** Over all failures: every stop of a call that is not refused is safe if and only if
      the side file could not even be opened, or the committed token was in the raw file
      and no commit followed a staging that failed unseen. The `.new` file alone is not
      enough, and an unseen failure is harmless as long as the index is not written. */
  lemma SafeExactlyWhen(files: Files, dir: string, g: Grants, q: Request, f: Faults, hash: Hash, tokens: set<string>)
    requires Represents(files, dir, g, hash) && Grounded(g, tokens) && Sound(hash, tokens) && Fresh(q, g, tokens)
    requires !Refused(files, dir, q)
    requires LostUnseen(f) ==> !HoldsToken(files, RawPath(dir, q.name), hash(q.token.value), hash)
    ensures SafeThroughout(files, dir, q, f, hash)
            <==> f.stage.CannotOpen? || (InRawFile(files, dir, q.name, hash) && !LostUnseen(f))
  {
    if f.stage.CannotOpen? {
      assert IssueSteps(files, dir, q, f, hash) == [];
    } else if !InRawFile(files, dir, q.name, hash) {
      FirstStepLosesSideFile(files, dir, q, f, hash);
    } else if LostUnseen(f) {
      LostAtTheEnd(files, dir, g, q, f, hash, tokens);
    } else {
      forall k: nat | k < |IssueSteps(files, dir, q, f, hash)|
        ensures Recoverable(IssueSteps(files, dir, q, f, hash)[k], dir, q.name, hash)
      {
        StoppedAnywhere(files, dir, g, q, f, hash, tokens, k);
      }
    }
  }
}

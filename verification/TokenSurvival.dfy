/** Whole runs of the store, stopped anywhere: the token of every name stays on disk.

    What one call needs of the files, each committed token in its raw file, is kept by
    the calls whose staging and promotion worked, and by every revoke. */
module TokenSurvival {
  import opened Options
  import opened Json
  import opened TokenFiles
  import opened TokenStore
  import opened TokenGrants
  import opened TokenRecovery

  /** The token of every name in the index is in its raw file. */
  ghost predicate AllInRaw(files: Files, dir: string, hash: Hash) {
    forall name: string :: InRawFile(files, dir, name, hash)
  }

  /** A call that commits has staged its token in full and promoted it. */
  predicate Settles(f: Faults) {
    IndexWritten(f) && !f.stage.CannotOpen? && !f.stage.Short? ==> f.stage.Full? && (f.promote || f.promoteAgain)
  }

  predicate CallSettles(c: Call) {
    c.Issue? ==> Settles(c.f)
  }

  function Steps(files: Files, dir: string, c: Call, hash: Hash): seq<Files> {
    match c
    case Issue(q, f) => IssueSteps(files, dir, q, f, hash)
    case Revoke(name, f) => RevokeSteps(files, dir, name, f)
  }

  // ---- The committed hash of one name --------------------------------------

  lemma {:induction false} HashOfWithout(es: seq<Entry>, name: string, other: string)
    ensures HashOf(Without(es, name), other) == if other == name then None else HashOf(es, other)
  {
    if es != [] { HashOfWithout(es[1..], name, other); }
  }

  lemma {:induction false} HashOfAppend(es: seq<Entry>, e: Entry, other: string)
    requires e.name != other
    ensures HashOf(es + [e], other) == HashOf(es, other)
  {
    if es == [] {
      assert es + [e] == [e];
    } else {
      HashOfAppend(es[1..], e, other);
      assert (es + [e])[0] == es[0] && (es + [e])[1..] == es[1..] + [e];
    }
  }

  lemma HashOfNext(es: seq<Entry>, q: Request, hash: Hash, other: string)
    requires Sane(es, q, hash) && other != q.name
    ensures HashOf(NextEntries(es, q, hash), other) == HashOf(es, other)
  {
    EraseFirstIsWithout(es, q.name);
    HashOfWithout(es, q.name, other);
    HashOfAppend(Without(es, q.name), NewEntry(q, hash), other);
  }

  /** A name keeps its token in its raw file when neither of the two changes. */
  lemma InRawStays(files: Files, g: Files, dir: string, name: string, hash: Hash)
    requires InRawFile(files, dir, name, hash) && SameAt(files, g, RawPath(dir, name))
    requires Committed(g, dir, name) == Committed(files, dir, name) || Committed(g, dir, name) == None
    ensures InRawFile(g, dir, name, hash)
  {
  }

  lemma SameIndexSameHash(files: Files, g: Files, dir: string, name: string)
    requires SameAt(files, g, IndexPath(dir))
    ensures Committed(g, dir, name) == Committed(files, dir, name)
  {
    assert ReadIndex(files, dir) == ReadIndex(g, dir);
  }

  // ---- An issue ------------------------------------------------------------

  /** What happens to the files once the token is staged. */
  function Committing(staged: Files, dir: string, side: string, raw: string, es: seq<Entry>, f: Faults): seq<Files> {
    var writing := WriteIndexSteps(staged, dir, es, f);
    var indexed := After(staged, writing);
    writing + if IndexWritten(f) then PromoteSteps(indexed, side, raw, f) else RemoveSteps(indexed, side, f.dropStaged)
  }

  lemma CommittingStates(staged: Files, dir: string, side: string, raw: string, es: seq<Entry>, f: Faults, k: nat)
    requires side != IndexPath(dir) && raw != IndexPath(dir) && k < |Committing(staged, dir, side, raw, es, f)|
    ensures var g := Committing(staged, dir, side, raw, es, f)[k];
            SameAt(staged, g, IndexPath(dir)) || IndexHolds(g, dir, es)
  {
    var writing := WriteIndexSteps(staged, dir, es, f);
    var indexed := After(staged, writing);
    if k < |writing| {
      WritingStates(staged, dir, es, f, k);
    } else {
      if writing != [] { WritingStates(staged, dir, es, f, |writing| - 1); }
      LastTouches(indexed, side, raw, f, IndexPath(dir), k - |writing|);
    }
  }

  /** At every step the index is the old one or the whole new one. */
  lemma PublishIndexStates(files: Files, dir: string, q: Request, es: seq<Entry>, f: Faults, k: nat)
    requires q.token.Some? && k < |PublishSteps(files, dir, q, es, f)|
    ensures var g := PublishSteps(files, dir, q, es, f)[k];
            SameAt(files, g, IndexPath(dir)) || IndexHolds(g, dir, es)
  {
    var side, raw, staging := NewPath(dir, q.name), RawPath(dir, q.name), Staging(files, dir, q, f);
    PathsAreDistinct(dir, q.name, q.name);
    if k < |staging| {
      StagingStates(files, dir, q, f, k);
    } else {
      var staged := After(files, staging);
      assert PublishSteps(files, dir, q, es, f) == staging + Committing(staged, dir, side, raw, es, f);
      StagedIsAsBefore(files, dir, q, f);
      CommittingStates(staged, dir, side, raw, es, f, k - |staging|);
    }
  }

  /** No step of an issue takes another name's token out of its raw file. */
  lemma OthersStayInRaw(files: Files, dir: string, g: Grants, q: Request, f: Faults, hash: Hash, tokens: set<string>,
          other: string, k: nat)
    requires Represents(files, dir, g, hash) && Grounded(g, tokens) && Sound(hash, tokens) && Fresh(q, g, tokens)
    requires other != q.name && InRawFile(files, dir, other, hash) && k < |IssueSteps(files, dir, q, f, hash)|
    ensures InRawFile(IssueSteps(files, dir, q, f, hash)[k], dir, other, hash)
  {
    ReadBack(files, dir, g, hash, tokens);
    var es := ReadIndex(files, dir);
    var at := IssueSteps(files, dir, q, f, hash)[k];
    EntriesAreStorable(es, g, hash, tokens);
    OthersNeverChange(files, dir, q, f, hash, other, k);
    PublishIndexStates(files, dir, q, NextEntries(es, q, hash), f, k);
    if SameAt(files, at, IndexPath(dir)) {
      SameIndexSameHash(files, at, dir, other);
    } else {
      NextIsStorable(es, q, hash);
      IndexRoundTrip(at, dir, NextEntries(es, q, hash));
      HashOfNext(es, q, hash, other);
    }
    InRawStays(files, at, dir, other, hash);
  }

  /** The name's own raw file after a call that committed. */
  lemma CommittedRaw(files: Files, dir: string, q: Request, es: seq<Entry>, f: Faults)
    requires q.token.Some? && IndexWritten(f) && (f.stage.Full? || f.stage.ShortUnseen?)
    ensures var end, raw := After(files, PublishSteps(files, dir, q, es, f)), RawPath(dir, q.name);
            !f.promote && !f.promoteAgain ==> SameAt(files, end, raw)
  {
    var side, raw, staging := NewPath(dir, q.name), RawPath(dir, q.name), Staging(files, dir, q, f);
    var staged := After(files, staging);
    var writing := WriteIndexSteps(staged, dir, es, f);
    var indexed := After(staged, writing);
    PathsAreDistinct(dir, q.name, q.name);
    StagedIsAsBefore(files, dir, q, f);
    WriteIndexEffect(staged, dir, es, f);
    assert SameAt(staged, indexed, raw);
    Chain(files, [], staging, writing, PromoteSteps(indexed, side, raw, f));
  }

  /** An issue leaves its own name's token in the raw file if and only if it did not
      commit, or its staging and its promotion worked. */
  lemma InRawExactlyWhen(files: Files, dir: string, g: Grants, q: Request, f: Faults, hash: Hash, tokens: set<string>)
    requires Represents(files, dir, g, hash) && Grounded(g, tokens) && Sound(hash, tokens) && Fresh(q, g, tokens)
    requires InRawFile(files, dir, q.name, hash) && !Refused(files, dir, q)
    ensures Settles(f) ==> InRawFile(After(files, IssueSteps(files, dir, q, f, hash)), dir, q.name, hash)
    ensures !Settles(f) && !HoldsToken(files, RawPath(dir, q.name), hash(q.token.value), hash)
            ==> !InRawFile(After(files, IssueSteps(files, dir, q, f, hash)), dir, q.name, hash)
  {
    ReadBack(files, dir, g, hash, tokens);
    var es := ReadIndex(files, dir);
    EntriesAreStorable(es, g, hash, tokens);
    var steps, next := IssueSteps(files, dir, q, f, hash), NextEntries(es, q, hash);
    var end := After(files, steps);
    if IndexWritten(f) && (f.stage.Full? || f.stage.ShortUnseen?) {
      IssuedEnds(files, dir, q, next, f);
      CommittedIsNew(end, dir, es, q, hash);
      CommittedRaw(files, dir, q, next, f);
      if Settles(f) { RawRoundTrip(end, RawPath(dir, q.name), q.name, q.token.value, q.issuedAt); }
    } else if steps != [] {
      NotCommitted(files, dir, q, next, f);
      SameIndexSameHash(files, end, dir, q.name);
      InRawStays(files, end, dir, q.name, hash);
    }
  }

  lemma NotCommitted(files: Files, dir: string, q: Request, es: seq<Entry>, f: Faults)
    requires q.token.Some? && !(IndexWritten(f) && (f.stage.Full? || f.stage.ShortUnseen?))
    ensures AsBefore(files, After(files, PublishSteps(files, dir, q, es, f)), dir, q.name)
  {
    var steps := PublishSteps(files, dir, q, es, f);
    if steps != [] {
      if IndexWritten(f) { StagingStates(files, dir, q, f, |steps| - 1); } else { UncommittedStates(files, dir, q, es, f, |steps| - 1); }
    }
  }

  // ---- A revoke ------------------------------------------------------------

  /** A revoke, stopped after any step and with any failures, leaves every name's token
      in its raw file, and takes the name out of the index before it removes the file. */
  lemma RevokeKeepsRaw(files: Files, dir: string, g: Grants, name: string, f: Faults, hash: Hash, tokens: set<string>,
          other: string, k: nat)
    requires Represents(files, dir, g, hash) && Grounded(g, tokens) && Sound(hash, tokens)
    requires InRawFile(files, dir, other, hash) && k < |RevokeSteps(files, dir, name, f)|
    ensures InRawFile(RevokeSteps(files, dir, name, f)[k], dir, other, hash)
  {
    ReadBack(files, dir, g, hash, tokens);
    var es := ReadIndex(files, dir);
    var left, at := Without(es, name), RevokeSteps(files, dir, name, f)[k];
    EntriesAreStorable(es, g, hash, tokens);
    RevokeStates(files, dir, name, left, f, other, k);
    if SameAt(files, at, IndexPath(dir)) && SameAt(files, at, RawPath(dir, other)) {
      SameIndexSameHash(files, at, dir, other);
      InRawStays(files, at, dir, other, hash);
    } else {
      assert forall i | 0 <= i < |left| :: left[i] in es;
      IndexRoundTrip(at, dir, left);
      HashOfWithout(es, name, other);
      if other != name { InRawStays(files, at, dir, other, hash); }
    }
  }

  /** At every step of a revoke: the old index and raw file, or the index without the name. */
  lemma RevokeStates(files: Files, dir: string, name: string, left: seq<Entry>, f: Faults, other: string, k: nat)
    requires left == Without(ReadIndex(files, dir), name) && k < |RevokeSteps(files, dir, name, f)|
    ensures var at := RevokeSteps(files, dir, name, f)[k];
            && ((SameAt(files, at, IndexPath(dir)) && SameAt(files, at, RawPath(dir, other))) || IndexHolds(at, dir, left))
            && (other != name ==> SameAt(files, at, RawPath(dir, other)))
  {
    var writing := WriteIndexSteps(files, dir, left, f);
    PathsAreDistinct(dir, name, other);
    PathsAreDistinct(dir, other, name);
    if k < |writing| {
      WritingStates(files, dir, left, f, k);
      assert SameAt(files, writing[k], RawPath(dir, other));
    } else {
      RawRemoved(files, dir, left, f, RawPath(dir, name), RawPath(dir, other));
    }
  }

  lemma RawRemoved(files: Files, dir: string, left: seq<Entry>, f: Faults, raw: string, other: string)
    requires IndexWritten(f) && raw != IndexPath(dir) && other != IndexPath(dir) && other != TempPath(dir)
    ensures var written := After(files, WriteIndexSteps(files, dir, left, f));
            IndexHolds(written - {raw}, dir, left) && (other != raw ==> SameAt(files, written - {raw}, other))
  {
    WriteIndexEffect(files, dir, left, f);
    assert SameAt(files, After(files, WriteIndexSteps(files, dir, left, f)), other);
  }

  // ---- Whole runs ----------------------------------------------------------

  /** Every step of a call leaves every name recoverable, unless the call commits a token
      whose staging failed unseen. */
  lemma StepIsRecoverable(files: Files, dir: string, g: Grants, c: Call, hash: Hash, tokens: set<string>, name: string, k: nat)
    requires Represents(files, dir, g, hash) && Grounded(g, tokens) && Sound(hash, tokens)
    requires c.Issue? ==> Fresh(c.q, g, tokens) && !LostUnseen(c.f)
    requires AllInRaw(files, dir, hash) && k < |Steps(files, dir, c, hash)|
    ensures Recoverable(Steps(files, dir, c, hash)[k], dir, name, hash)
  {
    match c {
      case Issue(q, f) =>
        if name == q.name {
          StoppedAnywhere(files, dir, g, q, f, hash, tokens, k);
        } else {
          OthersStayInRaw(files, dir, g, q, f, hash, tokens, name, k);
        }
      case Revoke(revoked, f) => RevokeKeepsRaw(files, dir, g, revoked, f, hash, tokens, name, k);
    }
  }

  lemma IssueKeepsName(files: Files, dir: string, g: Grants, q: Request, f: Faults, hash: Hash, tokens: set<string>, name: string)
    requires Represents(files, dir, g, hash) && Grounded(g, tokens) && Sound(hash, tokens) && Fresh(q, g, tokens)
    requires InRawFile(files, dir, name, hash) && Settles(f)
    ensures InRawFile(After(files, IssueSteps(files, dir, q, f, hash)), dir, name, hash)
  {
    var steps := IssueSteps(files, dir, q, f, hash);
    if steps != [] {
      if name == q.name {
        InRawExactlyWhen(files, dir, g, q, f, hash, tokens);
      } else {
        OthersStayInRaw(files, dir, g, q, f, hash, tokens, name, |steps| - 1);
      }
    }
  }

  lemma RevokeKeepsName(files: Files, dir: string, g: Grants, revoked: string, f: Faults, hash: Hash, tokens: set<string>, name: string)
    requires Represents(files, dir, g, hash) && Grounded(g, tokens) && Sound(hash, tokens)
    requires InRawFile(files, dir, name, hash)
    ensures InRawFile(After(files, RevokeSteps(files, dir, revoked, f)), dir, name, hash)
  {
    var steps := RevokeSteps(files, dir, revoked, f);
    if steps != [] { RevokeKeepsRaw(files, dir, g, revoked, f, hash, tokens, name, |steps| - 1); }
  }

  lemma CallKeepsRaw(files: Files, dir: string, g: Grants, c: Call, hash: Hash, tokens: set<string>)
    requires Represents(files, dir, g, hash) && Grounded(g, tokens) && Sound(hash, tokens)
    requires c.Issue? ==> Fresh(c.q, g, tokens)
    requires AllInRaw(files, dir, hash) && CallSettles(c)
    ensures AllInRaw(FilesAfter(files, dir, c, hash), dir, hash)
  {
    var after := FilesAfter(files, dir, c, hash);
    forall name: string ensures InRawFile(after, dir, name, hash) {
      match c {
        case Issue(q, f) => IssueKeepsName(files, dir, g, q, f, hash, tokens, name);
        case Revoke(revoked, f) => RevokeKeepsName(files, dir, g, revoked, f, hash, tokens, name);
      }
    }
  }

  lemma {:induction false} RunKeepsRaw(files: Files, dir: string, g: Grants, calls: seq<Call>, hash: Hash, tokens: set<string>)
    requires Represents(files, dir, g, hash) && Grounded(g, tokens) && Sound(hash, tokens)
    requires FreshRun(files, dir, g, calls, hash, tokens)
    requires AllInRaw(files, dir, hash) && forall c <- calls :: CallSettles(c)
    ensures AllInRaw(RunFiles(files, dir, calls, hash), dir, hash)
    decreases |calls|
  {
    if calls != [] {
      var c := calls[0];
      CallKeepsRaw(files, dir, g, c, hash, tokens);
      match c {
        case Issue(q, f) => IssueRefines(files, dir, g, q, f, hash, tokens);
        case Revoke(name, f) => RevokeRefines(files, dir, g, name, f, hash, tokens);
      }
      RunKeepsRaw(FilesAfter(files, dir, c, hash), dir, GrantsAfter(files, dir, g, c), calls[1..], hash, tokens);
    }
  }

  /** From an empty directory: after any run whose commits were staged in full and
      promoted, stop one more call after any step. Whatever fails in it, short of a commit
      after a staging that failed unseen, the token of every name is still on disk. */
  lemma EveryTokenIsOnDisk(dir: string, calls: seq<Call>, last: Call, hash: Hash, tokens: set<string>, name: string, k: nat)
    requires Sound(hash, tokens) && FreshRun(map[], dir, map[], calls, hash, tokens)
    requires forall c <- calls :: CallSettles(c)
    requires last.Issue? ==> Fresh(last.q, RunGrants(map[], dir, map[], calls, hash), tokens) && !LostUnseen(last.f)
    requires k < |Steps(RunFiles(map[], dir, calls, hash), dir, last, hash)|
    ensures Recoverable(Steps(RunFiles(map[], dir, calls, hash), dir, last, hash)[k], dir, name, hash)
  {
    var files, g := RunFiles(map[], dir, calls, hash), RunGrants(map[], dir, map[], calls, hash);
    StoreIsAMap(map[], dir, map[], calls, hash, tokens);
    RunKeepsRaw(map[], dir, map[], calls, hash, tokens);
    StepIsRecoverable(files, dir, g, last, hash, tokens, name, k);
  }
}

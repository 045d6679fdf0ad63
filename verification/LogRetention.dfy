/** Keeping a bounded number of session logs: what a start of the log sink deletes. */
module LogRetention {
  import opened Options
  import opened Orders

  /** A directory entry; the time is absent when it cannot be read. */
  datatype File = File(regular: bool, time: Option<int>)

  type Dir = map<string, File>

  /** The log's name, split before its last dot. */
  datatype NameParts = NameParts(stem: string, ext: string)

  // ---- Names ---------------------------------------------------------------

  /** Where the last dot is; the length when there is none. */
  function LastDot(name: string): (n: nat)
    ensures n <= |name| && (n < |name| ==> name[n] == '.') && forall i | n < i < |name| :: name[i] != '.'
    ensures n == |name| ==> forall i | 0 <= i < |name| :: name[i] != '.'
  {
    if name == "" then 0
    else if name[|name| - 1] == '.' then |name| - 1
    else
      var n := LastDot(name[..|name| - 1]);
      if n == |name| - 1 then |name| else n
  }

  /** A leading dot starts no extension, and ".." has none. */
  function SplitName(name: string): (p: NameParts)
    ensures p.stem + p.ext == name
    ensures p.ext == "" || p.ext[0] == '.'
  {
    var n := LastDot(name);
    if n == |name| || n == 0 || name == ".." then NameParts(name, "") else NameParts(name[..n], name[n..])
  }

  /** The name of the log that a session writes. */
  function StampedName(file: string, stamp: string): string {
    SplitName(file).stem + "_" + stamp + SplitName(file).ext
  }

  predicate Candidate(name: string, parts: NameParts) {
    && |parts.stem| + 1 <= |name| && name[..|parts.stem| + 1] == parts.stem + "_"
    && (parts.ext == "" || SplitName(name).ext == parts.ext)
  }

  /** The stable name itself is never a candidate. */
  lemma StableNameIsNoCandidate(file: string)
    ensures !Candidate(file, SplitName(file))
  {
    var p := SplitName(file);
    if p.ext != "" {
      assert file[|p.stem|] == '.';
      assert (p.stem + "_")[|p.stem|] == '_';
    }
  }

  /** The log that a session writes is one, whatever the stamp. */
  lemma StampedIsCandidate(file: string, stamp: string)
    ensures Candidate(StampedName(file, stamp), SplitName(file))
  {
    var p, name := SplitName(file), StampedName(file, stamp);
    assert name[..|p.stem| + 1] == p.stem + "_";
    if p.ext != "" {
      var n := |p.stem| + 1 + |stamp|;
      assert LastDot(file) == |p.stem| && file[|p.stem|..] == p.ext;
      assert name[n..] == p.ext;
      LastDotIs(name, n);
      assert |name| >= 3;
    }
  }

  lemma {:induction false} LastDotIs(name: string, n: nat)
    requires n < |name| && name[n] == '.' && forall i | n < i < |name| :: name[i] != '.'
    ensures LastDot(name) == n
    decreases |name|
  {
    if n < |name| - 1 { LastDotIs(name[..|name| - 1], n); }
  }

  /** A name is one exactly if it starts with the stem and an underscore and, if the log
      has an extension, ends in the same one. */
  lemma CandidateExactlyWhen(name: string, file: string)
    ensures var p := SplitName(file);
            Candidate(name, p) <==> (exists rest :: name == p.stem + "_" + rest) && (p.ext != "" ==> SplitName(name).ext == p.ext)
  {
    var p := SplitName(file);
    if Candidate(name, p) { assert name == p.stem + "_" + name[|p.stem| + 1..]; }
  }

  // ---- Sorting by time -----------------------------------------------------

  datatype Entry = Entry(name: string, time: int)

  predicate Sorted(es: seq<Entry>) {
    forall i, j | 0 <= i < j < |es| :: es[i].time <= es[j].time
  }

  function Insert(e: Entry, es: seq<Entry>): (r: seq<Entry>)
    ensures multiset(r) == multiset(es) + multiset{e}
  {
    if es == [] || e.time <= es[0].time then [e] + es
    else
      assert es == [es[0]] + es[1..];
      [es[0]] + Insert(e, es[1..])
  }

  /** `std::sort`; the order among equal times is one of the possible ones. */
  function SortedByTime(es: seq<Entry>): (r: seq<Entry>)
    ensures multiset(r) == multiset(es)
  {
    if es == [] then []
    else
      assert es == [es[0]] + es[1..];
      Insert(es[0], SortedByTime(es[1..]))
  }

  lemma SortKeepsLength(es: seq<Entry>)
    ensures |SortedByTime(es)| == |es|
  {
    assert |SortedByTime(es)| == |multiset(SortedByTime(es))| == |multiset(es)|;
  }

  lemma {:induction false} InsertSorted(e: Entry, es: seq<Entry>)
    requires Sorted(es)
    ensures Sorted(Insert(e, es))
  {
    if es != [] && e.time > es[0].time {
      InsertSorted(e, es[1..]);
      var rest := Insert(e, es[1..]);
      forall i | 0 <= i < |rest| ensures es[0].time <= rest[i].time {
        assert rest[i] in multiset(rest);
        assert rest[i] == e || rest[i] in es[1..];
      }
    }
  }

  lemma {:induction false} SortSorts(es: seq<Entry>)
    ensures Sorted(SortedByTime(es))
  {
    if es != [] {
      SortSorts(es[1..]);
      InsertSorted(es[0], SortedByTime(es[1..]));
    }
  }

  // ---- Pruning -------------------------------------------------------------

  predicate Prunable(dir: Dir, name: string, parts: NameParts) {
    name in dir && dir[name].regular && dir[name].time.Some? && Candidate(name, parts)
  }

  /** The candidates, in the order the directory is read. */
  function Found(dir: Dir, order: seq<string>, parts: NameParts): seq<Entry> {
    if order == [] then []
    else
      Found(dir, order[..|order| - 1], parts) +
      (if Prunable(dir, order[|order| - 1], parts) then [Entry(order[|order| - 1], dir[order[|order| - 1]].time.value)] else [])
  }

  /** Removing files; `works` says which removals succeed. */
  function RemoveAll(dir: Dir, es: seq<Entry>, works: string -> bool): Dir {
    if es == [] then dir
    else
      var rest := RemoveAll(dir, es[..|es| - 1], works);
      if works(es[|es| - 1].name) then rest - {es[|es| - 1].name} else rest
  }

  function Pruned(dir: Dir, order: seq<string>, parts: NameParts, keep: nat, works: string -> bool): Dir {
    var found := Found(dir, order, parts);
    if |found| <= keep then dir
    else
      SortKeepsLength(found);
      RemoveAll(dir, SortedByTime(found)[..|found| - keep], works)
  }

  /** The new log is opened, and the stable name pointed at it. Removing what was at the
      stable name may fail, and the link is then not made. */
  function Opened(dir: Dir, file: string, stamp: string, works: string -> bool, newest: File): Dir {
    var current := dir[StampedName(file, stamp) := newest];
    if works(file) then (current - {file})[file := File(true, newest.time)] else current
  }

  /** The directory after a start: old logs pruned, then the new log and the stable name. */
  function Started(dir: Dir, order: seq<string>, file: string, stamp: string, maxFiles: nat, works: string -> bool,
          newest: File): Dir {
    var pruned := if maxFiles > 0 then Pruned(dir, order, SplitName(file), maxFiles - 1, works) else dir;
    Opened(pruned, file, stamp, works, newest)
  }

  class LogDirectory {
    var files: Dir

    constructor (files: Dir)
      ensures this.files == files
    {
      this.files := files;
    }

    /** The candidates and their times, in the order the directory is read. */
    method FindLogs(order: seq<string>, parts: NameParts) returns (found: seq<Entry>)
      ensures found == Found(files, order, parts)
    {
      found := [];
      var i := 0;
      while i < |order|
        invariant 0 <= i <= |order|
        invariant found == Found(files, order[..i], parts)
      {
        assert order[..i + 1][..i] == order[..i];
        if Prunable(files, order[i], parts) {
          found := found + [Entry(order[i], files[order[i]].time.value)];
        }
        i := i + 1;
      }
      assert order[..i] == order;
    }

    method RemoveLogs(doomed: seq<Entry>, works: string -> bool)
      modifies this
      ensures files == RemoveAll(old(files), doomed, works)
    {
      var i := 0;
      while i < |doomed|
        invariant 0 <= i <= |doomed|
        invariant files == RemoveAll(old(files), doomed[..i], works)
      {
        assert doomed[..i + 1][..i] == doomed[..i];
        if works(doomed[i].name) { files := files - {doomed[i].name}; }
        i := i + 1;
      }
      assert doomed[..i] == doomed;
    }

    method PruneOldLogs(order: seq<string>, parts: NameParts, keep: nat, works: string -> bool)
      modifies this
      ensures files == Pruned(old(files), order, parts, keep, works)
    {
      var found := FindLogs(order, parts);
      if |found| <= keep { return; }
      SortKeepsLength(found);
      RemoveLogs(SortedByTime(found)[..|found| - keep], works);
    }

    method Start(order: seq<string>, file: string, stamp: string, maxFiles: nat, works: string -> bool, newest: File)
      modifies this
      ensures files == Started(old(files), order, file, stamp, maxFiles, works, newest)
    {
      var parts := SplitName(file);
      if maxFiles > 0 { PruneOldLogs(order, parts, maxFiles - 1, works); }
      files := files[StampedName(file, stamp) := newest];
      if works(file) {
        files := files - {file};
        files := files[file := File(true, newest.time)];
      }
    }
  }

  // ---- What pruning leaves -------------------------------------------------

  predicate DistinctNames(es: seq<Entry>) {
    forall i, j | 0 <= i < j < |es| :: es[i].name != es[j].name
  }

  predicate Named(es: seq<Entry>, n: string) {
    exists i | 0 <= i < |es| :: es[i].name == n
  }

  function NamesOf(es: seq<Entry>): set<string> {
    if es == [] then {} else NamesOf(es[..|es| - 1]) + {es[|es| - 1].name}
  }

  lemma NamedLast(es: seq<Entry>, n: string)
    requires es != []
    ensures Named(es, n) <==> Named(es[..|es| - 1], n) || es[|es| - 1].name == n
  {
    var front := es[..|es| - 1];
    if Named(front, n) {
      var i :| 0 <= i < |front| && front[i].name == n;
      assert es[i].name == n;
    }
    if Named(es, n) && es[|es| - 1].name != n {
      var i :| 0 <= i < |es| && es[i].name == n;
      assert front[i].name == n;
    }
  }

  lemma {:induction false} NamesAre(es: seq<Entry>, n: string)
    ensures n in NamesOf(es) <==> Named(es, n)
  {
    if es != [] {
      NamedLast(es, n);
      NamesAre(es[..|es| - 1], n);
    }
  }

  lemma {:induction false} NamesCounted(es: seq<Entry>)
    requires DistinctNames(es)
    ensures |NamesOf(es)| == |es|
  {
    if es != [] {
      NamesCounted(es[..|es| - 1]);
      NamesAre(es[..|es| - 1], es[|es| - 1].name);
    }
  }

  /** Entries that come from the directory. */
  predicate FromDir(dir: Dir, es: seq<Entry>) {
    forall i | 0 <= i < |es| :: es[i].name in dir && dir[es[i].name].time == Some(es[i].time)
  }

  lemma {:induction false} FoundNames(dir: Dir, order: seq<string>, parts: NameParts, n: string)
    ensures Named(Found(dir, order, parts), n) <==> n in order && Prunable(dir, n, parts)
  {
    if order != [] {
      var front, last := order[..|order| - 1], order[|order| - 1];
      assert n in order <==> n in front || n == last;
      FoundNames(dir, front, parts, n);
      if Prunable(dir, last, parts) {
        var es := Found(dir, order, parts);
        assert es[..|es| - 1] == Found(dir, front, parts);
        NamedLast(es, n);
      } else {
        assert Found(dir, order, parts) == Found(dir, front, parts);
      }
    }
  }

  /** The listed candidates are there, each once, with their times. */
  lemma {:induction false} FoundIs(dir: Dir, order: seq<string>, parts: NameParts)
    requires Distinct(order)
    ensures DistinctNames(Found(dir, order, parts)) && FromDir(dir, Found(dir, order, parts))
  {
    if order != [] {
      var front, last := order[..|order| - 1], order[|order| - 1];
      FoundIs(dir, front, parts);
      FoundNames(dir, front, parts, last);
      assert last !in front;
    }
  }

  // ---- Sorting keeps the candidates, each once -----------------------------

  lemma TwiceInMultiset(s: seq<Entry>, i: nat, j: nat)
    requires i < j < |s| && s[i] == s[j]
    ensures multiset(s)[s[i]] >= 2
  {
    assert s == s[..j] + [s[j]] + s[j + 1..];
    assert s[i] in s[..j];
    assert s[i] in multiset(s[..j]);
  }

  lemma {:induction false} OnceInMultiset(s: seq<Entry>, e: Entry)
    requires DistinctNames(s)
    ensures multiset(s)[e] <= 1
  {
    if s != [] {
      OnceInMultiset(s[..|s| - 1], e);
      assert s == s[..|s| - 1] + [s[|s| - 1]];
      if e in multiset(s[..|s| - 1]) {
        assert e in s[..|s| - 1];
      }
    }
  }

  lemma SameMembers(a: seq<Entry>, b: seq<Entry>)
    requires multiset(a) == multiset(b)
    ensures |a| == |b| && forall e :: e in a <==> e in b
  {
    assert |a| == |multiset(a)| && |b| == |multiset(b)|;
    forall e ensures e in a <==> e in b {
      assert e in a <==> e in multiset(a);
      assert e in b <==> e in multiset(b);
    }
  }

  lemma SortKeepsEntries(dir: Dir, es: seq<Entry>)
    requires FromDir(dir, es)
    ensures |SortedByTime(es)| == |es| && FromDir(dir, SortedByTime(es))
  {
    SameMembers(SortedByTime(es), es);
    var s := SortedByTime(es);
    forall i | 0 <= i < |s| ensures s[i].name in dir && dir[s[i].name].time == Some(s[i].time) {
      assert s[i] in es;
    }
  }

  lemma SortKeepsNames(es: seq<Entry>, n: string)
    ensures Named(SortedByTime(es), n) <==> Named(es, n)
  {
    var s := SortedByTime(es);
    SameMembers(s, es);
    if Named(es, n) {
      var i :| 0 <= i < |es| && es[i].name == n;
      assert es[i] in s;
    }
    if Named(s, n) {
      var i :| 0 <= i < |s| && s[i].name == n;
      assert s[i] in es;
    }
  }

  /** Entries of a directory with the same name are the same. */
  lemma SortKeepsDistinct(dir: Dir, es: seq<Entry>)
    requires DistinctNames(es) && FromDir(dir, es)
    ensures DistinctNames(SortedByTime(es))
  {
    SortKeepsEntries(dir, es);
    var s := SortedByTime(es);
    forall i, j | 0 <= i < j < |s| ensures s[i].name != s[j].name {
      if s[i] == s[j] {
        TwiceInMultiset(s, i, j);
        OnceInMultiset(es, s[i]);
      }
    }
  }

  // ---- What pruning leaves -------------------------------------------------

  lemma {:induction false} RemovedExactly(dir: Dir, es: seq<Entry>, works: string -> bool, n: string)
    ensures var p := RemoveAll(dir, es, works);
            && (n in p <==> n in dir && !(Named(es, n) && works(n)))
            && (n in p ==> p[n] == dir[n])
  {
    if es != [] {
      NamedLast(es, n);
      RemovedExactly(dir, es[..|es| - 1], works, n);
    }
  }

  lemma NamedPrefix(es: seq<Entry>, k: nat, n: string)
    requires k <= |es| && Named(es[..k], n)
    ensures Named(es, n)
  {
    var i :| 0 <= i < k && es[..k][i].name == n;
    assert es[i].name == n;
  }

  /** Nothing but candidates is ever removed, whichever removals fail. */
  lemma PruneTouchesCandidatesOnly(dir: Dir, order: seq<string>, parts: NameParts, keep: nat,
          works: string -> bool, n: string)
    ensures var p := Pruned(dir, order, parts, keep, works);
            && (n in p ==> n in dir && p[n] == dir[n])
            && (n in dir && !Prunable(dir, n, parts) ==> n in p)
  {
    var found := Found(dir, order, parts);
    if |found| > keep {
      SameMembers(SortedByTime(found), found);
      var doomed := SortedByTime(found)[..|found| - keep];
      RemovedExactly(dir, doomed, works, n);
      if Named(doomed, n) {
        NamedPrefix(SortedByTime(found), |found| - keep, n);
        SortKeepsNames(found, n);
        FoundNames(dir, order, parts, n);
      }
    }
  }

  ghost function Prunables(dir: Dir, parts: NameParts): set<string> {
    set n | n in dir && Prunable(dir, n, parts)
  }

  ghost predicate AllWork(works: string -> bool) {
    forall n :: works(n)
  }

  lemma NamedSplit(s: seq<Entry>, k: nat, n: string)
    requires k <= |s| && DistinctNames(s)
    ensures Named(s[k..], n) <==> Named(s, n) && !Named(s[..k], n)
  {
    if Named(s[k..], n) {
      var j :| 0 <= j < |s| - k && s[k..][j].name == n;
      assert s[k + j].name == n;
      forall i | 0 <= i < k ensures s[..k][i].name != n {
        assert s[i].name != s[k + j].name;
      }
    }
    if Named(s, n) && !Named(s[..k], n) {
      forall i | 0 <= i < k ensures s[i].name != n {
        assert s[..k][i].name != n;
      }
      var i :| 0 <= i < |s| && s[i].name == n;
      assert s[k..][i - k].name == n;
    }
  }

  /** The candidates after removing the first k of a complete list. */
  lemma LeftOver(dir: Dir, s: seq<Entry>, k: nat, parts: NameParts, works: string -> bool)
    requires k <= |s| && DistinctNames(s) && AllWork(works)
    requires forall n :: Named(s, n) <==> Prunable(dir, n, parts)
    ensures Prunables(RemoveAll(dir, s[..k], works), parts) == NamesOf(s[k..])
    ensures |Prunables(RemoveAll(dir, s[..k], works), parts)| == |s| - k
  {
    var p := RemoveAll(dir, s[..k], works);
    forall n ensures n in Prunables(p, parts) <==> n in NamesOf(s[k..]) {
      RemovedExactly(dir, s[..k], works, n);
      NamedSplit(s, k, n);
      NamesAre(s[k..], n);
    }
    NamesCounted(s[k..]);
  }

  lemma OlderGoFirst(dir: Dir, s: seq<Entry>, k: nat, works: string -> bool, gone: string, kept: string)
    requires k <= |s| && DistinctNames(s) && Sorted(s) && FromDir(dir, s) && AllWork(works)
    requires Named(s, gone) && Named(s, kept)
    requires gone !in RemoveAll(dir, s[..k], works) && kept in RemoveAll(dir, s[..k], works)
    ensures gone in dir && kept in dir && dir[gone].time.Some? && dir[kept].time.Some?
            && dir[gone].time.value <= dir[kept].time.value
  {
    RemovedExactly(dir, s[..k], works, gone);
    RemovedExactly(dir, s[..k], works, kept);
    NamedSplit(s, k, kept);
    var g :| 0 <= g < |s| && s[g].name == gone;
    var i :| 0 <= i < k && s[..k][i].name == gone;
    var j :| 0 <= j < |s| - k && s[k..][j].name == kept;
    assert s[i].name == gone && s[k + j].name == kept && s[i].time <= s[k + j].time;
  }

  /** The sorted candidates: all of them, each once, oldest first. */
  ghost predicate AllInOrder(dir: Dir, s: seq<Entry>, parts: NameParts) {
    && DistinctNames(s) && Sorted(s) && FromDir(dir, s)
    && (forall n :: Named(s, n) <==> Prunable(dir, n, parts))
  }

  lemma SortedFound(dir: Dir, order: seq<string>, parts: NameParts)
    requires Lists(order, dir.Keys)
    ensures AllInOrder(dir, SortedByTime(Found(dir, order, parts)), parts)
    ensures |SortedByTime(Found(dir, order, parts))| == |Found(dir, order, parts)|
  {
    var found := Found(dir, order, parts);
    FoundIs(dir, order, parts);
    SortKeepsEntries(dir, found);
    SortKeepsDistinct(dir, found);
    SortSorts(found);
    forall n ensures Named(SortedByTime(found), n) <==> Prunable(dir, n, parts) {
      FoundNames(dir, order, parts, n);
      SortKeepsNames(found, n);
    }
  }

  lemma CandidatesCounted(dir: Dir, s: seq<Entry>, parts: NameParts)
    requires AllInOrder(dir, s, parts)
    ensures |Prunables(dir, parts)| == |s|
  {
    NamesCounted(s);
    forall n ensures n in NamesOf(s) <==> n in Prunables(dir, parts) {
      NamesAre(s, n);
    }
    assert NamesOf(s) == Prunables(dir, parts);
  }

  /** When every removal works, as many candidates stay as are allowed. */
  lemma PruneBounds(dir: Dir, order: seq<string>, parts: NameParts, keep: nat, works: string -> bool)
    requires Lists(order, dir.Keys) && AllWork(works)
    ensures var p, all := Pruned(dir, order, parts, keep, works), Prunables(dir, parts);
            |Prunables(p, parts)| == if |all| <= keep then |all| else keep
  {
    var s := SortedByTime(Found(dir, order, parts));
    SortedFound(dir, order, parts);
    CandidatesCounted(dir, s, parts);
    if |s| > keep { LeftOver(dir, s, |s| - keep, parts, works); }
  }

  /** And none that went is newer than one that stayed. */
  lemma PruneKeepsNewest(dir: Dir, order: seq<string>, parts: NameParts, keep: nat, works: string -> bool,
          gone: string, kept: string)
    requires Lists(order, dir.Keys) && AllWork(works)
    requires Prunable(dir, gone, parts) && Prunable(dir, kept, parts)
    requires gone !in Pruned(dir, order, parts, keep, works) && kept in Pruned(dir, order, parts, keep, works)
    ensures dir[gone].time.value <= dir[kept].time.value
  {
    var s := SortedByTime(Found(dir, order, parts));
    SortedFound(dir, order, parts);
    assert |s| > keep;
    OlderGoFirst(dir, s, |s| - keep, works, gone, kept);
  }

  // ---- What a start leaves -------------------------------------------------

  ghost function StampedLogs(dir: Dir, parts: NameParts): set<string> {
    set n | n in dir && dir[n].regular && Candidate(n, parts)
  }

  /** Stamped logs whose time cannot be read: pruning neither counts nor removes them. */
  ghost function Unreadable(dir: Dir, parts: NameParts): set<string> {
    set n | n in dir && dir[n].regular && Candidate(n, parts) && dir[n].time.None?
  }

  /** Nothing but readable candidates went, and nothing changed. */
  ghost predicate OnlyCandidatesWent(dir: Dir, pruned: Dir, parts: NameParts) {
    && (forall n <- pruned :: n in dir && pruned[n] == dir[n])
    && (forall n <- dir :: !Prunable(dir, n, parts) ==> n in pruned)
  }

  lemma PrunedIsPart(dir: Dir, order: seq<string>, parts: NameParts, keep: nat, works: string -> bool)
    ensures OnlyCandidatesWent(dir, Pruned(dir, order, parts, keep, works), parts)
  {
    forall n { PruneTouchesCandidatesOnly(dir, order, parts, keep, works, n); }
  }

  /** The stamped logs left are the candidates that stayed and the unreadable ones. */
  lemma LeftCounted(dir: Dir, pruned: Dir, parts: NameParts)
    requires OnlyCandidatesWent(dir, pruned, parts)
    ensures |StampedLogs(pruned, parts)| == |Prunables(pruned, parts)| + |Unreadable(dir, parts)|
  {
    assert StampedLogs(pruned, parts) == Prunables(pruned, parts) + Unreadable(dir, parts);
    DisjointCounted(Prunables(pruned, parts), Unreadable(dir, parts));
  }

  lemma DisjointCounted(a: set<string>, b: set<string>)
    requires a !! b
    ensures |a + b| == |a| + |b|
  {
  }

  lemma WithoutOne(a: set<string>, name: string)
    ensures |a| == |a - {name}| + if name in a then 1 else 0
  {
    if name in a { assert a == (a - {name}) + {name}; } else { assert a == a - {name}; }
  }

  lemma StampedIsNotStable(file: string, stamp: string)
    ensures StampedName(file, stamp) != file
  {
    assert |StampedName(file, stamp)| > |file|;
  }

  /** What opening the new log leaves at one name. */
  lemma OpenedAt(dir: Dir, file: string, stamp: string, works: string -> bool, newest: File, n: string)
    requires n != file
    ensures var after, name := Opened(dir, file, stamp, works, newest), StampedName(file, stamp);
            if n == name then n in after && after[n] == newest
            else (n in after <==> n in dir) && (n in after ==> after[n] == dir[n])
  {
  }

  lemma OpenedLogs(dir: Dir, file: string, stamp: string, works: string -> bool, newest: File, n: string)
    ensures var parts, name := SplitName(file), StampedName(file, stamp);
            n in StampedLogs(Opened(dir, file, stamp, works, newest), parts)
            <==> if n == name then newest.regular && Candidate(n, parts) else n in StampedLogs(dir, parts)
  {
    if n == file {
      StableNameIsNoCandidate(file);
      StampedIsNotStable(file, stamp);
    } else {
      OpenedAt(dir, file, stamp, works, newest, n);
    }
  }

  /** Opening the new log adds one, unless its name was taken. */
  lemma OpenedCounted(dir: Dir, file: string, stamp: string, works: string -> bool, newest: File)
    ensures var parts, name := SplitName(file), StampedName(file, stamp);
            var before := StampedLogs(dir, parts);
            |StampedLogs(Opened(dir, file, stamp, works, newest), parts)|
            == |before| - (if name in before then 1 else 0) + (if newest.regular && Candidate(name, parts) then 1 else 0)
  {
    var parts, name := SplitName(file), StampedName(file, stamp);
    var before, after := StampedLogs(dir, parts), StampedLogs(Opened(dir, file, stamp, works, newest), parts);
    forall n ensures n in after <==> if n == name then newest.regular && Candidate(n, parts) else n in before {
      OpenedLogs(dir, file, stamp, works, newest, n);
    }
    assert before - {name} == after - {name};
    WithoutOne(before, name);
    WithoutOne(after, name);
  }

  /** After every start with a limit and working removals, at most that many stamped logs
      are there besides those whose time cannot be read. A new regular log under a name of
      its own makes it exact: everything is kept up to one below the limit. */
  lemma AtMostMaxFiles(dir: Dir, order: seq<string>, file: string, stamp: string, maxFiles: nat,
          works: string -> bool, newest: File)
    requires maxFiles > 0 && Lists(order, dir.Keys) && AllWork(works)
    ensures var parts, name := SplitName(file), StampedName(file, stamp);
            var logs := |StampedLogs(Started(dir, order, file, stamp, maxFiles, works, newest), parts)|;
            && logs <= maxFiles + |Unreadable(dir, parts)|
            && (newest.regular && name !in dir ==>
                  var all := |Prunables(dir, parts)|;
                  logs == (if all < maxFiles then all + 1 else maxFiles) + |Unreadable(dir, parts)|)
  {
    var pruned := PrunedBy(dir, order, SplitName(file), maxFiles - 1, works);
    LogsCounted(dir, pruned, file, stamp, maxFiles, works, newest);
  }

  /** The pruned directory, known by what matters of it. */
  lemma PrunedBy(dir: Dir, order: seq<string>, parts: NameParts, keep: nat, works: string -> bool) returns (pruned: Dir)
    requires Lists(order, dir.Keys) && AllWork(works)
    ensures pruned == Pruned(dir, order, parts, keep, works) && Counts(dir, pruned, parts, keep)
  {
    pruned := Pruned(dir, order, parts, keep, works);
    PruneBounds(dir, order, parts, keep, works);
    PrunedIsPart(dir, order, parts, keep, works);
  }

  /** Only candidates went, and as many stayed as are allowed. */
  ghost predicate Counts(dir: Dir, pruned: Dir, parts: NameParts, keep: nat) {
    var all := Prunables(dir, parts);
    OnlyCandidatesWent(dir, pruned, parts) && |Prunables(pruned, parts)| == if |all| <= keep then |all| else keep
  }

  lemma LogsCounted(dir: Dir, pruned: Dir, file: string, stamp: string, maxFiles: nat, works: string -> bool, newest: File)
    requires maxFiles > 0 && Counts(dir, pruned, SplitName(file), maxFiles - 1)
    ensures var parts, name := SplitName(file), StampedName(file, stamp);
            var logs := |StampedLogs(Opened(pruned, file, stamp, works, newest), parts)|;
            && logs <= maxFiles + |Unreadable(dir, parts)|
            && (newest.regular && name !in dir ==>
                  var all := |Prunables(dir, parts)|;
                  logs == (if all < maxFiles then all + 1 else maxFiles) + |Unreadable(dir, parts)|)
  {
    StampedIsCandidate(file, stamp);
    LeftCounted(dir, pruned, SplitName(file));
    OpenedCounted(pruned, file, stamp, works, newest);
  }

  /** A start touches nothing outside the stem and extension pattern but the stable name,
      whichever removals fail. */
  lemma OthersAreLeftAlone(dir: Dir, order: seq<string>, file: string, stamp: string, maxFiles: nat,
          works: string -> bool, newest: File, n: string)
    requires n in dir && !Candidate(n, SplitName(file)) && n != file
    requires n != StampedName(file, stamp)
    ensures var after := Started(dir, order, file, stamp, maxFiles, works, newest);
            n in after && after[n] == dir[n]
  {
    if maxFiles > 0 {
      PruneTouchesCandidatesOnly(dir, order, SplitName(file), maxFiles - 1, works, n);
    }
  }

  /** Whatever was at the stable name is replaced, be it a link or not, when it can be
      removed, and stays as it was when it cannot. */
  lemma StableNameIsReplaced(dir: Dir, order: seq<string>, file: string, stamp: string, maxFiles: nat,
          works: string -> bool, newest: File)
    ensures var after := Started(dir, order, file, stamp, maxFiles, works, newest);
            if works(file) then file in after && after[file] == File(true, newest.time)
            else (file in after <==> file in dir) && (file in after ==> after[file] == dir[file])
  {
    StampedIsNotStable(file, stamp);
    StableNameIsNoCandidate(file);
    if maxFiles > 0 {
      PruneTouchesCandidatesOnly(dir, order, SplitName(file), maxFiles - 1, works, file);
    }
  }
}

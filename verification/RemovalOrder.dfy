/** `plan` for a removal: the dependents of every named package, merged into one list.

    The package manager answers, for one package, with the list of everything that
    depends on it. The question is whether merging several such lists by "append what is
    not there yet" still puts every dependent before what it depends on. */
module RemovalOrder {
  import opened Options
  import opened Orders

  /** What the package manager answers for a package; no answer is a failed call. */
  type Resolver = string -> Option<seq<string>>

  datatype Plan = Victims(names: seq<string>) | NotInstalled(name: string) | Unresolved(name: string)

  /** The usable names of an answer: not empty, and not the package itself. */
  function Usable(answer: seq<string>, name: string): seq<string> {
    if answer == [] then []
    else
      var front, last := Usable(answer[..|answer| - 1], name), answer[|answer| - 1];
      if last != "" && last != name then front + [last] else front
  }

  /** `removalSet`: dependents first, the package last. */
  function RemovalSet(name: string, withDependents: bool, ask: Resolver): Option<seq<string>> {
    if !withDependents then Some([name])
    else match ask(name)
      case None => None
      case Some(answer) => Some(Usable(answer, name) + [name])
  }

  /** Append whatever is not there yet. */
  function Merge(acc: seq<string>, more: seq<string>): seq<string>
    decreases |more|
  {
    if more == [] then acc
    else Merge(if more[0] in acc then acc else acc + [more[0]], more[1..])
  }

  function PlanFrom(acc: seq<string>, names: seq<string>, installed: set<string>, withDependents: bool,
          ask: Resolver): Plan
    decreases |names|
  {
    if names == [] then Victims(acc)
    else if names[0] !in installed then NotInstalled(names[0])
    else match RemovalSet(names[0], withDependents, ask)
      case None => Unresolved(names[0])
      case Some(s) => PlanFrom(Merge(acc, s), names[1..], installed, withDependents, ask)
  }

  method PlanRemoval(names: seq<string>, installed: set<string>, withDependents: bool,
          ask: Resolver) returns (plan: Plan)
    ensures plan == PlanFrom([], names, installed, withDependents, ask)
  {
    var affected: seq<string> := [];
    var i := 0;
    while i < |names|
      invariant 0 <= i <= |names|
      invariant PlanFrom(affected, names[i..], installed, withDependents, ask)
             == PlanFrom([], names, installed, withDependents, ask)
    {
      assert names[i..][1..] == names[i + 1..];
      if names[i] !in installed { return NotInstalled(names[i]); }
      var removal := FindRemovalSet(names[i], withDependents, ask);
      if removal.None? { return Unresolved(names[i]); }
      affected := MergeInto(affected, removal.value);
      i := i + 1;
    }
    return Victims(affected);
  }

  method FindRemovalSet(name: string, withDependents: bool, ask: Resolver) returns (out: Option<seq<string>>)
    ensures out == RemovalSet(name, withDependents, ask)
  {
    if !withDependents { return Some([name]); }
    var answer := ask(name);
    if answer.None? { return None; }
    var kept := KeepUsable(answer.value, name);
    return Some(kept + [name]);
  }

  method KeepUsable(answer: seq<string>, name: string) returns (kept: seq<string>)
    ensures kept == Usable(answer, name)
  {
    kept := [];
    var i := 0;
    while i < |answer|
      invariant 0 <= i <= |answer|
      invariant kept == Usable(answer[..i], name)
    {
      assert answer[..i + 1][..i] == answer[..i];
      if answer[i] != "" && answer[i] != name { kept := kept + [answer[i]]; }
      i := i + 1;
    }
    assert answer[..i] == answer;
  }

  method MergeInto(affected: seq<string>, more: seq<string>) returns (out: seq<string>)
    ensures out == Merge(affected, more)
  {
    out := affected;
    var i := 0;
    while i < |more|
      invariant 0 <= i <= |more|
      invariant Merge(out, more[i..]) == Merge(affected, more)
    {
      assert more[i..][1..] == more[i + 1..];
      if more[i] !in out { out := out + [more[i]]; }
      i := i + 1;
    }
  }

  // ---- What the lists mean -------------------------------------------------

  /** `users(x)`: everything that depends on x, directly or not. */
  type Dependents = string -> set<string>

  ghost predicate Acyclic(users: Dependents) {
    && (forall x :: x !in users(x))
    && (forall x, y | y in users(x) :: users(y) <= users(x))
  }

  /** Dependents before what they depend on. */
  predicate DependentsFirst(s: seq<string>, users: Dependents) {
    forall i, j | 0 <= i < |s| && 0 <= j < |s| && s[i] in users(s[j]) :: i < j
  }

  ghost predicate ClosedUnder(s: seq<string>, users: Dependents) {
    forall x, y | x in s && y in users(x) :: y in s
  }

  /** A complete answer: all dependents and nothing else, listed dependents first. */
  ghost predicate Complete(answer: seq<string>, name: string, users: Dependents) {
    && (forall x :: x in Usable(answer, name) <==> x in users(name))
    && DependentsFirst(Usable(answer, name), users)
  }

  ghost predicate Truthful(ask: Resolver, users: Dependents) {
    forall n | ask(n).Some? :: Complete(ask(n).value, n, users)
  }

  lemma RemovalSetIsOrdered(name: string, ask: Resolver, users: Dependents)
    requires Acyclic(users) && Truthful(ask, users) && ask(name).Some?
    ensures var s := RemovalSet(name, true, ask).value;
            && DependentsFirst(s, users) && ClosedUnder(s, users)
            && forall x :: x in s <==> x == name || x in users(name)
  {
    var kept := Usable(ask(name).value, name);
    var s := kept + [name];
    assert Complete(ask(name).value, name, users);
    forall j | 0 <= j < |kept| ensures name !in users(kept[j]) {
      assert kept[j] in users(name);
    }
  }

  /** One merging step keeps the order: what is already listed brings its dependents
      along, so a newcomer never depends on it. */
  lemma {:induction false} MergeKeepsOrder(acc: seq<string>, more: seq<string>, users: Dependents)
    requires Distinct(acc) && DependentsFirst(acc, users) && DependentsFirst(more, users)
    requires forall i, j | 0 <= i < |acc| && 0 <= j < |more| && more[j] in users(acc[i]) :: more[j] in acc
    requires Acyclic(users)
    ensures Distinct(Merge(acc, more)) && DependentsFirst(Merge(acc, more), users)
    decreases |more|
  {
    if more != [] {
      var rest := more[1..];
      assert forall j | 0 <= j < |rest| :: rest[j] == more[j + 1];
      if more[0] in acc {
        MergeKeepsOrder(acc, rest, users);
      } else {
        AppendKeepsOrder(acc, more, users);
        MergeKeepsOrder(acc + [more[0]], rest, users);
      }
    }
  }

  lemma AppendKeepsOrder(acc: seq<string>, more: seq<string>, users: Dependents)
    requires more != [] && more[0] !in acc
    requires Distinct(acc) && DependentsFirst(acc, users) && DependentsFirst(more, users)
    requires forall i, j | 0 <= i < |acc| && 0 <= j < |more| && more[j] in users(acc[i]) :: more[j] in acc
    requires Acyclic(users)
    ensures var next, rest := acc + [more[0]], more[1..];
            && Distinct(next) && DependentsFirst(next, users) && DependentsFirst(rest, users)
            && forall i, j | 0 <= i < |next| && 0 <= j < |rest| && rest[j] in users(next[i]) :: rest[j] in next
  {
    var next, rest := acc + [more[0]], more[1..];
    assert forall j | 0 <= j < |rest| :: rest[j] == more[j + 1];
    forall j | 0 <= j < |rest| ensures rest[j] !in users(more[0]) {
      assert !(j + 1 < 0);
    }
  }

  lemma {:induction false} MergeMembers(acc: seq<string>, more: seq<string>)
    ensures forall x :: x in Merge(acc, more) <==> x in acc || x in more
    decreases |more|
  {
    if more != [] {
      assert forall x :: x in more <==> x == more[0] || x in more[1..];
      MergeMembers(if more[0] in acc then acc else acc + [more[0]], more[1..]);
    }
  }

  /** The removal order. If every answer is complete and lists dependents first, the
      merged list is free of duplicates, holds the named packages and their dependents
      and nothing else, is closed under dependents, and names every dependent before
      what it depends on. */
  lemma {:induction false} PlanOrder(acc: seq<string>, names: seq<string>, installed: set<string>, ask: Resolver,
          users: Dependents)
    requires Acyclic(users) && Truthful(ask, users)
    requires Distinct(acc) && DependentsFirst(acc, users) && ClosedUnder(acc, users)
    requires PlanFrom(acc, names, installed, true, ask).Victims?
    ensures var v := PlanFrom(acc, names, installed, true, ask).names;
            && Distinct(v) && DependentsFirst(v, users) && ClosedUnder(v, users)
            && (forall x :: x in v <==> x in acc || x in names || exists n <- names :: x in users(n))
    decreases |names|
  {
    if names != [] {
      RemovalSetIsOrdered(names[0], ask, users);
      var s := RemovalSet(names[0], true, ask).value;
      MergeKeepsOrder(acc, s, users);
      MergeMembers(acc, s);
      assert forall x :: x in names <==> x == names[0] || x in names[1..];
      PlanOrder(Merge(acc, s), names[1..], installed, ask, users);
    }
  }

  lemma RemovalPlan(names: seq<string>, installed: set<string>, ask: Resolver, users: Dependents)
    requires Acyclic(users) && Truthful(ask, users)
    requires PlanFrom([], names, installed, true, ask).Victims?
    ensures var v := PlanFrom([], names, installed, true, ask).names;
            && Distinct(v) && DependentsFirst(v, users) && ClosedUnder(v, users)
            && (forall x :: x in v <==> x in names || exists n <- names :: x in users(n))
  {
    PlanOrder([], names, installed, ask, users);
  }

  // ---- Without dependents --------------------------------------------------

  /** Each name once, where it is first mentioned. */
  function FirstMentions(names: seq<string>): seq<string> {
    if names == [] then []
    else
      var front, last := names[..|names| - 1], names[|names| - 1];
      if last in front then FirstMentions(front) else FirstMentions(front) + [last]
  }

  lemma {:induction false} MergeLast(acc: seq<string>, more: seq<string>, x: string)
    ensures Merge(acc, more + [x]) == if x in acc || x in more then Merge(acc, more) else Merge(acc, more) + [x]
    decreases |more|
  {
    if more == [] {
      assert more + [x] == [x];
    } else {
      assert (more + [x])[0] == more[0] && (more + [x])[1..] == more[1..] + [x];
      assert x in more <==> x == more[0] || x in more[1..];
      MergeLast(if more[0] in acc then acc else acc + [more[0]], more[1..], x);
    }
  }

  lemma {:induction false} MergeOfNothing(names: seq<string>)
    ensures Merge([], names) == FirstMentions(names)
    decreases |names|
  {
    if names != [] {
      var front, last := names[..|names| - 1], names[|names| - 1];
      MergeOfNothing(front);
      MergeLast([], front, last);
      assert front + [last] == names;
    }
  }

  lemma {:induction false} PlanIsMerge(acc: seq<string>, names: seq<string>, installed: set<string>, ask: Resolver)
    requires forall n <- names :: n in installed
    ensures PlanFrom(acc, names, installed, false, ask) == Victims(Merge(acc, names))
    decreases |names|
  {
    if names != [] {
      assert names[0] in names;
      var next := if names[0] in acc then acc else acc + [names[0]];
      assert RemovalSet(names[0], false, ask) == Some([names[0]]);
      assert Merge(next, [names[0]][1..]) == next;
      PlanIsMerge(next, names[1..], installed, ask);
    }
  }

  /** Without dependents the plan is the named packages, each once, in the order in which
      they were named; the resolver is not asked. */
  lemma NamedOnly(names: seq<string>, installed: set<string>, ask: Resolver)
    requires forall n <- names :: n in installed
    ensures PlanFrom([], names, installed, false, ask) == Victims(FirstMentions(names))
  {
    PlanIsMerge([], names, installed, ask);
    MergeOfNothing(names);
  }

  /** Of an answer exactly the empty names and the package itself are dropped. */
  lemma {:induction false} UsableIs(answer: seq<string>, name: string)
    ensures forall x :: x in Usable(answer, name) <==> x in answer && x != "" && x != name
    ensures "" !in answer && name !in answer ==> Usable(answer, name) == answer
  {
    if answer != [] {
      var front, last := answer[..|answer| - 1], answer[|answer| - 1];
      UsableIs(front, name);
      assert forall x :: x in answer <==> x in front || x == last;
      assert front + [last] == answer;
    }
  }

  predicate Plannable(names: seq<string>, installed: set<string>, withDependents: bool, ask: Resolver) {
    forall i | 0 <= i < |names| :: names[i] in installed && (withDependents ==> ask(names[i]).Some?)
  }

  /** A plan exists exactly when every name is installed and could be resolved. */
  lemma {:induction false} PlannedExactlyWhen(acc: seq<string>, names: seq<string>, installed: set<string>,
          withDependents: bool, ask: Resolver)
    ensures PlanFrom(acc, names, installed, withDependents, ask).Victims? <==> Plannable(names, installed, withDependents, ask)
    decreases |names|
  {
    if names != [] {
      assert forall i | 0 <= i < |names| - 1 :: names[1..][i] == names[i + 1];
      var s := RemovalSet(names[0], withDependents, ask);
      if names[0] in installed && s.Some? {
        PlannedExactlyWhen(Merge(acc, s.value), names[1..], installed, withDependents, ask);
      }
    }
  }

  /** Otherwise the first name that fails decides the error. */
  lemma {:induction false} FirstFailureDecides(acc: seq<string>, names: seq<string>, installed: set<string>,
          withDependents: bool, ask: Resolver, i: nat)
    requires i < |names| && Plannable(names[..i], installed, withDependents, ask)
    ensures names[i] !in installed ==> PlanFrom(acc, names, installed, withDependents, ask) == NotInstalled(names[i])
    ensures names[i] in installed && withDependents && ask(names[i]).None? ==>
              PlanFrom(acc, names, installed, withDependents, ask) == Unresolved(names[i])
    decreases i
  {
    if i > 0 {
      assert names[..i][0] == names[0];
      assert names[1..][..i - 1] == names[..i][1..];
      FirstFailureDecides(Merge(acc, RemovalSet(names[0], withDependents, ask).value), names[1..], installed, withDependents, ask, i - 1);
    }
  }
}

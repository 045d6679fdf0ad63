/** How a run of `apply` ends, in terms of the planned job and the calls that fail. */
module PackageOutcome {
  import opened Options
  import opened PackageGate
  import opened PackageProtocol

  /** The i-th gate of an install or upgrade is reached and stops the run. */
  predicate StopsAt(job: Job, o: Oracle, i: nat, step: Step) {
    var at, stops := GateAt(job, i), |Stopping(job)|;
    Reached(job, o, i) &&
    match step
    case Requesting => !o(at) || !o(at + 1)
    case Confirming => o(at) && o(at + 1) && !o(at + 2 + stops)
    case Installing => job.Local? && GateWorks(o, at, stops) && !o(at + 3 + stops)
    case _ => false
  }

  ghost predicate StopsFrom(job: Job, o: Oracle, n: nat, step: Step) {
    exists i :: n <= i < |Acts(job)| && StopsAt(job, o, i, step)
  }

  /** The install calls of `count` files, the first of them with call `at`. */
  predicate InstallsWork(o: Oracle, at: nat, count: nat) {
    forall i | at <= i < at + count :: o(i)
  }

  /** A download set was handed out, after all gates worked. */
  predicate Downloaded(job: Job, o: Oracle) {
    job.Catalog? && Reached(job, o, |job.names|) && job.fetched.Some?
  }

  /** The installations of the downloaded files, up to an entry with an error, worked. */
  predicate FetchedInstall(job: Job, o: Oracle)
    requires Downloaded(job, o)
  {
    InstallsWork(o, GateAt(job, |job.names|) + 1, |Usable(job.fetched.value)|)
  }

  predicate Succeeds(job: Job, o: Oracle) {
    match job
    case Removal(victims) => victims != [] && o(0) && o(1) && o(2 + |victims|)
    case Local(_, items, _) => Reached(job, o, |items|)
    case Catalog(_, _, fetched, _) => Downloaded(job, o) && Clean(fetched.value) && FetchedInstall(job, o)
  }

  ghost predicate FailsAt(job: Job, o: Oracle, step: Step) {
    match job
    case Removal(victims) => (
      match step
      case Planning => victims == []
      case Requesting => victims != [] && !o(0)
      case Acking => victims != [] && o(0) && !o(1)
      case Confirming => victims != [] && o(0) && o(1) && !o(2 + |victims|)
      case _ => false)
    case Local(_, _, _) => StopsFrom(job, o, 0, step)
    case Catalog(_, names, fetched, _) =>
      || StopsFrom(job, o, 0, step)
      || (step.Downloading? && Reached(job, o, |names|)
          && (fetched.None? || (!Clean(fetched.value) && FetchedInstall(job, o))))
      || (step.Installing? && Downloaded(job, o) && !FetchedInstall(job, o))
  }

  // ---- One gate ------------------------------------------------------------

  lemma GateStep(t: Trace, o: Oracle, act: Act, front: string, stops: seq<string>)
    ensures Approve(t, o, act, front, stops).1
         == if !o(|t|) || !o(|t| + 1) then Some(Requesting)
            else if !o(|t| + 2 + |stops|) then Some(Confirming) else None
  {
    if o(|t|) && o(|t| + 1) { UnloadsLength(t + [Request(act, true)] + [Ack(front, true)], stops); }
  }

  lemma StopsOnce(job: Job, o: Oracle, n: nat, here: Step)
    requires StopsAt(job, o, n, here)
    ensures !Reached(job, o, n + 1)
    ensures forall step :: StopsAt(job, o, n, step) <==> step == here
  {
  }

  lemma NoneReached(job: Job, o: Oracle, n: nat, i: nat)
    requires !Reached(job, o, n) && n <= i
    ensures !Reached(job, o, i)
  {
    if Reached(job, o, i) { ReachedBefore(job, o, n, i); }
  }

  /** A gate that stops the run is the last one reached. */
  lemma StopsHere(job: Job, o: Oracle, n: nat, here: Step)
    requires n < |Acts(job)| && StopsAt(job, o, n, here)
    ensures !Reached(job, o, |Acts(job)|)
    ensures forall step :: StopsFrom(job, o, n, step) <==> step == here
  {
    StopsOnce(job, o, n, here);
    NoneReached(job, o, n + 1, |Acts(job)|);
    forall i | n < i < |Acts(job)| ensures !Reached(job, o, i) { NoneReached(job, o, n + 1, i); }
  }

  /** Past a gate that works, the later ones decide. */
  lemma StopsLater(job: Job, o: Oracle, n: nat)
    requires n < |Acts(job)| && Reached(job, o, n + 1)
    ensures forall step :: StopsFrom(job, o, n, step) <==> StopsFrom(job, o, n + 1, step)
  {
    forall step ensures StopsFrom(job, o, n, step) <==> StopsFrom(job, o, n + 1, step) {
      assert !StopsAt(job, o, n, step);
    }
  }

  lemma StopsNowhere(job: Job, o: Oracle)
    ensures forall step :: !StopsFrom(job, o, |Acts(job)|, step)
  {
  }

  // ---- The three kinds of job ----------------------------------------------

  lemma {:induction false} LocalOutcome(job: Job, t: Trace, o: Oracle, n: nat, installed: seq<string>)
    requires job.Local? && n <= |job.items| && Reached(job, o, n) && |t| == GateAt(job, n)
    ensures var out := LocalRun(t, o, job.op, job.items[n..], job.toRestore, installed).outcome;
            && (out.Done? <==> Reached(job, o, |job.items|))
            && (forall step :: out == Failed(step) <==> StopsFrom(job, o, n, step))
    decreases |job.items| - n
  {
    if n == |job.items| {
      StopsNowhere(job, o);
    } else {
      var item := job.items[n];
      var act := Single(job.op, item.name);
      LocalUnfolds(t, o, job.op, job.items, n, job.toRestore, installed);
      GateStep(t, o, act, item.name, job.toRestore);
      ApproveByCalls(t, o, act, item.name, job.toRestore);
      var gated := Approve(t, o, act, item.name, job.toRestore);
      if Reached(job, o, n + 1) {
        StopsLater(job, o, n);
        LocalOutcome(job, gated.0 + [InstallFile(item.name, item.file, true)], o, n + 1, installed + [item.name]);
      } else {
        StopsHere(job, o, n, if gated.1.Some? then gated.1.value else Installing);
      }
    }
  }

  lemma {:induction false} GateAllOutcome(job: Job, t: Trace, o: Oracle, n: nat)
    requires job.Catalog? && n <= |job.names| && Reached(job, o, n) && |t| == GateAt(job, n)
    ensures var gated := GateAll(t, o, job.op, job.names[n..], job.toRestore);
            && (gated.1.None? <==> Reached(job, o, |job.names|))
            && (gated.1.None? ==> |gated.0| == GateAt(job, |job.names|))
            && (forall step :: gated.1 == Some(step) <==> StopsFrom(job, o, n, step))
    decreases |job.names| - n
  {
    if n == |job.names| {
      StopsNowhere(job, o);
    } else {
      var rest := job.names[n..];
      assert rest[0] == job.names[n] && rest[1..] == job.names[n + 1..];
      var act := Single(job.op, rest[0]);
      GateStep(t, o, act, rest[0], job.toRestore);
      ApproveByCalls(t, o, act, rest[0], job.toRestore);
      var gated := Approve(t, o, act, rest[0], job.toRestore);
      if Reached(job, o, n + 1) {
        StopsLater(job, o, n);
        GateAllOutcome(job, gated.0, o, n + 1);
      } else {
        StopsHere(job, o, n, gated.1.value);
      }
    }
  }

  lemma InstallsFirst(o: Oracle, at: nat, count: nat)
    requires count > 0
    ensures InstallsWork(o, at, count) <==> o(at) && InstallsWork(o, at + 1, count - 1)
  {
  }

  lemma {:induction false} FetchedOutcome(t: Trace, o: Oracle, fetched: seq<Fetched>, toRestore: seq<string>, installed: seq<string>)
    ensures var out, works := FetchedRun(t, o, fetched, toRestore, installed).outcome, InstallsWork(o, |t|, |Usable(fetched)|);
            if !works then out == Failed(Installing) else if Clean(fetched) then out.Done? else out == Failed(Downloading)
    decreases |fetched|
  {
    if fetched != [] && fetched[0].error == "" {
      var d, rest := fetched[0], fetched[1..];
      assert Clean(fetched) <==> Clean(rest) by {
        assert forall i | 1 <= i < |fetched| :: fetched[i] == rest[i - 1];
      }
      if d.path == "" {
        FetchedOutcome(t, o, rest, toRestore, installed);
      } else {
        InstallsFirst(o, |t|, |Usable(fetched)|);
        FetchedOutcome(t + [InstallFile(d.name, d.path, true)], o, rest, toRestore, installed + [d.name]);
      }
    }
  }

  lemma RemovalOutcome(o: Oracle, victims: seq<string>)
    requires victims != []
    ensures var out := RemovalRun([], o, victims).outcome;
            out == if !o(0) then Failed(Requesting) else if !o(1) then Failed(Acking)
                   else if !o(2 + |victims|) then Failed(Confirming) else Done([], victims, [])
  {
    RemovalTrace(o, victims);
    UnloadsLength([Request(Multi(victims), true), Ack(victims[0], true)], victims);
  }

  lemma CatalogOutcome(job: Job, o: Oracle)
    requires job.Catalog?
    ensures var out := RunOf([], o, job).outcome;
            && (out.Done? <==> Succeeds(job, o))
            && (forall step :: out == Failed(step) <==> FailsAt(job, o, step))
  {
    assert job.names[0..] == job.names;
    GateAllOutcome(job, [], o, 0);
    var gated := GateAll([], o, job.op, job.names, job.toRestore);
    if gated.1.None? {
      assert forall step :: !StopsFrom(job, o, 0, step);
      if job.fetched.Some? {
        FetchedOutcome(gated.0 + [Download(true)], o, job.fetched.value, job.toRestore, []);
      }
    }
  }

  /** For every job and every pattern of failures: a run succeeds exactly if the job can be
      done and every call that decides worked, and otherwise names the step of the call or
      of the download entry that stopped it. */
  lemma OutcomeExactlyWhen(job: Job, o: Oracle)
    ensures var out := RunOf([], o, job).outcome;
            && (out.Done? <==> Succeeds(job, o))
            && (forall step :: out == Failed(step) <==> FailsAt(job, o, step))
  {
    match job
    case Removal(victims) => if victims != [] { RemovalOutcome(o, victims); }
    case Local(_, items, _) =>
      assert items[0..] == items;
      LocalOutcome(job, [], o, 0, []);
    case Catalog(_, _, _, _) => CatalogOutcome(job, o);
  }

  /** So a download entry that reports an error always fails the run. */
  lemma DownloadErrorFails(job: Job, o: Oracle, k: nat)
    requires job.Catalog? && job.fetched.Some? && k < |job.fetched.value| && job.fetched.value[k].error != ""
    ensures RunOf([], o, job).outcome.Failed?
  {
    CatalogOutcome(job, o);
  }
}

/** What every run of `apply` keeps, whichever calls fail.

    The monitor below reads a trace event by event. It knows the planned job but not the
    code. The gate of the package manager holds one pending action at a time; a request
    whose answer is a failure may still have been accepted, so the monitor counts it as
    pending. */
module PackageProtocol {
  import opened Options
  import opened PackageGate
  import Orders
  import RemovalOrder

  // ---- The monitor ---------------------------------------------------------

  datatype Gate = Gate(pending: Option<Act>, acked: bool, stopped: nat, confirmed: nat, downloaded: bool,
                       installed: nat, refreshed: bool, loaded: nat, failed: bool, cancelled: bool)

  const IDLE := Gate(None, false, 0, 0, false, 0, false, 0, false, false)

  /** The actions to get through the gate, in order. */
  function Acts(job: Job): seq<Act> {
    match job
    case Removal(victims) => [Multi(victims)]
    case Local(op, items, _) => seq(|items|, i requires 0 <= i < |items| => Single(op, items[i].name))
    case Catalog(op, names, _, _) => seq(|names|, i requires 0 <= i < |names| => Single(op, names[i]))
  }

  /** The name that stands for an action when it is acknowledged. */
  function Front(act: Act): string {
    match act
    case Single(_, name) => name
    case Multi(names) => if names == [] then "" else names[0]
  }

  /** What has to be stopped before anything is confirmed. */
  function Stopping(job: Job): seq<string> {
    if job.Removal? then job.victims else job.toRestore
  }

  /** What is started again at the end. */
  function Restarting(job: Job): seq<string> {
    if job.Removal? then [] else job.toRestore
  }

  /** The files of a download set, up to the first entry that reports an error. */
  function Usable(fetched: seq<Fetched>): seq<Item> {
    if fetched == [] || fetched[0].error != "" then []
    else (if fetched[0].path == "" then [] else [Item(fetched[0].name, fetched[0].path)]) + Usable(fetched[1..])
  }

  function Files(job: Job): seq<Item> {
    match job
    case Removal(_) => []
    case Local(_, items, _) => items
    case Catalog(_, _, fetched, _) => if fetched.Some? then Usable(fetched.value) else []
  }

  predicate Allowed(job: Job, g: Gate, e: Event) {
    match e
    case Request(act, _) =>
      // one action at a time, in order, and never while one may be pending
      && !g.failed && !g.refreshed && g.pending.None?
      && g.confirmed < |Acts(job)| && act == Acts(job)[g.confirmed]
      && (job.Local? ==> g.installed == g.confirmed)
    case Ack(name, _) =>
      !g.failed && !g.acked && g.pending.Some? && name == Front(g.pending.value)
    case Unload(name) =>
      // only under an acknowledged action, in the planned order
      !g.failed && g.acked && g.pending.Some? && g.stopped < |Stopping(job)| && name == Stopping(job)[g.stopped]
    case Confirm(act, _) =>
      // only what was acknowledged, and only once everything is stopped
      !g.failed && g.acked && g.pending == Some(act) && g.stopped == |Stopping(job)|
    case Cancel(act, _) =>
      g.failed && !g.cancelled && g.pending == Some(act)
    case Download(_) =>
      !g.failed && job.Catalog? && g.pending.None? && g.confirmed == |Acts(job)| && !g.downloaded
    case InstallFile(name, file, _) =>
      // a local file right after its own confirmation, a fetched one after all of them
      && !g.failed && g.pending.None? && g.installed < |Files(job)| && Item(name, file) == Files(job)[g.installed]
      && (if job.Local? then g.confirmed == g.installed + 1 else g.downloaded && g.confirmed == |Acts(job)|)
    case Refresh =>
      && !g.failed && !g.refreshed && g.pending.None?
      && g.confirmed == |Acts(job)| && g.installed == |Files(job)|
    case Load(name, _) =>
      g.refreshed && g.loaded < |Restarting(job)| && name == Restarting(job)[g.loaded]
  }

  function Next(g: Gate, e: Event): Gate {
    match e
    case Request(act, ok) => g.(pending := Some(act), acked := false, stopped := 0, failed := !ok)
    case Ack(_, ok) => g.(acked := ok, failed := !ok)
    case Unload(_) => g.(stopped := g.stopped + 1)
    case Confirm(_, ok) =>
      if ok then g.(pending := None, acked := false, confirmed := g.confirmed + 1) else g.(failed := true)
    case Cancel(_, ok) => g.(cancelled := true, pending := if ok then None else g.pending)
    case Download(ok) => g.(downloaded := ok, failed := !ok)
    case InstallFile(_, _, ok) => if ok then g.(installed := g.installed + 1) else g.(failed := true)
    case Refresh => g.(refreshed := true)
    case Load(_, _) => g.(loaded := g.loaded + 1)
  }

  /** The monitor after a trace, or nothing once an event was not allowed. */
  function Watch(job: Job, t: Trace): Option<Gate> {
    if t == [] then Some(IDLE)
    else
      match Watch(job, t[..|t| - 1])
      case None => None
      case Some(g) => if Allowed(job, g, t[|t| - 1]) then Some(Next(g, t[|t| - 1])) else None
  }

  lemma Extend(job: Job, t: Trace, e: Event)
    requires Watch(job, t).Some? && Allowed(job, Watch(job, t).value, e)
    ensures Watch(job, t + [e]) == Some(Next(Watch(job, t).value, e))
  {
    assert (t + [e])[..|t|] == t;
  }

  // ---- Each part of a run keeps the monitor going --------------------------

  lemma {:induction false} UnloadsAllowed(job: Job, t: Trace, g: Gate, names: seq<string>)
    requires Watch(job, t) == Some(g) && !g.failed && g.acked && g.pending.Some?
    requires g.stopped <= |Stopping(job)| && names == Stopping(job)[g.stopped..]
    ensures Watch(job, Unloads(t, names)) == Some(g.(stopped := |Stopping(job)|))
    decreases |names|
  {
    if names != [] {
      Extend(job, t, Unload(names[0]));
      UnloadsAllowed(job, t + [Unload(names[0])], g.(stopped := g.stopped + 1), names[1..]);
    }
  }

  /** Nothing pending, nothing failed, `n` actions confirmed. */
  predicate Ready(job: Job, g: Gate, n: nat) {
    && g.pending.None? && !g.acked && !g.failed && !g.refreshed && g.confirmed == n && !g.cancelled && g.loaded == 0
    && (job.Local? ==> g.installed == n) && (!job.Local? ==> g.installed == 0) && !g.downloaded
  }

  /** How a run may stop early: with the failed step, and with the action cleared or not. */
  predicate Stuck(g: Gate, t: Trace) {
    && g.failed && !g.refreshed && g.loaded == 0
    && (g.pending.Some? <==> !(t != [] && t[|t| - 1].Cancel? && t[|t| - 1].ok))
  }

  lemma OpenGateAllowed(job: Job, t: Trace, g: Gate, o: Oracle, act: Act, front: string)
    requires Watch(job, t) == Some(g) && g.confirmed < |Acts(job)| && Ready(job, g, g.confirmed)
    requires act == Acts(job)[g.confirmed] && front == Front(act)
    ensures var begun := OpenGate(t, o, act, front);
            && Watch(job, begun.0) == Some(g.(pending := Some(act), acked := begun.1, stopped := 0, failed := !begun.1))
            && begun.0 != [] && !begun.0[|begun.0| - 1].Cancel?
  {
    Extend(job, t, Request(act, o(|t|)));
    if o(|t|) {
      var asked := t + [Request(act, true)];
      Extend(job, asked, Ack(front, o(|asked|)));
    }
  }

  lemma ConfirmAllowed(job: Job, t: Trace, g: Gate, act: Act, ok: bool)
    requires Watch(job, t) == Some(g) && !g.failed && g.acked && g.pending == Some(act) && g.stopped == |Stopping(job)|
    ensures Watch(job, t + [Confirm(act, ok)]) == Some(AfterConfirm(g, ok))
  {
    Extend(job, t, Confirm(act, ok));
  }

  function AfterConfirm(g: Gate, ok: bool): Gate {
    if ok then g.(pending := None, acked := false, confirmed := g.confirmed + 1) else g.(failed := true)
  }

  lemma CancelAllowed(job: Job, t: Trace, g: Gate, act: Act, ok: bool)
    requires Watch(job, t) == Some(g) && g.failed && !g.cancelled && !g.refreshed && g.loaded == 0 && g.pending == Some(act)
    ensures var end := t + [Cancel(act, ok)]; Watch(job, end).Some? && Stuck(Watch(job, end).value, end)
  {
    Extend(job, t, Cancel(act, ok));
  }

  /** Just acknowledged, nothing stopped yet. */
  predicate Acked(job: Job, t: Trace, g: Gate, act: Act) {
    && Watch(job, t) == Some(g) && !g.failed && !g.cancelled && !g.refreshed && g.loaded == 0
    && g.acked && g.pending == Some(act) && g.stopped == 0
  }

  /** Everything that has to be stopped was stopped, under the acknowledged action. */
  lemma StoppedAfterAck(job: Job, t: Trace, g: Gate, act: Act)
    requires Acked(job, t, g, act)
    ensures Watch(job, Unloads(t, Stopping(job))) == Some(g.(stopped := |Stopping(job)|))
  {
    assert Stopping(job)[0..] == Stopping(job);
    UnloadsAllowed(job, t, g, Stopping(job));
  }

  lemma ConfirmedAfterAck(job: Job, t: Trace, g: Gate, act: Act, ok: bool)
    requires Acked(job, t, g, act)
    ensures Watch(job, Unloads(t, Stopping(job)) + [Confirm(act, ok)]) == Some(AfterConfirm(g.(stopped := |Stopping(job)|), ok))
  {
    StoppedAfterAck(job, t, g, act);
    ConfirmAllowed(job, Unloads(t, Stopping(job)), g.(stopped := |Stopping(job)|), act, ok);
  }

  lemma RefusedAfterAck(job: Job, t: Trace, g: Gate, act: Act, ok: bool)
    requires Acked(job, t, g, act)
    ensures var confirmed := Unloads(t, Stopping(job)) + [Confirm(act, false)];
            && Watch(job, confirmed).Some?
            && Watch(job, confirmed + [Cancel(act, ok)]).Some?
            && Stuck(Watch(job, confirmed).value, confirmed)
            && Stuck(Watch(job, confirmed + [Cancel(act, ok)]).value, confirmed + [Cancel(act, ok)])
  {
    ConfirmedAfterAck(job, t, g, act, false);
    CancelAllowed(job, Unloads(t, Stopping(job)) + [Confirm(act, false)], g.(stopped := |Stopping(job)|, failed := true), act, ok);
  }

  lemma ApproveWorks(job: Job, t: Trace, g: Gate, o: Oracle, act: Act, front: string)
    requires Watch(job, t) == Some(g) && g.confirmed < |Acts(job)| && Ready(job, g, g.confirmed)
    requires act == Acts(job)[g.confirmed] && front == Front(act)
    requires Approve(t, o, act, front, Stopping(job)).1.None?
    ensures Watch(job, Approve(t, o, act, front, Stopping(job)).0)
         == Some(g.(stopped := |Stopping(job)|, confirmed := g.confirmed + 1))
  {
    OpenGateAllowed(job, t, g, o, act, front);
    var g2 := g.(pending := Some(act), acked := true, stopped := 0);
    var begun := OpenGate(t, o, act, front);
    ConfirmedAfterAck(job, begun.0, g2, act, true);
    assert Approve(t, o, act, front, Stopping(job)).0 == Unloads(begun.0, Stopping(job)) + [Confirm(act, true)];
  }

  lemma ApproveFails(job: Job, t: Trace, g: Gate, o: Oracle, act: Act, front: string)
    requires Watch(job, t) == Some(g) && g.confirmed < |Acts(job)| && Ready(job, g, g.confirmed)
    requires act == Acts(job)[g.confirmed] && front == Front(act)
    requires Approve(t, o, act, front, Stopping(job)).1.Some?
    ensures var gated := Approve(t, o, act, front, Stopping(job));
            && Watch(job, gated.0).Some? && Stuck(Watch(job, gated.0).value, gated.0)
            && (gated.1.value.Requesting? || gated.1.value.Confirming?)
  {
    OpenGateAllowed(job, t, g, o, act, front);
    var begun := OpenGate(t, o, act, front);
    if begun.1 {
      var g2 := g.(pending := Some(act), acked := true, stopped := 0);
      var confirmed := Unloads(begun.0, Stopping(job)) + [Confirm(act, false)];
      RefusedAfterAck(job, begun.0, g2, act, o(|confirmed|));
    }
  }

  lemma ApproveAllowed(job: Job, t: Trace, g: Gate, o: Oracle, act: Act, front: string)
    requires Watch(job, t) == Some(g) && g.confirmed < |Acts(job)| && Ready(job, g, g.confirmed)
    requires act == Acts(job)[g.confirmed] && front == Front(act)
    ensures var gated := Approve(t, o, act, front, Stopping(job));
            && (gated.1.None? ==> Watch(job, gated.0) == Some(g.(stopped := |Stopping(job)|, confirmed := g.confirmed + 1)))
            && (gated.1.Some? ==> Watch(job, gated.0).Some? && Stuck(Watch(job, gated.0).value, gated.0)
                                  && (gated.1.value.Requesting? || gated.1.value.Confirming?))
  {
    if Approve(t, o, act, front, Stopping(job)).1.None? {
      ApproveWorks(job, t, g, o, act, front);
    } else {
      ApproveFails(job, t, g, o, act, front);
    }
  }

  lemma {:induction false} LoadsAllowed(job: Job, t: Trace, g: Gate, o: Oracle, names: seq<string>,
          reloaded: seq<string>)
    requires Watch(job, t) == Some(g) && g.refreshed && g.loaded <= |Restarting(job)| && names == Restarting(job)[g.loaded..]
    ensures Watch(job, Loads(t, o, names, reloaded).0) == Some(g.(loaded := |Restarting(job)|))
    decreases |names|
  {
    if names != [] {
      Extend(job, t, Load(names[0], o(|t|)));
      LoadsAllowed(job, t + [Load(names[0], o(|t|))], g.(loaded := g.loaded + 1), o, names[1..],
                   if o(|t|) then reloaded + [names[0]] else reloaded);
    }
  }

  predicate Finished(job: Job, g: Gate) {
    g.pending.None? && !g.failed && g.refreshed && g.confirmed == |Acts(job)| && g.installed == |Files(job)|
    && g.loaded == |Restarting(job)|
  }

  /** What the monitor says at the end of a run. */
  predicate Ends(job: Job, r: Run) {
    Watch(job, r.trace).Some? &&
    var g := Watch(job, r.trace).value;
    match r.outcome
    case Done(_, _, _) => Finished(job, g)
    case Failed(Requesting) => Stuck(g, r.trace)
    case Failed(Acking) => Stuck(g, r.trace)
    case Failed(Confirming) => Stuck(g, r.trace)
    case Failed(_) => g.pending.None? && !g.refreshed && g.loaded == 0
  }

  lemma RestoreAllowed(job: Job, t: Trace, g: Gate, o: Oracle, installed: seq<string>)
    requires Watch(job, t) == Some(g) && !g.failed && !g.refreshed && g.pending.None? && g.loaded == 0
    requires !job.Removal? && g.confirmed == |Acts(job)| && g.installed == |Files(job)|
    ensures Ends(job, Restore(t, o, Restarting(job), installed))
  {
    Extend(job, t, Refresh);
    LoadsAllowed(job, t + [Refresh], g.(refreshed := true), o, Restarting(job), []);
  }

  lemma {:induction false} LocalAllowed(job: Job, t: Trace, g: Gate, o: Oracle, installed: seq<string>)
    requires job.Local? && Watch(job, t) == Some(g)
    requires g.confirmed <= |job.items| && Ready(job, g, g.confirmed)
    ensures Ends(job, LocalRun(t, o, job.op, job.items[g.confirmed..], job.toRestore, installed))
    decreases |job.items| - g.confirmed
  {
    var n := g.confirmed;
    if n == |job.items| {
      RestoreAllowed(job, t, g, o, installed);
    } else {
      var item := job.items[n];
      var gated := Approve(t, o, Single(job.op, item.name), item.name, job.toRestore);
      var next := gated.0 + [InstallFile(item.name, item.file, o(|gated.0|))];
      LocalUnfolds(t, o, job.op, job.items, n, job.toRestore, installed);
      ApproveAllowed(job, t, g, o, Single(job.op, item.name), item.name);
      if gated.1.None? {
        var g2 := g.(stopped := |job.toRestore|, confirmed := n + 1);
        InstallAllowed(job, gated.0, g2, item, o(|gated.0|));
        if o(|gated.0|) {
          LocalAllowed(job, next, g2.(installed := n + 1), o, installed + [item.name]);
        }
      }
    }
  }

  /** One round of the loop over local files. */
  lemma LocalUnfolds(t: Trace, o: Oracle, op: Op, items: seq<Item>, n: nat, toRestore: seq<string>,
          installed: seq<string>)
    requires n < |items|
    ensures var item := items[n];
            var gated := Approve(t, o, Single(op, item.name), item.name, toRestore);
            var next := gated.0 + [InstallFile(item.name, item.file, o(|gated.0|))];
            LocalRun(t, o, op, items[n..], toRestore, installed)
            == if gated.1.Some? then Run(gated.0, Failed(gated.1.value))
               else if !o(|gated.0|) then Run(next, Failed(Installing))
               else LocalRun(next, o, op, items[n + 1..], toRestore, installed + [item.name])
  {
    assert items[n..][1..] == items[n + 1..];
  }

  /** A file may be installed: the right one, and covered by its confirmations. */
  predicate Installable(job: Job, g: Gate, item: Item) {
    && !g.failed && g.pending.None? && g.installed < |Files(job)| && item == Files(job)[g.installed]
    && (if job.Local? then g.confirmed == g.installed + 1 else g.downloaded && g.confirmed == |Acts(job)|)
  }

  lemma InstallStep(job: Job, t: Trace, g: Gate, item: Item, ok: bool)
    requires Watch(job, t) == Some(g) && Installable(job, g, item)
    ensures Watch(job, t + [InstallFile(item.name, item.file, ok)])
         == Some(if ok then g.(installed := g.installed + 1) else g.(failed := true))
  {
    InstallMay(job, g, item, ok);
    Extend(job, t, InstallFile(item.name, item.file, ok));
  }

  lemma InstallMay(job: Job, g: Gate, item: Item, ok: bool)
    requires Installable(job, g, item)
    ensures Allowed(job, g, InstallFile(item.name, item.file, ok))
  {
  }

  lemma InstallAllowed(job: Job, t: Trace, g: Gate, item: Item, ok: bool)
    requires Watch(job, t) == Some(g) && !g.refreshed && g.loaded == 0 && Installable(job, g, item)
    ensures var next := t + [InstallFile(item.name, item.file, ok)];
            && (ok ==> Watch(job, next) == Some(g.(installed := g.installed + 1)))
            && (!ok ==> Ends(job, Run(next, Failed(Installing))))
  {
    InstallStep(job, t, g, item, ok);
  }

  lemma {:induction false} GateAllAllowed(job: Job, t: Trace, g: Gate, o: Oracle)
    requires job.Catalog? && Watch(job, t) == Some(g)
    requires g.confirmed <= |job.names| && Ready(job, g, g.confirmed)
    ensures var gated := GateAll(t, o, job.op, job.names[g.confirmed..], job.toRestore);
            && Watch(job, gated.0).Some?
            && (gated.1.None? ==> Ready(job, Watch(job, gated.0).value, |job.names|))
            && (gated.1.Some? ==> Ends(job, Run(gated.0, Failed(gated.1.value))))
    decreases |job.names| - g.confirmed
  {
    var n, rest := g.confirmed, job.names[g.confirmed..];
    if n < |job.names| {
      assert rest[0] == job.names[n] && rest[1..] == job.names[n + 1..];
      ApproveAllowed(job, t, g, o, Single(job.op, job.names[n]), job.names[n]);
      var gated := Approve(t, o, Single(job.op, job.names[n]), job.names[n], job.toRestore);
      if gated.1.None? {
        GateAllAllowed(job, gated.0, g.(stopped := |job.toRestore|, confirmed := n + 1), o);
      }
    }
  }

  lemma {:induction false} FetchedAllowed(job: Job, t: Trace, g: Gate, o: Oracle, rest: seq<Fetched>,
          installed: seq<string>)
    requires job.Catalog? && Watch(job, t) == Some(g) && !g.failed && !g.refreshed && g.pending.None? && g.loaded == 0
    requires g.downloaded && g.confirmed == |Acts(job)|
    requires g.installed <= |Files(job)| && Usable(rest) == Files(job)[g.installed..]
    ensures Ends(job, FetchedRun(t, o, rest, job.toRestore, installed))
    decreases |rest|
  {
    if rest == [] {
      RestoreAllowed(job, t, g, o, installed);
    } else if rest[0].error == "" {
      if rest[0].path == "" {
        assert Usable(rest) == Usable(rest[1..]);
        FetchedAllowed(job, t, g, o, rest[1..], installed);
      } else {
        var item := Item(rest[0].name, rest[0].path);
        assert Usable(rest)[0] == item && Usable(rest)[1..] == Usable(rest[1..]);
        InstallAllowed(job, t, g, item, o(|t|));
        if o(|t|) {
          FetchedAllowed(job, t + [InstallFile(item.name, item.file, true)], g.(installed := g.installed + 1), o, rest[1..],
                         installed + [item.name]);
        }
      }
    }
  }

  lemma CatalogAllowed(job: Job, o: Oracle)
    requires job.Catalog?
    ensures Ends(job, CatalogRun([], o, job.op, job.names, job.fetched, job.toRestore))
  {
    GateAllAllowed(job, [], IDLE, o);
    assert job.names[0..] == job.names;
    var gated := GateAll([], o, job.op, job.names, job.toRestore);
    if gated.1.None? {
      var g := Watch(job, gated.0).value;
      Extend(job, gated.0, Download(job.fetched.Some?));
      if job.fetched.Some? {
        FetchedAllowed(job, gated.0 + [Download(true)], g.(downloaded := true), o, job.fetched.value, []);
      }
    }
  }

  lemma RemovalAllowed(job: Job, o: Oracle)
    requires job.Removal?
    ensures Ends(job, RemovalRun([], o, job.victims))
  {
    if job.victims != [] {
      var act := Multi(job.victims);
      OpenGateAllowed(job, [], IDLE, o, act, job.victims[0]);
      var begun := OpenGate([], o, act, job.victims[0]);
      if begun.1 {
        var g := IDLE.(pending := Some(act), acked := true);
        var stopped := Unloads(begun.0, job.victims);
        if o(|stopped|) {
          ConfirmedAfterAck(job, begun.0, g, act, true);
          Extend(job, stopped + [Confirm(act, true)], Refresh);
        } else {
          RefusedAfterAck(job, begun.0, g, act, false);
        }
      } else if |begun.0| != 1 {
        Extend(job, begun.0, Cancel(act, o(|begun.0|)));
      }
    }
  }

  // ---- The theorems --------------------------------------------------------

  /** Whatever fails, a run keeps the protocol to the last event: it never requests while
      an action may be pending, confirms only what was acknowledged and only with
      everything stopped, stops nothing before an acknowledgement, installs nothing
      before the confirmation that covers it, does nothing but cancel after a failed
      call, and restarts exactly what was running, in order, at the very end. */
  lemma EveryRunKeepsTheProtocol(job: Job, o: Oracle)
    ensures Ends(job, RunOf([], o, job))
  {
    match job
    case Removal(_) => RemovalAllowed(job, o);
    case Local(_, items, _) =>
      assert items[0..] == items;
      LocalAllowed(job, [], IDLE, o, []);
    case Catalog(_, _, _, _) => CatalogAllowed(job, o);
  }

  /** Each event of an accepted trace was allowed when it happened. */
  lemma {:induction false} EachEventWasAllowed(job: Job, t: Trace, i: nat)
    requires Watch(job, t).Some? && i < |t|
    ensures Watch(job, t[..i]).Some? && Allowed(job, Watch(job, t[..i]).value, t[i])
    decreases |t|
  {
    var front := t[..|t| - 1];
    if i < |t| - 1 {
      EachEventWasAllowed(job, front, i);
      assert front[..i] == t[..i];
    }
  }

  // ---- Which runs leave an action behind -----------------------------------

  /** The run ended past the gate, or with a cancellation that worked. */
  predicate CleanEnd(r: Run) {
    || r.outcome.Done?
    || !(r.outcome.step.Requesting? || r.outcome.step.Acking? || r.outcome.step.Confirming?)
    || (r.trace != [] && r.trace[|r.trace| - 1].Cancel? && r.trace[|r.trace| - 1].ok)
  }

  /** A gate that starts with call `at`: request, acknowledge, `stops` unloads, confirm. */
  predicate GateWorks(o: Oracle, at: nat, stops: nat) {
    o(at) && o(at + 1) && o(at + 2 + stops)
  }

  /** It works, or only its confirmation fails and the cancellation works. */
  predicate GateSettles(o: Oracle, at: nat, stops: nat) {
    o(at) && o(at + 1) && (o(at + 2 + stops) || o(at + 3 + stops))
  }

  /** The call with which the i-th gate of an install or upgrade starts. */
  function GateAt(job: Job, i: nat): nat {
    if i == 0 then 0 else GateAt(job, i - 1) + 3 + |Stopping(job)| + (if job.Local? then 1 else 0)
  }

  /** The i-th gate is reached: all earlier ones worked, and so did the installation of a
      local file after each. */
  predicate Reached(job: Job, o: Oracle, i: nat) {
    i == 0
    || (Reached(job, o, i - 1) && GateWorks(o, GateAt(job, i - 1), |Stopping(job)|)
        && (job.Local? ==> o(GateAt(job, i - 1) + 3 + |Stopping(job)|)))
  }

  /** In terms of the calls alone: every gate that is reached settles. */
  predicate NothingLeft(job: Job, o: Oracle) {
    if job.Removal? then
      job.victims == [] || (o(0) && if o(1) then o(2 + |job.victims|) else o(2))
    else
      forall i | 0 <= i < |Acts(job)| && Reached(job, o, i) :: GateSettles(o, GateAt(job, i), |Stopping(job)|)
  }

  lemma {:induction false} UnloadsLength(t: Trace, names: seq<string>)
    ensures |Unloads(t, names)| == |t| + |names|
    decreases |names|
  {
    if names != [] { UnloadsLength(t + [Unload(names[0])], names[1..]); }
  }

  /** One gate, by its calls. */
  lemma ApproveByCalls(t: Trace, o: Oracle, act: Act, front: string, stops: seq<string>)
    ensures var gated := Approve(t, o, act, front, stops);
            && (gated.1.None? <==> GateWorks(o, |t|, |stops|))
            && (gated.1.None? ==> |gated.0| == |t| + 3 + |stops|)
            && (gated.1.Some? ==> (CleanEnd(Run(gated.0, Failed(gated.1.value))) <==> GateSettles(o, |t|, |stops|)))
  {
    var asked := t + [Request(act, o(|t|))];
    if o(|t|) && o(|t| + 1) { UnloadsLength(asked + [Ack(front, true)], stops); }
  }

  /** The gates from the n-th on settle, as far as they are reached. */
  predicate SettleFrom(job: Job, o: Oracle, n: nat) {
    forall i | n <= i < |Acts(job)| && Reached(job, o, i) :: GateSettles(o, GateAt(job, i), |Stopping(job)|)
  }

  lemma {:induction false} ReachedBefore(job: Job, o: Oracle, n: nat, i: nat)
    requires n <= i && Reached(job, o, i)
    ensures Reached(job, o, n)
  {
    if n < i { ReachedBefore(job, o, n, i - 1); }
  }

  /** Past a gate that stops the run, nothing is reached. */
  lemma SettleAtLast(job: Job, o: Oracle, n: nat)
    requires n < |Acts(job)| && Reached(job, o, n) && !Reached(job, o, n + 1)
    ensures SettleFrom(job, o, n) <==> GateSettles(o, GateAt(job, n), |Stopping(job)|)
  {
    if GateSettles(o, GateAt(job, n), |Stopping(job)|) {
      forall i | n <= i < |Acts(job)| && Reached(job, o, i) ensures i == n {
        if i > n { ReachedBefore(job, o, n + 1, i); }
      }
    }
  }

  /** Past one that works, the rest decides. */
  lemma SettleNext(job: Job, o: Oracle, n: nat)
    requires n < |Acts(job)| && GateWorks(o, GateAt(job, n), |Stopping(job)|)
    ensures SettleFrom(job, o, n) <==> SettleFrom(job, o, n + 1)
  {
  }

  /** One round over local files, by its calls. */
  lemma LocalByCalls(job: Job, t: Trace, o: Oracle, n: nat, installed: seq<string>)
    requires job.Local? && n < |job.items| && Reached(job, o, n) && |t| == GateAt(job, n)
    ensures var item := job.items[n];
            var next := Approve(t, o, Single(job.op, item.name), item.name, job.toRestore).0
                        + [InstallFile(item.name, item.file, true)];
            var run := LocalRun(t, o, job.op, job.items[n..], job.toRestore, installed);
            if Reached(job, o, n + 1) then
              && |next| == GateAt(job, n + 1)
              && run == LocalRun(next, o, job.op, job.items[n + 1..], job.toRestore, installed + [item.name])
            else CleanEnd(run) <==> GateSettles(o, GateAt(job, n), |job.toRestore|)
  {
    var item := job.items[n];
    LocalUnfolds(t, o, job.op, job.items, n, job.toRestore, installed);
    ApproveByCalls(t, o, Single(job.op, item.name), item.name, job.toRestore);
  }

  lemma {:induction false} LocalPending(job: Job, t: Trace, o: Oracle, n: nat, installed: seq<string>)
    requires job.Local? && n <= |job.items| && Reached(job, o, n) && |t| == GateAt(job, n)
    ensures CleanEnd(LocalRun(t, o, job.op, job.items[n..], job.toRestore, installed)) <==> SettleFrom(job, o, n)
    decreases |job.items| - n
  {
    if n < |job.items| {
      var item := job.items[n];
      var gated := Approve(t, o, Single(job.op, item.name), item.name, job.toRestore);
      LocalByCalls(job, t, o, n, installed);
      if Reached(job, o, n + 1) {
        SettleNext(job, o, n);
        LocalPending(job, gated.0 + [InstallFile(item.name, item.file, true)], o, n + 1, installed + [item.name]);
      } else {
        SettleAtLast(job, o, n);
      }
    }
  }

  lemma {:induction false} GateAllPending(job: Job, t: Trace, o: Oracle, n: nat)
    requires job.Catalog? && n <= |job.names| && Reached(job, o, n) && |t| == GateAt(job, n)
    ensures var gated := GateAll(t, o, job.op, job.names[n..], job.toRestore);
            && (gated.1.None? ==> SettleFrom(job, o, n))
            && (gated.1.Some? ==> (CleanEnd(Run(gated.0, Failed(gated.1.value))) <==> SettleFrom(job, o, n)))
    decreases |job.names| - n
  {
    if n < |job.names| {
      var rest := job.names[n..];
      assert rest[0] == job.names[n] && rest[1..] == job.names[n + 1..];
      ApproveByCalls(t, o, Single(job.op, rest[0]), rest[0], job.toRestore);
      if Reached(job, o, n + 1) {
        SettleNext(job, o, n);
        GateAllPending(job, Approve(t, o, Single(job.op, rest[0]), rest[0], job.toRestore).0, o, n + 1);
      } else {
        SettleAtLast(job, o, n);
      }
    }
  }

  lemma {:induction false} FetchedIsClean(t: Trace, o: Oracle, fetched: seq<Fetched>, toRestore: seq<string>, installed: seq<string>)
    ensures CleanEnd(FetchedRun(t, o, fetched, toRestore, installed))
    decreases |fetched|
  {
    if fetched != [] && fetched[0].error == "" {
      if fetched[0].path == "" {
        FetchedIsClean(t, o, fetched[1..], toRestore, installed);
      } else if o(|t|) {
        var next := t + [InstallFile(fetched[0].name, fetched[0].path, true)];
        FetchedIsClean(next, o, fetched[1..], toRestore, installed + [fetched[0].name]);
      }
    }
  }

  lemma RemovalPending(job: Job, o: Oracle)
    requires job.Removal?
    ensures CleanEnd(RunOf([], o, job)) <==> NothingLeft(job, o)
  {
    if job.victims != [] {
      RemovalTrace(o, job.victims);
      UnloadsLength([Request(Multi(job.victims), true), Ack(job.victims[0], true)], job.victims);
    }
  }

  lemma CleanExactlyWhen(job: Job, o: Oracle)
    ensures CleanEnd(RunOf([], o, job)) <==> NothingLeft(job, o)
  {
    match job
    case Removal(_) => RemovalPending(job, o);
    case Local(_, items, _) =>
      assert items[0..] == items;
      LocalPending(job, [], o, 0, []);
    case Catalog(op, names, fetched, toRestore) =>
      assert names[0..] == names;
      GateAllPending(job, [], o, 0);
      var gated := GateAll([], o, op, names, toRestore);
      if gated.1.None? && fetched.Some? { FetchedIsClean(gated.0 + [Download(true)], o, fetched.value, toRestore, []); }
  }

  /** Which calls leave an action behind in the package manager. A removal leaves none
      exactly when its request works and then its confirmation or, after a failed
      acknowledgement, its cancellation; an install or upgrade exactly when no gate that
      is reached has a failed request, a failed acknowledgement, or a failed confirmation
      with a failed cancellation. */
  lemma PendingExactlyWhen(job: Job, o: Oracle)
    ensures var r := RunOf([], o, job);
            Watch(job, r.trace).Some? && (Watch(job, r.trace).value.pending.None? <==> NothingLeft(job, o))
  {
    EveryRunKeepsTheProtocol(job, o);
    CleanExactlyWhen(job, o);
  }

  /** A failed acknowledgement: a removal is cancelled, an install or upgrade is not and
      stays with the package manager. */
  lemma FailedAcknowledgement(job: Job, o: Oracle)
    requires o(0) && !o(1)
    requires match job case Removal(v) => v != [] case Local(_, items, _) => items != [] case Catalog(_, n, _, _) => n != []
    ensures var first := [Request(Acts(job)[0], true), Ack(Front(Acts(job)[0]), false)];
            RunOf([], o, job) == if job.Removal? then Run(first + [Cancel(Acts(job)[0], o(2))], Failed(Acking))
                                 else Run(first, Failed(Requesting))
    ensures NothingLeft(job, o) <==> job.Removal? && o(2)
  {
    var act := Acts(job)[0];
    if !job.Removal? {
      assert Reached(job, o, 0) && GateAt(job, 0) == 0;
      assert !GateSettles(o, GateAt(job, 0), |Stopping(job)|);
    }
    assert OpenGate([], o, act, Front(act)).0 == [Request(act, true), Ack(Front(act), false)];
  }

  // ---- What a run achieves -------------------------------------------------

  function Names(items: seq<Item>): seq<string> {
    if items == [] then [] else [items[0].name] + Names(items[1..])
  }

  /** The modules that a trace started, in order. */
  function Started(t: Trace): seq<string> {
    if t == [] then []
    else
      var e := t[|t| - 1];
      Started(t[..|t| - 1]) + (if e.Load? && e.ok then [e.name] else [])
  }

  /** The modules that a trace stopped, in order. */
  function Stopped(t: Trace): seq<string> {
    if t == [] then []
    else
      var e := t[|t| - 1];
      Stopped(t[..|t| - 1]) + (if e.Unload? then [e.name] else [])
  }

  lemma ReadLast(t: Trace, e: Event)
    ensures Started(t + [e]) == Started(t) + (if e.Load? && e.ok then [e.name] else [])
    ensures Stopped(t + [e]) == Stopped(t) + (if e.Unload? then [e.name] else [])
  {
    assert (t + [e])[..|t|] == t;
  }

  /** The modules that come up when loading starts at a point of the run. */
  function UpOf(t: Trace, o: Oracle, names: seq<string>): seq<string>
    decreases |names|
  {
    if names == [] then []
    else (if o(|t|) then [names[0]] else []) + UpOf(t + [Load(names[0], o(|t|))], o, names[1..])
  }

  lemma Shift(a: seq<string>, b: seq<string>, c: seq<string>)
    ensures (a + b) + c == a + (b + c)
    ensures a + [] == a
  {
  }

  lemma {:induction false} LoadsReport(t: Trace, o: Oracle, names: seq<string>, reloaded: seq<string>)
    ensures Loads(t, o, names, reloaded).1 == reloaded + UpOf(t, o, names)
    decreases |names|
  {
    Shift(reloaded, [], []);
    if names != [] {
      var one := if o(|t|) then [names[0]] else [];
      LoadsReport(t + [Load(names[0], o(|t|))], o, names[1..], reloaded + one);
      Shift(reloaded, one, UpOf(t + [Load(names[0], o(|t|))], o, names[1..]));
    }
  }

  lemma {:induction false} LoadsStart(t: Trace, o: Oracle, names: seq<string>, reloaded: seq<string>)
    ensures Started(Loads(t, o, names, reloaded).0) == Started(t) + UpOf(t, o, names)
    decreases |names|
  {
    Shift(Started(t), [], []);
    if names != [] {
      var e := Load(names[0], o(|t|));
      var one := if e.ok then [names[0]] else [];
      ReadLast(t, e);
      LoadsStart(t + [e], o, names[1..], if e.ok then reloaded + [names[0]] else reloaded);
      Shift(Started(t), one, UpOf(t + [e], o, names[1..]));
    }
  }

  lemma {:induction false} UnloadsStop(t: Trace, names: seq<string>)
    ensures Stopped(Unloads(t, names)) == Stopped(t) + names
    decreases |names|
  {
    if names != [] {
      ReadLast(t, Unload(names[0]));
      UnloadsStop(t + [Unload(names[0])], names[1..]);
      assert (Stopped(t) + [names[0]]) + names[1..] == Stopped(t) + names;
    }
  }

  /** The trace of a removal whose gate was opened, up to the last stop. */
  function RemovalOpen(victims: seq<string>): Trace
    requires victims != []
  {
    Unloads([Request(Multi(victims), true), Ack(victims[0], true)], victims)
  }

  lemma OpenStops(victims: seq<string>)
    requires victims != []
    ensures Stopped(RemovalOpen(victims)) == victims
  {
    var asked := [Request(Multi(victims), true)];
    ReadLast([], Request(Multi(victims), true));
    ReadLast(asked, Ack(victims[0], true));
    assert asked + [Ack(victims[0], true)] == [Request(Multi(victims), true), Ack(victims[0], true)];
    UnloadsStop([Request(Multi(victims), true), Ack(victims[0], true)], victims);
    assert [] + victims == victims;
  }

  lemma ClosedStops(t: Trace, act: Act, ok: bool)
    ensures Stopped(t + [Confirm(act, ok)]) == Stopped(t)
    ensures Stopped(t + [Confirm(act, ok)] + [Refresh]) == Stopped(t)
  {
    ReadLast(t, Confirm(act, ok));
    ReadLast(t + [Confirm(act, ok)], Refresh);
  }

  lemma RefusedStops(victims: seq<string>, ok: bool)
    requires victims != []
    ensures Stopped([Request(Multi(victims), false)]) == []
    ensures Stopped([Request(Multi(victims), true), Ack(victims[0], false)] + [Cancel(Multi(victims), ok)]) == []
  {
    ReadLast([], Request(Multi(victims), true));
    var asked := [Request(Multi(victims), true)];
    ReadLast(asked, Ack(victims[0], false));
    assert asked + [Ack(victims[0], false)] == [Request(Multi(victims), true), Ack(victims[0], false)];
    ReadLast([Request(Multi(victims), true), Ack(victims[0], false)], Cancel(Multi(victims), ok));
  }

  /** How a removal runs, spelled out. */
  lemma RemovalTrace(o: Oracle, victims: seq<string>)
    requires victims != []
    ensures var r, act, open := RemovalRun([], o, victims), Multi(victims), RemovalOpen(victims);
            r == if !o(0) then Run([Request(act, false)], Failed(Requesting))
                 else if !o(1) then Run([Request(act, true), Ack(victims[0], false)] + [Cancel(act, o(2))], Failed(Acking))
                 else if !o(|open|) then Run(open + [Confirm(act, false)], Failed(Confirming))
                 else Run(open + [Confirm(act, true)] + [Refresh], Done([], victims, []))
  {
    var act := Multi(victims);
    assert [] + [Request(act, o(0))] == [Request(act, o(0))];
    assert [Request(act, true)] + [Ack(victims[0], o(1))] == [Request(act, true), Ack(victims[0], o(1))];
    var begun := OpenGate([], o, act, victims[0]);
    assert begun == if !o(0) then ([Request(act, false)], false)
                    else ([Request(act, true), Ack(victims[0], o(1))], o(1));
  }

  /** A removal stops all its victims, in the planned order, or none of them. */
  lemma RemovalStops(o: Oracle, victims: seq<string>)
    ensures var r := RunOf([], o, Removal(victims));
            && Stopped(r.trace) == (if victims != [] && o(0) && o(1) then victims else [])
            && (r.outcome.Done? ==> Stopped(r.trace) == victims && r.outcome.removed == victims)
  {
    if victims != [] {
      RemovalTrace(o, victims);
      OpenStops(victims);
      RefusedStops(victims, o(2));
      ClosedStops(RemovalOpen(victims), Multi(victims), o(|RemovalOpen(victims)|));
    }
  }

  /** From the request to the last stop: a planned removal never stops a module while a
      module that depends on it is still to be stopped, whatever call fails. */
  lemma DependentsStopFirst(names: seq<string>, installed: set<string>, ask: RemovalOrder.Resolver,
                            users: RemovalOrder.Dependents, o: Oracle)
    requires RemovalOrder.Acyclic(users) && RemovalOrder.Truthful(ask, users)
    requires RemovalOrder.PlanFrom([], names, installed, true, ask).Victims?
    ensures var victims := RemovalOrder.PlanFrom([], names, installed, true, ask).names;
            var r := RunOf([], o, Removal(victims));
            var stopped := Stopped(r.trace);
            && Orders.Distinct(stopped) && RemovalOrder.DependentsFirst(stopped, users)
            && RemovalOrder.ClosedUnder(stopped, users)
            && (r.outcome.Done? ==> stopped == victims && forall n <- names :: n in stopped && users(n) <= set m | m in stopped)
  {
    var victims := RemovalOrder.PlanFrom([], names, installed, true, ask).names;
    RemovalOrder.RemovalPlan(names, installed, ask, users);
    RemovalStops(o, victims);
  }

  /** A success report is true: everything planned was installed or removed, in order, and
      exactly the modules that started again are reported as reloaded. */
  predicate Reports(job: Job, r: Run) {
    r.outcome.Done? ==>
      && r.outcome.installed == Names(Files(job))
      && r.outcome.removed == (if job.Removal? then job.victims else [])
      && r.outcome.reloaded == Started(r.trace)
  }

  lemma RestoreReports(job: Job, t: Trace, o: Oracle, installed: seq<string>)
    requires !job.Removal? && Started(t) == [] && installed == Names(Files(job))
    ensures Reports(job, Restore(t, o, job.toRestore, installed))
  {
    ReadLast(t, Refresh);
    LoadsReport(t + [Refresh], o, job.toRestore, []);
    LoadsStart(t + [Refresh], o, job.toRestore, []);
  }

  lemma {:induction false} UnloadsStartNothing(t: Trace, names: seq<string>)
    ensures Started(Unloads(t, names)) == Started(t)
    decreases |names|
  {
    if names != [] {
      ReadLast(t, Unload(names[0]));
      UnloadsStartNothing(t + [Unload(names[0])], names[1..]);
    }
  }

  lemma ApproveStartsNothing(t: Trace, o: Oracle, act: Act, front: string, toRestore: seq<string>)
    requires Approve(t, o, act, front, toRestore).1.None?
    ensures Started(Approve(t, o, act, front, toRestore).0) == Started(t)
  {
    ReadLast(t, Request(act, true));
    var asked := t + [Request(act, true)];
    ReadLast(asked, Ack(front, true));
    var begun := asked + [Ack(front, true)];
    UnloadsStartNothing(begun, toRestore);
    ReadLast(Unloads(begun, toRestore), Confirm(act, true));
  }

  lemma {:induction false} LocalReports(job: Job, t: Trace, o: Oracle, rest: seq<Item>, installed: seq<string>)
    requires job.Local? && Started(t) == [] && installed + Names(rest) == Names(job.items)
    ensures Reports(job, LocalRun(t, o, job.op, rest, job.toRestore, installed))
    decreases |rest|
  {
    if rest == [] {
      assert installed == Names(job.items);
      RestoreReports(job, t, o, installed);
    } else {
      var item := rest[0];
      var gated := Approve(t, o, Single(job.op, item.name), item.name, job.toRestore);
      if gated.1.None? && o(|gated.0|) {
        ApproveStartsNothing(t, o, Single(job.op, item.name), item.name, job.toRestore);
        ReadLast(gated.0, InstallFile(item.name, item.file, true));
        assert (installed + [item.name]) + Names(rest[1..]) == installed + Names(rest);
        LocalReports(job, gated.0 + [InstallFile(item.name, item.file, true)], o, rest[1..], installed + [item.name]);
      }
    }
  }

  lemma {:induction false} GateAllStartsNothing(t: Trace, o: Oracle, op: Op, names: seq<string>, toRestore: seq<string>)
    requires GateAll(t, o, op, names, toRestore).1.None?
    ensures Started(GateAll(t, o, op, names, toRestore).0) == Started(t)
    decreases |names|
  {
    if names != [] {
      ApproveStartsNothing(t, o, Single(op, names[0]), names[0], toRestore);
      GateAllStartsNothing(Approve(t, o, Single(op, names[0]), names[0], toRestore).0, o, op, names[1..], toRestore);
    }
  }

  lemma {:induction false} FetchedReports(job: Job, t: Trace, o: Oracle, rest: seq<Fetched>, installed: seq<string>)
    requires job.Catalog? && Started(t) == [] && installed + Names(Usable(rest)) == Names(Files(job))
    ensures Reports(job, FetchedRun(t, o, rest, job.toRestore, installed))
    decreases |rest|
  {
    if rest == [] {
      assert installed == Names(Files(job));
      RestoreReports(job, t, o, installed);
    } else if rest[0].error == "" {
      if rest[0].path == "" {
        assert Usable(rest) == Usable(rest[1..]);
        FetchedReports(job, t, o, rest[1..], installed);
      } else if o(|t|) {
        assert Usable(rest)[1..] == Usable(rest[1..]);
        ReadLast(t, InstallFile(rest[0].name, rest[0].path, true));
        assert (installed + [rest[0].name]) + Names(Usable(rest[1..])) == installed + Names(Usable(rest));
        FetchedReports(job, t + [InstallFile(rest[0].name, rest[0].path, true)], o, rest[1..], installed + [rest[0].name]);
      }
    }
  }

  lemma SuccessIsTrue(job: Job, o: Oracle)
    ensures Reports(job, RunOf([], o, job))
  {
    match job
    case Removal(victims) =>
      if RunOf([], o, job).outcome.Done? { RemovalReports(o, victims); }
    case Local(_, items, _) => LocalReports(job, [], o, items, []);
    case Catalog(op, names, fetched, toRestore) =>
      var gated := GateAll([], o, op, names, toRestore);
      if gated.1.None? && fetched.Some? {
        GateAllStartsNothing([], o, op, names, toRestore);
        ReadLast(gated.0, Download(true));
        FetchedReports(job, gated.0 + [Download(true)], o, fetched.value, []);
      }
  }

  lemma RemovalReports(o: Oracle, victims: seq<string>)
    requires RunOf([], o, Removal(victims)).outcome.Done?
    ensures Reports(Removal(victims), RunOf([], o, Removal(victims)))
  {
    var act := Multi(victims);
    ReadLast([], Request(act, true));
    var asked := [Request(act, true)];
    ReadLast(asked, Ack(victims[0], true));
    var begun := asked + [Ack(victims[0], true)];
    UnloadsStartNothing(begun, victims);
    var stopped := Unloads(begun, victims);
    ReadLast(stopped, Confirm(act, true));
    ReadLast(stopped + [Confirm(act, true)], Refresh);
  }

  // ---- When every call works -----------------------------------------------

  predicate Clean(fetched: seq<Fetched>) {
    forall i | 0 <= i < |fetched| :: fetched[i].error == ""
  }

  predicate Workable(job: Job) {
    match job
    case Removal(victims) => victims != []
    case Local(_, _, _) => true
    case Catalog(_, _, fetched, _) => fetched.Some? && Clean(fetched.value)
  }

  ghost predicate AllWork(o: Oracle) {
    forall n :: o(n)
  }

  lemma {:induction false} LocalSucceeds(t: Trace, o: Oracle, op: Op, items: seq<Item>, toRestore: seq<string>,
          installed: seq<string>)
    requires AllWork(o)
    ensures LocalRun(t, o, op, items, toRestore, installed).outcome.Done?
    decreases |items|
  {
    if items != [] {
      var gated := Approve(t, o, Single(op, items[0].name), items[0].name, toRestore);
      LocalSucceeds(gated.0 + [InstallFile(items[0].name, items[0].file, true)], o, op, items[1..], toRestore, installed + [items[0].name]);
    }
  }

  lemma {:induction false} GateAllSucceeds(t: Trace, o: Oracle, op: Op, names: seq<string>, toRestore: seq<string>)
    requires AllWork(o)
    ensures GateAll(t, o, op, names, toRestore).1.None?
    decreases |names|
  {
    if names != [] {
      GateAllSucceeds(Approve(t, o, Single(op, names[0]), names[0], toRestore).0, o, op, names[1..], toRestore);
    }
  }

  lemma {:induction false} FetchedSucceeds(t: Trace, o: Oracle, fetched: seq<Fetched>, toRestore: seq<string>,
          installed: seq<string>)
    requires AllWork(o) && Clean(fetched)
    ensures FetchedRun(t, o, fetched, toRestore, installed).outcome.Done?
    decreases |fetched|
  {
    if fetched != [] {
      var d := fetched[0];
      if d.path == "" {
        FetchedSucceeds(t, o, fetched[1..], toRestore, installed);
      } else {
        FetchedSucceeds(t + [InstallFile(d.name, d.path, true)], o, fetched[1..], toRestore, installed + [d.name]);
      }
    }
  }

  /** If every call works, the run ends well; with `EveryRunKeepsTheProtocol` and
      `SuccessIsTrue` it has then done everything that was planned. */
  lemma WorkingCallsSucceed(job: Job, o: Oracle)
    requires AllWork(o) && Workable(job)
    ensures RunOf([], o, job).outcome.Done?
  {
    match job
    case Removal(_) =>
    case Local(op, items, toRestore) => LocalSucceeds([], o, op, items, toRestore, []);
    case Catalog(op, names, fetched, toRestore) =>
      GateAllSucceeds([], o, op, names, toRestore);
      FetchedSucceeds(GateAll([], o, op, names, toRestore).0 + [Download(true)], o, fetched.value, toRestore, []);
  }
}

/** `apply`: driving the package manager's request, acknowledge, confirm gate when any
    call may fail.

    The remote modules are an adversary: an oracle says whether the n-th call of the run
    succeeds. The run is recorded as a trace, and a monitor that knows nothing of the code
    says which traces keep the protocol. */
module PackageGate {
  import opened Options

  datatype Op = Install | Upgrade

  datatype Act = Single(op: Op, name: string) | Multi(names: seq<string>)

  datatype Item = Item(name: string, file: string)

  datatype Fetched = Fetched(name: string, path: string, error: string)

  /** A planned operation. `fetched` is what the downloader will answer. */
  datatype Job =
    | Removal(victims: seq<string>)
    | Local(op: Op, items: seq<Item>, toRestore: seq<string>)
    | Catalog(op: Op, names: seq<string>, fetched: Option<seq<Fetched>>, toRestore: seq<string>)

  datatype Event =
    | Request(act: Act, ok: bool)
    | Ack(name: string, ok: bool)
    | Confirm(act: Act, ok: bool)
    | Cancel(act: Act, ok: bool)
    | Unload(name: string)
    | Download(ok: bool)
    | InstallFile(name: string, file: string, ok: bool)
    | Refresh
    | Load(name: string, ok: bool)

  datatype Step = Planning | Requesting | Acking | Confirming | Downloading | Installing

  datatype Outcome = Done(installed: seq<string>, removed: seq<string>, reloaded: seq<string>) | Failed(step: Step)

  datatype Run = Run(trace: seq<Event>, outcome: Outcome)

  /** Whether the n-th call of the run succeeds. */
  type Oracle = nat -> bool

  type Trace = seq<Event>

  // ---- What a run does, as a function of the oracle ------------------------

  function OpenGate(t: Trace, o: Oracle, act: Act, front: string): (Trace, bool) {
    var asked := t + [Request(act, o(|t|))];
    if !o(|t|) then (asked, false) else (asked + [Ack(front, o(|asked|))], o(|asked|))
  }

  function Unloads(t: Trace, names: seq<string>): Trace
    decreases |names|
  {
    if names == [] then t else Unloads(t + [Unload(names[0])], names[1..])
  }

  function Loads(t: Trace, o: Oracle, names: seq<string>, reloaded: seq<string>): (Trace, seq<string>)
    decreases |names|
  {
    if names == [] then (t, reloaded)
    else Loads(t + [Load(names[0], o(|t|))], o, names[1..], if o(|t|) then reloaded + [names[0]] else reloaded)
  }

  /** Gate one install or upgrade; the step that failed, if any. */
  function Approve(t: Trace, o: Oracle, act: Act, front: string, toRestore: seq<string>): (Trace, Option<Step>) {
    var begun := OpenGate(t, o, act, front);
    if !begun.1 then (begun.0, Some(Requesting))
    else
      var stopped := Unloads(begun.0, toRestore);
      var confirmed := stopped + [Confirm(act, o(|stopped|))];
      if o(|stopped|) then (confirmed, None)
      else (confirmed + [Cancel(act, o(|confirmed|))], Some(Confirming))
  }

  function Restore(t: Trace, o: Oracle, toRestore: seq<string>, installed: seq<string>): Run {
    var loaded := Loads(t + [Refresh], o, toRestore, []);
    Run(loaded.0, Done(installed, [], loaded.1))
  }

  function LocalRun(t: Trace, o: Oracle, op: Op, items: seq<Item>, toRestore: seq<string>, installed: seq<string>): Run
    decreases |items|
  {
    if items == [] then Restore(t, o, toRestore, installed)
    else
      var gated := Approve(t, o, Single(op, items[0].name), items[0].name, toRestore);
      if gated.1.Some? then Run(gated.0, Failed(gated.1.value))
      else
        var next := gated.0 + [InstallFile(items[0].name, items[0].file, o(|gated.0|))];
        if !o(|gated.0|) then Run(next, Failed(Installing))
        else LocalRun(next, o, op, items[1..], toRestore, installed + [items[0].name])
  }

  function GateAll(t: Trace, o: Oracle, op: Op, names: seq<string>, toRestore: seq<string>): (Trace, Option<Step>)
    decreases |names|
  {
    if names == [] then (t, None)
    else
      var gated := Approve(t, o, Single(op, names[0]), names[0], toRestore);
      if gated.1.Some? then gated else GateAll(gated.0, o, op, names[1..], toRestore)
  }

  function FetchedRun(t: Trace, o: Oracle, fetched: seq<Fetched>, toRestore: seq<string>, installed: seq<string>): Run
    decreases |fetched|
  {
    if fetched == [] then Restore(t, o, toRestore, installed)
    else if fetched[0].error != "" then Run(t, Failed(Downloading))
    else if fetched[0].path == "" then FetchedRun(t, o, fetched[1..], toRestore, installed)
    else
      var next := t + [InstallFile(fetched[0].name, fetched[0].path, o(|t|))];
      if !o(|t|) then Run(next, Failed(Installing))
      else FetchedRun(next, o, fetched[1..], toRestore, installed + [fetched[0].name])
  }

  function CatalogRun(t: Trace, o: Oracle, op: Op, names: seq<string>, fetched: Option<seq<Fetched>>,
          toRestore: seq<string>): Run {
    var gated := GateAll(t, o, op, names, toRestore);
    if gated.1.Some? then Run(gated.0, Failed(gated.1.value))
    else
      var asked := gated.0 + [Download(fetched.Some?)];
      if fetched.None? then Run(asked, Failed(Downloading))
      else FetchedRun(asked, o, fetched.value, toRestore, [])
  }

  function RemovalRun(t: Trace, o: Oracle, victims: seq<string>): Run {
    if victims == [] then Run(t, Failed(Planning))
    else
      var act := Multi(victims);
      var begun := OpenGate(t, o, act, victims[0]);
      if !begun.1 then
        if |begun.0| == |t| + 1 then Run(begun.0, Failed(Requesting))
        else Run(begun.0 + [Cancel(act, o(|begun.0|))], Failed(Acking))
      else
        var stopped := Unloads(begun.0, victims);
        var confirmed := stopped + [Confirm(act, o(|stopped|))];
        if !o(|stopped|) then Run(confirmed, Failed(Confirming))
        else Run(confirmed + [Refresh], Done([], victims, []))
  }

  function RunOf(t: Trace, o: Oracle, job: Job): Run {
    match job
    case Removal(victims) => RemovalRun(t, o, victims)
    case Local(op, items, toRestore) => LocalRun(t, o, op, items, toRestore, [])
    case Catalog(op, names, fetched, toRestore) => CatalogRun(t, o, op, names, fetched, toRestore)
  }

  // ---- The code, step by step ----------------------------------------------

  class PackageOps {
    var trace: Trace
    const oracle: Oracle

    constructor (oracle: Oracle)
      ensures this.oracle == oracle && trace == []
    {
      this.oracle, trace := oracle, [];
    }

    /** One remote call: record it together with how it went. */
    method Call(failing: Event, working: Event) returns (ok: bool)
      modifies this
      ensures ok == oracle(|old(trace)|)
      ensures trace == old(trace) + [if ok then working else failing]
    {
      ok := oracle(|trace|);
      trace := trace + [if ok then working else failing];
    }

    method Open(act: Act, front: string) returns (ok: bool)
      modifies this
      ensures (trace, ok) == OpenGate(old(trace), oracle, act, front)
    {
      ok := Call(Request(act, false), Request(act, true));
      if !ok { return; }
      ok := Call(Ack(front, false), Ack(front, true));
    }

    method UnloadAll(names: seq<string>)
      modifies this
      ensures trace == Unloads(old(trace), names)
    {
      var i := 0;
      while i < |names|
        invariant 0 <= i <= |names|
        invariant Unloads(trace, names[i..]) == Unloads(old(trace), names)
      {
        assert names[i..][1..] == names[i + 1..];
        trace := trace + [Unload(names[i])];
        i := i + 1;
      }
    }

    method Gate(act: Act, front: string, toRestore: seq<string>) returns (failed: Option<Step>)
      modifies this
      ensures (trace, failed) == Approve(old(trace), oracle, act, front, toRestore)
    {
      var ok := Open(act, front);
      if !ok { return Some(Requesting); }
      UnloadAll(toRestore);
      ok := Call(Confirm(act, false), Confirm(act, true));
      if !ok {
        ok := Call(Cancel(act, false), Cancel(act, true));
        return Some(Confirming);
      }
      return None;
    }

    method Reload(toRestore: seq<string>, installed: seq<string>) returns (out: Outcome)
      modifies this
      ensures Run(trace, out) == Restore(old(trace), oracle, toRestore, installed)
    {
      trace := trace + [Refresh];
      var reloaded: seq<string>, i := [], 0;
      while i < |toRestore|
        invariant 0 <= i <= |toRestore|
        invariant Loads(trace, oracle, toRestore[i..], reloaded) == Loads(old(trace) + [Refresh], oracle, toRestore, [])
      {
        assert toRestore[i..][1..] == toRestore[i + 1..];
        var ok := Call(Load(toRestore[i], false), Load(toRestore[i], true));
        if ok { reloaded := reloaded + [toRestore[i]]; }
        i := i + 1;
      }
      return Done(installed, [], reloaded);
    }

    method ApplyLocal(op: Op, items: seq<Item>, toRestore: seq<string>) returns (out: Outcome)
      modifies this
      ensures Run(trace, out) == LocalRun(old(trace), oracle, op, items, toRestore, [])
    {
      var installed: seq<string>, i := [], 0;
      while i < |items|
        invariant 0 <= i <= |items|
        invariant LocalRun(trace, oracle, op, items[i..], toRestore, installed)
               == LocalRun(old(trace), oracle, op, items, toRestore, [])
      {
        assert items[i..][1..] == items[i + 1..];
        var item := items[i];
        var failed := Gate(Single(op, item.name), item.name, toRestore);
        if failed.Some? { return Failed(failed.value); }
        var ok := Call(InstallFile(item.name, item.file, false), InstallFile(item.name, item.file, true));
        if !ok { return Failed(Installing); }
        installed := installed + [item.name];
        i := i + 1;
      }
      out := Reload(toRestore, installed);
    }

    method OpenAll(op: Op, names: seq<string>, toRestore: seq<string>) returns (failed: Option<Step>)
      modifies this
      ensures (trace, failed) == GateAll(old(trace), oracle, op, names, toRestore)
    {
      var i := 0;
      while i < |names|
        invariant 0 <= i <= |names|
        invariant GateAll(trace, oracle, op, names[i..], toRestore) == GateAll(old(trace), oracle, op, names, toRestore)
      {
        assert names[i..][1..] == names[i + 1..];
        failed := Gate(Single(op, names[i]), names[i], toRestore);
        if failed.Some? { return; }
        i := i + 1;
      }
      return None;
    }

    method InstallFetched(fetched: seq<Fetched>, toRestore: seq<string>) returns (out: Outcome)
      modifies this
      ensures Run(trace, out) == FetchedRun(old(trace), oracle, fetched, toRestore, [])
    {
      var installed: seq<string>, i := [], 0;
      while i < |fetched|
        invariant 0 <= i <= |fetched|
        invariant FetchedRun(trace, oracle, fetched[i..], toRestore, installed)
               == FetchedRun(old(trace), oracle, fetched, toRestore, [])
      {
        assert fetched[i..][1..] == fetched[i + 1..];
        var d := fetched[i];
        i := i + 1;
        if d.error != "" { return Failed(Downloading); }
        if d.path == "" { continue; }
        var ok := Call(InstallFile(d.name, d.path, false), InstallFile(d.name, d.path, true));
        if !ok { return Failed(Installing); }
        installed := installed + [d.name];
      }
      out := Reload(toRestore, installed);
    }

    method ApplyRemoval(victims: seq<string>) returns (out: Outcome)
      modifies this
      ensures Run(trace, out) == RemovalRun(old(trace), oracle, victims)
    {
      if victims == [] { return Failed(Planning); }
      var act := Multi(victims);
      var ok := Call(Request(act, false), Request(act, true));
      if !ok { return Failed(Requesting); }
      ok := Call(Ack(victims[0], false), Ack(victims[0], true));
      if !ok {
        ok := Call(Cancel(act, false), Cancel(act, true));
        return Failed(Acking);
      }
      UnloadAll(victims);
      ok := Call(Confirm(act, false), Confirm(act, true));
      if !ok { return Failed(Confirming); }
      trace := trace + [Refresh];
      return Done([], victims, []);
    }

    method Apply(job: Job) returns (out: Outcome)
      modifies this
      ensures Run(trace, out) == RunOf(old(trace), oracle, job)
    {
      match job
      case Removal(victims) =>
        out := ApplyRemoval(victims);
      case Local(op, items, toRestore) =>
        out := ApplyLocal(op, items, toRestore);
      case Catalog(op, names, fetched, toRestore) =>
        var failed := OpenAll(op, names, toRestore);
        if failed.Some? { return Failed(failed.value); }
        trace := trace + [Download(fetched.Some?)];
        if fetched.None? { return Failed(Downloading); }
        out := InstallFetched(fetched.value, toRestore);
    }
  }
}

/** Replacing the message receiver while the pump may be running it.

    The pump holds a recursive lock across each delivery: it copies the installed
    receiver and runs the copy. `setReceiver` takes the same lock, so a caller on
    another thread waits out a delivery in progress, while a receiver may replace
    itself from inside its own delivery. Each installation gets a number of its own,
    so that "the same receiver" has a meaning. */
module ReceiverHandover {
  import opened Options

  datatype Who = Pump | Caller(id: nat)

  /** A call of `setReceiver`; `install` is false for a null receiver. */
  datatype Call =
    | Outside
    | Waits(install: bool)             // about to take the lock
    | Assigns(install: bool)           // lock held
    | Returns(replaced: Option<nat>)   // lock held, about to release it

  datatype PumpPc =
    | Decodes
    | WaitsToDeliver
    | Copies                           // lock held
    | Runs(cb: nat, inner: Call)       // lock held; the receiver may call setReceiver
    | EndsDelivery                     // lock held

  datatype Event =
    | Invoked(cb: nat)
    | Finished(cb: nat)
    | Replaced(cb: nat)                // the member was assigned over
    | Retired(cb: nat)                 // a call from another thread that replaced it returned

  datatype Gate = Gate(
    owner: Option<Who>, depth: nat, receiver: Option<nat>, next: nat,
    pump: PumpPc, calls: map<nat, Call>, trace: seq<Event>)

  const START := Gate(None, 0, None, 0, Decodes, map[], [])

  datatype Step =
    | LineDecoded
    | PumpLocks
    | PumpCopies
    | ReceiverEnds
    | PumpUnlocks
    | CallBegins(who: Who, install: bool)
    | CallLocks(who: Who)
    | CallAssigns(who: Who)
    | CallReturns(who: Who)

  function CallOf(g: Gate, who: Who): Call {
    match who
    case Pump => if g.pump.Runs? then g.pump.inner else Outside
    case Caller(id) => if id in g.calls then g.calls[id] else Outside
  }

  function WithCall(g: Gate, who: Who, c: Call): Gate
    requires who.Pump? ==> g.pump.Runs?
  {
    match who
    case Pump => g.(pump := g.pump.(inner := c))
    case Caller(id) => g.(calls := g.calls[id := c])
  }

  predicate Enabled(g: Gate, s: Step) {
    match s
    case LineDecoded => g.pump.Decodes?
    case PumpLocks => g.pump.WaitsToDeliver? && g.owner.None?
    case PumpCopies => g.pump.Copies?
    case ReceiverEnds => g.pump.Runs? && g.pump.inner.Outside?
    case PumpUnlocks => g.pump.EndsDelivery? && g.depth > 0
    case CallBegins(who, _) => (who.Pump? ==> g.pump.Runs?) && CallOf(g, who).Outside?
    case CallLocks(who) => CallOf(g, who).Waits? && (g.owner.None? || g.owner == Some(who))
    case CallAssigns(who) => CallOf(g, who).Assigns?
    case CallReturns(who) => CallOf(g, who).Returns? && g.depth > 0
  }

  function Lock(g: Gate, who: Who): Gate {
    g.(owner := Some(who), depth := g.depth + 1)
  }

  function Unlock(g: Gate): Gate
    requires g.depth > 0
  {
    g.(owner := if g.depth == 1 then None else g.owner, depth := g.depth - 1)
  }

  function Log(g: Gate, es: seq<Event>): Gate {
    g.(trace := g.trace + es)
  }

  function Assign(g: Gate, install: bool): Gate {
    Log(g, if g.receiver.Some? then [Replaced(g.receiver.value)] else [])
      .(receiver := if install then Some(g.next) else None, next := g.next + 1)
  }

  function Next(g: Gate, s: Step): Gate
    requires Enabled(g, s)
  {
    match s
    case LineDecoded => g.(pump := WaitsToDeliver)
    case PumpLocks => Lock(g, Pump).(pump := Copies)
    case PumpCopies =>
      if g.receiver.Some? then
        Log(g, [Invoked(g.receiver.value)]).(pump := Runs(g.receiver.value, Outside))
      else g.(pump := EndsDelivery)
    case ReceiverEnds => Log(g, [Finished(g.pump.cb)]).(pump := EndsDelivery)
    case PumpUnlocks => Unlock(g).(pump := Decodes)
    case CallBegins(who, install) => WithCall(g, who, Waits(install))
    case CallLocks(who) => WithCall(Lock(g, who), who, Assigns(CallOf(g, who).install))
    case CallAssigns(who) =>
      WithCall(Assign(g, CallOf(g, who).install), who, Returns(g.receiver))
    case CallReturns(who) =>
      var was := CallOf(g, who).replaced;
      WithCall(Log(Unlock(g), if was.Some? && who.Caller? then [Retired(was.value)] else []), who, Outside)
  }

  // ---- What is kept --------------------------------------------------------

  predicate InsideCall(g: Gate, who: Who) {
    var c := CallOf(g, who);
    c.Assigns? || c.Returns?
  }

  predicate Holds(g: Gate, who: Who) {
    InsideCall(g, who) || (who.Pump? && (g.pump.Copies? || g.pump.Runs? || g.pump.EndsDelivery?))
  }

  function HoldDepth(g: Gate, who: Who): nat {
    (if InsideCall(g, who) then 1 else 0)
    + (if who.Pump? && (g.pump.Copies? || g.pump.Runs? || g.pump.EndsDelivery?) then 1 else 0)
  }

  predicate PartyOk(g: Gate, who: Who) {
    var c := CallOf(g, who);
    && (Holds(g, who) <==> g.owner == Some(who))
    && (g.owner == Some(who) ==> g.depth == HoldDepth(g, who))
    && (c.Returns? && c.replaced.Some? ==> Replaced(c.replaced.value) in g.trace)
  }

  function Subject(e: Event): nat {
    e.cb
  }

  /** No event of the trace contradicts an earlier replacement: a replaced receiver is
      not invoked again, and a retired one was not even running. */
  predicate Orderly(t: seq<Event>) {
    && (forall i, j | 0 <= i < j < |t| && t[i].Replaced? :: t[j] != Invoked(t[i].cb))
    && (forall i, j | 0 <= i < j < |t| && t[i].Retired? :: t[j] != Invoked(t[i].cb) && t[j] != Finished(t[i].cb))
  }

  ghost predicate Inv(g: Gate) {
    && (forall who: Who :: PartyOk(g, who))
    && (g.owner.None? ==> g.depth == 0)
    && (g.receiver.Some? ==> g.receiver.value < g.next && Replaced(g.receiver.value) !in g.trace)
    && (forall e <- g.trace :: Subject(e) < g.next)
    && (forall e <- g.trace :: e.Retired? ==> Replaced(e.cb) in g.trace)
    && (g.pump.Runs? ==> Retired(g.pump.cb) !in g.trace && g.pump.cb < g.next)
    && Orderly(g.trace)
  }

  lemma StartHolds()
    ensures Inv(START)
  {
  }

  function Actor(s: Step): Who {
    match s
    case CallBegins(who, _) => who
    case CallLocks(who) => who
    case CallAssigns(who) => who
    case CallReturns(who) => who
    case _ => Pump
  }

  lemma PartiesStep(g: Gate, s: Step, who: Who)
    requires Enabled(g, s) && PartyOk(g, who) && PartyOk(g, Actor(s))
    requires g.owner.None? ==> g.depth == 0
    ensures PartyOk(Next(g, s), who)
  {
    assert forall e <- g.trace :: e in Next(g, s).trace;
    if who != Actor(s) {
      assert CallOf(Next(g, s), who) == CallOf(g, who);
    }
  }

  lemma OrderlyLog(t: seq<Event>, e: Event)
    requires Orderly(t)
    requires e.Invoked? ==> Replaced(e.cb) !in t && Retired(e.cb) !in t
    requires e.Finished? ==> Retired(e.cb) !in t
    ensures Orderly(t + [e])
  {
  }

  lemma TraceStep(g: Gate, s: Step)
    requires Inv(g) && Enabled(g, s)
    ensures Orderly(Next(g, s).trace)
  {
    assert PartyOk(g, Actor(s));
    assert g.trace + [] == g.trace;
    match s {
      case PumpCopies => if g.receiver.Some? { OrderlyLog(g.trace, Invoked(g.receiver.value)); }
      case ReceiverEnds => OrderlyLog(g.trace, Finished(g.pump.cb));
      case CallAssigns(who) => if g.receiver.Some? { OrderlyLog(g.trace, Replaced(g.receiver.value)); }
      case CallReturns(who) =>
        var was := CallOf(g, who).replaced;
        if was.Some? { OrderlyLog(g.trace, Retired(was.value)); }
      case _ =>
    }
  }

  lemma StepKeepsInv(g: Gate, s: Step)
    requires Inv(g) && Enabled(g, s)
    ensures Inv(Next(g, s))
  {
    assert PartyOk(g, Actor(s)) && PartyOk(g, Pump);
    forall who: Who ensures PartyOk(Next(g, s), who) { PartiesStep(g, s, who); }
    TraceStep(g, s);
    assert g.trace + [] == g.trace;
  }

  function Run(g: Gate, steps: seq<Step>): Option<Gate>
    decreases |steps|
  {
    if steps == [] then Some(g)
    else if !Enabled(g, steps[0]) then None
    else Run(Next(g, steps[0]), steps[1..])
  }

  lemma {:induction false} RunKeepsInv(g: Gate, steps: seq<Step>)
    requires Inv(g) && Run(g, steps).Some?
    ensures Inv(Run(g, steps).value)
    decreases |steps|
  {
    if steps != [] {
      StepKeepsInv(g, steps[0]);
      RunKeepsInv(Next(g, steps[0]), steps[1..]);
    }
  }

  /** Once `setReceiver` has returned on a thread other than the pump, the receiver it
      replaced is not running, was not running when the call returned, and is never
      invoked again. One that replaced itself from inside its own delivery may still
      be finishing, but is never invoked again either. */
  lemma ReplacedReceiverIsGone(steps: seq<Step>)
    requires Run(START, steps).Some?
    ensures var g := Run(START, steps).value;
            && Orderly(g.trace)
            && (forall cb: nat | Retired(cb) in g.trace :: !(g.pump.Runs? && g.pump.cb == cb) && g.receiver != Some(cb))
            && (forall cb: nat | Replaced(cb) in g.trace :: g.receiver != Some(cb))
  {
    StartHolds();
    RunKeepsInv(START, steps);
  }

  // ---- Who is invoked, by the history of the run ---------------------------

  /** What the last call that `who` began was to install. */
  function Wanted(steps: seq<Step>, who: Who): bool {
    if steps == [] then false
    else
      var front, last := steps[..|steps| - 1], steps[|steps| - 1];
      if last.CallBegins? && last.who == who then last.install else Wanted(front, who)
  }

  /** How many receivers were assigned; the next one gets this number. */
  function Assigned(steps: seq<Step>): nat {
    if steps == [] then 0
    else Assigned(steps[..|steps| - 1]) + if steps[|steps| - 1].CallAssigns? then 1 else 0
  }

  /** The receiver that was assigned last. */
  function Installed(steps: seq<Step>): Option<nat> {
    if steps == [] then None
    else
      var front, last := steps[..|steps| - 1], steps[|steps| - 1];
      if !last.CallAssigns? then Installed(front)
      else if Wanted(front, last.who) then Some(Assigned(front)) else None
  }

  /** What the last assignment of `who` replaced. */
  function ReplacedBy(steps: seq<Step>, who: Who): Option<nat> {
    if steps == [] then None
    else
      var front, last := steps[..|steps| - 1], steps[|steps| - 1];
      if last == CallAssigns(who) then Installed(front) else ReplacedBy(front, who)
  }

  /** The receivers to run: at each delivery the one installed then, if there is one. */
  function Delivered(steps: seq<Step>): seq<nat> {
    if steps == [] then []
    else
      var front, last := steps[..|steps| - 1], steps[|steps| - 1];
      Delivered(front) + if last.PumpCopies? && Installed(front).Some? then [Installed(front).value] else []
  }

  function Invocations(t: seq<Event>): seq<nat> {
    if t == [] then []
    else Invocations(t[..|t| - 1]) + if t[|t| - 1].Invoked? then [t[|t| - 1].cb] else []
  }

  predicate CallAsWanted(g: Gate, steps: seq<Step>, who: Who) {
    match CallOf(g, who)
    case Outside => true
    case Waits(install) => install == Wanted(steps, who)
    case Assigns(install) => install == Wanted(steps, who)
    case Returns(replaced) => replaced == ReplacedBy(steps, who)
  }

  ghost predicate AsHistory(g: Gate, steps: seq<Step>) {
    && g.receiver == Installed(steps) && g.next == Assigned(steps)
    && (forall who: Who :: CallAsWanted(g, steps, who))
    && Invocations(g.trace) == Delivered(steps)
    && (g.pump.Runs? ==> Delivered(steps) != [] && g.pump.cb == Delivered(steps)[|Delivered(steps)| - 1])
  }

  lemma {:induction false} RunSnoc(g: Gate, steps: seq<Step>)
    requires steps != [] && Run(g, steps).Some?
    ensures var front, last := steps[..|steps| - 1], steps[|steps| - 1];
            && Run(g, front).Some? && Enabled(Run(g, front).value, last)
            && Run(g, steps) == Some(Next(Run(g, front).value, last))
    decreases |steps|
  {
    if |steps| > 1 {
      assert steps[1..][..|steps| - 2] == steps[..|steps| - 1][1..];
      RunSnoc(Next(g, steps[0]), steps[1..]);
    }
  }

  lemma InvocationsGrow(t: seq<Event>, e: Event)
    ensures Invocations(t + [e]) == Invocations(t) + if e.Invoked? then [e.cb] else []
    ensures Invocations(t + []) == Invocations(t)
  {
    assert (t + [e])[..|t|] == t && t + [] == t;
  }

  lemma CallsStep(g: Gate, front: seq<Step>, s: Step, who: Who)
    requires Enabled(g, s) && CallAsWanted(g, front, who) && CallAsWanted(g, front, Actor(s)) && g.receiver == Installed(front)
    ensures CallAsWanted(Next(g, s), front + [s], who)
  {
    assert (front + [s])[..|front|] == front;
    if who != Actor(s) { assert CallOf(Next(g, s), who) == CallOf(g, who); }
  }

  lemma StepAsHistory(g: Gate, front: seq<Step>, s: Step)
    requires AsHistory(g, front) && Enabled(g, s)
    ensures AsHistory(Next(g, s), front + [s])
  {
    assert (front + [s])[..|front|] == front;
    forall who: Who ensures CallAsWanted(Next(g, s), front + [s], who) {
      assert CallAsWanted(g, front, who) && CallAsWanted(g, front, Actor(s));
      CallsStep(g, front, s, who);
    }
    assert CallAsWanted(g, front, Actor(s));
    TraceAsHistory(g, front, s);
  }

  lemma TraceAsHistory(g: Gate, front: seq<Step>, s: Step)
    requires AsHistory(g, front) && Enabled(g, s)
    ensures Invocations(Next(g, s).trace) == Delivered(front + [s])
  {
    assert (front + [s])[..|front|] == front;
    assert Delivered(front) + [] == Delivered(front) && g.trace + [] == g.trace;
    match s {
      case PumpCopies => if g.receiver.Some? { InvocationsGrow(g.trace, Invoked(g.receiver.value)); }
      case ReceiverEnds => InvocationsGrow(g.trace, Finished(g.pump.cb));
      case CallAssigns(who) => if g.receiver.Some? { InvocationsGrow(g.trace, Replaced(g.receiver.value)); }
      case CallReturns(who) =>
        var was := CallOf(g, who).replaced;
        if was.Some? { InvocationsGrow(g.trace, Retired(was.value)); }
      case _ =>
    }
  }

  lemma {:induction false} RunAsHistory(steps: seq<Step>)
    requires Run(START, steps).Some?
    ensures AsHistory(Run(START, steps).value, steps)
    decreases |steps|
  {
    if steps != [] {
      var front, last := steps[..|steps| - 1], steps[|steps| - 1];
      RunSnoc(START, steps);
      RunAsHistory(front);
      StepAsHistory(Run(START, front).value, front, last);
      assert front + [last] == steps;
    }
  }

  /** Whatever the interleaving, each delivery runs the receiver assigned last, and none
      runs when there is none. */
  lemma InstalledIsInvoked(steps: seq<Step>)
    requires Run(START, steps).Some?
    ensures Invocations(Run(START, steps).value.trace) == Delivered(steps)
    ensures Run(START, steps).value.receiver == Installed(steps)
  {
    RunAsHistory(steps);
  }

  lemma {:induction false} TraceGrows(g: Gate, steps: seq<Step>)
    requires Run(g, steps).Some?
    ensures g.trace <= Run(g, steps).value.trace
    decreases |steps|
  {
    if steps != [] {
      assert g.trace <= Next(g, steps[0]).trace;
      TraceGrows(Next(g, steps[0]), steps[1..]);
    }
  }

  lemma {:induction false} RunConcat(g: Gate, a: seq<Step>, b: seq<Step>)
    requires Run(g, a).Some?
    ensures Run(g, a + b) == Run(Run(g, a).value, b)
    decreases |a|
  {
    if a == [] {
      assert a + b == b;
    } else {
      assert (a + b)[0] == a[0] && (a + b)[1..] == a[1..] + b;
      RunConcat(Next(g, a[0]), a[1..], b);
    }
  }

  /** The promise of `setReceiver`, in terms of the run alone: from the moment a call on
      another thread returns, the receiver it replaced neither runs nor is invoked, however
      the run goes on. */
  lemma NotAfterReturn(before: seq<Step>, id: nat, after: seq<Step>, cb: nat)
    requires Run(START, before + [CallReturns(Caller(id))] + after).Some? && Run(START, before + [CallReturns(Caller(id))]).Some?
    requires ReplacedBy(before, Caller(id)) == Some(cb)
    ensures var t := Run(START, before + [CallReturns(Caller(id))]).value.trace;
            var e := Run(START, before + [CallReturns(Caller(id))] + after).value;
            && t <= e.trace && (forall i | |t| <= i < |e.trace| :: e.trace[i] != Invoked(cb) && e.trace[i] != Finished(cb))
            && !(e.pump.Runs? && e.pump.cb == cb)
  {
    var steps := before + [CallReturns(Caller(id))];
    assert steps[..|steps| - 1] == before;
    RunSnoc(START, steps);
    RunAsHistory(before);
    var g := Run(START, before).value;
    assert CallAsWanted(g, before, Caller(id));
    assert Next(g, CallReturns(Caller(id))).trace == g.trace + [Retired(cb)];
    RunConcat(START, steps, after);
    TraceGrows(Run(START, steps).value, after);
    var e := Run(START, steps + after).value;
    assert e.trace[|g.trace|] == Retired(cb);
    ReplacedReceiverIsGone(steps + after);
  }

  /** From the moment it is replaced, by whom ever, it is not invoked again. */
  lemma NotAfterAssign(before: seq<Step>, who: Who, after: seq<Step>, cb: nat)
    requires Run(START, before + [CallAssigns(who)] + after).Some? && Run(START, before + [CallAssigns(who)]).Some?
    requires Installed(before) == Some(cb)
    ensures var t := Run(START, before + [CallAssigns(who)]).value.trace;
            var e := Run(START, before + [CallAssigns(who)] + after).value;
            t <= e.trace && forall i | |t| <= i < |e.trace| :: e.trace[i] != Invoked(cb)
  {
    var steps := before + [CallAssigns(who)];
    assert steps[..|steps| - 1] == before;
    RunSnoc(START, steps);
    RunAsHistory(before);
    var g := Run(START, before).value;
    assert Next(g, CallAssigns(who)).trace == g.trace + [Replaced(cb)];
    RunConcat(START, steps, after);
    TraceGrows(Run(START, steps).value, after);
    assert Run(START, steps + after).value.trace[|g.trace|] == Replaced(cb);
    ReplacedReceiverIsGone(steps + after);
  }

  // ---- Nobody is stuck -----------------------------------------------------

  /** Whoever holds the lock can go on, a receiver that replaces itself included; and a
      party that waits for a free lock can take it. */
  lemma NobodyIsStuck(steps: seq<Step>)
    requires Run(START, steps).Some?
    ensures var g := Run(START, steps).value;
            && (g.owner.Some? ==> exists s :: Enabled(g, s) && Actor(s) == g.owner.value)
            && (g.owner.None? && g.pump.WaitsToDeliver? ==> Enabled(g, PumpLocks))
            && (forall who: Who :: g.owner.None? && CallOf(g, who).Waits? ==> Enabled(g, CallLocks(who)))
  {
    StartHolds();
    RunKeepsInv(START, steps);
    var g := Run(START, steps).value;
    if g.owner.Some? {
      var who := g.owner.value;
      assert PartyOk(g, who);
      var s := if InsideCall(g, who) then (if CallOf(g, who).Assigns? then CallAssigns(who) else CallReturns(who))
               else if g.pump.Copies? then PumpCopies else if g.pump.EndsDelivery? then PumpUnlocks
               else if g.pump.inner.Waits? then CallLocks(Pump) else ReceiverEnds;
      assert Enabled(g, s) && Actor(s) == who;
    }
  }
}

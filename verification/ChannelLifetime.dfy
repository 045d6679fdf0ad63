/** The socket descriptor shared by one pump thread, any number of senders and any
    number of closers. A step is one lock operation, one test or one system call, so
    a run is any interleaving of them; the pump's blocking `recv` happens outside the
    lock, and a message receiver running on the pump may itself send or close.

    The question is whether any system call can hit a descriptor that has been closed,
    and so possibly belongs to somebody else by then. */
module ChannelLifetime {
  import opened Options

  datatype Who = Pump | Worker(id: nat)

  /** Where a call to `write` or `shutdownFd` stands. */
  datatype Task =
    | Done
    | WriteEnters(size: nat)           // waiting for the lock
    | WriteTests(size: nat)            // lock held, about to test closed and fd
    | Sends(fd: int, left: nat)        // lock held, in the send loop
    | CloseEnters
    | CloseTests
    | ShutsDown(fd: int)               // lock held, closed set, about to shutdown()
    | Leaves                           // lock held, about to release it

  /** Where the pump stands. */
  datatype PumpPc =
    | LoopTop                          // about to take the lock
    | LoopTests                        // lock held
    | Receives(fd: int)                // no lock: blocked in recv
    | Delivers(task: Task)             // decoding, and running receivers
    | ExitEnters                       // left the loop, about to take the lock
    | ExitMarks                        // lock held, about to set closed
    | ExitCloses(fd: int)              // lock held, about to close()
    | ExitLeaves
    | Exited

  /** The trace: system calls on a descriptor, and what calls reported. */
  datatype Event =
    | Uses(who: Who, fd: int)          // send, recv or shutdown
    | Closes(who: Who, fd: int)
    | MarkedClosed
    | WriteSucceeded(who: Who)
    | WriteFailed(who: Who)

  datatype Channel = Channel(
    holder: Option<Who>, fd: int, closed: bool,
    pump: PumpPc, workers: map<nat, Task>,
    kernelOpen: bool,                  // the descriptor number still means this socket
    trace: seq<Event>)

  const NO_FD := -1

  function Start(fd: int): Channel {
    Channel(None, fd, false, LoopTop, map[], true, [])
  }

  datatype Step =
    | BeginsWrite(who: Who, size: nat)
    | BeginsClose(who: Who)
    | Locks(who: Who)
    | Tests(who: Who)
    | SendTakes(who: Who, n: nat)
    | SendInterrupted(who: Who)        // EINTR: the loop tries again
    | SendFails(who: Who)
    | CallsShutdown(who: Who)
    | Unlocks(who: Who)
    | RecvReturns(bytes: bool)         // data, or end of stream or an error
    | RecvInterrupted
    | DeliveryEnds
    | PumpMarks
    | PumpCloses

  function TaskOf(c: Channel, who: Who): Task {
    match who
    case Pump => if c.pump.Delivers? then c.pump.task else Done
    case Worker(id) => if id in c.workers then c.workers[id] else Done
  }

  /** The pump runs tasks only inside a receiver; workers any time. */
  predicate MayRun(c: Channel, who: Who) {
    who.Pump? ==> c.pump.Delivers?
  }

  function WithTask(c: Channel, who: Who, t: Task): Channel
    requires MayRun(c, who)
  {
    match who
    case Pump => c.(pump := Delivers(t))
    case Worker(id) => c.(workers := c.workers[id := t])
  }

  predicate WantsLock(c: Channel, who: Who) {
    var t := TaskOf(c, who);
    t.WriteEnters? || t.CloseEnters? || (who.Pump? && (c.pump.LoopTop? || c.pump.ExitEnters?))
  }

  predicate Enabled(c: Channel, s: Step) {
    match s
    case BeginsWrite(who, size) => MayRun(c, who) && TaskOf(c, who).Done? && size > 0
    case BeginsClose(who) => MayRun(c, who) && TaskOf(c, who).Done?
    case Locks(who) => c.holder.None? && WantsLock(c, who)
    case Tests(who) =>
      var t := TaskOf(c, who);
      t.WriteTests? || t.CloseTests? || (who.Pump? && c.pump.LoopTests?)
    case SendTakes(who, n) => var t := TaskOf(c, who); t.Sends? && 0 < n <= t.left
    case SendInterrupted(who) => TaskOf(c, who).Sends?
    case SendFails(who) => TaskOf(c, who).Sends?
    case CallsShutdown(who) => TaskOf(c, who).ShutsDown?
    case Unlocks(who) => TaskOf(c, who).Leaves? || (who.Pump? && c.pump.ExitLeaves?)
    case RecvReturns(_) => c.pump.Receives?
    case RecvInterrupted => c.pump.Receives?
    case DeliveryEnds => c.pump == Delivers(Done)
    case PumpMarks => c.pump.ExitMarks?
    case PumpCloses => c.pump.ExitCloses?
  }

  function Log(c: Channel, e: Event): Channel {
    c.(trace := c.trace + [e])
  }

  function AfterLock(c: Channel, who: Who): Channel
    requires WantsLock(c, who)
  {
    var held := c.(holder := Some(who));
    var t := TaskOf(c, who);
    if t.WriteEnters? then WithTask(held, who, WriteTests(t.size))
    else if t.CloseEnters? then WithTask(held, who, CloseTests)
    else if c.pump.LoopTop? then held.(pump := LoopTests)
    else held.(pump := ExitMarks)
  }

  /** The test of `closed` and `fd` that follows each lock. */
  function AfterTest(c: Channel, who: Who): Channel
    requires Enabled(c, Tests(who))
  {
    var t := TaskOf(c, who);
    if t.WriteTests? then
      if c.closed || c.fd < 0 then Log(WithTask(c, who, Leaves), WriteFailed(who))
      else WithTask(c, who, Sends(c.fd, t.size))
    else if t.CloseTests? then
      if c.closed then WithTask(c, who, Leaves)
      else
        var marked := Log(c.(closed := true), MarkedClosed);
        WithTask(marked, who, if c.fd >= 0 then ShutsDown(c.fd) else Leaves)
    else if c.closed || c.fd < 0 then
      c.(holder := None, pump := ExitEnters)
    else
      c.(holder := None, pump := Receives(c.fd))
  }

  function Next(c: Channel, s: Step): Channel
    requires Enabled(c, s)
  {
    match s
    case BeginsWrite(who, size) => WithTask(c, who, WriteEnters(size))
    case BeginsClose(who) => WithTask(c, who, CloseEnters)
    case Locks(who) => AfterLock(c, who)
    case Tests(who) => AfterTest(c, who)
    case SendTakes(who, n) =>
      var t := TaskOf(c, who);
      var used := Log(c, Uses(who, t.fd));
      if n == t.left then Log(WithTask(used, who, Leaves), WriteSucceeded(who))
      else WithTask(used, who, Sends(t.fd, t.left - n))
    case SendInterrupted(who) => Log(c, Uses(who, TaskOf(c, who).fd))
    case SendFails(who) =>
      Log(WithTask(Log(c, Uses(who, TaskOf(c, who).fd)), who, Leaves), WriteFailed(who))
    case CallsShutdown(who) =>
      WithTask(Log(c, Uses(who, TaskOf(c, who).fd)), who, Leaves)
    case Unlocks(who) =>
      var free := c.(holder := None);
      if TaskOf(c, who).Leaves? then WithTask(free, who, Done) else free.(pump := Exited)
    case RecvReturns(bytes) =>
      Log(c, Uses(Pump, c.pump.fd)).(pump := if bytes then Delivers(Done) else ExitEnters)
    case RecvInterrupted => Log(c, Uses(Pump, c.pump.fd)).(pump := LoopTop)
    case DeliveryEnds => c.(pump := LoopTop)
    case PumpMarks =>
      Log(c.(closed := true), MarkedClosed)
        .(pump := if c.fd >= 0 then ExitCloses(c.fd) else ExitLeaves)
    case PumpCloses =>
      Log(c.(fd := NO_FD, kernelOpen := false), Closes(Pump, c.pump.fd)).(pump := ExitLeaves)
  }

  // ---- What is kept --------------------------------------------------------

  predicate HoldsLock(c: Channel, who: Who) {
    var t := TaskOf(c, who);
    || t.WriteTests? || t.Sends? || t.CloseTests? || t.ShutsDown? || t.Leaves?
    || (who.Pump? && (c.pump.LoopTests? || c.pump.ExitMarks? || c.pump.ExitCloses? || c.pump.ExitLeaves?))
  }

  predicate PumpClosed(c: Channel) {
    c.pump.ExitLeaves? || c.pump.Exited?
  }

  function CloseCount(t: seq<Event>): nat {
    if t == [] then 0
    else CloseCount(t[..|t| - 1]) + if t[|t| - 1].Closes? then 1 else 0
  }

  /** No system call of the trace comes after the descriptor was closed. */
  predicate NoUseAfterClose(t: seq<Event>) {
    forall i, j | 0 <= i < j < |t| && t[i].Closes? :: !t[j].Uses? && !t[j].Closes?
  }

  /** No write succeeds once the channel is marked closed. */
  predicate NoWriteAfterMark(t: seq<Event>) {
    forall i, j | 0 <= i < j < |t| && t[i].MarkedClosed? :: !t[j].WriteSucceeded?
  }

  /** What the descriptor looks like to one party. */
  predicate PartyOk(c: Channel, fd: int, who: Who) {
    var t := TaskOf(c, who);
    // mutual exclusion
    && (HoldsLock(c, who) <==> c.holder == Some(who))
    && (t.Sends? ==> t.fd == fd && !c.closed && !PumpClosed(c))
    && (t.ShutsDown? ==> t.fd == fd && !PumpClosed(c))
  }

  /** The number is valid exactly until the pump has closed it. */
  predicate DescriptorOk(c: Channel, fd: int) {
    && fd >= 0
    && c.fd == (if PumpClosed(c) then NO_FD else fd)
    && (c.kernelOpen <==> !PumpClosed(c))
    && (c.pump.ExitCloses? ==> c.pump.fd == fd)
    && (c.pump.ExitCloses? || PumpClosed(c) ==> c.closed)
    && (c.pump.Receives? ==> c.pump.fd == fd)
  }

  ghost predicate TraceOk(t: seq<Event>, fd: int, open: bool, closed: bool) {
    && (forall i | 0 <= i < |t| :: (t[i].Uses? ==> t[i].fd == fd) && (t[i].Closes? ==> t[i] == Closes(Pump, fd)))
    && CloseCount(t) == (if open then 0 else 1)
    && (open ==> forall i | 0 <= i < |t| :: !t[i].Closes?)
    && (!closed ==> forall i | 0 <= i < |t| :: !t[i].MarkedClosed?)
    && NoUseAfterClose(t)
    && NoWriteAfterMark(t)
  }

  ghost predicate Inv(c: Channel, fd: int) {
    && DescriptorOk(c, fd)
    && (forall who: Who :: PartyOk(c, fd, who))
    && TraceOk(c.trace, fd, c.kernelOpen, c.closed)
  }

  // ---- Each step keeps it --------------------------------------------------

  /** What may be appended to a sound trace. */
  predicate MayLog(e: Event, fd: int, open: bool, closed: bool) {
    match e
    case Uses(_, d) => d == fd && open
    case Closes(who, d) => who == Pump && d == fd && open
    case MarkedClosed => closed
    case WriteSucceeded(_) => !closed
    case WriteFailed(_) => true
  }

  lemma LogKeepsTrace(t: seq<Event>, e: Event, fd: int, open: bool, closed: bool)
    requires TraceOk(t, fd, open, closed) && MayLog(e, fd, open, closed)
    ensures TraceOk(t + [e], fd, open && !e.Closes?, closed)
  {
    assert (t + [e])[..|t|] == t;
  }

  function Actor(s: Step): Who {
    match s
    case BeginsWrite(who, _) => who
    case BeginsClose(who) => who
    case Locks(who) => who
    case Tests(who) => who
    case SendTakes(who, _) => who
    case SendInterrupted(who) => who
    case SendFails(who) => who
    case CallsShutdown(who) => who
    case Unlocks(who) => who
    case _ => Pump
  }

  lemma DescriptorStep(c: Channel, fd: int, s: Step)
    requires Inv(c, fd) && Enabled(c, s)
    ensures DescriptorOk(Next(c, s), fd)
  {
    assert PartyOk(c, fd, Actor(s));
  }

  lemma ActorStep(c: Channel, fd: int, s: Step)
    requires Inv(c, fd) && Enabled(c, s)
    ensures PartyOk(Next(c, s), fd, Actor(s))
  {
    assert PartyOk(c, fd, Actor(s));
  }

  /** Another party's view survives a step: if it was in the middle of something it
      held the lock, so the step was not one that marks or closes. */
  lemma OtherStep(c: Channel, fd: int, s: Step, other: Who)
    requires Inv(c, fd) && Enabled(c, s) && other != Actor(s)
    ensures PartyOk(Next(c, s), fd, other)
  {
    assert PartyOk(c, fd, Actor(s)) && PartyOk(c, fd, other);
    assert TaskOf(Next(c, s), other) == TaskOf(c, other);
  }

  lemma TraceStep(c: Channel, fd: int, s: Step)
    requires Inv(c, fd) && Enabled(c, s)
    ensures var n := Next(c, s); TraceOk(n.trace, fd, n.kernelOpen, n.closed)
  {
    assert PartyOk(c, fd, Actor(s));
    var t, open := c.trace, c.kernelOpen;
    match s {
      case Tests(who) =>
        if TaskOf(c, who).WriteTests? {
          LogKeepsTrace(t, WriteFailed(who), fd, open, c.closed);
        } else if !c.closed {
          LogKeepsTrace(t, MarkedClosed, fd, open, true);
        }
      case SendTakes(who, n) =>
        LogKeepsTrace(t, Uses(who, fd), fd, open, c.closed);
        LogKeepsTrace(t + [Uses(who, fd)], WriteSucceeded(who), fd, open, c.closed);
      case SendInterrupted(who) => LogKeepsTrace(t, Uses(who, fd), fd, open, c.closed);
      case SendFails(who) =>
        LogKeepsTrace(t, Uses(who, fd), fd, open, c.closed);
        LogKeepsTrace(t + [Uses(who, fd)], WriteFailed(who), fd, open, c.closed);
      case CallsShutdown(who) => LogKeepsTrace(t, Uses(who, fd), fd, open, c.closed);
      case RecvReturns(_) => LogKeepsTrace(t, Uses(Pump, fd), fd, open, c.closed);
      case RecvInterrupted => LogKeepsTrace(t, Uses(Pump, fd), fd, open, c.closed);
      case PumpMarks => LogKeepsTrace(t, MarkedClosed, fd, open, true);
      case PumpCloses => LogKeepsTrace(t, Closes(Pump, fd), fd, open, c.closed);
      case _ =>
    }
  }

  lemma StepKeepsInv(c: Channel, fd: int, s: Step)
    requires Inv(c, fd) && Enabled(c, s)
    ensures Inv(Next(c, s), fd)
  {
    DescriptorStep(c, fd, s);
    TraceStep(c, fd, s);
    forall who: Who ensures PartyOk(Next(c, s), fd, who) {
      if who == Actor(s) { ActorStep(c, fd, s); } else { OtherStep(c, fd, s, who); }
    }
  }

  lemma StartHolds(fd: int)
    requires fd >= 0
    ensures Inv(Start(fd), fd)
  {
  }

  // ---- Whole runs ----------------------------------------------------------

  function Run(c: Channel, steps: seq<Step>): Option<Channel>
    decreases |steps|
  {
    if steps == [] then Some(c)
    else if !Enabled(c, steps[0]) then None
    else Run(Next(c, steps[0]), steps[1..])
  }

  lemma {:induction false} RunKeepsInv(c: Channel, fd: int, steps: seq<Step>)
    requires Inv(c, fd) && Run(c, steps).Some?
    ensures Inv(Run(c, steps).value, fd)
    decreases |steps|
  {
    if steps != [] {
      StepKeepsInv(c, fd, steps[0]);
      RunKeepsInv(Next(c, steps[0]), fd, steps[1..]);
    }
  }

  /** Whatever the interleaving: every system call is made on the channel's own
      descriptor and none comes after its close; the close happens at most once, by
      the pump, and exactly when the pump has left; no write succeeds after the
      channel was marked closed. */
  lemma DescriptorSafety(own: int, steps: seq<Step>)
    requires own >= 0 && Run(Start(own), steps).Some?
    ensures var c := Run(Start(own), steps).value;
            && (forall i | 0 <= i < |c.trace| :: c.trace[i].Uses? ==> c.trace[i].fd == own)
            && NoUseAfterClose(c.trace)
            && (forall i | 0 <= i < |c.trace| :: c.trace[i].Closes? ==> c.trace[i] == Closes(Pump, own))
            && CloseCount(c.trace) == (if PumpClosed(c) then 1 else 0)
            && NoWriteAfterMark(c.trace)
  {
    StartHolds(own);
    RunKeepsInv(Start(own), own, steps);
  }

  /** The lock is held by at most one party, and a sender in its loop holds it: two
      frames are never interleaved on the wire. */
  lemma FramesAreNotInterleaved(fd: int, steps: seq<Step>, a: Who, b: Who)
    requires fd >= 0 && Run(Start(fd), steps).Some?
    requires var c := Run(Start(fd), steps).value;
             TaskOf(c, a).Sends? && TaskOf(c, b).Sends?
    ensures a == b
  {
    StartHolds(fd);
    RunKeepsInv(Start(fd), fd, steps);
    var c := Run(Start(fd), steps).value;
    assert PartyOk(c, fd, a) && PartyOk(c, fd, b);
  }

  // ---- What calls report, by the history of the run ------------------------

  datatype Begun = NoTask | Write(size: nat) | Close

  /** The last call that `who` began. */
  function LastBegun(steps: seq<Step>, who: Who): Begun {
    if steps == [] then NoTask
    else
      var front, last := steps[..|steps| - 1], steps[|steps| - 1];
      if last.BeginsWrite? && last.who == who then Write(last.size)
      else if last == BeginsClose(who) then Close
      else LastBegun(front, who)
  }

  /** The bytes taken since then. */
  function TakenBy(steps: seq<Step>, who: Who): nat {
    if steps == [] then 0
    else
      var front, last := steps[..|steps| - 1], steps[|steps| - 1];
      if last == BeginsClose(who) || (last.BeginsWrite? && last.who == who) then 0
      else TakenBy(front, who) + if last.SendTakes? && last.who == who then last.n else 0
  }

  /** The pump is handing on what it received. */
  function InDelivery(steps: seq<Step>): bool {
    if steps == [] then false
    else
      var front, last := steps[..|steps| - 1], steps[|steps| - 1];
      if last.RecvReturns? then last.bytes else if last.DeliveryEnds? then false else InDelivery(front)
  }

  /** The step is a call's test, not the test of the pump's own loop. */
  predicate CallTests(front: seq<Step>, s: Step) {
    s.Tests? && (s.who.Worker? || InDelivery(front))
  }

  /** Some close call got through its test, or the pump has left. */
  predicate HasClosed(steps: seq<Step>) {
    steps != [] &&
    var front, last := steps[..|steps| - 1], steps[|steps| - 1];
    HasClosed(front) || last.PumpMarks? || (CallTests(front, last) && LastBegun(front, last.who).Close?)
  }

  datatype Report = Report(who: Who, ok: bool)

  /** What a step makes its actor report, who began a call and had some bytes taken: success
      with the last byte, failure when a send fails or a test finds the channel closed. */
  function Due(begun: Begun, taken: nat, tests: bool, closed: bool, s: Step): seq<Report> {
    if s.SendTakes? && begun.Write? && taken + s.n == begun.size then [Report(s.who, true)]
    else if s.SendFails? || (tests && begun.Write? && closed) then [Report(Actor(s), false)]
    else []
  }

  function DueAfter(front: seq<Step>, s: Step): seq<Report> {
    Due(LastBegun(front, Actor(s)), TakenBy(front, Actor(s)), CallTests(front, s), HasClosed(front), s)
  }

  function Reports(steps: seq<Step>): seq<Report> {
    if steps == [] then [] else Reports(steps[..|steps| - 1]) + DueAfter(steps[..|steps| - 1], steps[|steps| - 1])
  }

  function ReportOf(e: Event): seq<Report> {
    match e
    case WriteSucceeded(who) => [Report(who, true)]
    case WriteFailed(who) => [Report(who, false)]
    case _ => []
  }

  function Reported(t: seq<Event>): seq<Report> {
    if t == [] then [] else Reported(t[..|t| - 1]) + ReportOf(t[|t| - 1])
  }

  predicate TaskFits(t: Task, begun: Begun, taken: nat) {
    match t
    case Done => true
    case WriteEnters(size) => begun == Write(size) && taken == 0
    case WriteTests(size) => begun == Write(size) && taken == 0
    case Sends(_, left) => begun.Write? && begun.size == taken + left
    case CloseEnters => begun == Close
    case CloseTests => begun == Close
    case _ => begun != NoTask
  }

  predicate TaskAsBegun(c: Channel, steps: seq<Step>, who: Who) {
    TaskFits(TaskOf(c, who), LastBegun(steps, who), TakenBy(steps, who))
  }

  predicate PumpLeaves(c: Channel) {
    c.pump.ExitEnters? || c.pump.ExitMarks? || c.pump.ExitCloses? || c.pump.ExitLeaves? || c.pump.Exited?
  }

  /** The end of the stream, or a channel found closed. */
  predicate MayLeave(steps: seq<Step>) {
    steps != [] &&
    var front, last := steps[..|steps| - 1], steps[|steps| - 1];
    MayLeave(front) || last == RecvReturns(false) || (last == Tests(Pump) && !InDelivery(front) && HasClosed(front))
  }

  ghost predicate AsHistory(c: Channel, steps: seq<Step>) {
    && (c.closed <==> HasClosed(steps)) && (c.pump.Delivers? <==> InDelivery(steps))
    && (forall who: Who :: TaskAsBegun(c, steps, who))
    && Reported(c.trace) == Reports(steps)
    && (PumpLeaves(c) <==> MayLeave(steps))
  }

  lemma {:induction false} RunSnoc(c: Channel, steps: seq<Step>)
    requires steps != [] && Run(c, steps).Some?
    ensures var front, last := steps[..|steps| - 1], steps[|steps| - 1];
            && Run(c, front).Some? && Enabled(Run(c, front).value, last)
            && Run(c, steps) == Some(Next(Run(c, front).value, last))
    decreases |steps|
  {
    if |steps| > 1 {
      assert steps[1..][..|steps| - 2] == steps[..|steps| - 1][1..];
      RunSnoc(Next(c, steps[0]), steps[1..]);
    }
  }

  lemma HistoryStep(front: seq<Step>, s: Step, who: Who)
    ensures var begins := s == BeginsClose(who) || (s.BeginsWrite? && s.who == who);
            && LastBegun(front + [s], who)
               == (if !begins then LastBegun(front, who) else if s.BeginsWrite? then Write(s.size) else Close)
            && TakenBy(front + [s], who)
               == if begins then 0 else TakenBy(front, who) + if s.SendTakes? && s.who == who then s.n else 0
  {
    assert (front + [s])[..|front|] == front;
  }

  lemma OwnTaskStep(c: Channel, s: Step, begun: Begun, taken: nat)
    requires Enabled(c, s) && TaskFits(TaskOf(c, Actor(s)), begun, taken)
    ensures var begins := s.BeginsClose? || s.BeginsWrite?;
            TaskFits(TaskOf(Next(c, s), Actor(s)),
                     if !begins then begun else if s.BeginsWrite? then Write(s.size) else Close,
                     if begins then 0 else taken + if s.SendTakes? then s.n else 0)
  {
  }

  lemma TaskStep(c: Channel, front: seq<Step>, s: Step, who: Who)
    requires Enabled(c, s) && TaskAsBegun(c, front, who)
    ensures TaskAsBegun(Next(c, s), front + [s], who)
  {
    HistoryStep(front, s, who);
    if who == Actor(s) {
      OwnTaskStep(c, s, LastBegun(front, who), TakenBy(front, who));
    } else {
      assert TaskOf(Next(c, s), who) == TaskOf(c, who);
    }
  }

  lemma {:induction false} ReportedConcat(t: seq<Event>, es: seq<Event>)
    ensures Reported(t + es) == Reported(t) + Reported(es)
    decreases |es|
  {
    if es == [] {
      assert t + es == t;
    } else {
      assert (t + es)[..|t + es| - 1] == t + es[..|es| - 1];
      ReportedConcat(t, es[..|es| - 1]);
    }
  }

  lemma ReportedPair(a: Event, b: Event)
    ensures Reported([a]) == ReportOf(a) && Reported([a, b]) == ReportOf(a) + ReportOf(b)
  {
    assert [a, b][..1] == [a] && [a][..0] == [];
  }

  /** What a step adds to the trace. */
  function Logged(c: Channel, s: Step): seq<Event>
    requires Enabled(c, s)
  {
    var t := TaskOf(c, Actor(s));
    match s
    case Tests(who) =>
      if t.WriteTests? && (c.closed || c.fd < 0) then [WriteFailed(who)]
      else if t.CloseTests? && !c.closed then [MarkedClosed] else []
    case SendTakes(who, n) => if n == t.left then [Uses(who, t.fd), WriteSucceeded(who)] else [Uses(who, t.fd)]
    case SendInterrupted(who) => [Uses(who, t.fd)]
    case SendFails(who) => [Uses(who, t.fd), WriteFailed(who)]
    case CallsShutdown(who) => [Uses(who, t.fd)]
    case RecvReturns(_) => [Uses(Pump, c.pump.fd)]
    case RecvInterrupted => [Uses(Pump, c.pump.fd)]
    case PumpMarks => [MarkedClosed]
    case PumpCloses => [Closes(Pump, c.pump.fd)]
    case _ => []
  }

  lemma StepLogs(c: Channel, s: Step)
    requires Enabled(c, s)
    ensures Next(c, s).trace == c.trace + Logged(c, s)
  {
    assert c.trace + [] == c.trace;
  }

  lemma LoggedIsDue(c: Channel, s: Step, begun: Begun, taken: nat, tests: bool)
    requires Enabled(c, s) && TaskFits(TaskOf(c, Actor(s)), begun, taken) && (c.fd < 0 ==> c.closed)
    requires tests <==> s.Tests? && (s.who.Worker? || c.pump.Delivers?)
    ensures Reported(Logged(c, s)) == Due(begun, taken, tests, c.closed, s)
  {
    var fd := if TaskOf(c, Actor(s)).Sends? then TaskOf(c, Actor(s)).fd else 0;
    match s {
      case SendTakes(who, n) => ReportedPair(Uses(who, fd), WriteSucceeded(who));
      case SendFails(who) => ReportedPair(Uses(who, fd), WriteFailed(who));
      case Tests(who) =>
        ReportedPair(WriteFailed(who), WriteFailed(who));
        ReportedPair(MarkedClosed, MarkedClosed);
      case _ => QuietEvents(Logged(c, s));
    }
  }

  lemma QuietEvents(es: seq<Event>)
    requires |es| <= 1 && forall e <- es :: ReportOf(e) == []
    ensures Reported(es) == []
  {
    if es != [] {
      assert es[|es| - 1] in es;
      assert es[..0] == [];
    }
  }

  lemma ReportStep(c: Channel, fd: int, front: seq<Step>, s: Step)
    requires Inv(c, fd) && Enabled(c, s) && AsHistory(c, front)
    ensures Reported(Next(c, s).trace) == Reports(front) + DueAfter(front, s)
  {
    assert TaskAsBegun(c, front, Actor(s));
    StepLogs(c, s);
    LoggedIsDue(c, s, LastBegun(front, Actor(s)), TakenBy(front, Actor(s)), CallTests(front, s));
    ReportedConcat(c.trace, Logged(c, s));
  }

  lemma StateStep(c: Channel, fd: int, front: seq<Step>, s: Step)
    requires Inv(c, fd) && Enabled(c, s) && AsHistory(c, front)
    ensures var n, steps := Next(c, s), front + [s];
            && (n.closed <==> HasClosed(steps)) && (n.pump.Delivers? <==> InDelivery(steps))
            && (PumpLeaves(n) <==> MayLeave(steps))
  {
    assert (front + [s])[..|front|] == front;
    assert PartyOk(c, fd, Actor(s)) && TaskAsBegun(c, front, Actor(s));
  }

  lemma StepAsHistory(c: Channel, fd: int, front: seq<Step>, s: Step)
    requires Inv(c, fd) && Enabled(c, s) && AsHistory(c, front)
    ensures AsHistory(Next(c, s), front + [s])
  {
    assert (front + [s])[..|front|] == front;
    StateStep(c, fd, front, s);
    ReportStep(c, fd, front, s);
    forall who: Who ensures TaskAsBegun(Next(c, s), front + [s], who) {
      assert TaskAsBegun(c, front, who);
      TaskStep(c, front, s, who);
    }
  }

  lemma {:induction false} RunAsHistory(own: int, steps: seq<Step>)
    requires own >= 0 && Run(Start(own), steps).Some?
    ensures AsHistory(Run(Start(own), steps).value, steps)
    decreases |steps|
  {
    if steps != [] {
      var front, last := steps[..|steps| - 1], steps[|steps| - 1];
      RunSnoc(Start(own), steps);
      RunAsHistory(own, front);
      StartHolds(own);
      RunKeepsInv(Start(own), own, front);
      StepAsHistory(Run(Start(own), front).value, own, front, last);
      assert front + [last] == steps;
    }
  }

  /** Over every interleaving: a write reports success exactly when its last byte was taken,
      and failure exactly when a send failed or it found the channel closed; the channel is
      closed exactly from the first close call, or the pump's end, on; and the pump leaves
      exactly at the end of the stream or when it finds the channel closed. */
  lemma ReportsAreTrue(own: int, steps: seq<Step>)
    requires own >= 0 && Run(Start(own), steps).Some?
    ensures var c := Run(Start(own), steps).value;
            && Reported(c.trace) == Reports(steps)
            && (c.closed <==> HasClosed(steps))
            && (PumpLeaves(c) <==> MayLeave(steps))
  {
    RunAsHistory(own, steps);
  }

  // ---- The close call that closes wakes the pump ---------------------------

  /** Since `who` began its call: whether it found the channel open, and shut it down. */
  function FoundOpen(steps: seq<Step>, who: Who): bool {
    steps != [] &&
    var front, last := steps[..|steps| - 1], steps[|steps| - 1];
    if last == BeginsClose(who) || (last.BeginsWrite? && last.who == who) then false
    else FoundOpen(front, who) || (last == Tests(who) && CallTests(front, last) && !HasClosed(front))
  }

  function HasShut(steps: seq<Step>, who: Who): bool {
    steps != [] &&
    var front, last := steps[..|steps| - 1], steps[|steps| - 1];
    if last == BeginsClose(who) || (last.BeginsWrite? && last.who == who) then false
    else HasShut(front, who) || last == CallsShutdown(who)
  }

  /** Where a close call stands. */
  predicate CloseFits(t: Task, begun: Begun, open: bool, shut: bool) {
    match t
    case CloseEnters => !open && !shut
    case CloseTests => !open && !shut
    case ShutsDown(_) => open && !shut
    case Leaves => begun.Close? ==> (open <==> shut)
    case _ => true
  }

  predicate CloseAsBegun(c: Channel, steps: seq<Step>, who: Who) {
    CloseFits(TaskOf(c, who), LastBegun(steps, who), FoundOpen(steps, who), HasShut(steps, who))
  }

  lemma CloseHistory(front: seq<Step>, s: Step, who: Who)
    ensures var begins := s == BeginsClose(who) || (s.BeginsWrite? && s.who == who);
            && (FoundOpen(front + [s], who) <==>
                  !begins && (FoundOpen(front, who) || (s == Tests(who) && CallTests(front, s) && !HasClosed(front))))
            && (HasShut(front + [s], who) <==> !begins && (HasShut(front, who) || s == CallsShutdown(who)))
  {
    assert (front + [s])[..|front|] == front;
  }

  lemma OwnCloseStep(c: Channel, s: Step, begun: Begun, taken: nat, open: bool, shut: bool)
    requires Enabled(c, s) && CloseFits(TaskOf(c, Actor(s)), begun, open, shut) && TaskFits(TaskOf(c, Actor(s)), begun, taken)
    requires c.fd < 0 ==> c.closed
    ensures var begins, tests := s.BeginsClose? || s.BeginsWrite?, s.Tests? && (s.who.Worker? || c.pump.Delivers?);
            CloseFits(TaskOf(Next(c, s), Actor(s)), if !begins then begun else if s.BeginsWrite? then Write(s.size) else Close,
                      !begins && (open || (tests && !c.closed)), !begins && (shut || s.CallsShutdown?))
  {
  }

  lemma CloseStep(c: Channel, front: seq<Step>, s: Step, who: Who)
    requires Enabled(c, s) && TaskAsBegun(c, front, who) && CloseAsBegun(c, front, who)
    requires (c.fd < 0 ==> c.closed) && (c.closed <==> HasClosed(front)) && (c.pump.Delivers? <==> InDelivery(front))
    ensures CloseAsBegun(Next(c, s), front + [s], who)
  {
    HistoryStep(front, s, who);
    CloseHistory(front, s, who);
    if who == Actor(s) {
      OwnCloseStep(c, s, LastBegun(front, who), TakenBy(front, who), FoundOpen(front, who), HasShut(front, who));
    } else {
      assert TaskOf(Next(c, s), who) == TaskOf(c, who);
    }
  }

  lemma {:induction false} RunCloses(own: int, steps: seq<Step>, who: Who)
    requires own >= 0 && Run(Start(own), steps).Some?
    ensures CloseAsBegun(Run(Start(own), steps).value, steps, who)
    decreases |steps|
  {
    if steps != [] {
      var front, last := steps[..|steps| - 1], steps[|steps| - 1];
      RunSnoc(Start(own), steps);
      RunCloses(own, front, who);
      RunAsHistory(own, front);
      StartHolds(own);
      RunKeepsInv(Start(own), own, front);
      assert TaskAsBegun(Run(Start(own), front).value, front, who);
      CloseStep(Run(Start(own), front).value, front, last, who);
      assert front + [last] == steps;
    }
  }

  /** When a close call is done, it has shut the descriptor down, which wakes the pump,
      exactly if it is the one that found the channel open. */
  lemma CloserShutsDown(own: int, steps: seq<Step>, who: Who)
    requires own >= 0 && Run(Start(own), steps).Some?
    requires TaskOf(Run(Start(own), steps).value, who).Leaves? && LastBegun(steps, who).Close?
    ensures FoundOpen(steps, who) <==> HasShut(steps, who)
  {
    RunCloses(own, steps, who);
  }

  /** Whoever holds the lock can go on, and a free lock can be taken by any that waits. */
  lemma NobodyIsStuck(own: int, steps: seq<Step>)
    requires own >= 0 && Run(Start(own), steps).Some?
    ensures var c := Run(Start(own), steps).value;
            && (c.holder.Some? ==> exists s :: Enabled(c, s) && Actor(s) == c.holder.value)
            && (forall who: Who :: c.holder.None? && WantsLock(c, who) ==> Enabled(c, Locks(who)))
  {
    StartHolds(own);
    RunKeepsInv(Start(own), own, steps);
    var c := Run(Start(own), steps).value;
    if c.holder.Some? {
      var who := c.holder.value;
      assert PartyOk(c, own, who);
      var t := TaskOf(c, who);
      var s := if t.WriteTests? || t.CloseTests? then Tests(who) else if t.Sends? then SendFails(who)
               else if t.ShutsDown? then CallsShutdown(who) else if t.Leaves? then Unlocks(who)
               else if c.pump.LoopTests? then Tests(who) else if c.pump.ExitMarks? then PumpMarks
               else if c.pump.ExitCloses? then PumpCloses else Unlocks(who);
      assert Enabled(c, s) && Actor(s) == who;
    }
  }
}

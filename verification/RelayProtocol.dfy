/** Every interleaving of the relay's three parties, and what all of them keep. */
module RelayProtocol {
  import opened Framing
  import opened Options
  import opened PageRelay

  /** The daemon's writer between two `send` calls. `Broken(stub)` is the socket
      after a call failed with part of its frame already out. */
  datatype Writer = Idle | Writing(message: Bytes, sent: nat) | Broken(stub: Bytes)

  datatype Relay = Relay(
    // daemon to page
    writer: Writer, sent: seq<Bytes>, wire: Bytes, inbox: Bytes, host: HostEnd, page: PageEnd,
    // page to daemon
    posted: seq<Bytes>, calls: seq<PageCall>, outbox: Bytes, upWire: Bytes, pumpInbox: Bytes, pumpGot: seq<Bytes>,
    // the webhost has quit, and the bytes that were still in its socket's own buffer
    quit: bool, dropped: Bytes)

  const START := Relay(
    Idle, [], [], [], HostEnd(false, [], []), PageEnd(false, true, None, [], [], []),
    [], [], [], [], [], [], false, [])

  datatype Step =
    | BeginWrite(message: Bytes)       // a daemon thread enters write()
    | KernelReplies(reply: SendReply)  // one send() of that call returns
    | HostReads(n: nat)                // readyRead with n bytes
    | SignalArrives                    // QWebChannel hands one signal to the page
    | PageBuilds                       // connect(deliver), then bridge.ready()
    | PageSets(fn: Option<nat>)        // channel.setReceiver
    | TimerFires
    | PageSends(text: Bytes)           // channel.send
    | PageCloses                       // channel.close
    | HostServes                       // the webhost runs one queued page call
    | Flushes(n: nat)                  // the kernel takes n bytes of the webhost's socket buffer
    | PumpReads(n: nat)                // the daemon's pump gets n bytes

  ghost predicate Enabled(r: Relay, s: Step) {
    match s
    case BeginWrite(m) => r.writer.Idle? && Framable(m)
    case KernelReplies(_) => r.writer.Writing? && r.writer.sent < |Frame(r.writer.message)|
    case HostReads(n) => !r.quit && 0 < n <= |r.wire|
    case SignalArrives => r.host.signals != []
    case PageBuilds => !r.page.built
    case PageSets(_) => true
    case TimerFires => r.page.timers != []
    case PageSends(text) => Framable(text)
    case PageCloses => true
    case HostServes => !r.quit && r.calls != []
    case Flushes(n) => !r.quit && 0 < n <= |r.outbox|
    case PumpReads(n) => 0 < n <= |r.upWire|
  }

  function AfterReply(r: Relay, reply: SendReply): Relay
    requires r.writer.Writing? && r.writer.sent < |Frame(r.writer.message)|
  {
    var m, sent := r.writer.message, r.writer.sent;
    match OnReply(|Frame(m)|, sent, reply)
    case Sending(more) => r.(writer := Writing(m, more), wire := r.wire + Frame(m)[sent..more])
    case Sent => r.(writer := Idle, wire := r.wire + Frame(m)[sent..], sent := r.sent + [m])
    case GaveUp(at) => r.(writer := if at == 0 then Idle else Broken(m[..at]))
  }

  /** A text arriving before the shim has connected `deliver` reaches nobody. */
  function AfterSignal(r: Relay): Relay
    requires r.host.signals != []
  {
    var text := r.host.signals[0];
    var h := r.host.(signals := r.host.signals[1..]);
    r.(host := h, page := if r.page.built then ShimDeliver(r.page, text) else r.page)
  }

  /** A text goes to the socket's own buffer, which the kernel empties as far as it has
      room. Quitting destroys the socket, and with it what is still in that buffer. */
  function AfterServing(r: Relay): Relay
    requires r.calls != []
  {
    var rest := r.(calls := r.calls[1..]);
    match r.calls[0]
    case CallReady => rest.(host := Ready(r.host))
    case ToHost(text) => rest.(outbox := r.outbox + Frame(text))
    case CallClosed => rest.(quit := true, outbox := [], dropped := r.outbox)
  }

  function Next(r: Relay, s: Step): Relay
    requires Enabled(r, s)
  {
    match s
    case BeginWrite(m) => r.(writer := Writing(m, 0))
    case KernelReplies(reply) => AfterReply(r, reply)
    case HostReads(n) =>
      var chunk := r.inbox + r.wire[..n];
      r.(wire := r.wire[n..], inbox := Unfinished(chunk), host := DeliverAll(r.host, Messages(chunk)))
    case SignalArrives => AfterSignal(r)
    case PageBuilds => r.(page := r.page.(built := true), calls := r.calls + [CallReady])
    case PageSets(fn) => r.(page := ShimSetReceiver(r.page, fn))
    case TimerFires =>
      r.(page := r.page.(timers := r.page.timers[1..], got := r.page.got + [r.page.timers[0]]))
    case PageSends(text) =>
      var call := ShimSend(r.page, text);
      if call.Some? then r.(calls := r.calls + [call.value], posted := r.posted + [text]) else r
    case PageCloses =>
      var closed := ShimClose(r.page);
      r.(page := closed.0, calls := if closed.1.Some? then r.calls + [closed.1.value] else r.calls)
    case HostServes => AfterServing(r)
    case Flushes(n) => r.(upWire := r.upWire + r.outbox[..n], outbox := r.outbox[n..])
    case PumpReads(n) =>
      var chunk := r.pumpInbox + r.upWire[..n];
      r.(upWire := r.upWire[n..], pumpInbox := Unfinished(chunk), pumpGot := r.pumpGot + Messages(chunk))
  }

  // ---- What is where -------------------------------------------------------

  function Texts(ds: seq<Delivery>): (ts: seq<Bytes>)
    ensures |ts| == |ds|
    ensures forall i | 0 <= i < |ds| :: ts[i] == ds[i].text
  {
    if ds == [] then [] else [ds[0].text] + Texts(ds[1..])
  }

  function Posts(cs: seq<PageCall>): seq<Bytes> {
    if cs == [] then []
    else (if cs[0].ToHost? then [cs[0].text] else []) + Posts(cs[1..])
  }

  /** Accepted by the daemon's `write` and not yet handed to a page receiver. */
  function Queued(r: Relay): seq<Bytes> {
    Texts(r.page.timers) + r.page.pending + r.host.signals + r.host.backlog + Messages(r.inbox + r.wire)
  }

  /** The bytes that the daemon's pump has not decoded, the dropped ones last. */
  function Upward(r: Relay): Bytes {
    r.pumpInbox + (r.upWire + (r.outbox + r.dropped))
  }

  /** Accepted by the page's `send` and not decoded by the daemon's pump. */
  function QueuedUp(r: Relay): seq<Bytes> {
    Messages(Upward(r)) + Posts(r.calls)
  }

  function Stub(w: Writer): Bytes
    requires w.Writing? ==> w.sent <= |w.message|
  {
    match w
    case Idle => []
    case Writing(m, n) => m[..n]
    case Broken(stub) => stub
  }

  ghost predicate Conserved(r: Relay) {
    && r.sent == Texts(r.page.got) + Queued(r)
    && r.posted == r.pumpGot + QueuedUp(r)
  }

  /** Where messages may be while the page comes up: none is emitted before the
      page said it was ready, and none is held back by the bridge after that. */
  ghost predicate Staged(r: Relay) {
    && (r.host.pageReady ==> r.host.backlog == [])
    && (!r.host.pageReady ==> r.host.signals == [])
    && (r.host.pageReady || CallReady in r.calls ==> r.page.built)
    && (r.page.built && !r.quit ==> r.host.pageReady || CallReady in r.calls)
    && (r.page.receiver.Some? ==> r.page.pending == [])
    && (!r.page.built ==> r.calls == [])
  }

  ghost predicate Framed(r: Relay) {
    && (r.writer.Writing? ==> Framable(r.writer.message) && r.writer.sent <= |r.writer.message|)
    && Unfinished(r.inbox + r.wire) == Stub(r.writer)
    && NewlineFree(r.inbox)
    && Whole(Upward(r))
    && (if r.quit then r.outbox == [] else r.dropped == [])
    && NewlineFree(r.pumpInbox)
    && (forall c <- r.calls :: c.ToHost? ==> Framable(c.text))
  }

  ghost predicate Inv(r: Relay) {
    Framed(r) && Staged(r) && Conserved(r)
  }

  // ---- Small facts about the queues ----------------------------------------

  lemma {:induction false} DeliverAllIs(h: HostEnd, ts: seq<Bytes>)
    ensures DeliverAll(h, ts)
         == if h.pageReady then h.(signals := h.signals + ts) else h.(backlog := h.backlog + ts)
    decreases |ts|
  {
    if ts == [] {
      assert h.signals + ts == h.signals && h.backlog + ts == h.backlog;
    } else {
      DeliverAllIs(DeliverToPage(h, ts[0]), ts[1..]);
      Grow(h.signals, ts);
      Grow(h.backlog, ts);
    }
  }

  lemma Grow(a: seq<Bytes>, b: seq<Bytes>)
    requires b != []
    ensures a + [b[0]] + b[1..] == a + b
  {
  }

  lemma {:induction false} ShimDeliverAllIs(p: PageEnd, ts: seq<Bytes>)
    requires p.receiver.Some?
    ensures var q := ShimDeliverAll(p, ts);
            q == p.(timers := q.timers) && Texts(q.timers) == Texts(p.timers) + ts
    decreases |ts|
  {
    if ts != [] {
      var d := Delivery(p.receiver.value, ts[0]);
      TextsConcat(p.timers, [d]);
      assert Texts([d]) == [ts[0]];
      ShimDeliverAllIs(ShimDeliver(p, ts[0]), ts[1..]);
      Grow(Texts(p.timers), ts);
    }
  }

  lemma {:induction false} TextsConcat(a: seq<Delivery>, b: seq<Delivery>)
    ensures Texts(a + b) == Texts(a) + Texts(b)
  {
  }

  lemma {:induction false} PostsConcat(a: seq<PageCall>, b: seq<PageCall>)
    ensures Posts(a + b) == Posts(a) + Posts(b)
  {
    if a == [] {
      assert a + b == b;
    } else {
      var first := if a[0].ToHost? then [a[0].text] else [];
      PostsConcat(a[1..], b);
      assert (a + b)[0] == a[0] && (a + b)[1..] == a[1..] + b;
      RegroupTexts(first, Posts(a[1..]), Posts(b));
    }
  }

  lemma Split(s: Bytes, n: nat)
    requires n <= |s|
    ensures s == s[..n] + s[n..]
  {
  }

  lemma Regroup(a: Bytes, b: Bytes, c: Bytes)
    ensures a + (b + c) == a + b + c
  {
  }

  lemma RegroupTexts(a: seq<Bytes>, b: seq<Bytes>, c: seq<Bytes>)
    ensures a + (b + c) == a + b + c
  {
  }

  /** What reading `n` more bytes of a wire does to an inbox. */
  lemma ReadChunk(inbox: Bytes, wire: Bytes, n: nat)
    requires n <= |wire|
    ensures var chunk := inbox + wire[..n];
            && Messages(inbox + wire) == Messages(chunk) + Messages(Unfinished(chunk) + wire[n..])
            && Unfinished(inbox + wire) == Unfinished(Unfinished(chunk) + wire[n..])
            && NewlineFree(Unfinished(chunk))
  {
    Split(wire, n);
    Regroup(inbox, wire[..n], wire[n..]);
    MessagesConcat(inbox + wire[..n], wire[n..]);
  }

  /** What appending bytes to a wire does to the messages not yet decoded. */
  lemma Append(inbox: Bytes, wire: Bytes, more: Bytes)
    ensures Messages(inbox + (wire + more)) == Messages(inbox + wire) + Messages(Unfinished(inbox + wire) + more)
    ensures Unfinished(inbox + (wire + more)) == Unfinished(Unfinished(inbox + wire) + more)
  {
    Regroup(inbox, wire, more);
    MessagesConcat(inbox + wire, more);
  }

  lemma OneFrame(m: Bytes)
    requires Framable(m)
    ensures Messages(Frame(m)) == [m] && Unfinished(Frame(m)) == []
  {
    MessagesOfEncode([m], []);
    assert Encode([m]) + [] == Frame(m);
    assert [m] + Messages([]) == [m];
  }

  /** Why a socket whose write broke off must not be written again: a frame that
      follows the stub of a broken one is decoded fused with it, so the message
      itself never arrives. This is why `BeginWrite` needs an idle writer. */
  lemma FrameAfterStubIsFused(stub: Bytes, m: Bytes)
    requires stub != [] && NewlineFree(stub) && Framable(m)
    ensures Messages(stub + Frame(m)) == [stub + m] && m !in Messages(stub + Frame(m))
  {
    assert stub + Frame(m) == Frame(stub + m);
    OneFrame(stub + m);
    assert |stub + m| > |m|;
  }

  // ---- Each step keeps the invariant ---------------------------------------

  lemma StartHolds()
    ensures Inv(START)
  {
  }

  lemma SendingStep(r: Relay, more: nat)
    requires Inv(r) && r.writer.Writing? && r.writer.sent <= more <= |r.writer.message|
    ensures var m, n := r.writer.message, r.writer.sent;
            Inv(r.(writer := Writing(m, more), wire := r.wire + Frame(m)[n..more]))
  {
    PartOut(r.inbox, r.wire, r.writer.message, r.writer.sent, more);
  }

  /** Part of a frame goes out: nothing more is complete. */
  lemma PartOut(inbox: Bytes, wire: Bytes, m: Bytes, n: nat, more: nat)
    requires Framable(m) && n <= more <= |m| && Unfinished(inbox + wire) == m[..n]
    ensures var longer := inbox + (wire + Frame(m)[n..more]);
            Messages(longer) == Messages(inbox + wire) && Unfinished(longer) == m[..more]
  {
    Append(inbox, wire, Frame(m)[n..more]);
    assert m[..n] + Frame(m)[n..more] == m[..more];
    NewlineFreeIsUnfinished(m[..more]);
    RegroupTexts(Messages(inbox + wire), [], []);
  }

  lemma SentStep(r: Relay)
    requires Inv(r) && r.writer.Writing?
    ensures var m, n := r.writer.message, r.writer.sent;
            Inv(r.(writer := Idle, wire := r.wire + Frame(m)[n..], sent := r.sent + [m]))
  {
    var m, n := r.writer.message, r.writer.sent;
    Append(r.inbox, r.wire, Frame(m)[n..]);
    assert m[..n] + Frame(m)[n..] == Frame(m);
    OneFrame(m);
    var ahead := Texts(r.page.timers) + r.page.pending + r.host.signals + r.host.backlog;
    RegroupTexts(ahead, Messages(r.inbox + r.wire), [m]);
    RegroupTexts(Texts(r.page.got), Queued(r), [m]);
  }

  lemma WriterStep(r: Relay, reply: SendReply)
    requires Inv(r) && Enabled(r, KernelReplies(reply))
    ensures Inv(Next(r, KernelReplies(reply)))
  {
    match OnReply(|Frame(r.writer.message)|, r.writer.sent, reply) {
      case Sending(more) => SendingStep(r, more);
      case Sent => SentStep(r);
      case GaveUp(_) =>
    }
  }

  lemma HostReadStep(r: Relay, n: nat)
    requires Inv(r) && Enabled(r, HostReads(n))
    ensures Inv(Next(r, HostReads(n)))
  {
    var chunk := r.inbox + r.wire[..n];
    ReadChunk(r.inbox, r.wire, n);
    DeliverAllIs(r.host, Messages(chunk));
    var rest := Messages(Unfinished(chunk) + r.wire[n..]);
    var shown := Texts(r.page.timers) + r.page.pending;
    if r.host.pageReady {
      Hand(shown, r.host.signals, Messages(chunk), rest);
    } else {
      Hold(shown + r.host.signals, r.host.backlog, Messages(chunk), rest);
    }
  }

  lemma Hand(shown: seq<Bytes>, signals: seq<Bytes>, now: seq<Bytes>, rest: seq<Bytes>)
    ensures shown + signals + [] + (now + rest) == shown + (signals + now) + [] + rest
  {
  }

  lemma Hold(shown: seq<Bytes>, backlog: seq<Bytes>, now: seq<Bytes>, rest: seq<Bytes>)
    ensures shown + backlog + (now + rest) == shown + (backlog + now) + rest
  {
  }

  lemma SignalStep(r: Relay)
    requires Inv(r) && Enabled(r, SignalArrives)
    ensures Inv(Next(r, SignalArrives))
  {
    var text, rest := r.host.signals[0], r.host.signals[1..];
    assert r.host.signals == [text] + rest;
    MovesUp(Texts(r.page.timers), r.page.pending, text, rest, r.host.backlog, Messages(r.inbox + r.wire));
    if r.page.receiver.Some? {
      var timer := Delivery(r.page.receiver.value, text);
      TextsConcat(r.page.timers, [timer]);
      assert Texts([timer]) == [text];
    }
  }

  /** A signal that arrives is the last of the timers, or of the pending texts. */
  lemma MovesUp(timers: seq<Bytes>, pending: seq<Bytes>, text: Bytes, rest: seq<Bytes>, backlog: seq<Bytes>, wire: seq<Bytes>)
    ensures timers + pending + ([text] + rest) + backlog + wire == timers + (pending + [text]) + rest + backlog + wire
    ensures pending == [] ==>
              timers + pending + ([text] + rest) + backlog + wire == (timers + [text]) + pending + rest + backlog + wire
  {
    assert timers + pending + ([text] + rest) == timers + (pending + [text]) + rest;
    if pending == [] { assert timers + pending + ([text] + rest) == (timers + [text]) + pending + rest; }
  }

  lemma SetReceiverStep(r: Relay, fn: Option<nat>)
    requires Inv(r)
    ensures Inv(Next(r, PageSets(fn)))
  {
    if fn.Some? {
      ShimDeliverAllIs(r.page.(receiver := fn, pending := []), r.page.pending);
      var q := ShimSetReceiver(r.page, fn);
      assert Texts(q.timers) + q.pending == Texts(r.page.timers) + r.page.pending;
    }
  }

  lemma FirstTimer(timers: seq<Delivery>)
    requires timers != []
    ensures Texts(timers) == [timers[0].text] + Texts(timers[1..])
  {
  }

  lemma FirstOf(first: seq<Bytes>, a: seq<Bytes>, b: seq<Bytes>, c: seq<Bytes>, d: seq<Bytes>, e: seq<Bytes>)
    ensures (first + a) + b + c + d + e == first + (a + b + c + d + e)
  {
  }

  lemma TimerStep(r: Relay)
    requires Inv(r) && Enabled(r, TimerFires)
    ensures Inv(Next(r, TimerFires))
  {
    var d := r.page.timers[0];
    TextsConcat(r.page.got, [d]);
    assert Texts([d]) == [d.text];
    FirstTimer(r.page.timers);
    FirstOf([d.text], Texts(r.page.timers[1..]), r.page.pending, r.host.signals, r.host.backlog, Messages(r.inbox + r.wire));
    RegroupTexts(Texts(r.page.got), [d.text], Queued(Next(r, TimerFires)));
  }

  lemma CallStep(r: Relay, call: PageCall, r': Relay)
    requires Inv(r) && r.page.built
    requires call.ToHost? ==> Framable(call.text)
    requires r' == r.(calls := r.calls + [call], page := r'.page,
                      posted := r.posted + if call.ToHost? then [call.text] else [])
    requires r'.page == r.page || (call.CallClosed? && r'.page == r.page.(open := false))
    ensures Inv(r')
  {
    PostsConcat(r.calls, [call]);
    assert Posts([call]) == if call.ToHost? then [call.text] else [];
    var add := Posts([call]);
    RegroupTexts(Messages(Upward(r)), Posts(r.calls), add);
    RegroupTexts(r.pumpGot, QueuedUp(r), add);
    assert forall c <- r'.calls :: c in r.calls || c == call;
    assert CallReady in r.calls ==> CallReady in r'.calls;
  }

  lemma ReadyServed(r: Relay)
    requires Inv(r) && r.calls != [] && r.calls[0] == CallReady
    ensures Inv(r.(calls := r.calls[1..], host := Ready(r.host)))
  {
    FirstCall(r.calls);
    RegroupTexts(Messages(Upward(r)), [], Posts(r.calls[1..]));
    if !r.host.pageReady {
      Emitted(Texts(r.page.timers) + r.page.pending, r.host.signals, r.host.backlog, Messages(r.inbox + r.wire));
    }
  }

  lemma Emitted(shown: seq<Bytes>, signals: seq<Bytes>, backlog: seq<Bytes>, rest: seq<Bytes>)
    ensures shown + signals + backlog + rest == shown + (signals + backlog) + [] + rest
  {
  }

  lemma TextServed(r: Relay)
    requires Inv(r) && !r.quit && r.calls != [] && r.calls[0].ToHost?
    ensures Inv(r.(calls := r.calls[1..], outbox := r.outbox + Frame(r.calls[0].text)))
  {
    var rest, text := r.calls[1..], r.calls[0].text;
    FirstCall(r.calls);
    var r' := r.(calls := rest, outbox := r.outbox + Frame(text));
    assert Upward(r') == Upward(r) + Frame(text);
    FrameAdded(Upward(r), text);
    RegroupTexts(Messages(Upward(r)), [text], Posts(rest));
  }

  lemma ClosedServed(r: Relay)
    requires Inv(r) && !r.quit && r.calls != [] && r.calls[0] == CallClosed
    ensures Inv(AfterServing(r))
  {
    var r' := AfterServing(r);
    FirstCall(r.calls);
    SameBytes(r, r');
    RegroupTexts(Messages(Upward(r)), [], Posts(r.calls[1..]));
  }

  lemma SameBytes(r: Relay, r': Relay)
    requires r'.pumpInbox == r.pumpInbox && r'.upWire == r.upWire
    requires r'.outbox + r'.dropped == r.outbox + r.dropped
    ensures Upward(r') == Upward(r)
  {
  }

  /** Taking the first call from the queue. */
  lemma FirstCall(calls: seq<PageCall>)
    requires calls != []
    ensures Posts(calls) == (if calls[0].ToHost? then [calls[0].text] else []) + Posts(calls[1..])
    ensures calls[0] in calls && forall c <- calls[1..] :: c in calls
    ensures forall c <- calls :: c == calls[0] || c in calls[1..]
  {
    assert calls == [calls[0]] + calls[1..];
  }

  lemma ServeStep(r: Relay)
    requires Inv(r) && Enabled(r, HostServes)
    ensures Inv(Next(r, HostServes))
  {
    match r.calls[0] {
      case CallReady => ReadyServed(r);
      case ToHost(_) => TextServed(r);
      case CallClosed => ClosedServed(r);
    }
  }

  /** What the pump decodes of the first `n` bytes, and what stays to be decoded. */
  lemma PumpChunk(r: Relay, n: nat)
    requires Inv(r) && n <= |r.upWire|
    ensures var chunk := r.pumpInbox + r.upWire[..n];
            var rest := Unfinished(chunk) + (r.upWire[n..] + (r.outbox + r.dropped));
            && Messages(Upward(r)) == Messages(chunk) + Messages(rest)
            && Whole(rest) && NewlineFree(Unfinished(chunk))
  {
    var chunk, behind := r.pumpInbox + r.upWire[..n], r.upWire[n..] + (r.outbox + r.dropped);
    assert Upward(r) == chunk + behind;
    MessagesConcat(chunk, behind);
    WholeRest(chunk, behind);
  }

  lemma PumpStep(r: Relay, n: nat)
    requires Inv(r) && Enabled(r, PumpReads(n))
    ensures Inv(Next(r, PumpReads(n)))
  {
    PumpChunk(r, n);
    var now := Messages(r.pumpInbox + r.upWire[..n]);
    var rest := Messages(Upward(Next(r, PumpReads(n))));
    Later(r.pumpGot, now, rest, Posts(r.calls));
  }

  lemma Later(got: seq<Bytes>, now: seq<Bytes>, rest: seq<Bytes>, calls: seq<Bytes>)
    ensures got + ((now + rest) + calls) == (got + now) + (rest + calls)
  {
  }

  lemma FlushStep(r: Relay, n: nat)
    requires Inv(r) && Enabled(r, Flushes(n))
    ensures Inv(Next(r, Flushes(n)))
  {
    assert Upward(Next(r, Flushes(n))) == Upward(r);
  }

  lemma BeginStep(r: Relay, m: Bytes)
    requires Inv(r) && Enabled(r, BeginWrite(m))
    ensures Inv(Next(r, BeginWrite(m)))
  {
  }

  lemma BuildStep(r: Relay)
    requires Inv(r) && Enabled(r, PageBuilds)
    ensures Inv(Next(r, PageBuilds))
  {
    assert Next(r, PageBuilds).calls == [CallReady] && Posts([CallReady]) == [];
  }

  lemma SendStep(r: Relay, text: Bytes)
    requires Inv(r) && Enabled(r, PageSends(text))
    ensures Inv(Next(r, PageSends(text)))
  {
    if r.page.open && r.page.built { CallStep(r, ToHost(text), Next(r, PageSends(text))); }
  }

  lemma CloseStep(r: Relay)
    requires Inv(r)
    ensures Inv(Next(r, PageCloses))
  {
    if r.page.open && r.page.built { CallStep(r, CallClosed, Next(r, PageCloses)); }
  }

  lemma StepKeepsInv(r: Relay, s: Step)
    requires Inv(r) && Enabled(r, s)
    ensures Inv(Next(r, s))
  {
    match s {
      case BeginWrite(m) => BeginStep(r, m);
      case KernelReplies(reply) => WriterStep(r, reply);
      case HostReads(n) => HostReadStep(r, n);
      case SignalArrives => SignalStep(r);
      case PageBuilds => BuildStep(r);
      case PageSets(fn) => SetReceiverStep(r, fn);
      case TimerFires => TimerStep(r);
      case PageSends(text) => SendStep(r, text);
      case PageCloses => CloseStep(r);
      case HostServes => ServeStep(r);
      case Flushes(n) => FlushStep(r, n);
      case PumpReads(n) => PumpStep(r, n);
    }
  }

  // ---- Whole runs ----------------------------------------------------------

  /** The state after a run of enabled steps, or `None` if one was not enabled. */
  ghost function Run(r: Relay, steps: seq<Step>): Option<Relay>
    decreases |steps|
  {
    if steps == [] then Some(r)
    else if !Enabled(r, steps[0]) then None
    else Run(Next(r, steps[0]), steps[1..])
  }

  lemma {:induction false} RunKeepsInv(r: Relay, steps: seq<Step>)
    requires Inv(r) && Run(r, steps).Some?
    ensures Inv(Run(r, steps).value)
    decreases |steps|
  {
    if steps != [] {
      StepKeepsInv(r, steps[0]);
      RunKeepsInv(Next(r, steps[0]), steps[1..]);
    }
  }

  /** Conservation: whatever the interleaving and the chunking, the page's
      receivers got, followed by what is still on its way, is exactly the list of
      messages `write` accepted; and the pump decoded, followed by what is still on
      its way, is exactly the list of texts the page's `send` accepted. Nothing is
      dropped before the webhost quits. */
  lemma Conservation(steps: seq<Step>)
    requires Run(START, steps).Some?
    ensures var r := Run(START, steps).value;
            && r.sent == Texts(r.page.got) + Queued(r)
            && r.posted == r.pumpGot + QueuedUp(r)
            && (!r.quit ==> r.dropped == [])
  {
    StartHolds();
    RunKeepsInv(START, steps);
  }

  // ---- Who receives --------------------------------------------------------

  /** The receiver that the page installed last. */
  function LastSet(steps: seq<Step>): Option<nat> {
    if steps == [] then None
    else
      var last := steps[|steps| - 1];
      if last.PageSets? then last.fn else LastSet(steps[..|steps| - 1])
  }

  lemma {:induction false} ShimDeliverAllBinds(p: PageEnd, ts: seq<Bytes>)
    requires p.receiver.Some?
    ensures var q := ShimDeliverAll(p, ts);
            && q.receiver == p.receiver && q.got == p.got
            && |p.timers| <= |q.timers| && q.timers[..|p.timers|] == p.timers
            && forall i | |p.timers| <= i < |q.timers| :: p.receiver == Some(q.timers[i].to)
    decreases |ts|
  {
    if ts != [] {
      var q := ShimDeliver(p, ts[0]);
      var end := ShimDeliverAll(q, ts[1..]);
      ShimDeliverAllBinds(q, ts[1..]);
      assert end.timers[..|p.timers|] == end.timers[..|q.timers|][..|p.timers|];
      assert end.timers[|p.timers|] == end.timers[..|q.timers|][|p.timers|];
    }
  }

  /** What a step does on the page: a timer fires for the first delivery set, every new one
      is bound to the receiver that is installed after the step, and only `setReceiver`
      changes the receiver. */
  ghost predicate Binds(p: PageEnd, s: Step, n: PageEnd) {
    var kept := if s.TimerFires? && p.timers != [] then p.timers[1..] else p.timers;
    && |kept| <= |n.timers| && n.timers[..|kept|] == kept
    && (forall i | |kept| <= i < |n.timers| :: n.receiver == Some(n.timers[i].to))
    && n.got == p.got + (if s.TimerFires? then p.timers[..|p.timers| - |kept|] else [])
    && n.receiver == (if s.PageSets? then s.fn else p.receiver)
  }

  lemma SetBinds(p: PageEnd, fn: Option<nat>)
    ensures Binds(p, PageSets(fn), ShimSetReceiver(p, fn))
  {
    assert p.timers[..|p.timers|] == p.timers && p.got + [] == p.got;
    if fn.Some? { ShimDeliverAllBinds(p.(receiver := fn, pending := []), p.pending); }
  }

  lemma SignalBinds(p: PageEnd, text: Bytes)
    ensures Binds(p, SignalArrives, ShimDeliver(p, text)) && Binds(p, SignalArrives, p)
  {
    assert p.timers[..|p.timers|] == p.timers && p.got + [] == p.got;
  }

  lemma TimerBinds(p: PageEnd)
    requires p.timers != []
    ensures Binds(p, TimerFires, p.(timers := p.timers[1..], got := p.got + [p.timers[0]]))
  {
    assert p.timers[..1] == [p.timers[0]];
  }

  lemma SameBinds(p: PageEnd, s: Step, n: PageEnd)
    requires !s.TimerFires? && !s.PageSets? && n.timers == p.timers && n.got == p.got && n.receiver == p.receiver
    ensures Binds(p, s, n)
  {
    assert p.timers[..|p.timers|] == p.timers && p.got + [] == p.got;
  }

  lemma StepBinds(r: Relay, s: Step)
    requires Enabled(r, s)
    ensures Binds(r.page, s, Next(r, s).page)
  {
    match s {
      case SignalArrives => SignalBinds(r.page, r.host.signals[0]);
      case PageSets(fn) => SetBinds(r.page, fn);
      case TimerFires => TimerBinds(r.page);
      case _ => SameBinds(r.page, s, Next(r, s).page);
    }
  }

  lemma RunOneMore(steps: seq<Step>)
    requires steps != [] && Run(START, steps).Some?
    ensures var front, last := steps[..|steps| - 1], steps[|steps| - 1];
            && Run(START, front).Some? && Enabled(Run(START, front).value, last)
            && Run(START, steps) == Some(Next(Run(START, front).value, last))
  {
    RunSnoc(START, steps);
  }

  lemma {:induction false} RunSnoc(r: Relay, steps: seq<Step>)
    requires steps != [] && Run(r, steps).Some?
    ensures var front, last := steps[..|steps| - 1], steps[|steps| - 1];
            && Run(r, front).Some? && Enabled(Run(r, front).value, last)
            && Run(r, steps) == Some(Next(Run(r, front).value, last))
    decreases |steps|
  {
    if |steps| > 1 {
      assert steps[1..][..|steps| - 2] == steps[..|steps| - 1][1..];
      RunSnoc(Next(r, steps[0]), steps[1..]);
    }
  }

  /** Over any run the receiver is the one installed last. */
  lemma {:induction false} ReceiverIsLastSet(steps: seq<Step>)
    requires Run(START, steps).Some?
    ensures Run(START, steps).value.page.receiver == LastSet(steps)
    decreases |steps|
  {
    if steps != [] {
      var front := steps[..|steps| - 1];
      RunOneMore(steps);
      ReceiverIsLastSet(front);
      StepBinds(Run(START, front).value, steps[|steps| - 1]);
    }
  }

  /** Every delivery is for a receiver that was the installed one at some point of the run. */
  predicate EverSet(steps: seq<Step>, to: nat) {
    exists i | 0 <= i < |steps| :: steps[i] == PageSets(Some(to))
  }

  lemma EverSetLater(steps: seq<Step>, to: nat)
    requires steps != [] && EverSet(steps[..|steps| - 1], to)
    ensures EverSet(steps, to)
  {
    var i :| 0 <= i < |steps| - 1 && steps[..|steps| - 1][i] == PageSets(Some(to));
    assert steps[i] == PageSets(Some(to));
  }

  lemma {:induction false} LastSetWasSet(steps: seq<Step>)
    ensures LastSet(steps).Some? ==> EverSet(steps, LastSet(steps).value)
  {
    if steps != [] {
      var last := steps[|steps| - 1];
      if last.PageSets? {
        assert last.fn.Some? ==> steps[|steps| - 1] == PageSets(Some(last.fn.value));
      } else {
        LastSetWasSet(steps[..|steps| - 1]);
        if LastSet(steps).Some? { EverSetLater(steps, LastSet(steps).value); }
      }
    }
  }

  /** No text ever runs a receiver that the page did not install. */
  lemma {:induction false} OnlyInstalledReceive(steps: seq<Step>)
    requires Run(START, steps).Some?
    ensures var p := Run(START, steps).value.page; forall d <- p.timers + p.got :: EverSet(steps, d.to)
    decreases |steps|
  {
    if steps != [] {
      var front, s := steps[..|steps| - 1], steps[|steps| - 1];
      RunOneMore(steps);
      OnlyInstalledReceive(front);
      var p, n := Run(START, front).value.page, Run(START, steps).value.page;
      StepBinds(Run(START, front).value, s);
      ReceiverIsLastSet(steps);
      LastSetWasSet(steps);
      forall d | d in n.timers + n.got ensures EverSet(steps, d.to) {
        NewIsBound(p, s, n, d);
        if d in p.timers + p.got { EverSetLater(steps, d.to); }
      }
    }
  }

  lemma NewIsBound(p: PageEnd, s: Step, n: PageEnd, d: Delivery)
    requires Binds(p, s, n) && d in n.timers + n.got
    ensures d in p.timers + p.got || n.receiver == Some(d.to)
  {
    var kept := if s.TimerFires? && p.timers != [] then p.timers[1..] else p.timers;
    assert forall x :: x in kept ==> x in p.timers;
    if d in n.timers {
      var i :| 0 <= i < |n.timers| && n.timers[i] == d;
      if i < |kept| { assert n.timers[..|kept|][i] == d; }
    }
  }

  /** With one receiver, it gets everything: once such a run is quiet, it got exactly the
      messages written, in order. */
  lemma OneReceiverGetsAll(steps: seq<Step>, cb: nat)
    requires Run(START, steps).Some?
    requires forall i | 0 <= i < |steps| :: steps[i].PageSets? && steps[i].fn.Some? ==> steps[i].fn == Some(cb)
    ensures var r := Run(START, steps).value;
            && (forall d <- r.page.timers + r.page.got :: d.to == cb)
            && (Quiet(r) && !r.quit && r.page.built && r.page.receiver.Some? ==>
                  |r.page.got| == |r.sent| && forall i | 0 <= i < |r.sent| :: r.page.got[i] == Delivery(cb, r.sent[i]))
  {
    OnlyInstalledReceive(steps);
    var r := Run(START, steps).value;
    forall d | d in r.page.timers + r.page.got ensures d.to == cb {
      var i :| 0 <= i < |steps| && steps[i] == PageSets(Some(d.to));
    }
    if Quiet(r) && !r.quit && r.page.built && r.page.receiver.Some? {
      QuietMeansDelivered(steps);
      forall i | 0 <= i < |r.sent| ensures r.page.got[i] == Delivery(cb, r.sent[i]) {
        assert r.page.got[i] in r.page.timers + r.page.got;
      }
    }
  }

  // ---- Closing -------------------------------------------------------------

  /** The call that reports the close is the last one of the page; the webhost quits only
      on it, when it has served every call before. */
  ghost predicate ClosesLast(r: Relay) {
    && (r.page.open ==> CallClosed !in r.calls && !r.quit)
    && (forall i | 0 <= i < |r.calls| - 1 :: r.calls[i] != CallClosed)
    && (r.quit ==> r.calls == [] && r.page.built)
    && (!r.page.built ==> r.calls == [])
  }

  lemma CallsGrow(r: Relay, call: PageCall)
    requires ClosesLast(r) && r.page.open && r.page.built
    ensures ClosesLast(r.(calls := r.calls + [call], page := r.page.(open := !call.CallClosed?)))
  {
    forall i | 0 <= i < |r.calls| ensures r.calls[i] != CallClosed {
      assert r.calls[i] in r.calls;
    }
  }

  lemma ServingKeepsLast(r: Relay)
    requires ClosesLast(r) && r.calls != [] && !r.quit
    ensures ClosesLast(AfterServing(r))
  {
    var rest := r.calls[1..];
    assert r.calls[0] in r.calls;
    assert forall c <- rest :: c in r.calls;
    assert forall i | 0 <= i < |rest| - 1 :: rest[i] == r.calls[i + 1];
    if r.calls[0] == CallClosed { assert rest == []; }
  }

  lemma SetReceiverKeepsLast(r: Relay, fn: Option<nat>)
    requires ClosesLast(r)
    ensures ClosesLast(r.(page := ShimSetReceiver(r.page, fn)))
  {
    if fn.Some? { ShimDeliverAllIs(r.page.(receiver := fn, pending := []), r.page.pending); }
  }

  lemma StepClosesLast(r: Relay, s: Step)
    requires ClosesLast(r) && Enabled(r, s)
    ensures ClosesLast(Next(r, s))
  {
    match s {
      case KernelReplies(reply) =>
      case HostReads(n) =>
      case SignalArrives =>
      case PageSets(fn) => SetReceiverKeepsLast(r, fn);
      case PageSends(text) => if r.page.open && r.page.built { CallsGrow(r, ToHost(text)); }
      case PageCloses => if r.page.open && r.page.built { CallsGrow(r, CallClosed); }
      case HostServes => ServingKeepsLast(r);
      case _ =>
    }
  }

  lemma {:induction false} RunClosesLast(r: Relay, steps: seq<Step>)
    requires ClosesLast(r) && Run(r, steps).Some?
    ensures ClosesLast(Run(r, steps).value)
    decreases |steps|
  {
    if steps != [] {
      StepClosesLast(r, steps[0]);
      RunClosesLast(Next(r, steps[0]), steps[1..]);
    }
  }

  /** Whatever ran: once the webhost has quit for a close, every text that `send` accepted is decoded
      by the pump or on the socket if and only if the quit dropped no byte. */
  lemma LostExactlyWhen(steps: seq<Step>)
    requires Run(START, steps).Some? && Run(START, steps).value.quit
    ensures var r := Run(START, steps).value;
            var arrived := r.pumpInbox + r.upWire;
            && r.posted == r.pumpGot + (Messages(arrived) + Messages(Unfinished(arrived) + r.dropped))
            && (r.posted == r.pumpGot + Messages(arrived) <==> r.dropped == [])
  {
    StartHolds();
    RunKeepsInv(START, steps);
    RunClosesLast(START, steps);
    var r := Run(START, steps).value;
    var arrived := r.pumpInbox + r.upWire;
    assert Upward(r) == arrived + r.dropped;
    MessagesConcat(arrived, r.dropped);
    assert QueuedUp(r) == Messages(Upward(r));
    if r.dropped == [] {
      assert arrived + r.dropped == arrived;
    } else if Messages(Unfinished(arrived) + r.dropped) == [] {
      WholeRest(arrived, r.dropped);
      assert false;
    }
  }

  lemma {:induction false} AfterQuit(r: Relay, steps: seq<Step>)
    requires ClosesLast(r) && r.quit && Run(r, steps).Some?
    ensures var e := Run(r, steps).value; e.quit && e.dropped == r.dropped
    decreases |steps|
  {
    if steps != [] {
      StepClosesLast(r, steps[0]);
      AfterQuit(Next(r, steps[0]), steps[1..]);
    }
  }

  lemma {:induction false} RunConcat(r: Relay, a: seq<Step>, b: seq<Step>)
    requires Run(r, a).Some?
    ensures Run(r, a + b) == Run(Run(r, a).value, b)
    decreases |a|
  {
    if a == [] {
      assert a + b == b;
    } else {
      assert (a + b)[0] == a[0] && (a + b)[1..] == a[1..] + b;
      RunConcat(Next(r, a[0]), a[1..], b);
    }
  }

  lemma RunServes(before: seq<Step>, after: seq<Step>)
    requires Run(START, before).Some? && Enabled(Run(START, before).value, HostServes)
    ensures Run(START, before + ([HostServes] + after)) == Run(AfterServing(Run(START, before).value), after)
  {
    var steps := [HostServes] + after;
    assert steps[0] == HostServes && steps[1..] == after;
    RunConcat(START, before, steps);
  }

  /** What the page's close loses, whatever runs before and after the webhost serves it:
      exactly the texts whose frames are not all with the kernel by then, which are the
      last ones accepted. So nothing is lost if and only if the buffer is empty. */
  lemma ClosingLosesTheOutbox(before: seq<Step>, after: seq<Step>)
    requires Run(START, before).Some?
    requires var r := Run(START, before).value;
             !r.quit && r.calls != [] && r.calls[0] == CallClosed && Run(AfterServing(r), after).Some?
    ensures var r := Run(START, before).value;
            var e := Run(AfterServing(r), after).value;
            var arrived := e.pumpInbox + e.upWire;
            && e.quit && e.posted == r.posted
            && e.posted == e.pumpGot + (Messages(arrived) + Messages(Unfinished(arrived) + r.outbox))
            && (e.posted == e.pumpGot + Messages(arrived) <==> r.outbox == [])
  {
    var r := Run(START, before).value;
    StartHolds();
    RunKeepsInv(START, before);
    RunClosesLast(START, before);
    ServingKeepsLast(r);
    AfterQuit(AfterServing(r), after);
    assert r.calls[0] in r.calls;
    NothingAfterClose(AfterServing(r), after);
    RunServes(before, after);
    LostExactlyWhen(before + ([HostServes] + after));
  }

  /** A page that sends one text and closes while the kernel has no room. */
  const LOSSY := [PageBuilds, HostServes, PageSends([120]), HostServes, PageCloses]

  /** The text was accepted, and however the run goes on the pump never decodes it. */
  lemma TextLostAtTheClose(after: seq<Step>)
    ensures Run(START, LOSSY).Some? && Enabled(Run(START, LOSSY).value, HostServes)
    ensures Run(Next(Run(START, LOSSY).value, HostServes), after).Some? ==>
              var e := Run(Next(Run(START, LOSSY).value, HostServes), after).value;
              e.posted == [[120]] && e.pumpGot == []
  {
    LossyRun();
    var r := Run(START, LOSSY).value;
    if Run(AfterServing(r), after).Some? {
      ClosingLosesTheOutbox(LOSSY, after);
    }
  }

  lemma LossyRun()
    ensures Run(START, LOSSY).Some?
    ensures var r := Run(START, LOSSY).value;
            !r.quit && r.calls == [CallClosed] && r.posted == [[120]] && r.outbox == Frame([120])
  {
    var r1 := Next(START, PageBuilds);
    var r2 := Next(r1, HostServes);
    var r3 := Next(r2, PageSends([120]));
    var r4 := Next(r3, HostServes);
    assert r1.calls == [CallReady] && r2.calls == [] && r3.calls == [ToHost([120])] && r4.calls == [];
    var r5 := Next(r4, PageCloses);
    assert LOSSY[1..][1..][1..][1..] == [PageCloses];
    assert Run(r4, [PageCloses]) == Some(r5);
    assert Run(r3, LOSSY[1..][1..][1..]) == Some(r5);
    assert Run(r2, LOSSY[1..][1..]) == Some(r5);
    assert Run(r1, LOSSY[1..]) == Some(r5);
  }

  /** After the page closed its channel, `send` accepts nothing more, whatever runs. */
  lemma {:induction false} NothingAfterClose(r: Relay, steps: seq<Step>)
    requires !r.page.open && Run(r, steps).Some?
    ensures !Run(r, steps).value.page.open && Run(r, steps).value.posted == r.posted
    decreases |steps|
  {
    if steps != [] {
      var s := steps[0];
      if s.PageSets? && s.fn.Some? {
        ShimDeliverAllIs(r.page.(receiver := s.fn, pending := []), r.page.pending);
      }
      NothingAfterClose(Next(r, s), steps[1..]);
    }
  }

  /** Nothing moves unless a party outside starts something. */
  ghost predicate Quiet(r: Relay) {
    r.wire == [] && r.host.signals == [] && r.calls == [] && r.page.timers == [] && r.outbox == [] && r.upWire == []
  }

  /** Once a relay with a built page and a receiver is quiet, every message has
      arrived: none is stranded in the backlog, the pending list or an inbox. */
  lemma QuietMeansDelivered(steps: seq<Step>)
    requires Run(START, steps).Some?
    requires var r := Run(START, steps).value;
             Quiet(r) && !r.quit && r.page.built && r.page.receiver.Some?
    ensures var r := Run(START, steps).value;
            Texts(r.page.got) == r.sent && r.pumpGot == r.posted
  {
    StartHolds();
    RunKeepsInv(START, steps);
    var r := Run(START, steps).value;
    assert r.inbox + [] == r.inbox && r.pumpInbox + [] == r.pumpInbox;
    NewlineFreeIsUnfinished(r.inbox);
    NewlineFreeIsUnfinished(r.pumpInbox);
  }
}

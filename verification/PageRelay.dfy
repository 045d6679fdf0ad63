/** The relay between the daemon and a module's page, in both directions:

      daemon write -> socket -> webhost inbox -> Bridge -> QWebChannel -> page shim -> receiver
      page send    -> QWebChannel -> Bridge -> socket -> daemon pump

    The three parties take steps in any order. A step is one system call of the
    daemon's writer, one `readyRead`, one queued channel call, one page callback or
    one timer. The theorem is conservation: nothing is repeated or reordered, and nothing
    is lost but what the webhost's socket had not handed to the kernel when it quit. */
module PageRelay {
  import opened Framing
  import opened Options

  // ---- The daemon's writer -------------------------------------------------

  /** What one `send` call reports; `Took(n)` takes at most what was offered. */
  datatype SendReply = Took(n: nat) | Interrupted | Failed

  function Min(a: nat, b: nat): nat {
    if a < b then a else b
  }

  /** How far a frame of `size` bytes has got, and whether the call has returned. */
  datatype Progress = Sending(sent: nat) | Sent | GaveUp(sent: nat)

  function OnReply(size: nat, done: nat, reply: SendReply): (p: Progress)
    requires done < size
    ensures p.Sending? ==> done <= p.sent < size
    ensures p.GaveUp? ==> p.sent == done
  {
    match reply
    case Interrupted => Sending(done)
    case Failed => GaveUp(done)
    case Took(n) =>
      if n == 0 then GaveUp(done)
      else if done + n < size then Sending(done + n)
      else Sent
  }

  /** Replies consumed one by one until the call returns or they run out. */
  function OnReplies(size: nat, done: nat, replies: seq<SendReply>): (p: Progress)
    requires done < size
    ensures p.Sending? || p.GaveUp? ==> done <= p.sent < size
    decreases replies
  {
    if replies == [] then Sending(done)
    else match OnReply(size, done, replies[0])
      case Sending(more) => OnReplies(size, more, replies[1..])
      case Sent => Sent
      case GaveUp(at) => GaveUp(at)
  }

  /** A reply after which the call gives up. */
  predicate Stops(reply: SendReply) {
    reply.Failed? || reply == Took(0)
  }

  /** The bytes that the kernel takes before the first reply that stops the call. */
  function Taken(replies: seq<SendReply>): nat {
    if replies == [] || Stops(replies[0]) then 0
    else (if replies[0].Took? then replies[0].n else 0) + Taken(replies[1..])
  }

  /** A write succeeds exactly when the kernel takes the whole frame, over as many calls as
      it likes and however often it is interrupted; otherwise what it took is out. */
  lemma {:induction false} SentExactlyWhen(size: nat, done: nat, replies: seq<SendReply>)
    requires done < size
    ensures match OnReplies(size, done, replies)
            case Sent => done + Taken(replies) >= size
            case GaveUp(k) => k == done + Taken(replies) < size && exists i | 0 <= i < |replies| :: Stops(replies[i])
            case Sending(k) => k == done + Taken(replies) < size && forall i | 0 <= i < |replies| :: !Stops(replies[i])
    decreases |replies|
  {
    if replies != [] {
      match OnReply(size, done, replies[0]) {
        case Sending(more) =>
          SentExactlyWhen(size, more, replies[1..]);
          assert forall i | 0 <= i < |replies| - 1 :: replies[1..][i] == replies[i + 1];
        case _ =>
      }
    }
  }

  datatype WriteResult = Returned(ok: bool) | StillSending

  /** The daemon's end of the socket as a writer sees it. */
  class SocketEnd {
    var fd: int
    var closed: bool
    var wire: Bytes

    constructor (descriptor: int)
      ensures fd == descriptor && !closed && wire == []
    {
      fd, closed, wire := descriptor, false, [];
    }

    /** `replies` are the results of the successive `send` calls. A call that
        returns true has put the whole frame on the wire; any other call has put
        there a proper part of it, which never includes the newline. */
    method Write(message: Bytes, replies: seq<SendReply>) returns (result: WriteResult)
      modifies this`wire
      ensures closed || fd < 0 ==> result == Returned(false) && wire == old(wire)
      ensures !closed && fd >= 0 ==>
        match OnReplies(|Frame(message)|, 0, replies)
        case Sent => result == Returned(true) && wire == old(wire) + Frame(message)
        case GaveUp(k) => result == Returned(false) && wire == old(wire) + message[..k]
        case Sending(k) => result == StillSending && wire == old(wire) + message[..k]
    {
      if closed || fd < 0 { return Returned(false); }
      var frame := Frame(message);
      var sent, next := 0, 0;
      while sent < |frame| && next < |replies|
        invariant 0 <= sent <= |frame| && 0 <= next <= |replies|
        invariant wire == old(wire) + frame[..sent]
        invariant sent < |frame| ==>
          OnReplies(|frame|, 0, replies) == OnReplies(|frame|, sent, replies[next..])
        invariant sent == |frame| ==> OnReplies(|frame|, 0, replies) == Sent
      {
        var reply := replies[next];
        assert replies[next..][1..] == replies[next + 1..];
        next := next + 1;
        match reply {
          case Interrupted =>
          case Failed =>
            assert frame[..sent] == message[..sent];
            return Returned(false);
          case Took(n) =>
            if n == 0 {
              assert frame[..sent] == message[..sent];
              return Returned(false);
            }
            var more := Min(n, |frame| - sent);
            wire := wire + frame[sent..sent + more];
            assert frame[..sent] + frame[sent..sent + more] == frame[..sent + more];
            sent := sent + more;
        }
      }
      if sent == |frame| {
        assert frame[..sent] == frame;
        return Returned(true);
      }
      assert frame[..sent] == message[..sent];
      return StillSending;
    }
  }

  // ---- The webhost's bridge ------------------------------------------------

  /** What the page asks of the webhost, in the order it asked. */
  datatype PageCall = CallReady | ToHost(text: Bytes) | CallClosed

  /** `signals` are the texts emitted towards the page and not yet arrived. */
  datatype HostEnd = HostEnd(pageReady: bool, backlog: seq<Bytes>, signals: seq<Bytes>)

  function DeliverToPage(h: HostEnd, text: Bytes): HostEnd {
    if h.pageReady then h.(signals := h.signals + [text]) else h.(backlog := h.backlog + [text])
  }

  function DeliverAll(h: HostEnd, texts: seq<Bytes>): HostEnd
    decreases |texts|
  {
    if texts == [] then h else DeliverAll(DeliverToPage(h, texts[0]), texts[1..])
  }

  function Ready(h: HostEnd): HostEnd {
    if h.pageReady then h else HostEnd(true, [], h.signals + h.backlog)
  }

  class Bridge {
    var pageReady: bool
    var backlog: seq<Bytes>
    var signals: seq<Bytes>

    ghost function View(): HostEnd
      reads this
    {
      HostEnd(pageReady, backlog, signals)
    }

    constructor ()
      ensures View() == HostEnd(false, [], [])
    {
      pageReady, backlog, signals := false, [], [];
    }

    method Deliver(text: Bytes)
      modifies this
      ensures View() == DeliverToPage(old(View()), text)
    {
      if !pageReady {
        backlog := backlog + [text];
        return;
      }
      signals := signals + [text];
    }

    method OnReady()
      modifies this
      ensures View() == Ready(old(View()))
    {
      if pageReady { return; }
      pageReady := true;
      var held := backlog;
      backlog := [];
      for i := 0 to |held|
        invariant pageReady && backlog == []
        invariant signals == old(signals) + held[..i]
      {
        assert held[..i] + [held[i]] == held[..i + 1];
        signals := signals + [held[i]];
      }
      assert held[..|held|] == held;
    }
  }

  /** The `readyRead` handler: decode the chunk, hand every message to the bridge. */
  method OnReadyRead(decoder: Decoder, bridge: Bridge, chunk: Bytes)
    modifies decoder, bridge
    ensures decoder.inbox == Unfinished(old(decoder.inbox) + chunk)
    ensures bridge.View() == DeliverAll(old(bridge.View()), Messages(old(decoder.inbox) + chunk))
  {
    var texts := decoder.Feed(chunk);
    for i := 0 to |texts|
      invariant decoder.inbox == Unfinished(old(decoder.inbox) + chunk)
      invariant DeliverAll(bridge.View(), texts[i..]) == DeliverAll(old(bridge.View()), texts)
    {
      assert texts[i..][1..] == texts[i + 1..];
      bridge.Deliver(texts[i]);
    }
  }

  // ---- The page's shim -----------------------------------------------------

  /** A text on its way to, or received by, the receiver installed as `to`. */
  datatype Delivery = Delivery(to: nat, text: Bytes)

  /** `timers` holds the zero-delay timers in the order they were set. */
  datatype PageEnd = PageEnd(built: bool, open: bool, receiver: Option<nat>,
                             pending: seq<Bytes>, timers: seq<Delivery>, got: seq<Delivery>)

  function ShimDeliver(p: PageEnd, text: Bytes): PageEnd {
    match p.receiver
    case Some(cb) => p.(timers := p.timers + [Delivery(cb, text)])
    case None => p.(pending := p.pending + [text])
  }

  function ShimDeliverAll(p: PageEnd, texts: seq<Bytes>): PageEnd
    decreases |texts|
  {
    if texts == [] then p else ShimDeliverAll(ShimDeliver(p, texts[0]), texts[1..])
  }

  function ShimSetReceiver(p: PageEnd, fn: Option<nat>): PageEnd {
    if fn.None? then p.(receiver := None)
    else ShimDeliverAll(p.(receiver := fn, pending := []), p.pending)
  }

  /** The call that `send` queues for the host, if it says yes. */
  function ShimSend(p: PageEnd, text: Bytes): Option<PageCall> {
    if p.open && p.built then Some(ToHost(text)) else None
  }

  /** What `close` leaves, and the call that tells the host. */
  function ShimClose(p: PageEnd): (PageEnd, Option<PageCall>) {
    (p.(open := false), if p.open && p.built then Some(CallClosed) else None)
  }

  class ChannelShim {
    var built: bool
    var open: bool
    var receiver: Option<nat>
    var pending: seq<Bytes>
    var timers: seq<Delivery>
    var got: seq<Delivery>

    ghost function View(): PageEnd
      reads this
    {
      PageEnd(built, open, receiver, pending, timers, got)
    }

    constructor ()
      ensures View() == PageEnd(false, true, None, [], [], [])
    {
      built, open, receiver, pending, timers, got := false, true, None, [], [], [];
    }

    method Deliver(text: Bytes)
      modifies this
      ensures View() == ShimDeliver(old(View()), text)
    {
      if receiver.Some? {
        timers := timers + [Delivery(receiver.value, text)];
      } else {
        pending := pending + [text];
      }
    }

    method SetReceiver(fn: Option<nat>)
      modifies this
      ensures View() == ShimSetReceiver(old(View()), fn)
    {
      receiver := fn;
      if receiver.None? { return; }
      var queued := pending;
      pending := [];
      for i := 0 to |queued|
        invariant ShimDeliverAll(View(), queued[i..]) == ShimSetReceiver(old(View()), fn)
      {
        assert queued[i..][1..] == queued[i + 1..];
        Deliver(queued[i]);
      }
    }

    method Send(text: Bytes) returns (call: Option<PageCall>)
      ensures call == ShimSend(View(), text)
    {
      if !open || !built { return None; }
      return Some(ToHost(text));
    }

    method Close() returns (call: Option<PageCall>)
      modifies this`open
      ensures (View(), call) == ShimClose(old(View()))
    {
      if !open { return None; }
      open := false;
      return if built then Some(CallClosed) else None;
    }
  }
}

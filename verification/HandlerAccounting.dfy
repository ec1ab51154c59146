/** Which completion handlers can be live in which state.

    Live handlers are those whose guard still lets their body run. In every reachable state they are
    exactly what the state says they should be, so no state waits for a completion that cannot come. */
module HandlerAccounting {
  import opened SocketMachine

  function Live(s: Sock, op: Op): nat {
    s.io.handlers[HandlerFor(s.io, op)]
  }

  /** Live handlers of the resolve, connect and handshake chain. */
  function Chain(s: Sock): nat {
    Live(s, ResolveHost) + Live(s, ConnectTcp) + Live(s, TlsHandshake) + Live(s, WsHandshake)
  }

  lemma NoneLive(s: Sock, op: Op)
    requires Accounted(s) && s.state == Disconnected
    ensures Live(s, op) == 0
  {
    match op
    case ResolveHost =>
    case _ =>
  }

  /** The counter is the wrapped number of its bumps, and so is what each guard captured. */
  ghost predicate Wrapped(io: Io) {
    && io.generation == io.epoch % TWO_TO_32
    && forall h :: h in io.handlers ==> h.expected == h.epoch % TWO_TO_32
  }

  /** No handler comes from an epoch that has not begun. */
  ghost predicate Stamped(s: Sock) {
    forall h :: h in s.io.handlers ==> h.epoch <= s.io.epoch
  }

  /** The live handlers of each state. */
  ghost predicate Accounted(s: Sock) {
    match s.state
    case Disconnected =>
      && Chain(s) == Live(s, ReadMessage) == Live(s, WriteMessage) == Live(s, CloseStream) == 0
      && !s.writing && !s.ready
    case Connecting =>
      && Chain(s) == 1
      && Live(s, ReadMessage) == Live(s, WriteMessage) == Live(s, CloseStream) == 0
      && !s.writing && !s.ready
    case Connected =>
      && Live(s, ReadMessage) == 1
      && Live(s, WriteMessage) == (if s.writing then 1 else 0)
      && Chain(s) == Live(s, CloseStream) == 0
      && s.ready
    case DisconnectRequested =>
      && Live(s, WriteMessage) == (if s.writing then 1 else 0)
      && Live(s, CloseStream) == 0
      && (if s.ready then Chain(s) == 0 && Live(s, ReadMessage) == 1 else Chain(s) == 1 && Live(s, ReadMessage) == 0)
    case Disconnecting =>
      && Live(s, CloseStream) == 1
      && Live(s, WriteMessage) == 0
      && (if s.ready then Chain(s) == 0 && Live(s, ReadMessage) <= 1 else Chain(s) <= 1 && Live(s, ReadMessage) == 0)
      && s.writing
  }

  /** In every state but DISCONNECTED some completion is outstanding. */
  function SomeLive(s: Sock): Op {
    if Live(s, ResolveHost) > 0 then ResolveHost
    else if Live(s, ConnectTcp) > 0 then ConnectTcp
    else if Live(s, TlsHandshake) > 0 then TlsHandshake
    else if Live(s, WsHandshake) > 0 then WsHandshake
    else if Live(s, ReadMessage) > 0 then ReadMessage
    else CloseStream
  }

  lemma SomeLiveIsLive(s: Sock)
    requires Accounted(s) && s.state != Disconnected
    ensures Live(s, SomeLive(s)) > 0
  {
  }

  lemma NoHandlersAccounted(s: Sock)
    requires s.state == Disconnected && !s.writing && !s.ready && s.io.handlers == multiset{}
    ensures Accounted(s)
  {
  }

  lemma InitialAccounted(tls: bool)
    ensures Accounted(Initial(tls))
  {
    NoHandlersAccounted(Initial(tls));
  }

  lemma InitialStamped(tls: bool)
    ensures Stamped(Initial(tls)) && Wrapped(Initial(tls).io)
  {
  }

  /** The guard's test, for any age of the handler. */
  lemma GuardTest(s: Sock, h: Handler)
    requires Stamped(s) && Wrapped(s.io) && h in s.io.handlers
    ensures s.io.generation == h.expected <==> (s.io.epoch - h.epoch) % TWO_TO_32 == 0
  {
    var a, b := s.io.epoch / TWO_TO_32, h.epoch / TWO_TO_32;
    assert s.io.epoch - h.epoch == (a - b) * TWO_TO_32 + (s.io.generation - h.expected);
  }

  /** Below 2^32 bumps the wrapped comparison tells a live handler from a stale one. */
  lemma GuardIsExact(s: Sock, h: Handler)
    requires Stamped(s) && Wrapped(s.io) && h in s.io.handlers
    requires s.io.epoch - h.epoch < TWO_TO_32
    ensures s.io.generation == h.expected <==> h == HandlerFor(s.io, h.op)
  {
    GuardTest(s, h);
  }

  // ----- each operation -----

  lemma BumpedHandlersAreStale(s: Sock, reason: string)
    requires Stamped(s)
    ensures var t := DoClose(s, reason); Stamped(t) && Accounted(t)
  {
    var t := DoClose(s, reason);
    assert forall op :: HandlerFor(t.io, op) !in t.io.handlers;
  }

  /** An operation is issued: the only live count that changes is its own. */
  lemma IssueCounts(s: Sock, op: Op)
    requires Stamped(s)
    ensures var t := Issue(s, op); Stamped(t) && forall o :: Live(t, o) == Live(s, o) + if o == op then 1 else 0
  {
  }

  lemma MessageAccounted(s: Sock, weakCas: bool)
    requires Stamped(s) && Accounted(s) && !s.writing && s.outbox.queue != [] && s.outbox.queue[0].Message?
    requires s.state == Connected || s.state == DisconnectRequested
    ensures var t := CheckWriting(s, weakCas); Stamped(t) && Accounted(t)
  {
    var m := s.outbox.queue[0];
    var o := Taken(s.outbox, InFlight).(messageToWrite := m.text, written := s.outbox.written + [m]);
    IssueCounts(Touch(s).(writing := true, outbox := o), WriteMessage);
  }

  lemma MarkerAccounted(s: Sock, weakCas: bool)
    requires Stamped(s) && Accounted(s) && !s.writing && s.outbox.queue != [] && s.outbox.queue[0].Marker?
    requires s.state == Connected || s.state == DisconnectRequested
    ensures var t := CheckWriting(s, weakCas); Stamped(t) && Accounted(t)
  {
    var t := s.(writing := true, outbox := Taken(s.outbox, MarkerTaken));
    if s.state == Connected || !weakCas {
      BumpedHandlersAreStale(t, NO_REASON);
    } else {
      IssueCounts(Touch(t.(state := Disconnecting)), CloseStream);
    }
  }

  lemma CheckWritingAccounted(s: Sock, weakCas: bool)
    requires Stamped(s) && Accounted(s)
    ensures var t := CheckWriting(s, weakCas); Stamped(t) && Accounted(t)
  {
    if (s.state == Connected || s.state == DisconnectRequested) && !s.writing && s.outbox.queue != [] {
      if s.outbox.queue[0].Message? {
        MessageAccounted(s, weakCas);
      } else {
        MarkerAccounted(s, weakCas);
      }
    }
  }

  /** A live handler of the chain, or the read handler, has just completed: if the attempt is not closing
      yet it may be closed, with or without an error event, and otherwise nothing happens. */
  lemma EndingAccounted(s: Sock, h: Handler, text: string)
    requires Stamped(s) && Accounted(s)
    requires h in s.io.handlers && h == HandlerFor(s.io, h.op) && h.op != CloseStream
    ensures var t := ErrorConnection(Withdraw(s, h), text); Stamped(t) && Accounted(t)
    ensures var t := CloseNow(Withdraw(s, h), text); Stamped(t) && Accounted(t)
  {
    var w := Withdraw(s, h);
    if Closable(s.state) {
      BumpedHandlersAreStale(Put(w, ErrorEvent(text)), text);
      BumpedHandlersAreStale(w, text);
    } else {
      WithdrawnWhileClosing(s, h);
    }
  }

  lemma WithdrawnWhileClosing(s: Sock, h: Handler)
    requires Stamped(s) && Accounted(s) && !Closable(s.state)
    requires h in s.io.handlers && h == HandlerFor(s.io, h.op) && h.op != CloseStream
    ensures var t := Withdraw(s, h); Stamped(t) && Accounted(t)
  {
  }

  lemma WithdrawnStale(s: Sock, h: Handler)
    requires Stamped(s) && Accounted(s)
    requires h in s.io.handlers && h != HandlerFor(s.io, h.op)
    ensures var t := Withdraw(s, h); Stamped(t) && Accounted(t)
  {
    var t := Withdraw(s, h);
    assert forall op :: HandlerFor(t.io, op) == HandlerFor(s.io, op) != h;
    assert forall op :: Live(t, op) == Live(s, op);
  }

  /** One handler of the chain makes room for the next, and the other operations keep theirs. */
  lemma OthersKept(s: Sock, h: Handler, op: Op)
    requires h in s.io.handlers && h == HandlerFor(s.io, h.op)
    requires h.op == ResolveHost || h.op == ConnectTcp || h.op == TlsHandshake
    requires op == ConnectTcp || op == TlsHandshake || op == WsHandshake
    ensures var t := Issue(Withdraw(s, h), op);
            && Live(t, ReadMessage) == Live(s, ReadMessage) && Live(t, WriteMessage) == Live(s, WriteMessage)
            && Live(t, CloseStream) == Live(s, CloseStream)
  {
  }

  lemma ChainIssued(s: Sock, op: Op)
    requires Stamped(s) && (op == ConnectTcp || op == TlsHandshake || op == WsHandshake)
    ensures Chain(Issue(s, op)) == Chain(s) + 1
  {
    IssueCounts(s, op);
  }

  lemma ChainWithdrawn(s: Sock, h: Handler)
    requires h in s.io.handlers && h == HandlerFor(s.io, h.op)
    requires h.op == ResolveHost || h.op == ConnectTcp || h.op == TlsHandshake
    ensures Chain(Withdraw(s, h)) == Chain(s) - 1
  {
    WithdrawCounts(s, h);
  }

  lemma WithdrawCounts(s: Sock, h: Handler)
    requires h in s.io.handlers && h == HandlerFor(s.io, h.op)
    ensures forall o :: Live(Withdraw(s, h), o) == Live(s, o) - if o == h.op then 1 else 0
  {
  }

  /** The next operation of the chain replaces the one that completed. */
  lemma NextAccounted(s: Sock, h: Handler, op: Op)
    requires Stamped(s) && Accounted(s)
    requires h in s.io.handlers && h == HandlerFor(s.io, h.op)
    requires h.op == ResolveHost || h.op == ConnectTcp || h.op == TlsHandshake
    requires op == ConnectTcp || op == TlsHandshake || op == WsHandshake
    ensures var t := Issue(Withdraw(s, h), op); Stamped(t) && Accounted(t)
  {
    OthersKept(s, h, op);
    ChainWithdrawn(s, h);
    IssueCounts(Withdraw(s, h), op);
    ChainIssued(Withdraw(s, h), op);
  }

  lemma ResolvedAccounted(s: Sock, h: Handler, out: Outcome, tlsParams: bool)
    requires Stamped(s) && Accounted(s)
    requires h in s.io.handlers && h == HandlerFor(s.io, ResolveHost)
    ensures var t := HostResolved(Withdraw(s, h), out, tlsParams); Stamped(t) && Accounted(t)
  {
    if out.Success? {
      NextAccounted(s, h, ConnectTcp);
      EndingAccounted(s, h, "Error setting SSL parameters");
    } else {
      EndingAccounted(s, h, "[Resolver] " + out.text);
    }
  }

  lemma ConnectedAccounted(s: Sock, h: Handler, out: Outcome)
    requires Stamped(s) && Accounted(s)
    requires h in s.io.handlers && h == HandlerFor(s.io, ConnectTcp)
    ensures var t := SocketConnected(Withdraw(s, h), out); Stamped(t) && Accounted(t)
  {
    if out.Success? {
      NextAccounted(s, h, if s.tls then TlsHandshake else WsHandshake);
    } else {
      EndingAccounted(s, h, "Connection failed: " + out.text);
    }
  }

  lemma TlsAccounted(s: Sock, h: Handler, out: Outcome, weakCas: bool)
    requires Stamped(s) && Accounted(s)
    requires h in s.io.handlers && h == HandlerFor(s.io, TlsHandshake)
    ensures var t := SslHandshakeComplete(Withdraw(s, h), out, weakCas); Stamped(t) && Accounted(t)
  {
    if out.Success? {
      NextAccounted(s, h, WsHandshake);
    } else {
      EndingAccounted(s, h, "Connection failed: " + out.text);
    }
  }

  lemma HandshakeAccounted(s: Sock, h: Handler, out: Outcome, weakCas: bool)
    requires Stamped(s) && Accounted(s)
    requires h in s.io.handlers && h == HandlerFor(s.io, WsHandshake)
    ensures var t := HandshakeCompleted(Withdraw(s, h), out, weakCas); Stamped(t) && Accounted(t)
  {
    var t := Withdraw(s, h);
    if out.Failure? {
      EndingAccounted(s, h, "Connection failed: " + out.text);
    } else if t.state != Connecting {
      EndingAccounted(s, h, NO_REASON);
    } else {
      var u := Issue(Put(t.(state := Connected, ready := true), ConnectedEvent("Connected")), ReadMessage);
      assert Stamped(u) && Accounted(u);
      CheckWritingAccounted(u, weakCas);
    }
  }

  lemma ReadAccounted(s: Sock, h: Handler, out: Outcome)
    requires Stamped(s) && Accounted(s)
    requires h in s.io.handlers && h == HandlerFor(s.io, ReadMessage)
    ensures var t := OnRead(Withdraw(s, h), out); Stamped(t) && Accounted(t)
  {
    if out.Success? {
      assert Accounted(Issue(Withdraw(s, h), ReadMessage));
    } else if out.closed {
      EndingAccounted(s, h, if out.closeReason == "" then NO_REASON else out.closeReason);
    } else {
      EndingAccounted(s, h, out.text);
    }
  }

  lemma WriteAccounted(s: Sock, h: Handler, out: Outcome, weakCas: bool)
    requires Stamped(s) && Accounted(s)
    requires h in s.io.handlers && h == HandlerFor(s.io, WriteMessage)
    ensures var t := OnWrite(Withdraw(s, h), out, weakCas); Stamped(t) && Accounted(t)
  {
    var t := Withdraw(s, h);
    if out.Success? {
      var u := t.(writing := false, outbox := Landed(t.outbox, Sent));
      assert Stamped(u) && Accounted(u);
      CheckWritingAccounted(u, weakCas);
    } else {
      EndingAccounted(s, h, "Connection closed by remote host");
      EndingAccounted(s, h, out.text);
    }
  }

  lemma CompletionAccounted(s: Sock, h: Handler, out: Outcome, tlsParams: bool, weakCas: bool)
    requires Stamped(s) && Accounted(s)
    requires h in s.io.handlers && h == HandlerFor(s.io, h.op)
    ensures var t := Complete(Withdraw(s, h), h.op, out, tlsParams, weakCas); Stamped(t) && Accounted(t)
  {
    match h.op
    case ResolveHost => ResolvedAccounted(s, h, out, tlsParams);
    case ConnectTcp => ConnectedAccounted(s, h, out);
    case TlsHandshake => TlsAccounted(s, h, out, weakCas);
    case WsHandshake => HandshakeAccounted(s, h, out, weakCas);
    case ReadMessage => ReadAccounted(s, h, out);
    case WriteMessage => WriteAccounted(s, h, out, weakCas);
    case CloseStream => BumpedHandlersAreStale(Withdraw(s, h), out.text);
  }

  lemma OpenAccounted(s: Sock, clear: bool)
    requires Stamped(s) && Accounted(s)
    ensures var t := Open(s, clear); Stamped(t) && Accounted(t)
  {
    var t := Open(s, clear);
    if s.state == Disconnected {
      assert forall op :: HandlerFor(t.io, op) !in s.io.handlers;
    }
  }

  lemma CloseAccounted(s: Sock, weakCas: bool)
    requires Stamped(s) && Accounted(s)
    ensures var t := Close(s, weakCas); Stamped(t) && Accounted(t)
  {
    if s.state == Connected {
      var t := Enqueue(s.(state := DisconnectRequested, outbox := s.outbox.(closeAt := |s.outbox.enqueued|)), Marker);
      assert Stamped(t) && Accounted(t);
      CheckWritingAccounted(t, weakCas);
    }
  }

  lemma WriteCallAccounted(s: Sock, text: string, binary: bool, weakCas: bool)
    requires Stamped(s) && Accounted(s)
    ensures var t := Write(s, text, binary, weakCas); Stamped(t) && Accounted(t)
  {
    var t := Enqueue(s, Message(text, binary));
    assert Stamped(t) && Accounted(t);
    CheckWritingAccounted(t, weakCas);
  }

  lemma QueuesAccounted(s: Sock)
    requires Stamped(s) && Accounted(s)
    ensures var t := Step(s, CallClearQueue); Stamped(t) && Accounted(t)
    ensures var t := Step(s, TakeEvents); Stamped(t) && Accounted(t)
  {
  }

  lemma DeliveryAccounted(s: Sock, h: Handler, out: Outcome, tlsParams: bool, weakCas: bool)
    requires Stamped(s) && Wrapped(s.io) && Accounted(s)
    requires h in s.io.handlers && s.io.epoch - h.epoch < TWO_TO_32
    ensures var t := Deliver(s, h, out, tlsParams, weakCas); Stamped(t) && Accounted(t)
  {
    GuardIsExact(s, h);
    if h == HandlerFor(s.io, h.op) {
      CompletionAccounted(s, h, out, tlsParams, weakCas);
    } else {
      WithdrawnStale(s, h);
    }
  }

  lemma StepAccounted(s: Sock, a: Action)
    requires Stamped(s) && Wrapped(s.io) && Accounted(s)
    requires Enabled(s, a) && Timely(s, a)
    ensures var t := Step(s, a); Stamped(t) && Accounted(t)
  {
    match a
    case CallOpen(clear) => OpenAccounted(s, clear);
    case CallClose(weakCas) => CloseAccounted(s, weakCas);
    case CallCloseNow => BumpedHandlersAreStale(s, NO_REASON);
    case CallWrite(text, binary, weakCas) => WriteCallAccounted(s, text, binary, weakCas);
    case CallClearQueue => QueuesAccounted(s);
    case TakeEvents => QueuesAccounted(s);
    case Completion(h, out, tlsParams, weakCas) =>
      DeliveryAccounted(s, h, out, tlsParams, weakCas);
  }

  /** One step of the io context: the counter stays or is bumped once, and new handlers capture it. */
  ghost predicate Follows(io: Io, next: Io) {
    && ((next.epoch == io.epoch && next.generation == io.generation) ||
        (next.epoch == Bumped(io).epoch && next.generation == Bumped(io).generation))
    && forall h :: h in next.handlers ==>
         || h in io.handlers
         || (h.epoch == io.epoch && h.expected == io.generation)
         || (h.epoch == next.epoch && h.expected == next.generation)
  }

  lemma EndingFollows(s: Sock, text: string)
    ensures Follows(s.io, ErrorConnection(s, text).io) && Follows(s.io, CloseNow(s, text).io)
    ensures Follows(s.io, DoClose(s, text).io)
  {
  }

  lemma CheckWritingFollows(s: Sock, weakCas: bool)
    ensures Follows(s.io, CheckWriting(s, weakCas).io)
  {
  }

  lemma HandshakeFollows(s: Sock, out: Outcome, weakCas: bool)
    ensures Follows(s.io, HandshakeCompleted(s, out, weakCas).io)
  {
    if out.Failure? {
      EndingFollows(s, "Connection failed: " + out.text);
    } else if s.state == Connecting {
      var u := Issue(Put(s.(state := Connected, ready := true), ConnectedEvent("Connected")), ReadMessage);
      CheckWritingFollows(u, weakCas);
    } else {
      EndingFollows(s, NO_REASON);
    }
  }

  lemma ChainFollows(s: Sock, op: Op, out: Outcome, tlsParams: bool, weakCas: bool)
    requires op == ResolveHost || op == ConnectTcp || op == TlsHandshake || op == WsHandshake
    ensures Follows(s.io, Complete(s, op, out, tlsParams, weakCas).io)
  {
    HandshakeFollows(s, out, weakCas);
    EndingFollows(s, "Error setting SSL parameters");
    EndingFollows(s, "[Resolver] " + out.text);
  }

  lemma CompletionFollows(s: Sock, op: Op, out: Outcome, tlsParams: bool, weakCas: bool)
    ensures Follows(s.io, Complete(s, op, out, tlsParams, weakCas).io)
  {
    match op
    case ReadMessage =>
      EndingFollows(s, if out.Failure? && out.closed && out.closeReason != "" then out.closeReason else NO_REASON);
      EndingFollows(s, out.text);
    case WriteMessage =>
      EndingFollows(s, "Connection closed by remote host");
      EndingFollows(s, out.text);
      CheckWritingFollows(s.(writing := false, outbox := Landed(s.outbox, Sent)), weakCas);
    case CloseStream => EndingFollows(s, out.text);
    case _ => ChainFollows(s, op, out, tlsParams, weakCas);
  }

  lemma WithdrawnFollows(io: Io, h: Handler, next: Io)
    requires Follows(io.(handlers := io.handlers - multiset{h}), next)
    ensures Follows(io, next)
  {
  }

  lemma DeliveryFollows(s: Sock, h: Handler, out: Outcome, tlsParams: bool, weakCas: bool)
    requires h in s.io.handlers
    ensures Follows(s.io, Deliver(s, h, out, tlsParams, weakCas).io)
  {
    var w := Withdraw(s, h);
    CompletionFollows(w, h.op, out, tlsParams, weakCas);
    WithdrawnFollows(s.io, h, w.io);
    WithdrawnFollows(s.io, h, Complete(w, h.op, out, tlsParams, weakCas).io);
  }

  lemma CallFollows(s: Sock, weakCas: bool, m: Outgoing)
    ensures Follows(s.io, Close(s, weakCas).io)
    ensures Follows(s.io, CheckWriting(Enqueue(s, m), weakCas).io)
  {
    var o := s.outbox.(closeAt := |s.outbox.enqueued|);
    CheckWritingFollows(Enqueue(s.(state := DisconnectRequested, outbox := o), Marker), weakCas);
    CheckWritingFollows(Enqueue(s, m), weakCas);
  }

  lemma StepFollows(s: Sock, a: Action)
    requires Enabled(s, a)
    ensures Follows(s.io, Step(s, a).io)
  {
    match a
    case CallOpen(clear) =>
    case CallClose(weakCas) => CallFollows(s, weakCas, Marker);
    case CallCloseNow => EndingFollows(s, NO_REASON);
    case CallWrite(text, binary, weakCas) => CallFollows(s, weakCas, Message(text, binary));
    case CallClearQueue =>
    case TakeEvents =>
    case Completion(h, out, tlsParams, weakCas) => DeliveryFollows(s, h, out, tlsParams, weakCas);
  }

  lemma FollowsWrapped(io: Io, next: Io)
    requires Wrapped(io) && Follows(io, next)
    ensures Wrapped(next)
  {
  }
}

/** The order in which an attempt connects: the name is resolved, the connection made, the TLS handshake done on
    a TLS socket and on no other, and only then the websocket handshake. */
module ConnectChain {
  import opened Results
  import opened SocketMachine
  import opened HandlerAccounting
  import opened WriteQueue
  import opened SocketInvariant
  import opened SocketTrace
  import SocketHistory

  /** The operations that have to complete, in this order, before a socket is connected. */
  function Order(tls: bool): seq<Op> {
    if tls then [ResolveHost, ConnectTcp, TlsHandshake, WsHandshake] else [ResolveHost, ConnectTcp, WsHandshake]
  }

  predicate OfChain(op: Op) {
    op == ResolveHost || op == ConnectTcp || op == TlsHandshake || op == WsHandshake
  }

  /** The action completes a live operation of the chain without an error. */
  predicate Succeeds(s: Sock, a: Action) {
    a.Completion? && a.h == HandlerFor(s.io, a.h.op) && OfChain(a.h.op) && a.out.Success?
  }

  /** What has succeeded in the running attempt, before and after the action. An attempt is a value of the
      counter. */
  function Progress(s: Sock, done: seq<Op>, a: Action): seq<Op>
    requires Enabled(s, a)
  {
    if Step(s, a).io.epoch != s.io.epoch then []
    else if Succeeds(s, a) then done + [a.h.op]
    else done
  }

  function Done(s: Sock, done: seq<Op>, acts: seq<Action>): seq<Op>
    requires Legal(s, acts)
    decreases |acts|
  {
    if acts == [] then done else Done(Step(s, acts[0]), Progress(s, done, acts[0]), acts[1..])
  }

  /** The attempt is as far as its live handler says. */
  predicate OnTrack(s: Sock, done: seq<Op>) {
    && done <= Order(s.tls)
    && (s.state == Disconnected ==> done == [])
    && (s.ready ==> done == Order(s.tls))
    && (Chain(s) == 1 ==> |done| < |Order(s.tls)| && Live(s, Order(s.tls)[|done|]) == 1)
  }

  // ----- steps that leave the chain alone -----

  predicate Quits(s: Sock, t: Sock) {
    t.io.epoch == s.io.epoch + 1 && t.state == Disconnected && t.tls == s.tls
  }

  predicate Keeps(s: Sock, t: Sock) {
    && t.io.epoch == s.io.epoch && t.io.generation == s.io.generation && t.tls == s.tls && t.ready == s.ready
    && (t.state == Disconnected <==> s.state == Disconnected)
    && Live(t, ResolveHost) == Live(s, ResolveHost) && Live(t, ConnectTcp) == Live(s, ConnectTcp)
    && Live(t, TlsHandshake) == Live(s, TlsHandshake) && Live(t, WsHandshake) == Live(s, WsHandshake)
  }

  predicate Apart(s: Sock, t: Sock) {
    Quits(s, t) || Keeps(s, t)
  }

  lemma ApartTwice(s: Sock, t: Sock, u: Sock)
    requires Keeps(s, t) && Apart(t, u)
    ensures Apart(s, u)
  {
  }

  lemma EndingApart(s: Sock, text: string)
    requires !s.atomic
    ensures Apart(s, CloseNow(s, text)) && Apart(s, ErrorConnection(s, text)) && Quits(s, DoClose(s, text))
  {
  }

  lemma CheckWritingApart(s: Sock, weakCas: bool)
    requires !s.atomic
    ensures Apart(s, CheckWriting(s, weakCas))
  {
    if (s.state == Connected || s.state == DisconnectRequested) && !s.writing && s.outbox.queue != [] {
      if s.outbox.queue[0].Marker? {
        MarkerApart(s, weakCas);
      } else {
        var t := s.(writing := true, outbox := Taken(s.outbox, InFlight));
        IssuedApart(Touch(t).(outbox := AsyncWrite(t, s.outbox.queue[0]).outbox), WriteMessage);
      }
    }
  }

  lemma IssuedApart(s: Sock, op: Op)
    requires !OfChain(op)
    ensures Keeps(s, Issue(s, op))
  {
  }

  lemma MarkerApart(s: Sock, weakCas: bool)
    requires !s.atomic && (s.state == Connected || s.state == DisconnectRequested)
    requires !s.writing && s.outbox.queue != [] && s.outbox.queue[0].Marker?
    ensures Apart(s, CheckWriting(s, weakCas))
  {
    var t := s.(writing := true, outbox := Taken(s.outbox, MarkerTaken));
    EndingApart(t, NO_REASON);
    IssuedApart(Touch(t.(state := Disconnecting)), CloseStream);
  }

  lemma WithdrawnApart(s: Sock, h: Handler)
    requires h != HandlerFor(s.io, h.op) || !OfChain(h.op)
    ensures Keeps(s, Withdraw(s, h))
  {
  }

  lemma OtherCompletionApart(s: Sock, op: Op, out: Outcome, tlsParams: bool, weakCas: bool)
    requires !s.atomic && !OfChain(op)
    ensures Apart(s, Complete(s, op, out, tlsParams, weakCas))
  {
    match op
    case ReadMessage =>
      EndingApart(s, if out.Failure? && out.closed && out.closeReason != "" then out.closeReason else NO_REASON);
      EndingApart(s, out.text);
    case WriteMessage =>
      EndingApart(s, "Connection closed by remote host");
      EndingApart(s, out.text);
      CheckWritingApart(s.(writing := false, outbox := Landed(s.outbox, Sent)), weakCas);
    case CloseStream => EndingApart(s, out.text);
  }

  lemma OtherDeliveryApart(s: Sock, h: Handler, out: Outcome, tlsParams: bool, weakCas: bool)
    requires Inv(s) && !s.atomic && h in s.io.handlers && s.io.epoch - h.epoch < TWO_TO_32
    requires h != HandlerFor(s.io, h.op) || !OfChain(h.op)
    ensures Apart(s, Deliver(s, h, out, tlsParams, weakCas))
  {
    GuardIsExact(s, h);
    WithdrawnApart(s, h);
    if h == HandlerFor(s.io, h.op) {
      OtherCompletionApart(Withdraw(s, h), h.op, out, tlsParams, weakCas);
      ApartTwice(s, Withdraw(s, h), Complete(Withdraw(s, h), h.op, out, tlsParams, weakCas));
    }
  }

  lemma ApartOnTrack(s: Sock, t: Sock, done: seq<Op>)
    requires OnTrack(s, done) && Apart(s, t) && Accounted(t)
    ensures OnTrack(t, if t.io.epoch != s.io.epoch then [] else done)
  {
  }

  // ----- steps of the chain -----

  /** The handler that completed makes room for the next one. */
  lemma NextOnTrack(s: Sock, h: Handler, op: Op, done: seq<Op>)
    requires Stamped(s) && Accounted(s) && OnTrack(s, done)
    requires h in s.io.handlers && h == HandlerFor(s.io, h.op) && OfChain(h.op)
    requires |done| + 1 < |Order(s.tls)| && Order(s.tls)[|done|] == h.op && Order(s.tls)[|done| + 1] == op
    ensures OnTrack(Issue(Withdraw(s, h), op), done + [h.op])
  {
    LiveIsNext(s, h, done);
    NextLive(s, h, op);
    OneFurther(Order(s.tls), done);
  }

  lemma {:induction false} NextLive(s: Sock, h: Handler, op: Op)
    requires Stamped(s) && h in s.io.handlers && h == HandlerFor(s.io, h.op) && OfChain(h.op) && Chain(s) == 1
    requires OfChain(op) && op != h.op
    ensures var t := Issue(Withdraw(s, h), op); Live(t, op) == 1
  {
    WithdrawCounts(s, h);
    IssueCounts(Withdraw(s, h), op);
  }

  lemma OneFurther(order: seq<Op>, done: seq<Op>)
    requires done < order
    ensures done + [order[|done|]] <= order
  {
  }

  /** Which operation is live says how far the attempt is. */
  lemma LiveIsNext(s: Sock, h: Handler, done: seq<Op>)
    requires Accounted(s) && OnTrack(s, done)
    requires h in s.io.handlers && h == HandlerFor(s.io, h.op) && OfChain(h.op)
    ensures Chain(s) == 1 && !s.ready && s.state != Disconnected
    ensures |done| < |Order(s.tls)| && Order(s.tls)[|done|] == h.op
  {
    assert Live(s, h.op) > 0;
  }

  /** A completion that may end the attempt and leaves nothing of the chain. */
  lemma EndingOnTrack(s: Sock, h: Handler, done: seq<Op>, text: string)
    requires Stamped(s) && Accounted(s) && OnTrack(s, done) && !s.atomic && h in s.io.handlers
    requires h == HandlerFor(s.io, h.op) && OfChain(h.op)
    ensures var t := ErrorConnection(Withdraw(s, h), text);
            OnTrack(t, if t.io.epoch != s.io.epoch then [] else done) &&
            OnTrack(t, if t.io.epoch != s.io.epoch then [] else done + [h.op])
    ensures var t := CloseNow(Withdraw(s, h), text);
            OnTrack(t, if t.io.epoch != s.io.epoch then [] else done + [h.op])
  {
    LiveIsNext(s, h, done);
    WithdrawCounts(s, h);
    EndingAccounted(s, h, text);
    EndingApart(Withdraw(s, h), text);
    NothingLeft(s, h, ErrorConnection(Withdraw(s, h), text), done);
    NothingLeft(s, h, CloseNow(Withdraw(s, h), text), done);
  }

  lemma NothingLeft(s: Sock, h: Handler, t: Sock, done: seq<Op>)
    requires Accounted(t) && Apart(Withdraw(s, h), t) && Chain(Withdraw(s, h)) == 0 && !s.ready
    requires s.state != Disconnected
    requires |done| < |Order(s.tls)| && done <= Order(s.tls) && Order(s.tls)[|done|] == h.op
    ensures OnTrack(t, if t.io.epoch != s.io.epoch then [] else done)
    ensures OnTrack(t, if t.io.epoch != s.io.epoch then [] else done + [h.op])
  {
  }

  lemma ResolvedOnTrack(s: Sock, h: Handler, done: seq<Op>, out: Outcome, tlsParams: bool)
    requires Stamped(s) && Accounted(s) && OnTrack(s, done) && !s.atomic
    requires h in s.io.handlers && h == HandlerFor(s.io, ResolveHost)
    ensures var t := HostResolved(Withdraw(s, h), out, tlsParams);
            OnTrack(t, if t.io.epoch != s.io.epoch then [] else if out.Success? then done + [ResolveHost] else done)
  {
    LiveIsNext(s, h, done);
    if out.Failure? {
      EndingOnTrack(s, h, done, "[Resolver] " + out.text);
    } else if s.tls && !tlsParams {
      EndingOnTrack(s, h, done, "Error setting SSL parameters");
    } else {
      NextOnTrack(s, h, ConnectTcp, done);
    }
  }

  lemma ConnectedOnTrack(s: Sock, h: Handler, done: seq<Op>, out: Outcome)
    requires Stamped(s) && Accounted(s) && OnTrack(s, done) && !s.atomic
    requires h in s.io.handlers && h == HandlerFor(s.io, ConnectTcp)
    ensures var t := SocketConnected(Withdraw(s, h), out);
            OnTrack(t, if t.io.epoch != s.io.epoch then [] else if out.Success? then done + [ConnectTcp] else done)
  {
    LiveIsNext(s, h, done);
    if out.Failure? {
      EndingOnTrack(s, h, done, "Connection failed: " + out.text);
    } else {
      NextOnTrack(s, h, if s.tls then TlsHandshake else WsHandshake, done);
    }
  }

  lemma TlsOnTrack(s: Sock, h: Handler, done: seq<Op>, out: Outcome, weakCas: bool)
    requires Stamped(s) && Accounted(s) && OnTrack(s, done) && !s.atomic
    requires h in s.io.handlers && h == HandlerFor(s.io, TlsHandshake)
    ensures var t := SslHandshakeComplete(Withdraw(s, h), out, weakCas);
            OnTrack(t, if t.io.epoch != s.io.epoch then [] else if out.Success? then done + [TlsHandshake] else done)
  {
    LiveIsNext(s, h, done);
    if out.Failure? {
      EndingOnTrack(s, h, done, "Connection failed: " + out.text);
    } else {
      NextOnTrack(s, h, WsHandshake, done);
    }
  }

  lemma HandshakeOnTrack(s: Sock, h: Handler, done: seq<Op>, out: Outcome, weakCas: bool)
    requires Stamped(s) && Accounted(s) && OnTrack(s, done) && !s.atomic
    requires h in s.io.handlers && h == HandlerFor(s.io, WsHandshake)
    ensures var t := HandshakeCompleted(Withdraw(s, h), out, weakCas);
            Accounted(t) ==>
              OnTrack(t, if t.io.epoch != s.io.epoch then [] else if out.Success? then done + [WsHandshake] else done)
  {
    LiveIsNext(s, h, done);
    var w := Withdraw(s, h);
    if out.Failure? {
      EndingOnTrack(s, h, done, "Connection failed: " + out.text);
    } else if s.state == Connecting {
      var u := Issue(Put(w.(state := Connected, ready := true), ConnectedEvent("Connected")), ReadMessage);
      WithdrawCounts(s, h);
      assert done + [WsHandshake] == Order(s.tls);
      assert OnTrack(u, done + [WsHandshake]);
      CheckWritingApart(u, weakCas);
      if Accounted(CheckWriting(u, weakCas)) {
        ApartOnTrack(u, CheckWriting(u, weakCas), done + [WsHandshake]);
      }
    } else {
      EndingOnTrack(s, h, done, NO_REASON);
    }
  }

  lemma ChainDeliveryOnTrack(s: Sock, h: Handler, done: seq<Op>, out: Outcome, tlsParams: bool, weakCas: bool)
    requires Inv(s) && OnTrack(s, done) && !s.atomic
    requires h in s.io.handlers && h == HandlerFor(s.io, h.op) && OfChain(h.op)
    requires Accounted(Deliver(s, h, out, tlsParams, weakCas))
    ensures var t := Deliver(s, h, out, tlsParams, weakCas);
            OnTrack(t, if t.io.epoch != s.io.epoch then [] else if out.Success? then done + [h.op] else done)
  {
    match h.op
    case ResolveHost => ResolvedOnTrack(s, h, done, out, tlsParams);
    case ConnectTcp => ConnectedOnTrack(s, h, done, out);
    case TlsHandshake => TlsOnTrack(s, h, done, out, weakCas);
    case WsHandshake => HandshakeOnTrack(s, h, done, out, weakCas);
  }

  lemma CloseApart(s: Sock, weakCas: bool)
    requires !s.atomic
    ensures Apart(s, Close(s, weakCas))
  {
    var t := Enqueue(s.(state := DisconnectRequested, outbox := s.outbox.(closeAt := |s.outbox.enqueued|)), Marker);
    CheckWritingApart(t, weakCas);
    if s.state == Connected {
      ApartTwice(s, t, CheckWriting(t, weakCas));
    }
  }

  lemma WriteApart(s: Sock, text: string, binary: bool, weakCas: bool)
    requires !s.atomic
    ensures Apart(s, Write(s, text, binary, weakCas))
  {
    var t := Enqueue(s, Message(text, binary));
    CheckWritingApart(t, weakCas);
    ApartTwice(s, t, CheckWriting(t, weakCas));
  }

  lemma CallApart(s: Sock, a: Action)
    requires !s.atomic && !a.Completion? && !(a.CallOpen? && s.state == Disconnected)
    ensures Apart(s, Step(s, a))
  {
    match a
    case CallOpen(clear) =>
    case CallClose(weakCas) => CloseApart(s, weakCas);
    case CallCloseNow => EndingApart(s, NO_REASON);
    case CallWrite(text, binary, weakCas) => WriteApart(s, text, binary, weakCas);
    case CallClearQueue =>
    case TakeEvents =>
  }

  lemma OpenedOnTrack(s: Sock, clear: bool)
    requires Stamped(s) && Accounted(s) && s.state == Disconnected
    ensures var t := Open(s, clear); t.io.epoch != s.io.epoch && OnTrack(t, [])
  {
    var t := Open(s, clear);
    assert HandlerFor(t.io, ResolveHost) !in s.io.handlers;
    OpenAccounted(s, clear);
  }

  lemma StepOnTrack(s: Sock, done: seq<Op>, a: Action)
    requires Inv(s) && !s.atomic && OnTrack(s, done) && Enabled(s, a) && Timely(s, a)
    ensures OnTrack(Step(s, a), Progress(s, done, a))
  {
    StepInv(s, a);
    if a.CallOpen? && s.state == Disconnected {
      OpenedOnTrack(s, a.shouldClearQueue);
    } else if !a.Completion? {
      CallApart(s, a);
      ApartOnTrack(s, Step(s, a), done);
    } else if a.h == HandlerFor(s.io, a.h.op) && OfChain(a.h.op) {
      ChainDeliveryOnTrack(s, a.h, done, a.out, a.tlsParams, a.weakCas);
    } else {
      OtherDeliveryApart(s, a.h, a.out, a.tlsParams, a.weakCas);
      ApartOnTrack(s, Step(s, a), done);
    }
  }

  // ----- every run -----

  lemma {:induction false} RunOnTrack(s: Sock, done: seq<Op>, acts: seq<Action>)
    requires Inv(s) && !s.atomic && OnTrack(s, done) && Legal(s, acts)
    ensures OnTrack(Exec(s, acts), Done(s, done, acts)) && Inv(Exec(s, acts)) && !Exec(s, acts).atomic
    ensures Exec(s, acts).tls == s.tls
    decreases |acts|
  {
    if acts != [] {
      StepOnTrack(s, done, acts[0]);
      StepInv(s, acts[0]);
      SocketHistory.StepRemembers(s, acts[0]);
      RunOnTrack(Step(s, acts[0]), Progress(s, done, acts[0]), acts[1..]);
    }
  }

  lemma InitialOnTrack(tls: bool)
    ensures Inv(Initial(tls)) && OnTrack(Initial(tls), [])
  {
    InitialReachable(tls);
    ReachableInv(Initial(tls));
  }

  /** The socket and the progress of its attempt after a run from its construction. */
  ghost predicate After(tls: bool, acts: seq<Action>, s: Sock, done: seq<Op>) {
    Legal(Initial(tls), acts) && s == Exec(Initial(tls), acts) && done == Done(Initial(tls), [], acts)
  }

  lemma AfterOnTrack(tls: bool, acts: seq<Action>, s: Sock, done: seq<Op>)
    requires After(tls, acts, s, done)
    ensures Inv(s) && OnTrack(s, done) && s.tls == tls && !s.atomic
  {
    var start := Initial(tls);
    InitialOnTrack(tls);
    RunOnTrack(start, [], acts);
  }

  /** Whatever has run: an operation of the chain is live only when those before it have succeeded, in order, in
      this attempt, and a socket is up only when all have. */
  lemma LiveInOrder(tls: bool, acts: seq<Action>, s: Sock, done: seq<Op>, op: Op)
    requires After(tls, acts, s, done) && OfChain(op)
    ensures Live(s, op) > 0 ==> done < Order(tls) && Order(tls)[|done|] == op
    ensures s.ready ==> done == Order(tls)
  {
    AfterOnTrack(tls, acts, s, done);
    if Live(s, op) > 0 {
      LiveIsNext(s, HandlerFor(s.io, op), done);
    }
  }

  /** No websocket handshake runs on a stream whose TLS handshake has not succeeded. */
  lemma NoUpgradeWithoutTls(acts: seq<Action>, s: Sock, done: seq<Op>)
    requires After(true, acts, s, done)
    ensures Live(s, WsHandshake) > 0 ==> done == [ResolveHost, ConnectTcp, TlsHandshake]
  {
    LiveInOrder(true, acts, s, done, WsHandshake);
  }

  ghost predicate PutsConnected(s: Sock, t: Sock) {
    exists i :: |s.inbox.emitted| <= i < |t.inbox.emitted| && t.inbox.emitted[i].ConnectedEvent?
  }

  /** A step puts a connected event exactly when it completes the chain of an attempt that nobody has closed: by
      then each operation of the chain has succeeded once, in order, in this attempt. */
  lemma ConnectedAfterTheChain(tls: bool, acts: seq<Action>, s: Sock, done: seq<Op>, a: Action)
    requires After(tls, acts, s, done) && Enabled(s, a) && Timely(s, a)
    ensures PutsConnected(s, Step(s, a)) <==>
              s.state == Connecting && Succeeds(s, a) && done + [a.h.op] == Order(tls)
  {
    AfterOnTrack(tls, acts, s, done);
    StepTells(s, a);
    ConnectedIsTold(s, Step(s, a), Told(s, a));
    ConnectedByHandshake(s, a);
    if Succeeds(s, a) {
      LiveIsNext(s, a.h, done);
    }
  }

  lemma ConnectedByHandshake(s: Sock, a: Action)
    ensures Told(s, a).connected.Some? <==> s.state == Connecting && Succeeds(s, a) && a.h.op == WsHandshake
  {
  }

  lemma ConnectedIsTold(s: Sock, t: Sock, r: Report)
    requires t.inbox.emitted == s.inbox.emitted + Events(r)
    ensures PutsConnected(s, t) <==> r.connected.Some?
  {
    if r.connected.Some? {
      assert t.inbox.emitted[|s.inbox.emitted|] == Events(r)[0];
    }
  }
}

/** guardGeneration as a refinement.

    The code leaves the handlers of a closed attempt outstanding and drops each when it is delivered, by
    comparing counters. The reference machine is the same machine with `atomic` set: its doClose removes
    every pending handler at once. The code simulates it, and a stale completion is a stutter. */
module GenerationGuard {
  import opened SocketMachine
  import opened HandlerAccounting
  import opened SocketInvariant
  import opened EventGrammar
  import opened SocketHistory

  /** The reference machine's state is the code's without the stale handlers. */
  ghost predicate Simulates(c: Sock, r: Sock) {
    && !c.atomic
    && r == c.(atomic := true, io := r.io)
    && r.io.generation == c.io.generation && r.io.epoch == c.io.epoch
    && forall h: Handler :: r.io.handlers[h] == if h.epoch == c.io.epoch then c.io.handlers[h] else 0
  }

  lemma DoCloseSimulates(c: Sock, r: Sock, text: string)
    requires Simulates(c, r) && Stamped(c)
    ensures Simulates(DoClose(c, text), DoClose(r, text))
  {
  }

  lemma EndingSimulates(c: Sock, r: Sock, text: string)
    requires Simulates(c, r) && Stamped(c)
    ensures Simulates(ErrorConnection(c, text), ErrorConnection(r, text))
    ensures Simulates(CloseNow(c, text), CloseNow(r, text))
    ensures Simulates(DoClose(c, text), DoClose(r, text))
  {
    DoCloseSimulates(c, r, text);
    DoCloseSimulates(Put(c, ErrorEvent(text)), Put(r, ErrorEvent(text)), text);
  }

  lemma IssueSimulates(c: Sock, r: Sock, op: Op)
    requires Simulates(c, r) && Stamped(c)
    ensures Simulates(Issue(c, op), Issue(r, op)) && Stamped(Issue(c, op))
  {
  }

  lemma MessageSimulates(c: Sock, r: Sock, weakCas: bool)
    requires Simulates(c, r) && Stamped(c) && c.outbox.queue != [] && c.outbox.queue[0].Message?
    ensures Simulates(CheckWriting(c, weakCas), CheckWriting(r, weakCas))
  {
    var m := c.outbox.queue[0];
    var o := Taken(c.outbox, InFlight).(messageToWrite := m.text, written := c.outbox.written + [m]);
    IssueSimulates(Touch(c).(writing := true, outbox := o), Touch(r).(writing := true, outbox := o), WriteMessage);
  }

  lemma MarkerSimulates(c: Sock, r: Sock, weakCas: bool)
    requires Simulates(c, r) && Stamped(c) && c.outbox.queue != [] && c.outbox.queue[0].Marker?
    ensures Simulates(CheckWriting(c, weakCas), CheckWriting(r, weakCas))
  {
    var o := Taken(c.outbox, MarkerTaken);
    var c1, r1 := c.(writing := true, outbox := o), r.(writing := true, outbox := o);
    if c.state == DisconnectRequested && weakCas {
      IssueSimulates(Touch(c1.(state := Disconnecting)), Touch(r1.(state := Disconnecting)), CloseStream);
    } else {
      EndingSimulates(c1, r1, NO_REASON);
    }
  }

  lemma CheckWritingSimulates(c: Sock, r: Sock, weakCas: bool)
    requires Simulates(c, r) && Stamped(c)
    ensures Simulates(CheckWriting(c, weakCas), CheckWriting(r, weakCas))
  {
    if c.outbox.queue != [] {
      if c.outbox.queue[0].Message? {
        MessageSimulates(c, r, weakCas);
      } else {
        MarkerSimulates(c, r, weakCas);
      }
    }
  }

  lemma HandshakeSimulates(c: Sock, r: Sock, out: Outcome, weakCas: bool)
    requires Simulates(c, r) && Stamped(c)
    ensures Simulates(HandshakeCompleted(c, out, weakCas), HandshakeCompleted(r, out, weakCas))
  {
    if out.Failure? {
      EndingSimulates(c, r, "Connection failed: " + out.text);
    } else if c.state == Connecting {
      var c1 := Put(c.(state := Connected, ready := true), ConnectedEvent("Connected"));
      var r1 := Put(r.(state := Connected, ready := true), ConnectedEvent("Connected"));
      IssueSimulates(c1, r1, ReadMessage);
      CheckWritingSimulates(Issue(c1, ReadMessage), Issue(r1, ReadMessage), weakCas);
    } else {
      EndingSimulates(c, r, NO_REASON);
    }
  }

  lemma ChainSimulates(c: Sock, r: Sock, op: Op, out: Outcome, tlsParams: bool, weakCas: bool)
    requires Simulates(c, r) && Stamped(c)
    requires op == ResolveHost || op == ConnectTcp || op == TlsHandshake || op == WsHandshake
    ensures Simulates(Complete(c, op, out, tlsParams, weakCas), Complete(r, op, out, tlsParams, weakCas))
  {
    HandshakeSimulates(c, r, out, weakCas);
    EndingSimulates(c, r, "Error setting SSL parameters");
    EndingSimulates(c, r, "[Resolver] " + out.text);
    IssueSimulates(c, r, ConnectTcp);
    IssueSimulates(c, r, TlsHandshake);
    IssueSimulates(c, r, WsHandshake);
  }

  lemma ReadSimulates(c: Sock, r: Sock, out: Outcome)
    requires Simulates(c, r) && Stamped(c)
    ensures Simulates(OnRead(c, out), OnRead(r, out))
  {
    if out.Success? {
      IssueSimulates(Put(c, MessageEvent(out.text)), Put(r, MessageEvent(out.text)), ReadMessage);
    } else {
      EndingSimulates(c, r, if out.closeReason == "" then NO_REASON else out.closeReason);
      EndingSimulates(c, r, out.text);
    }
  }

  lemma WriteSimulates(c: Sock, r: Sock, out: Outcome, weakCas: bool)
    requires Simulates(c, r) && Stamped(c)
    ensures Simulates(OnWrite(c, out, weakCas), OnWrite(r, out, weakCas))
  {
    if out.Success? {
      var o := Landed(c.outbox, Sent);
      CheckWritingSimulates(c.(writing := false, outbox := o), r.(writing := false, outbox := o), weakCas);
    } else {
      EndingSimulates(c, r, "Connection closed by remote host");
      EndingSimulates(c, r, out.text);
    }
  }

  lemma CompletionSimulates(c: Sock, r: Sock, op: Op, out: Outcome, tlsParams: bool, weakCas: bool)
    requires Simulates(c, r) && Stamped(c)
    ensures Simulates(Complete(c, op, out, tlsParams, weakCas), Complete(r, op, out, tlsParams, weakCas))
  {
    match op
    case ReadMessage => ReadSimulates(c, r, out);
    case WriteMessage => WriteSimulates(c, r, out, weakCas);
    case CloseStream => EndingSimulates(c, r, out.text);
    case _ => ChainSimulates(c, r, op, out, tlsParams, weakCas);
  }

  lemma CallSimulates(c: Sock, r: Sock, weakCas: bool, m: Outgoing)
    requires Simulates(c, r) && Stamped(c)
    ensures Simulates(Close(c, weakCas), Close(r, weakCas))
    ensures Simulates(CheckWriting(Enqueue(c, m), weakCas), CheckWriting(Enqueue(r, m), weakCas))
  {
    var o := c.outbox.(closeAt := |c.outbox.enqueued|);
    CheckWritingSimulates(Enqueue(c.(state := DisconnectRequested, outbox := o), Marker),
                          Enqueue(r.(state := DisconnectRequested, outbox := o), Marker), weakCas);
    CheckWritingSimulates(Enqueue(c, m), Enqueue(r, m), weakCas);
  }

  lemma OpenSimulates(c: Sock, r: Sock, clear: bool)
    requires Simulates(c, r) && Stamped(c) && Accounted(c) && Wrapped(c.io)
    ensures Simulates(Open(c, clear), Open(r, clear))
  {
    if c.state == Disconnected {
      forall h: Handler | h in r.io.handlers ensures false {
        assert h in c.io.handlers && h == HandlerFor(c.io, h.op);
        NoneLive(c, h.op);
      }
    }
  }

  lemma DeliverySimulates(c: Sock, r: Sock, h: Handler, out: Outcome, tlsParams: bool, weakCas: bool)
    requires Simulates(c, r) && Stamped(c) && h in c.io.handlers && h.epoch == c.io.epoch
    ensures h in r.io.handlers
    ensures Simulates(Deliver(c, h, out, tlsParams, weakCas), Deliver(r, h, out, tlsParams, weakCas))
  {
    CompletionSimulates(Withdraw(c, h), Withdraw(r, h), h.op, out, tlsParams, weakCas);
  }

  /** The delivery of a handler from an attempt that is over. */
  predicate Stale(c: Sock, a: Action) {
    a.Completion? && a.h.epoch != c.io.epoch
  }

  /** One step of the code is the same step of the reference machine, or a stutter when it delivers a
      stale handler; the reference machine's own guard never fails. */
  lemma StepSimulates(c: Sock, r: Sock, a: Action)
    requires Inv(c) && Simulates(c, r) && Enabled(c, a) && Timely(c, a)
    ensures Stale(c, a) ==> Simulates(Step(c, a), r)
    ensures !Stale(c, a) ==> Enabled(r, a) && Timely(r, a) && Simulates(Step(c, a), Step(r, a))
    ensures a.Completion? ==> (Stale(c, a) <==> c.io.generation != a.h.expected)
  {
    match a
    case CallOpen(clear) => OpenSimulates(c, r, clear);
    case CallClose(weakCas) => CallSimulates(c, r, weakCas, Marker);
    case CallCloseNow => EndingSimulates(c, r, NO_REASON);
    case CallWrite(text, binary, weakCas) => CallSimulates(c, r, weakCas, Message(text, binary));
    case CallClearQueue =>
    case TakeEvents =>
    case Completion(h, out, tlsParams, weakCas) =>
      GuardIsExact(c, h);
      if !Stale(c, a) {
        DeliverySimulates(c, r, h, out, tlsParams, weakCas);
      }
  }

  /** The run without its stale completions. */
  function Effective(c: Sock, acts: seq<Action>): seq<Action>
    requires Legal(c, acts)
    decreases |acts|
  {
    if acts == [] then []
    else (if Stale(c, acts[0]) then [] else [acts[0]]) + Effective(Step(c, acts[0]), acts[1..])
  }

  /** Every run of the code is a run of the reference machine with the stale completions left out, and ends
      in the same state, with the same queues, events and histories. */
  lemma {:induction false} GuardRefinesAtomicClose(c: Sock, r: Sock, acts: seq<Action>)
    requires Inv(c) && Simulates(c, r) && Legal(c, acts)
    ensures Legal(r, Effective(c, acts))
    ensures Simulates(Exec(c, acts), Exec(r, Effective(c, acts)))
    decreases |acts|
  {
    if acts != [] {
      StepSimulates(c, r, acts[0]);
      StepInv(c, acts[0]);
      var d := Step(c, acts[0]);
      var rest := Effective(d, acts[1..]);
      if Stale(c, acts[0]) {
        GuardRefinesAtomicClose(d, r, acts[1..]);
        assert Effective(c, acts) == rest;
      } else {
        GuardRefinesAtomicClose(d, Step(r, acts[0]), acts[1..]);
        assert Effective(c, acts) == [acts[0]] + rest;
        assert ([acts[0]] + rest)[1..] == rest;
      }
    }
  }

  /** The simulation from the start: every run of a constructed socket, with the stale completions left out,
      is a run of the reference machine that ends in the same state. */
  lemma EveryRunIsAtomic(tls: bool, acts: seq<Action>)
    requires Legal(Initial(tls), acts)
    ensures var r, effective := Initial(tls).(atomic := true), Effective(Initial(tls), acts);
            && Simulates(Initial(tls), r)
            && Legal(r, effective)
            && Simulates(Exec(Initial(tls), acts), Exec(r, effective))
  {
    InitialReachable(tls);
    ReachableInv(Initial(tls));
    GuardRefinesAtomicClose(Initial(tls), Initial(tls).(atomic := true), acts);
  }

  // ----- a handler that outlives 2^32 bumps -----

  /** An attempt on which only the websocket handshake is outstanding. */
  lemma ConnectingSocket() returns (s: Sock)
    ensures Reachable(s) && s.state == Connecting && s.io.epoch == 1 && s.io.generation == 1
    ensures s.outbox.queue == [] && HandlerFor(s.io, WsHandshake) in s.io.handlers
  {
    var ok := Outcome.Success("");
    s := Initial(false);
    InitialReachable(false);
    ReachableStep(s, CallOpen(true));
    s := Step(s, CallOpen(true));
    var h := HandlerFor(s.io, ResolveHost);
    ReachableStep(s, Completion(h, ok, true, true));
    s := Step(s, Completion(h, ok, true, true));
    h := HandlerFor(s.io, ConnectTcp);
    ReachableStep(s, Completion(h, ok, true, true));
    s := Step(s, Completion(h, ok, true, true));
  }

  /** A connection that came up and was cut: its read handler is outstanding, from epoch 1. */
  lemma CutConnection() returns (s: Sock)
    ensures Reachable(s) && s.state == Disconnected && s.io.epoch == 2
    ensures Handler(ReadMessage, 1, 1) in s.io.handlers
  {
    s := ConnectingSocket();
    var h := HandlerFor(s.io, WsHandshake);
    ReachableStep(s, Completion(h, Outcome.Success(""), true, true));
    s := Step(s, Completion(h, Outcome.Success(""), true, true));
    assert s.state == Connected && Handler(ReadMessage, 1, 1) in s.io.handlers;
    ReachableStep(s, CallCloseNow);
    ReachableCode(s);
    s := Step(s, CallCloseNow);
  }

  lemma ReopenedOnce(s: Sock, h: Handler) returns (t: Sock)
    requires Reachable(s) && s.state == Disconnected && h in s.io.handlers
    ensures Reachable(t) && t.state == Disconnected && h in t.io.handlers
    ensures t.io.epoch == s.io.epoch + 2 && !t.atomic
  {
    ReachableStep(s, CallOpen(true));
    var o := Step(s, CallOpen(true));
    ReachableStep(o, CallCloseNow);
    t := Step(o, CallCloseNow);
    ReachableCode(t);
    ReachableCode(o);
  }

  lemma {:induction false} ReopenedOften(s: Sock, h: Handler, n: nat) returns (t: Sock)
    requires Reachable(s) && s.state == Disconnected && h in s.io.handlers
    ensures Reachable(t) && t.state == Disconnected && h in t.io.handlers
    ensures t.io.epoch == s.io.epoch + 2 * n
    decreases n
  {
    t := s;
    if n > 0 {
      t := ReopenedOnce(s, h);
      t := ReopenedOften(t, h, n - 1);
    }
  }

  lemma {:induction false} CodeStaysCode(s: Sock, acts: seq<Action>)
    requires Legal(s, acts)
    ensures Exec(s, acts).atomic == s.atomic
    decreases |acts|
  {
    if acts != [] {
      StepRemembers(s, acts[0]);
      CodeStaysCode(Step(s, acts[0]), acts[1..]);
    }
  }

  lemma ReachableCode(s: Sock)
    requires Reachable(s)
    ensures !s.atomic
  {
    var tls, acts :| Legal(Initial(tls), acts) && s == Exec(Initial(tls), acts);
    CodeStaysCode(Initial(tls), acts);
  }

  /** The bound is needed: a read handler that survives exactly 2^32 bumps passes the guard again, and its
      message is reported on an attempt that has not connected. */
  lemma LateHandlerBreaksTheGrammar() returns (s: Sock, a: Action)
    ensures Reachable(s) && s.state == Connecting && Enabled(s, a) && !Timely(s, a)
    ensures PhaseOf(Step(s, a).inbox.emitted) == Broken
  {
    var h := Handler(ReadMessage, 1, 1);
    s := CutConnection();
    s := ReopenedOften(s, h, TWO_TO_32 / 2 - 1);
    ReachableStep(s, CallOpen(true));
    s := Step(s, CallOpen(true));
    a := Completion(h, Outcome.Success(""), true, true);
    ReachableInv(s);
    GuardTest(s, h);
    LateRead(s, h);
  }

  lemma LateRead(s: Sock, h: Handler)
    requires Inv(s) && s.state == Connecting && h in s.io.handlers && h.op == ReadMessage
    requires s.io.generation == h.expected
    ensures PhaseOf(Step(s, Completion(h, Outcome.Success(""), true, true)).inbox.emitted) == Broken
  {
    PhaseOfAppend(s.inbox.emitted, MessageEvent(""));
  }
}

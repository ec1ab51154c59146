/** The order of the events a socket puts into its incoming queue.

    Every run emits a prefix of a word in ((CONNECTED MESSAGE*)? ERROR? DISCONNECTED)*, with one
    DISCONNECTED for every two bumps of the generation counter. */
module EventGrammar {
  import opened SocketMachine
  import opened HandlerAccounting
  import opened Results

  /** What a connection that came up emitted before it went down. */
  datatype Session = Session(greeting: string, messages: seq<string>)

  /** A finished attempt: perhaps a session, perhaps an error, and always a disconnect. */
  datatype Attempt = Attempt(session: Option<Session>, error: Option<string>, reason: string)

  function Opening(session: Option<Session>): seq<Event> {
    match session
    case None => []
    case Some(x) =>
      [ConnectedEvent(x.greeting)] + seq(|x.messages|, i requires 0 <= i < |x.messages| => MessageEvent(x.messages[i]))
  }

  function Word(a: Attempt): seq<Event> {
    Opening(a.session) + (if a.error.Some? then [ErrorEvent(a.error.value)] else []) + [DisconnectedEvent(a.reason)]
  }

  function Words(attempts: seq<Attempt>): seq<Event> {
    if attempts == [] then [] else Words(attempts[..|attempts| - 1]) + Word(attempts[|attempts| - 1])
  }

  ghost predicate Spells(trace: seq<Event>, attempts: seq<Attempt>, session: Option<Session>) {
    trace == Words(attempts) + Opening(session)
  }

  /** The trace is `attempts` finished attempts, then an open session or nothing. */
  ghost predicate InGrammar(trace: seq<Event>, attempts: nat, open: bool) {
    exists done: seq<Attempt>, session: Option<Session> ::
      Spells(trace, done, session) && |done| == attempts && session.Some? == open
  }

  function Disconnects(trace: seq<Event>): nat {
    if trace == [] then 0
    else Disconnects(trace[..|trace| - 1]) + (if trace[|trace| - 1].DisconnectedEvent? then 1 else 0)
  }

  // ----- an automaton for the grammar -----

  datatype Phase = Boundary | Opened | Failing | Broken

  function After(p: Phase, e: Event): Phase {
    match (p, e)
    case (Boundary, ConnectedEvent(_)) => Opened
    case (Boundary, ErrorEvent(_)) => Failing
    case (Boundary, DisconnectedEvent(_)) => Boundary
    case (Opened, MessageEvent(_)) => Opened
    case (Opened, ErrorEvent(_)) => Failing
    case (Opened, DisconnectedEvent(_)) => Boundary
    case (Failing, DisconnectedEvent(_)) => Boundary
    case (_, _) => Broken
  }

  function PhaseOf(trace: seq<Event>): Phase {
    if trace == [] then Boundary else After(PhaseOf(trace[..|trace| - 1]), trace[|trace| - 1])
  }

  lemma PhaseOfAppend(trace: seq<Event>, e: Event)
    ensures PhaseOf(trace + [e]) == After(PhaseOf(trace), e)
    ensures Disconnects(trace + [e]) == Disconnects(trace) + (if e.DisconnectedEvent? then 1 else 0)
  {
    assert (trace + [e])[..|trace|] == trace;
  }

  lemma WordsAppend(attempts: seq<Attempt>, a: Attempt)
    ensures Words(attempts + [a]) == Words(attempts) + Word(a)
  {
    assert (attempts + [a])[..|attempts|] == attempts;
  }

  lemma OpeningAppend(x: Session, text: string)
    ensures Opening(Some(x)) + [MessageEvent(text)] == Opening(Some(Session(x.greeting, x.messages + [text])))
  {
  }

  /** What the running attempt emitted so far. */
  function Tail(session: Option<Session>, error: Option<string>): seq<Event> {
    Opening(session) + (if error.Some? then [ErrorEvent(error.value)] else [])
  }

  function Reading(done: seq<Attempt>, session: Option<Session>, error: Option<string>): seq<Event> {
    Words(done) + Tail(session, error)
  }

  lemma TailAppend(session: Option<Session>, error: Option<string>, e: Event)
      returns (session': Option<Session>, error': Option<string>)
    requires !e.DisconnectedEvent? && error == None
    requires e.ConnectedEvent? ==> session == None
    requires e.MessageEvent? ==> session.Some?
    ensures Tail(session', error') == Tail(session, error) + [e]
    ensures session'.Some? <==> (e.ConnectedEvent? || e.MessageEvent? || session.Some?)
    ensures error'.Some? <==> e.ErrorEvent?
  {
    session', error' := session, error;
    if e.ConnectedEvent? {
      session' := Some(Session(e.text, []));
      assert Opening(session') == [e];
    } else if e.MessageEvent? {
      OpeningAppend(session.value, e.text);
      session' := Some(Session(session.value.greeting, session.value.messages + [e.text]));
    } else {
      error' := Some(e.text);
    }
  }

  /** How one more event extends what was read so far. */
  lemma ReadOne(done: seq<Attempt>, session: Option<Session>, error: Option<string>, e: Event)
      returns (done': seq<Attempt>, session': Option<Session>, error': Option<string>)
    requires e.ConnectedEvent? ==> session == None
    requires e.MessageEvent? ==> session.Some?
    requires !e.DisconnectedEvent? ==> error == None
    ensures Reading(done', session', error') == Reading(done, session, error) + [e]
    ensures |done'| == |done| + (if e.DisconnectedEvent? then 1 else 0)
    ensures session'.Some? <==> (e.ConnectedEvent? || e.MessageEvent? || (e.ErrorEvent? && session.Some?))
    ensures error'.Some? <==> e.ErrorEvent?
  {
    if e.DisconnectedEvent? {
      var a := Attempt(session, error, e.text);
      assert Word(a) == Tail(session, error) + [e];
      WordsAppend(done, a);
      done', session', error' := done + [a], None, None;
      assert Reading(done', session', error') == Words(done) + Word(a);
    } else {
      done' := done;
      session', error' := TailAppend(session, error, e);
    }
  }

  /** An accepted trace is spelled by finished attempts, an open session, and perhaps a pending error. */
  lemma {:induction false} Parsed(trace: seq<Event>)
      returns (done: seq<Attempt>, session: Option<Session>, error: Option<string>)
    requires PhaseOf(trace) != Broken
    ensures trace == Reading(done, session, error)
    ensures |done| == Disconnects(trace)
    ensures PhaseOf(trace) == Failing <==> error.Some?
    ensures PhaseOf(trace) == Boundary ==> session == None
    ensures PhaseOf(trace) == Opened ==> session.Some?
    decreases |trace|
  {
    if trace == [] {
      done, session, error := [], None, None;
    } else {
      var prefix := trace[..|trace| - 1];
      assert trace == prefix + [trace[|trace| - 1]];
      done, session, error := Parsed(prefix);
      done, session, error := ReadOne(done, session, error, trace[|trace| - 1]);
    }
  }

  // ----- the socket -----

  /** Where the trace of events stands, read off the state and the counter. */
  ghost predicate Graded(s: Sock) {
    && PhaseOf(s.inbox.emitted) == (if s.ready then Opened else Boundary)
    && Disconnects(s.inbox.emitted) == s.io.epoch / 2
    && (s.io.epoch % 2 == 0 <==> s.state == Disconnected)
  }

  lemma InitialGraded(tls: bool)
    ensures Graded(Initial(tls))
  {
  }

  lemma DoCloseGraded(s: Sock, text: string)
    requires s.state != Disconnected && s.io.epoch % 2 == 1 && Disconnects(s.inbox.emitted) == s.io.epoch / 2
    requires PhaseOf(s.inbox.emitted) != Broken
    ensures Graded(DoClose(s, text))
  {
    PhaseOfAppend(s.inbox.emitted, DisconnectedEvent(text));
  }

  lemma EndingGraded(s: Sock, text: string)
    requires Graded(s)
    ensures Graded(ErrorConnection(s, text)) && Graded(CloseNow(s, text))
    ensures s.state != Disconnected ==> Graded(DoClose(s, text))
  {
    if s.state != Disconnected {
      DoCloseGraded(s, text);
      PhaseOfAppend(s.inbox.emitted, ErrorEvent(text));
      DoCloseGraded(Put(s, ErrorEvent(text)), text);
    }
  }

  lemma CheckWritingGraded(s: Sock, weakCas: bool)
    requires Graded(s)
    ensures Graded(CheckWriting(s, weakCas))
  {
    if s.outbox.queue != [] && s.outbox.queue[0].Marker? {
      EndingGraded(s.(writing := true, outbox := Taken(s.outbox, MarkerTaken)), NO_REASON);
    }
  }

  lemma HandshakeGraded(s: Sock, out: Outcome, weakCas: bool)
    requires Graded(s) && (s.state == Connecting ==> !s.ready)
    ensures Graded(HandshakeCompleted(s, out, weakCas))
  {
    if out.Failure? {
      EndingGraded(s, "Connection failed: " + out.text);
    } else if s.state == Connecting {
      PhaseOfAppend(s.inbox.emitted, ConnectedEvent("Connected"));
      var u := Issue(Put(s.(state := Connected, ready := true), ConnectedEvent("Connected")), ReadMessage);
      CheckWritingGraded(u, weakCas);
    } else {
      EndingGraded(s, NO_REASON);
    }
  }

  lemma ChainGraded(s: Sock, op: Op, out: Outcome, tlsParams: bool, weakCas: bool)
    requires Graded(s) && (s.state == Connecting ==> !s.ready)
    requires op == ResolveHost || op == ConnectTcp || op == TlsHandshake || op == WsHandshake
    ensures Graded(Complete(s, op, out, tlsParams, weakCas))
  {
    HandshakeGraded(s, out, weakCas);
    EndingGraded(s, "Error setting SSL parameters");
    EndingGraded(s, "[Resolver] " + out.text);
  }

  lemma ReadGraded(s: Sock, out: Outcome)
    requires Graded(s) && s.ready
    ensures Graded(OnRead(s, out))
  {
    if out.Success? {
      PhaseOfAppend(s.inbox.emitted, MessageEvent(out.text));
    } else if out.closed {
      EndingGraded(s, if out.closeReason == "" then NO_REASON else out.closeReason);
    } else {
      EndingGraded(s, out.text);
    }
  }

  lemma WriteGraded(s: Sock, out: Outcome, weakCas: bool)
    requires Graded(s)
    ensures Graded(OnWrite(s, out, weakCas))
  {
    if out.Success? {
      CheckWritingGraded(s.(writing := false, outbox := Landed(s.outbox, Sent)), weakCas);
    } else {
      EndingGraded(s, "Connection closed by remote host");
      EndingGraded(s, out.text);
    }
  }

  lemma DeliveryGraded(s: Sock, h: Handler, out: Outcome, tlsParams: bool, weakCas: bool)
    requires Graded(s) && Accounted(s)
    requires h in s.io.handlers && h == HandlerFor(s.io, h.op)
    ensures Graded(Deliver(s, h, out, tlsParams, weakCas))
  {
    var t := Withdraw(s, h);
    assert Live(s, h.op) > 0;
    match h.op
    case ReadMessage => ReadGraded(t, out);
    case WriteMessage => WriteGraded(t, out, weakCas);
    case CloseStream => EndingGraded(t, out.text);
    case _ => ChainGraded(t, h.op, out, tlsParams, weakCas);
  }

  lemma CallGraded(s: Sock, weakCas: bool, m: Outgoing)
    requires Graded(s)
    ensures Graded(Close(s, weakCas))
    ensures Graded(CheckWriting(Enqueue(s, m), weakCas))
  {
    var o := s.outbox.(closeAt := |s.outbox.enqueued|);
    if s.state == Connected {
      CheckWritingGraded(Enqueue(s.(state := DisconnectRequested, outbox := o), Marker), weakCas);
    }
    CheckWritingGraded(Enqueue(s, m), weakCas);
  }

  lemma StepGraded(s: Sock, a: Action)
    requires Graded(s) && Stamped(s) && Wrapped(s.io) && Accounted(s)
    requires Enabled(s, a) && Timely(s, a)
    ensures Graded(Step(s, a))
  {
    match a
    case CallOpen(clear) =>
    case CallClose(weakCas) => CallGraded(s, weakCas, Marker);
    case CallCloseNow => EndingGraded(s, NO_REASON);
    case CallWrite(text, binary, weakCas) => CallGraded(s, weakCas, Message(text, binary));
    case CallClearQueue =>
    case TakeEvents =>
    case Completion(h, out, tlsParams, weakCas) =>
      GuardIsExact(s, h);
      if h == HandlerFor(s.io, h.op) {
        DeliveryGraded(s, h, out, tlsParams, weakCas);
      }
  }

  /** What the invariants say about the trace of events. */
  lemma GradedTrace(s: Sock)
    requires Graded(s)
    ensures InGrammar(s.inbox.emitted, s.io.epoch / 2, s.ready)
  {
    var done, session, _ := Parsed(s.inbox.emitted);
    assert Spells(s.inbox.emitted, done, session);
  }
}

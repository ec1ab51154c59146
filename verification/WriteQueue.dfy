/** What happens to the entries of the outgoing queue.

    Every entry ever enqueued is still queued or has exactly one fate; the messages handed to asyncWrite keep
    the order in which they were enqueued; at most one is in flight, and while it is, messageToWrite is its
    text; and a graceful close has sent everything that was queued before it. */
module WriteQueue {
  import opened SocketMachine
  import opened HandlerAccounting

  predicate WasHanded(f: Fate) {
    f == InFlight || f == Sent || f == Lost
  }

  /** The messages handed to asyncWrite, in queue order. */
  function Handed(enqueued: seq<Outgoing>, fates: seq<Fate>): seq<Outgoing>
    requires |fates| <= |enqueued|
  {
    if fates == [] then []
    else
      var i := |fates| - 1;
      Handed(enqueued, fates[..i]) + (if WasHanded(fates[i]) then [enqueued[i]] else [])
  }

  lemma {:induction false} HandedMoreEnqueued(enqueued: seq<Outgoing>, fates: seq<Fate>, m: Outgoing)
    requires |fates| <= |enqueued|
    ensures Handed(enqueued + [m], fates) == Handed(enqueued, fates)
    decreases |fates|
  {
    if fates != [] {
      HandedMoreEnqueued(enqueued, fates[..|fates| - 1], m);
    }
  }

  lemma HandedOneMore(enqueued: seq<Outgoing>, fates: seq<Fate>, f: Fate)
    requires |fates| < |enqueued|
    ensures Handed(enqueued, fates + [f]) ==
            Handed(enqueued, fates) + (if WasHanded(f) then [enqueued[|fates|]] else [])
  {
    assert (fates + [f])[..|fates|] == fates;
  }

  lemma {:induction false} HandedDiscards(enqueued: seq<Outgoing>, fates: seq<Fate>, n: nat, f: Fate)
    requires |fates| + n <= |enqueued| && !WasHanded(f)
    ensures Handed(enqueued, fates + seq(n, _ => f)) == Handed(enqueued, fates)
    decreases n
  {
    if n == 0 {
      assert fates + seq(n, _ => f) == fates;
    } else {
      HandedDiscards(enqueued, fates, n - 1, f);
      HandedOneMore(enqueued, fates + seq(n - 1, _ => f), f);
      assert fates + seq(n, _ => f) == (fates + seq(n - 1, _ => f)) + [f];
    }
  }

  lemma {:induction false} HandedLanded(enqueued: seq<Outgoing>, fates: seq<Fate>, i: nat, f: Fate)
    requires i < |fates| <= |enqueued| && WasHanded(fates[i]) && WasHanded(f)
    ensures Handed(enqueued, fates[i := f]) == Handed(enqueued, fates)
    decreases |fates|
  {
    var n := |fates| - 1;
    if i < n {
      HandedLanded(enqueued, fates[..n], i, f);
      assert fates[i := f][..n] == fates[..n][i := f];
    } else {
      assert fates[i := f][..n] == fates[..n];
    }
  }

  /** The indices of the messages handed to asyncWrite. */
  function HandedAt(fates: seq<Fate>): (at: seq<nat>)
    ensures forall k :: 0 <= k < |at| ==> at[k] < |fates| && WasHanded(fates[at[k]])
    ensures forall j, k :: 0 <= j < k < |at| ==> at[j] < at[k]
    ensures forall i :: 0 <= i < |fates| && WasHanded(fates[i]) ==> i in at
  {
    if fates == [] then []
    else
      var i := |fates| - 1;
      HandedAt(fates[..i]) + (if WasHanded(fates[i]) then [i] else [])
  }

  lemma {:induction false} HandedInOrder(enqueued: seq<Outgoing>, fates: seq<Fate>)
    requires |fates| <= |enqueued|
    ensures |Handed(enqueued, fates)| == |HandedAt(fates)|
    ensures forall k :: 0 <= k < |HandedAt(fates)| ==> Handed(enqueued, fates)[k] == enqueued[HandedAt(fates)[k]]
    decreases |fates|
  {
    if fates != [] {
      HandedInOrder(enqueued, fates[..|fates| - 1]);
    }
  }

  // ----- the invariants -----

  ghost predicate Ledger(o: Outbox) {
    && |o.fates| <= |o.enqueued|
    && o.queue == o.enqueued[|o.fates|..]
    && o.written == Handed(o.enqueued, o.fates)
    && o.base <= |o.fates|
  }

  /** A message is in flight exactly while `writing` is set for a message, and then it is messageToWrite. */
  ghost predicate OneFlight(o: Outbox, flying: bool) {
    && (forall i :: 0 <= i < |o.fates| && o.fates[i] == InFlight ==> flying && i == o.flightAt)
    && (flying ==>
          && o.base <= o.flightAt < |o.fates| <= |o.enqueued|
          && o.fates[o.flightAt] == InFlight
          && o.enqueued[o.flightAt].Message?
          && o.enqueued[o.flightAt].text == o.messageToWrite)
  }

  predicate Flying(s: Sock) {
    s.writing && s.state != Disconnecting
  }

  /** At most one marker belongs to an attempt: the one that its close() enqueued. */
  ghost predicate Markers(o: Outbox, state: SocketState) {
    match state
    case Disconnected => forall i :: |o.fates| <= i < |o.enqueued| ==> o.enqueued[i].Message?
    case Connecting => forall i :: o.base <= i < |o.enqueued| ==> o.enqueued[i].Message?
    case Connected => forall i :: o.base <= i < |o.enqueued| ==> o.enqueued[i].Message?
    case _ =>
      && o.base <= o.closeAt < |o.enqueued|
      && o.enqueued[o.closeAt] == Marker
      && forall i :: o.base <= i < |o.enqueued| && i != o.closeAt ==> o.enqueued[i].Message?
  }

  /** The fates of what belongs to the running attempt. */
  ghost predicate Progressed(o: Outbox, state: SocketState) {
    match state
    case Disconnected => true
    case Disconnecting =>
      && o.closeAt < |o.fates|
      && o.fates[o.closeAt] == MarkerTaken
      && (forall i :: o.base <= i < o.closeAt ==> o.fates[i] == Sent || o.fates[i] == Cleared)
      && (forall i :: o.closeAt < i < |o.fates| ==> o.fates[i] == Cleared)
    case _ =>
      forall i :: o.base <= i < |o.fates| ==> o.fates[i] == Sent || o.fates[i] == Cleared || o.fates[i] == InFlight
  }

  ghost predicate Booked(s: Sock) {
    && Ledger(s.outbox)
    && OneFlight(s.outbox, Flying(s))
    && Markers(s.outbox, s.state)
    && Progressed(s.outbox, s.state)
  }

  /** On a stream that is ready, an idle writer means an empty queue. */
  ghost predicate Quiet(s: Sock) {
    (s.state == Connected || (s.state == DisconnectRequested && s.ready)) && !s.writing ==> s.outbox.queue == []
  }

  lemma InitialBooked(tls: bool)
    ensures Booked(Initial(tls)) && Quiet(Initial(tls))
  {
  }

  // ----- each operation -----

  lemma EmptiedLedger(o: Outbox, why: Fate)
    requires Ledger(o) && !WasHanded(why)
    ensures var e := Emptied(o, why);
            && Ledger(e) && |e.fates| == |e.enqueued|
            && forall i :: 0 <= i < |e.fates| ==> e.fates[i] == if i < |o.fates| then o.fates[i] else why
  {
    HandedDiscards(o.enqueued, o.fates, |o.queue|, why);
  }

  lemma LandedLedger(o: Outbox, flying: bool, f: Fate)
    requires Ledger(o) && OneFlight(o, flying) && WasHanded(f) && f != InFlight
    ensures var l := Landed(o, f);
            && Ledger(l) && OneFlight(l, false) && |l.fates| == |o.fates|
            && forall i :: 0 <= i < |o.fates| ==> l.fates[i] == if o.fates[i] == InFlight then f else o.fates[i]
  {
    if o.flightAt < |o.fates| && o.fates[o.flightAt] == InFlight {
      HandedLanded(o.enqueued, o.fates, o.flightAt, f);
    }
  }

  lemma DoCloseBooked(s: Sock, text: string, flying: bool)
    requires Ledger(s.outbox) && OneFlight(s.outbox, flying)
    ensures Booked(DoClose(s, text))
  {
    LandedLedger(s.outbox, flying, Lost);
    EmptiedLedger(Landed(s.outbox, Lost), Dropped);
  }

  lemma EndingBooked(s: Sock, text: string)
    requires Booked(s)
    ensures Booked(ErrorConnection(s, text)) && Booked(CloseNow(s, text)) && Booked(DoClose(s, text))
  {
    DoCloseBooked(s, text, Flying(s));
    DoCloseBooked(Put(s, ErrorEvent(text)), text, Flying(s));
  }

  lemma TakenMessage(s: Sock)
    requires Booked(s) && !s.writing && s.outbox.queue != [] && s.outbox.queue[0].Message?
    requires s.state == Connected || s.state == DisconnectRequested
    ensures var t := AsyncWrite(s.(writing := true, outbox := Taken(s.outbox, InFlight)), s.outbox.queue[0]);
            Booked(t)
  {
    var o := s.outbox;
    HandedOneMore(o.enqueued, o.fates, InFlight);
    assert o.queue[0] == o.enqueued[|o.fates|];
  }

  lemma TakenMarker(s: Sock)
    requires Booked(s) && !s.writing && s.outbox.queue != [] && s.outbox.queue[0].Marker?
    requires s.state == DisconnectRequested
    ensures var t := s.(state := Disconnecting, writing := true, outbox := Taken(s.outbox, MarkerTaken)); Booked(t)
    ensures Ledger(Taken(s.outbox, MarkerTaken)) && OneFlight(Taken(s.outbox, MarkerTaken), false)
  {
    var o := s.outbox;
    HandedOneMore(o.enqueued, o.fates, MarkerTaken);
    assert o.queue[0] == o.enqueued[|o.fates|];
    assert o.closeAt == |o.fates|;
  }

  lemma CheckWritingBooked(s: Sock, weakCas: bool)
    requires Booked(s)
    ensures var t := CheckWriting(s, weakCas); Booked(t) && Quiet(t)
  {
    var o := s.outbox;
    if (s.state == Connected || s.state == DisconnectRequested) && !s.writing && o.queue != [] {
      assert o.queue[0] == o.enqueued[|o.fates|];
      if o.queue[0].Message? {
        TakenMessage(s);
      } else {
        TakenMarker(s);
        var t := s.(writing := true, outbox := Taken(o, MarkerTaken));
        DoCloseBooked(t, NO_REASON, false);
      }
    }
  }

  lemma EnqueuedBooked(s: Sock, m: Outgoing)
    requires Booked(s) && m.Message?
    ensures Booked(Enqueue(s, m))
  {
    HandedMoreEnqueued(s.outbox.enqueued, s.outbox.fates, m);
  }

  lemma {:induction false} MarkedBooked(s: Sock)
    requires Booked(s) && (s.state == Connecting || s.state == Connected)
    ensures Booked(Enqueue(s.(state := DisconnectRequested,
                              outbox := s.outbox.(closeAt := |s.outbox.enqueued|)), Marker))
  {
    HandedMoreEnqueued(s.outbox.enqueued, s.outbox.fates, Marker);
  }

  lemma {:induction false} CloseBooked(s: Sock, weakCas: bool)
    requires Booked(s) && Quiet(s) && (s.state == Connecting ==> !s.ready)
    ensures var t := Close(s, weakCas); Booked(t) && Quiet(t)
  {
    if s.state == Connecting || s.state == Connected {
      MarkedBooked(s);
      var t := Enqueue(s.(state := DisconnectRequested,
                          outbox := s.outbox.(closeAt := |s.outbox.enqueued|)), Marker);
      CheckWritingBooked(t, weakCas);
    }
  }

  lemma OpenBooked(s: Sock, clear: bool)
    requires Booked(s) && Quiet(s) && (s.state == Disconnected ==> !s.writing)
    ensures var t := Open(s, clear); Booked(t) && Quiet(t)
  {
    if s.state == Disconnected && clear {
      EmptiedLedger(s.outbox, Cleared);
    }
  }

  lemma ClearQueueBooked(s: Sock)
    requires Booked(s) && Quiet(s)
    ensures var t := ClearQueue(s, Cleared); Booked(t) && Quiet(t)
  {
    EmptiedLedger(s.outbox, Cleared);
  }

  lemma HandshakeBooked(s: Sock, out: Outcome, weakCas: bool)
    requires Booked(s) && Quiet(s) && (s.state == Connecting ==> !s.writing)
    ensures var t := HandshakeCompleted(s, out, weakCas); Booked(t) && Quiet(t)
  {
    if out.Failure? {
      EndingBooked(s, "Connection failed: " + out.text);
    } else if s.state == Connecting {
      var u := Issue(Put(s.(state := Connected, ready := true), ConnectedEvent("Connected")), ReadMessage);
      assert Booked(u);
      CheckWritingBooked(u, weakCas);
    } else {
      EndingBooked(s, NO_REASON);
    }
  }

  lemma ChainBooked(s: Sock, op: Op, out: Outcome, tlsParams: bool, weakCas: bool)
    requires Booked(s) && Quiet(s) && (s.state == Connecting ==> !s.writing)
    requires op == ResolveHost || op == ConnectTcp || op == TlsHandshake || op == WsHandshake
    ensures var t := Complete(s, op, out, tlsParams, weakCas); Booked(t) && Quiet(t)
  {
    HandshakeBooked(s, out, weakCas);
    EndingBooked(s, "Error setting SSL parameters");
    EndingBooked(s, "[Resolver] " + out.text);
  }

  lemma ReadBooked(s: Sock, out: Outcome)
    requires Booked(s) && Quiet(s)
    ensures var t := OnRead(s, out); Booked(t) && Quiet(t)
  {
    if out.Failure? {
      EndingBooked(s, if !out.closed then out.text else if out.closeReason == "" then NO_REASON else out.closeReason);
    }
  }

  lemma WriteBooked(s: Sock, out: Outcome, weakCas: bool)
    requires Booked(s) && Quiet(s) && s.writing
    requires s.state == Connected || s.state == DisconnectRequested
    ensures var t := OnWrite(s, out, weakCas); Booked(t) && Quiet(t)
  {
    if out.Success? {
      LandedLedger(s.outbox, true, Sent);
      var u := s.(writing := false, outbox := Landed(s.outbox, Sent));
      assert Booked(u);
      CheckWritingBooked(u, weakCas);
    } else {
      EndingBooked(s, "Connection closed by remote host");
      EndingBooked(s, out.text);
    }
  }

  lemma CompletionBooked(s: Sock, op: Op, out: Outcome, tlsParams: bool, weakCas: bool)
    requires Booked(s) && Quiet(s) && (s.state == Connecting ==> !s.writing)
    requires op == WriteMessage ==> s.writing && (s.state == Connected || s.state == DisconnectRequested)
    ensures var t := Complete(s, op, out, tlsParams, weakCas); Booked(t) && Quiet(t)
  {
    match op
    case ReadMessage => ReadBooked(s, out);
    case WriteMessage => WriteBooked(s, out, weakCas);
    case CloseStream => EndingBooked(s, out.text);
    case _ => ChainBooked(s, op, out, tlsParams, weakCas);
  }

  lemma DeliveryBooked(s: Sock, h: Handler, out: Outcome, tlsParams: bool, weakCas: bool)
    requires Booked(s) && Quiet(s) && Accounted(s)
    requires h in s.io.handlers && h == HandlerFor(s.io, h.op)
    ensures var t := Deliver(s, h, out, tlsParams, weakCas); Booked(t) && Quiet(t)
  {
    assert Live(s, h.op) > 0;
    CompletionBooked(Withdraw(s, h), h.op, out, tlsParams, weakCas);
  }

  lemma WriteCallBooked(s: Sock, text: string, binary: bool, weakCas: bool)
    requires Booked(s) && Quiet(s) && Accounted(s)
    ensures var t := Write(s, text, binary, weakCas); Booked(t) && Quiet(t)
  {
    EnqueuedBooked(s, Message(text, binary));
    CheckWritingBooked(Enqueue(s, Message(text, binary)), weakCas);
  }

  lemma StepBooked(s: Sock, a: Action)
    requires Booked(s) && Quiet(s) && Stamped(s) && Wrapped(s.io) && Accounted(s)
    requires Enabled(s, a) && Timely(s, a)
    ensures var t := Step(s, a); Booked(t) && Quiet(t)
  {
    match a
    case CallOpen(clear) => OpenBooked(s, clear);
    case CallClose(weakCas) => CloseBooked(s, weakCas);
    case CallCloseNow => EndingBooked(s, NO_REASON);
    case CallWrite(text, binary, weakCas) => WriteCallBooked(s, text, binary, weakCas);
    case CallClearQueue => ClearQueueBooked(s);
    case TakeEvents =>
    case Completion(h, out, tlsParams, weakCas) =>
      GuardIsExact(s, h);
      if h == HandlerFor(s.io, h.op) {
        DeliveryBooked(s, h, out, tlsParams, weakCas);
      }
  }
}

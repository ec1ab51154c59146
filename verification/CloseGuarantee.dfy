/** What close() promises: everything queued is sent before the connection is closed.

    The promise is kept exactly when the attempt was connected, or nothing was queued. Reachable runs that show
    what happens otherwise are at the end. */
module CloseGuarantee {
  import opened SocketMachine
  import opened HandlerAccounting
  import opened WriteQueue
  import opened SocketHistory
  import opened SocketInvariant
  import opened GracefulClose

  /** The steps that can keep a connected socket from sending what was queued before close(): a clearQueue, a
      closeNow or a live completion with an error before the marker is taken. An early write is the only one
      on a socket that is still connecting. */
  predicate Spoils(s: Sock, a: Action) {
    || EarlyWrite(s, a)
    || (s.state == DisconnectRequested && s.ready && (a.CallClearQueue? || Forced(s, a)))
  }

  predicate Unspoiled(s: Sock, acts: seq<Action>)
    requires Legal(s, acts)
    decreases |acts|
  {
    acts == [] || (!Spoils(s, acts[0]) && Unspoiled(Step(s, acts[0]), acts[1..]))
  }

  lemma {:induction false} UnspoiledHasNoEarlyWrite(s: Sock, acts: seq<Action>)
    requires Legal(s, acts) && Unspoiled(s, acts)
    ensures NoEarlyWrite(s, acts)
    decreases |acts|
  {
    if acts != [] {
      UnspoiledHasNoEarlyWrite(Step(s, acts[0]), acts[1..]);
    }
  }

  /** The i-th entry was removed before the close(), whose fates are `before`, or it has been sent. */
  predicate SentOrGone(before: seq<Fate>, fates: seq<Fate>, i: nat) {
    && i < |fates|
    && (fates[i] == Sent || (i < |before| && before[i] == Cleared && fates[i] == Cleared))
  }

  /** Every entry of the attempt that was enqueued before the close() has been. */
  ghost predicate AllSent(s: Sock, t: Sock) {
    forall i :: s.outbox.base <= i < |s.outbox.enqueued| ==> SentOrGone(s.outbox.fates, t.outbox.fates, i)
  }

  /** Nothing enqueued after the close() was handed to asyncWrite. */
  ghost predicate NoneLater(s: Sock, t: Sock) {
    forall i :: |s.outbox.enqueued| < i < |t.outbox.fates| ==> !WasHanded(t.outbox.fates[i])
  }

  /** On the way there from the connected socket s: what has left the queue is sent, in flight or was gone. */
  ghost predicate Draining(s: Sock, t: Sock) {
    && t.outbox.base == s.outbox.base
    && t.outbox.closeAt == |s.outbox.enqueued|
    && match t.state
       case DisconnectRequested =>
         && t.ready && t.writing && |t.outbox.fates| <= t.outbox.closeAt
         && forall i :: s.outbox.base <= i < |t.outbox.fates| ==>
              t.outbox.fates[i] == InFlight || SentOrGone(s.outbox.fates, t.outbox.fates, i)
       case Disconnecting => AllSent(s, t) && NoneLater(s, t)
       case Disconnected => AllSent(s, t) && NoneLater(s, t)
       case _ => false
  }

  /** A fate of that kind is final. */
  lemma SentStays(before: seq<Fate>, fates: seq<Fate>, later: seq<Fate>, i: nat)
    requires SentOrGone(before, fates, i) && FatesGrow(fates, later)
    ensures SentOrGone(before, later, i)
  {
  }

  /** The write that was in flight has been sent: the next message goes out, or the marker is taken. */
  lemma PumpDrains(s: Sock, t: Sock, weakCas: bool)
    requires Booked(t) && t.state == DisconnectRequested && t.ready && !t.writing
    requires |t.outbox.fates| <= t.outbox.closeAt == |s.outbox.enqueued| && t.outbox.base == s.outbox.base
    requires forall i :: s.outbox.base <= i < |t.outbox.fates| ==> SentOrGone(s.outbox.fates, t.outbox.fates, i)
    ensures Draining(s, CheckWriting(t, weakCas))
  {
    assert t.outbox.queue[0] == t.outbox.enqueued[|t.outbox.fates|];
    CheckWritingGrows(t, weakCas);
    var u := CheckWriting(t, weakCas);
    forall i | s.outbox.base <= i < |t.outbox.fates| ensures SentOrGone(s.outbox.fates, u.outbox.fates, i) {
      SentStays(s.outbox.fates, t.outbox.fates, u.outbox.fates, i);
    }
  }

  lemma CloseStartsDraining(s: Sock, weakCas: bool)
    requires Inv(s) && s.state == Connected
    ensures Draining(s, Close(s, weakCas))
  {
    var t := Enqueue(s.(state := DisconnectRequested, outbox := s.outbox.(closeAt := |s.outbox.enqueued|)), Marker);
    if s.writing {
      BusyCloseDrains(s, t);
    } else {
      assert s.outbox.queue == [];
      HandedMoreEnqueued(s.outbox.enqueued, s.outbox.fates, Marker);
      PumpDrains(s, t, weakCas);
    }
  }

  /** While a write is in flight, close() only leaves its marker. */
  lemma BusyCloseDrains(s: Sock, t: Sock)
    requires Inv(s) && s.state == Connected && s.writing
    requires t.state == DisconnectRequested && t.ready == s.ready && t.writing && t.outbox.fates == s.outbox.fates
    requires t.outbox.base == s.outbox.base && t.outbox.closeAt == |s.outbox.enqueued|
    ensures Draining(s, t)
  {
  }

  lemma WriteCompletionDrains(s: Sock, t: Sock, h: Handler, out: Outcome, weakCas: bool)
    requires Inv(t) && Draining(s, t) && t.state == DisconnectRequested && out.Success?
    requires h in t.io.handlers && h == HandlerFor(t.io, WriteMessage)
    ensures Draining(s, OnWrite(Withdraw(t, h), out, weakCas))
  {
    var w := Withdraw(t, h);
    LandedLedger(w.outbox, true, Sent);
    var u := w.(writing := false, outbox := Landed(w.outbox, Sent));
    assert Booked(u);
    PumpDrains(s, u, weakCas);
  }

  lemma DeliveryDrains(s: Sock, t: Sock, h: Handler, out: Outcome, tlsParams: bool, weakCas: bool)
    requires Inv(t) && Draining(s, t) && t.state == DisconnectRequested && out.Success?
    requires h in t.io.handlers && h == HandlerFor(t.io, h.op)
    ensures Draining(s, Deliver(t, h, out, tlsParams, weakCas))
  {
    assert Live(t, h.op) > 0;
    if h.op == WriteMessage {
      WriteCompletionDrains(s, t, h, out, weakCas);
    }
  }

  lemma StepDrains(s: Sock, t: Sock, a: Action)
    requires Inv(t) && Draining(s, t) && t.state != Disconnected
    requires Enabled(t, a) && Timely(t, a) && !Spoils(t, a)
    ensures Draining(s, Step(t, a))
  {
    if t.state == Disconnecting {
      ClosingStepDrains(s, t, a);
    } else {
      match a
      case CallOpen(clear) =>
      case CallClose(weakCas) =>
      case CallWrite(text, binary, weakCas) =>
      case TakeEvents =>
      case Completion(h, out, tlsParams, weakCas) =>
        GuardIsExact(t, h);
        if h == HandlerFor(t.io, h.op) {
          DeliveryDrains(s, t, h, out, tlsParams, weakCas);
        }
    }
  }

  lemma ClosingStepDrains(s: Sock, t: Sock, a: Action)
    requires Inv(t) && Draining(s, t) && t.state == Disconnecting
    requires Enabled(t, a) && Timely(t, a)
    ensures Draining(s, Step(t, a))
  {
    ClosingStepWritesNothing(t, a);
    StepRemembers(t, a);
    var u := Step(t, a);
    forall i | s.outbox.base <= i < |s.outbox.enqueued| ensures SentOrGone(s.outbox.fates, u.outbox.fates, i) {
      SentStays(s.outbox.fates, t.outbox.fates, u.outbox.fates, i);
    }
  }

  lemma {:induction false} RunDrains(s: Sock, t: Sock, acts: seq<Action>)
    requires Inv(t) && Draining(s, t)
    requires Legal(t, acts) && EndsDisconnected(t, acts) && Unspoiled(t, acts)
    ensures AllSent(s, Exec(t, acts)) && NoneLater(s, Exec(t, acts))
    decreases |acts|
  {
    if acts != [] {
      StepInv(t, acts[0]);
      StepDrains(s, t, acts[0]);
      RunDrains(s, Step(t, acts[0]), acts[1..]);
    }
  }

  /** On a socket that is still connecting close() sends nothing: what was waiting is discarded. */
  lemma ConnectingSendsNothing(s: Sock, weakCas: bool, acts: seq<Action>)
    requires Inv(s) && Clean(s) && s.state == Connecting
    requires Legal(Close(s, weakCas), acts) && EndsDisconnected(Close(s, weakCas), acts)
    requires Unspoiled(Close(s, weakCas), acts)
    ensures var t := Exec(Close(s, weakCas), acts);
            && NoneLater(s, t)
            && (AllSent(s, t) <==> s.outbox.queue == [])
  {
    var c := Close(s, weakCas);
    StepInv(s, CallClose(weakCas));
    StepClean(s, CallClose(weakCas));
    UnspoiledHasNoEarlyWrite(c, acts);
    CloseWhileConnectingDiscards(c, acts);
    RunInv(c, acts);
    RunRemembers(c, acts);
    var t := Exec(c, acts);
    if s.outbox.queue != [] {
      var i := |s.outbox.fates|;
      assert s.outbox.base <= i < |s.outbox.enqueued| && !SentOrGone(s.outbox.fates, t.outbox.fates, i);
    } else {
      forall i | s.outbox.base <= i < |s.outbox.enqueued| ensures SentOrGone(s.outbox.fates, t.outbox.fates, i) {
        assert s.outbox.fates[i] == Sent || s.outbox.fates[i] == Cleared;
      }
    }
  }

  /** The promise of close(), and exactly when it is kept. Take any run from a close() to DISCONNECTED that is
      not spoiled. Every message of the attempt enqueued before the close() ends as sent, unless it had been
      cleared by then, if and only if the attempt was connected or nothing was queued; and nothing enqueued
      later is written. Whether the weak exchange on the marker fails makes no difference. */
  lemma CloseSendsEverythingIff(s: Sock, weakCas: bool, acts: seq<Action>)
    requires Inv(s) && Clean(s) && (s.state == Connecting || s.state == Connected)
    requires Legal(Close(s, weakCas), acts) && EndsDisconnected(Close(s, weakCas), acts)
    requires Unspoiled(Close(s, weakCas), acts)
    ensures AllSent(s, Exec(Close(s, weakCas), acts)) <==> s.state == Connected || s.outbox.queue == []
    ensures NoneLater(s, Exec(Close(s, weakCas), acts))
  {
    if s.state == Connected {
      StepInv(s, CallClose(weakCas));
      CloseStartsDraining(s, weakCas);
      RunDrains(s, Close(s, weakCas), acts);
    } else {
      ConnectingSendsNothing(s, weakCas, acts);
    }
  }

  // ----- reachable runs -----

  function Ok(h: Handler): Action {
    Completion(h, Outcome.Success(""), true, true)
  }

  /** A socket that was opened, with a message waiting. */
  lemma WaitingMessage() returns (s: Sock)
    ensures Reachable(s) && s.state == Connecting && s.outbox.enqueued == s.outbox.queue == [Message("x", false)]
    ensures s.outbox.base == 0 && s.outbox.fates == [] && !s.tls && !s.ready && s.faults == 0
    ensures s.io.handlers == multiset{HandlerFor(s.io, ResolveHost)} && s.io.generation == s.io.epoch == 1
  {
    s := Initial(false);
    InitialReachable(false);
    ReachableStep(s, CallOpen(true));
    s := Step(s, CallOpen(true));
    ReachableStep(s, CallWrite("x", false, true));
    s := Step(s, CallWrite("x", false, true));
  }

  /** The connection chain of an attempt completes without an error. */
  lemma ChainCompletes(s: Sock) returns (t: Sock)
    requires Reachable(s) && !s.tls && s.io.handlers == multiset{HandlerFor(s.io, ResolveHost)}
    ensures Reachable(t) && t == s.(io := t.io)
    ensures t.io == s.io.(handlers := multiset{HandlerFor(s.io, WsHandshake)})
  {
    t := s;
    ReachableStep(t, Ok(HandlerFor(t.io, ResolveHost)));
    t := Step(t, Ok(HandlerFor(t.io, ResolveHost)));
    assert t.io.handlers == multiset{HandlerFor(s.io, ConnectTcp)};
    ReachableStep(t, Ok(HandlerFor(t.io, ConnectTcp)));
    t := Step(t, Ok(HandlerFor(t.io, ConnectTcp)));
    assert t.io.handlers == multiset{HandlerFor(s.io, WsHandshake)};
  }

  /** open, write, close, and a connection chain without any error: the message is dropped. */
  lemma WaitingMessageIsDropped() returns (t: Sock)
    ensures Reachable(t) && t.state == Disconnected && t.faults == 0
    ensures t.outbox.enqueued == [Message("x", false), Marker] && t.outbox.fates == [Dropped, Dropped]
    ensures t.outbox.written == []
  {
    t := WaitingMessageAtClose();
    t := ChainCompletes(t);
    ReachableStep(t, Ok(HandlerFor(t.io, WsHandshake)));
    t := Step(t, Ok(HandlerFor(t.io, WsHandshake)));
  }

  lemma WaitingMessageAtClose() returns (t: Sock)
    ensures Reachable(t) && t.state == DisconnectRequested && !t.tls && !t.ready && !t.writing && t.faults == 0
    ensures t.outbox.enqueued == t.outbox.queue == [Message("x", false), Marker]
    ensures t.outbox.fates == [] && t.outbox.written == []
    ensures t.io.handlers == multiset{HandlerFor(t.io, ResolveHost)}
  {
    t := WaitingMessage();
    ReachableInv(t);
    ReachableStep(t, CallClose(true));
    t := Step(t, CallClose(true));
  }

  /** open, write, close, write: the first message is written on a stream that is not ready. */
  lemma EarlyWriteHappens() returns (s: Sock, t: Sock)
    ensures Reachable(s) && EarlyWrite(s, CallWrite("y", false, true)) && t == Step(s, CallWrite("y", false, true))
    ensures t.faults == 1 && !t.ready && t.outbox.written == [Message("x", false)]
  {
    s := WaitingMessageAtClose();
    t := Step(s, CallWrite("y", false, true));
  }

  /** open, write, connect, close, clearQueue: the marker is gone while the message is in flight. */
  lemma MarkerGetsLost() returns (s: Sock)
    ensures Reachable(s) && Markerless(s) && s.outbox.queue == []
  {
    s := WaitingMessage();
    s := ChainCompletes(s);
    ReachableInv(s);
    ReachableStep(s, Ok(HandlerFor(s.io, WsHandshake)));
    s := Step(s, Ok(HandlerFor(s.io, WsHandshake)));
    assert s.state == Connected && s.writing;
    ReachableStep(s, CallClose(true));
    s := Step(s, CallClose(true));
    ReachableStep(s, CallClearQueue);
    s := Step(s, CallClearQueue);
  }
}

/** close(): when it ends, what it has sent by then, and the two calls that spoil it.

    A write between a close() and the end of its connection chain pumps the queue onto a stream that is not
    ready, and a clearQueue after close() on a connection that is up removes the marker that would close the
    stream. Without them every close() ends after boundedly many completions. */
module GracefulClose {
  import opened SocketMachine
  import opened HandlerAccounting
  import opened EventGrammar
  import opened WriteQueue
  import opened SocketHistory
  import opened SocketInvariant

  // ----- operations on a stream that is not ready -----

  /** A write() that finds the attempt closing but not yet connected, and takes an entry off the queue.
      When that entry is the marker and the weak compare-exchange fails, no operation is started. */
  predicate EarlyWrite(s: Sock, a: Action) {
    && a.CallWrite? && s.state == DisconnectRequested && !s.ready
    && !(s.outbox.queue != [] && s.outbox.queue[0].Marker? && !a.weakCas)
  }

  predicate NoEarlyWrite(s: Sock, acts: seq<Action>)
    requires Legal(s, acts)
    decreases |acts|
  {
    acts == [] || (!EarlyWrite(s, acts[0]) && NoEarlyWrite(Step(s, acts[0]), acts[1..]))
  }

  /** Nothing has been started on a stream that is not ready. */
  predicate Clean(s: Sock) {
    && (s.state == DisconnectRequested && !s.ready ==> !s.writing)
    && (s.state == Disconnecting ==> s.ready)
  }

  lemma CheckWritingClean(s: Sock, weakCas: bool)
    requires s.ready || s.state != DisconnectRequested
    requires s.ready || s.state != Connected
    requires Clean(s)
    ensures var t := CheckWriting(s, weakCas); Clean(t) && t.faults == s.faults
  {
  }

  lemma ChainClean(s: Sock, op: Op, out: Outcome, tlsParams: bool, weakCas: bool)
    requires Clean(s) && (s.state == Connected ==> s.ready)
    requires op == ResolveHost || op == ConnectTcp || op == TlsHandshake || op == WsHandshake
    ensures var t := Complete(s, op, out, tlsParams, weakCas); Clean(t) && t.faults == s.faults
  {
    if out.Success? && s.state == Connecting {
      var u := Issue(Put(s.(state := Connected, ready := true), ConnectedEvent("Connected")), ReadMessage);
      CheckWritingClean(u, weakCas);
    }
  }

  lemma WriteCompletionClean(s: Sock, out: Outcome, weakCas: bool)
    requires Clean(s) && s.ready && s.state != Disconnecting
    ensures var t := OnWrite(s, out, weakCas); Clean(t) && t.faults == s.faults
  {
    if out.Success? {
      CheckWritingClean(s.(writing := false, outbox := Landed(s.outbox, Sent)), weakCas);
    }
  }

  lemma DeliveryClean(s: Sock, h: Handler, out: Outcome, tlsParams: bool, weakCas: bool)
    requires Clean(s) && Accounted(s)
    requires h in s.io.handlers && h == HandlerFor(s.io, h.op)
    ensures var t := Deliver(s, h, out, tlsParams, weakCas); Clean(t) && t.faults == s.faults
  {
    var t := Withdraw(s, h);
    assert Live(s, h.op) > 0;
    match h.op
    case ReadMessage =>
    case WriteMessage => WriteCompletionClean(t, out, weakCas);
    case CloseStream =>
    case _ => ChainClean(t, h.op, out, tlsParams, weakCas);
  }

  lemma StepClean(s: Sock, a: Action)
    requires Inv(s) && Clean(s) && Enabled(s, a) && Timely(s, a)
    ensures EarlyWrite(s, a) ==> Step(s, a).faults == s.faults + 1
    ensures !EarlyWrite(s, a) ==> Clean(Step(s, a)) && Step(s, a).faults == s.faults
  {
    match a
    case CallOpen(clear) =>
    case CallClose(weakCas) =>
    case CallCloseNow =>
    case CallWrite(text, binary, weakCas) => WriteClean(s, text, binary, weakCas);
    case CallClearQueue =>
    case TakeEvents =>
    case Completion(h, out, tlsParams, weakCas) =>
      GuardIsExact(s, h);
      if h == HandlerFor(s.io, h.op) {
        DeliveryClean(s, h, out, tlsParams, weakCas);
      }
  }

  lemma WriteClean(s: Sock, text: string, binary: bool, weakCas: bool)
    requires Inv(s) && Clean(s)
    ensures var a := CallWrite(text, binary, weakCas);
            && (EarlyWrite(s, a) ==> Step(s, a).faults == s.faults + 1)
            && (!EarlyWrite(s, a) ==> Clean(Step(s, a)) && Step(s, a).faults == s.faults)
  {
    if s.ready || s.state != DisconnectRequested {
      CheckWritingClean(Enqueue(s, Message(text, binary)), weakCas);
    }
  }

  /** A run starts no operation on a stream that is not ready if and only if it has no early write. */
  lemma {:induction false} FaultsComeFromEarlyWrites(s: Sock, acts: seq<Action>)
    requires Inv(s) && Clean(s) && Legal(s, acts)
    ensures Exec(s, acts).faults == s.faults <==> NoEarlyWrite(s, acts)
    ensures NoEarlyWrite(s, acts) ==> Clean(Exec(s, acts))
    decreases |acts|
  {
    if acts != [] {
      var t := Step(s, acts[0]);
      StepClean(s, acts[0]);
      if EarlyWrite(s, acts[0]) {
        RunRemembers(t, acts[1..]);
      } else {
        StepInv(s, acts[0]);
        FaultsComeFromEarlyWrites(t, acts[1..]);
      }
    }
  }

  // ----- how a close() ends -----

  /** Operations of the connection chain that are still to complete. */
  function Stage(s: Sock): nat {
    if Live(s, ResolveHost) > 0 then 4
    else if Live(s, ConnectTcp) > 0 then 3
    else if Live(s, TlsHandshake) > 0 then 2
    else if Live(s, WsHandshake) > 0 then 1
    else 0
  }

  /** An attempt that close() was called on and whose marker is still to be taken, or has been. */
  ghost predicate Closing(s: Sock) {
    && (s.state == DisconnectRequested || s.state == Disconnecting)
    && (s.state == DisconnectRequested && s.ready ==> |s.outbox.fates| <= s.outbox.closeAt)
  }

  /** How far a closing attempt still is from DISCONNECTED. */
  function Rank(s: Sock): nat {
    match s.state
    case Disconnected => 0
    case Disconnecting => 1
    case _ =>
      if !s.ready then 1 + Stage(s)
      else if |s.outbox.fates| <= s.outbox.closeAt then 2 + (s.outbox.closeAt - |s.outbox.fates|)
      else 2
  }

  /** The completion of a live handler other than the reader's. */
  predicate Advances(s: Sock, a: Action) {
    a.Completion? && a.h == HandlerFor(s.io, a.h.op) && a.h.op != ReadMessage
  }

  /** The calls that a close() is promised to survive: a clearQueue spoils it only on a connection that is up
      and whose marker is still queued. */
  predicate Allowed(s: Sock, a: Action) {
    !(a.CallClearQueue? && s.state == DisconnectRequested && s.ready) && !EarlyWrite(s, a)
  }

  lemma CloseStartsClosing(s: Sock, weakCas: bool)
    requires Inv(s) && Clean(s) && (s.state == Connecting || s.state == Connected)
    ensures var t := Close(s, weakCas);
            && Inv(t) && Clean(t) && (t.state == Disconnected || Closing(t))
            && (t.state != Disconnected ==> t.outbox.closeAt == |s.outbox.enqueued| && t.outbox.base == s.outbox.base)
  {
    StepInv(s, CallClose(weakCas));
    StepClean(s, CallClose(weakCas));
    CloseRemembers(s, weakCas);
    assert s.outbox.queue == s.outbox.enqueued[|s.outbox.fates|..];
  }

  lemma CheckWritingCloses(s: Sock, weakCas: bool)
    requires Booked(s) && s.state == DisconnectRequested && s.ready && !s.writing
    requires |s.outbox.fates| <= s.outbox.closeAt
    ensures var t := CheckWriting(s, weakCas);
            (t.state == Disconnected || Closing(t)) && Rank(t) < Rank(s)
  {
    assert s.outbox.queue[0] == s.outbox.enqueued[|s.outbox.fates|];
  }

  lemma ResolvedCloses(s: Sock, h: Handler, out: Outcome, tlsParams: bool)
    requires Inv(s) && Clean(s) && Closing(s)
    requires h in s.io.handlers && h == HandlerFor(s.io, ResolveHost)
    ensures var t := HostResolved(Withdraw(s, h), out, tlsParams);
            (t.state == Disconnected || Closing(t)) && Rank(t) < Rank(s)
  {
    assert Live(s, ResolveHost) > 0;
  }

  lemma ConnectedCloses(s: Sock, h: Handler, out: Outcome)
    requires Inv(s) && Clean(s) && Closing(s)
    requires h in s.io.handlers && h == HandlerFor(s.io, ConnectTcp)
    ensures var t := SocketConnected(Withdraw(s, h), out);
            (t.state == Disconnected || Closing(t)) && Rank(t) < Rank(s)
  {
    assert Live(s, ConnectTcp) > 0;
  }

  lemma HandshakesClose(s: Sock, h: Handler, out: Outcome, weakCas: bool)
    requires Inv(s) && Clean(s) && Closing(s)
    requires h in s.io.handlers && h == HandlerFor(s.io, h.op) && (h.op == TlsHandshake || h.op == WsHandshake)
    ensures var t := Complete(Withdraw(s, h), h.op, out, true, weakCas);
            (t.state == Disconnected || Closing(t)) && Rank(t) < Rank(s)
  {
    assert Live(s, h.op) > 0;
  }

  lemma WriteCompletionCloses(s: Sock, h: Handler, out: Outcome, weakCas: bool)
    requires Inv(s) && Clean(s) && Closing(s)
    requires h in s.io.handlers && h == HandlerFor(s.io, WriteMessage)
    ensures var t := OnWrite(Withdraw(s, h), out, weakCas);
            (t.state == Disconnected || Closing(t)) && Rank(t) < Rank(s)
  {
    assert Live(s, h.op) > 0;
    if out.Success? {
      var w := Withdraw(s, h);
      LandedLedger(w.outbox, true, Sent);
      CheckWritingCloses(w.(writing := false, outbox := Landed(w.outbox, Sent)), weakCas);
    }
  }

  lemma ReadCloses(s: Sock, h: Handler, out: Outcome)
    requires Inv(s) && Clean(s) && Closing(s)
    requires h in s.io.handlers && h == HandlerFor(s.io, ReadMessage)
    ensures var t := OnRead(Withdraw(s, h), out);
            (t.state == Disconnected || Closing(t)) && Rank(t) <= Rank(s)
  {
    assert Live(s, h.op) > 0;
  }

  lemma DeliveryCloses(s: Sock, h: Handler, out: Outcome, tlsParams: bool, weakCas: bool)
    requires Inv(s) && Clean(s) && Closing(s)
    requires h in s.io.handlers && h == HandlerFor(s.io, h.op)
    ensures var t := Deliver(s, h, out, tlsParams, weakCas);
            && (t.state == Disconnected || Closing(t)) && Rank(t) <= Rank(s)
            && (h.op != ReadMessage ==> Rank(t) < Rank(s))
  {
    match h.op
    case ReadMessage => ReadCloses(s, h, out);
    case WriteMessage => WriteCompletionCloses(s, h, out, weakCas);
    case CloseStream => assert Live(s, h.op) > 0;
    case ResolveHost => ResolvedCloses(s, h, out, tlsParams);
    case ConnectTcp => ConnectedCloses(s, h, out);
    case _ => HandshakesClose(s, h, out, weakCas);
  }

  lemma WithdrawnCloses(s: Sock, h: Handler)
    requires Closing(s) && h in s.io.handlers && h != HandlerFor(s.io, h.op)
    ensures var t := Withdraw(s, h); Closing(t) && Rank(t) == Rank(s)
  {
    var t := Withdraw(s, h);
    assert forall op :: HandlerFor(t.io, op) == HandlerFor(s.io, op) != h;
    assert forall op :: Live(t, op) == Live(s, op);
  }

  lemma WriteCallCloses(s: Sock, text: string, binary: bool, weakCas: bool)
    requires Inv(s) && Clean(s) && Closing(s) && !EarlyWrite(s, CallWrite(text, binary, weakCas))
    ensures var t := Write(s, text, binary, weakCas);
            (t.state == Disconnected || Closing(t)) && Rank(t) <= Rank(s)
  {
    WriteGrows(s, Message(text, binary), weakCas);
  }

  lemma StepLowersRank(s: Sock, a: Action)
    requires Inv(s) && Clean(s) && Closing(s)
    requires Enabled(s, a) && Timely(s, a) && Allowed(s, a)
    ensures var t := Step(s, a);
            && (t.state == Disconnected || Closing(t))
            && Rank(t) <= Rank(s) && (Advances(s, a) ==> Rank(t) < Rank(s))
  {
    match a
    case CallOpen(clear) =>
    case CallClose(weakCas) =>
    case CallCloseNow =>
    case CallWrite(text, binary, weakCas) => WriteCallCloses(s, text, binary, weakCas);
    case CallClearQueue =>
    case TakeEvents =>
    case Completion(h, out, tlsParams, weakCas) =>
      GuardIsExact(s, h);
      if h == HandlerFor(s.io, h.op) {
        DeliveryCloses(s, h, out, tlsParams, weakCas);
      } else {
        WithdrawnCloses(s, h);
      }
  }

  lemma StepCloses(s: Sock, a: Action)
    requires Inv(s) && Clean(s) && Closing(s)
    requires Enabled(s, a) && Timely(s, a) && Allowed(s, a)
    ensures var t := Step(s, a);
            && Inv(t) && Clean(t) && (t.state == Disconnected || Closing(t))
            && Disconnects(t.inbox.emitted) ==
                 Disconnects(s.inbox.emitted) + (if t.state == Disconnected then 1 else 0)
  {
    StepInv(s, a);
    StepClean(s, a);
    StepFollows(s, a);
    StepLowersRank(s, a);
  }

  // ----- whole runs of a closing attempt -----

  /** A run that ends no later than its attempt, with no early write, and no clearQueue while the marker is
      queued on a connection that is up. */
  predicate ClosingRun(s: Sock, acts: seq<Action>)
    requires Legal(s, acts)
    decreases |acts|
  {
    acts == [] || (s.state != Disconnected && Allowed(s, acts[0]) && ClosingRun(Step(s, acts[0]), acts[1..]))
  }

  /** The completions of a run that belong to live handlers other than the reader's. */
  function Advancing(s: Sock, acts: seq<Action>): nat
    requires Legal(s, acts)
    decreases |acts|
  {
    if acts == [] then 0
    else (if Advances(s, acts[0]) then 1 else 0) + Advancing(Step(s, acts[0]), acts[1..])
  }

  /** A graceful close ends: the socket is DISCONNECTED after at most Rank(s) completions, having reported
      exactly one disconnect, and until then one more such completion is outstanding. */
  lemma {:induction false} GracefulCloseTerminates(s: Sock, acts: seq<Action>)
    requires Inv(s) && Clean(s) && Closing(s)
    requires Legal(s, acts) && ClosingRun(s, acts)
    ensures var t := Exec(s, acts);
            && Advancing(s, acts) + Rank(t) <= Rank(s)
            && (Rank(t) == 0 <==> t.state == Disconnected)
            && Disconnects(t.inbox.emitted) ==
                 Disconnects(s.inbox.emitted) + (if t.state == Disconnected then 1 else 0)
            && (t.state != Disconnected ==> exists op :: op != ReadMessage && Live(t, op) > 0)
    decreases |acts|
  {
    if acts == [] {
      CompletionOutstanding(s);
    } else {
      var t := Step(s, acts[0]);
      StepLowersRank(s, acts[0]);
      StepCloses(s, acts[0]);
      if t.state != Disconnected {
        GracefulCloseTerminates(t, acts[1..]);
      } else {
        assert acts[1..] == [];
      }
    }
  }

  lemma CompletionOutstanding(s: Sock)
    requires Inv(s) && Clean(s) && Closing(s)
    ensures exists op :: op != ReadMessage && Live(s, op) > 0
  {
    if s.state == Disconnecting {
      assert Live(s, CloseStream) > 0;
    } else if s.ready {
      assert s.outbox.queue != [];
      assert Live(s, WriteMessage) > 0;
    } else {
      assert Live(s, ResolveHost) > 0 || Live(s, ConnectTcp) > 0 || Live(s, TlsHandshake) > 0
             || Live(s, WsHandshake) > 0;
    }
  }

  // ----- what a close() has sent -----

  /** A run all of whose states belong to one closing attempt. */
  predicate StaysClosing(s: Sock, acts: seq<Action>)
    requires Legal(s, acts)
    decreases |acts|
  {
    && (s.state == DisconnectRequested || s.state == Disconnecting)
    && (acts != [] ==> StaysClosing(Step(s, acts[0]), acts[1..]))
  }

  lemma {:induction false} AttemptIsKept(s: Sock, acts: seq<Action>)
    requires Legal(s, acts) && StaysClosing(s, acts)
    ensures var t := Exec(s, acts);
            && t.outbox.base == s.outbox.base && t.outbox.closeAt == s.outbox.closeAt
            && (t.state == DisconnectRequested || t.state == Disconnecting)
    decreases |acts|
  {
    if acts != [] {
      StepRemembers(s, acts[0]);
      AttemptIsKept(Step(s, acts[0]), acts[1..]);
    }
  }

  /** Every message of the attempt that was enqueued before the close() has been sent, unless clearQueue removed
      it, nothing enqueued after it was handed over, and no write is in flight. */
  ghost predicate Drained(s: Sock, t: Sock) {
    && s.outbox.enqueued <= t.outbox.enqueued
    && (forall i :: s.outbox.base <= i < |s.outbox.enqueued| ==>
          i < |t.outbox.fates| && (t.outbox.fates[i] == Sent || t.outbox.fates[i] == Cleared))
    && (forall i :: |s.outbox.enqueued| < i < |t.outbox.fates| ==> t.outbox.fates[i] == Cleared)
    && Live(t, WriteMessage) == 0
  }

  /** What holds when asyncCloseSocket has been issued. */
  lemma {:induction false} GracefulCloseDrains(s: Sock, weakCas: bool, acts: seq<Action>)
    requires Inv(s) && (s.state == Connecting || s.state == Connected)
    requires Legal(Close(s, weakCas), acts) && StaysClosing(Close(s, weakCas), acts)
    requires Exec(Close(s, weakCas), acts).state == Disconnecting
    ensures Drained(s, Exec(Close(s, weakCas), acts))
  {
    var c := Close(s, weakCas);
    StepInv(s, CallClose(weakCas));
    CloseRemembers(s, weakCas);
    AttemptIsDrained(s, c, acts);
  }

  lemma {:induction false} AttemptIsDrained(s: Sock, c: Sock, acts: seq<Action>)
    requires Inv(c) && s.outbox.enqueued <= c.outbox.enqueued
    requires c.outbox.base == s.outbox.base && c.outbox.closeAt == |s.outbox.enqueued|
    requires Legal(c, acts) && StaysClosing(c, acts) && Exec(c, acts).state == Disconnecting
    ensures Drained(s, Exec(c, acts))
  {
    AttemptIsKept(c, acts);
    RunRemembers(c, acts);
    RunInv(c, acts);
    DrainedAt(Exec(c, acts));
  }

  lemma DrainedAt(t: Sock)
    requires Inv(t) && t.state == Disconnecting
    ensures t.outbox.closeAt < |t.outbox.fates|
    ensures forall i :: t.outbox.base <= i < t.outbox.closeAt ==>
              t.outbox.fates[i] == Sent || t.outbox.fates[i] == Cleared
    ensures forall i :: t.outbox.closeAt < i < |t.outbox.fates| ==> t.outbox.fates[i] == Cleared
    ensures Live(t, WriteMessage) == 0
  {
  }

  /** Of the entries from `from` on, those that have left the queue were discarded. */
  ghost predicate DiscardedFrom(o: Outbox, from: int) {
    forall i :: from < i < |o.fates| && 0 <= i ==> o.fates[i] == Cleared || o.fates[i] == Dropped
  }

  /** From s to t nothing was written, and what left the queue was discarded. */
  ghost predicate WroteNothing(s: Sock, t: Sock) {
    && t.outbox.written == s.outbox.written
    && (t.state == Disconnecting || t.state == Disconnected)
    && DiscardedFrom(t.outbox, s.outbox.closeAt)
    && (t.state == Disconnected ==> t.outbox.queue == [])
  }

  /** Only the close handler ends an attempt that is DISCONNECTING. */
  lemma OthersChangeNothing(s: Sock, op: Op, out: Outcome, tlsParams: bool, weakCas: bool)
    requires s.state == Disconnecting && op != WriteMessage && op != CloseStream
    ensures var t := Complete(s, op, out, tlsParams, weakCas); t.outbox == s.outbox && t.state == s.state
  {
  }

  lemma CompletionWritesNothing(s: Sock, op: Op, out: Outcome, tlsParams: bool, weakCas: bool)
    requires s.state == Disconnecting && DiscardedFrom(s.outbox, s.outbox.closeAt)
    requires OneFlight(s.outbox, false) && op != WriteMessage
    ensures WroteNothing(s, Complete(s, op, out, tlsParams, weakCas))
  {
    if op == CloseStream {
      DoCloseDiscards(s, out.text);
    } else {
      OthersChangeNothing(s, op, out, tlsParams, weakCas);
    }
  }

  lemma DoCloseDiscards(s: Sock, text: string)
    requires s.state == Disconnecting && DiscardedFrom(s.outbox, s.outbox.closeAt) && OneFlight(s.outbox, false)
    ensures WroteNothing(s, DoClose(s, text))
  {
  }

  lemma DeliveryWritesNothing(s: Sock, h: Handler, out: Outcome, tlsParams: bool, weakCas: bool)
    requires Inv(s) && s.state == Disconnecting
    requires h in s.io.handlers && h == HandlerFor(s.io, h.op)
    ensures WroteNothing(s, Deliver(s, h, out, tlsParams, weakCas))
  {
    var t := Withdraw(s, h);
    assert Live(s, h.op) > 0;
    assert DiscardedFrom(t.outbox, t.outbox.closeAt);
    CompletionWritesNothing(t, h.op, out, tlsParams, weakCas);
  }

  lemma ClosingStepWritesNothing(s: Sock, a: Action)
    requires Inv(s) && s.state == Disconnecting && Enabled(s, a) && Timely(s, a)
    ensures WroteNothing(s, Step(s, a))
  {
    match a
    case CallOpen(clear) =>
    case CallClose(weakCas) =>
    case CallCloseNow =>
    case CallWrite(text, binary, weakCas) =>
    case CallClearQueue =>
    case TakeEvents =>
    case Completion(h, out, tlsParams, weakCas) =>
      GuardIsExact(s, h);
      if h == HandlerFor(s.io, h.op) {
        DeliveryWritesNothing(s, h, out, tlsParams, weakCas);
      }
  }

  /** A run of the attempt that stops at its first DISCONNECTED state. */
  predicate EndsDisconnected(s: Sock, acts: seq<Action>)
    requires Legal(s, acts)
    decreases |acts|
  {
    if acts == [] then s.state == Disconnected
    else s.state != Disconnected && EndsDisconnected(Step(s, acts[0]), acts[1..])
  }

  lemma {:induction false} ClosingRunWritesNothing(s: Sock, acts: seq<Action>)
    requires Inv(s) && s.state == Disconnecting
    requires Legal(s, acts) && EndsDisconnected(s, acts)
    ensures var t := Exec(s, acts);
            && t.outbox.written == s.outbox.written
            && t.outbox.queue == []
            && DiscardedFrom(t.outbox, s.outbox.closeAt)
    decreases |acts|
  {
    var t := Step(s, acts[0]);
    StepInv(s, acts[0]);
    ClosingStepWritesNothing(s, acts[0]);
    if t.state == Disconnected {
      assert acts[1..] == [];
    } else {
      StepRemembers(s, acts[0]);
      ClosingRunWritesNothing(t, acts[1..]);
    }
  }

  /** Once asyncCloseSocket has been issued nothing more is written before DISCONNECTED, and what was
      enqueued after the close() by then is not written in any later attempt either. */
  lemma NothingIsWrittenAfterClose(s: Sock, acts: seq<Action>, later: seq<Action>)
    requires Inv(s) && s.state == Disconnecting
    requires Legal(s, acts) && EndsDisconnected(s, acts) && Legal(Exec(s, acts), later)
    ensures var t, u := Exec(s, acts), Exec(Exec(s, acts), later);
            && t.outbox.written == s.outbox.written
            && t.outbox.enqueued <= u.outbox.enqueued
            && |t.outbox.enqueued| <= |u.outbox.fates|
            && (forall i :: s.outbox.closeAt < i < |t.outbox.enqueued| ==> !WasHanded(u.outbox.fates[i]))
  {
    ClosingRunWritesNothing(s, acts);
    RunInv(s, acts);
    RunRemembers(Exec(s, acts), later);
  }

  /** close() on an attempt that is still connecting: however the attempt ends, it has written nothing, and
      everything queued by then is discarded. */
  lemma {:induction false} CloseWhileConnectingDiscards(s: Sock, acts: seq<Action>)
    requires Inv(s) && Clean(s) && s.state == DisconnectRequested && !s.ready
    requires Legal(s, acts) && NoEarlyWrite(s, acts) && EndsDisconnected(s, acts)
    ensures var t := Exec(s, acts);
            && t.outbox.written == s.outbox.written
            && t.outbox.queue == []
            && (forall i :: |s.outbox.fates| <= i < |t.outbox.fates| ==> !WasHanded(t.outbox.fates[i]))
    decreases |acts|
  {
    var t := Step(s, acts[0]);
    StepInv(s, acts[0]);
    StepClean(s, acts[0]);
    ConnectingStepDiscards(s, acts[0]);
    if t.state == Disconnected {
      assert acts[1..] == [];
    } else {
      CloseWhileConnectingDiscards(t, acts[1..]);
      RunRemembers(t, acts[1..]);
      StepRemembers(s, acts[0]);
    }
  }

  /** Nothing was written on the way from s to t, and the attempt is connecting still or over. */
  ghost predicate Unwritten(s: Sock, t: Sock) {
    && t.outbox.written == s.outbox.written
    && ((t.state == DisconnectRequested && !t.ready) || (t.state == Disconnected && t.outbox.queue == []))
    && (forall i :: |s.outbox.fates| <= i < |t.outbox.fates| ==> !WasHanded(t.outbox.fates[i]))
  }

  lemma EndingDiscards(s: Sock, text: string)
    requires s.outbox.flightAt < |s.outbox.fates| ==> s.outbox.fates[s.outbox.flightAt] != InFlight
    requires s.state == DisconnectRequested
    ensures Unwritten(s, ErrorConnection(s, text)) && Unwritten(s, CloseNow(s, text))
  {
  }

  lemma ChainDiscards(s: Sock, op: Op, out: Outcome, tlsParams: bool, weakCas: bool)
    requires s.outbox.flightAt < |s.outbox.fates| ==> s.outbox.fates[s.outbox.flightAt] != InFlight
    requires s.state == DisconnectRequested && !s.ready
    requires op == ResolveHost || op == ConnectTcp || op == TlsHandshake || op == WsHandshake
    ensures Unwritten(s, Complete(s, op, out, tlsParams, weakCas))
  {
    EndingDiscards(s, "[Resolver] " + out.text);
    EndingDiscards(s, "Error setting SSL parameters");
    EndingDiscards(s, "Connection failed: " + out.text);
    EndingDiscards(s, NO_REASON);
  }

  lemma ConnectingStepDiscards(s: Sock, a: Action)
    requires Inv(s) && Clean(s) && s.state == DisconnectRequested && !s.ready
    requires Enabled(s, a) && Timely(s, a) && !EarlyWrite(s, a)
    ensures Unwritten(s, Step(s, a))
  {
    match a
    case CallOpen(clear) =>
    case CallClose(weakCas) =>
    case CallCloseNow => EndingDiscards(s, NO_REASON);
    case CallWrite(text, binary, weakCas) => ConnectingWriteDiscards(s, text, binary, weakCas);
    case CallClearQueue =>
    case TakeEvents =>
    case Completion(h, out, tlsParams, weakCas) =>
      GuardIsExact(s, h);
      if h == HandlerFor(s.io, h.op) {
        ConnectingDeliveryDiscards(s, h, out, tlsParams, weakCas);
      }
  }

  lemma ConnectingWriteDiscards(s: Sock, text: string, binary: bool, weakCas: bool)
    requires Inv(s) && Clean(s) && s.state == DisconnectRequested && !s.ready
    requires !EarlyWrite(s, CallWrite(text, binary, weakCas))
    ensures Unwritten(s, Write(s, text, binary, weakCas))
  {
  }

  lemma ConnectingDeliveryDiscards(s: Sock, h: Handler, out: Outcome, tlsParams: bool, weakCas: bool)
    requires Inv(s) && Clean(s) && s.state == DisconnectRequested && !s.ready
    requires h in s.io.handlers && h == HandlerFor(s.io, h.op)
    ensures Unwritten(s, Deliver(s, h, out, tlsParams, weakCas))
  {
    assert Live(s, h.op) > 0;
    ChainDiscards(Withdraw(s, h), h.op, out, tlsParams, weakCas);
  }

  // ----- clearQueue after close() -----

  /** A close() whose marker was removed before it was taken. */
  predicate Markerless(s: Sock) {
    s.state == DisconnectRequested && s.ready && s.outbox.closeAt < |s.outbox.fates|
  }

  /** On a connection that is up, only clearQueue loses the marker. */
  lemma OnlyClearQueueLosesTheMarker(s: Sock, a: Action)
    requires Inv(s) && Clean(s) && Closing(s) && s.state == DisconnectRequested && s.ready
    requires Enabled(s, a) && Timely(s, a)
    ensures Markerless(Step(s, a)) <==> a.CallClearQueue?
  {
    if !a.CallClearQueue? {
      StepLowersRank(s, a);
    }
  }

  /** The steps that can still end an attempt without a marker: closeNow, or a live completion with an
      error. */
  predicate Forced(s: Sock, a: Action) {
    a.CallCloseNow? || (a.Completion? && a.h == HandlerFor(s.io, a.h.op) && a.out.Failure?)
  }

  /** Without its marker a close() never closes the stream: only closeNow or a failure ends the attempt. */
  lemma MarkerlessStays(s: Sock, a: Action)
    requires Inv(s) && Markerless(s)
    requires Enabled(s, a) && Timely(s, a) && !Forced(s, a)
    ensures Markerless(Step(s, a))
  {
    match a
    case CallOpen(clear) =>
    case CallClose(weakCas) =>
    case CallWrite(text, binary, weakCas) => MarkerlessWrites(Enqueue(s, Message(text, binary)), weakCas);
    case CallClearQueue =>
    case TakeEvents =>
    case Completion(h, out, tlsParams, weakCas) =>
      GuardIsExact(s, h);
      if h == HandlerFor(s.io, h.op) {
        MarkerlessDelivery(s, h, out, tlsParams, weakCas);
      }
  }

  predicate Unforced(s: Sock, acts: seq<Action>)
    requires Legal(s, acts)
    decreases |acts|
  {
    acts == [] || (!Forced(s, acts[0]) && Unforced(Step(s, acts[0]), acts[1..]))
  }

  /** So however long it runs, and whatever is written, the socket stays as it is. */
  lemma {:induction false} MarkerlessForever(s: Sock, acts: seq<Action>)
    requires Inv(s) && Markerless(s) && Legal(s, acts) && Unforced(s, acts)
    ensures Markerless(Exec(s, acts))
    decreases |acts|
  {
    if acts != [] {
      StepInv(s, acts[0]);
      MarkerlessStays(s, acts[0]);
      MarkerlessForever(Step(s, acts[0]), acts[1..]);
    }
  }

  lemma MarkerlessDelivery(s: Sock, h: Handler, out: Outcome, tlsParams: bool, weakCas: bool)
    requires Inv(s) && Markerless(s) && h in s.io.handlers && h == HandlerFor(s.io, h.op)
    requires !Forced(s, Completion(h, out, tlsParams, weakCas))
    ensures Markerless(Deliver(s, h, out, tlsParams, weakCas))
  {
    assert Live(s, h.op) > 0;
    if h.op == WriteMessage {
      LandedLedger(s.outbox, true, Sent);
      MarkerlessWrites(Withdraw(s, h).(writing := false, outbox := Landed(s.outbox, Sent)), weakCas);
    }
  }

  lemma MarkerlessWrites(s: Sock, weakCas: bool)
    requires Markerless(s) && s.outbox.base <= s.outbox.closeAt
    requires |s.outbox.fates| <= |s.outbox.enqueued| && s.outbox.queue == s.outbox.enqueued[|s.outbox.fates|..]
    requires forall i :: s.outbox.closeAt < i < |s.outbox.enqueued| ==> s.outbox.enqueued[i].Message?
    ensures Markerless(CheckWriting(s, weakCas))
  {
    if s.outbox.queue != [] {
      assert s.outbox.queue[0] == s.outbox.enqueued[|s.outbox.fates|];
    }
  }
}

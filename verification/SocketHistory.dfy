/** What no step of a socket takes back: histories only grow, and a fate other than InFlight is final. */
module SocketHistory {
  import opened SocketMachine
  import opened WriteQueue

  ghost predicate FatesGrow(before: seq<Fate>, after: seq<Fate>) {
    && |before| <= |after|
    && forall i :: 0 <= i < |before| ==>
         if before[i] == InFlight then WasHanded(after[i]) else after[i] == before[i]
  }

  ghost predicate OutboxGrows(o: Outbox, p: Outbox) {
    && o.enqueued <= p.enqueued
    && o.written <= p.written
    && FatesGrow(o.fates, p.fates)
  }

  /** The same events were appended to the queue and to the history of all events. */
  ghost predicate InboxGrows(i: Inbox, j: Inbox) {
    && i.emitted <= j.emitted
    && j.queue == i.queue + j.emitted[|i.emitted|..]
  }

  ghost predicate Grows(s: Sock, t: Sock) {
    && OutboxGrows(s.outbox, t.outbox)
    && InboxGrows(s.inbox, t.inbox)
    && t.outbox.base == s.outbox.base
    && t.outbox.closeAt == s.outbox.closeAt
    && t.tls == s.tls && t.atomic == s.atomic
    && s.faults <= t.faults
  }

  lemma GrowsTransitively(s: Sock, t: Sock, u: Sock)
    requires Grows(s, t) && Grows(t, u)
    ensures Grows(s, u)
  {
    var m, n, k := |s.inbox.emitted|, |t.inbox.emitted|, |u.inbox.emitted|;
    assert u.inbox.emitted[m..] == t.inbox.emitted[m..] + u.inbox.emitted[n..];
  }

  lemma DoCloseGrows(s: Sock, text: string)
    ensures Grows(s, DoClose(s, text))
  {
  }

  lemma EndingGrows(s: Sock, text: string)
    ensures Grows(s, ErrorConnection(s, text)) && Grows(s, CloseNow(s, text)) && Grows(s, DoClose(s, text))
  {
    DoCloseGrows(s, text);
    DoCloseGrows(Put(s, ErrorEvent(text)), text);
    GrowsTransitively(s, Put(s, ErrorEvent(text)), DoClose(Put(s, ErrorEvent(text)), text));
  }

  lemma CheckWritingGrows(s: Sock, weakCas: bool)
    ensures Grows(s, CheckWriting(s, weakCas))
  {
    if s.outbox.queue != [] && s.outbox.queue[0].Marker? {
      var t := s.(writing := true, outbox := Taken(s.outbox, MarkerTaken));
      EndingGrows(t, NO_REASON);
      GrowsTransitively(s, t, CloseNow(t, NO_REASON));
    }
  }

  lemma HandshakeGrows(s: Sock, out: Outcome, weakCas: bool)
    ensures Grows(s, HandshakeCompleted(s, out, weakCas))
  {
    if out.Failure? {
      EndingGrows(s, "Connection failed: " + out.text);
    } else if s.state == Connecting {
      var u := Issue(Put(s.(state := Connected, ready := true), ConnectedEvent("Connected")), ReadMessage);
      CheckWritingGrows(u, weakCas);
      GrowsTransitively(s, u, CheckWriting(u, weakCas));
    } else {
      EndingGrows(s, NO_REASON);
    }
  }

  lemma ChainGrows(s: Sock, op: Op, out: Outcome, tlsParams: bool, weakCas: bool)
    requires op == ResolveHost || op == ConnectTcp || op == TlsHandshake || op == WsHandshake
    ensures Grows(s, Complete(s, op, out, tlsParams, weakCas))
  {
    HandshakeGrows(s, out, weakCas);
    EndingGrows(s, "Error setting SSL parameters");
    EndingGrows(s, "[Resolver] " + out.text);
  }

  lemma ReadGrows(s: Sock, out: Outcome)
    ensures Grows(s, OnRead(s, out))
  {
    if out.Failure? {
      EndingGrows(s, if out.closed && out.closeReason != "" then out.closeReason else NO_REASON);
      EndingGrows(s, out.text);
    }
  }

  lemma OnWriteGrows(s: Sock, out: Outcome, weakCas: bool)
    ensures Grows(s, OnWrite(s, out, weakCas))
  {
    if out.Failure? {
      EndingGrows(s, "Connection closed by remote host");
      EndingGrows(s, out.text);
    } else {
      var u := s.(writing := false, outbox := Landed(s.outbox, Sent));
      CheckWritingGrows(u, weakCas);
      GrowsTransitively(s, u, CheckWriting(u, weakCas));
    }
  }

  lemma CompletionGrows(s: Sock, op: Op, out: Outcome, tlsParams: bool, weakCas: bool)
    ensures Grows(s, Complete(s, op, out, tlsParams, weakCas))
  {
    match op
    case ReadMessage => ReadGrows(s, out);
    case WriteMessage => OnWriteGrows(s, out, weakCas);
    case CloseStream => EndingGrows(s, out.text);
    case _ => ChainGrows(s, op, out, tlsParams, weakCas);
  }

  lemma DeliveryGrows(s: Sock, h: Handler, out: Outcome, tlsParams: bool, weakCas: bool)
    requires h in s.io.handlers
    ensures Grows(s, Deliver(s, h, out, tlsParams, weakCas))
  {
    CompletionGrows(Withdraw(s, h), h.op, out, tlsParams, weakCas);
  }

  lemma WriteGrows(s: Sock, m: Outgoing, weakCas: bool)
    ensures Grows(s, CheckWriting(Enqueue(s, m), weakCas))
  {
    CheckWritingGrows(Enqueue(s, m), weakCas);
    GrowsTransitively(s, Enqueue(s, m), CheckWriting(Enqueue(s, m), weakCas));
  }

  lemma CloseRemembers(s: Sock, weakCas: bool)
    ensures var t := Close(s, weakCas);
            && OutboxGrows(s.outbox, t.outbox) && InboxGrows(s.inbox, t.inbox)
            && t.outbox.base == s.outbox.base
            && t.outbox.closeAt ==
                 (if s.state == Connecting || s.state == Connected then |s.outbox.enqueued| else s.outbox.closeAt)
            && t.tls == s.tls && t.atomic == s.atomic
            && s.faults <= t.faults
  {
    var marked := s.(outbox := s.outbox.(closeAt := |s.outbox.enqueued|));
    WriteGrows(marked.(state := DisconnectRequested), Marker, weakCas);
  }

  /** Nothing is taken back by a step; an attempt keeps its base, and a closing attempt its marker. */
  lemma StepRemembers(s: Sock, a: Action)
    requires Enabled(s, a)
    ensures var t := Step(s, a);
            && OutboxGrows(s.outbox, t.outbox)
            && s.inbox.emitted <= t.inbox.emitted
            && (!a.TakeEvents? ==> InboxGrows(s.inbox, t.inbox))
            && (s.state != Disconnected ==> t.outbox.base == s.outbox.base)
            && (s.state != Connecting && s.state != Connected ==> t.outbox.closeAt == s.outbox.closeAt)
            && t.tls == s.tls && t.atomic == s.atomic
            && s.faults <= t.faults
  {
    match a
    case CallOpen(clear) =>
    case CallClose(weakCas) => CloseRemembers(s, weakCas);
    case CallCloseNow => EndingGrows(s, NO_REASON);
    case CallWrite(text, binary, weakCas) => WriteGrows(s, Message(text, binary), weakCas);
    case CallClearQueue =>
    case TakeEvents =>
    case Completion(h, out, tlsParams, weakCas) => DeliveryGrows(s, h, out, tlsParams, weakCas);
  }

  /** Whatever happens later, a message's fate does not change and nothing written is unwritten. */
  lemma {:induction false} RunRemembers(s: Sock, acts: seq<Action>)
    requires Legal(s, acts)
    ensures var t := Exec(s, acts);
            && OutboxGrows(s.outbox, t.outbox) && s.inbox.emitted <= t.inbox.emitted && s.faults <= t.faults
    decreases |acts|
  {
    if acts != [] {
      StepRemembers(s, acts[0]);
      RunRemembers(Step(s, acts[0]), acts[1..]);
    }
  }
}

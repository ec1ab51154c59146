/** GWSocket and the asynchronous layer of WebSocket and SSLWebSocket, field by field and method by method.

    View() is the socket as a value of SocketMachine, and every method is proved against the function of the
    same name there. The io context is the ghost field `pending`: the handlers it still holds. */
module GWSockets {
  import opened SocketMachine
  import opened SocketInvariant
  import opened HandlerAccounting
  import opened EventGrammar
  import opened BlockingQueues
  import opened CookieRules

  newtype uint32 = x: int | 0 <= x < 0x1_0000_0000

  class GWSocket {
    const tls: bool
    const messageQueue: BlockingQueue<Event>
    var state: SocketState
    var generation: uint32
    var writing: bool
    var writeQueue: seq<Outgoing>
    var messageToWrite: string
    var cookies: map<string, string>
    var headers: map<string, string>

    ghost var pending: multiset<Handler>
    ghost var epoch: nat
    ghost var ready: bool
    ghost var faults: nat
    ghost var emitted: seq<Event>
    ghost var enqueued: seq<Outgoing>
    ghost var fates: seq<Fate>
    ghost var written: seq<Outgoing>
    ghost var base: nat
    ghost var closeAt: nat
    ghost var flightAt: nat

    ghost function View(): Sock
      reads this, messageQueue
    {
      Sock(tls, false, state, writing, Io(generation as nat, pending, epoch),
           Inbox(messageQueue.backingQueue, emitted),
           Outbox(writeQueue, messageToWrite, enqueued, fates, written, base, closeAt, flightAt),
           ready, faults)
    }

    /** What every method of the public interface keeps: the socket is in a state that the machine can get
        into, so that what is proved of those holds of it, and its cookies and headers have been checked. */
    ghost predicate Valid()
      reads this, messageQueue
    {
      Reachable(View()) && AllCookiesPass(cookies) && AllHeadersPass(headers)
    }

    /** Connecting, sending and closing do not touch the cookies and headers. */
    twostate predicate SameRequest()
      reads this
    {
      cookies == old(cookies) && headers == old(headers)
    }

    constructor (tls: bool)
      ensures View() == Initial(tls) && fresh(messageQueue)
      ensures cookies == map[] && headers == map[]
      ensures Valid()
    {
      this.tls := tls;
      messageQueue := new BlockingQueue<Event>();
      state, generation, writing := Disconnected, 0, false;
      writeQueue, messageToWrite := [], "";
      cookies, headers := map[], map[];
      pending, epoch, ready, faults := multiset{}, 0, false, 0;
      emitted, enqueued, fates, written := [], [], [], [];
      base, closeAt, flightAt := 0, 0, 0;
      new;
      InitialReachable(tls);
    }

    // ----- atomics -----

    method CompareExchangeStrong(expected: SocketState, desired: SocketState) returns (exchanged: bool)
      modifies this`state
      ensures exchanged <==> old(state) == expected
      ensures state == if exchanged then desired else old(state)
    {
      exchanged := state == expected;
      if exchanged {
        state := desired;
      }
    }

    /** The weak form may fail although the value is the expected one; `holds` is false when it does. */
    method CompareExchangeWeak(expected: SocketState, desired: SocketState, holds: bool) returns (exchanged: bool)
      modifies this`state
      ensures exchanged <==> old(state) == expected && holds
      ensures state == if exchanged then desired else old(state)
    {
      exchanged := false;
      if holds {
        exchanged := CompareExchangeStrong(expected, desired);
      }
    }

    method BumpGeneration()
      modifies this`generation, this`epoch
      ensures Io(generation as nat, pending, epoch) == old(Bumped(Io(generation as nat, pending, epoch)))
    {
      generation := if generation == 0xFFFF_FFFF then 0 else generation + 1;
      epoch := epoch + 1;
    }

    // ----- the asynchronous layer -----

    /** Starts an operation whose completion handler is wrapped by guardGeneration. */
    ghost method Start(op: Op)
      modifies this`pending
      ensures View() == Issue(old(View()), op)
    {
      pending := pending + multiset{Handler(op, generation as nat, epoch)};
    }

    method AsyncRead()
      modifies this`pending
      ensures View() == Issue(old(View()), ReadMessage)
    {
      Start(ReadMessage);
    }

    method AsyncWrite(message: string, ghost binary: bool)
      modifies this`messageToWrite, this`written, this`faults, this`pending
      ensures View() == SocketMachine.AsyncWrite(old(View()), Message(message, binary))
    {
      messageToWrite := message;
      written := written + [Message(message, binary)];
      faults := if ready then faults else faults + 1;
      Start(WriteMessage);
    }

    method AsyncCloseSocket()
      modifies this`faults, this`pending
      ensures View() == SocketMachine.AsyncCloseSocket(old(View()))
    {
      faults := if ready then faults else faults + 1;
      Start(CloseStream);
    }

    method AsyncConnect(tlsParams: bool)
      modifies this, messageQueue
      ensures View() == SocketMachine.AsyncConnect(old(View()), tlsParams)
      ensures SameRequest()
    {
      if tls && !tlsParams {
        var _ := ErrorConnection("Error setting SSL parameters");
      } else {
        Start(ConnectTcp);
      }
    }

    method AsyncHandshake()
      modifies this`pending
      ensures View() == SocketMachine.AsyncHandshake(old(View()))
    {
      if tls {
        Start(TlsHandshake);
      } else {
        Start(WsHandshake);
      }
    }

    method SslHandshakeComplete(out: Outcome, weakCas: bool)
      modifies this, messageQueue
      ensures View() == SocketMachine.SslHandshakeComplete(old(View()), out, weakCas)
      ensures SameRequest()
    {
      if out.Success? {
        Start(WsHandshake);
      } else {
        HandshakeCompleted(out, weakCas);
      }
    }

    // ----- queues and closing -----

    method PutMessage(e: Event)
      modifies this`emitted, messageQueue
      ensures View() == Put(old(View()), e)
    {
      messageQueue.Put(e);
      emitted := emitted + [e];
    }

    method ClearQueue(ghost why: Fate := Cleared)
      modifies this`writeQueue, this`fates
      ensures View() == SocketMachine.ClearQueue(old(View()), why)
    {
      fates := fates + seq(|writeQueue|, _ => why);
      writeQueue := [];
    }

    method PopFront() returns (message: Outgoing)
      requires writeQueue != []
      modifies this`writeQueue, this`fates, this`flightAt
      ensures message == old(writeQueue)[0]
      ensures var f := if message.Message? then InFlight else MarkerTaken;
              View() == old(View()).(outbox := Taken(old(View()).outbox, f))
    {
      message := writeQueue[0];
      writeQueue := writeQueue[1..];
      if message.Message? {
        flightAt, fates := |fates|, fates + [InFlight];
      } else {
        fates := fates + [MarkerTaken];
      }
    }

    /** The front of the queue is taken to be written. */
    method TakeFront() returns (message: Outgoing)
      requires writeQueue != []
      modifies this`writing, this`writeQueue, this`fates, this`flightAt
      ensures message == old(writeQueue)[0]
      ensures var f := if message.Message? then InFlight else MarkerTaken;
              View() == old(View()).(writing := true, outbox := Taken(old(View()).outbox, f))
    {
      writing := true;
      message := PopFront();
    }

    method PushBack(message: Outgoing)
      modifies this`writeQueue, this`enqueued
      ensures View() == Enqueue(old(View()), message)
    {
      writeQueue, enqueued := writeQueue + [message], enqueued + [message];
    }

    method PushMarker()
      modifies this`writeQueue, this`enqueued, this`closeAt
      ensures View() == Enqueue(old(View()).(outbox := old(View()).outbox.(closeAt := |old(enqueued)|)), Marker)
    {
      closeAt := |enqueued|;
      PushBack(Marker);
    }

    ghost method Land(f: Fate)
      modifies this`fates
      ensures View() == old(View()).(outbox := Landed(old(View()).outbox, f))
    {
      if flightAt < |fates| && fates[flightAt] == InFlight {
        fates := fates[flightAt := f];
      }
    }

    /** The queue is dropped, and so is a message in flight. */
    method DropQueue()
      modifies this`writeQueue, this`fates
      ensures View() == old(View()).(outbox := Emptied(Landed(old(View()).outbox, Lost), Dropped))
    {
      Land(Lost);
      ClearQueue(Dropped);
    }

    method DoClose(disconnectReason: string)
      modifies this, messageQueue
      ensures View() == SocketMachine.DoClose(old(View()), disconnectReason)
      ensures SameRequest()
    {
      BumpGeneration();
      DropQueue();
      state := Disconnected;
      writing := false;
      ready := false;
      PutMessage(DisconnectedEvent(disconnectReason));
    }

    /** With a single thread the exchange cannot fail after the load; module CloseOwnership has the rest. */
    method SetDisconnectingCAS() returns (ok: bool)
      modifies this`state
      ensures ok <==> Closable(old(state))
      ensures state == if ok then Disconnecting else old(state)
    {
      var expected := state;
      if expected == Disconnected || expected == Disconnecting {
        return false;
      }
      ok := CompareExchangeStrong(expected, Disconnecting);
    }

    method CloseNow(disconnectReason: string := NO_REASON) returns (ok: bool)
      modifies this, messageQueue
      ensures View() == SocketMachine.CloseNow(old(View()), disconnectReason)
      ensures ok <==> Closable(old(state))
      ensures SameRequest()
    {
      ok := SetDisconnectingCAS();
      if ok {
        DoClose(disconnectReason);
      }
    }

    method ErrorConnection(errorMessage: string) returns (ok: bool)
      modifies this, messageQueue
      ensures View() == SocketMachine.ErrorConnection(old(View()), errorMessage)
      ensures ok <==> Closable(old(state))
      ensures SameRequest()
    {
      ok := SetDisconnectingCAS();
      if ok {
        PutMessage(ErrorEvent(errorMessage));
        DoClose(errorMessage);
      }
    }

    method CheckWriting(weakCas: bool)
      modifies this, messageQueue
      ensures View() == SocketMachine.CheckWriting(old(View()), weakCas)
      ensures SameRequest()
    {
      if (state == Connected || state == DisconnectRequested) && !writing && |writeQueue| != 0 {
        var message := TakeFront();
        match message
        case Message(text, binary) => AsyncWrite(text, binary);
        case Marker => MarkerPopped(weakCas);
      }
    }

    /** The branch of CheckWriting for the marker, which has just been taken off the queue. */
    method MarkerPopped(weakCas: bool)
      modifies this, messageQueue
      ensures View() == (var t := old(View());
                         if t.state == DisconnectRequested && weakCas then
                           SocketMachine.AsyncCloseSocket(t.(state := Disconnecting))
                         else
                           SocketMachine.CloseNow(t, NO_REASON))
      ensures SameRequest()
    {
      var exchanged := CompareExchangeWeak(DisconnectRequested, Disconnecting, weakCas);
      if exchanged {
        AsyncCloseSocket();
      } else {
        var _ := CloseNow();
      }
    }

    // ----- completions -----

    method OnDisconnected(out: Outcome)
      modifies this, messageQueue
      ensures View() == SocketMachine.DoClose(old(View()), out.text)
      ensures SameRequest()
    {
      DoClose(out.text);
    }

    method OnRead(out: Outcome)
      modifies this, messageQueue
      ensures View() == SocketMachine.OnRead(old(View()), out)
      ensures SameRequest()
    {
      match out
      case Success(data) =>
        PutMessage(MessageEvent(data));
        AsyncRead();
      case Failure(text, closed, reason) =>
        if closed {
          var _ := CloseNow(if reason == "" then NO_REASON else reason);
        } else {
          var _ := ErrorConnection(text);
        }
    }

    method OnWrite(out: Outcome, weakCas: bool)
      modifies this, messageQueue
      ensures View() == SocketMachine.OnWrite(old(View()), out, weakCas)
      ensures SameRequest()
    {
      match out
      case Success(_) =>
        writing := false;
        Land(Sent);
        CheckWriting(weakCas);
      case Failure(text, closed, _) =>
        if closed {
          var _ := CloseNow("Connection closed by remote host");
        } else {
          var _ := ErrorConnection(text);
        }
    }

    /** The other side accepted the upgrade. */
    method Greet()
      modifies this`ready, this`emitted, this`pending, messageQueue
      ensures View() == Issue(Put(old(View()).(ready := true), ConnectedEvent("Connected")), ReadMessage)
    {
      ready := true;
      PutMessage(ConnectedEvent("Connected"));
      AsyncRead();
    }

    method Accepted(weakCas: bool)
      modifies this, messageQueue
      ensures View() ==
              SocketMachine.CheckWriting(
                Issue(Put(old(View()).(ready := true), ConnectedEvent("Connected")), ReadMessage), weakCas)
      ensures SameRequest()
    {
      Greet();
      CheckWriting(weakCas);
    }

    /** Without an error the socket is up, unless it was closed in the meantime. */
    method HandshakeSucceeded(out: Outcome, weakCas: bool)
      requires out.Success?
      modifies this, messageQueue
      ensures View() == SocketMachine.HandshakeCompleted(old(View()), out, weakCas)
      ensures SameRequest()
    {
      var exchanged := CompareExchangeStrong(Connecting, Connected);
      if exchanged {
        Accepted(weakCas);
      } else {
        var _ := CloseNow();
      }
    }

    method HandshakeCompleted(out: Outcome, weakCas: bool)
      modifies this, messageQueue
      ensures View() == SocketMachine.HandshakeCompleted(old(View()), out, weakCas)
      ensures SameRequest()
    {
      if out.Success? {
        HandshakeSucceeded(out, weakCas);
      } else {
        var _ := ErrorConnection("Connection failed: " + out.text);
      }
    }

    method SocketConnected(out: Outcome)
      modifies this, messageQueue
      ensures View() == SocketMachine.SocketConnected(old(View()), out)
      ensures SameRequest()
    {
      if out.Success? {
        AsyncHandshake();
      } else {
        var _ := ErrorConnection("Connection failed: " + out.text);
      }
    }

    method HostResolvedStep(out: Outcome, tlsParams: bool)
      modifies this, messageQueue
      ensures View() == HostResolved(old(View()), out, tlsParams)
      ensures SameRequest()
    {
      if out.Success? {
        AsyncConnect(tlsParams);
      } else {
        var _ := ErrorConnection("[Resolver] " + out.text);
      }
    }

    /** The bodies of the handlers that the asynchronous layer registers. */
    method Complete(op: Op, out: Outcome, tlsParams: bool, weakCas: bool)
      modifies this, messageQueue
      ensures View() == SocketMachine.Complete(old(View()), op, out, tlsParams, weakCas)
      ensures SameRequest()
    {
      match op
      case ResolveHost => HostResolvedStep(out, tlsParams);
      case ConnectTcp => SocketConnected(out);
      case TlsHandshake => SslHandshakeComplete(out, weakCas);
      case WsHandshake => HandshakeCompleted(out, weakCas);
      case ReadMessage => OnRead(out);
      case WriteMessage => OnWrite(out, weakCas);
      case CloseStream => OnDisconnected(out);
    }

    /** The io context invokes a pending handler: the closure that guardGeneration made, with the counter
        value it captured. */
    method InvokeHandler(op: Op, expected: uint32, ghost h: Handler, out: Outcome, tlsParams: bool, weakCas: bool)
      requires h in pending && h.op == op && h.expected == expected as nat
      modifies this, messageQueue
      ensures View() == Deliver(old(View()), h, out, tlsParams, weakCas)
      ensures SameRequest()
      ensures old(Valid()) && old(epoch) - h.epoch < TWO_TO_32 ==> Valid()
    {
      ghost var before := View();
      pending := pending - multiset{h};
      assert View() == Withdraw(before, h);
      if generation == expected {
        Complete(op, out, tlsParams, weakCas);
      }
      if Reachable(before) && before.io.epoch - h.epoch < TWO_TO_32 {
        ReachableDelivery(before, h, out, tlsParams, weakCas);
      }
    }

    // ----- the public interface -----

    method StartAttempt(shouldClearQueue: bool)
      modifies this`generation, this`epoch, this`base, this`pending, this`writeQueue, this`fates
      ensures var s := old(View());
              var o := if shouldClearQueue then Emptied(s.outbox, Cleared) else s.outbox;
              View() == Issue(s.(io := Bumped(s.io), outbox := o.(base := |o.fates|)), ResolveHost)
    {
      if shouldClearQueue {
        ClearQueue();
      }
      BumpGeneration();
      base := |fates|;
      Start(ResolveHost);
    }

    method Open(shouldClearQueue: bool := true)
      requires Valid()
      modifies this, messageQueue
      ensures Valid() && SameRequest()
      ensures View() == SocketMachine.Open(old(View()), shouldClearQueue)
    {
      ReachableStep(View(), CallOpen(shouldClearQueue));
      var exchanged := CompareExchangeStrong(Disconnected, Connecting);
      if !exchanged {
        return;
      }
      StartAttempt(shouldClearQueue);
    }

    /** With a single thread the exchange cannot fail after the load. */
    method Close(weakCas: bool) returns (ok: bool)
      requires Valid()
      modifies this, messageQueue
      ensures Valid() && SameRequest()
      ensures View() == SocketMachine.Close(old(View()), weakCas)
      ensures ok <==> old(state) == Connecting || old(state) == Connected
    {
      ReachableStep(View(), CallClose(weakCas));
      var expected := state;
      if expected == Disconnected || expected == Disconnecting || expected == DisconnectRequested {
        return false;
      }
      ok := CompareExchangeStrong(expected, DisconnectRequested);
      PushMarker();
      if expected != Connecting {
        CheckWriting(weakCas);
      }
    }

    method CloseImmediately() returns (ok: bool)
      requires Valid()
      modifies this, messageQueue
      ensures Valid() && SameRequest()
      ensures View() == SocketMachine.CloseNow(old(View()), NO_REASON)
      ensures ok <==> Closable(old(state))
    {
      ReachableStep(View(), CallCloseNow);
      ok := CloseNow();
    }

    method Write(message: string, binary: bool := false, weakCas: bool)
      requires Valid()
      modifies this, messageQueue
      ensures Valid() && SameRequest()
      ensures View() == SocketMachine.Write(old(View()), message, binary, weakCas)
    {
      ReachableStep(View(), CallWrite(message, binary, weakCas));
      PushBack(Message(message, binary));
      CheckWriting(weakCas);
    }

    method ClearOutgoing()
      requires Valid()
      modifies this, messageQueue
      ensures Valid() && SameRequest()
      ensures View() == SocketMachine.ClearQueue(old(View()), Cleared)
    {
      ReachableStep(View(), CallClearQueue);
      ClearQueue();
    }

    /** The think function takes every queued event. */
    method TakeMessages() returns (events: seq<Event>)
      requires Valid()
      modifies messageQueue
      ensures Valid()
      ensures View() == Step(old(View()), TakeEvents)
      ensures events == old(View()).inbox.queue
    {
      ReachableStep(View(), TakeEvents);
      events := messageQueue.Clear();
    }

    method SetCookie(key: string, value: string) returns (ok: bool)
      requires Valid()
      modifies this`cookies
      ensures Valid()
      ensures ok <==> IsToken(key) && IsCookieValue(value) && state == Disconnected
      ensures cookies == if ok then old(cookies)[key := value] else old(cookies)
    {
      if !IsToken(key) || !IsCookieValue(value) {
        return false;
      }
      if state != Disconnected {
        return false;
      }
      cookies := cookies[key := value];
      return true;
    }

    method SetHeader(key: string, value: string) returns (ok: bool)
      requires Valid()
      modifies this`headers
      ensures Valid()
      ensures ok <==> IsToken(key) && IsFieldValue(value) && state == Disconnected
      ensures headers == if ok then old(headers)[key := value] else old(headers)
    {
      if !IsToken(key) || !IsFieldValue(value) {
        return false;
      }
      if state != Disconnected {
        return false;
      }
      headers := headers[key := value];
      return true;
    }

    /** The decorator of the handshake request. Whatever the orders in which the maps are iterated, nothing that
        was set can end its line, and the server reads exactly the cookies that were set if and only if no header
        was given the name of the Cookie field. */
    method DecorateRequest(cookieOrder: seq<string>, headerOrder: seq<string>) returns (fields: seq<Field>)
      requires Valid() && IterationOrder(cookies, cookieOrder) && IterationOrder(headers, headerOrder)
      ensures cookies == map[] ==> fields == HeaderFields(headers, headerOrder) && Carries(fields, headers)
      ensures cookies != map[] ==>
                && fields != [] && fields[0].name == "Cookie" && ReadHeader(fields[0].value) == cookies
                && fields[1..] == HeaderFields(headers, headerOrder) && Carries(fields[1..], headers)
      ensures Sendable(fields)
      ensures Sends(fields, cookies) <==> NamesNoCookie(headers)
    {
      fields := Decorate(cookies, cookieOrder, headers, headerOrder);
    }

    // ----- what a valid socket satisfies -----

    /** What is proved of every reachable state of the machine, said of the fields. */
    lemma ValidTells()
      requires Valid()
      ensures Accounted(View()) && (state == Disconnected <==> forall op :: Live(View(), op) == 0)
      ensures Live(View(), WriteMessage) + Live(View(), CloseStream) == if writing then 1 else 0
      ensures InGrammar(emitted, epoch / 2, ready) && (state == Connected ==> ready)
      ensures |fates| + |writeQueue| == |enqueued| && writeQueue == enqueued[|fates|..]
      ensures state == Connected && !writing ==> writeQueue == []
      ensures forall i, j :: 0 <= i < j < |fates| && fates[i] == InFlight ==> fates[j] != InFlight
      ensures forall i :: 0 <= i < |fates| && fates[i] == InFlight ==>
                enqueued[i].Message? && enqueued[i].text == messageToWrite
    {
      var t := View();
      HandlersAreAccountedFor(t);
      EventsFollowTheGrammar(t);
      WritesAreConserved(t);
    }
  }
}

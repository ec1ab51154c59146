/** The value-level specification of a GWSocket: its fields, the completion handlers it has outstanding,
    histories of what it did, and one total function for each operation of src/GWSocket.cpp.

    A step is either a call of the public interface or the completion of one outstanding handler.
    Everything here is single threaded, as the module runs today; the races on `state` alone are the
    subject of module CloseOwnership. */
module SocketMachine {

  const TWO_TO_32: nat := 0x1_0000_0000

  const NO_REASON := "No reason specified"

  datatype SocketState = Connecting | Connected | DisconnectRequested | Disconnecting | Disconnected

  /** What the socket puts into its incoming queue for the Lua callbacks. */
  datatype Event =
    | ConnectedEvent(text: string)
    | MessageEvent(text: string)
    | ErrorEvent(text: string)
    | DisconnectedEvent(text: string)

  /** An entry of the outgoing queue: a message, or the marker that close() leaves. */
  datatype Outgoing = Marker | Message(text: string, binary: bool)

  /** What became of an entry that has left the outgoing queue. */
  datatype Fate =
    | InFlight     // handed to asyncWrite, whose handler is outstanding
    | Sent         // handed to asyncWrite, which completed without an error
    | Lost         // handed to asyncWrite, but the attempt ended first
    | Cleared      // removed by clearQueue, or by open with its default argument
    | Dropped      // removed because the attempt ended
    | MarkerTaken  // the marker, taken off the queue to close the stream

  /** The asynchronous operations that leave a completion handler behind. */
  datatype Op =
    | ResolveHost | ConnectTcp | TlsHandshake | WsHandshake | ReadMessage | WriteMessage | CloseStream

  /** An outstanding completion handler: the counter value its guard captured, and, as history, the number
      of bumps that counter had seen (`expected` is that number modulo 2^32). */
  datatype Handler = Handler(op: Op, expected: nat, epoch: nat)

  /** How the environment completes an operation. */
  datatype Outcome =
    | Success(text: string)
    | Failure(text: string, closed: bool, closeReason: string)

  /** The generation counter and the handlers outstanding in the io context. */
  datatype Io = Io(
    generation: nat,               // the unsigned int counter, below 2^32
    handlers: multiset<Handler>,
    epoch: nat                     // history: bumps of the counter, not wrapped
  )

  /** messageQueue, and the history of every event ever put into it. */
  datatype Inbox = Inbox(queue: seq<Event>, emitted: seq<Event>)

  /** writeQueue and messageToWrite, and the histories of what passed through them. */
  datatype Outbox = Outbox(
    queue: seq<Outgoing>,
    messageToWrite: string,
    enqueued: seq<Outgoing>,       // every entry ever appended to the queue
    fates: seq<Fate>,              // fates[i] is the fate of enqueued[i]
    written: seq<Outgoing>,        // what was handed to asyncWrite
    base: nat,                     // |fates| when the last attempt started
    closeAt: nat,                  // index in enqueued of the last marker
    flightAt: nat                  // index in enqueued of the last message handed to asyncWrite
  )

  datatype Sock = Sock(
    tls: bool,                     // SSLWebSocket or WebSocket
    atomic: bool,                  // reference machine of module GenerationGuard; false for the code
    state: SocketState,
    writing: bool,
    io: Io,
    inbox: Inbox,
    outbox: Outbox,
    ready: bool,                   // history: the running attempt has reported that it is connected
    faults: nat                    // history: writes and closes issued on a stream that is not ready
  )

  function Initial(tls: bool): Sock {
    Sock(tls, false, Disconnected, false, Io(0, multiset{}, 0), Inbox([], []),
         Outbox([], "", [], [], [], 0, 0, 0), false, 0)
  }

  // ----- the asynchronous layer -----

  function HandlerFor(io: Io, op: Op): Handler {
    Handler(op, io.generation, io.epoch)
  }

  function Issue(s: Sock, op: Op): Sock {
    s.(io := s.io.(handlers := s.io.handlers + multiset{HandlerFor(s.io, op)}))
  }

  function Touch(s: Sock): Sock {
    if s.ready then s else s.(faults := s.faults + 1)
  }

  function AsyncWrite(s: Sock, m: Outgoing): Sock
    requires m.Message?
  {
    Issue(Touch(s).(outbox := s.outbox.(messageToWrite := m.text, written := s.outbox.written + [m])), WriteMessage)
  }

  function AsyncCloseSocket(s: Sock): Sock {
    Issue(Touch(s), CloseStream)
  }

  function AsyncConnect(s: Sock, tlsParams: bool): Sock {
    if s.tls && !tlsParams then ErrorConnection(s, "Error setting SSL parameters") else Issue(s, ConnectTcp)
  }

  function AsyncHandshake(s: Sock): Sock {
    Issue(s, if s.tls then TlsHandshake else WsHandshake)
  }

  // ----- queues and closing -----

  function Put(s: Sock, e: Event): Sock {
    s.(inbox := Inbox(s.inbox.queue + [e], s.inbox.emitted + [e]))
  }

  function Enqueue(s: Sock, m: Outgoing): Sock {
    s.(outbox := s.outbox.(queue := s.outbox.queue + [m], enqueued := s.outbox.enqueued + [m]))
  }

  function Emptied(o: Outbox, why: Fate): Outbox {
    o.(queue := [], fates := o.fates + seq(|o.queue|, _ => why))
  }

  function ClearQueue(s: Sock, why: Fate): Sock {
    s.(outbox := Emptied(s.outbox, why))
  }

  /** The message in flight, if there is one, is so no longer. */
  function Landed(o: Outbox, f: Fate): Outbox {
    if o.flightAt < |o.fates| && o.fates[o.flightAt] == InFlight then
      o.(fates := o.fates[o.flightAt := f])
    else
      o
  }

  /** The front of the queue is taken off it. */
  function Taken(o: Outbox, f: Fate): Outbox
    requires o.queue != []
  {
    o.(queue := o.queue[1..], fates := o.fates + [f], flightAt := if f == InFlight then |o.fates| else o.flightAt)
  }

  function Bumped(io: Io): Io {
    io.(epoch := io.epoch + 1, generation := (io.generation + 1) % TWO_TO_32)
  }

  function DoClose(s: Sock, reason: string): Sock {
    Put(s.(state := Disconnected, writing := false, ready := false,
           io := if s.atomic then Bumped(s.io).(handlers := multiset{}) else Bumped(s.io),
           outbox := Emptied(Landed(s.outbox, Lost), Dropped)),
        DisconnectedEvent(reason))
  }

  /** The states from which setDisconnectingCAS succeeds when no other thread interferes. */
  predicate Closable(state: SocketState) {
    state != Disconnected && state != Disconnecting
  }

  function CloseNow(s: Sock, reason: string): Sock {
    if Closable(s.state) then DoClose(s, reason) else s
  }

  function ErrorConnection(s: Sock, text: string): Sock {
    if Closable(s.state) then DoClose(Put(s, ErrorEvent(text)), text) else s
  }

  /** weakCas is false when the weak compare-exchange on the marker fails spuriously. */
  function CheckWriting(s: Sock, weakCas: bool): Sock {
    if (s.state == Connected || s.state == DisconnectRequested) && !s.writing && s.outbox.queue != [] then
      match s.outbox.queue[0]
      case Message(_, _) =>
        AsyncWrite(s.(writing := true, outbox := Taken(s.outbox, InFlight)), s.outbox.queue[0])
      case Marker =>
        var t := s.(writing := true, outbox := Taken(s.outbox, MarkerTaken));
        if s.state == DisconnectRequested && weakCas then
          AsyncCloseSocket(t.(state := Disconnecting))
        else
          CloseNow(t, NO_REASON)
    else
      s
  }

  // ----- the public interface -----

  function Write(s: Sock, text: string, binary: bool, weakCas: bool): Sock {
    CheckWriting(Enqueue(s, Message(text, binary)), weakCas)
  }

  function Close(s: Sock, weakCas: bool): Sock {
    if s.state == Connecting || s.state == Connected then
      var t := Enqueue(s.(state := DisconnectRequested, outbox := s.outbox.(closeAt := |s.outbox.enqueued|)), Marker);
      if s.state == Connecting then t else CheckWriting(t, weakCas)
    else
      s
  }

  function Open(s: Sock, shouldClearQueue: bool): Sock {
    if s.state == Disconnected then
      var o := if shouldClearQueue then Emptied(s.outbox, Cleared) else s.outbox;
      Issue(s.(state := Connecting, io := Bumped(s.io), outbox := o.(base := |o.fates|)), ResolveHost)
    else
      s
  }

  // ----- completions -----

  function OnRead(s: Sock, out: Outcome): Sock {
    match out
    case Success(data) => Issue(Put(s, MessageEvent(data)), ReadMessage)
    case Failure(text, closed, reason) =>
      if closed then CloseNow(s, if reason == "" then NO_REASON else reason) else ErrorConnection(s, text)
  }

  function OnWrite(s: Sock, out: Outcome, weakCas: bool): Sock {
    match out
    case Success(_) => CheckWriting(s.(writing := false, outbox := Landed(s.outbox, Sent)), weakCas)
    case Failure(text, closed, _) =>
      if closed then CloseNow(s, "Connection closed by remote host") else ErrorConnection(s, text)
  }

  function HandshakeCompleted(s: Sock, out: Outcome, weakCas: bool): Sock {
    match out
    case Success(_) =>
      if s.state == Connecting then
        var t := Put(s.(state := Connected, ready := true), ConnectedEvent("Connected"));
        CheckWriting(Issue(t, ReadMessage), weakCas)
      else
        CloseNow(s, NO_REASON)
    case Failure(text, _, _) => ErrorConnection(s, "Connection failed: " + text)
  }

  function SocketConnected(s: Sock, out: Outcome): Sock {
    if out.Success? then AsyncHandshake(s) else ErrorConnection(s, "Connection failed: " + out.text)
  }

  function SslHandshakeComplete(s: Sock, out: Outcome, weakCas: bool): Sock {
    if out.Success? then Issue(s, WsHandshake) else HandshakeCompleted(s, out, weakCas)
  }

  function HostResolved(s: Sock, out: Outcome, tlsParams: bool): Sock {
    if out.Success? then AsyncConnect(s, tlsParams) else ErrorConnection(s, "[Resolver] " + out.text)
  }

  function Complete(s: Sock, op: Op, out: Outcome, tlsParams: bool, weakCas: bool): Sock {
    match op
    case ResolveHost => HostResolved(s, out, tlsParams)
    case ConnectTcp => SocketConnected(s, out)
    case TlsHandshake => SslHandshakeComplete(s, out, weakCas)
    case WsHandshake => HandshakeCompleted(s, out, weakCas)
    case ReadMessage => OnRead(s, out)
    case WriteMessage => OnWrite(s, out, weakCas)
    case CloseStream => DoClose(s, out.text)
  }

  function Withdraw(s: Sock, h: Handler): Sock {
    s.(io := s.io.(handlers := s.io.handlers - multiset{h}))
  }

  /** guardGeneration: the handler leaves the multiset, and its body runs only when its captured
      value still equals the counter. */
  function Deliver(s: Sock, h: Handler, out: Outcome, tlsParams: bool, weakCas: bool): Sock
    requires h in s.io.handlers
  {
    var t := Withdraw(s, h);
    if s.io.generation != h.expected then t else Complete(t, h.op, out, tlsParams, weakCas)
  }

  // ----- steps and runs -----

  datatype Action =
    | CallOpen(shouldClearQueue: bool)
    | CallClose(weakCas: bool)
    | CallCloseNow
    | CallWrite(text: string, binary: bool, weakCas: bool)
    | CallClearQueue
    | TakeEvents
    | Completion(h: Handler, out: Outcome, tlsParams: bool, weakCas: bool)

  predicate Enabled(s: Sock, a: Action) {
    a.Completion? ==> a.h in s.io.handlers
  }

  function Step(s: Sock, a: Action): Sock
    requires Enabled(s, a)
  {
    match a
    case CallOpen(clear) => Open(s, clear)
    case CallClose(weakCas) => Close(s, weakCas)
    case CallCloseNow => CloseNow(s, NO_REASON)
    case CallWrite(text, binary, weakCas) => Write(s, text, binary, weakCas)
    case CallClearQueue => ClearQueue(s, Cleared)
    case TakeEvents => s.(inbox := s.inbox.(queue := []))
    case Completion(h, out, tlsParams, weakCas) => Deliver(s, h, out, tlsParams, weakCas)
  }

  /** No handler is delivered after the counter has gone all the way round since it was issued. */
  predicate Timely(s: Sock, a: Action) {
    a.Completion? ==> s.io.epoch - a.h.epoch < TWO_TO_32
  }

  predicate Legal(s: Sock, acts: seq<Action>)
    decreases |acts|
  {
    acts == [] ||
    (Enabled(s, acts[0]) && Timely(s, acts[0]) && Legal(Step(s, acts[0]), acts[1..]))
  }

  function Exec(s: Sock, acts: seq<Action>): Sock
    requires Legal(s, acts)
    decreases |acts|
  {
    if acts == [] then s else Exec(Step(s, acts[0]), acts[1..])
  }

  /** The states a constructed socket can get into. */
  ghost predicate Reachable(t: Sock) {
    exists tls, acts :: Legal(Initial(tls), acts) && t == Exec(Initial(tls), acts)
  }
}

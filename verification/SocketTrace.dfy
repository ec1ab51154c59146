/** What a socket tells Lua and what it is given to send, read off the actions of a run.

    The tables below say, for an action in a state, which events it must put and which entries it must enqueue:
    a text that was read, the reason of an error or of a disconnect, a message to write. They mention the state
    and the action only, not the operations. */
module SocketTrace {
  import opened Results
  import opened SocketMachine
  import opened HandlerAccounting
  import opened EventGrammar
  import opened WriteQueue
  import opened SocketInvariant

  /** The texts of the events that one step puts, in this order. */
  datatype Report = Report(connected: Option<string>, message: Option<string>, error: Option<string>,
                           reason: Option<string>)

  const SILENT := Report(None, None, None, None)

  function Events(r: Report): seq<Event> {
    var c := if r.connected.Some? then [ConnectedEvent(r.connected.value)] else [];
    var m := if r.message.Some? then [MessageEvent(r.message.value)] else [];
    var e := if r.error.Some? then [ErrorEvent(r.error.value)] else [];
    var d := if r.reason.Some? then [DisconnectedEvent(r.reason.value)] else [];
    c + m + e + d
  }

  // ----- what a step must tell -----

  /** The attempt runs, and nobody is closing its stream yet. */
  predicate CanEnd(state: SocketState) {
    state == Connecting || state == Connected || state == DisconnectRequested
  }

  function Ended(s: Sock, text: string): Report {
    if CanEnd(s.state) then SILENT.(reason := Some(text)) else SILENT
  }

  function Failed(s: Sock, text: string): Report {
    if CanEnd(s.state) then SILENT.(error := Some(text), reason := Some(text)) else SILENT
  }

  /** The exchange on the marker fails, with the marker in front. */
  predicate MarkerFails(s: Sock, weakCas: bool) {
    s.state == DisconnectRequested && s.outbox.queue != [] && s.outbox.queue[0] == Marker && !weakCas
  }

  /** By the operation that completed. */
  function Reported(s: Sock, op: Op, out: Outcome, tlsParams: bool, weakCas: bool): Report {
    match out
    case Failure(text, closed, closeReason) =>
      (match op
       case ResolveHost => Failed(s, "[Resolver] " + text)
       case ConnectTcp => Failed(s, "Connection failed: " + text)
       case TlsHandshake => Failed(s, "Connection failed: " + text)
       case WsHandshake => Failed(s, "Connection failed: " + text)
       case ReadMessage =>
         if !closed then Failed(s, text) else Ended(s, if closeReason == "" then "No reason specified" else closeReason)
       case WriteMessage => if !closed then Failed(s, text) else Ended(s, "Connection closed by remote host")
       case CloseStream => SILENT.(reason := Some(text)))
    case Success(text) =>
      (match op
       case ResolveHost => if s.tls && !tlsParams then Failed(s, "Error setting SSL parameters") else SILENT
       case ConnectTcp => SILENT
       case TlsHandshake => SILENT
       case WsHandshake =>
         if s.state == Connecting then SILENT.(connected := Some("Connected")) else Ended(s, "No reason specified")
       case ReadMessage => SILENT.(message := Some(text))
       case WriteMessage => if MarkerFails(s, weakCas) then Ended(s, "No reason specified") else SILENT
       case CloseStream => SILENT.(reason := Some(text)))
  }

  /** What the action must tell. */
  function Told(s: Sock, a: Action): Report {
    match a
    case CallOpen(_) => SILENT
    case CallClose(weakCas) =>
      if s.state == Connected && !s.writing && !weakCas then Ended(s, "No reason specified") else SILENT
    case CallCloseNow => Ended(s, "No reason specified")
    case CallWrite(_, _, weakCas) =>
      if !s.writing && MarkerFails(s, weakCas) then Ended(s, "No reason specified") else SILENT
    case CallClearQueue => SILENT
    case TakeEvents => SILENT
    case Completion(h, out, tlsParams, weakCas) =>
      if h == HandlerFor(s.io, h.op) then Reported(s, h.op, out, tlsParams, weakCas) else SILENT
  }

  // ----- each operation tells that -----

  predicate Tells(s: Sock, t: Sock, r: Report) {
    t.inbox.emitted == s.inbox.emitted + Events(r)
  }

  lemma TellsNothing(s: Sock, t: Sock)
    requires t.inbox.emitted == s.inbox.emitted
    ensures Tells(s, t, SILENT)
  {
  }

  lemma EndingTells(s: Sock, text: string)
    ensures Tells(s, CloseNow(s, text), Ended(s, text))
    ensures Tells(s, ErrorConnection(s, text), Failed(s, text))
    ensures Tells(s, DoClose(s, text), SILENT.(reason := Some(text)))
  {
    assert s.inbox.emitted + [ErrorEvent(text)] + [DisconnectedEvent(text)] ==
           s.inbox.emitted + [ErrorEvent(text), DisconnectedEvent(text)];
  }

  /** The queue of an attempt that is not closing has no marker in front. */
  lemma CheckWritingTells(s: Sock, weakCas: bool)
    requires s.state == Connected && s.outbox.queue != [] ==> s.outbox.queue[0].Message?
    ensures Tells(s, CheckWriting(s, weakCas),
                  if !s.writing && MarkerFails(s, weakCas) then Ended(s, "No reason specified") else SILENT)
  {
    if s.outbox.queue != [] && s.outbox.queue[0].Marker? {
      EndingTells(s.(writing := true, outbox := Taken(s.outbox, MarkerTaken)), NO_REASON);
    }
  }

  lemma NoMarkerInFront(s: Sock)
    requires Booked(s) && (s.state == Connected || s.state == Connecting)
    ensures s.outbox.queue != [] ==> s.outbox.queue[0].Message?
  {
    assert s.outbox.queue != [] ==> s.outbox.queue[0] == s.outbox.enqueued[|s.outbox.fates|];
  }

  lemma HandshakeTells(s: Sock, out: Outcome, weakCas: bool)
    requires Booked(s)
    ensures Tells(s, HandshakeCompleted(s, out, weakCas), Reported(s, WsHandshake, out, true, weakCas))
  {
    if out.Failure? {
      EndingTells(s, "Connection failed: " + out.text);
    } else if s.state == Connecting {
      var u := Issue(Put(s.(state := Connected, ready := true), ConnectedEvent("Connected")), ReadMessage);
      NoMarkerInFront(s);
      CheckWritingTells(u, weakCas);
      assert u.inbox.emitted + [] == u.inbox.emitted;
    } else {
      EndingTells(s, NO_REASON);
    }
  }

  lemma ChainTells(s: Sock, op: Op, out: Outcome, tlsParams: bool, weakCas: bool)
    requires Booked(s) && (op == ResolveHost || op == ConnectTcp || op == TlsHandshake || op == WsHandshake)
    ensures Tells(s, Complete(s, op, out, tlsParams, weakCas), Reported(s, op, out, tlsParams, weakCas))
  {
    HandshakeTells(s, out, weakCas);
    EndingTells(s, "Error setting SSL parameters");
    EndingTells(s, "[Resolver] " + out.text);
  }

  lemma ReadTells(s: Sock, out: Outcome)
    ensures Tells(s, OnRead(s, out), Reported(s, ReadMessage, out, true, true))
  {
    if out.Failure? {
      EndingTells(s, if out.closed && out.closeReason != "" then out.closeReason else NO_REASON);
      EndingTells(s, out.text);
    }
  }

  lemma WriteTells(s: Sock, out: Outcome, weakCas: bool)
    requires Booked(s)
    ensures Tells(s, OnWrite(s, out, weakCas), Reported(s, WriteMessage, out, true, weakCas))
  {
    if out.Failure? {
      EndingTells(s, "Connection closed by remote host");
      EndingTells(s, out.text);
    } else {
      if s.state == Connected {
        NoMarkerInFront(s);
      }
      CheckWritingTells(s.(writing := false, outbox := Landed(s.outbox, Sent)), weakCas);
    }
  }

  lemma CompletionTells(s: Sock, op: Op, out: Outcome, tlsParams: bool, weakCas: bool)
    requires Booked(s)
    ensures Tells(s, Complete(s, op, out, tlsParams, weakCas), Reported(s, op, out, tlsParams, weakCas))
  {
    match op
    case ReadMessage => ReadTells(s, out);
    case WriteMessage => WriteTells(s, out, weakCas);
    case CloseStream => EndingTells(s, out.text);
    case _ => ChainTells(s, op, out, tlsParams, weakCas);
  }

  lemma DeliveryTells(s: Sock, h: Handler, out: Outcome, tlsParams: bool, weakCas: bool)
    requires Inv(s) && h in s.io.handlers && s.io.epoch - h.epoch < TWO_TO_32
    ensures Tells(s, Deliver(s, h, out, tlsParams, weakCas), Told(s, Completion(h, out, tlsParams, weakCas)))
  {
    GuardIsExact(s, h);
    if h == HandlerFor(s.io, h.op) {
      CompletionTells(Withdraw(s, h), h.op, out, tlsParams, weakCas);
      ReportedWithdrawn(s, h, out, tlsParams, weakCas);
    } else {
      TellsNothing(s, Withdraw(s, h));
    }
  }

  lemma ReportedWithdrawn(s: Sock, h: Handler, out: Outcome, tlsParams: bool, weakCas: bool)
    ensures Reported(Withdraw(s, h), h.op, out, tlsParams, weakCas) == Reported(s, h.op, out, tlsParams, weakCas)
  {
  }

  lemma CloseTells(s: Sock, weakCas: bool)
    requires Booked(s) && Quiet(s)
    ensures Tells(s, Close(s, weakCas), Told(s, CallClose(weakCas)))
  {
    if s.state == Connected {
      var t := Enqueue(s.(state := DisconnectRequested, outbox := s.outbox.(closeAt := |s.outbox.enqueued|)), Marker);
      NoMarkerInFront(s);
      CheckWritingTells(t, weakCas);
    }
  }

  lemma WriteCallTells(s: Sock, text: string, binary: bool, weakCas: bool)
    requires Booked(s)
    ensures Tells(s, Write(s, text, binary, weakCas), Told(s, CallWrite(text, binary, weakCas)))
  {
    if s.state == Connected {
      NoMarkerInFront(s);
    }
    CheckWritingTells(Enqueue(s, Message(text, binary)), weakCas);
  }

  /** Every step puts exactly the events that the table says. */
  lemma StepTells(s: Sock, a: Action)
    requires Inv(s) && Enabled(s, a) && Timely(s, a)
    ensures Step(s, a).inbox.emitted == s.inbox.emitted + Events(Told(s, a))
  {
    match a
    case CallOpen(clear) => TellsNothing(s, Step(s, a));
    case CallClose(weakCas) => CloseTells(s, weakCas);
    case CallCloseNow => EndingTells(s, NO_REASON);
    case CallWrite(text, binary, weakCas) => WriteCallTells(s, text, binary, weakCas);
    case CallClearQueue => TellsNothing(s, Step(s, a));
    case TakeEvents => TellsNothing(s, Step(s, a));
    case Completion(h, out, tlsParams, weakCas) => DeliveryTells(s, h, out, tlsParams, weakCas);
  }

  // ----- whole runs -----

  /** The events that a run must put. */
  function AllTold(s: Sock, acts: seq<Action>): seq<Event>
    requires Legal(s, acts)
    decreases |acts|
  {
    if acts == [] then [] else Events(Told(s, acts[0])) + AllTold(Step(s, acts[0]), acts[1..])
  }

  lemma {:induction false} RunTells(s: Sock, acts: seq<Action>)
    requires Inv(s) && Legal(s, acts)
    ensures Exec(s, acts).inbox.emitted == s.inbox.emitted + AllTold(s, acts)
    decreases |acts|
  {
    if acts != [] {
      StepTells(s, acts[0]);
      StepInv(s, acts[0]);
      RunTells(Step(s, acts[0]), acts[1..]);
      Regroup(s.inbox.emitted, Events(Told(s, acts[0])), AllTold(Step(s, acts[0]), acts[1..]));
    }
  }

  lemma Regroup<T>(a: seq<T>, b: seq<T>, c: seq<T>)
    ensures a + b + c == a + (b + c)
  {
  }

  /** The texts of the messages in a trace; of its errors; the reasons of its disconnects. */
  function MessageTexts(trace: seq<Event>): seq<string> {
    if trace == [] then []
    else
      var n := |trace| - 1;
      MessageTexts(trace[..n]) + if trace[n].MessageEvent? then [trace[n].text] else []
  }

  function ErrorTexts(trace: seq<Event>): seq<string> {
    if trace == [] then []
    else
      var n := |trace| - 1;
      ErrorTexts(trace[..n]) + if trace[n].ErrorEvent? then [trace[n].text] else []
  }

  function DisconnectReasons(trace: seq<Event>): seq<string> {
    if trace == [] then []
    else
      var n := |trace| - 1;
      DisconnectReasons(trace[..n]) + if trace[n].DisconnectedEvent? then [trace[n].text] else []
  }

  lemma {:induction false} TextsConcat(a: seq<Event>, b: seq<Event>)
    ensures MessageTexts(a + b) == MessageTexts(a) + MessageTexts(b)
    ensures ErrorTexts(a + b) == ErrorTexts(a) + ErrorTexts(b)
    ensures DisconnectReasons(a + b) == DisconnectReasons(a) + DisconnectReasons(b)
    decreases |b|
  {
    if b == [] {
      assert a + b == a;
    } else {
      var n := |b| - 1;
      assert a + b == (a + b[..n]) + [b[n]];
      assert (a + b)[..|a + b| - 1] == a + b[..n];
      TextsConcat(a, b[..n]);
    }
  }

  function Listed(x: Option<string>): seq<string> {
    if x.Some? then [x.value] else []
  }

  lemma {:induction false} TextsOfOne(trace: seq<Event>)
    requires |trace| <= 1
    ensures MessageTexts(trace) == if trace != [] && trace[0].MessageEvent? then [trace[0].text] else []
    ensures ErrorTexts(trace) == if trace != [] && trace[0].ErrorEvent? then [trace[0].text] else []
    ensures DisconnectReasons(trace) == if trace != [] && trace[0].DisconnectedEvent? then [trace[0].text] else []
  {
    if trace != [] {
      assert trace[..0] == [];
    }
  }

  lemma {:induction false} TextsOfReport(r: Report)
    ensures MessageTexts(Events(r)) == Listed(r.message)
    ensures ErrorTexts(Events(r)) == Listed(r.error)
    ensures DisconnectReasons(Events(r)) == Listed(r.reason)
  {
    var c := if r.connected.Some? then [ConnectedEvent(r.connected.value)] else [];
    var m := if r.message.Some? then [MessageEvent(r.message.value)] else [];
    var e := if r.error.Some? then [ErrorEvent(r.error.value)] else [];
    var d := if r.reason.Some? then [DisconnectedEvent(r.reason.value)] else [];
    assert Events(r) == c + m + e + d;
    TextsPicked(c, m, e, d, Listed(r.message), Listed(r.error), Listed(r.reason));
  }

  lemma {:induction false} TextsPicked(c: seq<Event>, m: seq<Event>, e: seq<Event>, d: seq<Event>,
                                       message: seq<string>, error: seq<string>, reason: seq<string>)
    requires c == [] || (|c| == 1 && c[0].ConnectedEvent?)
    requires (m == [] && message == []) || (|m| == 1 && m[0].MessageEvent? && message == [m[0].text])
    requires (e == [] && error == []) || (|e| == 1 && e[0].ErrorEvent? && error == [e[0].text])
    requires (d == [] && reason == []) || (|d| == 1 && d[0].DisconnectedEvent? && reason == [d[0].text])
    ensures MessageTexts(c + m + e + d) == message
    ensures ErrorTexts(c + m + e + d) == error
    ensures DisconnectReasons(c + m + e + d) == reason
  {
    TextsOfOne(c);
    TextsOfOne(m);
    TextsOfOne(e);
    TextsOfOne(d);
    TextsOfFour(c, m, e, d);
    OnlyOne([], message, [], []);
    OnlyOne([], [], error, []);
    OnlyOne([], [], [], reason);
  }

  lemma OnlyOne(a: seq<string>, b: seq<string>, c: seq<string>, d: seq<string>)
    ensures a == [] && c == [] && d == [] ==> a + b + c + d == b
    ensures a == [] && b == [] && d == [] ==> a + b + c + d == c
    ensures a == [] && b == [] && c == [] ==> a + b + c + d == d
  {
  }

  lemma {:induction false} TextsOfFour(c: seq<Event>, m: seq<Event>, e: seq<Event>, d: seq<Event>)
    ensures MessageTexts(c + m + e + d) == MessageTexts(c) + MessageTexts(m) + MessageTexts(e) + MessageTexts(d)
    ensures ErrorTexts(c + m + e + d) == ErrorTexts(c) + ErrorTexts(m) + ErrorTexts(e) + ErrorTexts(d)
    ensures DisconnectReasons(c + m + e + d) ==
            DisconnectReasons(c) + DisconnectReasons(m) + DisconnectReasons(e) + DisconnectReasons(d)
  {
    TextsConcat(c + m + e, d);
    TextsConcat(c + m, e);
    TextsConcat(c, m);
  }

  /** What a live read delivered. */
  function Read(s: Sock, a: Action): seq<string> {
    if a.Completion? && a.h == HandlerFor(s.io, ReadMessage) && a.out.Success? then [a.out.text] else []
  }

  lemma ReadIsTold(s: Sock, a: Action)
    ensures Listed(Told(s, a).message) == Read(s, a)
  {
  }

  /** What the live reads of a run delivered, in order. */
  function ReadTexts(s: Sock, acts: seq<Action>): seq<string>
    requires Legal(s, acts)
    decreases |acts|
  {
    if acts == [] then [] else Read(s, acts[0]) + ReadTexts(Step(s, acts[0]), acts[1..])
  }

  /** The errors that ended an attempt of a run, and why each attempt of it ended. */
  function FailureTexts(s: Sock, acts: seq<Action>): seq<string>
    requires Legal(s, acts)
    decreases |acts|
  {
    if acts == [] then [] else Listed(Told(s, acts[0]).error) + FailureTexts(Step(s, acts[0]), acts[1..])
  }

  function EndReasons(s: Sock, acts: seq<Action>): seq<string>
    requires Legal(s, acts)
    decreases |acts|
  {
    if acts == [] then [] else Listed(Told(s, acts[0]).reason) + EndReasons(Step(s, acts[0]), acts[1..])
  }

  lemma {:induction false} TextsOfRun(s: Sock, acts: seq<Action>)
    requires Legal(s, acts)
    ensures MessageTexts(AllTold(s, acts)) == ReadTexts(s, acts)
    ensures ErrorTexts(AllTold(s, acts)) == FailureTexts(s, acts)
    ensures DisconnectReasons(AllTold(s, acts)) == EndReasons(s, acts)
    decreases |acts|
  {
    if acts != [] {
      var r, rest := Told(s, acts[0]), AllTold(Step(s, acts[0]), acts[1..]);
      TextsOfRun(Step(s, acts[0]), acts[1..]);
      TextsConcat(Events(r), rest);
      TextsOfReport(r);
      ReadIsTold(s, acts[0]);
    }
  }

  /** Lua is told exactly what was read, in order; every error with its text; and every disconnect with its
      reason. */
  lemma {:induction false} TextsAreKept(s: Sock, acts: seq<Action>)
    requires Inv(s) && Legal(s, acts)
    ensures var emitted, before := Exec(s, acts).inbox.emitted, s.inbox.emitted;
            && MessageTexts(emitted) == MessageTexts(before) + ReadTexts(s, acts)
            && ErrorTexts(emitted) == ErrorTexts(before) + FailureTexts(s, acts)
            && DisconnectReasons(emitted) == DisconnectReasons(before) + EndReasons(s, acts)
  {
    RunTells(s, acts);
    TextsOfRun(s, acts);
    TextsConcat(s.inbox.emitted, AllTold(s, acts));
  }

  // ----- what a socket is given to send -----

  /** A write() enqueues its message, and a close() that finds the attempt running its marker. */
  function Given(s: Sock, a: Action): seq<Outgoing> {
    match a
    case CallWrite(text, binary, _) => [Message(text, binary)]
    case CallClose(_) => if s.state == Connecting || s.state == Connected then [Marker] else []
    case _ => []
  }

  lemma EndingEnqueues(s: Sock, text: string)
    ensures CloseNow(s, text).outbox.enqueued == s.outbox.enqueued
    ensures ErrorConnection(s, text).outbox.enqueued == s.outbox.enqueued
    ensures DoClose(s, text).outbox.enqueued == s.outbox.enqueued
  {
  }

  lemma CheckWritingEnqueues(s: Sock, weakCas: bool)
    ensures CheckWriting(s, weakCas).outbox.enqueued == s.outbox.enqueued
  {
    if s.outbox.queue != [] {
      EndingEnqueues(s.(writing := true, outbox := Taken(s.outbox, MarkerTaken)), NO_REASON);
    }
  }

  lemma HandshakeEnqueues(s: Sock, out: Outcome, weakCas: bool)
    ensures HandshakeCompleted(s, out, weakCas).outbox.enqueued == s.outbox.enqueued
  {
    EndingEnqueues(s, "Connection failed: " + out.text);
    EndingEnqueues(s, NO_REASON);
    var u := Issue(Put(s.(state := Connected, ready := true), ConnectedEvent("Connected")), ReadMessage);
    CheckWritingEnqueues(u, weakCas);
  }

  lemma ChainEnqueues(s: Sock, op: Op, out: Outcome, tlsParams: bool, weakCas: bool)
    requires op == ResolveHost || op == ConnectTcp || op == TlsHandshake || op == WsHandshake
    ensures Complete(s, op, out, tlsParams, weakCas).outbox.enqueued == s.outbox.enqueued
  {
    HandshakeEnqueues(s, out, weakCas);
    EndingEnqueues(s, "Error setting SSL parameters");
    EndingEnqueues(s, "[Resolver] " + out.text);
  }

  lemma WriteEnqueues(s: Sock, out: Outcome, weakCas: bool)
    ensures OnWrite(s, out, weakCas).outbox.enqueued == s.outbox.enqueued
  {
    EndingEnqueues(s, "Connection closed by remote host");
    EndingEnqueues(s, out.text);
    CheckWritingEnqueues(s.(writing := false, outbox := Landed(s.outbox, Sent)), weakCas);
  }

  lemma CompletionEnqueues(s: Sock, op: Op, out: Outcome, tlsParams: bool, weakCas: bool)
    ensures Complete(s, op, out, tlsParams, weakCas).outbox.enqueued == s.outbox.enqueued
  {
    match op
    case ReadMessage => ReadEnqueues(s, out);
    case WriteMessage => WriteEnqueues(s, out, weakCas);
    case CloseStream => EndingEnqueues(s, out.text);
    case _ => ChainEnqueues(s, op, out, tlsParams, weakCas);
  }

  lemma ReadEnqueues(s: Sock, out: Outcome)
    ensures OnRead(s, out).outbox.enqueued == s.outbox.enqueued
  {
    if out.Failure? {
      EndingEnqueues(s, if out.closed && out.closeReason != "" then out.closeReason else NO_REASON);
      EndingEnqueues(s, out.text);
    }
  }

  lemma StepEnqueues(s: Sock, a: Action)
    requires Enabled(s, a)
    ensures Step(s, a).outbox.enqueued == s.outbox.enqueued + Given(s, a)
  {
    match a
    case CallClose(weakCas) =>
      var t := s.(state := DisconnectRequested, outbox := s.outbox.(closeAt := |s.outbox.enqueued|));
      CheckWritingEnqueues(Enqueue(t, Marker), weakCas);
    case CallWrite(text, binary, weakCas) => CheckWritingEnqueues(Enqueue(s, Message(text, binary)), weakCas);
    case CallCloseNow => EndingEnqueues(s, NO_REASON);
    case Completion(h, out, tlsParams, weakCas) => CompletionEnqueues(Withdraw(s, h), h.op, out, tlsParams, weakCas);
    case _ =>
  }

  function AllGiven(s: Sock, acts: seq<Action>): seq<Outgoing>
    requires Legal(s, acts)
    decreases |acts|
  {
    if acts == [] then [] else Given(s, acts[0]) + AllGiven(Step(s, acts[0]), acts[1..])
  }

  /** What passes through the queue over a run is what write() and close() gave, in that order. */
  lemma {:induction false} RunEnqueues(s: Sock, acts: seq<Action>)
    requires Legal(s, acts)
    ensures Exec(s, acts).outbox.enqueued == s.outbox.enqueued + AllGiven(s, acts)
    decreases |acts|
  {
    if acts != [] {
      StepEnqueues(s, acts[0]);
      RunEnqueues(Step(s, acts[0]), acts[1..]);
      Regroup(s.outbox.enqueued, Given(s, acts[0]), AllGiven(Step(s, acts[0]), acts[1..]));
    }
  }

  /** What open() does to messages that were written before it: its flag, and nothing else, decides whether
      they are still there for the new attempt. */
  lemma OpenKeepsTheQueueUnlessAsked(s: Sock, clear: bool)
    requires s.state == Disconnected
    ensures var t := Step(s, CallOpen(clear));
            && t.state == Connecting && t.outbox.queue == (if clear then [] else s.outbox.queue)
            && |t.outbox.fates| == |s.outbox.fates| + (if clear then |s.outbox.queue| else 0)
            && t.outbox.fates[..|s.outbox.fates|] == s.outbox.fates
            && forall i :: |s.outbox.fates| <= i < |t.outbox.fates| ==> t.outbox.fates[i] == Cleared
  {
  }

  // ----- what counts as sent -----

  predicate WriteCompletes(s: Sock, a: Action) {
    a.Completion? && a.h == HandlerFor(s.io, WriteMessage) && a.out.Success?
  }

  /** What was sent before, and the entry at that position, is what is sent now. */
  predicate SentMore(before: seq<Fate>, after: seq<Fate>, more: set<nat>) {
    && |before| <= |after|
    && forall i :: 0 <= i < |after| ==>
         (after[i] == Sent <==> (i < |before| && before[i] == Sent) || i in more)
  }

  lemma DoCloseSends(s: Sock, text: string)
    ensures SentMore(s.outbox.fates, DoClose(s, text).outbox.fates, {})
  {
  }

  lemma EndingSends(s: Sock, text: string)
    ensures SentMore(s.outbox.fates, CloseNow(s, text).outbox.fates, {})
    ensures SentMore(s.outbox.fates, ErrorConnection(s, text).outbox.fates, {})
  {
    DoCloseSends(s, text);
    DoCloseSends(Put(s, ErrorEvent(text)), text);
  }

  lemma CheckWritingSends(s: Sock, weakCas: bool)
    ensures SentMore(s.outbox.fates, CheckWriting(s, weakCas).outbox.fates, {})
  {
    if s.outbox.queue != [] && s.outbox.queue[0].Marker? {
      EndingSends(s.(writing := true, outbox := Taken(s.outbox, MarkerTaken)), NO_REASON);
    }
  }

  lemma HandshakeSends(s: Sock, out: Outcome, weakCas: bool)
    ensures SentMore(s.outbox.fates, HandshakeCompleted(s, out, weakCas).outbox.fates, {})
  {
    EndingSends(s, "Connection failed: " + out.text);
    EndingSends(s, NO_REASON);
    var t := Put(s.(state := Connected, ready := true), ConnectedEvent("Connected"));
    CheckWritingSends(Issue(t, ReadMessage), weakCas);
  }

  lemma OtherCompletionSends(s: Sock, op: Op, out: Outcome, tlsParams: bool, weakCas: bool)
    requires op != WriteMessage
    ensures SentMore(s.outbox.fates, Complete(s, op, out, tlsParams, weakCas).outbox.fates, {})
  {
    match op
    case ReadMessage =>
      EndingSends(s, if out.Failure? && out.closed && out.closeReason != "" then out.closeReason else NO_REASON);
      EndingSends(s, out.text);
    case CloseStream => DoCloseSends(s, out.text);
    case _ =>
      HandshakeSends(s, out, weakCas);
      EndingSends(s, "Error setting SSL parameters");
      EndingSends(s, "[Resolver] " + out.text);
  }

  lemma SentTwice(a: seq<Fate>, b: seq<Fate>, c: seq<Fate>, more: set<nat>)
    requires SentMore(a, b, more) && SentMore(b, c, {}) && forall i :: i in more ==> i < |b|
    ensures SentMore(a, c, more)
  {
  }

  lemma WriteSends(s: Sock, out: Outcome, weakCas: bool)
    requires OneFlight(s.outbox, true)
    ensures SentMore(s.outbox.fates, OnWrite(s, out, weakCas).outbox.fates,
                     if out.Success? then {s.outbox.flightAt} else {})
  {
    if out.Success? {
      var u := s.(writing := false, outbox := Landed(s.outbox, Sent));
      CheckWritingSends(u, weakCas);
      SentTwice(s.outbox.fates, u.outbox.fates, CheckWriting(u, weakCas).outbox.fates, {s.outbox.flightAt});
    } else {
      EndingSends(s, "Connection closed by remote host");
      EndingSends(s, out.text);
    }
  }

  lemma DeliverySends(s: Sock, h: Handler, out: Outcome, tlsParams: bool, weakCas: bool)
    requires Inv(s) && h in s.io.handlers && s.io.epoch - h.epoch < TWO_TO_32
    ensures var a := Completion(h, out, tlsParams, weakCas);
            SentMore(s.outbox.fates, Deliver(s, h, out, tlsParams, weakCas).outbox.fates,
                     if WriteCompletes(s, a) then {s.outbox.flightAt} else {})
  {
    GuardIsExact(s, h);
    if h == HandlerFor(s.io, h.op) {
      if h.op == WriteMessage {
        assert Live(s, WriteMessage) > 0;
        WriteSends(Withdraw(s, h), out, weakCas);
      } else {
        OtherCompletionSends(Withdraw(s, h), h.op, out, tlsParams, weakCas);
      }
    }
  }

  /** The one thing that makes an entry sent is that its write completes without an error. */
  lemma StepSends(s: Sock, a: Action)
    requires Inv(s) && Enabled(s, a) && Timely(s, a)
    ensures SentMore(s.outbox.fates, Step(s, a).outbox.fates, if WriteCompletes(s, a) then {s.outbox.flightAt} else {})
  {
    match a
    case CallOpen(clear) =>
    case CallClose(weakCas) =>
      var t := s.(state := DisconnectRequested, outbox := s.outbox.(closeAt := |s.outbox.enqueued|));
      CheckWritingSends(Enqueue(t, Marker), weakCas);
    case CallCloseNow => EndingSends(s, NO_REASON);
    case CallWrite(text, binary, weakCas) => CheckWritingSends(Enqueue(s, Message(text, binary)), weakCas);
    case CallClearQueue =>
    case TakeEvents =>
    case Completion(h, out, tlsParams, weakCas) => DeliverySends(s, h, out, tlsParams, weakCas);
  }

  /** The positions in the queue's history of the messages whose writes completed. */
  function Completed(s: Sock, acts: seq<Action>): set<nat>
    requires Legal(s, acts)
    decreases |acts|
  {
    if acts == [] then {}
    else (if WriteCompletes(s, acts[0]) then {s.outbox.flightAt} else {}) + Completed(Step(s, acts[0]), acts[1..])
  }

  /** A message is sent by a run exactly if its write completed without an error in the course of it. */
  lemma {:induction false} RunSends(s: Sock, acts: seq<Action>)
    requires Inv(s) && Legal(s, acts)
    ensures SentMore(s.outbox.fates, Exec(s, acts).outbox.fates, Completed(s, acts))
    decreases |acts|
  {
    if acts != [] {
      var t := Step(s, acts[0]);
      StepSends(s, acts[0]);
      StepInv(s, acts[0]);
      RunSends(t, acts[1..]);
    }
  }
}

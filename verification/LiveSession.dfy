/** A run of Lua code and one tick that connects a socket, answers it and reads from it, in every step as the
    module does it. */
module LiveSession {
  import opened SocketMachine
  import opened Registry
  import StrayHandler

  const PING: LuaCall := CallSocket(0, CallWrite("ping", false, true))

  /** The first callback, that of the connected event, writes a message. */
  function Answer(): Reply {
    (k: nat) => if k == 0 then [PING] else []
  }

  /** The live completion of an operation of the first attempt. */
  function Ok(op: Op, text: string): Polled {
    Polled(0, Completion(Handler(op, 1, 1), Outcome.Success(text), true, true))
  }

  /** What the io context completes in the tick: the connection of a socket without TLS, and one read. */
  function Completions(): seq<Polled> {
    [Ok(ResolveHost, ""), Ok(ConnectTcp, ""), Ok(WsHandshake, ""), Ok(ReadMessage, "hello")]
  }

  /** One socket in its first attempt. */
  predicate Trying(m: Lua, op: Op) {
    && m.moduleOpen && m.allSockets == {0} && m.sockets.Keys == {0} && m.gcedSockets == {}
    && m.tableReferences == map[0 := 0] && m.delivered == map[0 := []] && m.deliveries == 0
    && var s := m.sockets[0];
       && s == Initial(false).(state := Connecting, io := s.io) && s.io == Io(1, multiset{Handler(op, 1, 1)}, 1)
  }

  lemma Opened() returns (turns: seq<Turn>)
    ensures Proper(turns) && Trying(After(turns), ResolveHost)
  {
    assert Proper([]) && After([]) == Loaded();
    turns := [];
    StrayHandler.OneMore(turns, LuaTurn(CreateSocket(false)));
    turns := turns + [LuaTurn(CreateSocket(false))];
    var m := After(turns);
    assert m.sockets == map[0 := Initial(false)] && m.allSockets == {0};
    StrayHandler.OneMore(turns, LuaTurn(OpenSocket(0, true)));
    turns := turns + [LuaTurn(OpenSocket(0, true))];
    OpenedSocket();
    assert After(turns).sockets == map[0 := Step(Initial(false), CallOpen(true))];
  }

  lemma OpenedSocket()
    ensures var t := Step(Initial(false), CallOpen(true));
            t == Initial(false).(state := Connecting, io := Io(1, multiset{Handler(ResolveHost, 1, 1)}, 1))
  {
  }

  /** A step of the connection chain. */
  lemma ChainAdvances(m: Lua, op: Op)
    requires Trying(m, op) && (op == ResolveHost || op == ConnectTcp)
    ensures Trying(Completed(m, Ok(op, "")), if op == ResolveHost then ConnectTcp else WsHandshake)
  {
    var s := m.sockets[0];
    var t := Step(s, Ok(op, "").completion);
    assert t.io.handlers == multiset{Handler(if op == ResolveHost then ConnectTcp else WsHandshake, 1, 1)};
  }

  /** The socket is up and has read, and Lua has been told nothing yet. */
  predicate Up(m: Lua, queue: seq<Event>) {
    && m.moduleOpen && m.allSockets == {0} && m.sockets.Keys == {0} && m.gcedSockets == {}
    && m.tableReferences == map[0 := 0] && m.delivered == map[0 := []] && m.deliveries == 0
    && var s := m.sockets[0];
       && s.state == Connected && !s.writing && s.ready && s.inbox.queue == queue
       && s.outbox == Initial(false).outbox
       && s.io.generation == 1 && s.io.epoch == 1 && s.io.handlers == multiset{Handler(ReadMessage, 1, 1)}
  }

  lemma Connects(m: Lua)
    requires Trying(m, WsHandshake)
    ensures Up(Completed(m, Ok(WsHandshake, "")), [ConnectedEvent("Connected")])
  {
    var t := Step(m.sockets[0], Ok(WsHandshake, "").completion);
    assert t.io.handlers == multiset{Handler(ReadMessage, 1, 1)};
  }

  lemma Reads(m: Lua)
    requires Up(m, [ConnectedEvent("Connected")])
    ensures Up(Completed(m, Ok(ReadMessage, "hello")), [ConnectedEvent("Connected"), MessageEvent("hello")])
  {
    var t := Step(m.sockets[0], Ok(ReadMessage, "hello").completion);
    assert t.io.handlers == multiset{Handler(ReadMessage, 1, 1)};
    assert [ConnectedEvent("Connected")] + [MessageEvent("hello")] ==
           [ConnectedEvent("Connected"), MessageEvent("hello")];
  }

  lemma PolledUp(m: Lua)
    requires Trying(m, ResolveHost)
    ensures Up(Poll(m, Completions()), [ConnectedEvent("Connected"), MessageEvent("hello")])
  {
    var c := Completions();
    assert c[..4] == c && c[..3][..2] == c[..2] && c[..2][..1] == c[..1] && c[..1][..0] == [];
    assert c[..3] == [c[0], c[1], c[2]] && c[..2] == [c[0], c[1]] && c[..1] == [c[0]];
    ChainAdvances(m, ResolveHost);
    var m1 := Completed(m, c[0]);
    assert Poll(m, c[..1]) == m1;
    ChainAdvances(m1, ConnectTcp);
    var m2 := Completed(m1, c[1]);
    assert Poll(m, c[..2]) == m2;
    Connects(m2);
    var m3 := Completed(m2, c[2]);
    assert Poll(m, c[..3]) == m3;
    Reads(m3);
  }

  /** Both events have been delivered, and the answer is on its way. */
  predicate Answered(m: Lua) {
    && m.delivered == map[0 := [ConnectedEvent("Connected"), MessageEvent("hello")]]
    && m.sockets.Keys == {0} && m.tableReferences == map[0 := 0]
    && m.sockets[0].outbox.written == [Message("ping", false)] && m.sockets[0].writing
    && m.sockets[0].state == Connected && m.sockets[0].inbox.queue == []
  }

  /** The callback of the connected event and that of the message. */
  lemma Callbacks(m: Lua, events: seq<Event>)
    requires Up(m, []) && events == [ConnectedEvent("Connected"), MessageEvent("hello")]
    ensures Answered(DeliverEvents(m, 0, events, Answer()))
  {
    var c, r := events[0], events[1];
    assert events[..1] == [c] && [c][..0] == [];
    var first := Handed(m, 0, c);
    Answers(first);
    var m1 := Script(first, Answer()(0));
    assert DeliverEvents(m, 0, [c], Answer()) == m1;
    assert [] + [c] == [c] && [c] + [r] == events;
    assert DeliverEvents(m, 0, events, Answer()) == Script(Handed(m1, 0, r), Answer()(m1.deliveries));
  }

  lemma Delivers(m: Lua)
    requires Up(m, [ConnectedEvent("Connected"), MessageEvent("hello")])
    ensures Answered(DeliverEntries(m, [StrayHandler.OnlyEntry()], Answer()))
  {
    var e := StrayHandler.OnlyEntry();
    assert [e][..0] == [];
    assert DeliverEntries(m, [e], Answer()) == DeliverEntry(m, e, Answer());
    Callbacks(Acted(m, 0, TakeEvents), m.sockets[0].inbox.queue);
  }

  lemma Answers(m: Lua)
    requires m.moduleOpen && m.allSockets == {0} && m.sockets.Keys == {0} && m.gcedSockets == {}
    requires m.sockets[0].state == Connected && !m.sockets[0].writing && m.sockets[0].outbox == Initial(false).outbox
    ensures var n := Script(m, Answer()(0));
            && n == m.(sockets := n.sockets) && n.sockets.Keys == {0}
            && n.sockets[0].outbox.written == [Message("ping", false)] && n.sockets[0].writing
            && n.sockets[0].state == Connected && n.sockets[0].inbox == m.sockets[0].inbox
  {
    assert Answer()(0) == [PING] && [PING][..0] == [];
    assert Script(m, [PING]) == Called(m, PING);
    var t := Write(m.sockets[0], "ping", false, true);
    assert [Message("ping", false)][0] == Message("ping", false);
  }

  /** create, open, and a tick whose poll connects the socket and reads once: both events have been delivered,
      and the message that the first callback wrote is on its way. */
  lemma SessionIsDelivered() returns (turns: seq<Turn>)
    ensures Proper(turns)
    ensures Answered(After(turns))
  {
    turns := Opened();
    var m := After(turns);
    PolledUp(m);
    var p := Poll(m, Completions());
    StrayHandler.NothingCollected(p);
    var t := ThinkTurn(Completions(), [StrayHandler.OnlyEntry()], Answer());
    Delivers(p);
    StrayHandler.OneMore(turns, t);
    turns := turns + [t];
  }
}

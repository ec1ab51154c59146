/** A run of Lua code and ticks, from the loading of the module on, in which a handler outlives its socket. It
    shows that what RegistrySafety assumes of the poll is needed of states that do arise. */
module StrayHandler {
  import opened SocketMachine
  import opened Registry
  import RegistrySafety

  function Silent(): Reply {
    (k: nat) => []
  }

  /** The resolve handler of the first attempt. */
  const LATE := Handler(ResolveHost, 1, 1)

  /** The one entry of the list that a tick copies. */
  function OnlyEntry(): Entry {
    Entry(0, 0)
  }

  lemma {:induction false} OneMore(turns: seq<Turn>, t: Turn)
    requires Proper(turns) && Allowed(After(turns), t)
    ensures Proper(turns + [t]) && After(turns + [t]) == Took(After(turns), t)
  {
    assert (turns + [t])[..|turns + [t]| - 1] == turns;
  }

  /** One socket, whose resolve handler is still outstanding although it is disconnected. */
  predicate Left(m: Lua, queue: seq<Event>, references: map<nat, nat>, collected: set<nat>) {
    && m.moduleOpen && m.allSockets == {0} && m.sockets.Keys == {0}
    && m.sockets[0].state == Disconnected && m.sockets[0].inbox.queue == queue
    && m.sockets[0].io.handlers == multiset{LATE}
    && m.tableReferences == references && m.gcedSockets == collected
    && m.strays == 0 && m.dangling == 0
  }

  // ----- the turns -----

  lemma OpenedAndClosed(s: Sock)
    requires s == Initial(false)
    ensures var t := Step(Step(s, CallOpen(true)), CallCloseNow);
            && t.state == Disconnected && t.inbox.queue == [DisconnectedEvent(NO_REASON)]
            && t.io.handlers == multiset{LATE}
  {
  }

  /** create, open, closeNow */
  lemma Abandoned() returns (turns: seq<Turn>)
    ensures Proper(turns) && Left(After(turns), [DisconnectedEvent(NO_REASON)], map[0 := 0], {})
  {
    OpenedAndClosed(Initial(false));
    assert Proper([]) && After([]) == Loaded();
    turns := [];
    OneMore(turns, LuaTurn(CreateSocket(false)));
    turns := turns + [LuaTurn(CreateSocket(false))];
    var m := After(turns);
    assert m.sockets == map[0 := Initial(false)] && m.allSockets == {0};
    OneMore(turns, LuaTurn(OpenSocket(0, true)));
    turns := turns + [LuaTurn(OpenSocket(0, true))];
    m := After(turns);
    assert m.sockets == map[0 := Step(Initial(false), CallOpen(true))] && m.tableReferences == map[0 := 0];
    OneMore(turns, LuaTurn(CallSocket(0, CallCloseNow)));
    turns := turns + [LuaTurn(CallSocket(0, CallCloseNow))];
  }

  lemma NothingCollected(m: Lua)
    requires m.gcedSockets == {}
    ensures DeleteCollected(m) == m
  {
    assert Deletable(m) == {};
  }

  lemma NothingPolled(m: Lua)
    requires m.gcedSockets == {}
    ensures DeleteCollected(Poll(m, [])) == m
  {
    NothingCollected(m);
  }

  /** The tick that delivers the disconnect event. */
  lemma EventDelivered(m: Lua, e: Event)
    requires Left(m, [e], map[0 := 0], {})
    ensures var t := ThinkTurn([], [Entry(0, 0)], Silent()); Allowed(m, t) && Left(Took(m, t), [], map[0 := 0], {})
  {
    NothingPolled(m);
    assert [Entry(0, 0)][..0] == [] && [e][..0] == [];
    assert DeliverEntries(m, [Entry(0, 0)], Silent()) == DeliverEntry(m, Entry(0, 0), Silent());
    var taken := Acted(m, 0, TakeEvents);
    assert Left(taken, [], map[0 := 0], {});
    assert DeliverEvents(taken, 0, [e], Silent()) == Handed(taken, 0, e);
  }

  /** The next tick, which finds nothing to deliver and lets the socket go. */
  lemma ReferenceDropped(m: Lua)
    requires Left(m, [], map[0 := 0], {})
    ensures var t := ThinkTurn([], [Entry(0, 0)], Silent()); Allowed(m, t) && Left(Took(m, t), [], map[], {})
  {
    NothingPolled(m);
    assert [Entry(0, 0)][..0] == [];
    assert DeliverEntries(m, [Entry(0, 0)], Silent()) == DeliverEntry(m, Entry(0, 0), Silent());
    var taken := Acted(m, 0, TakeEvents);
    assert DeliverEvents(taken, 0, [], Silent()) == taken;
    assert map[0 := 0] - {0} == map[];
  }

  lemma Collected(m: Lua)
    requires Left(m, [], map[], {})
    ensures var t := LuaTurn(Collect(0)); Allowed(m, t) && Left(Took(m, t), [], map[], {0})
  {
  }

  /** The tick that deletes the socket. */
  lemma SocketDeleted(m: Lua)
    requires Left(m, [], map[], {0})
    ensures var t := ThinkTurn([], [], Silent());
            && Allowed(m, t)
            && var n := Took(m, t);
               && n.sockets == map[] && n.tableReferences == map[] && n.gcedSockets == {}
               && 0 in n.remains && LATE in n.remains[0].io.handlers && n.strays == 0 && n.dangling == 0
  {
    assert Deletable(m) == {0};
    assert m.sockets - {0} == map[];
  }

  /** The tick whose poll runs the old resolve handler. */
  lemma HandlerRuns(m: Lua)
    requires m.sockets == map[] && m.tableReferences == map[] && m.gcedSockets == {}
    requires 0 in m.remains && LATE in m.remains[0].io.handlers && m.strays == 0 && m.dangling == 0
    ensures var t := ThinkTurn([Polled(0, Completion(LATE, Failure("aborted", false, ""), true, true))], [], Silent());
            Allowed(m, t) && Took(m, t).dangling == 1
  {
    var p := Polled(0, Completion(LATE, Failure("aborted", false, ""), true, true));
    assert [p][..0] == [];
    assert Poll(m, [p]) == Completed(m, p);
    NothingPolled(Completed(m, p));
  }

  /** create, open, closeNow, two ticks, collect, a tick that deletes the socket, and one whose poll runs its
      resolve handler: the handler's guard reads the counter of a socket that is gone. */
  lemma HandlerOutlivesItsSocket() returns (turns: seq<Turn>)
    ensures Proper(turns) && After(turns).dangling == 1 && !NoHandlerOutlivesItsSocket(turns)
  {
    turns := Abandoned();
    EventDelivered(After(turns), DisconnectedEvent(NO_REASON));
    OneMore(turns, ThinkTurn([], [Entry(0, 0)], Silent()));
    turns := turns + [ThinkTurn([], [Entry(0, 0)], Silent())];
    ReferenceDropped(After(turns));
    OneMore(turns, ThinkTurn([], [Entry(0, 0)], Silent()));
    turns := turns + [ThinkTurn([], [Entry(0, 0)], Silent())];
    Collected(After(turns));
    OneMore(turns, LuaTurn(Collect(0)));
    turns := turns + [LuaTurn(Collect(0))];
    SocketDeleted(After(turns));
    OneMore(turns, ThinkTurn([], [], Silent()));
    turns := turns + [ThinkTurn([], [], Silent())];
    HandlerRuns(After(turns));
    var p := Polled(0, Completion(LATE, Failure("aborted", false, ""), true, true));
    OneMore(turns, ThinkTurn([p], [], Silent()));
    turns := turns + [ThinkTurn([p], [], Silent())];
    RegistrySafety.RegistryIsSafe(turns);
  }
}

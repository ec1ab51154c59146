/** The file-level state of the module and the functions that Lua and the game call, loop by loop.

    View() is that state as a value of Registry, and every method is proved against the function there. The
    sockets in memory are values of SocketMachine, keyed by address; module GWSockets proves its class equal
    to those. */
module LuaModules {
  import opened SocketMachine
  import opened Registry
  import opened RegistrySafety

  class LuaModule {
    var moduleOpen: bool
    var sockets: map<nat, Sock>
    var allSockets: set<nat>
    var gcedSockets: set<nat>
    var socketTableReferences: map<nat, nat>
    var nextId: nat
    var nextReference: nat
    // histories
    var delivered: map<nat, seq<Event>>
    var deliveries: nat
    var deleted: multiset<nat>
    var remains: map<nat, Sock>
    var strays: nat
    var dangling: nat

    function View(): Lua
      reads this
    {
      Lua(moduleOpen, sockets, allSockets, gcedSockets, socketTableReferences, nextId, nextReference,
          delivered, deliveries, deleted, remains, strays, dangling)
    }

    /** Between ticks and calls everything that is proved of the registry holds. */
    ghost predicate Valid()
      reads this
    {
      Safe(View(), 0, [])
    }

    constructor ()
      ensures View() == Loaded()
      ensures Valid()
    {
      moduleOpen := true;
      sockets, allSockets, gcedSockets, socketTableReferences := map[], {}, {}, map[];
      nextId, nextReference, deliveries := 0, 0, 0;
      delivered, deleted, remains, strays, dangling := map[], multiset{}, map[], 0, 0;
      new;
      LoadedSafe();
    }

    // ----- calls from Lua -----

    method Act(id: nat, a: Action)
      requires id in sockets && Enabled(sockets[id], a)
      modifies this`sockets
      ensures View() == Acted(old(View()), id, a)
    {
      sockets := sockets[id := Step(sockets[id], a)];
    }

    method CreateWebSocket(tls: bool) returns (id: nat)
      modifies this
      ensures View() == Create(old(View()), tls)
      ensures id == old(nextId)
      ensures old(Valid()) ==> Valid()
    {
      CreatedStaysSafe(View(), tls);
      id := nextId;
      nextId := nextId + 1;
      sockets := sockets[id := Initial(tls)];
      allSockets := allSockets + {id};
      delivered := delivered[id := []];
    }

    lemma CreatedStaysSafe(m: Lua, tls: bool)
      ensures Safe(m, 0, []) ==> Safe(Create(m, tls), 0, [])
    {
      if Safe(m, 0, []) {
        CreateSafe(m, tls, 0, []);
      }
    }

    /** Reports whether it threw the Lua error. */
    method SocketOpen(id: nat, shouldClearQueue: bool) returns (threw: bool)
      requires id in sockets
      modifies this
      ensures View() == OpenFromLua(old(View()), id, shouldClearQueue)
      ensures threw <==> old(sockets)[id].state != Disconnected
      ensures old(Valid()) && id !in old(gcedSockets) ==> Valid()
    {
      OpenedStaysSafe(View(), id, shouldClearQueue);
      if sockets[id].state != Disconnected {
        return true;
      }
      threw := false;
      Pin(id);
      Act(id, CallOpen(shouldClearQueue));
    }

    /** Takes a reference to the socket's table, unless there is one. */
    method Pin(id: nat)
      modifies this`socketTableReferences, this`nextReference
      ensures View() == Pinned(old(View()), id)
    {
      if id !in socketTableReferences {
        socketTableReferences := socketTableReferences[id := nextReference];
        nextReference := nextReference + 1;
      }
    }

    lemma OpenedStaysSafe(m: Lua, id: nat, clear: bool)
      requires id in m.sockets
      ensures Safe(m, 0, []) && id !in m.gcedSockets ==> Safe(OpenFromLua(m, id, clear), 0, [])
    {
      if Safe(m, 0, []) && id !in m.gcedSockets {
        OpenedSafe(m, id, clear, 0, []);
      }
    }

    /** It may run when the module is closed and the socket deleted. */
    method SocketGCFunction(id: nat)
      requires moduleOpen ==> id in sockets
      modifies this
      ensures View() == Finalized(old(View()), id)
      ensures old(Valid()) && (moduleOpen ==> id !in old(socketTableReferences)) ==> Valid()
    {
      FinalizedStaysSafe(View(), id);
      if !moduleOpen {
        return;
      }
      socketTableReferences := socketTableReferences - {id};
      gcedSockets := gcedSockets + {id};
      Act(id, CallCloseNow);
    }

    lemma FinalizedStaysSafe(m: Lua, id: nat)
      requires m.moduleOpen ==> id in m.sockets
      ensures Safe(m, 0, []) && (m.moduleOpen ==> id !in m.tableReferences) ==> Safe(Finalized(m, id), 0, [])
    {
      if Safe(m, 0, []) && (m.moduleOpen ==> id !in m.tableReferences) {
        FinalizedSafe(m, id, 0, []);
      }
    }

    method Call(c: LuaCall)
      modifies this
      ensures View() == Called(old(View()), c)
      ensures old(Valid()) ==> Valid()
    {
      if !Possible(View(), c) {
        return;
      }
      ghost var before := View();
      if Safe(before, 0, []) {
        CalledSafe(before, c, 0, []);
      }
      match c
      case CreateSocket(tls) => var _ := CreateWebSocket(tls);
      case OpenSocket(id, clear) => var _ := SocketOpen(id, clear);
      case CallSocket(id, a) => Act(id, a);
      case Collect(id) => SocketGCFunction(id);
    }

    method RunScript(calls: seq<LuaCall>)
      modifies this
      ensures View() == Script(old(View()), calls)
      ensures old(Valid()) ==> Valid()
    {
      for i := 0 to |calls|
        invariant View() == Script(old(View()), calls[..i])
        invariant old(Valid()) ==> Valid()
      {
        assert calls[..i + 1][..i] == calls[..i];
        Call(calls[i]);
      }
      assert calls[..|calls|] == calls;
    }

    // ----- webSocketThink -----

    /** The io context runs one handler; the last case is one that is not there, or not yet. */
    method CompleteOne(p: Polled)
      modifies this`sockets, this`remains, this`strays, this`dangling
      ensures View() == Completed(old(View()), p)
    {
      if Deliverable(View(), p) {
        Act(p.id, p.completion);
      } else if Stray(View(), p) {
        remains := remains[p.id := Withdraw(remains[p.id], p.completion.h)];
        strays := strays + 1;
        dangling := dangling + 1;
      }
    }

    method PollIo(polled: seq<Polled>)
      modifies this`sockets, this`remains, this`strays, this`dangling
      ensures View() == Poll(old(View()), polled)
    {
      for i := 0 to |polled|
        invariant View() == Poll(old(View()), polled[..i])
      {
        assert polled[..i + 1][..i] == polled[..i];
        CompleteOne(polled[i]);
      }
      assert polled[..|polled|] == polled;
    }

    method DeleteSocket(id: nat)
      requires id in sockets
      modifies this`sockets, this`allSockets, this`gcedSockets, this`deleted, this`remains
      ensures View() == Delete(old(View()), id)
    {
      remains := remains[id := sockets[id]];
      allSockets := allSockets - {id};
      sockets := sockets - {id};
      deleted := deleted + multiset{id};
      gcedSockets := gcedSockets - {id};
    }

    /** The loop that erases from gcedSockets while it iterates over it. */
    method DeleteCollectedSockets()
      requires gcedSockets <= sockets.Keys
      modifies this`sockets, this`allSockets, this`gcedSockets, this`deleted, this`remains
      ensures View() == DeleteCollected(old(View()))
    {
      ghost var start := View();
      ghost var dead := Deletable(start);
      ghost var gone: set<nat> := {};
      var todo := gcedSockets;
      StartWithout(start);
      while todo != {}
        invariant todo <= start.gcedSockets <= start.sockets.Keys
        invariant gone == dead - todo
        invariant View() == Without(start, gone)
        decreases todo
      {
        var socket :| socket in todo;
        Visited(dead, todo, socket);
        todo := todo - {socket};
        gone := DeleteIfDisconnected(socket, start, gone, dead);
      }
      assert gone == dead;
    }

    lemma Visited(dead: set<nat>, todo: set<nat>, socket: nat)
      requires socket in todo
      ensures (dead - todo) + (if socket in dead then {socket} else {}) == dead - (todo - {socket})
    {
    }

    method DeleteIfDisconnected(socket: nat, ghost start: Lua, ghost gone: set<nat>, ghost dead: set<nat>)
      returns (ghost gone': set<nat>)
      requires View() == Without(start, gone) && socket in start.sockets && socket !in gone
      requires socket in dead <==> start.sockets[socket].state == Disconnected
      modifies this`sockets, this`allSockets, this`gcedSockets, this`deleted, this`remains
      ensures gone' == gone + (if socket in dead then {socket} else {}) && View() == Without(start, gone')
    {
      gone' := gone;
      if sockets[socket].state == Disconnected {
        WithoutOneMore(start, gone, socket);
        DeleteSocket(socket);
        gone' := gone + {socket};
      }
    }

    ghost function Without(start: Lua, gone: set<nat>): Lua {
      start.(sockets := start.sockets - gone, allSockets := start.allSockets - gone,
             gcedSockets := start.gcedSockets - gone, deleted := start.deleted + multiset(gone),
             remains := start.remains + Only(start.sockets, gone))
    }

    lemma StartWithout(start: Lua)
      ensures Without(start, {}) == start
    {
    }

    lemma WithoutOneMore(start: Lua, gone: set<nat>, socket: nat)
      requires socket !in gone && socket in start.sockets
      ensures Delete(Without(start, gone), socket) == Without(start, gone + {socket})
    {
      Widen(start, gone, socket);
      WidenRemains(start.remains, start.sockets, gone, socket);
    }

    lemma Widen(start: Lua, gone: set<nat>, socket: nat)
      requires socket !in gone
      ensures start.sockets - gone - {socket} == start.sockets - (gone + {socket})
      ensures start.allSockets - gone - {socket} == start.allSockets - (gone + {socket})
      ensures start.gcedSockets - gone - {socket} == start.gcedSockets - (gone + {socket})
      ensures start.deleted + multiset(gone) + multiset{socket} == start.deleted + multiset(gone + {socket})
    {
    }

    lemma WidenRemains(remains: map<nat, Sock>, sockets: map<nat, Sock>, gone: set<nat>, socket: nat)
      requires socket !in gone && socket in sockets
      ensures (remains + Only(sockets, gone))[socket := sockets[socket]] ==
              remains + Only(sockets, gone + {socket})
    {
    }

    /** The callbacks of one entry's messages. */
    method DeliverMessages(id: nat, messages: seq<Event>, reply: Reply)
      modifies this
      ensures View() == DeliverEvents(old(View()), id, messages, reply)
    {
      for i := 0 to |messages|
        invariant View() == DeliverEvents(old(View()), id, messages[..i], reply)
      {
        assert messages[..i + 1][..i] == messages[..i];
        ghost var before := View();
        var k := deliveries;
        delivered := delivered[id := (if id in delivered then delivered[id] else []) + [messages[i]]];
        deliveries := deliveries + 1;
        assert View() == Handed(before, id, messages[i]);
        RunScript(reply(k));
      }
      assert messages[..|messages|] == messages;
    }

    /** What a turn of the delivery loop comes to, case by case. */
    lemma EntryOutcome(m: Lua, id: nat, reference: nat, reply: Reply)
      requires Safe(m, 0, []) && Usable(m, Entry(id, reference))
      ensures var events, taken := m.sockets[id].inbox.queue, Acted(m, id, TakeEvents);
              var t, n := DeliverEvents(taken, id, events, reply), DeliverEntry(m, Entry(id, reference), reply);
              && Safe(n, 0, []) && id in t.sockets
              && n == if events == [] && m.sockets[id].state != Disconnected then taken
                      else if events == [] && t.sockets[id].state == Disconnected then Unpinned(t, id) else t
    {
      TakenAndDelivered(m, id, reply);
      DeliverEntrySafe(m, Entry(id, reference), reply);
    }

    ghost function Unpinned(m: Lua, id: nat): Lua {
      m.(tableReferences := m.tableReferences - {id})
    }

    /** The socket is disconnected and had no messages. */
    method LetGo(socket: nat)
      modifies this`socketTableReferences
      ensures View() == Unpinned(old(View()), socket)
    {
      socketTableReferences := socketTableReferences - {socket};
    }

    /** One turn of the delivery loop. */
    method DeliverTo(socket: nat, tableReference: nat, reply: Reply)
      requires Valid() && Usable(View(), Entry(socket, tableReference))
      modifies this
      ensures View() == DeliverEntry(old(View()), Entry(socket, tableReference), reply)
      ensures Valid()
    {
      EntryOutcome(View(), socket, tableReference, reply);
      ghost var want := DeliverEntry(View(), Entry(socket, tableReference), reply);
      var messages := sockets[socket].inbox.queue;
      Act(socket, TakeEvents);
      if messages == [] && sockets[socket].state != Disconnected {
        assert View() == want;
        return;
      }
      DeliverMessages(socket, messages, reply);
      // A callback might have put more messages, so the socket is let go only when there were none.
      if sockets[socket].state == Disconnected && messages == [] {
        LetGo(socket);
      }
      assert View() == want;
    }

    /** The loop over the copy of the references. */
    method DeliverToEach(entries: seq<Entry>, reply: Reply)
      requires Valid() && AllUsable(View(), entries) && Distinct(entries)
      modifies this
      ensures View() == DeliverEntries(old(View()), entries, reply)
      ensures Valid()
    {
      ghost var start := View();
      for i := 0 to |entries|
        invariant View() == DeliverEntries(start, entries[..i], reply)
        invariant Valid()
      {
        assert entries[..i + 1][..i] == entries[..i];
        EntryIsUsable(start, entries, i, reply);
        DeliverTo(entries[i].id, entries[i].reference, reply);
      }
      assert entries[..|entries|] == entries;
    }

    /** A tick. `entries` is the copy of the references, in the order of the map's iteration; `polled` is what
        the io context completes, and `reply` what each callback does. */
    method WebSocketThink(polled: seq<Polled>, entries: seq<Entry>, reply: Reply)
      requires Valid() && Lists(entries, socketTableReferences)
      modifies this
      ensures View() == Think(old(View()), polled, entries, reply)
      ensures Valid()
    {
      CopyIsUsable(View(), polled, entries);
      PollSafe(View(), polled);
      PollIo(polled);
      DeleteCollectedSockets();
      DeliverToEach(entries, reply);
    }

    lemma CopyIsUsable(m: Lua, polled: seq<Polled>, entries: seq<Entry>)
      requires Safe(m, 0, []) && Lists(entries, m.tableReferences)
      ensures Safe(DeleteCollected(Poll(m, polled)), 0, [])
      ensures AllUsable(DeleteCollected(Poll(m, polled)), entries) && Distinct(entries)
    {
      PollSafe(m, polled);
      PollKeepsReferences(m, polled);
      DeleteCollectedSafe(Poll(m, polled));
    }

    /** When its turn comes, an entry of the copy still names a socket in memory and a reference in use. */
    lemma EntryIsUsable(m: Lua, entries: seq<Entry>, i: nat, reply: Reply)
      requires Safe(m, 0, []) && AllUsable(m, entries) && Distinct(entries) && i < |entries|
      ensures Usable(DeliverEntries(m, entries[..i], reply), entries[i])
    {
      DeliverEntriesSafe(m, entries[..i], reply);
      assert entries[i].id !in Ids(entries[..i]);
      assert Usable(m, entries[i]);
    }

    // ----- GMOD_MODULE_CLOSE -----

    method CloseReferenced(ids: seq<nat>, weakCas: bool)
      requires forall id :: id in ids ==> id in sockets
      modifies this`sockets
      ensures View() == CloseEach(old(View()), ids, weakCas)
    {
      for i := 0 to |ids|
        invariant View() == CloseEach(old(View()), ids[..i], weakCas)
        invariant forall id :: id in ids ==> id in sockets
      {
        assert ids[..i + 1][..i] == ids[..i];
        Act(ids[i], CallClose(weakCas));
      }
      assert ids[..|ids|] == ids;
    }

    ghost function WithoutClosed(start: Lua, gone: set<nat>): Lua {
      start.(sockets := start.sockets - gone, deleted := start.deleted + multiset(gone),
             remains := start.remains + ClosedNow(start.sockets, gone))
    }

    lemma StartWithoutClosed(start: Lua)
      ensures WithoutClosed(start, {}) == start
    {
    }

    lemma ClosedOneMore(start: Lua, gone: set<nat>, socket: nat)
      requires socket !in gone && socket in start.sockets
      ensures CloseAndDeleted(WithoutClosed(start, gone), socket) == WithoutClosed(start, gone + {socket})
    {
      Widen(start, gone, socket);
      WidenClosed(start.remains, start.sockets, gone, socket);
    }

    lemma WidenClosed(remains: map<nat, Sock>, sockets: map<nat, Sock>, gone: set<nat>, socket: nat)
      requires socket !in gone && socket in sockets
      ensures (remains + ClosedNow(sockets, gone))[socket := CloseNow(sockets[socket], NO_REASON)] ==
              remains + ClosedNow(sockets, gone + {socket})
    {
    }

    ghost function CloseAndDeleted(m: Lua, socket: nat): Lua
      requires socket in m.sockets
    {
      m.(sockets := m.sockets - {socket}, deleted := m.deleted + multiset{socket},
         remains := m.remains[socket := CloseNow(m.sockets[socket], NO_REASON)])
    }

    method CloseAndDelete(socket: nat)
      requires socket in sockets
      modifies this`sockets, this`deleted, this`remains
      ensures View() == CloseAndDeleted(old(View()), socket)
    {
      Act(socket, CallCloseNow);
      remains := remains[socket := sockets[socket]];
      sockets := sockets - {socket};
      deleted := deleted + multiset{socket};
    }

    method DeleteEverySocket()
      requires allSockets == sockets.Keys
      modifies this`sockets, this`deleted, this`remains
      ensures View() == WithoutClosed(old(View()), allSockets)
    {
      ghost var last := View();
      ghost var gone: set<nat> := {};
      var todo := allSockets;
      StartWithoutClosed(last);
      while todo != {}
        invariant todo <= last.allSockets == last.sockets.Keys
        invariant gone == last.allSockets - todo
        invariant View() == WithoutClosed(last, gone)
        decreases todo
      {
        var socket :| socket in todo;
        Visited(last.allSockets, todo, socket);
        todo := todo - {socket};
        ClosedOneMore(last, gone, socket);
        CloseAndDelete(socket);
        gone := gone + {socket};
      }
      assert gone == last.allSockets;
    }

    method DeleteAllSockets()
      requires allSockets == sockets.Keys
      modifies this
      ensures View() == DeleteAll(old(View()))
    {
      DeleteEverySocket();
      allSockets := {};
      socketTableReferences := map[];
      gcedSockets := {};
    }

    /** `ids` is the order in which the references are iterated, `polled` what completes in the last second. */
    method ModuleClose(ids: seq<nat>, polled: seq<Polled>, weakCas: bool)
      requires Valid() && forall id :: id in ids <==> id in socketTableReferences
      modifies this
      ensures View() == CloseModule(old(View()), ids, polled, weakCas)
      ensures allSockets == {} && sockets == map[]
    {
      ghost var before := View();
      ClosingDeletes(before, ids, polled, weakCas);
      moduleOpen := false;
      CloseEachSafe(View(), ids, weakCas);
      PollSafe(CloseEach(View(), ids, weakCas), polled);
      CloseReferenced(ids, weakCas);
      PollIo(polled);
      DeleteAllSockets();
    }
  }
}

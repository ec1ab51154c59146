/** What a tick and the closing of the module do to each socket, said of the sockets and not of the loops. */
module TickLaws {
  import opened SocketMachine
  import opened HandlerAccounting
  import opened SocketHistory
  import opened SocketInvariant
  import opened Registry
  import opened RegistrySafety

  // ----- what Lua calls does what it says -----

  /** The operation that a call is, on the socket that it names. */
  function OnSocket(c: LuaCall): Action
    requires !c.CreateSocket?
  {
    match c
    case OpenSocket(_, clear) => CallOpen(clear)
    case CallSocket(_, a) => a
    case Collect(_) => CallCloseNow
  }

  lemma OpenRuns(m: Lua, id: nat, clear: bool)
    requires id in m.sockets && (id !in m.tableReferences ==> AtRest(m.sockets[id]))
    ensures var n := OpenFromLua(m, id, clear);
            && n == m.(sockets := n.sockets, tableReferences := n.tableReferences, nextReference := n.nextReference)
            && n.sockets == m.sockets[id := Step(m.sockets[id], CallOpen(clear))]
            && n.tableReferences.Keys == m.tableReferences.Keys + {id}
  {
  }

  lemma CollectRuns(m: Lua, id: nat)
    requires m.moduleOpen && id in m.sockets && id !in m.tableReferences
    ensures var n := Finalized(m, id);
            && n == m.(sockets := n.sockets, gcedSockets := m.gcedSockets + {id})
            && n.sockets == m.sockets[id := Step(m.sockets[id], CallCloseNow)]
  {
    assert m.tableReferences - {id} == m.tableReferences;
  }

  lemma CreateRuns(m: Lua, tls: bool)
    requires Registered(m) && Counted(m)
    ensures var n := Create(m, tls);
            && m.nextId !in m.sockets && n.sockets == m.sockets[m.nextId := Initial(tls)]
            && n.allSockets == m.allSockets + {m.nextId}
            && n.tableReferences == m.tableReferences && n.gcedSockets == m.gcedSockets
  {
  }

  /** A call that Lua can make runs its operation on its socket and touches no other; a new socket is of the class
      asked for, under an address not used before. Only open() pins, and only what the collector takes is
      marked. */
  lemma CallRuns(m: Lua, c: LuaCall, busy: nat, batch: seq<Event>)
    requires Safe(m, busy, batch) && Possible(m, c) && m.moduleOpen
    ensures var n := Called(m, c);
            && (c.CreateSocket? ==>
                  m.nextId !in m.sockets && n.sockets == m.sockets[m.nextId := Initial(c.tls)]
                  && n.allSockets == m.allSockets + {m.nextId})
            && (!c.CreateSocket? ==>
                  c.id in m.sockets && n.allSockets == m.allSockets && Enabled(m.sockets[c.id], OnSocket(c))
                  && n.sockets == m.sockets[c.id := Step(m.sockets[c.id], OnSocket(c))])
            && n.tableReferences.Keys == m.tableReferences.Keys + (if c.OpenSocket? then {c.id} else {})
            && n.gcedSockets == m.gcedSockets + (if c.Collect? then {c.id} else {})
  {
    match c
    case CreateSocket(tls) => CreateRuns(m, tls);
    case OpenSocket(id, clear) => OpenRuns(m, id, clear);
    case CallSocket(id, a) =>
    case Collect(id) => CollectRuns(m, id);
  }

  // ----- the poll runs each socket -----

  /** The completions that the poll has for a socket, in order, each if it is outstanding and timely at its
      turn. */
  function Completions(s: Sock, polled: seq<Polled>, id: nat): (acts: seq<Action>)
    ensures Legal(s, acts)
    decreases |polled|
  {
    if polled == [] then []
    else
      var before, p := Completions(s, polled[..|polled| - 1], id), polled[|polled| - 1];
      var now := Exec(s, before);
      if p.id == id && p.completion.Completion? && Enabled(now, p.completion) && Timely(now, p.completion) then
        ExecAppend(s, before, p.completion);
        before + [p.completion]
      else before
  }

  /** Every socket in memory has run exactly those, and nothing else has changed but what is known of the
      deleted ones. */
  lemma {:induction false} PollRuns(m: Lua, polled: seq<Polled>)
    ensures var n := Poll(m, polled);
            && n.sockets.Keys == m.sockets.Keys
            && (forall id :: id in m.sockets ==>
                  n.sockets[id] == Exec(m.sockets[id], Completions(m.sockets[id], polled, id)))
            && n == m.(sockets := n.sockets, remains := n.remains, strays := n.strays, dangling := n.dangling)
    decreases |polled|
  {
    if polled != [] {
      var k := |polled| - 1;
      var before, p := Poll(m, polled[..k]), polled[k];
      PollRuns(m, polled[..k]);
      forall id | id in m.sockets
        ensures Poll(m, polled).sockets[id] == Exec(m.sockets[id], Completions(m.sockets[id], polled, id))
      {
        var acts := Completions(m.sockets[id], polled[..k], id);
        if p.id == id && Deliverable(before, p) {
          ExecAppend(m.sockets[id], acts, p.completion);
        }
      }
    }
  }

  // ----- the tick delivers -----

  /** The socket's events that were queued are still queued, in front, and none has been delivered. */
  predicate Waits(m: Lua, n: Lua, id: nat) {
    && id in m.sockets && id in n.sockets && m.sockets[id].inbox.queue <= n.sockets[id].inbox.queue
    && id in m.delivered && id in n.delivered && n.delivered[id] == m.delivered[id]
  }

  lemma ActedWaits(m: Lua, other: nat, a: Action, id: nat)
    requires Waits(m, m, id) && other in m.sockets && Enabled(m.sockets[other], a) && !a.TakeEvents?
    ensures Waits(m, Acted(m, other, a), id)
  {
    StepRemembers(m.sockets[other], a);
  }

  lemma CalledWaits(m: Lua, c: LuaCall, id: nat)
    requires Waits(m, m, id) && Counted(m) && Registered(m)
    ensures Waits(m, Called(m, c), id)
  {
    if Possible(m, c) {
      match c
      case CreateSocket(tls) =>
      case OpenSocket(other, clear) =>
        if m.sockets[other].state == Disconnected {
          ActedWaits(Pinned(m, other), other, CallOpen(clear), id);
        }
      case CallSocket(other, a) => ActedWaits(m, other, a, id);
      case Collect(other) => FinalizedWaits(m, other, id);
    }
  }

  lemma FinalizedWaits(m: Lua, other: nat, id: nat)
    requires Waits(m, m, id) && (m.moduleOpen ==> other in m.sockets)
    ensures Waits(m, Finalized(m, other), id)
  {
    if m.moduleOpen {
      ActedWaits(m.(tableReferences := m.tableReferences - {other}, gcedSockets := m.gcedSockets + {other}),
                 other, CallCloseNow, id);
    }
  }

  lemma WaitsTransitively(m: Lua, n: Lua, o: Lua, id: nat)
    requires Waits(m, n, id) && Waits(n, o, id)
    ensures Waits(m, o, id)
  {
  }

  lemma {:induction false} ScriptWaits(m: Lua, calls: seq<LuaCall>, id: nat, busy: nat, batch: seq<Event>)
    requires Safe(m, busy, batch) && (batch != [] ==> busy < m.nextId) && id in m.sockets
    ensures Waits(m, Script(m, calls), id)
    decreases |calls|
  {
    if calls != [] {
      var k := |calls| - 1;
      var before := Script(m, calls[..k]);
      ScriptWaits(m, calls[..k], id, busy, batch);
      ScriptSafe(m, calls[..k], busy, batch);
      CalledWaits(before, calls[k], id);
      WaitsTransitively(m, before, Script(m, calls), id);
    }
  }

  /** The callbacks of another socket's events leave a socket's own waiting. */
  lemma {:induction false} DeliverEventsWaits(m: Lua, busy: nat, batch: seq<Event>, events: seq<Event>,
                                              rest: seq<Event>, reply: Reply, id: nat)
    requires Safe(m, busy, batch) && busy in m.sockets && batch == events + rest && id in m.sockets && id != busy
    ensures Waits(m, DeliverEvents(m, busy, events, reply), id)
    decreases |events|
  {
    if events != [] {
      var k := |events| - 1;
      var more := [events[k]] + rest;
      LastOfBatch(events, rest);
      DeliverEventsWaits(m, busy, batch, events[..k], more, reply, id);
      DeliverEventsSafe(m, busy, batch, events[..k], more, reply);
      var before := DeliverEvents(m, busy, events[..k], reply);
      HandedSafe(before, busy, events[k], rest);
      CallbackWaits(before, busy, events[k], rest, reply, id);
      WaitsTransitively(m, before, DeliverEvents(m, busy, events, reply), id);
    }
  }

  lemma {:induction false} CallbackWaits(m: Lua, busy: nat, e: Event, rest: seq<Event>, reply: Reply, id: nat)
    requires Safe(Handed(m, busy, e), busy, rest) && Safe(m, busy, [e] + rest)
    requires busy in m.sockets && id in m.sockets && id != busy
    ensures Waits(m, Script(Handed(m, busy, e), reply(m.deliveries)), id)
  {
    ScriptWaits(Handed(m, busy, e), reply(m.deliveries), id, busy, rest);
    assert Waits(m, Handed(m, busy, e), id);
    WaitsTransitively(m, Handed(m, busy, e), Script(Handed(m, busy, e), reply(m.deliveries)), id);
  }

  /** Letting a socket go changes no socket and delivers nothing. */
  lemma {:induction false} EntryComesTo(m: Lua, e: Entry, reply: Reply)
    requires Usable(m, e)
    requires var taken := Acted(m, e.id, TakeEvents);
             e.id in DeliverEvents(taken, e.id, m.sockets[e.id].inbox.queue, reply).sockets
    ensures var t := DeliverEvents(Acted(m, e.id, TakeEvents), e.id, m.sockets[e.id].inbox.queue, reply);
            var n := DeliverEntry(m, e, reply);
            n.sockets == t.sockets && n.delivered == t.delivered
  {
  }

  lemma {:induction false} StaysInMemory(m: Lua, id: nat, reply: Reply)
    requires Safe(m, 0, []) && id in m.sockets
    ensures id in DeliverEvents(Acted(m, id, TakeEvents), id, m.sockets[id].inbox.queue, reply).sockets
  {
    TakenAndDelivered(m, id, reply);
  }

  lemma {:induction false} EventsWait(m: Lua, busy: nat, q: seq<Event>, reply: Reply, id: nat)
    requires Safe(m, busy, q) && busy in m.sockets && id in m.sockets && id != busy
    ensures Waits(m, DeliverEvents(m, busy, q, reply), id)
  {
    NothingAfter(q);
    DeliverEventsSafe(m, busy, q, q, [], reply);
    DeliverEventsWaits(m, busy, q, q, [], reply, id);
  }

  lemma {:induction false} DeliverEntryWaits(m: Lua, e: Entry, reply: Reply, id: nat)
    requires Safe(m, 0, []) && Usable(m, e) && id in m.sockets && id != e.id
    ensures Waits(m, DeliverEntry(m, e, reply), id)
  {
    var q, taken := m.sockets[e.id].inbox.queue, Acted(m, e.id, TakeEvents);
    TakenSafe(m, e.id);
    StaysInMemory(m, e.id, reply);
    EntryComesTo(m, e, reply);
    EventsWait(taken, e.id, q, reply, id);
    assert Waits(m, taken, id);
    WaitsTransitively(m, taken, DeliverEvents(taken, e.id, q, reply), id);
  }

  /** The socket's queue, as it was, has been delivered; or is waiting. */
  predicate Served(m: Lua, n: Lua, id: nat, turn: bool) {
    && id in m.sockets && id in m.delivered && id in n.sockets && id in n.delivered
    && if turn then m.delivered[id] + m.sockets[id].inbox.queue <= n.delivered[id] else Waits(m, n, id)
  }

  lemma {:induction false} LastServes(m: Lua, before: Lua, last: Entry, reply: Reply, id: nat, turn: bool)
    requires Safe(before, 0, []) && Usable(before, last) && Served(m, before, id, turn) && (turn ==> last.id != id)
    ensures Served(m, DeliverEntry(before, last, reply), id, turn || last.id == id)
  {
    if last.id == id {
      DeliverEntrySafe(before, last, reply);
      QueueGrew(m.delivered[id], m.sockets[id].inbox.queue, before.sockets[id].inbox.queue);
    } else {
      DeliverEntryWaits(before, last, reply, id);
      if !turn {
        WaitsTransitively(m, before, DeliverEntry(before, last, reply), id);
      }
    }
  }

  /** What was queued for a socket when the loop began is delivered by the end of it, in order, if the socket
      is one of its entries. */
  lemma {:induction false} EntriesDeliver(m: Lua, entries: seq<Entry>, reply: Reply, id: nat)
    requires Safe(m, 0, []) && AllUsable(m, entries) && Distinct(entries) && id in m.sockets
    ensures Served(m, DeliverEntries(m, entries, reply), id, id in Ids(entries))
    decreases |entries|
  {
    if entries == [] {
      assert id in m.delivered;
    } else {
      var k := |entries| - 1;
      FrontOfEntries(m, entries);
      EntriesDeliver(m, entries[..k], reply, id);
      LastIsUsable(m, entries, reply);
      ServedFurther(m, DeliverEntries(m, entries[..k], reply), entries, reply, id);
    }
  }

  lemma {:induction false} ServedFurther(m: Lua, before: Lua, entries: seq<Entry>, reply: Reply, id: nat)
    requires entries != [] && before == DeliverEntries(m, entries[..|entries| - 1], reply)
    requires Safe(before, 0, []) && Usable(before, entries[|entries| - 1])
    requires entries[|entries| - 1].id !in Ids(entries[..|entries| - 1])
    requires Served(m, before, id, id in Ids(entries[..|entries| - 1]))
    ensures Served(m, DeliverEntries(m, entries, reply), id, id in Ids(entries))
  {
    var last := entries[|entries| - 1];
    IdsOfMore(entries);
    LastServes(m, before, last, reply, id, id in Ids(entries[..|entries| - 1]));
  }

  lemma {:induction false} FrontOfEntries(m: Lua, entries: seq<Entry>)
    requires AllUsable(m, entries) && Distinct(entries) && entries != []
    ensures AllUsable(m, entries[..|entries| - 1]) && Distinct(entries[..|entries| - 1])
  {
  }

  lemma {:induction false} LastIsUsable(m: Lua, entries: seq<Entry>, reply: Reply)
    requires Safe(m, 0, []) && AllUsable(m, entries) && Distinct(entries) && entries != []
    ensures var k := |entries| - 1; var before := DeliverEntries(m, entries[..k], reply);
            Safe(before, 0, []) && Usable(before, entries[k]) && entries[k].id !in Ids(entries[..k])
  {
    var k := |entries| - 1;
    DeliverEntriesSafe(m, entries[..k], reply);
    assert entries[k].id !in Ids(entries[..k]);
    assert Usable(m, entries[k]);
  }

  lemma IdsOfMore(entries: seq<Entry>)
    requires entries != []
    ensures Ids(entries) == Ids(entries[..|entries| - 1]) + {entries[|entries| - 1].id}
  {
    assert entries == entries[..|entries| - 1] + [entries[|entries| - 1]];
  }

  lemma QueueGrew(told: seq<Event>, before: seq<Event>, after: seq<Event>)
    requires before <= after
    ensures told + before <= told + after
  {
  }

  /** The state in which the loop over the copied list starts. */
  lemma {:induction false} LoopStarts(m: Lua, polled: seq<Polled>, entries: seq<Entry>)
    requires Safe(m, 0, []) && Lists(entries, DeleteCollected(Poll(m, polled)).tableReferences)
    ensures var p, d := Poll(m, polled), DeleteCollected(Poll(m, polled));
            && Safe(p, 0, []) && Safe(d, 0, []) && AllUsable(d, entries) && Distinct(entries)
            && d.tableReferences == p.tableReferences == m.tableReferences && d.delivered == m.delivered
            && p.gcedSockets == m.gcedSockets && d.allSockets == m.allSockets - m.gcedSockets
            && d.sockets == p.sockets - m.gcedSockets
            && forall id :: id in m.tableReferences ==> id in p.sockets && id !in m.gcedSockets
  {
    PollSafe(m, polled);
    PollRuns(m, polled);
    DeleteCollectedSafe(Poll(m, polled));
  }

  /** A tick delivers, for every socket whose table is pinned, all that was queued after the poll, in order; what
      more it delivers of that socket was put by the callbacks of the tick. */
  lemma {:induction false} TickDelivers(m: Lua, polled: seq<Polled>, entries: seq<Entry>, reply: Reply, id: nat)
    requires Safe(m, 0, []) && Lists(entries, DeleteCollected(Poll(m, polled)).tableReferences)
    requires id in m.tableReferences
    ensures var p, n := Poll(m, polled), Think(m, polled, entries, reply);
            && id in p.sockets && id in m.delivered && id in n.delivered && id in n.sockets
            && m.delivered[id] + p.sockets[id].inbox.queue <= n.delivered[id]
  {
    var d := DeleteCollected(Poll(m, polled));
    LoopStarts(m, polled, entries);
    ListedId(entries, d.tableReferences, id);
    EntriesDeliver(d, entries, reply, id);
  }

  /** It deletes every socket that the collector had taken before, once, and no other. */
  lemma {:induction false} TickDeletes(m: Lua, polled: seq<Polled>, entries: seq<Entry>, reply: Reply)
    requires Safe(m, 0, []) && Lists(entries, DeleteCollected(Poll(m, polled)).tableReferences)
    ensures var n := Think(m, polled, entries, reply);
            && (forall id :: id in m.gcedSockets ==> id !in n.sockets && n.deleted[id] == 1)
            && m.allSockets - m.gcedSockets <= n.allSockets
  {
    var d, n := DeleteCollected(Poll(m, polled)), Think(m, polled, entries, reply);
    LoopStarts(m, polled, entries);
    PollKeepsReferences(m, polled);
    DeliverEntriesSafe(d, entries, reply);
    forall id | id in m.gcedSockets ensures id !in n.sockets && n.deleted[id] == 1 {
      GoneForGood(m, d, n, id);
    }
  }

  lemma {:induction false} GoneForGood(m: Lua, d: Lua, n: Lua, id: nat)
    requires Counted(m) && Counted(d) && Counted(n) && Registered(n) && d.nextId == m.nextId && n.deleted == d.deleted
    requires id in m.allSockets && id !in d.allSockets
    ensures id !in n.sockets && n.deleted[id] == 1
  {
  }

  // ----- the tick lets go -----

  /** Callbacks that call nothing. */
  ghost predicate Quiet(reply: Reply) {
    forall k: nat :: reply(k) == []
  }

  lemma {:induction false} QuietEvents(m: Lua, id: nat, events: seq<Event>, reply: Reply)
    requires Quiet(reply)
    ensures var n := DeliverEvents(m, id, events, reply);
            n.sockets == m.sockets && n.tableReferences == m.tableReferences
    decreases |events|
  {
    if events != [] {
      var k := |events| - 1;
      QuietEvents(m, id, events[..k], reply);
      assert reply(DeliverEvents(m, id, events[..k], reply).deliveries) == [];
    }
  }

  lemma {:induction false} QuietEntry(m: Lua, e: Entry, reply: Reply)
    requires Usable(m, e) && Quiet(reply)
    ensures var n := DeliverEntry(m, e, reply);
            && n.sockets == m.sockets[e.id := Step(m.sockets[e.id], TakeEvents)]
            && n.tableReferences == if AtRest(m.sockets[e.id]) then m.tableReferences - {e.id} else m.tableReferences
  {
    QuietEvents(Acted(m, e.id, TakeEvents), e.id, m.sockets[e.id].inbox.queue, reply);
  }

  lemma {:induction false} QuietEntries(m: Lua, entries: seq<Entry>, reply: Reply)
    requires AllUsable(m, entries) && Distinct(entries) && Quiet(reply)
    ensures var n := DeliverEntries(m, entries, reply);
            && (forall id :: id in m.sockets && id !in Ids(entries) ==>
                  id in n.sockets && n.sockets[id] == m.sockets[id])
            && (forall id :: id in n.tableReferences <==>
                  id in m.tableReferences && (id in Ids(entries) ==> !AtRest(m.sockets[id])))
            && (forall id :: id in n.tableReferences ==> n.tableReferences[id] == m.tableReferences[id])
    decreases |entries|
  {
    if entries != [] {
      var k := |entries| - 1;
      var before := DeliverEntries(m, entries[..k], reply);
      QuietEntries(m, entries[..k], reply);
      IdsOfMore(entries);
      assert Usable(m, entries[k]) && entries[k].id !in Ids(entries[..k]);
      QuietEntry(before, entries[k], reply);
    }
  }

  /** When the callbacks call nothing, a tick lets go of exactly the sockets that are disconnected after the poll
      and have nothing more to tell. */
  lemma {:induction false} TickLetsGo(m: Lua, polled: seq<Polled>, entries: seq<Entry>, reply: Reply, id: nat)
    requires Safe(m, 0, []) && Lists(entries, DeleteCollected(Poll(m, polled)).tableReferences) && Quiet(reply)
    requires id in m.tableReferences
    ensures var p, n := Poll(m, polled), Think(m, polled, entries, reply);
            id in p.sockets && (id in n.tableReferences <==> !AtRest(p.sockets[id]))
  {
    var d := DeleteCollected(Poll(m, polled));
    LoopStarts(m, polled, entries);
    ListedId(entries, d.tableReferences, id);
    QuietEntries(d, entries, reply);
  }

  lemma ListedId(entries: seq<Entry>, references: map<nat, nat>, id: nat)
    requires Lists(entries, references) && id in references
    ensures id in Ids(entries)
  {
    var i :| 0 <= i < |entries| && entries[i].id == id;
    assert entries[i] in entries;
  }

  // ----- closing the module -----

  lemma {:induction false} ClosedOnce(s: Sock, weakCas: bool)
    ensures Step(Step(s, CallClose(weakCas)), CallClose(weakCas)) == Step(s, CallClose(weakCas))
    ensures var t := Step(s, CallClose(weakCas)); t.state != Connecting && t.state != Connected
  {
  }

  /** close() is called on each of the sockets: each is what one close() makes of it, and none of them is still
      connecting or connected. The others are as they were. */
  lemma {:induction false} EachIsClosed(m: Lua, ids: seq<nat>, weakCas: bool)
    requires forall id :: id in ids ==> id in m.sockets
    ensures var n := CloseEach(m, ids, weakCas);
            && n == m.(sockets := n.sockets) && n.sockets.Keys == m.sockets.Keys
            && (forall id :: id in m.sockets ==>
                  n.sockets[id] == if id in ids then Step(m.sockets[id], CallClose(weakCas)) else m.sockets[id])
            && (forall id :: id in ids ==> n.sockets[id].state != Connecting && n.sockets[id].state != Connected)
    decreases |ids|
  {
    if ids != [] {
      var k := |ids| - 1;
      EachIsClosed(m, ids[..k], weakCas);
      assert ids == ids[..k] + [ids[k]];
      forall id | id in ids {
        ClosedOnce(m.sockets[id], weakCas);
      }
    }
  }

  /** What a socket goes through when the module is closed: close() if its table is pinned, what the last poll has
      for it, and closeNow(). */
  function Ending(s: Sock, pinned: bool, polled: seq<Polled>, id: nat, weakCas: bool): Sock {
    var closed := if pinned then Step(s, CallClose(weakCas)) else s;
    Step(Exec(closed, Completions(closed, polled, id)), CallCloseNow)
  }

  /** Every socket in memory goes through that, and is deleted as it is then: DISCONNECTED, or with its stream being
      closed already. */
  lemma {:induction false} ClosingRuns(m: Lua, ids: seq<nat>, polled: seq<Polled>, weakCas: bool)
    requires Safe(m, 0, []) && forall id :: id in ids ==> id in m.sockets
    ensures var n := CloseModule(m, ids, polled, weakCas);
            && n.sockets == map[] && !n.moduleOpen
            && forall id :: id in m.sockets ==>
                 && id in n.remains
                 && n.remains[id] == Ending(m.sockets[id], id in ids, polled, id, weakCas)
                 && (n.remains[id].state == Disconnected || n.remains[id].state == Disconnecting)
  {
    var c := CloseEach(m.(moduleOpen := false), ids, weakCas);
    EachIsClosed(m.(moduleOpen := false), ids, weakCas);
    PollRuns(c, polled);
    LastStand(Poll(c, polled));
  }

  lemma LastStand(m: Lua)
    requires m.sockets.Keys == m.allSockets
    ensures var n := DeleteAll(m);
            && n.sockets == map[]
            && forall id :: id in m.sockets ==>
                 && id in n.remains && n.remains[id] == Step(m.sockets[id], CallCloseNow)
                 && (n.remains[id].state == Disconnected || n.remains[id].state == Disconnecting)
  {
  }
}

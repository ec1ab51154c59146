/** What holds of the registry after any run of Lua code and ticks, and when the module is closed. */
module RegistrySafety {
  import opened SocketMachine
  import opened HandlerAccounting
  import opened SocketHistory
  import opened SocketInvariant
  import opened Registry
  import EventGrammar

  /** A socket whose table is not pinned: the collector may take it at any time. */
  predicate AtRest(s: Sock) {
    s.state == Disconnected && s.inbox.queue == []
  }

  ghost predicate Registered(m: Lua) {
    && m.sockets.Keys == m.allSockets
    && m.tableReferences.Keys <= m.allSockets
    && m.gcedSockets <= m.allSockets
    && m.tableReferences.Keys !! m.gcedSockets
    && m.dangling == m.strays
  }

  /** Every address handed out is in use or has been deleted once. */
  ghost predicate Counted(m: Lua) {
    && (forall id :: id in m.allSockets ==> id < m.nextId)
    && (forall id: nat :: m.deleted[id] == if id < m.nextId && id !in m.allSockets then 1 else 0)
    && (forall id: nat :: id in m.delivered <==> id < m.nextId)
  }

  ghost predicate Watched(m: Lua) {
    && (forall id :: id in m.sockets ==> Reachable(m.sockets[id]))
    && (forall id :: id in m.sockets && id !in m.tableReferences ==> AtRest(m.sockets[id]))
  }

  /** The events put by a socket are those delivered, then what the tick is delivering, then those queued. */
  predicate Balanced(told: seq<Event>, pending: seq<Event>, i: Inbox) {
    i.emitted == told + pending + i.queue
  }

  function Pending(id: nat, busy: nat, batch: seq<Event>): seq<Event> {
    if id == busy then batch else []
  }

  ghost predicate Booked(m: Lua, busy: nat, batch: seq<Event>) {
    forall id :: id in m.sockets ==>
      id in m.delivered && Balanced(m.delivered[id], Pending(id, busy, batch), m.sockets[id].inbox)
  }

  /** A socket that a tick has deleted has told all: its events are whole words of the grammar. */
  ghost predicate Told(m: Lua) {
    forall id :: id in m.delivered && id !in m.allSockets ==>
      EventGrammar.PhaseOf(m.delivered[id]) == EventGrammar.Boundary
  }

  ghost predicate Safe(m: Lua, busy: nat, batch: seq<Event>) {
    Registered(m) && Counted(m) && Watched(m) && Booked(m, busy, batch) && Told(m)
  }

  /** Nothing happens to what is left of the deleted sockets. */
  predicate SameDead(m: Lua, n: Lua) {
    n.remains == m.remains && n.deleted == m.deleted && n.strays == m.strays && n.moduleOpen == m.moduleOpen
  }

  /** What Lua code cannot undo while a tick runs: no socket is deleted and no reference is dropped. */
  ghost predicate Keeps(m: Lua, n: Lua) {
    && m.allSockets <= n.allSockets
    && (forall id :: id in m.tableReferences ==>
          id in n.tableReferences && n.tableReferences[id] == m.tableReferences[id])
    && (forall id :: id in m.delivered ==> id in n.delivered && n.delivered[id] == m.delivered[id])
    && m.nextId <= n.nextId
    && SameDead(m, n)
  }

  // ----- one socket acts -----

  lemma CallAtRest(s: Sock, a: Action)
    requires AtRest(s) && !a.Completion? && !a.CallOpen?
    ensures AtRest(Step(s, a))
  {
  }

  /** A socket at rest has no live handler, so that what still completes is stale. */
  lemma StaleAtRest(s: Sock, h: Handler, out: Outcome, tlsParams: bool, weakCas: bool)
    requires Inv(s) && AtRest(s) && h in s.io.handlers && s.io.epoch - h.epoch < TWO_TO_32
    ensures Deliver(s, h, out, tlsParams, weakCas) == Withdraw(s, h)
  {
    GuardIsExact(s, h);
    NoneLive(s, h.op);
  }

  lemma AtRestStays(s: Sock, a: Action)
    requires Reachable(s) && AtRest(s) && Enabled(s, a) && Timely(s, a) && !a.CallOpen?
    ensures AtRest(Step(s, a))
  {
    if a.Completion? {
      ReachableInv(s);
      StaleAtRest(s, a.h, a.out, a.tlsParams, a.weakCas);
    } else {
      CallAtRest(s, a);
    }
  }

  lemma StepSound(s: Sock, a: Action)
    requires Reachable(s) && Enabled(s, a) && Timely(s, a)
    ensures Reachable(Step(s, a))
    ensures !a.TakeEvents? ==> InboxGrows(s.inbox, Step(s, a).inbox)
  {
    ReachableStep(s, a);
    StepRemembers(s, a);
  }

  /** A socket gets a new value, and nothing else changes. */
  function Replaced(m: Lua, id: nat, s: Sock): Lua {
    m.(sockets := m.sockets[id := s])
  }

  lemma MoreQueued(told: seq<Event>, pending: seq<Event>, i: Inbox, j: Inbox)
    requires Balanced(told, pending, i) && InboxGrows(i, j)
    ensures Balanced(told, pending, j)
  {
    var news := j.emitted[|i.emitted|..];
    assert j.emitted == i.emitted + news;
    assert told + pending + (i.queue + news) == (told + pending + i.queue) + news;
  }

  lemma {:induction false} ReplacedRegistered(m: Lua, id: nat, s: Sock)
    requires Registered(m) && Counted(m) && Watched(m) && Told(m) && id in m.sockets
    requires Reachable(s) && (id !in m.tableReferences ==> AtRest(s))
    ensures var n := Replaced(m, id, s); Registered(n) && Counted(n) && Watched(n) && Told(n)
  {
    assert Replaced(m, id, s).sockets.Keys == m.sockets.Keys;
  }

  lemma {:induction false} ReplacedBooked(m: Lua, id: nat, s: Sock, busy: nat, batch: seq<Event>, busy': nat,
                                          batch': seq<Event>)
    requires Booked(m, busy, batch) && id in m.sockets
    requires Balanced(m.delivered[id], Pending(id, busy', batch'), s.inbox)
    requires forall x: nat :: x != id ==> Pending(x, busy, batch) == Pending(x, busy', batch')
    ensures Booked(Replaced(m, id, s), busy', batch')
  {
    var n := Replaced(m, id, s);
    forall x | x in n.sockets
      ensures x in n.delivered && Balanced(n.delivered[x], Pending(x, busy', batch'), n.sockets[x].inbox) {
      if x != id {
        assert n.sockets[x] == m.sockets[x];
        assert Balanced(m.delivered[x], Pending(x, busy, batch), m.sockets[x].inbox);
      }
    }
  }

  lemma {:induction false} ReplacedSafe(m: Lua, id: nat, s: Sock, busy: nat, batch: seq<Event>)
    requires Safe(m, busy, batch) && id in m.sockets
    requires Reachable(s) && InboxGrows(m.sockets[id].inbox, s.inbox)
    requires id !in m.tableReferences ==> AtRest(s)
    ensures Safe(Replaced(m, id, s), busy, batch)
  {
    MoreQueued(m.delivered[id], Pending(id, busy, batch), m.sockets[id].inbox, s.inbox);
    ReplacedRegistered(m, id, s);
    ReplacedBooked(m, id, s, busy, batch, busy, batch);
  }

  lemma ActedSafe(m: Lua, id: nat, a: Action, busy: nat, batch: seq<Event>)
    requires Safe(m, busy, batch) && id in m.sockets
    requires Enabled(m.sockets[id], a) && Timely(m.sockets[id], a)
    requires !a.TakeEvents? && (a.CallOpen? ==> id in m.tableReferences)
    ensures Safe(Acted(m, id, a), busy, batch)
  {
    var s := m.sockets[id];
    assert Reachable(s) && (id !in m.tableReferences ==> AtRest(s));
    StepSound(s, a);
    if id !in m.tableReferences {
      AtRestStays(s, a);
    }
    ReplacedSafe(m, id, Step(s, a), busy, batch);
  }

  // ----- Lua code -----

  lemma CreateSafe(m: Lua, tls: bool, busy: nat, batch: seq<Event>)
    requires Safe(m, busy, batch) && (batch != [] ==> busy < m.nextId)
    ensures Safe(Create(m, tls), busy, batch)
  {
    InitialReachable(tls);
    AddedSafe(m, Initial(tls), busy, batch);
  }

  lemma {:induction false} AddedSafe(m: Lua, s: Sock, busy: nat, batch: seq<Event>)
    requires Safe(m, busy, batch) && (batch != [] ==> busy < m.nextId)
    requires Reachable(s) && AtRest(s) && s.inbox.emitted == []
    ensures Safe(m.(sockets := m.sockets[m.nextId := s], allSockets := m.allSockets + {m.nextId},
                    nextId := m.nextId + 1, delivered := m.delivered[m.nextId := []]), busy, batch)
  {
    assert m.nextId !in m.sockets && m.nextId !in m.tableReferences;
    var n := m.(sockets := m.sockets[m.nextId := s], allSockets := m.allSockets + {m.nextId},
                nextId := m.nextId + 1, delivered := m.delivered[m.nextId := []]);
    assert n.sockets.Keys == m.sockets.Keys + {m.nextId};
    AddedCounted(m, n);
    assert Watched(n);
    AddedBooked(m, n, s, busy, batch);
  }

  lemma {:induction false} AddedBooked(m: Lua, n: Lua, s: Sock, busy: nat, batch: seq<Event>)
    requires Booked(m, busy, batch) && m.nextId !in m.sockets && s.inbox == Inbox([], [])
    requires m.nextId == busy ==> batch == []
    requires n.sockets == m.sockets[m.nextId := s] && n.delivered == m.delivered[m.nextId := []]
    ensures Booked(n, busy, batch)
  {
    forall x | x in n.sockets
      ensures x in n.delivered && Balanced(n.delivered[x], Pending(x, busy, batch), n.sockets[x].inbox) {
      if x != m.nextId {
        assert Balanced(m.delivered[x], Pending(x, busy, batch), m.sockets[x].inbox);
      }
    }
  }

  lemma AddedCounted(m: Lua, n: Lua)
    requires Counted(m) && n.deleted == m.deleted && n.nextId == m.nextId + 1
    requires n.allSockets == m.allSockets + {m.nextId} && n.delivered == m.delivered[m.nextId := []]
    ensures Counted(n)
  {
  }

  lemma PinnedSafe(m: Lua, id: nat, busy: nat, batch: seq<Event>)
    requires Safe(m, busy, batch) && id in m.sockets && id !in m.gcedSockets
    ensures Safe(Pinned(m, id), busy, batch)
  {
  }

  lemma OpenedSafe(m: Lua, id: nat, clear: bool, busy: nat, batch: seq<Event>)
    requires Safe(m, busy, batch) && id in m.sockets && id !in m.gcedSockets
    ensures Safe(OpenFromLua(m, id, clear), busy, batch)
  {
    if m.sockets[id].state == Disconnected {
      PinnedSafe(m, id, busy, batch);
      ActedSafe(Pinned(m, id), id, CallOpen(clear), busy, batch);
    }
  }

  lemma FinalizedSafe(m: Lua, id: nat, busy: nat, batch: seq<Event>)
    requires Safe(m, busy, batch) && (m.moduleOpen ==> id in m.sockets && id !in m.tableReferences)
    ensures Safe(Finalized(m, id), busy, batch)
    ensures Finalized(m, id).tableReferences == m.tableReferences
  {
    if m.moduleOpen {
      var n := m.(tableReferences := m.tableReferences - {id}, gcedSockets := m.gcedSockets + {id});
      assert n.tableReferences == m.tableReferences;
      assert Safe(n, busy, batch);
      ActedSafe(n, id, CallCloseNow, busy, batch);
    }
  }

  lemma CalledSafe(m: Lua, c: LuaCall, busy: nat, batch: seq<Event>)
    requires Safe(m, busy, batch) && (batch != [] ==> busy < m.nextId)
    ensures Safe(Called(m, c), busy, batch)
  {
    if Possible(m, c) {
      match c
      case CreateSocket(tls) => CreateSafe(m, tls, busy, batch);
      case OpenSocket(id, clear) => OpenedSafe(m, id, clear, busy, batch);
      case CallSocket(id, a) => ActedSafe(m, id, a, busy, batch);
      case Collect(id) => FinalizedSafe(m, id, busy, batch);
    }
  }

  lemma CalledKeeps(m: Lua, c: LuaCall)
    requires Counted(m)
    ensures Keeps(m, Called(m, c))
  {
  }

  lemma {:induction false} ScriptSafe(m: Lua, calls: seq<LuaCall>, busy: nat, batch: seq<Event>)
    requires Safe(m, busy, batch) && (batch != [] ==> busy < m.nextId)
    ensures Safe(Script(m, calls), busy, batch) && Keeps(m, Script(m, calls))
    decreases |calls|
  {
    if calls != [] {
      var n := |calls| - 1;
      ScriptSafe(m, calls[..n], busy, batch);
      CalledSafe(Script(m, calls[..n]), calls[n], busy, batch);
      CalledKeeps(Script(m, calls[..n]), calls[n]);
    }
  }

  // ----- a tick -----

  lemma {:induction false} PollSafe(m: Lua, polled: seq<Polled>)
    requires Safe(m, 0, [])
    ensures Safe(Poll(m, polled), 0, [])
    decreases |polled|
  {
    if polled != [] {
      var n := |polled| - 1;
      PollSafe(m, polled[..n]);
      CompletedSafe(Poll(m, polled[..n]), polled[n]);
    }
  }

  lemma CompletedSafe(m: Lua, p: Polled)
    requires Safe(m, 0, [])
    ensures Safe(Completed(m, p), 0, [])
  {
    if Deliverable(m, p) {
      ActedSafe(m, p.id, p.completion, 0, []);
    }
  }

  lemma {:induction false} PollKeepsReferences(m: Lua, polled: seq<Polled>)
    ensures Poll(m, polled).tableReferences == m.tableReferences && Poll(m, polled).nextId == m.nextId
    ensures Poll(m, polled).delivered == m.delivered && Poll(m, polled).moduleOpen == m.moduleOpen
    decreases |polled|
  {
    if polled != [] {
      PollKeepsReferences(m, polled[..|polled| - 1]);
    }
  }

  /** Every collected socket is deleted by the next tick, and nothing else is. */
  lemma DeleteCollectedSafe(m: Lua)
    requires Safe(m, 0, [])
    ensures Deletable(m) == m.gcedSockets
    ensures var n := DeleteCollected(m);
            Safe(n, 0, []) && n.gcedSockets == {} && n.tableReferences == m.tableReferences
  {
    assert forall id :: id in m.gcedSockets ==> id in m.sockets && AtRest(m.sockets[id]);
    var gone := Deletable(m);
    assert (m.sockets - gone).Keys == m.allSockets - gone;
    forall id | id in gone ensures EventGrammar.PhaseOf(m.delivered[id]) == EventGrammar.Boundary {
      RestingHasToldAll(m, id);
    }
  }

  lemma RestingHasToldAll(m: Lua, id: nat)
    requires Watched(m) && Booked(m, 0, []) && id in m.sockets && AtRest(m.sockets[id])
    ensures EventGrammar.PhaseOf(m.delivered[id]) == EventGrammar.Boundary
  {
    var s := m.sockets[id];
    ReachableInv(s);
    assert s.inbox.emitted == m.delivered[id];
  }

  lemma OneHanded(told: seq<Event>, e: Event, rest: seq<Event>, i: Inbox)
    requires Balanced(told, [e] + rest, i)
    ensures Balanced(told + [e], rest, i)
  {
    assert told + ([e] + rest) == told + [e] + rest;
  }

  lemma {:induction false} HandedBooked(m: Lua, id: nat, e: Event, rest: seq<Event>)
    requires Booked(m, id, [e] + rest) && id in m.sockets
    ensures Booked(Handed(m, id, e), id, rest)
  {
    var n := Handed(m, id, e);
    forall x | x in n.sockets
      ensures x in n.delivered && Balanced(n.delivered[x], Pending(x, id, rest), n.sockets[x].inbox) {
      assert Balanced(m.delivered[x], Pending(x, id, [e] + rest), m.sockets[x].inbox);
      if x == id {
        OneHanded(m.delivered[id], e, rest, m.sockets[id].inbox);
      }
    }
  }

  lemma {:induction false} HandedSafe(m: Lua, id: nat, e: Event, rest: seq<Event>)
    requires Safe(m, id, [e] + rest) && id in m.sockets
    ensures Safe(Handed(m, id, e), id, rest)
  {
    HandedBooked(m, id, e, rest);
    var n := Handed(m, id, e);
    assert Registered(n) && Counted(n) && Watched(n) && Told(n);
  }

  lemma {:induction false} TakenSafe(m: Lua, id: nat)
    requires Safe(m, 0, []) && id in m.sockets
    ensures Safe(Acted(m, id, TakeEvents), id, m.sockets[id].inbox.queue)
  {
    var s := m.sockets[id];
    assert Reachable(s);
    ReachableStep(s, TakeEvents);
    EmptiedSafe(m, id, Step(s, TakeEvents));
  }

  lemma NowPending(told: seq<Event>, i: Inbox)
    requires Balanced(told, [], i)
    ensures Balanced(told, i.queue, i.(queue := []))
  {
    assert told + [] + i.queue == told + i.queue + [];
  }

  lemma {:induction false} EmptiedSafe(m: Lua, id: nat, s: Sock)
    requires Safe(m, 0, []) && id in m.sockets && Reachable(s)
    requires s == m.sockets[id].(inbox := m.sockets[id].inbox.(queue := []))
    ensures Safe(Replaced(m, id, s), id, m.sockets[id].inbox.queue)
  {
    NowPending(m.delivered[id], m.sockets[id].inbox);
    ReplacedRegistered(m, id, s);
    ReplacedBooked(m, id, s, 0, [], id, m.sockets[id].inbox.queue);
  }

  /** One callback: the event is handed over and then its script runs. */
  lemma CallbackSafe(m: Lua, id: nat, e: Event, batch: seq<Event>, rest: seq<Event>, reply: Reply)
    requires Safe(m, id, batch) && id in m.sockets && batch == [e] + rest
    ensures var n := Script(Handed(m, id, e), reply(m.deliveries));
            && Safe(n, id, rest) && KeepsReferences(m, n)
            && id in n.sockets && id in n.delivered && n.delivered[id] == m.delivered[id] + [e]
  {
    HandedSafe(m, id, e, rest);
    ScriptSafe(Handed(m, id, e), reply(m.deliveries), id, rest);
  }

  /** The callbacks deliver the batch in order, whatever they do. */
  lemma {:induction false} DeliverEventsSafe(m: Lua, id: nat, batch: seq<Event>, events: seq<Event>,
                                             rest: seq<Event>, reply: Reply)
    requires Safe(m, id, batch) && id in m.sockets && batch == events + rest
    ensures var n := DeliverEvents(m, id, events, reply);
            && Safe(n, id, rest) && KeepsReferences(m, n)
            && id in n.sockets && n.delivered[id] == m.delivered[id] + events
    decreases |events|
  {
    if events == [] {
      NothingMore(m.delivered[id], events, rest);
    } else {
      var n := |events| - 1;
      var more := [events[n]] + rest;
      LastOfBatch(events, rest);
      DeliverEventsSafe(m, id, batch, events[..n], more, reply);
      var before := DeliverEvents(m, id, events[..n], reply);
      CallbackSafe(before, id, events[n], more, rest, reply);
      KeepsReferencesTransitively(m, before, Script(Handed(before, id, events[n]), reply(before.deliveries)));
      AppendLast(m.delivered[id], events);
    }
  }

  lemma NothingMore<T>(a: seq<T>, b: seq<T>, c: seq<T>)
    requires b == []
    ensures a + b == a && b + c == c
  {
  }

  lemma LastOfBatch<T>(a: seq<T>, b: seq<T>)
    requires a != []
    ensures a + b == a[..|a| - 1] + ([a[|a| - 1]] + b)
  {
  }

  lemma AppendLast<T>(a: seq<T>, b: seq<T>)
    requires b != []
    ensures a + b == (a + b[..|b| - 1]) + [b[|b| - 1]]
  {
  }

  lemma KeepsReferencesTransitively(m: Lua, n: Lua, o: Lua)
    requires KeepsReferences(m, n) && KeepsReferences(n, o)
    ensures KeepsReferences(m, o)
  {
  }

  ghost predicate KeepsReferences(m: Lua, n: Lua) {
    && m.allSockets <= n.allSockets
    && SameDead(m, n)
    && (forall id :: id in m.tableReferences ==>
          id in n.tableReferences && n.tableReferences[id] == m.tableReferences[id])
  }

  ghost predicate KeepsOtherReferences(m: Lua, n: Lua, ids: set<nat>) {
    && m.allSockets <= n.allSockets
    && SameDead(m, n)
    && (forall id :: id in m.tableReferences && id !in ids ==>
          id in n.tableReferences && n.tableReferences[id] == m.tableReferences[id])
  }

  lemma UnpinnedSafe(m: Lua, id: nat)
    requires Safe(m, 0, []) && id in m.sockets && AtRest(m.sockets[id])
    ensures Safe(m.(tableReferences := m.tableReferences - {id}), 0, [])
  {
  }

  lemma NothingPending(m: Lua, id: nat)
    requires Safe(m, id, [])
    ensures Safe(m, 0, [])
  {
  }

  /** An entry's socket is emptied and its events are delivered. */
  lemma {:induction false} TakenAndDelivered(m: Lua, id: nat, reply: Reply)
    requires Safe(m, 0, []) && id in m.sockets
    ensures var events := m.sockets[id].inbox.queue;
            var t := DeliverEvents(Acted(m, id, TakeEvents), id, events, reply);
            && Safe(t, 0, []) && KeepsReferences(m, t)
            && id in t.sockets && t.delivered[id] == m.delivered[id] + events
  {
    var events, taken := m.sockets[id].inbox.queue, Acted(m, id, TakeEvents);
    TakenSafe(m, id);
    assert KeepsReferences(m, taken);
    NothingAfter(events);
    DeliverEventsSafe(taken, id, events, events, [], reply);
    var t := DeliverEvents(taken, id, events, reply);
    KeepsReferencesTransitively(m, taken, t);
    NothingPending(t, id);
  }

  lemma NothingAfter<T>(a: seq<T>)
    ensures a + [] == a
  {
  }

  /** A socket that is disconnected and had nothing to tell is let go. */
  lemma {:induction false} LetGoSafe(m: Lua, id: nat)
    requires Safe(m, 0, []) && id in m.sockets && m.sockets[id].inbox.queue == []
    requires m.sockets[id].state == Disconnected
    ensures var taken := Acted(m, id, TakeEvents);
            && taken.sockets[id].state == Disconnected
            && Safe(taken.(tableReferences := taken.tableReferences - {id}), 0, [])
  {
    var taken := Acted(m, id, TakeEvents);
    TakenSafe(m, id);
    NothingPending(taken, id);
    UnpinnedSafe(taken, id);
  }

  lemma {:induction false} DeliverEntrySafe(m: Lua, e: Entry, reply: Reply)
    requires Safe(m, 0, []) && Usable(m, e)
    ensures var n := DeliverEntry(m, e, reply);
            && Safe(n, 0, []) && KeepsOtherReferences(m, n, {e.id})
            && n.delivered[e.id] == m.delivered[e.id] + m.sockets[e.id].inbox.queue
  {
    TakenAndDelivered(m, e.id, reply);
    if m.sockets[e.id].inbox.queue == [] && m.sockets[e.id].state == Disconnected {
      LetGoSafe(m, e.id);
    }
  }

  predicate AllUsable(m: Lua, entries: seq<Entry>) {
    forall i :: 0 <= i < |entries| ==> Usable(m, entries[i])
  }

  predicate Distinct(entries: seq<Entry>) {
    forall i, j :: 0 <= i < j < |entries| ==> entries[i].id != entries[j].id
  }

  function Ids(entries: seq<Entry>): set<nat> {
    set e | e in entries :: e.id
  }

  /** Through the whole loop no entry's socket has been deleted and no entry's reference freed. */
  lemma {:induction false} DeliverEntriesSafe(m: Lua, entries: seq<Entry>, reply: Reply)
    requires Safe(m, 0, []) && AllUsable(m, entries) && Distinct(entries)
    ensures var n := DeliverEntries(m, entries, reply);
            Safe(n, 0, []) && KeepsOtherReferences(m, n, Ids(entries))
    decreases |entries|
  {
    if entries != [] {
      var n := |entries| - 1;
      DeliverEntriesSafe(m, entries[..n], reply);
      var before := DeliverEntries(m, entries[..n], reply);
      assert entries[n].id !in Ids(entries[..n]);
      assert Usable(m, entries[n]);
      assert Usable(before, entries[n]);
      DeliverEntrySafe(before, entries[n], reply);
      assert Ids(entries[..n]) <= Ids(entries) && entries[n].id in Ids(entries);
    }
  }

  lemma ThinkSafe(m: Lua, polled: seq<Polled>, entries: seq<Entry>, reply: Reply)
    requires Safe(m, 0, [])
    requires Lists(entries, DeleteCollected(Poll(m, polled)).tableReferences)
    ensures Safe(Think(m, polled, entries, reply), 0, [])
    ensures SameDead(DeleteCollected(Poll(m, polled)), Think(m, polled, entries, reply))
  {
    PollSafe(m, polled);
    DeleteCollectedSafe(Poll(m, polled));
    var d := DeleteCollected(Poll(m, polled));
    assert AllUsable(d, entries);
    DeliverEntriesSafe(d, entries, reply);
  }

  // ----- every run -----

  lemma LoadedSafe()
    ensures Safe(Loaded(), 0, [])
  {
  }

  lemma {:induction false} RunSafe(turns: seq<Turn>)
    requires Proper(turns)
    ensures Safe(After(turns), 0, [])
    decreases |turns|
  {
    if turns == [] {
      LoadedSafe();
    } else {
      var before, t := After(turns[..|turns| - 1]), turns[|turns| - 1];
      RunSafe(turns[..|turns| - 1]);
      match t
      case LuaTurn(c) => CalledSafe(before, c, 0, []);
      case ThinkTurn(polled, entries, reply) => ThinkSafe(before, polled, entries, reply);
    }
  }

  // ----- handlers that outlive their socket -----

  /** The io context has no handler left of a deleted socket. */
  predicate NothingRemains(m: Lua) {
    NothingOutstanding(m.remains, m.remains.Keys)
  }

  lemma {:induction false} PollWithoutStrays(m: Lua, polled: seq<Polled>)
    requires NothingRemains(m)
    ensures SameDead(m, Poll(m, polled)) && (m.dangling == m.strays ==> Poll(m, polled).dangling == m.dangling)
    decreases |polled|
  {
    if polled != [] {
      PollWithoutStrays(m, polled[..|polled| - 1]);
    }
  }

  lemma {:induction false} RunWithoutStrays(turns: seq<Turn>)
    requires Proper(turns) && NoHandlerOutlivesItsSocket(turns)
    ensures NothingRemains(After(turns)) && After(turns).strays == 0
    decreases |turns|
  {
    if turns != [] {
      var before, t := After(turns[..|turns| - 1]), turns[|turns| - 1];
      RunWithoutStrays(turns[..|turns| - 1]);
      RunSafe(turns[..|turns| - 1]);
      match t
      case LuaTurn(c) => CalledKeeps(before, c);
      case ThinkTurn(polled, entries, reply) =>
        PollWithoutStrays(before, polled);
        ThinkSafe(before, polled, entries, reply);
        DeletedWithoutRemains(Poll(before, polled));
    }
  }

  lemma DeletedWithoutRemains(m: Lua)
    ensures NothingRemains(m) && NothingOutstanding(m.sockets, Deletable(m)) ==> NothingRemains(DeleteCollected(m))
    ensures NothingRemains(DeleteCollected(m)) ==> NothingOutstanding(m.sockets, Deletable(m))
    ensures DeleteCollected(m).strays == m.strays
  {
    var gone, n := Deletable(m), DeleteCollected(m);
    if NothingRemains(n) {
      forall id | id in gone ensures m.sockets[id].io.handlers == multiset{} {
        assert id in n.remains && n.remains[id] == m.sockets[id];
      }
    }
  }

  /** The deletions of a tick are clean exactly if no socket that it deletes has a handler outstanding: then,
      and only then, no later poll can run a handler whose socket is gone. */
  lemma DeletionIsCleanIff(m: Lua)
    requires NothingRemains(m) && m.dangling == m.strays
    ensures (forall polled :: Poll(DeleteCollected(m), polled).dangling == m.dangling) <==>
            NothingOutstanding(m.sockets, Deletable(m))
  {
    var n := DeleteCollected(m);
    DeletedWithoutRemains(m);
    if NothingOutstanding(m.sockets, Deletable(m)) {
      forall polled ensures Poll(n, polled).dangling == m.dangling {
        PollWithoutStrays(n, polled);
      }
    } else {
      var id :| id in Deletable(m) && m.sockets[id].io.handlers != multiset{};
      LeftHandlerDangles(m, id);
    }
  }

  lemma LeftHandlerDangles(m: Lua, id: nat)
    requires id in Deletable(m) && m.sockets[id].io.handlers != multiset{}
    ensures exists polled :: Poll(DeleteCollected(m), polled).dangling == m.dangling + 1
  {
    var h :| h in m.sockets[id].io.handlers;
    var n, p := DeleteCollected(m), Polled(id, Completion(h, Success(""), true, true));
    assert id !in n.sockets && n.remains[id] == m.sockets[id];
    assert Stray(n, p);
    assert [p][..0] == [];
    assert Poll(n, [p]) == Completed(n, p);
  }

  // ----- what holds after every run -----

  /** Registry safety. A pointer or reference that dangles is used only by a handler that outlived its socket,
      which does not happen if no tick deletes a socket with a handler outstanding. */
  lemma RegistryIsSafe(turns: seq<Turn>)
    requires Proper(turns)
    ensures var m := After(turns);
            && m.tableReferences.Keys !! m.gcedSockets
            && m.tableReferences.Keys <= m.allSockets == m.sockets.Keys && m.gcedSockets <= m.allSockets
            && (forall id :: id in m.sockets && m.sockets[id].state != Disconnected ==> id in m.tableReferences)
            && (forall id: nat :: id < m.nextId ==> (id in m.allSockets <==> m.deleted[id] == 0) && m.deleted[id] <= 1)
            && m.dangling == m.strays
            && (NoHandlerOutlivesItsSocket(turns) ==> m.dangling == 0)
  {
    RunSafe(turns);
    if NoHandlerOutlivesItsSocket(turns) {
      RunWithoutStrays(turns);
    }
  }

  /** Exactly-once delivery: what a socket has put is what was delivered and what is queued, in that order;
      and when nothing pins its table any more, everything it will ever report has been delivered. */
  lemma EventsAreDeliveredOnce(turns: seq<Turn>, id: nat)
    requires Proper(turns) && id in After(turns).sockets
    ensures var m := After(turns);
            && id in m.delivered
            && m.sockets[id].inbox.emitted == m.delivered[id] + m.sockets[id].inbox.queue
            && (id !in m.tableReferences ==>
                  AtRest(m.sockets[id]) && m.sockets[id].inbox.emitted == m.delivered[id])
  {
    RunSafe(turns);
    DeliveredOnce(After(turns), id);
  }

  lemma DeliveredOnce(m: Lua, id: nat)
    requires Safe(m, 0, []) && id in m.sockets
    ensures id in m.delivered
    ensures m.sockets[id].inbox.emitted == m.delivered[id] + m.sockets[id].inbox.queue
    ensures id !in m.tableReferences ==> AtRest(m.sockets[id]) && m.sockets[id].inbox.emitted == m.delivered[id]
  {
    assert m.delivered[id] + [] + m.sockets[id].inbox.queue == m.delivered[id] + m.sockets[id].inbox.queue;
  }

  lemma {:induction false} PrefixIsUnbroken(trace: seq<Event>, more: seq<Event>)
    requires EventGrammar.PhaseOf(trace + more) != EventGrammar.Broken
    ensures EventGrammar.PhaseOf(trace) != EventGrammar.Broken
    decreases |more|
  {
    if more == [] {
      assert trace + more == trace;
    } else {
      var n := |more| - 1;
      assert trace + more == (trace + more[..n]) + [more[n]];
      EventGrammar.PhaseOfAppend(trace + more[..n], more[n]);
      PrefixIsUnbroken(trace, more[..n]);
    }
  }

  /** What Lua was told by any socket ever created, deleted ones included, obeys the event grammar; a socket
      is deleted by a tick only when it has told whole attempts. */
  lemma DeliveredObeysGrammar(turns: seq<Turn>, id: nat)
    requires Proper(turns) && id < After(turns).nextId
    ensures var m := After(turns);
            && id in m.delivered
            && EventGrammar.PhaseOf(m.delivered[id]) != EventGrammar.Broken
            && (id !in m.sockets || id !in m.tableReferences ==>
                  EventGrammar.InGrammar(m.delivered[id], EventGrammar.Disconnects(m.delivered[id]), false))
  {
    var m := After(turns);
    RunSafe(turns);
    if id in m.sockets {
      DeliveredOnce(m, id);
      ReachableInv(m.sockets[id]);
      PrefixIsUnbroken(m.delivered[id], m.sockets[id].inbox.queue);
      if id !in m.tableReferences {
        RestingHasToldAll(m, id);
        WholeWords(m.delivered[id]);
      }
    } else {
      WholeWords(m.delivered[id]);
    }
  }

  lemma WholeWords(trace: seq<Event>)
    requires EventGrammar.PhaseOf(trace) == EventGrammar.Boundary
    ensures EventGrammar.InGrammar(trace, EventGrammar.Disconnects(trace), false)
  {
    var done, session, error := EventGrammar.Parsed(trace);
    assert EventGrammar.Spells(trace, done, session);
  }

  // ----- closing the module -----

  lemma {:induction false} CloseEachSafe(m: Lua, ids: seq<nat>, weakCas: bool)
    requires Safe(m, 0, []) && forall id :: id in ids ==> id in m.allSockets
    ensures var n := CloseEach(m, ids, weakCas);
            && Safe(n, 0, []) && n.allSockets == m.allSockets && n.nextId == m.nextId
            && n.delivered == m.delivered && SameDead(m, n)
    decreases |ids|
  {
    if ids != [] {
      var n := |ids| - 1;
      CloseEachSafe(m, ids[..n], weakCas);
      ActedSafe(CloseEach(m, ids[..n], weakCas), ids[n], CallClose(weakCas), 0, []);
    }
  }

  /** Closing the module deletes what is left: every socket ever created has then been deleted exactly once,
      through no dangling pointer but those of handlers that outlived their socket before. Lua has been told
      nothing that breaks the grammar. */
  lemma ModuleCloseDeletesEverySocketOnce(turns: seq<Turn>, ids: seq<nat>, polled: seq<Polled>, weakCas: bool)
    requires Proper(turns) && forall id :: id in ids <==> id in After(turns).tableReferences
    ensures var m := CloseModule(After(turns), ids, polled, weakCas);
            && m.sockets == map[] && m.allSockets == {} && m.gcedSockets == {} && m.tableReferences == map[]
            && m.nextId == After(turns).nextId
            && (forall id: nat :: m.deleted[id] == if id < m.nextId then 1 else 0)
            && m.delivered == After(turns).delivered
            && m.dangling == m.strays
            && (NoHandlerOutlivesItsSocket(turns) ==> m.dangling == 0)
  {
    RunSafe(turns);
    ClosingDeletes(After(turns), ids, polled, weakCas);
    if NoHandlerOutlivesItsSocket(turns) {
      RunWithoutStrays(turns);
      var closing := CloseEach(After(turns).(moduleOpen := false), ids, weakCas);
      CloseEachSafe(After(turns).(moduleOpen := false), ids, weakCas);
      PollWithoutStrays(closing, polled);
    }
  }

  lemma ClosingDeletes(m: Lua, ids: seq<nat>, polled: seq<Polled>, weakCas: bool)
    requires Safe(m, 0, []) && forall id :: id in ids ==> id in m.allSockets
    ensures var n := CloseModule(m, ids, polled, weakCas);
            && n.sockets == map[] && n.allSockets == {} && n.gcedSockets == {} && n.tableReferences == map[]
            && n.nextId == m.nextId && n.dangling == n.strays && n.delivered == m.delivered && !n.moduleOpen
            && (forall id: nat :: n.deleted[id] == if id < n.nextId then 1 else 0)
  {
    var closing := m.(moduleOpen := false);
    CloseEachSafe(closing, ids, weakCas);
    PollSafe(CloseEach(closing, ids, weakCas), polled);
    PollKeepsReferences(CloseEach(closing, ids, weakCas), polled);
    AllDeleted(Poll(CloseEach(closing, ids, weakCas), polled));
  }

  lemma {:induction false} AllDeleted(m: Lua)
    requires Safe(m, 0, [])
    ensures var n := DeleteAll(m);
            && n.sockets == map[] && n.allSockets == {} && n.gcedSockets == {} && n.tableReferences == map[]
            && n.nextId == m.nextId && n.dangling == n.strays
            && (forall id: nat :: n.deleted[id] == if id < n.nextId then 1 else 0)
  {
  }

  /** The finalizers that run after the module was closed, for sockets that are all gone, touch nothing. */
  lemma {:induction false} LateFinalizersDoNothing(m: Lua, calls: seq<LuaCall>)
    requires !m.moduleOpen && forall c :: c in calls ==> c.Collect?
    ensures forall c :: c in calls ==> Possible(m, c)
    ensures Script(m, calls) == m
    decreases |calls|
  {
    if calls != [] {
      LateFinalizersDoNothing(m, calls[..|calls| - 1]);
      assert calls[|calls| - 1] in calls;
    }
  }

  /** A whole life of the module: any run, the closing, and any finalizers after it. */
  lemma FinalizersAfterClosing(turns: seq<Turn>, ids: seq<nat>, polled: seq<Polled>, weakCas: bool,
                               calls: seq<LuaCall>)
    requires Proper(turns) && forall id :: id in ids <==> id in After(turns).tableReferences
    requires NoHandlerOutlivesItsSocket(turns) && forall c :: c in calls ==> c.Collect?
    ensures var m := CloseModule(After(turns), ids, polled, weakCas);
            && (forall c :: c in calls ==> Possible(m, c) && c.id !in m.sockets)
            && Script(m, calls) == m && m.dangling == 0
  {
    ModuleCloseDeletesEverySocketOnce(turns, ids, polled, weakCas);
    RunSafe(turns);
    ClosingDeletes(After(turns), ids, polled, weakCas);
    LateFinalizersDoNothing(CloseModule(After(turns), ids, polled, weakCas), calls);
  }
}

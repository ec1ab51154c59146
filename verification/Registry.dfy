/** The module's bookkeeping of sockets: which exist, which the collector has taken, which have their Lua
    table pinned by a reference, and which events the think function has delivered.

    Lua code runs between ticks and inside the callbacks of a tick; whatever it does is a script. A socket is
    known by its address, and an address is not used twice. */
module Registry {
  import opened SocketMachine
  import opened HandlerAccounting
  import opened SocketHistory
  import opened SocketInvariant

  datatype LuaCall =
    | CreateSocket(tls: bool)
    | OpenSocket(id: nat, shouldClearQueue: bool)
    | CallSocket(id: nat, call: Action)
    | Collect(id: nat)

  /** A completion that the poll of a tick delivers. */
  datatype Polled = Polled(id: nat, completion: Action)

  datatype Lua = Lua(
    moduleOpen: bool,
    sockets: map<nat, Sock>,               // the sockets in memory
    allSockets: set<nat>,
    gcedSockets: set<nat>,
    tableReferences: map<nat, nat>,
    // histories
    nextId: nat,                           // sockets created so far
    nextReference: nat,                    // table references taken so far
    delivered: map<nat, seq<Event>>,       // the events handed to Lua, for every socket ever created
    deliveries: nat,                       // callbacks so far
    deleted: multiset<nat>,
    remains: map<nat, Sock>,               // the deleted sockets, as far as the io context still knows them
    strays: nat,                           // completions of handlers that outlived their socket
    dangling: nat                          // uses of a pointer to a deleted socket, or of a freed reference
  )

  /** What the k-th callback does. */
  type Reply = nat -> seq<LuaCall>

  function Loaded(): Lua {
    Lua(true, map[], {}, {}, map[], 0, 0, map[], 0, multiset{}, map[], 0, 0)
  }

  // ----- Lua code -----

  predicate IsCall(a: Action) {
    a.CallClose? || a.CallCloseNow? || a.CallWrite? || a.CallClearQueue?
  }

  /** Lua code can use a socket until the collector has taken it, and the collector takes one only when the
      module does not pin its table. Once the module is closed the only calls left are those of the finalizers
      that run while the Lua state goes down, for sockets that are gone. */
  predicate Possible(m: Lua, c: LuaCall) {
    match c
    case CreateSocket(_) => m.moduleOpen
    case OpenSocket(id, _) => m.moduleOpen && id in m.allSockets && id in m.sockets && id !in m.gcedSockets
    case CallSocket(id, a) =>
      m.moduleOpen && id in m.allSockets && id in m.sockets && id !in m.gcedSockets && IsCall(a)
    case Collect(id) =>
      m.moduleOpen ==> id in m.allSockets && id in m.sockets && id !in m.gcedSockets && id !in m.tableReferences
  }

  function Acted(m: Lua, id: nat, a: Action): Lua
    requires id in m.sockets && Enabled(m.sockets[id], a)
  {
    m.(sockets := m.sockets[id := Step(m.sockets[id], a)])
  }

  function Create(m: Lua, tls: bool): Lua {
    m.(sockets := m.sockets[m.nextId := Initial(tls)],
       allSockets := m.allSockets + {m.nextId},
       nextId := m.nextId + 1,
       delivered := m.delivered[m.nextId := []])
  }

  function Pinned(m: Lua, id: nat): Lua {
    if id in m.tableReferences then m
    else m.(tableReferences := m.tableReferences[id := m.nextReference], nextReference := m.nextReference + 1)
  }

  /** socketOpen throws a Lua error, and changes nothing, unless the socket is disconnected. */
  function OpenFromLua(m: Lua, id: nat, clear: bool): Lua
    requires id in m.sockets
  {
    if m.sockets[id].state != Disconnected then m else Acted(Pinned(m, id), id, CallOpen(clear))
  }

  /** The finalizer of the socket's userdata, which may run when the module and the socket are gone. */
  function Finalized(m: Lua, id: nat): Lua
    requires m.moduleOpen ==> id in m.sockets
  {
    if !m.moduleOpen then m
    else
      Acted(m.(tableReferences := m.tableReferences - {id}, gcedSockets := m.gcedSockets + {id}), id, CallCloseNow)
  }

  function Called(m: Lua, c: LuaCall): Lua {
    if !Possible(m, c) then m
    else
      match c
      case CreateSocket(tls) => Create(m, tls)
      case OpenSocket(id, clear) => OpenFromLua(m, id, clear)
      case CallSocket(id, a) => Acted(m, id, a)
      case Collect(id) => Finalized(m, id)
  }

  function Script(m: Lua, calls: seq<LuaCall>): Lua
    decreases |calls|
  {
    if calls == [] then m else Called(Script(m, calls[..|calls| - 1]), calls[|calls| - 1])
  }

  // ----- a tick -----

  predicate Deliverable(m: Lua, p: Polled) {
    && p.id in m.sockets && p.completion.Completion?
    && Enabled(m.sockets[p.id], p.completion) && Timely(m.sockets[p.id], p.completion)
  }

  /** The completion of a handler whose socket was deleted: its guard reads the counter of that socket. */
  predicate Stray(m: Lua, p: Polled) {
    p.id in m.remains && p.completion.Completion? && p.completion.h in m.remains[p.id].io.handlers
  }

  function Completed(m: Lua, p: Polled): Lua {
    if Deliverable(m, p) then Acted(m, p.id, p.completion)
    else if Stray(m, p) then
      m.(remains := m.remains[p.id := Withdraw(m.remains[p.id], p.completion.h)],
         strays := m.strays + 1, dangling := m.dangling + 1)
    else m
  }

  function Poll(m: Lua, polled: seq<Polled>): Lua
    decreases |polled|
  {
    if polled == [] then m else Completed(Poll(m, polled[..|polled| - 1]), polled[|polled| - 1])
  }

  function Delete(m: Lua, id: nat): Lua
    requires id in m.sockets
  {
    m.(sockets := m.sockets - {id}, allSockets := m.allSockets - {id}, gcedSockets := m.gcedSockets - {id},
       deleted := m.deleted + multiset{id}, remains := m.remains[id := m.sockets[id]])
  }

  /** Collected sockets that have been disconnected. */
  function Deletable(m: Lua): set<nat> {
    set id | id in m.gcedSockets && id in m.sockets && m.sockets[id].state == Disconnected
  }

  function Only(sockets: map<nat, Sock>, ids: set<nat>): map<nat, Sock> {
    map id | id in ids && id in sockets :: sockets[id]
  }

  function DeleteCollected(m: Lua): Lua {
    var gone := Deletable(m);
    m.(sockets := m.sockets - gone, allSockets := m.allSockets - gone, gcedSockets := m.gcedSockets - gone,
       deleted := m.deleted + multiset(gone), remains := m.remains + Only(m.sockets, gone))
  }

  function Handed(m: Lua, id: nat, e: Event): Lua {
    m.(delivered := m.delivered[id := (if id in m.delivered then m.delivered[id] else []) + [e]],
       deliveries := m.deliveries + 1)
  }

  /** The callbacks of one socket's events, each followed by what its callback does. */
  function DeliverEvents(m: Lua, id: nat, events: seq<Event>, reply: Reply): Lua
    decreases |events|
  {
    if events == [] then m
    else
      var n := |events| - 1;
      var before := DeliverEvents(m, id, events[..n], reply);
      Script(Handed(before, id, events[n]), reply(before.deliveries))
  }

  /** One entry of the copied list: a socket and the reference that pinned its table at the time. */
  datatype Entry = Entry(id: nat, reference: nat)

  predicate Usable(m: Lua, e: Entry) {
    e.id in m.sockets && e.id in m.tableReferences && m.tableReferences[e.id] == e.reference
  }

  function DeliverEntry(m: Lua, e: Entry, reply: Reply): Lua {
    if !Usable(m, e) then m.(dangling := m.dangling + 1)
    else
      var events := m.sockets[e.id].inbox.queue;
      var taken := Acted(m, e.id, TakeEvents);
      if events == [] && m.sockets[e.id].state != Disconnected then taken
      else
        var t := DeliverEvents(taken, e.id, events, reply);
        if e.id !in t.sockets then t.(dangling := t.dangling + 1)
        else if t.sockets[e.id].state == Disconnected && events == [] then
          t.(tableReferences := t.tableReferences - {e.id})
        else t
  }

  function DeliverEntries(m: Lua, entries: seq<Entry>, reply: Reply): Lua
    decreases |entries|
  {
    if entries == [] then m
    else DeliverEntry(DeliverEntries(m, entries[..|entries| - 1], reply), entries[|entries| - 1], reply)
  }

  /** `entries` lists the references in some order. */
  ghost predicate Lists(entries: seq<Entry>, references: map<nat, nat>) {
    && (forall i :: 0 <= i < |entries| ==>
          entries[i].id in references && entries[i].reference == references[entries[i].id])
    && (forall i, j :: 0 <= i < j < |entries| ==> entries[i].id != entries[j].id)
    && (forall id :: id in references ==> exists i :: 0 <= i < |entries| && entries[i].id == id)
  }

  function Think(m: Lua, polled: seq<Polled>, entries: seq<Entry>, reply: Reply): Lua {
    DeliverEntries(DeleteCollected(Poll(m, polled)), entries, reply)
  }

  // ----- closing the module -----

  function CloseEach(m: Lua, ids: seq<nat>, weakCas: bool): Lua
    decreases |ids|
  {
    if ids == [] then m
    else
      var before := CloseEach(m, ids[..|ids| - 1], weakCas);
      var id := ids[|ids| - 1];
      if id in before.sockets then Acted(before, id, CallClose(weakCas)) else before.(dangling := before.dangling + 1)
  }

  function ClosedNow(sockets: map<nat, Sock>, ids: set<nat>): map<nat, Sock> {
    map id | id in ids && id in sockets :: CloseNow(sockets[id], NO_REASON)
  }

  /** Every socket is closed forcefully and deleted. */
  function DeleteAll(m: Lua): Lua {
    m.(sockets := m.sockets - m.allSockets, allSockets := {}, gcedSockets := {}, tableReferences := map[],
       deleted := m.deleted + multiset(m.allSockets), remains := m.remains + ClosedNow(m.sockets, m.allSockets))
  }

  function CloseModule(m: Lua, ids: seq<nat>, polled: seq<Polled>, weakCas: bool): Lua {
    DeleteAll(Poll(CloseEach(m.(moduleOpen := false), ids, weakCas), polled))
  }

  // ----- runs -----

  datatype Turn =
    | LuaTurn(call: LuaCall)
    | ThinkTurn(polled: seq<Polled>, entries: seq<Entry>, reply: Reply)

  ghost predicate Allowed(m: Lua, t: Turn) {
    t.ThinkTurn? ==> Lists(t.entries, DeleteCollected(Poll(m, t.polled)).tableReferences)
  }

  function Took(m: Lua, t: Turn): Lua {
    match t
    case LuaTurn(c) => Called(m, c)
    case ThinkTurn(polled, entries, reply) => Think(m, polled, entries, reply)
  }

  function After(turns: seq<Turn>): Lua
    decreases |turns|
  {
    if turns == [] then Loaded() else Took(After(turns[..|turns| - 1]), turns[|turns| - 1])
  }

  /** Every tick copies exactly the references there are when it comes to the copy. */
  ghost predicate Proper(turns: seq<Turn>)
    decreases |turns|
  {
    turns == [] || (Proper(turns[..|turns| - 1]) && Allowed(After(turns[..|turns| - 1]), turns[|turns| - 1]))
  }

  predicate NothingOutstanding(sockets: map<nat, Sock>, ids: set<nat>) {
    forall id :: id in ids && id in sockets ==> sockets[id].io.handlers == multiset{}
  }

  /** The poll of a tick has completed every handler of the sockets that the tick then deletes. */
  predicate PolledOut(m: Lua, t: Turn) {
    t.ThinkTurn? ==> var p := Poll(m, t.polled); NothingOutstanding(p.sockets, Deletable(p))
  }

  predicate NoHandlerOutlivesItsSocket(turns: seq<Turn>)
    decreases |turns|
  {
    turns == [] ||
    (NoHandlerOutlivesItsSocket(turns[..|turns| - 1]) && PolledOut(After(turns[..|turns| - 1]), turns[|turns| - 1]))
  }
}

/** The atomic `state` under any interleaving of threads.

    GWSocket is written so that the io worker may run in a thread of its own. Here every load, store and
    compare-exchange of `state` is one step of some thread; the other fields are not part of this model. */
module CloseOwnership {
  import opened SocketMachine

  function Rank(state: SocketState): nat {
    match state
    case Connecting => 0
    case Connected => 1
    case DisconnectRequested => 2
    case Disconnecting => 3
    case Disconnected => 4
  }

  /** What a thread does next. `seen` and `start` are clock readings: when the expected value was loaded and
      when the outermost setDisconnectingCAS was entered. */
  datatype Pc =
    | Idle
    | Returned(ok: bool)                                       // of setDisconnectingCAS
    | Loading(start: nat, retries: nat)                        // setDisconnectingCAS: the load
    | Exchanging(expected: SocketState, seen: nat, start: nat, retries: nat)
    | CheckingConnected(seen: nat, start: nat, retries: nat)   // it failed: is the state CONNECTED?
    | CheckingConnecting(seen: nat, start: nat, retries: nat)  // no: is it CONNECTING?
    | Owner                                                    // about to run doClose
    | CloseLoaded(expected: SocketState)                       // close(): the load is done
    | Issuing                                                  // checkWriting: about to call asyncCloseSocket

  datatype World = World(
    state: SocketState,
    closePending: bool,     // the handler of asyncCloseSocket is outstanding
    threads: map<nat, Pc>,
    attempt: nat            // history: how often open() has succeeded
  )

  function Start(): World {
    World(Disconnected, false, map[], 0)
  }

  function PcOf(w: World, t: nat): Pc {
    if t in w.threads then w.threads[t] else Idle
  }

  function At(w: World, t: nat, pc: Pc): World {
    w.(threads := w.threads[t := pc])
  }

  /** Time as the state sees it. */
  function Clock(w: World): nat {
    5 * w.attempt + Rank(w.state)
  }

  /** What an idle thread may start; for the others, whether a weak exchange holds. */
  datatype Move =
    | BeginSetDisconnecting  // closeNow and errorConnection
    | BeginClose
    | TryOpen
    | FinishHandshake
    | TakeMarker(holds: bool)
    | RunCloseHandler
    | Continue

  function StartLoading(w: World, t: nat): World {
    At(w, t, Loading(Clock(w), 0))
  }

  function Begin(w: World, t: nat, m: Move): World {
    match m
    case BeginSetDisconnecting => StartLoading(w, t)
    case BeginClose =>
      if w.state == Disconnected || w.state == Disconnecting || w.state == DisconnectRequested then w
      else At(w, t, CloseLoaded(w.state))
    case TryOpen =>
      if w.state == Disconnected then w.(state := Connecting, attempt := w.attempt + 1) else w
    case FinishHandshake =>
      if w.state == Connecting then w.(state := Connected) else StartLoading(w, t)
    case TakeMarker(holds) =>
      if w.state == DisconnectRequested && holds then At(w.(state := Disconnecting), t, Issuing)
      else StartLoading(w, t)
    case RunCloseHandler =>
      if w.closePending then At(w.(closePending := false), t, Owner) else w
    case Continue => w
  }

  function Resume(w: World, t: nat): World {
    match PcOf(w, t)
    case Loading(start, retries) =>
      if w.state == Disconnected || w.state == Disconnecting then At(w, t, Returned(false))
      else At(w, t, Exchanging(w.state, Clock(w), start, retries))
    case Exchanging(expected, seen, start, retries) =>
      if w.state == expected then At(w.(state := Disconnecting), t, Owner)
      else At(w, t, CheckingConnected(seen, start, retries))
    case CheckingConnected(seen, start, retries) =>
      if w.state == Connected then At(w, t, Loading(start, retries + 1))
      else At(w, t, CheckingConnecting(seen, start, retries))
    case CheckingConnecting(seen, start, retries) =>
      if w.state == Connecting then At(w, t, Loading(start, retries + 1)) else At(w, t, Returned(false))
    case Owner => At(w.(state := Disconnected), t, Returned(true))
    case CloseLoaded(expected) =>
      if w.state == expected then At(w.(state := DisconnectRequested), t, Idle) else At(w, t, Idle)
    case Issuing => At(w.(closePending := true), t, Idle)
    case _ => w
  }

  function Next(w: World, t: nat, m: Move): World {
    var pc := PcOf(w, t);
    if pc.Idle? || pc.Returned? then Begin(w, t, m) else Resume(w, t)
  }

  datatype Turn = Turn(thread: nat, move: Move)

  function Interleaved(w: World, turns: seq<Turn>): World
    decreases |turns|
  {
    if turns == [] then w
    else
      var n := |turns| - 1;
      Next(Interleaved(w, turns[..n]), turns[n].thread, turns[n].move)
  }

  // ----- who closes the attempt -----

  predicate Owns(pc: Pc) {
    pc.Owner? || pc.Issuing?
  }

  /** DISCONNECTING has exactly one owner: a thread that is to run doClose or to issue the close whose
      handler will, or that handler. No other state has one. */
  ghost predicate OneOwner(w: World) {
    && (forall t :: Owns(PcOf(w, t)) ==> w.state == Disconnecting && !w.closePending)
    && (forall t, u :: Owns(PcOf(w, t)) && Owns(PcOf(w, u)) ==> t == u)
    && (w.closePending ==> w.state == Disconnecting)
    && (w.state == Disconnecting ==> w.closePending || exists t :: Owns(PcOf(w, t)))
  }

  // ----- how often setDisconnectingCAS retries -----

  /** Twice the attempt, plus one once it is past CONNECTING: every retry sees this grow. */
  function Epoch(clock: nat): nat {
    2 * (clock / 5) + (if clock % 5 == 0 then 0 else 1)
  }

  ghost predicate Bounded(w: World, pc: Pc) {
    match pc
    case Loading(start, retries) => Epoch(start) + retries <= Epoch(Clock(w))
    case Exchanging(expected, seen, start, retries) =>
      Epoch(start) + retries <= Epoch(seen) && seen <= Clock(w) && seen % 5 == Rank(expected)
      && Closable(expected)
    case CheckingConnected(seen, start, retries) => Epoch(start) + retries <= Epoch(seen) && seen < Clock(w)
    case CheckingConnecting(seen, start, retries) =>
      && Epoch(start) + retries <= Epoch(seen) && seen < Clock(w)
      && (seen / 5 == w.attempt ==> Rank(w.state) >= Rank(DisconnectRequested))
    case CloseLoaded(expected) => expected == Connecting || expected == Connected
    case _ => true
  }

  ghost predicate RetriesBounded(w: World) {
    forall t :: Bounded(w, PcOf(w, t))
  }

  lemma EpochIsMonotone(a: nat, b: nat)
    requires a <= b
    ensures Epoch(a) <= Epoch(b)
  {
  }

  lemma ClockParts(w: World)
    ensures Clock(w) / 5 == w.attempt && Clock(w) % 5 == Rank(w.state)
  {
  }

  /** The state rises within an attempt, and the next attempt begins only from DISCONNECTED. */
  lemma NextRises(w: World, t: nat, m: Move)
    requires OneOwner(w) && RetriesBounded(w)
    ensures var n := Next(w, t, m);
            || (n.attempt == w.attempt && Rank(n.state) >= Rank(w.state))
            || (n.attempt == w.attempt + 1 && w.state == Disconnected && n.state == Connecting)
    ensures Clock(w) <= Clock(Next(w, t, m))
  {
    assert Bounded(w, PcOf(w, t));
  }

  /** How one thread's step can pass the ownership on: it takes it with the state or from the pending handler,
      and gives it up by disconnecting or to that handler. */
  ghost predicate PassesOwnership(w: World, n: World, t: nat) {
    && (forall u :: u != t ==> PcOf(n, u) == PcOf(w, u))
    && var before, after := Owns(PcOf(w, t)), Owns(PcOf(n, t));
       && (after && !before ==>
             || (w.state != Disconnecting && n.state == Disconnecting && n.closePending == w.closePending)
             || (w.closePending && !n.closePending && n.state == w.state))
       && (before ==>
             && !after
             && ((n.state == Disconnected && n.closePending == w.closePending)
                 || (n.closePending && n.state == w.state)))
       && (!before && !after ==>
             n.closePending == w.closePending && (n.state == Disconnecting <==> w.state == Disconnecting))
  }

  lemma NextPassesOwnership(w: World, t: nat, m: Move)
    requires Bounded(w, PcOf(w, t))
    ensures PassesOwnership(w, Next(w, t, m), t)
  {
  }

  lemma {:induction false} OwnershipPassed(w: World, n: World, t: nat)
    requires OneOwner(w) && PassesOwnership(w, n, t)
    ensures OneOwner(n)
  {
    if n.state == Disconnecting && w.state == Disconnecting && !w.closePending {
      var o :| Owns(PcOf(w, o));
      assert o != t ==> Owns(PcOf(n, o));
    }
  }

  lemma NextOneOwner(w: World, t: nat, m: Move)
    requires OneOwner(w) && RetriesBounded(w)
    ensures OneOwner(Next(w, t, m))
  {
    assert Bounded(w, PcOf(w, t));
    NextPassesOwnership(w, t, m);
    OwnershipPassed(w, Next(w, t, m), t);
  }

  lemma NextBounded(w: World, t: nat, m: Move)
    requires OneOwner(w) && RetriesBounded(w)
    ensures RetriesBounded(Next(w, t, m))
  {
    var n := Next(w, t, m);
    NextRises(w, t, m);
    EpochIsMonotone(Clock(w), Clock(n));
    ClockParts(w);
    ClockParts(n);
    forall u ensures Bounded(n, PcOf(n, u)) {
      if u != t {
        assert PcOf(n, u) == PcOf(w, u) && Bounded(w, PcOf(w, u));
      } else {
        assert Bounded(w, PcOf(w, t));
        OwnMoveBounded(w, t, m);
      }
    }
  }

  lemma OwnMoveBounded(w: World, t: nat, m: Move)
    requires Bounded(w, PcOf(w, t))
    ensures Bounded(Next(w, t, m), PcOf(Next(w, t, m), t))
  {
    ClockParts(w);
    ClockParts(Next(w, t, m));
  }

  lemma {:induction false} InterleavingKeeps(turns: seq<Turn>)
    ensures var w := Interleaved(Start(), turns); OneOwner(w) && RetriesBounded(w)
    decreases |turns|
  {
    if turns != [] {
      var n := |turns| - 1;
      InterleavingKeeps(turns[..n]);
      NextOneOwner(Interleaved(Start(), turns[..n]), turns[n].thread, turns[n].move);
      NextBounded(Interleaved(Start(), turns[..n]), turns[n].thread, turns[n].move);
    }
  }

  ghost predicate Interleaving(w: World) {
    exists turns :: w == Interleaved(Start(), turns)
  }

  /** Close ownership: under every interleaving DISCONNECTING has exactly one owner and other states none. */
  lemma DisconnectingHasOneOwner(w: World)
    requires Interleaving(w)
    ensures w.state == Disconnecting <==> w.closePending || exists t :: Owns(PcOf(w, t))
    ensures forall t, u :: Owns(PcOf(w, t)) && Owns(PcOf(w, u)) ==> t == u
    ensures w.closePending ==> forall t :: !Owns(PcOf(w, t))
  {
    var turns :| w == Interleaved(Start(), turns);
    InterleavingKeeps(turns);
  }

  /** A call of setDisconnectingCAS retries at most once within an attempt, and in general only as often as
      attempts have moved on since it began. */
  lemma RetriesAreBounded(w: World, t: nat)
    requires Interleaving(w) && PcOf(w, t).Loading?
    ensures var pc := PcOf(w, t);
            && pc.start / 5 <= w.attempt
            && pc.retries <= 2 * (w.attempt - pc.start / 5) + 1
  {
    var turns :| w == Interleaved(Start(), turns);
    InterleavingKeeps(turns);
    assert Bounded(w, PcOf(w, t));
    ClockParts(w);
  }

  // ----- what a caller sees -----

  /** Without interference setDisconnectingCAS, and so closeNow, succeeds exactly from the closable states. */
  lemma AloneItSucceedsWhenClosable(w: World, t: nat)
    requires PcOf(w, t) == Idle
    ensures var a := Next(w, t, BeginSetDisconnecting);
            var b := Next(a, t, Continue);
            if Closable(w.state) then
              Next(b, t, Continue) == At(w.(state := Disconnecting), t, Owner)
            else
              b == At(w, t, Returned(false))
  {
    var a := Next(w, t, BeginSetDisconnecting);
    var b := Next(a, t, Continue);
    assert a.threads[t := Returned(false)] == w.threads[t := Returned(false)];
    assert b.threads[t := Owner] == w.threads[t := Owner];
  }

  /** The state stops a call: it finds nothing to close when it loads the state, or the state rules out a retry
      when it looks again. */
  predicate Stops(w: World, pc: Pc) {
    match pc
    case Loading(_, _) => w.state == Disconnecting || w.state == Disconnected
    case CheckingConnecting(seen, _, _) =>
      || w.state == DisconnectRequested || w.state == Disconnecting || w.state == Disconnected
      || (w.attempt > seen / 5 && w.state == Connected)
    case _ => false
  }

  /** When a step of setDisconnectingCAS returns false: there was nothing to close when it loaded the state, or
      its exchange failed and, since its load, the attempt has been asked to close, has been closed, or is over
      and a later one has begun. A later attempt may even have come up by then. */
  lemma WhenItGivesUp(w: World, t: nat)
    requires Interleaving(w) && !PcOf(w, t).Idle? && !PcOf(w, t).Returned?
    ensures PcOf(Next(w, t, Continue), t) == Returned(false) <==> Stops(w, PcOf(w, t))
  {
    var turns :| w == Interleaved(Start(), turns);
    InterleavingKeeps(turns);
    assert Bounded(w, PcOf(w, t));
    ClockParts(w);
  }

  /** A call whose exchange failed gives up only on an attempt that another thread has asked to close, is
      closing or has closed, or when a later attempt has begun; on the attempt it loaded it never gets further. */
  lemma GivingUpMeansClosing(w: World, t: nat)
    requires Interleaving(w) && PcOf(w, t).CheckingConnecting?
    ensures var closing := w.state == DisconnectRequested || w.state == Disconnecting || w.state == Disconnected;
            && (PcOf(Next(w, t, Continue), t) == Returned(false) ==> closing || w.attempt > PcOf(w, t).seen / 5)
            && (w.attempt == PcOf(w, t).seen / 5 ==> closing && PcOf(Next(w, t, Continue), t) == Returned(false))
  {
    var turns :| w == Interleaved(Start(), turns);
    InterleavingKeeps(turns);
    assert Bounded(w, PcOf(w, t));
    ClockParts(w);
  }

  /** The turns of a call of setDisconnectingCAS by thread t, with the turns of others in between, up to its
      return. */
  predicate CallRuns(w: World, t: nat, turns: seq<Turn>)
    decreases |turns|
  {
    if turns == [] then PcOf(w, t).Returned?
    else
      !PcOf(w, t).Returned? && CallRuns(Next(w, turns[0].thread, turns[0].move), t, turns[1..])
  }

  /** No other thread closes the attempt, asks for it or opens the next one: the handshake may complete. */
  predicate Undisturbed(w: World, t: nat, turns: seq<Turn>)
    decreases |turns|
  {
    turns == [] ||
    var n := Next(w, turns[0].thread, turns[0].move);
    && (turns[0].thread != t ==> n.state == w.state || (w.state == Connecting && n.state == Connected))
    && Undisturbed(n, t, turns[1..])
  }

  function Played(w: World, turns: seq<Turn>): World
    decreases |turns|
  {
    if turns == [] then w else Played(Next(w, turns[0].thread, turns[0].move), turns[1..])
  }

  /** How far an undisturbed call has come that will succeed, or fail, as `closable` says. */
  predicate OnTheWay(w: World, pc: Pc, closable: bool) {
    match pc
    case Loading(_, _) => Closable(w.state) == closable
    case Exchanging(expected, _, _, _) =>
      closable && Closable(w.state) && (w.state == expected || (expected == Connecting && w.state == Connected))
    case CheckingConnected(_, _, _) => closable && w.state == Connected
    case Owner => closable
    case Returned(ok) => ok == closable
    case _ => false
  }

  /** A call that no other thread disturbs between its start and its return reports whether there was something
      to close, even when the handshake completes meanwhile. */
  lemma {:induction false} UndisturbedCallSucceeds(w: World, t: nat, turns: seq<Turn>, closable: bool)
    requires OnTheWay(w, PcOf(w, t), closable)
    requires CallRuns(w, t, turns) && Undisturbed(w, t, turns)
    ensures PcOf(Played(w, turns), t) == Returned(closable)
    decreases |turns|
  {
    if turns != [] {
      var n := Next(w, turns[0].thread, turns[0].move);
      if turns[0].thread == t {
        assert OnTheWay(n, PcOf(n, t), closable);
      } else {
        assert PcOf(n, t) == PcOf(w, t);
      }
      UndisturbedCallSucceeds(n, t, turns[1..], closable);
    }
  }

  /** The same from the start of the call. */
  lemma CallSucceedsIfUndisturbed(w: World, t: nat, turns: seq<Turn>)
    requires PcOf(w, t).Loading? && CallRuns(w, t, turns) && Undisturbed(w, t, turns)
    ensures PcOf(Played(w, turns), t) == Returned(Closable(w.state))
  {
    UndisturbedCallSucceeds(w, t, turns, Closable(w.state));
  }

  /** closeNow can lose against close: it returns false, and the socket is not closed but only asked to. */
  lemma CloseNowCanLose() returns (turns: seq<Turn>)
    ensures var w := Interleaved(Start(), turns); PcOf(w, 1) == Returned(false) && w.state == DisconnectRequested
  {
    turns := [];
    var w := Start();
    turns, w := Play(turns, w, Turn(0, TryOpen));
    turns, w := Play(turns, w, Turn(0, FinishHandshake));
    turns, w := Play(turns, w, Turn(1, BeginSetDisconnecting));
    turns, w := Play(turns, w, Turn(1, Continue));
    turns, w := Play(turns, w, Turn(2, BeginClose));
    turns, w := Play(turns, w, Turn(2, Continue));
    assert w.state == DisconnectRequested;
    turns, w := Play(turns, w, Turn(1, Continue));
    turns, w := Play(turns, w, Turn(1, Continue));
    turns, w := Play(turns, w, Turn(1, Continue));
  }

  /** closeNow can also return false on a socket that is connected and that nobody has asked to close: the
      attempt it loaded is closed, the next one has begun when its exchange fails, and comes up between its
      two looks at the state. No close() is part of this. */
  lemma CloseNowCanMissAConnection() returns (turns: seq<Turn>)
    ensures var w := Interleaved(Start(), turns); PcOf(w, 1) == Returned(false) && w.state == Connected
  {
    turns := [];
    var w := Start();
    turns, w := Play(turns, w, Turn(0, TryOpen));
    turns, w := Play(turns, w, Turn(0, FinishHandshake));
    turns, w := Play(turns, w, Turn(1, BeginSetDisconnecting));
    turns, w := Play(turns, w, Turn(1, Continue));
    turns, w := CloseAndReopen(turns, w);
    turns, w := Play(turns, w, Turn(1, Continue));
    turns, w := Play(turns, w, Turn(1, Continue));
    turns, w := Play(turns, w, Turn(0, FinishHandshake));
    turns, w := Play(turns, w, Turn(1, Continue));
  }

  /** Thread 2 closes the attempt with closeNow, and thread 0 opens the next one. */
  lemma CloseAndReopen(turns: seq<Turn>, w: World) returns (more: seq<Turn>, next: World)
    requires w == Interleaved(Start(), turns) && w.state == Connected && PcOf(w, 2) == Idle && PcOf(w, 0) == Idle
    ensures next == Interleaved(Start(), more) && next.state == Connecting
    ensures PcOf(next, 0) == Idle && PcOf(next, 1) == PcOf(w, 1)
  {
    more, next := Play(turns, w, Turn(2, BeginSetDisconnecting));
    more, next := Play(more, next, Turn(2, Continue));
    more, next := Play(more, next, Turn(2, Continue));
    more, next := Play(more, next, Turn(2, Continue));
    more, next := Play(more, next, Turn(0, TryOpen));
  }

  lemma Play(turns: seq<Turn>, w: World, turn: Turn) returns (more: seq<Turn>, next: World)
    requires w == Interleaved(Start(), turns)
    ensures more == turns + [turn] && next == Next(w, turn.thread, turn.move) == Interleaved(Start(), more)
  {
    more, next := turns + [turn], Next(w, turn.thread, turn.move);
    assert more[..|turns|] == turns;
  }
}

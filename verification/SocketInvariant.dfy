/** The invariant of a socket: it holds when a socket is constructed and every step keeps it.
    What it says about every run is spelled out below. */
module SocketInvariant {
  import opened SocketMachine
  import opened HandlerAccounting
  import opened EventGrammar
  import opened WriteQueue

  ghost predicate Inv(s: Sock) {
    && Stamped(s) && Wrapped(s.io) && Accounted(s)
    && Graded(s)
    && Booked(s) && Quiet(s)
  }

  lemma InitialInv(tls: bool)
    ensures Inv(Initial(tls))
  {
    InitialStamped(tls);
    InitialAccounted(tls);
    InitialGraded(tls);
    InitialBooked(tls);
  }

  lemma StepInv(s: Sock, a: Action)
    requires Inv(s) && Enabled(s, a) && Timely(s, a)
    ensures Inv(Step(s, a))
  {
    StepAccounted(s, a);
    StepFollows(s, a);
    FollowsWrapped(s.io, Step(s, a).io);
    StepGraded(s, a);
    StepBooked(s, a);
  }

  lemma {:induction false} RunInv(s: Sock, acts: seq<Action>)
    requires Inv(s) && Legal(s, acts)
    ensures Inv(Exec(s, acts))
    decreases |acts|
  {
    if acts != [] {
      StepInv(s, acts[0]);
      RunInv(Step(s, acts[0]), acts[1..]);
    }
  }

  lemma InitialReachable(tls: bool)
    ensures Reachable(Initial(tls))
  {
    assert Legal(Initial(tls), []) && Initial(tls) == Exec(Initial(tls), []);
  }

  lemma {:induction false} ExecAppend(s: Sock, acts: seq<Action>, a: Action)
    requires Legal(s, acts) && Enabled(Exec(s, acts), a) && Timely(Exec(s, acts), a)
    ensures Legal(s, acts + [a]) && Exec(s, acts + [a]) == Step(Exec(s, acts), a)
    decreases |acts|
  {
    if acts == [] {
      assert (acts + [a])[1..] == [];
    } else {
      ExecAppend(Step(s, acts[0]), acts[1..], a);
      assert (acts + [a])[1..] == acts[1..] + [a];
    }
  }

  lemma ReachableStep(s: Sock, a: Action)
    requires Reachable(s) && Enabled(s, a) && Timely(s, a)
    ensures Reachable(Step(s, a))
  {
    var tls, acts :| Legal(Initial(tls), acts) && s == Exec(Initial(tls), acts);
    ExecAppend(Initial(tls), acts, a);
  }

  lemma ReachableDelivery(s: Sock, h: Handler, out: Outcome, tlsParams: bool, weakCas: bool)
    requires Reachable(s) && h in s.io.handlers && s.io.epoch - h.epoch < TWO_TO_32
    ensures Reachable(Deliver(s, h, out, tlsParams, weakCas))
  {
    ReachableStep(s, Completion(h, out, tlsParams, weakCas));
  }

  lemma ReachableInv(t: Sock)
    requires Reachable(t)
    ensures Inv(t)
  {
    var tls, acts :| Legal(Initial(tls), acts) && t == Exec(Initial(tls), acts);
    InitialInv(tls);
    RunInv(Initial(tls), acts);
  }

  /** Handler accounting: the live handlers are those the state calls for, so every state but DISCONNECTED
      has a completion that will move it on. */
  lemma HandlersAreAccountedFor(t: Sock)
    requires Reachable(t)
    ensures Accounted(t)
    ensures t.state == Disconnected <==> forall op :: Live(t, op) == 0
    ensures Live(t, WriteMessage) + Live(t, CloseStream) == (if t.writing then 1 else 0)
    ensures Live(t, ReadMessage) + Chain(t) <= 1
  {
    ReachableInv(t);
    if t.state == Disconnected {
      forall op ensures Live(t, op) == 0 {
        NoneLive(t, op);
      }
    } else {
      SomeLiveIsLive(t);
    }
  }

  /** The event grammar. */
  lemma EventsFollowTheGrammar(t: Sock)
    requires Reachable(t)
    ensures InGrammar(t.inbox.emitted, t.io.epoch / 2, t.ready)
    ensures Disconnects(t.inbox.emitted) == t.io.epoch / 2
    ensures t.io.epoch % 2 == 0 <==> t.state == Disconnected
    ensures t.ready ==> t.state != Disconnected && t.state != Connecting
    ensures t.state == Connected ==> t.ready
  {
    ReachableInv(t);
    GradedTrace(t);
  }

  /** Conservation and order of writes: an entry is still queued or has one fate; what was handed to
      asyncWrite is what was enqueued, in that order; one message at most is in flight, and messageToWrite
      is its text; on a connection that is up an idle writer means an empty queue. */
  lemma WritesAreConserved(t: Sock)
    requires Reachable(t)
    ensures |t.outbox.fates| + |t.outbox.queue| == |t.outbox.enqueued|
    ensures t.outbox.queue == t.outbox.enqueued[|t.outbox.fates|..]
    ensures var at := HandedAt(t.outbox.fates);
            && |t.outbox.written| == |at|
            && forall k :: 0 <= k < |at| ==> t.outbox.written[k] == t.outbox.enqueued[at[k]]
    ensures forall i, j :: 0 <= i < j < |t.outbox.fates| && t.outbox.fates[i] == InFlight ==>
              t.outbox.fates[j] != InFlight
    ensures forall i :: 0 <= i < |t.outbox.fates| && t.outbox.fates[i] == InFlight ==>
              && Live(t, WriteMessage) == 1
              && t.outbox.enqueued[i].Message? && t.outbox.enqueued[i].text == t.outbox.messageToWrite
    ensures Live(t, WriteMessage) == 1 ==> exists i :: 0 <= i < |t.outbox.fates| && t.outbox.fates[i] == InFlight
    ensures t.state == Connected && !t.writing ==> t.outbox.queue == []
  {
    ReachableInv(t);
    HandedInOrder(t.outbox.enqueued, t.outbox.fates);
  }
}

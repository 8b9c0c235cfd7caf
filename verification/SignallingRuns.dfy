/**
 What every run of the hub keeps, by any callers. The lookup and the channel send of one call are two
 steps, with anything in between; the lookup changes nothing, so a run holds the channel sends alone.
 */
module SignallingRuns {
  import opened Sequences
  import opened Signalling
  import SessionInvariants

  /** DoSend is a send made at once; DoPut is the channel send of one whose lookup found inbox k some time before. */
  datatype Op =
    | DoRegister(cancelled: bool, hash: string)
    | DoSend(cancelled: bool, to: string, env: Envelope)
    | DoPut(k: nat, env: Envelope)
    | DoUnregister(hash: string)
    | DoReceive(k: nat)

  datatype Event = Queued(k: nat, e: Envelope) | Delivered(k: nat, e: Envelope) | Crashed | Quiet

  function Step(h: State, op: Op): (r: (State, Event))
    requires Indexed(h)
    ensures Indexed(r.0)
  {
    match op
    case DoRegister(cancelled, hash) => (Register(h, cancelled, hash).0, Quiet)
    case DoSend(cancelled, to, env) =>
      var (h', outcome) := Send(h, cancelled, to, env);
      (h', match outcome
           case Accepted => Queued(h.inboxes[to], env)
           case Rejected(_) => Quiet
           case Panicked => Crashed)
    case DoPut(k, env) =>
      if k >= |h.boxes| then (h, Quiet)
      else
        var (h', outcome) := Put(h, k, env);
        (h', match outcome
             case Accepted => Queued(k, env)
             case Rejected(_) => Quiet
             case Panicked => Crashed)
    case DoUnregister(hash) => (Unregister(h, hash), Quiet)
    case DoReceive(k) =>
      if k >= |h.boxes| then (h, Quiet)
      else
        var (h', r) := Receive(h, k);
        (h', if r.Got? then Delivered(k, r.e) else Quiet)
  }

  function Run(h: State, ops: seq<Op>): (r: (State, seq<Event>))
    requires Indexed(h)
    ensures Indexed(r.0)
    decreases |ops|
  {
    if ops == [] then (h, [])
    else
      var (h', event) := Step(h, ops[0]);
      var (last, events) := Run(h', ops[1..]);
      (last, [event] + events)
  }

  /** The open inboxes are exactly those in the map, each under its own hash, and none is over capacity. */
  ghost predicate Sound(h: State) {
    && Indexed(h)
    && (forall hash | hash in h.inboxes :: HashLength(hash) && Holds(h, hash, h.inboxes[hash]))
    && (forall k | 0 <= k < |h.boxes| :: |h.boxes[k].queue| <= INBOX_CAPACITY)
    && (forall k | 0 <= k < |h.boxes| && !h.boxes[k].closed :: InMap(h, k))
  }

  predicate Holds(h: State, hash: string, k: nat) {
    k < |h.boxes| && h.boxes[k].owner == hash && !h.boxes[k].closed
  }

  predicate InMap(h: State, k: nat)
    requires k < |h.boxes|
  {
    h.boxes[k].owner in h.inboxes && h.inboxes[h.boxes[k].owner] == k
  }

  lemma RegisterKeepsSound(h: State, cancelled: bool, hash: string)
    requires Sound(h)
    ensures Sound(Register(h, cancelled, hash).0)
  {
    var h' := Register(h, cancelled, hash).0;
    if h' != h {
      forall x | x in h'.inboxes ensures HashLength(x) && Holds(h', x, h'.inboxes[x]) {
        assert x != hash ==> x in h.inboxes && Holds(h, x, h.inboxes[x]);
        assert hash in h.inboxes ==> Holds(h, hash, h.inboxes[hash]);
      }
      forall k | 0 <= k < |h'.boxes| && !h'.boxes[k].closed ensures InMap(h', k) {
        assert k < |h.boxes| ==> InMap(h, k);
      }
    }
  }

  lemma UnregisterKeepsSound(h: State, hash: string)
    requires Sound(h)
    ensures Sound(Unregister(h, hash))
  {
    var h' := Unregister(h, hash);
    if h' != h {
      forall x | x in h'.inboxes ensures HashLength(x) && Holds(h', x, h'.inboxes[x]) {
        assert Holds(h, x, h.inboxes[x]) && Holds(h, hash, h.inboxes[hash]);
      }
      forall k | 0 <= k < |h'.boxes| && !h'.boxes[k].closed ensures InMap(h', k) {
        assert InMap(h, k);
      }
    }
  }

  lemma QueueChangeKeepsSound(h: State, h': State, k: nat)
    requires Sound(h) && k < |h.boxes| && h'.inboxes == h.inboxes
    requires |h'.boxes| == |h.boxes| && h'.boxes[k].closed == h.boxes[k].closed
    requires h'.boxes == h.boxes[k := Box(h.boxes[k].owner, h'.boxes[k].queue, h.boxes[k].closed)]
    requires |h'.boxes[k].queue| <= INBOX_CAPACITY
    ensures Sound(h')
  {
    forall x | x in h'.inboxes ensures HashLength(x) && Holds(h', x, h'.inboxes[x]) {
      assert Holds(h, x, h.inboxes[x]);
    }
    forall j | 0 <= j < |h'.boxes| && !h'.boxes[j].closed ensures InMap(h', j) {
      assert InMap(h, j);
    }
  }

  /** A channel send that comes after its inbox was closed. */
  predicate Late(h: State, op: Op) {
    op.DoPut? && op.k < |h.boxes| && h.boxes[op.k].closed
  }

  lemma StepKeepsSound(h: State, op: Op)
    requires Sound(h)
    ensures Sound(Step(h, op).0)
    ensures Step(h, op).1 == Crashed <==> Late(h, op)
  {
    match op
    case DoRegister(cancelled, hash) => RegisterKeepsSound(h, cancelled, hash);
    case DoUnregister(hash) => UnregisterKeepsSound(h, hash);
    case DoSend(cancelled, to, env) =>
      if !cancelled && to in h.inboxes {
        assert Holds(h, to, h.inboxes[to]);
        QueueChangeKeepsSound(h, Step(h, op).0, h.inboxes[to]);
      }
    case DoPut(k, env) =>
      if k < |h.boxes| && !Late(h, op) {
        QueueChangeKeepsSound(h, Step(h, op).0, k);
      }
    case DoReceive(k) =>
      if k < |h.boxes| {
        QueueChangeKeepsSound(h, Step(h, op).0, k);
      }
  }

  predicate AnyLate(h: State, ops: seq<Op>)
    requires Indexed(h)
    decreases |ops|
  {
    ops != [] && (Late(h, ops[0]) || AnyLate(Step(h, ops[0]).0, ops[1..]))
  }

  /** Every run keeps the hub sound, and a send meets a closed channel in it exactly if it comes late. */
  lemma {:induction false} RunKeepsSound(h: State, ops: seq<Op>)
    requires Sound(h)
    ensures Sound(Run(h, ops).0)
    ensures Crashed in Run(h, ops).1 <==> AnyLate(h, ops)
    decreases |ops|
  {
    assert Indexed(h);
    hide Step, Sound, Late;
    if ops != [] {
      var (h', event) := Step(h, ops[0]);
      StepKeepsSound(h, ops[0]);
      RunKeepsSound(h', ops[1..]);
      assert Run(h, ops).1 == [event] + Run(h', ops[1..]).1;
    }
  }

  lemma EmptyIsSound()
    ensures Sound(EMPTY)
  {
  }

  ghost function OpenBoxes(h: State): set<nat> {
    set k: nat | k < |h.boxes| && !h.boxes[k].closed
  }

  /** The hub reports as many devices as it has open inboxes. */
  lemma ConnectedIsOpen(h: State)
    requires Sound(h)
    ensures |h.inboxes| == |OpenBoxes(h)|
  {
    forall k | k in OpenBoxes(h) ensures k in h.inboxes.Values {
      assert InMap(h, k);
    }
    forall k | k in h.inboxes.Values ensures k in OpenBoxes(h) {
      var hash :| hash in h.inboxes && h.inboxes[hash] == k;
      assert Holds(h, hash, k);
    }
    assert h.inboxes.Values == OpenBoxes(h);
    forall a, b | a in h.inboxes && b in h.inboxes && h.inboxes[a] == h.inboxes[b] ensures a == b {
      assert Holds(h, a, h.inboxes[a]) && Holds(h, b, h.inboxes[b]);
    }
    SessionInvariants.InjectiveMapSize(h.inboxes);
  }

  // Conservation.

  function QueuedIn(events: seq<Event>, k: nat): seq<Envelope> {
    if events == [] then []
    else (if events[0].Queued? && events[0].k == k then [events[0].e] else []) + QueuedIn(events[1..], k)
  }

  function DeliveredFrom(events: seq<Event>, k: nat): seq<Envelope> {
    if events == [] then []
    else (if events[0].Delivered? && events[0].k == k then [events[0].e] else []) + DeliveredFrom(events[1..], k)
  }

  function Pending(h: State, k: nat): seq<Envelope> {
    if k < |h.boxes| then h.boxes[k].queue else []
  }

  lemma StepConserves(h: State, op: Op, k: nat)
    requires Indexed(h)
    ensures var (h', event) := Step(h, op);
      Pending(h, k) + QueuedIn([event], k) == DeliveredFrom([event], k) + Pending(h', k)
  {
    var (h', event) := Step(h, op);
    assert [event][1..] == [];
    if op.DoReceive? && event.Delivered? && op.k == k {
      assert [h.boxes[k].queue[0]] + h.boxes[k].queue[1..] == h.boxes[k].queue;
    }
  }

  lemma LogsUnfold(event: Event, events: seq<Event>, k: nat)
    ensures QueuedIn([event] + events, k) == QueuedIn([event], k) + QueuedIn(events, k)
    ensures DeliveredFrom([event] + events, k) == DeliveredFrom([event], k) + DeliveredFrom(events, k)
  {
    assert ([event] + events)[1..] == events && [event][1..] == [];
  }

  /** Whatever was accepted for an inbox has been delivered from it or still waits in it, in that order. */
  lemma {:induction false} AcceptedIsDeliveredOrPending(h: State, ops: seq<Op>, k: nat)
    requires Indexed(h)
    ensures var (last, events) := Run(h, ops);
      Pending(h, k) + QueuedIn(events, k) == DeliveredFrom(events, k) + Pending(last, k)
    decreases |ops|
  {
    hide Step, Pending;
    if ops != [] {
      var (h', event) := Step(h, ops[0]);
      var (last, events) := Run(h', ops[1..]);
      StepConserves(h, ops[0], k);
      AcceptedIsDeliveredOrPending(h', ops[1..], k);
      LogsUnfold(event, events, k);
      Chain(Pending(h, k), QueuedIn([event], k), DeliveredFrom([event], k), Pending(h', k),
            QueuedIn(events, k), DeliveredFrom(events, k), Pending(last, k));
    }
  }

  lemma Chain<T>(p: seq<T>, q: seq<T>, d: seq<T>, p': seq<T>, qs: seq<T>, ds: seq<T>, p'': seq<T>)
    requires p + q == d + p' && p' + qs == ds + p''
    ensures p + (q + qs) == (d + ds) + p''
  {
    ConcatIsAssociative(p, q, qs);
    ConcatIsAssociative(d, p', qs);
    ConcatIsAssociative(d, ds, p'');
  }

  lemma StepKeepsClosed(h: State, op: Op, k: nat)
    requires Sound(h) && k < |h.boxes|
    ensures var (h', event) := Step(h, op);
      && k < |h'.boxes| && h'.boxes[k].owner == h.boxes[k].owner
      && (h.boxes[k].closed ==> h'.boxes[k].closed && QueuedIn([event], k) == [])
  {
    if op.DoSend? && op.to in h.inboxes {
      assert Holds(h, op.to, h.inboxes[op.to]);
    }
    assert [Step(h, op).1][1..] == [];
  }

  /** A closed inbox stays closed, and accepts nothing more. */
  lemma {:induction false} ClosedOnlyDrains(h: State, ops: seq<Op>, k: nat)
    requires Sound(h) && k < |h.boxes|
    ensures var (last, events) := Run(h, ops);
      && k < |last.boxes| && last.boxes[k].owner == h.boxes[k].owner
      && (h.boxes[k].closed ==> last.boxes[k].closed && QueuedIn(events, k) == [])
    decreases |ops|
  {
    assert Indexed(h);
    hide Step, Sound;
    if ops != [] {
      var (h', event) := Step(h, ops[0]);
      StepKeepsSound(h, ops[0]);
      StepKeepsClosed(h, ops[0], k);
      ClosedOnlyDrains(h', ops[1..], k);
      LogsUnfold(event, Run(h', ops[1..]).1, k);
    }
  }

  /** A write loop that sees the end of its channel has had everything that was ever accepted for it. */
  lemma EndMeansAllDelivered(ops: seq<Op>, more: seq<Op>, k: nat)
    requires var h := Run(EMPTY, ops).0;
      k < |h.boxes| && Drain(h.boxes[k]).1 == Ended
    ensures var (h, events) := Run(EMPTY, ops);
      QueuedIn(events, k) == DeliveredFrom(events, k) && QueuedIn(Run(h, more).1, k) == []
  {
    var (h, events) := Run(EMPTY, ops);
    EmptyIsSound();
    RunKeepsSound(EMPTY, ops);
    AcceptedIsDeliveredOrPending(EMPTY, ops, k);
    ClosedOnlyDrains(h, more, k);
    Bare(QueuedIn(events, k), DeliveredFrom(events, k));
  }

  lemma Bare<T>(a: seq<T>, b: seq<T>)
    requires [] + a == b + []
    ensures a == b
  {
    assert [] + a == a && b + [] == b;
  }

  // Who holds a hash.

  predicate Displaces(op: Op, hash: string) {
    (op.DoRegister? && !op.cancelled && op.hash == hash) || (op.DoUnregister? && op.hash == hash)
  }

  predicate AnyDisplaces(ops: seq<Op>, hash: string) {
    exists i | 0 <= i < |ops| :: Displaces(ops[i], hash)
  }

  lemma StepMayDisplace(h: State, op: Op, hash: string)
    requires Sound(h) && hash in h.inboxes
    ensures var (h', k) := (Step(h, op).0, h.inboxes[hash]);
      && k < |h'.boxes|
      && (Displaces(op, hash) ==> h'.boxes[k].closed)
      && (!Displaces(op, hash) ==> hash in h'.inboxes && h'.inboxes[hash] == k)
  {
    assert Holds(h, hash, h.inboxes[hash]);
    if (op.DoRegister? || op.DoUnregister?) && op.hash in h.inboxes {
      assert Holds(h, op.hash, h.inboxes[op.hash]);
    }
  }

  /** A device keeps its inbox exactly until its hash is registered again or unregistered, by whomever. */
  lemma {:induction false} HeldUntilDisplaced(h: State, ops: seq<Op>, hash: string)
    requires Sound(h) && hash in h.inboxes
    ensures var (h', k) := (Run(h, ops).0, h.inboxes[hash]);
      && k < |h'.boxes|
      && (h'.boxes[k].closed <==> AnyDisplaces(ops, hash))
      && (hash in h'.inboxes && h'.inboxes[hash] == k <==> !AnyDisplaces(ops, hash))
    decreases |ops|
  {
    hide Step, Displaces;
    assert Holds(h, hash, h.inboxes[hash]);
    if ops != [] {
      var (h', k) := (Step(h, ops[0]).0, h.inboxes[hash]);
      var last := Run(h', ops[1..]).0;
      StepKeepsSound(h, ops[0]);
      StepMayDisplace(h, ops[0], hash);
      assert last == Run(h, ops).0;
      if Displaces(ops[0], hash) {
        ClosedOnlyDrains(h', ops[1..], k);
        RunKeepsSound(h', ops[1..]);
        assert hash in last.inboxes ==> Holds(last, hash, last.inboxes[hash]);
      } else {
        HeldUntilDisplaced(h', ops[1..], hash);
        AnyUnfolds(ops, hash);
      }
    }
  }

  lemma AnyUnfolds(ops: seq<Op>, hash: string)
    requires ops != [] && !Displaces(ops[0], hash)
    ensures AnyDisplaces(ops, hash) <==> AnyDisplaces(ops[1..], hash)
  {
    if AnyDisplaces(ops, hash) {
      var i :| 0 <= i < |ops| && Displaces(ops[i], hash);
      assert ops[1..][i - 1] == ops[i];
    }
    if AnyDisplaces(ops[1..], hash) {
      var i :| 0 <= i < |ops| - 1 && Displaces(ops[1..][i], hash);
      assert ops[i + 1] == ops[1..][i];
    }
  }

  /**
   The lookup and the channel send of one call are not under one lock. With other operations in
   between, the call panics exactly when one of them displaced the inbox it had found, and is
   otherwise the call made in one piece.
   */
  lemma SplitSendPanicsWhenDisplaced(h: State, to: string, env: Envelope, between: seq<Op>)
    requires Sound(h) && Look(h, false, to).Success?
    ensures var (h', k) := (Run(h, between).0, Look(h, false, to).value);
      && k < |h'.boxes|
      && (Put(h', k, env).1.Panicked? <==> AnyDisplaces(between, to))
      && (!AnyDisplaces(between, to) ==> Put(h', k, env) == Send(h', false, to, env))
  {
    HeldUntilDisplaced(h, between, to);
  }

  /** So it happens: the receiver registers, is looked up, and unregisters before the channel send. */
  lemma SplitSendPanics(to: string, env: Envelope)
    requires HashLength(to)
    ensures var (h, between) := (Run(EMPTY, [DoRegister(false, to)]).0, [DoUnregister(to)]);
      && Look(h, false, to).Success? && Look(h, false, to).value == 0
      && |Run(h, between).0.boxes| == 1 && Put(Run(h, between).0, 0, env).1.Panicked?
  {
    var h := Step(EMPTY, DoRegister(false, to)).0;
    assert [DoRegister(false, to)][1..] == [] && [DoUnregister(to)][1..] == [];
    assert Run(h, [DoUnregister(to)]).0 == Step(h, DoUnregister(to)).0;
  }
}

/**
 Connections on top of the hub: who can have sent what is delivered, when a send is overtaken, and
 how many ICE frames pass.
 */
module RelayRuns {
  import opened Sequences
  import opened Wrappers
  import opened TokenBuckets
  import opened Signalling
  import opened SignallingRuns

  /**
   A connection, the inbox its read loop has looked up for a frame it has yet to hand over, and whether
   its handler has ended. Connection i is the one that registered inbox i.
   */
  datatype Link = Link(conn: Conn, sending: Option<(nat, Envelope)>, ended: bool)

  datatype Relay = Relay(hub: State, links: seq<Link>)

  const EMPTY_RELAY := Relay(EMPTY, [])

  datatype Move =
    | Connect(cancelled: bool, hash: string)
    | Frame(i: nat, a: Arrival, cancelled: bool)
    | HandOver(i: nat)
    | Disconnect(i: nat)
    | WriteOne(i: nat)

  /** A connection reads its next frame only when it is done with the last one. */
  predicate Reads(r: Relay, i: nat) {
    i < |r.links| && r.links[i].conn.reading && r.links[i].sending.None? && !r.links[i].ended
  }

  predicate Ends(r: Relay, i: nat) {
    i < |r.links| && r.links[i].sending.None? && !r.links[i].ended
  }

  /** What a move asks of the hub, besides a lookup. */
  function Asks(r: Relay, m: Move): Option<Op> {
    match m
    case Connect(cancelled, hash) => Some(DoRegister(cancelled, hash))
    case Frame(_, _, _) => None
    case HandOver(i) =>
      if i < |r.links| && r.links[i].sending.Some? then
        Some(DoPut(r.links[i].sending.value.0, r.links[i].sending.value.1))
      else None
    case Disconnect(i) => if Ends(r, i) then Some(DoUnregister(r.links[i].conn.hash)) else None
    case WriteOne(i) => Some(DoReceive(i))
  }

  /** A frame that is to be passed on, and whose receiver is found. */
  function Found(h: State, a: Arrival, cancelled: bool, v: Verdict): Option<(nat, Envelope)> {
    if !v.Route? then None
    else
      match Look(h, cancelled, a.env.to)
      case Failure(_) => None
      case Success(k) => Some((k, a.env))
  }

  function After(r: Relay, l: Limits, m: Move): seq<Link>
    requires Indexed(r.hub)
  {
    match m
    case Connect(cancelled, hash) =>
      if Register(r.hub, cancelled, hash).1.Success? then r.links + [Link(Conn(hash, map[], true), None, false)]
      else r.links
    case Frame(i, a, cancelled) =>
      if !Reads(r, i) then r.links
      else
        var (c, v) := Judge(r.links[i].conn, l, a);
        r.links[i := Link(c, Found(r.hub, a, cancelled, v), false)]
    case HandOver(i) =>
      if i >= |r.links| then r.links
      else
        var link := r.links[i];
        var crashed := Asks(r, m).Some? && Late(r.hub, Asks(r, m).value);
        r.links[i := Link(link.conn.(reading := link.conn.reading && !crashed), None, link.ended)]
    case Disconnect(i) =>
      if !Ends(r, i) then r.links
      else r.links[i := Link(r.links[i].conn.(reading := false), None, true)]
    case WriteOne(_) => r.links
  }

  function Advance(r: Relay, l: Limits, m: Move): (r': (Relay, Event))
    requires Indexed(r.hub)
    ensures Indexed(r'.0.hub)
  {
    match Asks(r, m)
    case None => (Relay(r.hub, After(r, l, m)), Quiet)
    case Some(op) =>
      var (h, event) := Step(r.hub, op);
      (Relay(h, After(r, l, m)), event)
  }

  function Play(r: Relay, l: Limits, moves: seq<Move>): (r': (Relay, seq<Event>))
    requires Indexed(r.hub)
    ensures Indexed(r'.0.hub) && |r'.1| == |moves|
    decreases |moves|
  {
    if moves == [] then (r, [])
    else
      var (r', event) := Advance(r, l, moves[0]);
      var (last, events) := Play(r', l, moves[1..]);
      (last, [event] + events)
  }

  // The connections only call the hub.

  function OpsOf(r: Relay, l: Limits, moves: seq<Move>): seq<Op>
    requires Indexed(r.hub)
    decreases |moves|
  {
    if moves == [] then []
    else
      (match Asks(r, moves[0])
       case None => []
       case Some(op) => [op]) + OpsOf(Advance(r, l, moves[0]).0, l, moves[1..])
  }

  /** The events of those moves that ask something of the hub. */
  function HubEvents(r: Relay, l: Limits, moves: seq<Move>): seq<Event>
    requires Indexed(r.hub)
    decreases |moves|
  {
    if moves == [] then []
    else
      var (r', event) := Advance(r, l, moves[0]);
      (if Asks(r, moves[0]).None? then [] else [event]) + HubEvents(r', l, moves[1..])
  }

  /** Any run of connections is a run of the hub, state and events: all that holds of its runs holds of theirs. */
  lemma {:induction false} PlayIsARun(r: Relay, l: Limits, moves: seq<Move>)
    requires Indexed(r.hub)
    ensures (Play(r, l, moves).0.hub, HubEvents(r, l, moves)) == Run(r.hub, OpsOf(r, l, moves))
    decreases |moves|
  {
    hide Step, After, Asks;
    if moves != [] {
      var r' := Advance(r, l, moves[0]).0;
      PlayIsARun(r', l, moves[1..]);
      if Asks(r, moves[0]).Some? {
        assert OpsOf(r, l, moves)[0] == Asks(r, moves[0]).value;
        assert OpsOf(r, l, moves)[1..] == OpsOf(r', l, moves[1..]);
      } else {
        assert OpsOf(r, l, moves) == OpsOf(r', l, moves[1..]);
        assert HubEvents(r, l, moves) == HubEvents(r', l, moves[1..]);
      }
    }
  }

  lemma {:induction false} QuietMovesLogNothing(r: Relay, l: Limits, moves: seq<Move>, k: nat)
    requires Indexed(r.hub)
    ensures QueuedIn(Play(r, l, moves).1, k) == QueuedIn(HubEvents(r, l, moves), k)
    ensures DeliveredFrom(Play(r, l, moves).1, k) == DeliveredFrom(HubEvents(r, l, moves), k)
    decreases |moves|
  {
    hide Step, After, Asks;
    if moves != [] {
      var (r', event) := Advance(r, l, moves[0]);
      QuietMovesLogNothing(r', l, moves[1..], k);
      LogsUnfold(event, Play(r', l, moves[1..]).1, k);
      LogsUnfold(event, HubEvents(r', l, moves[1..]), k);
      assert QueuedIn([Quiet], k) == [] && DeliveredFrom([Quiet], k) == [] by { assert [Quiet][1..] == []; }
      assert Asks(r, moves[0]).None? ==> event == Quiet;
      assert forall xs: seq<Event> :: [] + xs == xs;
      assert forall xs: seq<Envelope> :: [] + xs == xs;
    }
  }

  /** So with connections too, what was accepted for an inbox is what was delivered from it, then what waits. */
  lemma PlayConserves(r: Relay, l: Limits, moves: seq<Move>, k: nat)
    requires Indexed(r.hub)
    ensures var (last, events) := Play(r, l, moves);
      Pending(r.hub, k) + QueuedIn(events, k) == DeliveredFrom(events, k) + Pending(last.hub, k)
  {
    PlayIsARun(r, l, moves);
    QuietMovesLogNothing(r, l, moves, k);
    AcceptedIsDeliveredOrPending(r.hub, OpsOf(r, l, moves), k);
  }

  // What every move keeps.

  /** A frame under way is well formed, from the connection that read it, and for the owner of the inbox found. */
  predicate Honest(r: Relay, i: nat)
    requires i < |r.links|
  {
    match r.links[i].sending
    case None => true
    case Some((k, e)) =>
      && k < |r.links| && k < |r.hub.boxes| && r.links[k].conn.hash == e.to
      && e.from == r.links[i].conn.hash && Wellformed(e)
  }

  ghost predicate RelaySound(r: Relay) {
    && Sound(r.hub)
    && |r.links| == |r.hub.boxes|
    && (forall i | 0 <= i < |r.links| :: r.links[i].conn.hash == r.hub.boxes[i].owner)
    && (forall i | 0 <= i < |r.links| :: Honest(r, i))
  }

  /** Connections only accumulate, and none changes its hash. */
  predicate Grows(r: Relay, r': Relay) {
    |r.links| <= |r'.links| && forall i | 0 <= i < |r.links| :: r'.links[i].conn.hash == r.links[i].conn.hash
  }

  lemma JudgeKeepsHash(c: Conn, l: Limits, a: Arrival)
    ensures Judge(c, l, a).0.hash == c.hash
    ensures Judge(c, l, a).1.Route? ==> Wellformed(a.env) && a.env.from == c.hash
  {
    hide Allow, Wellformed;
  }

  lemma AdvanceGrows(r: Relay, l: Limits, m: Move)
    requires Indexed(r.hub)
    ensures Grows(r, Advance(r, l, m).0)
  {
    hide Judge, Step, Register, Found;
    if m.Frame? && m.i < |r.links| {
      JudgeKeepsHash(r.links[m.i].conn, l, m.a);
    }
  }

  lemma StepShape(h: State, op: Op)
    requires Sound(h)
    ensures var (h', event) := Step(h, op);
      && |h'.boxes| == |h.boxes| + (if op.DoRegister? && Register(h, op.cancelled, op.hash).1.Success? then 1 else 0)
      && (forall i | 0 <= i < |h.boxes| :: h'.boxes[i].owner == h.boxes[i].owner)
      && (|h'.boxes| > |h.boxes| ==> h'.boxes[|h.boxes|].owner == op.hash)
  {
    if op.DoSend? && op.to in h.inboxes {
      assert Holds(h, op.to, h.inboxes[op.to]);
    }
  }

  lemma OwnersMatch(r: Relay, l: Limits, m: Move)
    requires RelaySound(r)
    ensures var r' := Advance(r, l, m).0;
      && Sound(r'.hub) && |r'.links| == |r'.hub.boxes| && |r.hub.boxes| <= |r'.hub.boxes|
      && (forall i | 0 <= i < |r'.links| :: r'.links[i].conn.hash == r'.hub.boxes[i].owner)
  {
    assert Indexed(r.hub);
    hide Judge, Sound, Step, Register, Found, Honest;
    if m.Frame? && m.i < |r.links| {
      JudgeKeepsHash(r.links[m.i].conn, l, m.a);
    }
    if Asks(r, m).Some? {
      StepKeepsSound(r.hub, Asks(r, m).value);
      StepShape(r.hub, Asks(r, m).value);
    }
  }

  lemma FoundIsHonest(r: Relay, l: Limits, i: nat, a: Arrival, cancelled: bool)
    requires RelaySound(r) && i < |r.links|
    ensures var (c, v) := Judge(r.links[i].conn, l, a);
      match Found(r.hub, a, cancelled, v)
      case None => true
      case Some((k, e)) =>
        k < |r.links| && r.links[k].conn.hash == e.to && e == a.env && e.from == c.hash && Wellformed(e)
  {
    JudgeKeepsHash(r.links[i].conn, l, a);
    hide Judge, Wellformed;
    assert a.env.to in r.hub.inboxes ==> Holds(r.hub, a.env.to, r.hub.inboxes[a.env.to]);
  }

  lemma AdvanceKeepsSound(r: Relay, l: Limits, m: Move)
    requires RelaySound(r)
    ensures RelaySound(Advance(r, l, m).0)
  {
    var r' := Advance(r, l, m).0;
    OwnersMatch(r, l, m);
    AdvanceGrows(r, l, m);
    if m.Frame? && m.i < |r.links| {
      FoundIsHonest(r, l, m.i, m.a, m.cancelled);
    }
    forall i | 0 <= i < |r'.links| ensures Honest(r', i) {
      hide Judge, Sound, Step, Register, Found, Wellformed;
      if i < |r.links| {
        assert Honest(r, i);
      }
    }
  }

  lemma {:induction false} PlayKeepsSound(r: Relay, l: Limits, moves: seq<Move>)
    requires RelaySound(r)
    ensures RelaySound(Play(r, l, moves).0) && Grows(r, Play(r, l, moves).0)
    decreases |moves|
  {
    assert Indexed(r.hub);
    hide Advance, RelaySound;
    if moves != [] {
      AdvanceKeepsSound(r, l, moves[0]);
      AdvanceGrows(r, l, moves[0]);
      PlayKeepsSound(Advance(r, l, moves[0]).0, l, moves[1..]);
    }
  }

  // Points of a run from the empty relay.

  function At(l: Limits, moves: seq<Move>, n: nat): (r: Relay)
    requires n <= |moves|
    ensures Indexed(r.hub)
  {
    Play(EMPTY_RELAY, l, moves[..n]).0
  }

  lemma {:induction false} PlayOneMore(r: Relay, l: Limits, moves: seq<Move>, n: nat)
    requires Indexed(r.hub) && n < |moves|
    ensures var (before, events) := Play(r, l, moves[..n]);
            var (after, event) := Advance(before, l, moves[n]);
      Play(r, l, moves[..n + 1]) == (after, events + [event])
    decreases n
  {
    hide Advance;
    if n == 0 {
      var (r', event) := Advance(r, l, moves[0]);
      assert moves[..1] == [moves[0]] && [moves[0]][1..] == [] && moves[..0] == [];
      assert Play(r', l, []) == (r', []) && Play(r, l, []) == (r, []);
      assert [event] + [] == [] + [event];
    } else {
      var (r', event) := Advance(r, l, moves[0]);
      PlayOneMore(r', l, moves[1..], n - 1);
      assert moves[..n][1..] == moves[1..][..n - 1] && moves[..n + 1][1..] == moves[1..][..n];
      var (before, events) := Play(r', l, moves[1..][..n - 1]);
      ConcatIsAssociative([event], events, [Advance(before, l, moves[n]).1]);
    }
  }

  lemma {:induction false} PlayPrefix(r: Relay, l: Limits, moves: seq<Move>, n: nat)
    requires Indexed(r.hub) && n <= |moves|
    ensures Play(r, l, moves[..n]).1 == Play(r, l, moves).1[..n]
    decreases |moves| - n
  {
    hide Advance;
    if n == |moves| {
      assert moves[..n] == moves;
    } else {
      PlayOneMore(r, l, moves, n);
      PlayPrefix(r, l, moves, n + 1);
      var events := Play(r, l, moves[..n]).1;
      assert Play(r, l, moves[..n + 1]).1[..n] == events;
      assert Play(r, l, moves).1[..n + 1][..n] == Play(r, l, moves).1[..n];
    }
  }

  lemma EventAt(l: Limits, moves: seq<Move>, n: nat)
    requires n < |moves|
    ensures Play(EMPTY_RELAY, l, moves).1[n] == Advance(At(l, moves, n), l, moves[n]).1
    ensures At(l, moves, n + 1) == Advance(At(l, moves, n), l, moves[n]).0
  {
    hide Advance;
    PlayOneMore(EMPTY_RELAY, l, moves, n);
    PlayPrefix(EMPTY_RELAY, l, moves, n + 1);
    assert Play(EMPTY_RELAY, l, moves).1[..n + 1][n] == Play(EMPTY_RELAY, l, moves).1[n];
  }

  lemma EmptyRelayIsSound()
    ensures RelaySound(EMPTY_RELAY)
  {
  }

  lemma AtIsSound(l: Limits, moves: seq<Move>, n: nat)
    requires n <= |moves|
    ensures RelaySound(At(l, moves, n))
  {
    EmptyRelayIsSound();
    PlayKeepsSound(EMPTY_RELAY, l, moves[..n]);
  }

  /** Connection i read this frame at move j. */
  predicate ReadAt(l: Limits, moves: seq<Move>, j: nat, i: nat, e: Envelope)
    requires j < |moves|
  {
    moves[j].Frame? && moves[j].i == i && moves[j].a.env == e && Reads(At(l, moves, j), i)
  }

  lemma SendingChanges(r: Relay, l: Limits, m: Move, i: nat)
    requires RelaySound(r) && i < |Advance(r, l, m).0.links| && Advance(r, l, m).0.links[i].sending.Some?
    ensures i < |r.links|
    ensures r.links[i].sending == Advance(r, l, m).0.links[i].sending
      || (m.Frame? && m.i == i && Reads(r, i) && m.a.env == Advance(r, l, m).0.links[i].sending.value.1)
  {
    hide Judge, Sound, Step, Register, Look;
  }

  /** A frame under way was read by its connection earlier on. */
  lemma {:induction false} SendingWasRead(l: Limits, moves: seq<Move>, n: nat, i: nat)
    requires n <= |moves| && i < |At(l, moves, n).links| && At(l, moves, n).links[i].sending.Some?
    ensures exists j | 0 <= j < n :: ReadAt(l, moves, j, i, At(l, moves, n).links[i].sending.value.1)
    decreases n
  {
    hide Advance, RelaySound;
    if n > 0 {
      hide At;
      EventAt(l, moves, n - 1);
      AtIsSound(l, moves, n - 1);
      SendingChanges(At(l, moves, n - 1), l, moves[n - 1], i);
      if At(l, moves, n - 1).links[i].sending == At(l, moves, n).links[i].sending {
        SendingWasRead(l, moves, n - 1, i);
      } else {
        assert ReadAt(l, moves, n - 1, i, At(l, moves, n).links[i].sending.value.1);
      }
    }
  }

  /**
   At move j a connection whose hash the frame names as its sender read it, and at move m the same
   connection put it into inbox k, whose owner it names as its addressee.
   */
  predicate SentAt(l: Limits, moves: seq<Move>, j: nat, m: nat, k: nat, e: Envelope)
    requires j < |moves| && m < |moves|
  {
    && moves[m].HandOver? && ReadAt(l, moves, j, moves[m].i, e)
    && var r := At(l, moves, m);
       && moves[m].i < |r.links| && r.links[moves[m].i].conn.hash == e.from
       && k < |r.links| && r.links[k].conn.hash == e.to
       && Wellformed(e)
  }

  lemma QueuedByHandOver(r: Relay, l: Limits, m: Move, k: nat, e: Envelope)
    requires RelaySound(r) && Advance(r, l, m).1 == Queued(k, e)
    ensures m.HandOver? && m.i < |r.links| && r.links[m.i].sending == Some((k, e))
  {
    hide Judge, Sound, Register, Unregister, Look;
  }

  /** Whatever is accepted for an inbox was sent to its owner by a connection of the hash it names. */
  lemma QueuedWasSent(l: Limits, moves: seq<Move>, m: nat, k: nat, e: Envelope)
    requires m < |moves| && Play(EMPTY_RELAY, l, moves).1[m] == Queued(k, e)
    ensures exists j | 0 <= j < m :: SentAt(l, moves, j, m, k, e)
  {
    hide Advance, At;
    var r := At(l, moves, m);
    EventAt(l, moves, m);
    AtIsSound(l, moves, m);
    QueuedByHandOver(r, l, moves[m], k, e);
    SendingWasRead(l, moves, m, moves[m].i);
    assert Honest(r, moves[m].i);
    var j :| 0 <= j < m && ReadAt(l, moves, j, moves[m].i, e);
    assert SentAt(l, moves, j, m, k, e);
  }

  lemma {:induction false} LoggedAt(events: seq<Event>, k: nat, e: Envelope)
    ensures e in QueuedIn(events, k) <==> exists m | 0 <= m < |events| :: events[m] == Queued(k, e)
    ensures e in DeliveredFrom(events, k) <==> exists m | 0 <= m < |events| :: events[m] == Delivered(k, e)
  {
    if events != [] {
      LoggedAt(events[1..], k, e);
      assert forall m | 0 < m < |events| :: events[m] == events[1..][m - 1];
    }
  }

  /** Whatever is delivered to a device was addressed to it, and sent by a connection of the hash it names. */
  lemma DeliveriesAreGenuine(l: Limits, moves: seq<Move>, n: nat, k: nat, e: Envelope)
    requires n < |moves| && Play(EMPTY_RELAY, l, moves).1[n] == Delivered(k, e)
    ensures exists j, m | 0 <= j < m < n ::
      Play(EMPTY_RELAY, l, moves).1[m] == Queued(k, e) && SentAt(l, moves, j, m, k, e)
  {
    hide Play, SentAt;
    var events := Play(EMPTY_RELAY, l, moves).1;
    PlayPrefix(EMPTY_RELAY, l, moves, n + 1);
    var log := events[..n + 1];
    PlayConserves(EMPTY_RELAY, l, moves[..n + 1], k);
    assert [] + QueuedIn(log, k) == QueuedIn(log, k);
    LoggedAt(log, k, e);
    assert log[n] == Delivered(k, e);
    assert e in DeliveredFrom(log, k) + Pending(Play(EMPTY_RELAY, l, moves[..n + 1]).0.hub, k);
    var m :| 0 <= m < |log| && log[m] == Queued(k, e);
    assert m < n;
    QueuedWasSent(l, moves, m, k, e);
    var j :| 0 <= j < m && SentAt(l, moves, j, m, k, e);
    assert events[m] == Queued(k, e);
  }

  // Inboxes that are cut off, and sends that are overtaken.

  /** A connection with that hash comes, or one with that hash goes, whichever of them that is. */
  predicate Cuts(r: Relay, m: Move, hash: string) {
    match m
    case Connect(cancelled, h) => !cancelled && h == hash
    case Disconnect(i) => Ends(r, i) && r.links[i].conn.hash == hash
    case _ => false
  }

  predicate AnyCuts(r: Relay, l: Limits, moves: seq<Move>, hash: string)
    requires Indexed(r.hub)
    decreases |moves|
  {
    moves != [] && (Cuts(r, moves[0], hash) || AnyCuts(Advance(r, l, moves[0]).0, l, moves[1..], hash))
  }

  lemma {:induction false} CutsAreDisplacements(r: Relay, l: Limits, moves: seq<Move>, hash: string)
    requires Indexed(r.hub)
    ensures AnyDisplaces(OpsOf(r, l, moves), hash) <==> AnyCuts(r, l, moves, hash)
    decreases |moves|
  {
    hide After, Step;
    if moves != [] {
      var r' := Advance(r, l, moves[0]).0;
      var ops, rest := OpsOf(r, l, moves), OpsOf(r', l, moves[1..]);
      CutsAreDisplacements(r', l, moves[1..], hash);
      if Asks(r, moves[0]).None? {
        assert ops == rest;
      } else {
        assert ops[0] == Asks(r, moves[0]).value && ops[1..] == rest;
        assert Displaces(ops[0], hash) <==> Cuts(r, moves[0], hash);
        if !Displaces(ops[0], hash) {
          AnyUnfolds(ops, hash);
        }
      }
    }
  }

  /**
   An inbox stays open exactly until a connection of its hash is made or comes to an end, even where the
   one that ends is an older connection than the one the inbox belongs to.
   */
  lemma DisconnectCutsTheHolder(r: Relay, l: Limits, moves: seq<Move>, k: nat)
    requires RelaySound(r) && k < |r.links| && !r.hub.boxes[k].closed
    ensures var r' := Play(r, l, moves).0;
      k < |r'.hub.boxes| && (r'.hub.boxes[k].closed <==> AnyCuts(r, l, moves, r.links[k].conn.hash))
  {
    var hash := r.links[k].conn.hash;
    assert InMap(r.hub, k);
    PlayIsARun(r, l, moves);
    HeldUntilDisplaced(r.hub, OpsOf(r, l, moves), hash);
    CutsAreDisplacements(r, l, moves, hash);
  }

  lemma PlayCons(r: Relay, l: Limits, m: Move, moves: seq<Move>)
    requires Indexed(r.hub)
    ensures Play(r, l, [m] + moves).0 == Play(Advance(r, l, m).0, l, moves).0
  {
    assert ([m] + moves)[1..] == moves;
  }

  /** So it happens: a device connects anew, and then its old connection ends and closes the new inbox. */
  lemma NewConnectionIsCut(l: Limits, hash: string)
    requires HashLength(hash)
    ensures var r := Play(EMPTY_RELAY, l, [Connect(false, hash), Connect(false, hash), Disconnect(0)]).0;
      |r.links| == 2 && |r.hub.boxes| == 2 && !r.links[1].ended && r.hub.boxes[1].closed && hash !in r.hub.inboxes
  {
    var r1 := Advance(EMPTY_RELAY, l, Connect(false, hash)).0;
    var r2 := Advance(r1, l, Connect(false, hash)).0;
    assert [Connect(false, hash), Connect(false, hash), Disconnect(0)]
        == [Connect(false, hash)] + ([Connect(false, hash)] + ([Disconnect(0)] + []));
    PlayCons(EMPTY_RELAY, l, Connect(false, hash), [Connect(false, hash)] + ([Disconnect(0)] + []));
    PlayCons(r1, l, Connect(false, hash), [Disconnect(0)] + []);
    PlayCons(r2, l, Disconnect(0), []);
  }

  /** While connection i has a frame under way, nothing but handing it over changes that. */
  lemma {:induction false} FrameStaysUnderWay(r: Relay, l: Limits, between: seq<Move>, i: nat)
    requires RelaySound(r) && i < |r.links| && r.links[i].sending.Some?
    requires forall n | 0 <= n < |between| :: between[n] != HandOver(i)
    ensures var r' := Play(r, l, between).0;
      i < |r'.links| && r'.links[i].sending == r.links[i].sending
    decreases |between|
  {
    assert Indexed(r.hub);
    hide RelaySound, Judge, Step, Register;
    if between != [] {
      AdvanceKeepsSound(r, l, between[0]);
      assert between[0] != HandOver(i);
      FrameStaysUnderWay(Advance(r, l, between[0]).0, l, between[1..], i);
    }
  }

  /**
   A connection that hands over a frame for which it looked up an inbox some time ago meets a closed
   channel exactly when a connection of that hash was made or came to an end in between.
   */
  lemma {:induction false} LateHandOverPanics(r: Relay, l: Limits, i: nat, a: Arrival, between: seq<Move>)
    requires RelaySound(r) && Reads(r, i)
    requires Advance(r, l, Frame(i, a, false)).0.links[i].sending.Some?
    requires forall n | 0 <= n < |between| :: between[n] != HandOver(i)
    ensures var r1 := Advance(r, l, Frame(i, a, false)).0;
            var r2 := Play(r1, l, between).0;
      Advance(r2, l, HandOver(i)).1 == Crashed <==> AnyCuts(r1, l, between, a.env.to)
  {
    var r1 := Advance(r, l, Frame(i, a, false)).0;
    var r2 := Play(r1, l, between).0;
    assert r1.hub == r.hub && a.env.to in r.hub.inboxes;
    assert r1.links[i].sending == Some((r.hub.inboxes[a.env.to], a.env));
    AdvanceKeepsSound(r, l, Frame(i, a, false));
    FrameStaysUnderWay(r1, l, between, i);
    PlayIsARun(r1, l, between);
    HeldUntilDisplaced(r1.hub, OpsOf(r1, l, between), a.env.to);
    CutsAreDisplacements(r1, l, between, a.env.to);
    PlayKeepsSound(r1, l, between);
    hide Play, OpsOf, Judge, AnyDisplaces, AnyCuts, RelaySound;
    CrashedIsLate(r2, i);
  }

  lemma CrashedIsLate(r: Relay, i: nat)
    requires RelaySound(r) && i < |r.links| && r.links[i].sending.Some?
    ensures var op := Asks(r, HandOver(i)).value; Step(r.hub, op).1 == Crashed <==> Late(r.hub, op)
  {
    StepKeepsSound(r.hub, Asks(r, HandOver(i)).value);
  }

  /** So it happens: the receiver connects anew between the lookup and the hand-over. */
  lemma HandOverPanics(l: Limits, a: Arrival)
    requires HashLength(a.env.from) && HashLength(a.env.to) && a.env.from != a.env.to
    requires Wellformed(a.env) && a.env.kind != ICE
    ensures var r := Play(EMPTY_RELAY, l,
        [Connect(false, a.env.from), Connect(false, a.env.to), Frame(0, a, false), Connect(false, a.env.to)]).0;
      Advance(r, l, HandOver(0)).1 == Crashed
  {
    var (from, to) := (a.env.from, a.env.to);
    var r1 := Advance(EMPTY_RELAY, l, Connect(false, from)).0;
    var r2 := Advance(r1, l, Connect(false, to)).0;
    var r3 := Advance(r2, l, Frame(0, a, false)).0;
    assert r3.links[0].sending == Some((1, a.env));
    assert [Connect(false, from), Connect(false, to), Frame(0, a, false), Connect(false, to)]
        == [Connect(false, from)] + ([Connect(false, to)] + ([Frame(0, a, false)] + ([Connect(false, to)] + [])));
    var rest := [Frame(0, a, false)] + ([Connect(false, to)] + []);
    PlayCons(EMPTY_RELAY, l, Connect(false, from), [Connect(false, to)] + rest);
    PlayCons(r1, l, Connect(false, to), rest);
    PlayCons(r2, l, Frame(0, a, false), [Connect(false, to)] + []);
    PlayCons(r3, l, Connect(false, to), []);
  }

  // The ICE rate of one connection.

  /** Frames are judged in the order of a clock that does not go back. */
  predicate Clocked(arrivals: seq<Arrival>, from: real, to: real)
    decreases |arrivals|
  {
    arrivals != [] ==>
      from <= arrivals[0].made <= arrivals[0].now <= to && Clocked(arrivals[1..], arrivals[0].now, to)
  }

  predicate Charged(c: Conn, a: Arrival, session: string) {
    c.reading && Wellformed(a.env) && a.env.from == c.hash && a.env.kind == ICE && a.env.session == session
  }

  function Read(c: Conn, l: Limits, a: Arrival): Conn {
    if c.reading then Judge(c, l, a).0 else c
  }

  predicate Passes(c: Conn, l: Limits, a: Arrival, session: string) {
    Charged(c, a, session) && !Judge(c, l, a).1.RateLimited?
  }

  /** How many ICE frames of one session the connection lets through. */
  function IcePassed(c: Conn, l: Limits, arrivals: seq<Arrival>, session: string): nat
    decreases |arrivals|
  {
    if arrivals == [] then 0
    else
      (if Passes(c, l, arrivals[0], session) then 1 else 0)
      + IcePassed(Read(c, l, arrivals[0]), l, arrivals[1..], session)
  }

  lemma ChargedSpends(c: Conn, l: Limits, a: Arrival, session: string)
    requires Charged(c, a, session)
    ensures session in Read(c, l, a).buckets
    ensures (Read(c, l, a).buckets[session], Passes(c, l, a, session))
         == Allow(BucketFor(c, l, a), l.burst as real, l.rate, a.now)
  {
    hide Allow;
  }

  lemma OthersKeepBucket(c: Conn, l: Limits, a: Arrival, session: string)
    requires !Charged(c, a, session)
    ensures !Passes(c, l, a, session)
    ensures session in Read(c, l, a).buckets <==> session in c.buckets
    ensures session in c.buckets ==> Read(c, l, a).buckets[session] == c.buckets[session]
  {
    hide Allow;
  }

  lemma AllowIsFunded(b: Bucket, capacity: real, rate: real, now: real, end: real)
    requires rate > 0.0 && capacity >= 1.0 && Proper(b, capacity) && b.last <= now <= end
    ensures var (b', ok) := Allow(b, capacity, rate, now);
      && Proper(b', capacity) && b'.last == now
      && (if ok then 1.0 else 0.0) + b'.tokens <= capacity
      && (if ok then 1.0 else 0.0) + b'.tokens + Gain(end - now, rate) <= b.tokens + Gain(end - b.last, rate)
  {
    hide Gain;
    AllowIsTake(b, capacity, rate, now);
    TakeIsProper(Some(b), capacity, rate, now);
    TakeIsFunded(b, capacity, rate, now, end);
    GainIsNonnegative(now - b.last, rate);
  }

  lemma {:induction false} PassedIsFunded(c: Conn, l: Limits, arrivals: seq<Arrival>, session: string, to: real)
    requires Usable(l) && session in c.buckets && Proper(c.buckets[session], l.burst as real)
    requires c.buckets[session].last <= to && Clocked(arrivals, c.buckets[session].last, to)
    ensures IcePassed(c, l, arrivals, session) as real
         <= c.buckets[session].tokens + Gain(to - c.buckets[session].last, l.rate)
    decreases |arrivals|
  {
    hide Gain, Charged, Passes, Read, Allow;
    var b := c.buckets[session];
    if arrivals == [] {
      GainIsNonnegative(to - b.last, l.rate);
    } else {
      var c' := Read(c, l, arrivals[0]);
      if Charged(c, arrivals[0], session) {
        assert BucketFor(c, l, arrivals[0]) == b by { ChargedNamesSession(c, arrivals[0], session); }
        ChargedSpends(c, l, arrivals[0], session);
        AllowIsFunded(b, l.burst as real, l.rate, arrivals[0].now, to);
      } else {
        OthersKeepBucket(c, l, arrivals[0], session);
        ClockedEarlier(arrivals[1..], b.last, arrivals[0].now, to);
      }
      PassedIsFunded(c', l, arrivals[1..], session, to);
    }
  }

  lemma ChargedNamesSession(c: Conn, a: Arrival, session: string)
    requires Charged(c, a, session)
    ensures a.env.session == session
  {
  }

  lemma ClockedEarlier(arrivals: seq<Arrival>, earlier: real, from: real, to: real)
    requires Clocked(arrivals, from, to) && earlier <= from
    ensures Clocked(arrivals, earlier, to)
  {
  }

  /**
   In any stretch of time one connection lets through at most the burst plus the refill of each
   session's ICE frames.
   */
  lemma {:induction false} IceIsBounded(c: Conn, l: Limits, arrivals: seq<Arrival>, session: string,
                                        from: real, to: real)
    requires Usable(l) && from <= to && Clocked(arrivals, from, to)
    requires session in c.buckets ==> Proper(c.buckets[session], l.burst as real) && c.buckets[session].last <= from
    ensures IcePassed(c, l, arrivals, session) as real <= l.burst as real + Gain(to - from, l.rate)
    decreases |arrivals|
  {
    hide Gain, Charged, Passes, Read, Allow;
    if arrivals == [] {
      GainIsNonnegative(to - from, l.rate);
    } else {
      var a := arrivals[0];
      var c' := Read(c, l, a);
      if Charged(c, a, session) {
        var b := BucketFor(c, l, a);
        ChargedNamesSession(c, a, session);
        ChargedSpends(c, l, a, session);
        AllowIsFunded(b, l.burst as real, l.rate, a.now, to);
        PassedIsFunded(c', l, arrivals[1..], session, to);
        GainIsMonotone(to - a.now, to - from, l.rate);
      } else {
        OthersKeepBucket(c, l, a, session);
        ClockedEarlier(arrivals[1..], from, a.now, to);
        IceIsBounded(c', l, arrivals[1..], session, from, to);
      }
    }
  }

  function ReadAll(c: Conn, l: Limits, arrivals: seq<Arrival>): Conn
    decreases |arrivals|
  {
    if arrivals == [] then c else ReadAll(Read(c, l, arrivals[0]), l, arrivals[1..])
  }

  predicate AllProper(c: Conn, l: Limits, now: real) {
    forall s | s in c.buckets :: Proper(c.buckets[s], l.burst as real) && c.buckets[s].last <= now
  }

  lemma {:induction false} ReadAllIsProper(c: Conn, l: Limits, arrivals: seq<Arrival>, from: real, to: real)
    requires Usable(l) && from <= to && Clocked(arrivals, from, to) && AllProper(c, l, from)
    ensures AllProper(ReadAll(c, l, arrivals), l, to)
    decreases |arrivals|
  {
    hide Gain, Charged, Read, Allow;
    if arrivals != [] {
      var a := arrivals[0];
      var c' := Read(c, l, a);
      forall s | s in c'.buckets ensures Proper(c'.buckets[s], l.burst as real) && c'.buckets[s].last <= a.now {
        if Charged(c, a, s) {
          ChargedNamesSession(c, a, s);
          ChargedSpends(c, l, a, s);
          AllowIsFunded(BucketFor(c, l, a), l.burst as real, l.rate, a.now, a.now);
        } else {
          OthersKeepBucket(c, l, a, s);
        }
      }
      ReadAllIsProper(c', l, arrivals[1..], a.now, to);
    }
  }

  /** So whatever a connection has read before, each session's ICE frames are held to the burst plus the refill. */
  lemma EveryWindowIsBounded(hash: string, l: Limits, before: seq<Arrival>, during: seq<Arrival>, session: string,
                             start: real, from: real, to: real)
    requires Usable(l) && start <= from <= to && Clocked(before, start, from) && Clocked(during, from, to)
    ensures IcePassed(ReadAll(Conn(hash, map[], true), l, before), l, during, session) as real
         <= l.burst as real + Gain(to - from, l.rate)
  {
    hide Gain, Clocked;
    ReadAllIsProper(Conn(hash, map[], true), l, before, start, from);
    IceIsBounded(ReadAll(Conn(hash, map[], true), l, before), l, during, session, from, to);
  }
}

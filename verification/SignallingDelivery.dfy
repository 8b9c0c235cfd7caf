/**
 What the relay owes a device: it can connect, what is sent to it fits into its inbox up to a bound, arrives
 in order, and is not held back without reason.
 */
module SignallingDelivery {
  import opened Wrappers
  import opened TokenBuckets
  import opened Signalling
  import opened SignallingRuns
  import opened RelayRuns

  // Connecting.

  /** Any device of a proper hash can connect, and is then the one found under it; only its own old inbox is closed. */
  lemma RegisterConnects(h: State, cancelled: bool, hash: string)
    requires Sound(h)
    ensures var (h', r) := Register(h, cancelled, hash);
      && r == (if cancelled then Failure(Cancelled)
               else if 16 <= |hash| <= 64 then Success(|h.boxes|) else Failure(BadHash))
      && (r.Failure? ==> h' == h)
      && (r.Success? ==>
            && h'.inboxes == h.inboxes[hash := |h.boxes|]
            && |h'.boxes| == |h.boxes| + 1 && h'.boxes[|h.boxes|] == Box(hash, [], false)
            && forall k | 0 <= k < |h.boxes| ::
                 h'.boxes[k] == if h.boxes[k].owner == hash then h.boxes[k].(closed := true) else h.boxes[k])
  {
    forall k | 0 <= k < |h.boxes| && !h.boxes[k].closed ensures InMap(h, k) {
    }
    assert hash in h.inboxes ==> Holds(h, hash, h.inboxes[hash]);
  }

  /** A send that is cancelled, or to a device that is not connected, does nothing and says which. */
  lemma UndeliverableIsRefused(h: State, cancelled: bool, to: string, e: Envelope)
    requires Indexed(h) && (cancelled || to !in h.inboxes)
    ensures Send(h, cancelled, to, e) == (h, Rejected(if cancelled then Cancelled else PeerNotConnected))
  {
  }

  // Sending and receiving.

  function Sends(to: string, es: seq<Envelope>): seq<Op> {
    if es == [] then [] else [DoSend(false, to, es[0])] + Sends(to, es[1..])
  }

  function Receives(k: nat, n: nat): seq<Op> {
    if n == 0 then [] else [DoReceive(k)] + Receives(k, n - 1)
  }

  lemma RunFirst(h: State, op: Op, ops: seq<Op>)
    requires Indexed(h)
    ensures Run(h, [op] + ops) ==
      (Run(Step(h, op).0, ops).0, [Step(h, op).1] + Run(Step(h, op).0, ops).1)
  {
    assert ([op] + ops)[1..] == ops;
  }

  lemma SendFits(h: State, to: string, k: nat, e: Envelope)
    requires Sound(h) && to in h.inboxes && h.inboxes[to] == k
    ensures k < |h.boxes| && |h.boxes[k].queue| <= 64
    ensures var (h', event) := Step(h, DoSend(false, to, e));
      && Sound(h') && h'.inboxes == h.inboxes && k < |h'.boxes|
      && if |h.boxes[k].queue| < 64 then event == Queued(k, e) && h'.boxes[k].queue == h.boxes[k].queue + [e]
         else event == Quiet && h' == h
  {
    assert Holds(h, to, k);
    StepKeepsSound(h, DoSend(false, to, e));
    assert h.boxes[k := h.boxes[k]] == h.boxes;
  }

  /** As many of them, from the front, as there is room for. */
  function Fitting(es: seq<Envelope>, room: nat): seq<Envelope> {
    if |es| <= room then es else es[..room]
  }

  lemma FittingOneMore(queue: seq<Envelope>, es: seq<Envelope>, room: nat)
    requires es != []
    ensures if room > 0 then (queue + [es[0]]) + Fitting(es[1..], room - 1) == queue + Fitting(es, room)
            else Fitting(es[1..], room) == Fitting(es, room)
  {
    assert room > 0 ==> Fitting(es, room) == [es[0]] + Fitting(es[1..], room - 1);
  }

  /** What becomes of each of them. */
  function Fates(k: nat, es: seq<Envelope>, room: nat): (events: seq<Event>)
    ensures |events| == |es| && forall i | 0 <= i < |es| :: events[i] == if i < room then Queued(k, es[i]) else Quiet
  {
    seq(|es|, i requires 0 <= i < |es| => if i < room then Queued(k, es[i]) else Quiet)
  }

  lemma FatesOneMore(k: nat, es: seq<Envelope>, room: nat)
    requires es != []
    ensures Fates(k, es, room) == if room > 0 then [Queued(k, es[0])] + Fates(k, es[1..], room - 1)
                                  else [Quiet] + Fates(k, es[1..], room)
  {
  }

  lemma {:induction false} SendsAreTaken(h: State, to: string, k: nat, es: seq<Envelope>)
    requires Sound(h) && to in h.inboxes && h.inboxes[to] == k
    ensures k < |h.boxes| && |h.boxes[k].queue| <= 64
    ensures var ((h', events), room) := (Run(h, Sends(to, es)), 64 - |h.boxes[k].queue|);
      && Sound(h') && h'.inboxes == h.inboxes && k < |h'.boxes|
      && h'.boxes[k].queue == h.boxes[k].queue + Fitting(es, room)
      && events == Fates(k, es, room)
    decreases |es|
  {
    assert Holds(h, to, k) && Indexed(h);
    if es == [] {
      assert h.boxes[k].queue + [] == h.boxes[k].queue;
    } else {
      var op := DoSend(false, to, es[0]);
      assert Sends(to, es) == [op] + Sends(to, es[1..]);
      hide *;
      SendFits(h, to, k, es[0]);
      RunFirst(h, op, Sends(to, es[1..]));
      FittingOneMore(h.boxes[k].queue, es, 64 - |h.boxes[k].queue|);
      FatesOneMore(k, es, 64 - |h.boxes[k].queue|);
      SendsAreTaken(Step(h, op).0, to, k, es[1..]);
    }
  }

  /** A connected device takes what is sent to it, in order, until 64 envelopes wait, and after that nothing. */
  lemma SendsFillTheInbox(h: State, to: string, k: nat, es: seq<Envelope>)
    requires Sound(h) && to in h.inboxes && h.inboxes[to] == k
    ensures k < |h.boxes| && |h.boxes[k].queue| <= 64
    ensures var ((h', events), room) := (Run(h, Sends(to, es)), 64 - |h.boxes[k].queue|);
      && Sound(h') && h'.inboxes == h.inboxes && k < |h'.boxes|
      && h'.boxes[k].queue == h.boxes[k].queue + (if |es| <= room then es else es[..room])
      && |events| == |es|
      && forall i | 0 <= i < |es| :: events[i] == if i < room then Queued(k, es[i]) else Quiet
  {
    SendsAreTaken(h, to, k, es);
    hide Sound, Run;
  }

  /** Its write loop gets what waits, the oldest first, one with each turn. */
  lemma {:induction false} ReceivesEmptyTheInbox(h: State, k: nat, n: nat)
    requires Indexed(h) && k < |h.boxes| && n <= |h.boxes[k].queue|
    ensures var (h', events) := Run(h, Receives(k, n));
      && h'.inboxes == h.inboxes && |h'.boxes| == |h.boxes| && h'.boxes[k].queue == h.boxes[k].queue[n..]
      && |events| == n && forall i | 0 <= i < n :: events[i] == Delivered(k, h.boxes[k].queue[i])
    decreases n
  {
    if n > 0 {
      RunFirst(h, DoReceive(k), Receives(k, n - 1));
      ReceivesEmptyTheInbox(Step(h, DoReceive(k)).0, k, n - 1);
    }
  }

  /** So up to 64 envelopes sent to a device with an empty inbox are what its next turns deliver. */
  lemma SentIsDelivered(h: State, to: string, k: nat, es: seq<Envelope>)
    requires Sound(h) && to in h.inboxes && h.inboxes[to] == k && |es| <= 64
    requires k < |h.boxes| && h.boxes[k].queue == []
    ensures var events := Run(Run(h, Sends(to, es)).0, Receives(k, |es|)).1;
      |events| == |es| && forall i | 0 <= i < |es| :: events[i] == Delivered(k, es[i])
  {
    SendsFillTheInbox(h, to, k, es);
    assert [] + es == es;
    ReceivesEmptyTheInbox(Run(h, Sends(to, es)).0, k, |es|);
  }

  /** The limits of a handler are those last set, where positive, and at first twenty at once and ten a second. */
  lemma LimitsAreThoseSet(l: Limits, burst: int, rate: real)
    ensures DEFAULT_LIMITS == Limits(20, 10.0)
    ensures burst > 0 ==> SetICERate(l, burst, rate).burst == burst
    ensures burst <= 0 ==> SetICERate(l, burst, rate).burst == l.burst
    ensures rate > 0.0 ==> SetICERate(l, burst, rate).rate == rate
    ensures rate <= 0.0 ==> SetICERate(l, burst, rate).rate == l.rate
  {
  }

  // Frames.

  /** The verdict on a frame that is no ICE candidate; the connection stays as it is. */
  lemma FrameIsJudged(c: Conn, l: Limits, a: Arrival)
    requires a.env.kind != "ice_candidate"
    ensures Judge(c, l, a) == (c,
      if || a.env.kind !in {"join", "leave", "offer", "answer", "renegotiate", "bye", "error"}
         || !(16 <= |a.env.from| <= 64) || (a.env.to != "" && !(16 <= |a.env.to| <= 64))
         || a.env.session == "" || a.env.timestamp == 0
      then Dropped
      else if a.env.from != c.hash then Unregistered
      else if a.env.to == "" then Unaddressed
      else Route)
  {
  }

  /**
   A well-formed frame, from the device of its connection to a device that is connected and has room, is put
   into that device's inbox and is what its write loop delivers once what waited before is gone.
   */
  lemma GoodFrameArrives(r: Relay, l: Limits, i: nat, a: Arrival, k: nat)
    requires RelaySound(r) && Reads(r, i) && Judge(r.links[i].conn, l, a).1 == Route
    requires a.env.to in r.hub.inboxes && r.hub.inboxes[a.env.to] == k
    requires k < |r.hub.boxes| && |r.hub.boxes[k].queue| < 64
    ensures var r1 := Advance(r, l, Frame(i, a, false)).0;
            var (r2, event) := Advance(r1, l, HandOver(i));
      && event == Queued(k, a.env) && r2.hub.inboxes == r.hub.inboxes && k < |r2.hub.boxes|
      && r2.hub.boxes[k].queue == r.hub.boxes[k].queue + [a.env]
      && (r.hub.boxes[k].queue == [] ==> Advance(r2, l, WriteOne(k)).1 == Delivered(k, a.env))
  {
    assert Holds(r.hub, a.env.to, k);
    hide Judge;
  }

  // The ICE rate.

  lemma CallCostsOneToken(b: Bucket, capacity: real, rate: real, now: real)
    requires rate > 0.0 && capacity >= 1.0 && Proper(b, capacity) && b.last <= now
    ensures var (b', ok) := Allow(b, capacity, rate, now);
      && b'.tokens >= b.tokens - (if ok then 1.0 else 0.0) && (b.tokens >= 1.0 ==> ok)
  {
    GainIsNonnegative(now - b.last, rate);
    hide Gain;
  }

  /** What a connection holds for a session, a full bucket if it has none yet. */
  function HeldFor(c: Conn, l: Limits, session: string): real {
    if session in c.buckets then c.buckets[session].tokens else l.burst as real
  }

  lemma {:induction false} PassingIsPaid(c: Conn, l: Limits, arrivals: seq<Arrival>, session: string,
                                         from: real, to: real)
    requires Usable(l) && from <= to && Clocked(arrivals, from, to) && RelayRuns.AllProper(c, l, from)
    ensures HeldFor(ReadAll(c, l, arrivals), l, session) >=
      HeldFor(c, l, session) - IcePassed(c, l, arrivals, session) as real
    decreases |arrivals|
  {
    hide Gain, Charged, Passes, Read, Allow;
    if arrivals != [] {
      var a := arrivals[0];
      var c' := Read(c, l, a);
      ReadAllIsProper(c, l, [a], from, a.now);
      assert [a][1..] == [];
      if Charged(c, a, session) {
        ChargedNamesSession(c, a, session);
        ChargedSpends(c, l, a, session);
        CallCostsOneToken(BucketFor(c, l, a), l.burst as real, l.rate, a.now);
      } else {
        OthersKeepBucket(c, l, a, session);
      }
      PassingIsPaid(c', l, arrivals[1..], session, a.now, to);
    }
  }

  lemma IcePassesOn(c: Conn, l: Limits, a: Arrival, session: string)
    ensures Passes(c, l, a, session) ==> Judge(c, l, a).1 == if a.env.to == "" then Unaddressed else Route
  {
    hide Allow;
  }

  /**
   A connection lets the first frames of a session through, its burst of them, whatever else it has read: as
   long as fewer have passed, the next is not held back.
   */
  lemma BurstPasses(hash: string, l: Limits, before: seq<Arrival>, a: Arrival, session: string, start: real, now: real)
    requires Usable(l) && start <= now && Clocked(before, start, now) && now <= a.made <= a.now
    requires IcePassed(Conn(hash, map[], true), l, before, session) < l.burst
    requires Charged(ReadAll(Conn(hash, map[], true), l, before), a, session)
    ensures Passes(ReadAll(Conn(hash, map[], true), l, before), l, a, session)
    ensures Judge(ReadAll(Conn(hash, map[], true), l, before), l, a).1 == if a.env.to == "" then Unaddressed else Route
  {
    var c := Conn(hash, map[], true);
    var c' := ReadAll(c, l, before);
    PassingIsPaid(c, l, before, session, start, now);
    ReadAllIsProper(c, l, before, start, now);
    ChargedNamesSession(c', a, session);
    ChargedSpends(c', l, a, session);
    IcePassesOn(c', l, a, session);
    hide Gain, Charged, Passes, Read, Allow, Clocked, Judge;
    CallCostsOneToken(BucketFor(c', l, a), l.burst as real, l.rate, a.now);
  }
}

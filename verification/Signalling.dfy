/** The in-process relay: one bounded inbox per connected device, and the loop that reads a connection. */
module Signalling {
  import opened Wrappers
  import opened TokenBuckets

  const INBOX_CAPACITY := 64

  datatype Envelope = Envelope(kind: string, from: string, to: string, session: string, payload: string, timestamp: int)

  const KINDS := {"join", "leave", "offer", "answer", "ice_candidate", "renegotiate", "bye", "error"}
  const ICE := "ice_candidate"

  predicate HashLength(hash: string) {
    16 <= |hash| <= 64
  }

  /** What a frame must carry; the zero time stands for a missing timestamp. */
  predicate Wellformed(e: Envelope) {
    && e.kind in KINDS
    && HashLength(e.from)
    && (e.to != "" ==> HashLength(e.to))
    && e.session != ""
    && e.timestamp != 0
  }

  // The hub as a value.

  datatype Fault = Cancelled | BadHash | PeerNotConnected | InboxFull

  /** A channel and its flag, with the hash it was registered under. */
  datatype Box = Box(owner: string, queue: seq<Envelope>, closed: bool)

  /** Every inbox ever handed out, and the map from hashes to places in that list. */
  datatype State = State(boxes: seq<Box>, inboxes: map<string, nat>)

  const EMPTY := State([], map[])

  predicate Indexed(h: State) {
    forall hash | hash in h.inboxes :: h.inboxes[hash] < |h.boxes|
  }

  function Close(h: State, k: nat): State
    requires k < |h.boxes|
  {
    h.(boxes := h.boxes[k := h.boxes[k].(closed := true)])
  }

  function Register(h: State, cancelled: bool, hash: string): (State, Result<nat, Fault>)
    requires Indexed(h)
  {
    if cancelled then (h, Failure(Cancelled))
    else if !HashLength(hash) then (h, Failure(BadHash))
    else
      var h' := if hash in h.inboxes then Close(h, h.inboxes[hash]) else h;
      (State(h'.boxes + [Box(hash, [], false)], h'.inboxes[hash := |h'.boxes|]), Success(|h'.boxes|))
  }

  /** The first half of a send: whose inbox. */
  function Look(h: State, cancelled: bool, to: string): Result<nat, Fault> {
    if cancelled then Failure(Cancelled)
    else if to !in h.inboxes then Failure(PeerNotConnected)
    else Success(h.inboxes[to])
  }

  datatype Outcome = Accepted | Rejected(fault: Fault) | Panicked

  /** A send on a channel that does not wait; on a closed one it panics. */
  function Fill(box: Box, e: Envelope): (Box, Outcome) {
    if box.closed then (box, Panicked)
    else if |box.queue| < INBOX_CAPACITY then (box.(queue := box.queue + [e]), Accepted)
    else (box, Rejected(InboxFull))
  }

  /** The second half of a send: on the channel found. */
  function Put(h: State, k: nat, e: Envelope): (State, Outcome)
    requires k < |h.boxes|
  {
    var (box, outcome) := Fill(h.boxes[k], e);
    (h.(boxes := h.boxes[k := box]), outcome)
  }

  function Send(h: State, cancelled: bool, to: string, e: Envelope): (State, Outcome)
    requires Indexed(h)
  {
    match Look(h, cancelled, to)
    case Failure(fault) => (h, Rejected(fault))
    case Success(k) => Put(h, k, e)
  }

  function Unregister(h: State, hash: string): State
    requires Indexed(h)
  {
    if hash in h.inboxes then
      var h' := Close(h, h.inboxes[hash]);
      h'.(inboxes := h'.inboxes - {hash})
    else h
  }

  datatype Received = Got(e: Envelope) | Ended | Waiting

  /** What a channel yields to the one who ranges over it. */
  function Drain(box: Box): (Box, Received) {
    if box.queue != [] then (box.(queue := box.queue[1..]), Got(box.queue[0]))
    else (box, if box.closed then Ended else Waiting)
  }

  /** A receive by the write loop that holds inbox k. */
  function Receive(h: State, k: nat): (State, Received)
    requires k < |h.boxes|
  {
    var (box, r) := Drain(h.boxes[k]);
    (h.(boxes := h.boxes[k := box]), r)
  }

  // The connection as a value.

  datatype Limits = Limits(burst: int, rate: real)

  const DEFAULT_LIMITS := Limits(20, 10.0)

  function SetICERate(l: Limits, burst: int, rate: real): Limits {
    Limits(if burst > 0 then burst else l.burst, if rate > 0.0 then rate else l.rate)
  }

  predicate Usable(l: Limits) {
    l.burst >= 1 && l.rate > 0.0
  }

  /** A handler can only be given usable limits. */
  lemma LimitsStayUsable(l: Limits, burst: int, rate: real)
    ensures Usable(DEFAULT_LIMITS)
    ensures Usable(l) ==> Usable(SetICERate(l, burst, rate))
  {
  }

  datatype Conn = Conn(hash: string, buckets: map<string, Bucket>, reading: bool)

  /** A decoded frame, the time at which a bucket is made for it if it needs one, and the time it is judged. */
  datatype Arrival = Arrival(env: Envelope, made: real, now: real)

  datatype Verdict = Dropped | Unregistered | RateLimited | Unaddressed | Route

  function BucketFor(c: Conn, l: Limits, a: Arrival): Bucket {
    if a.env.session in c.buckets then c.buckets[a.env.session] else Bucket(l.burst as real, a.made)
  }

  /** One turn of the read loop, up to the call of the hub. */
  function Judge(c: Conn, l: Limits, a: Arrival): (Conn, Verdict) {
    if !Wellformed(a.env) then (c, Dropped)
    else if a.env.from != c.hash then (c, Unregistered)
    else
      var routed := if a.env.to != "" then Route else Unaddressed;
      if a.env.kind != ICE then (c, routed)
      else
        var (b, ok) := Allow(BucketFor(c, l, a), l.burst as real, l.rate, a.now);
        var c' := c.(buckets := c.buckets[a.env.session := b]);
        if ok then (c', routed) else (c'.(reading := false), RateLimited)
  }
}

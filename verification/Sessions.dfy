/**
 WebRTC sessions as values: the six-state machine of one session, the manager's map of them, and
 what each manager call does. A session keeps its place in `store` for ever, so a caller that
 still holds one after it left the map is a caller holding a slot number.
 */
module Sessions {
  import opened Wrappers
  import opened Envelope

  datatype State = New | Connecting | Connected | Closed | Failed | FailedOffer

  /** What is remembered about a failure; the rendering to text is not modelled. */
  datatype Reason = Text(text: string) | Rejected(fault: Fault) | Mismatch(offerer: string, peer: string)

  const NO_REASON := Text("")

  datatype Error = NotFound | BadEnvelope(fault: Fault) | BadTransition | TerminalSession | IdTaken

  datatype Record = Record(
    id: string,
    state: State,
    offerer: string,
    answerer: string,
    offer: Option<SDP>,
    answer: Option<SDP>,
    candidates: map<string, seq<Candidate>>,
    createdAt: int,
    updatedAt: int,
    reason: Reason)

  /** Every session ever created, and the map from ids to the slots of the active ones. */
  datatype World = World(store: seq<Record>, live: map<string, nat>)

  const EMPTY_WORLD := World([], map[])

  datatype Config = Config(ttl: int, iceCap: nat)

  datatype Op =
    | Offer(peer: string, sdp: SDP)
    | Answer(peer: string, sdp: SDP)
    | Ice(peer: string, candidate: Candidate)
    | Close
    | Fail(reason: Reason)
    | FailOffer(reason: Reason)

  /** The clock readings one call takes, in the order it takes them. */
  datatype Ticks = Ticks(mint: int, born: int, look: int, relook: int, stamp: int)

  predicate Terminal(s: State) {
    s == Closed || s == Failed || s == FailedOffer
  }

  predicate Allowed(from: State, to: State) {
    match from
    case New => to == Connecting || to == Failed || to == FailedOffer
    case Connecting => to == Connected || to == Failed
    case Connected => to == Closed || to == Failed
    case _ => false
  }

  function Transition(r: Record, to: State, force: bool, now: int): Result<Record, Error> {
    if r.state == to then Success(r)
    else if !force && !Allowed(r.state, to) then Failure(BadTransition)
    else Success(r.(state := to, updatedAt := now))
  }

  // One operation on one session, under that session's lock.

  datatype Effect = Effect(record: Record, drop: bool, error: Option<Error>)

  /** Moves to a new state and, if that works, reports `error` and drops the session if asked to. */
  function Settle(r: Record, to: State, force: bool, now: int, drop: bool, error: Option<Error>): Effect {
    match Transition(r, to, force, now)
    case Success(r') => Effect(r', drop, error)
    case Failure(e) => Effect(r, false, if error.Some? then error else Some(e))
  }

  function Refuse(r: Record, error: Error): Effect {
    Effect(r, false, Some(error))
  }

  function CandidatesOf(r: Record, peer: string): seq<Candidate> {
    if peer in r.candidates then r.candidates[peer] else []
  }

  function Slide(list: seq<Candidate>, c: Candidate, cap: nat): seq<Candidate>
    requires cap > 0
  {
    (if |list| >= cap then list[1..] else list) + [c]
  }

  function Act(r: Record, iceCap: nat, op: Op, now: int): Effect
    requires iceCap > 0
  {
    match op
    case Offer(peer, sdp) =>
      if r.state != New then Refuse(r, BadTransition)
      else if peer != r.offerer then
        Settle(r.(reason := Mismatch(r.offerer, peer)), FailedOffer, false, now, true,
               Some(BadEnvelope(OffererMismatch)))
      else Settle(r.(offer := Some(sdp)), Connecting, false, now, false, None)
    case Answer(peer, sdp) =>
      if r.state != Connecting then Refuse(r, BadTransition)
      else if peer == r.offerer then Refuse(r, BadEnvelope(AnswererIsOfferer))
      else if !HashShape(peer) then Refuse(r, BadEnvelope(BadHash))
      else if r.answerer != "" && r.answerer != peer then Refuse(r, BadEnvelope(AnswererMismatch))
      else Settle(r.(answerer := peer, answer := Some(sdp)), Connected, false, now, false, None)
    case Ice(peer, c) =>
      if Terminal(r.state) then Refuse(r, TerminalSession)
      else
        var list := Slide(CandidatesOf(r, peer), c, iceCap);
        Effect(r.(candidates := r.candidates[peer := list], updatedAt := now), false, None)
    case Close =>
      if r.state == Closed then Effect(r, false, None)
      else if r.state == Failed then Effect(r, true, None)
      else Settle(r, Closed, false, now, true, None)
    case Fail(reason) =>
      if Terminal(r.state) then Effect(r, false, None)
      else Settle(r.(reason := reason), Failed, true, now, true, None)
    case FailOffer(reason) =>
      if r.state != New then Effect(r, false, None)
      else Settle(r.(reason := reason), FailedOffer, false, now, true, None)
  }

  // The manager's map.

  /** Map entries point at sessions that carry the id they are filed under. */
  predicate WellFormed(w: World) {
    forall id | id in w.live :: w.live[id] < |w.store| && w.store[w.live[id]].id == id
  }

  predicate InMap(w: World, slot: nat)
    requires slot < |w.store|
  {
    w.store[slot].id in w.live && w.live[w.store[slot].id] == slot
  }

  predicate Stale(r: Record, ttl: int, now: int) {
    r.updatedAt < now - ttl || r.updatedAt == 0
  }

  predicate Doomed(r: Record, ttl: int, now: int) {
    Stale(r, ttl, now) && !Terminal(r.state)
  }

  /** The expiry pass after it has visited the ids in `seen`. */
  function ExpireOnly(w: World, ttl: int, now: int, seen: set<string>): (w': World)
    requires WellFormed(w)
    ensures WellFormed(w') && |w'.store| == |w.store|
  {
    World(
      seq(|w.store|, i requires 0 <= i < |w.store| =>
        if w.store[i].id in seen && InMap(w, i) && Doomed(w.store[i], ttl, now)
        then w.store[i].(state := Closed, updatedAt := now)
        else w.store[i]),
      map id | id in w.live && !(id in seen && Doomed(w.store[w.live[id]], ttl, now)) :: w.live[id])
  }

  function Expire(w: World, cfg: Config, now: int): (w': World)
    requires WellFormed(w)
    ensures WellFormed(w') && |w'.store| == |w.store|
  {
    if cfg.ttl <= 0 then w else ExpireOnly(w, cfg.ttl, now, w.live.Keys)
  }

  function Lookup(w: World, cfg: Config, id: string, now: int): (r: (World, Result<nat, Error>))
    requires WellFormed(w)
    ensures WellFormed(r.0) && |r.0.store| == |w.store|
    ensures r.1.Success? ==> r.1.value < |w.store| && r.0.store[r.1.value].id == id && InMap(r.0, r.1.value)
  {
    if Blank(id) then (w, Failure(NotFound))
    else
      var e := Expire(w, cfg, now);
      (e, if id in e.live then Success(e.live[id]) else Failure(NotFound))
  }

  function Apply(w: World, iceCap: nat, slot: nat, op: Op, now: int): (r: (World, Option<Error>))
    requires WellFormed(w) && slot < |w.store| && iceCap > 0
    ensures WellFormed(r.0) && |r.0.store| == |w.store|
  {
    var e := Act(w.store[slot], iceCap, op, now);
    (World(w.store[slot := e.record], if e.drop then w.live - {w.store[slot].id} else w.live), e.error)
  }

  /** Checks some operations make before they look the session up. */
  function Precheck(op: Op): Option<Fault> {
    match op
    case Answer(_, sdp) => SDPFault(sdp)
    case Ice(peer, c) =>
      if CandidateFault(c).Some? then CandidateFault(c) else if HashShape(peer) then None else Some(BadHash)
    case _ => None
  }

  /** An offer with a malformed description turns into a failure of the session it names. */
  function Redirect(op: Op): Option<Fault> {
    if op.Offer? then SDPFault(op.sdp) else None
  }

  /** A whole call on one id with nothing in between. */
  function Call(w: World, cfg: Config, id: string, op: Op, t: Ticks): (r: (World, Result<nat, Error>))
    requires WellFormed(w) && cfg.iceCap > 0
    ensures WellFormed(r.0) && |r.0.store| == |w.store|
    ensures r.1.Success? ==> r.1.value < |w.store|
    decreases op.Offer?
  {
    if Precheck(op).Some? then (w, Failure(BadEnvelope(Precheck(op).value)))
    else
      var (e, found) := Lookup(w, cfg, id, t.look);
      if found.Failure? then (e, found)
      else if Redirect(op).Some? then
        var fault := Redirect(op).value;
        (Call(e, cfg, id, FailOffer(Rejected(fault)), t.(look := t.relook)).0, Failure(BadEnvelope(fault)))
      else
        var (w', error) := Apply(e, cfg.iceCap, found.value, op, t.stamp);
        (w', if error.Some? then Failure(error.value) else found)
  }

  function Newborn(id: string, offerer: string, now: int): Record {
    Record(id, New, offerer, "", None, None, map[], now, now, NO_REASON)
  }

  function Create(w: World, cfg: Config, id: string, minted: string, offerer: string, t: Ticks)
    : (r: (World, Result<nat, Error>))
    requires WellFormed(w)
    ensures WellFormed(r.0) && |w.store| <= |r.0.store| <= |w.store| + 1
    ensures r.1.Success? ==> r.1.value == |w.store| < |r.0.store|
    ensures r.1.Failure? ==> |w.store| == |r.0.store|
  {
    if Blank(offerer) then (w, Failure(BadEnvelope(OffererMissing)))
    else if !HashShape(offerer) then (w, Failure(BadEnvelope(BadHash)))
    else
      var e := Expire(w, cfg, t.mint);
      var key := if id == "" then minted else id;
      if key in e.live then (e, Failure(IdTaken))
      else (World(e.store + [Newborn(key, offerer, t.born)], e.live[key := |e.store|]), Success(|e.store|))
  }

  // The three POST handlers, after method and JSON checks.

  datatype Request =
    | OfferRequest(id: string, peer: string, sdp: SDP)
    | AnswerRequest(id: string, peer: string, sdp: SDP)
    | IceRequest(id: string, peer: string, candidates: seq<Candidate>)

  /** A minted id is "ts-" and a suffix made of the clock and random bytes. */
  function Mint(suffix: string): string {
    "ts-" + suffix
  }

  function Handle(w: World, cfg: Config, req: Request, suffix: string, t: Ticks): (r: (World, Result<nat, Error>))
    requires WellFormed(w) && cfg.iceCap > 0
    ensures WellFormed(r.0) && |w.store| <= |r.0.store|
    ensures r.1.Success? ==> r.1.value < |r.0.store|
  {
    match req
    case OfferRequest(id, peer, sdp) =>
      if id == "" then
        var (w1, made) := Create(w, cfg, "", Mint(suffix), peer, t);
        if made.Failure? then (w1, made) else Call(w1, cfg, w1.store[made.value].id, Offer(peer, sdp), t)
      else if !HashShape(peer) then (w, Failure(BadEnvelope(BadHash)))
      else Call(w, cfg, id, Offer(peer, sdp), t)
    case AnswerRequest(id, peer, sdp) =>
      if id == "" then (w, Failure(BadEnvelope(SessionIdMissing)))
      else if !HashShape(peer) then (w, Failure(BadEnvelope(BadHash)))
      else Call(w, cfg, id, Answer(peer, sdp), t)
    case IceRequest(id, peer, candidates) =>
      if id == "" then (w, Failure(BadEnvelope(SessionIdMissing)))
      else if |candidates| != 1 then (w, Failure(BadEnvelope(WrongCandidateCount)))
      else Call(w, cfg, id, Ice(peer, candidates[0]), t)
  }
}

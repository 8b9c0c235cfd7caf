/**
 What each call does to the session it names, state by state: when it works, what the session is then,
 and when it is refused and leaves everything as it was.
 */
module SessionCalls {
  import opened Wrappers
  import opened Envelope
  import opened Sessions
  import opened SessionInvariants
  import SessionHandlers

  /** The seven moves a session makes without force; force makes any. */
  lemma UnforcedEdges(r: Record, to: State, force: bool, now: int)
    ensures Transition(r, to, force, now) ==
      if r.state == to then Success(r)
      else if force || (r.state, to) in {
        (New, Connecting), (New, Failed), (New, FailedOffer),
        (Connecting, Connected), (Connecting, Failed),
        (Connected, Closed), (Connected, Failed)}
      then Success(r.(state := to, updatedAt := now))
      else Failure(BadTransition)
  {
  }

  // Lookups.

  /** A lookup finds a session if and only if it is in the map and, if there is a TTL, was updated within it. */
  lemma {:induction false} LookupFinds(w: World, cfg: Config, id: string, now: int)
    requires Sound(w, cfg.iceCap) && !Blank(id)
    ensures var (e, found) := Lookup(w, cfg, id, now);
      && (found.Success? <==>
            id in w.live &&
            var r := w.store[w.live[id]];
            cfg.ttl <= 0 || (r.updatedAt != 0 && now - cfg.ttl <= r.updatedAt))
      && (if found.Success? then found.value == w.live[id] && e.store[found.value] == w.store[found.value]
          else found == Failure(NotFound) && id !in e.live)
  {
    var e := Lookup(w, cfg, id, now).0;
    if id in w.live {
      var slot := w.live[id];
      assert InMap(w, slot) <==> !Terminal(w.store[slot].state);
      ExpireAt(w, cfg, now, slot);
      assert id in e.live ==> InMap(w, e.live[id]);
    }
  }

  /** The session filed under an id, as the next lookup is going to find it. */
  predicate OnHand(w: World, cfg: Config, id: string, slot: nat, now: int)
    requires WellFormed(w)
  {
    && !Blank(id) && id in w.live && w.live[id] == slot
    && (cfg.ttl <= 0 || (w.store[slot].updatedAt != 0 && now - cfg.ttl <= w.store[slot].updatedAt))
  }

  /** All sessions but one are as they were, and so are their entries. */
  predicate OnlyTouches(w: World, w': World, slot: nat) {
    && |w.store| == |w'.store|
    && forall i | 0 <= i < |w.store| && i != slot :: w'.store[i] == w.store[i] && (InMap(w', i) <==> InMap(w, i))
  }

  /** The world at the point where a call acts on what it looked up. */
  function AtLookup(w: World, cfg: Config, id: string, t: Ticks): World
    requires WellFormed(w)
  {
    Lookup(w, cfg, id, t.look).0
  }

  lemma ApplyTouchesOne(w: World, iceCap: nat, slot: nat, op: Op, now: int)
    requires WellFormed(w) && iceCap > 0 && slot < |w.store| && InMap(w, slot)
    ensures var w', e := Apply(w, iceCap, slot, op, now).0, Act(w.store[slot], iceCap, op, now);
      && w'.store[slot] == e.record
      && (e.record.id == w.store[slot].id ==> (InMap(w', slot) <==> !e.drop) && OnlyTouches(w, w', slot))
  {
    hide Act;
  }

  lemma {:induction false} ActsOnFound(w: World, cfg: Config, id: string, slot: nat, op: Op, t: Ticks)
    requires Sound(w, cfg.iceCap) && cfg.iceCap > 0 && OnHand(w, cfg, id, slot, t.look)
    requires Precheck(op).None? && Redirect(op).None?
    ensures var (w', res), e := Call(w, cfg, id, op, t), Act(w.store[slot], cfg.iceCap, op, t.stamp);
      && slot < |w'.store| && w'.store[slot] == e.record
      && (e.record.id == id ==> (InMap(w', slot) <==> !e.drop) && OnlyTouches(AtLookup(w, cfg, id, t), w', slot))
      && res == (if e.error.Some? then Failure(e.error.value) else Success(slot))
  {
    LookupFinds(w, cfg, id, t.look);
    ApplyTouchesOne(AtLookup(w, cfg, id, t), cfg.iceCap, slot, op, t.stamp);
    hide Act, Sound, Precheck, Redirect, Apply, Expire, OnlyTouches;
  }

  // The calls.

  /** Closing works on a connected session and on no other. */
  lemma {:induction false} CloseSettles(w: World, cfg: Config, id: string, slot: nat, t: Ticks)
    requires Sound(w, cfg.iceCap) && cfg.iceCap > 0 && OnHand(w, cfg, id, slot, t.look)
    ensures var r, (w', res) := w.store[slot], Call(w, cfg, id, Close, t);
      && OnlyTouches(AtLookup(w, cfg, id, t), w', slot)
      && if r.state == Connected then
           res == Success(slot) && w'.store[slot] == r.(state := Closed, updatedAt := t.stamp) && !InMap(w', slot)
         else
           res == Failure(BadTransition) && w'.store[slot] == r && InMap(w', slot)
  {
    ActsOnFound(w, cfg, id, slot, Close, t);
    hide Call, AtLookup, OnlyTouches;
    assert InMap(w, slot) <==> !Terminal(w.store[slot].state);
  }

  /** Failing works on every session found. */
  lemma {:induction false} FailSettles(w: World, cfg: Config, id: string, slot: nat, reason: Reason, t: Ticks)
    requires Sound(w, cfg.iceCap) && cfg.iceCap > 0 && OnHand(w, cfg, id, slot, t.look)
    ensures var r, (w', res) := w.store[slot], Call(w, cfg, id, Fail(reason), t);
      && OnlyTouches(AtLookup(w, cfg, id, t), w', slot)
      && res == Success(slot) && !InMap(w', slot)
      && w'.store[slot] == r.(state := Failed, reason := reason, updatedAt := t.stamp)
  {
    ActsOnFound(w, cfg, id, slot, Fail(reason), t);
    hide Call, AtLookup, OnlyTouches;
    assert InMap(w, slot) <==> !Terminal(w.store[slot].state);
  }

  lemma FailOfferActs(r: Record, iceCap: nat, reason: Reason, now: int)
    requires iceCap > 0
    ensures Act(r, iceCap, FailOffer(reason), now) ==
      if r.state == New then Effect(r.(state := FailedOffer, reason := reason, updatedAt := now), true, None)
      else Effect(r, false, None)
  {
  }

  /** A failed offer ends a session that waits for one, and leaves any other alone. */
  lemma {:induction false} FailOfferSettlesIt(w: World, cfg: Config, id: string, slot: nat, reason: Reason, t: Ticks)
    requires Sound(w, cfg.iceCap) && cfg.iceCap > 0 && OnHand(w, cfg, id, slot, t.look)
    ensures var r, (w', res) := w.store[slot], Call(w, cfg, id, FailOffer(reason), t);
      && OnlyTouches(AtLookup(w, cfg, id, t), w', slot)
      && res == Success(slot) && (InMap(w', slot) <==> r.state != New)
      && w'.store[slot] ==
           if r.state == New then r.(state := FailedOffer, reason := reason, updatedAt := t.stamp) else r
  {
    ActsOnFound(w, cfg, id, slot, FailOffer(reason), t);
    FailOfferActs(w.store[slot], cfg.iceCap, reason, t.stamp);
    hide Act, OnlyTouches, Sound, AtLookup;
  }

  /** A good offer works on a session that waits for one, from its offerer; from anyone else it ends it. */
  lemma {:induction false} GoodOfferSettles(w: World, cfg: Config, id: string, slot: nat, peer: string,
                                            sdp: SDP, t: Ticks)
    requires Sound(w, cfg.iceCap) && cfg.iceCap > 0 && OnHand(w, cfg, id, slot, t.look)
    requires SDPFault(sdp).None?
    ensures var r, (w', res) := w.store[slot], Call(w, cfg, id, Offer(peer, sdp), t);
      && OnlyTouches(AtLookup(w, cfg, id, t), w', slot)
      && if r.state != New then
           res == Failure(BadTransition) && w'.store[slot] == r && InMap(w', slot)
         else if peer == r.offerer then
           res == Success(slot) && InMap(w', slot)
           && w'.store[slot] == r.(state := Connecting, offer := Some(sdp), updatedAt := t.stamp)
         else
           res == Failure(BadEnvelope(OffererMismatch)) && !InMap(w', slot)
           && w'.store[slot] ==
                r.(state := FailedOffer, reason := Mismatch(r.offerer, peer), updatedAt := t.stamp)
  {
    ActsOnFound(w, cfg, id, slot, Offer(peer, sdp), t);
    hide AtLookup, OnlyTouches, Lookup, Apply, SDPFault;
  }

  /** A good answer works on a connecting session, from any peer of a proper hash but the offerer. */
  lemma {:induction false} GoodAnswerSettles(w: World, cfg: Config, id: string, slot: nat, peer: string,
                                             sdp: SDP, t: Ticks)
    requires Sound(w, cfg.iceCap) && cfg.iceCap > 0 && OnHand(w, cfg, id, slot, t.look)
    requires SDPFault(sdp).None?
    ensures var r, (w', res) := w.store[slot], Call(w, cfg, id, Answer(peer, sdp), t);
      && OnlyTouches(AtLookup(w, cfg, id, t), w', slot) && InMap(w', slot)
      && if r.state == Connecting && peer != r.offerer && 16 <= |peer| <= 64 then
           res == Success(slot)
           && w'.store[slot] ==
                r.(state := Connected, answerer := peer, answer := Some(sdp), updatedAt := t.stamp)
         else
           w'.store[slot] == r &&
           res == Failure(
             if r.state != Connecting then BadTransition
             else BadEnvelope(if peer == r.offerer then AnswererIsOfferer else BadHash))
  {
    ActsOnFound(w, cfg, id, slot, Answer(peer, sdp), t);
    hide Call, AtLookup, OnlyTouches;
    assert Coherent(w.store[slot]);
  }

  /** A good candidate works on every session found, and only makes room for itself among those of its peer. */
  lemma {:induction false} GoodCandidateSettles(w: World, cfg: Config, id: string, slot: nat, peer: string,
                                                c: Candidate, t: Ticks)
    requires Sound(w, cfg.iceCap) && cfg.iceCap > 0 && OnHand(w, cfg, id, slot, t.look)
    requires CandidateFault(c).None? && 16 <= |peer| <= 64
    ensures var r, (w', res) := w.store[slot], Call(w, cfg, id, Ice(peer, c), t);
      var had := if peer in r.candidates then r.candidates[peer] else [];
      && OnlyTouches(AtLookup(w, cfg, id, t), w', slot) && InMap(w', slot) && res == Success(slot)
      && peer in w'.store[slot].candidates
      && var has := w'.store[slot].candidates[peer];
         && w'.store[slot] == r.(candidates := r.candidates[peer := has], updatedAt := t.stamp)
         && has == if |had| < cfg.iceCap then had + [c] else had[1..] + [c]
  {
    ActsOnFound(w, cfg, id, slot, Ice(peer, c), t);
    hide Call, AtLookup, OnlyTouches;
    assert InMap(w, slot) <==> !Terminal(w.store[slot].state);
  }

  /** Any call whose lookup finds nothing says so, and changes nothing but by expiry. */
  lemma {:induction false} NotFoundSettles(w: World, cfg: Config, id: string, op: Op, t: Ticks)
    requires Sound(w, cfg.iceCap) && cfg.iceCap > 0
    requires forall slot: nat :: !OnHand(w, cfg, id, slot, t.look)
    ensures var (w', res) := Call(w, cfg, id, op, t);
      && res.Failure?
      && (Precheck(op).None? ==> res == Failure(NotFound) && w' == AtLookup(w, cfg, id, t))
      && (Precheck(op).Some? ==> res == Failure(BadEnvelope(Precheck(op).value)) && w' == w)
  {
    if !Blank(id) {
      LookupFinds(w, cfg, id, t.look);
      assert id in w.live ==> !OnHand(w, cfg, id, w.live[id], t.look);
    }
  }

  /** A malformed offer never works; and it ends a session that waits for one, if that is still to be found. */
  lemma {:induction false} BadOfferSettles(w: World, cfg: Config, id: string, slot: nat, peer: string,
                                           sdp: SDP, t: Ticks)
    requires Sound(w, cfg.iceCap) && cfg.iceCap > 0 && SDPFault(sdp).Some?
    requires OnHand(w, cfg, id, slot, t.look) && OnHand(w, cfg, id, slot, t.relook)
    ensures var r, fault, (w', res) := w.store[slot], SDPFault(sdp).value, Call(w, cfg, id, Offer(peer, sdp), t);
      && slot < |w'.store| && res == Failure(BadEnvelope(fault)) && (InMap(w', slot) <==> r.state != New)
      && w'.store[slot] ==
           if r.state == New then r.(state := FailedOffer, reason := Rejected(fault), updatedAt := t.stamp) else r
  {
    assert WellFormed(w);
    hide Sound, OnlyTouches, Expire, SDPFault, WorldEvolves, Apply, Blank;
    LookupFinds(w, cfg, id, t.look);
    ExpireIsSound(w, cfg, t.look);
    var at := AtLookup(w, cfg, id, t);
    FailOfferSettlesIt(at, cfg, id, slot, Rejected(SDPFault(sdp).value), t.(look := t.relook));
  }

  /** A malformed answer or candidate is refused before any session is looked at. */
  lemma MalformedChangesNothing(w: World, cfg: Config, id: string, peer: string, sdp: SDP, c: Candidate, t: Ticks)
    requires WellFormed(w) && cfg.iceCap > 0
    ensures SDPFault(sdp).Some? ==>
      Call(w, cfg, id, Answer(peer, sdp), t) == (w, Failure(BadEnvelope(SDPFault(sdp).value)))
    ensures CandidateFault(c).Some? ==>
      Call(w, cfg, id, Ice(peer, c), t) == (w, Failure(BadEnvelope(CandidateFault(c).value)))
    ensures CandidateFault(c).None? && !(16 <= |peer| <= 64) ==>
      Call(w, cfg, id, Ice(peer, c), t) == (w, Failure(BadEnvelope(BadHash)))
  {
  }

  /** Requests that lack what they need are refused before any session is looked at. */
  lemma RequestsAreChecked(w: World, cfg: Config, id: string, peer: string, sdp: SDP, cs: seq<Candidate>, t: Ticks)
    requires WellFormed(w) && cfg.iceCap > 0
    ensures id != "" && !(16 <= |peer| <= 64) ==>
      && Handle(w, cfg, OfferRequest(id, peer, sdp), "", t) == (w, Failure(BadEnvelope(BadHash)))
      && Handle(w, cfg, AnswerRequest(id, peer, sdp), "", t) == (w, Failure(BadEnvelope(BadHash)))
    ensures Handle(w, cfg, AnswerRequest("", peer, sdp), "", t) == (w, Failure(BadEnvelope(SessionIdMissing)))
    ensures Handle(w, cfg, IceRequest("", peer, cs), "", t) == (w, Failure(BadEnvelope(SessionIdMissing)))
    ensures id != "" && |cs| != 1 ==>
      Handle(w, cfg, IceRequest(id, peer, cs), "", t) == (w, Failure(BadEnvelope(WrongCandidateCount)))
  {
  }

  // Creations.

  /** A creation works if and only if the hash is proper and no session to be found has that id. */
  lemma CreateSettles(w: World, cfg: Config, id: string, minted: string, offerer: string, t: Ticks)
    requires Sound(w, cfg.iceCap)
    ensures var (w', made) := Create(w, cfg, id, minted, offerer, t);
      var (key, n) := (if id == "" then minted else id, |w.store|);
      var taken := key in w.live &&
        var r := w.store[w.live[key]];
        cfg.ttl <= 0 || (r.updatedAt != 0 && t.mint - cfg.ttl <= r.updatedAt);
      if Blank(offerer) || !(16 <= |offerer| <= 64) then
        && w' == w
        && made == Failure(BadEnvelope(if Blank(offerer) then OffererMissing else BadHash))
      else if taken then
        made == Failure(IdTaken) && w' == Expire(w, cfg, t.mint)
      else
        && made == Success(n) && w'.live == Expire(w, cfg, t.mint).live[key := n]
        && w'.store == Expire(w, cfg, t.mint).store +
             [Record(key, New, offerer, "", None, None, map[], t.born, t.born, NO_REASON)]
  {
    var key := if id == "" then minted else id;
    if key in w.live {
      var slot := w.live[key];
      assert InMap(w, slot) <==> !Terminal(w.store[slot].state);
      ExpireAt(w, cfg, t.mint, slot);
      assert key in Expire(w, cfg, t.mint).live ==> InMap(w, Expire(w, cfg, t.mint).live[key]);
    }
  }

  // A whole session.

  /** The record is filed under the id. */
  predicate Stored(w: World, id: string, slot: nat, r: Record) {
    id in w.live && w.live[id] == slot < |w.store| && w.store[slot] == r
  }

  /** A lookup at that time comes within the TTL of the last timestamp, which is not the zero time. */
  predicate InTime(cfg: Config, stamp: int, look: int) {
    cfg.ttl <= 0 || (stamp != 0 && look - cfg.ttl <= stamp)
  }

  lemma {:induction false} OfferBegins(w: World, cfg: Config, peer: string, sdp: SDP, suffix: string, t: Ticks)
    requires Sound(w, cfg.iceCap) && cfg.iceCap > 0 && !Blank(peer) && 16 <= |peer| <= 64 && SDPFault(sdp).None?
    requires Mint(suffix) !in w.live && InTime(cfg, t.born, t.look)
    ensures var ((w', res), slot) := (Handle(w, cfg, OfferRequest("", peer, sdp), suffix, t), |w.store|);
      && res == Success(slot) && Sound(w', cfg.iceCap)
      && Stored(w', Mint(suffix), slot,
           Record(Mint(suffix), Connecting, peer, "", Some(sdp), None, map[], t.born, t.stamp, NO_REASON))
  {
    var (w1, slot) := (Create(w, cfg, "", Mint(suffix), peer, t).0, |w.store|);
    SessionHandlers.MintedIsNotBlank(suffix);
    CreateSettles(w, cfg, "", Mint(suffix), peer, t);
    CreateIsSound(w, cfg, "", Mint(suffix), peer, t);
    GoodOfferSettles(w1, cfg, Mint(suffix), slot, peer, sdp, t);
    CallIsSound(w1, cfg, Mint(suffix), Offer(peer, sdp), t);
    hide Sound, OnlyTouches, Expire, WorldEvolves, Blank, SDPFault;
  }

  lemma {:induction false} AnswerContinues(w: World, cfg: Config, id: string, slot: nat, r: Record, peer: string,
                                           sdp: SDP, t: Ticks)
    requires Sound(w, cfg.iceCap) && cfg.iceCap > 0 && !Blank(id) && id != "" && Stored(w, id, slot, r)
    requires r.state == Connecting && r.id == id && peer != r.offerer && 16 <= |peer| <= 64
    requires SDPFault(sdp).None? && InTime(cfg, r.updatedAt, t.look)
    ensures var (w', res) := Handle(w, cfg, AnswerRequest(id, peer, sdp), "", t);
      && res == Success(slot) && Sound(w', cfg.iceCap)
      && Stored(w', id, slot, r.(state := Connected, answerer := peer, answer := Some(sdp), updatedAt := t.stamp))
  {
    GoodAnswerSettles(w, cfg, id, slot, peer, sdp, t);
    CallIsSound(w, cfg, id, Answer(peer, sdp), t);
    hide Sound, OnlyTouches, WorldEvolves, Blank, SDPFault, Call;
  }

  lemma {:induction false} CandidateContinues(w: World, cfg: Config, id: string, slot: nat, r: Record, peer: string,
                                              c: Candidate, t: Ticks)
    requires Sound(w, cfg.iceCap) && cfg.iceCap > 0 && !Blank(id) && id != "" && Stored(w, id, slot, r)
    requires r.id == id && peer !in r.candidates && 16 <= |peer| <= 64
    requires CandidateFault(c).None? && InTime(cfg, r.updatedAt, t.look)
    ensures var (w', res) := Handle(w, cfg, IceRequest(id, peer, [c]), "", t);
      && res == Success(slot) && Sound(w', cfg.iceCap)
      && Stored(w', id, slot, r.(candidates := r.candidates[peer := [c]], updatedAt := t.stamp))
  {
    assert WellFormed(w) && OnHand(w, cfg, id, slot, t.look);
    assert [] + [c] == [c];
    hide Sound, OnHand, OnlyTouches, WorldEvolves, Blank, CandidateFault, Call;
    GoodCandidateSettles(w, cfg, id, slot, peer, c, t);
    CallIsSound(w, cfg, id, Ice(peer, c), t);
  }

  /**
   A session works from beginning to end: offer, answer, candidate and close, each in time and well
   formed, all succeed and leave the record they should.
   */
  lemma {:induction false} HandshakeSucceeds(w: World, cfg: Config, offerer: string, answerer: string,
                                             offer: SDP, answer: SDP, c: Candidate, suffix: string,
                                             t1: Ticks, t2: Ticks, t3: Ticks, t4: Ticks)
    requires Sound(w, cfg.iceCap) && cfg.iceCap > 0
    requires !Blank(offerer) && 16 <= |offerer| <= 64 && 16 <= |answerer| <= 64 && offerer != answerer
    requires SDPFault(offer).None? && SDPFault(answer).None? && CandidateFault(c).None?
    requires Mint(suffix) !in w.live && InTime(cfg, t1.born, t1.look)
    requires InTime(cfg, t1.stamp, t2.look) && InTime(cfg, t2.stamp, t3.look) && InTime(cfg, t3.stamp, t4.look)
    ensures var (id, slot) := (Mint(suffix), |w.store|);
      var (w1, r1) := Handle(w, cfg, OfferRequest("", offerer, offer), suffix, t1);
      var (w2, r2) := Handle(w1, cfg, AnswerRequest(id, answerer, answer), "", t2);
      var (w3, r3) := Handle(w2, cfg, IceRequest(id, answerer, [c]), "", t3);
      var (w4, r4) := Call(w3, cfg, id, Close, t4);
      && r1 == r2 == r3 == r4 == Success(slot) && slot < |w4.store| && !InMap(w4, slot)
      && w4.store[slot] == Record(id, Closed, offerer, answerer, Some(offer), Some(answer),
                                  map[answerer := [c]], t1.born, t4.stamp, NO_REASON)
  {
    var (id, slot) := (Mint(suffix), |w.store|);
    SessionHandlers.MintedIsNotBlank(suffix);
    assert WellFormed(w);
    hide Sound, OnlyTouches, WorldEvolves, Blank, SDPFault, CandidateFault, Call, Handle, Mint;
    var r1 := Record(id, Connecting, offerer, "", Some(offer), None, map[], t1.born, t1.stamp, NO_REASON);
    var r2 := r1.(state := Connected, answerer := answerer, answer := Some(answer), updatedAt := t2.stamp);
    OfferBegins(w, cfg, offerer, offer, suffix, t1);
    var w1 := Handle(w, cfg, OfferRequest("", offerer, offer), suffix, t1).0;
    AnswerContinues(w1, cfg, id, slot, r1, answerer, answer, t2);
    var w2 := Handle(w1, cfg, AnswerRequest(id, answerer, answer), "", t2).0;
    CandidateContinues(w2, cfg, id, slot, r2, answerer, c, t3);
    var w3 := Handle(w2, cfg, IceRequest(id, answerer, [c]), "", t3).0;
    CloseSettles(w3, cfg, id, slot, t4);
  }
}

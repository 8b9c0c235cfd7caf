/** Requests handled one after another: what an offer leaves behind. */
module SessionHandlers {
  import opened Wrappers
  import opened Envelope
  import opened Sessions
  import opened SessionInvariants

  /** No stored session is still waiting for its offer. */
  predicate NoNew(w: World) {
    forall i | 0 <= i < |w.store| && InMap(w, i) :: w.store[i].state != New
  }

  /** Only `slot` may still be waiting. */
  predicate NoNewBut(w: World, slot: nat) {
    forall i | 0 <= i < |w.store| && InMap(w, i) && i != slot :: w.store[i].state != New
  }

  lemma EvolvingAddsNoNew(w: World, w': World, slot: nat)
    requires MapIsLive(w) && MapIsLive(w') && WorldEvolves(w, w') && |w.store| == |w'.store|
    requires NoNewBut(w, slot)
    ensures NoNewBut(w', slot)
  {
    forall i | 0 <= i < |w'.store| && InMap(w', i) && i != slot ensures w'.store[i].state != New {
      assert InMap(w', i) <==> !Terminal(w'.store[i].state);
      assert InMap(w, i) <==> !Terminal(w.store[i].state);
    }
  }

  lemma MintedIsNotBlank(suffix: string)
    ensures !Blank(Mint(suffix)) && Mint(suffix) != ""
  {
    TrimRightKeepsPrefix(Mint(suffix));
  }

  lemma FailOfferApplied(w: World, iceCap: nat, slot: nat, reason: Reason, now: int)
    requires WellFormed(w) && iceCap > 0 && slot < |w.store|
    ensures var r := Apply(w, iceCap, slot, FailOffer(reason), now).0.store[slot];
      if w.store[slot].state == New then Terminal(r.state) else r == w.store[slot]
  {
  }

  /** Tagging a failed offer: the session named is gone afterwards, or was past `new` already. */
  lemma FailOfferSettles(w: World, cfg: Config, id: string, fault: Fault, t: Ticks, slot: nat)
    requires Sound(w, cfg.iceCap) && cfg.iceCap > 0 && !Blank(id)
    requires slot < |w.store| && w.store[slot].id == id && InMap(w, slot)
    ensures var w' := Call(w, cfg, id, FailOffer(Rejected(fault)), t).0;
      if w.store[slot].state == New then Terminal(w'.store[slot].state)
      else InMap(w', slot) ==> w'.store[slot] == w.store[slot]
  {
    var (e, found) := Lookup(w, cfg, id, t.look);
    ExpireAt(w, cfg, t.look, slot);
    assert found.Success? ==> found.value == slot && e.store[slot] == w.store[slot];
    FailOfferApplied(e, cfg.iceCap, slot, Rejected(fault), t.stamp);
    hide Lookup, Apply;
  }

  /** An offer to a session still waiting for one ends the wait either way. */
  lemma OfferSettles(w: World, cfg: Config, id: string, sdp: SDP, t: Ticks, slot: nat)
    requires Sound(w, cfg.iceCap) && cfg.iceCap > 0 && !Blank(id)
    requires slot < |w.store| && w.store[slot].id == id && InMap(w, slot) && w.store[slot].state == New
    ensures var (w', r) := Call(w, cfg, id, Offer(w.store[slot].offerer, sdp), t);
      && r.Success? == (w'.store[slot].state == Connecting)
      && (if r.Success? then w'.store[slot].offer == Some(sdp) else Terminal(w'.store[slot].state))
  {
    var op := Offer(w.store[slot].offerer, sdp);
    var (e, found) := Lookup(w, cfg, id, t.look);
    ExpireIsSound(w, cfg, t.look);
    ExpireAt(w, cfg, t.look, slot);
    assert InMap(w, slot) <==> !Terminal(w.store[slot].state);
    assert InMap(e, slot) <==> !Terminal(e.store[slot].state);
    if found.Success? {
      assert found.value == slot;
      if Redirect(op).Some? {
        FailOfferSettles(e, cfg, id, Redirect(op).value, t.(look := t.relook), slot);
      }
    }
  }

  /** An offer without an id makes a session that is then either connecting or over. */
  lemma OfferWithoutIdSettles(w: World, cfg: Config, peer: string, sdp: SDP, suffix: string, t: Ticks)
    requires Sound(w, cfg.iceCap) && cfg.iceCap > 0 && NoNew(w)
    ensures var (w', r) := Handle(w, cfg, OfferRequest("", peer, sdp), suffix, t);
      && NoNew(w')
      && (|w'.store| > |w.store| ==>
            var made := w'.store[|w.store|];
            && |w'.store| == |w.store| + 1 && made.id == "ts-" + suffix && made.offerer == peer
            && (if r.Success? then made.state == Connecting && made.offer == Some(sdp) && InMap(w', |w.store|)
                else Terminal(made.state) && !InMap(w', |w.store|)))
      && (|w'.store| == |w.store| ==> r.Failure?)
  {
    var (w1, made) := Create(w, cfg, "", Mint(suffix), peer, t);
    var (w', r) := Handle(w, cfg, OfferRequest("", peer, sdp), suffix, t);
    CreateIsSound(w, cfg, "", Mint(suffix), peer, t);
    CreateMakesNewborn(w, cfg, "", Mint(suffix), peer, t);
    CreateAddsOneNew(w, cfg, Mint(suffix), peer, t);
    if made.Success? {
      MintedIsNotBlank(suffix);
      CallIsSound(w1, cfg, Mint(suffix), Offer(peer, sdp), t);
      OfferSettles(w1, cfg, Mint(suffix), sdp, t, made.value);
      EvolvingAddsNoNew(w1, w', made.value);
      assert InMap(w', made.value) <==> !Terminal(w'.store[made.value].state);
    }
  }

  lemma CreateAddsOneNew(w: World, cfg: Config, minted: string, peer: string, t: Ticks)
    requires Sound(w, cfg.iceCap) && NoNew(w)
    ensures var (w', made) := Create(w, cfg, "", minted, peer, t);
      if made.Success? then NoNewBut(w', made.value) else NoNew(w')
  {
    var e := Expire(w, cfg, t.mint);
    ExpireIsSound(w, cfg, t.mint);
    assert NoNewBut(w, |w.store|);
    EvolvingAddsNoNew(w, e, |w.store|);
  }

  /** After every request, of any kind and with any content, no session is left waiting for an offer. */
  lemma HandleLeavesNoNew(w: World, cfg: Config, req: Request, suffix: string, t: Ticks)
    requires Sound(w, cfg.iceCap) && cfg.iceCap > 0 && NoNew(w)
    ensures NoNew(Handle(w, cfg, req, suffix, t).0)
  {
    HandleIsSound(w, cfg, req, suffix, t);
    if req.OfferRequest? && req.id == "" {
      OfferWithoutIdSettles(w, cfg, req.peer, req.sdp, suffix, t);
    } else {
      assert NoNewBut(w, |w.store|);
      EvolvingAddsNoNew(w, Handle(w, cfg, req, suffix, t).0, |w.store|);
    }
  }

  lemma LookupLeavesNoNew(w: World, cfg: Config, id: string, now: int)
    requires Sound(w, cfg.iceCap) && NoNew(w)
    ensures var e := Lookup(w, cfg, id, now).0;
      Sound(e, cfg.iceCap) && NoNew(e) && StoredAsBefore(w, e)
  {
    var e := Expire(w, cfg, now);
    ExpireIsSound(w, cfg, now);
    StoredSurvivesExpiry(w, cfg, now);
    assert NoNewBut(w, |w.store|);
    EvolvingAddsNoNew(w, e, |w.store|);
  }

  lemma OfferPastNewIsIgnored(w: World, iceCap: nat, slot: nat, op: Op, now: int)
    requires WellFormed(w) && iceCap > 0 && slot < |w.store| && w.store[slot].state != New
    requires op.Offer? || op.FailOffer?
    ensures Apply(w, iceCap, slot, op, now) == (w, if op.Offer? then Some(BadTransition) else None)
  {
    assert w.store[slot := w.store[slot]] == w.store;
  }

  /** Past `new`, an offer or its failure does no more than look the session up. */
  lemma OfferPastNewOnlyLooks(w: World, cfg: Config, id: string, op: Op, t: Ticks)
    requires Sound(w, cfg.iceCap) && cfg.iceCap > 0 && NoNew(w)
    requires op.FailOffer? || (op.Offer? && Redirect(op).None?)
    ensures Call(w, cfg, id, op, t).0 == Lookup(w, cfg, id, t.look).0
    ensures op.Offer? ==> Call(w, cfg, id, op, t).1.Failure?
  {
    var (e, found) := Lookup(w, cfg, id, t.look);
    LookupLeavesNoNew(w, cfg, id, t.look);
    if found.Success? {
      assert e.store[found.value].state != New;
      hide Sound, NoNew, Lookup, Apply, StoredAsBefore, Expire;
      OfferPastNewIsIgnored(e, cfg.iceCap, found.value, op, t.stamp);
    }
  }

  predicate StoredAsBefore(w: World, w': World)
    requires |w.store| == |w'.store|
  {
    forall i | 0 <= i < |w'.store| && InMap(w', i) :: InMap(w, i) && w'.store[i] == w.store[i]
  }

  lemma OfferCallChangesNothing(w: World, cfg: Config, id: string, peer: string, sdp: SDP, t: Ticks)
    requires Sound(w, cfg.iceCap) && cfg.iceCap > 0 && NoNew(w)
    ensures var (w', r) := Call(w, cfg, id, Offer(peer, sdp), t);
      r.Failure? && StoredAsBefore(w, w')
  {
    var op := Offer(peer, sdp);
    var e := Lookup(w, cfg, id, t.look).0;
    LookupLeavesNoNew(w, cfg, id, t.look);
    if Redirect(op).None? {
      OfferPastNewOnlyLooks(w, cfg, id, op, t);
    } else {
      LookupLeavesNoNew(e, cfg, id, t.relook);
      OfferPastNewOnlyLooks(e, cfg, id, FailOffer(Rejected(Redirect(op).value)), t.(look := t.relook));
    }
  }

  /** An offer naming a session never succeeds, and whatever is stored afterwards is as it was. */
  lemma RepeatedOfferChangesNothing(w: World, cfg: Config, id: string, peer: string, sdp: SDP, suffix: string, t: Ticks)
    requires Sound(w, cfg.iceCap) && cfg.iceCap > 0 && NoNew(w) && id != ""
    ensures var (w', r) := Handle(w, cfg, OfferRequest(id, peer, sdp), suffix, t);
      r.Failure? && |w'.store| == |w.store| && StoredAsBefore(w, w')
  {
    OfferCallChangesNothing(w, cfg, id, peer, sdp, t);
  }

  lemma StoredSurvivesExpiry(w: World, cfg: Config, now: int)
    requires WellFormed(w)
    ensures StoredAsBefore(w, Expire(w, cfg, now))
  {
    forall i | 0 <= i < |w.store| && InMap(Expire(w, cfg, now), i)
      ensures InMap(w, i) && Expire(w, cfg, now).store[i] == w.store[i]
    {
      ExpireAt(w, cfg, now, i);
    }
  }

  /** After an expiry pass every stored session was updated within the TTL. */
  lemma ExpiryLeavesOnlyFresh(w: World, cfg: Config, now: int)
    requires Sound(w, cfg.iceCap) && cfg.ttl > 0
    ensures var e := Expire(w, cfg, now);
      forall i | 0 <= i < |e.store| && InMap(e, i) :: now - cfg.ttl <= e.store[i].updatedAt
  {
    forall i | 0 <= i < |w.store| && InMap(Expire(w, cfg, now), i)
      ensures now - cfg.ttl <= Expire(w, cfg, now).store[i].updatedAt
    {
      ExpireAt(w, cfg, now, i);
      assert InMap(w, i) <==> !Terminal(w.store[i].state);
    }
  }

  // Whole runs of requests.

  datatype Arrival = Arrival(request: Request, suffix: string, ticks: Ticks)

  function Serve(w: World, cfg: Config, arrivals: seq<Arrival>): (w': World)
    requires WellFormed(w) && cfg.iceCap > 0
    ensures WellFormed(w')
    decreases |arrivals|
  {
    if arrivals == [] then w
    else Serve(Handle(w, cfg, arrivals[0].request, arrivals[0].suffix, arrivals[0].ticks).0, cfg, arrivals[1..])
  }

  lemma {:induction false} ServeLeavesNoNew(w: World, cfg: Config, arrivals: seq<Arrival>)
    requires Sound(w, cfg.iceCap) && cfg.iceCap > 0 && NoNew(w)
    ensures var w' := Serve(w, cfg, arrivals);
      NoNew(w') && Sound(w', cfg.iceCap) && WorldEvolves(w, w') && Count(w') == |LiveSlots(w'.store)|
    decreases |arrivals|
  {
    if arrivals == [] {
      CountIsLive(w);
      assert forall i | 0 <= i < |w.store| :: Evolves(w.store[i], w.store[i]);
    } else {
      var a := arrivals[0];
      var w1 := Handle(w, cfg, a.request, a.suffix, a.ticks).0;
      HandleLeavesNoNew(w, cfg, a.request, a.suffix, a.ticks);
      HandleIsSound(w, cfg, a.request, a.suffix, a.ticks);
      ServeLeavesNoNew(w1, cfg, arrivals[1..]);
      WorldEvolvesIsTransitive(w, w1, Serve(w1, cfg, arrivals[1..]));
    }
  }
}

/** What every manager step keeps, with callers that may hold a session already removed. */
module SessionInvariants {
  import opened Wrappers
  import opened Envelope
  import opened Sessions

  function Rank(s: State): nat {
    match s
    case New => 0
    case Connecting => 1
    case Connected => 2
    case _ => 3
  }

  /** The fields of a session agree with its state. */
  predicate Coherent(r: Record) {
    && HashShape(r.offerer)
    && (r.state == New || r.state == FailedOffer ==> r.offer.None?)
    && (r.state == Connecting ==> r.offer.Some? && r.answer.None? && r.answerer == "")
    && (r.state == Connected ==> r.offer.Some? && r.answer.Some?)
    && (r.answer.Some? ==> r.offer.Some? && HashShape(r.answerer) && r.answerer != r.offerer)
    && (r.answer.None? ==> r.answerer == "")
    && (r.offer.Some? ==> SDPFault(r.offer.value).None?)
    && (r.answer.Some? ==> SDPFault(r.answer.value).None?)
    && (r.reason != NO_REASON ==> r.state == Failed || r.state == FailedOffer)
  }

  predicate Windowed(r: Record, iceCap: nat) {
    forall p | p in r.candidates :: HashShape(p) && 0 < |r.candidates[p]| <= iceCap
  }

  /** How a session may change while someone is at work on it. */
  predicate Develops(r: Record, r': Record) {
    && r'.id == r.id && r'.offerer == r.offerer && r'.createdAt == r.createdAt
    && (r.offer.Some? ==> r'.offer == r.offer)
    && (r.answer.Some? ==> r'.answer == r.answer && r'.answerer == r.answerer)
    && Rank(r.state) <= Rank(r'.state)
    && (r'.state != r.state ==> Rank(r.state) < Rank(r'.state))
    && (r'.state == FailedOffer ==> r.state == New || r.state == FailedOffer)
  }

  lemma DevelopsIsTransitive(r: Record, r': Record, r'': Record)
    requires Develops(r, r') && Develops(r', r'')
    ensures Develops(r, r'')
  {
  }

  /** How it may change by whole operations, in one step or over any number of them: what has ended stays. */
  predicate Evolves(r: Record, r': Record) {
    Develops(r, r') && (Terminal(r.state) ==> r' == r)
  }

  lemma EvolvesIsTransitive(r: Record, r': Record, r'': Record)
    requires Evolves(r, r') && Evolves(r', r'')
    ensures Evolves(r, r'')
  {
  }

  /** Operations that reach a session: the others are refused or turned into FailOffer before. */
  predicate Admissible(op: Op) {
    Precheck(op).None? && Redirect(op).None?
  }

  lemma ActKeepsCoherent(r: Record, iceCap: nat, op: Op, now: int)
    requires iceCap > 0 && Coherent(r) && Admissible(op)
    ensures Coherent(Act(r, iceCap, op, now).record)
  {
  }

  lemma ActKeepsWindowed(r: Record, iceCap: nat, op: Op, now: int)
    requires iceCap > 0 && Windowed(r, iceCap) && Admissible(op)
    ensures Windowed(Act(r, iceCap, op, now).record, iceCap)
  {
  }

  lemma ActEvolves(r: Record, iceCap: nat, op: Op, now: int)
    requires iceCap > 0
    requires (r.state == New ==> r.offer.None?) && (r.state == Connecting ==> r.answer.None?)
    ensures Evolves(r, Act(r, iceCap, op, now).record)
  {
  }

  /** A session leaves the map in the step that ends it; a dead one only through a second close. */
  lemma ActDrops(r: Record, iceCap: nat, op: Op, now: int)
    requires iceCap > 0
    ensures var e := Act(r, iceCap, op, now);
      if Terminal(r.state) then e.drop == (op.Close? && r.state == Failed) else e.drop == Terminal(e.record.state)
  {
  }

  /** In a coherent session nobody ever meets the branch that compares two answerers. */
  lemma AnswererMismatchIsDead(r: Record, iceCap: nat, op: Op, now: int)
    requires iceCap > 0 && Coherent(r)
    ensures Act(r, iceCap, op, now).error != Some(BadEnvelope(AnswererMismatch))
  {
  }

  /** The map holds exactly the sessions that have not ended. */
  predicate MapIsLive(w: World) {
    && WellFormed(w)
    && forall i | 0 <= i < |w.store| :: InMap(w, i) <==> !Terminal(w.store[i].state)
  }

  predicate Sound(w: World, iceCap: nat) {
    && MapIsLive(w)
    && forall i | 0 <= i < |w.store| :: Coherent(w.store[i]) && Windowed(w.store[i], iceCap)
  }

  predicate DistinctIds(w: World) {
    forall i, j | 0 <= i < j < |w.store| :: w.store[i].id != w.store[j].id
  }

  predicate WorldEvolves(w: World, w': World) {
    && |w.store| <= |w'.store|
    && forall i | 0 <= i < |w.store| :: Evolves(w.store[i], w'.store[i])
  }

  lemma WorldEvolvesIsTransitive(w: World, w': World, w'': World)
    requires WorldEvolves(w, w') && WorldEvolves(w', w'')
    ensures WorldEvolves(w, w'')
  {
    forall i | 0 <= i < |w.store| ensures Evolves(w.store[i], w''.store[i]) {
      EvolvesIsTransitive(w.store[i], w'.store[i], w''.store[i]);
    }
  }

  /** The expiry pass, session by session. */
  lemma ExpireAt(w: World, cfg: Config, now: int, i: nat)
    requires WellFormed(w) && i < |w.store|
    ensures var e := Expire(w, cfg, now);
            var r := w.store[i];
            var overdue := r.updatedAt == 0 || r.updatedAt < now - cfg.ttl;
            var gone := cfg.ttl > 0 && InMap(w, i) && !Terminal(r.state) && overdue;
      && e.store[i] == (if gone then r.(state := Closed, updatedAt := now) else r)
      && (InMap(e, i) <==> InMap(w, i) && !gone)
  {
  }

  lemma ExpireIsSound(w: World, cfg: Config, now: int)
    requires Sound(w, cfg.iceCap)
    ensures Sound(Expire(w, cfg, now), cfg.iceCap)
    ensures WorldEvolves(w, Expire(w, cfg, now))
  {
    var e := Expire(w, cfg, now);
    forall i | 0 <= i < |w.store|
      ensures InMap(e, i) <==> !Terminal(e.store[i].state)
      ensures Coherent(e.store[i]) && Windowed(e.store[i], cfg.iceCap) && Evolves(w.store[i], e.store[i])
    {
      ExpireAt(w, cfg, now, i);
      assert InMap(w, i) <==> !Terminal(w.store[i].state);
    }
  }

  /** A dead `failed` session whose id has been taken again: closing the old one drops the new one. */
  predicate ClosesStranger(w: World, slot: nat, op: Op)
    requires slot < |w.store|
  {
    op.Close? && w.store[slot].state == Failed && w.store[slot].id in w.live
  }

  lemma ApplyEvolves(w: World, iceCap: nat, slot: nat, op: Op, now: int)
    requires iceCap > 0 && Sound(w, iceCap) && slot < |w.store|
    ensures WorldEvolves(w, Apply(w, iceCap, slot, op, now).0)
  {
    ActEvolves(w.store[slot], iceCap, op, now);
  }

  lemma ApplyKeepsMapLive(w: World, iceCap: nat, slot: nat, op: Op, now: int)
    requires iceCap > 0 && MapIsLive(w) && slot < |w.store|
    requires Act(w.store[slot], iceCap, op, now).record.id == w.store[slot].id
    ensures MapIsLive(Apply(w, iceCap, slot, op, now).0) <==> !ClosesStranger(w, slot, op)
  {
    var r := w.store[slot];
    var e := Act(r, iceCap, op, now);
    var w' := Apply(w, iceCap, slot, op, now).0;
    ActDrops(r, iceCap, op, now);
    assert InMap(w, slot) <==> !Terminal(r.state);
    if ClosesStranger(w, slot, op) {
      var other := w.live[r.id];
      assert InMap(w, other) && !InMap(w', other);
      assert InMap(w, other) <==> !Terminal(w.store[other].state);
      assert w'.store[other] == w.store[other];
    } else {
      forall i | 0 <= i < |w'.store| ensures InMap(w', i) <==> !Terminal(w'.store[i].state) {
        assert InMap(w, i) <==> !Terminal(w.store[i].state);
        assert i != slot ==> w'.store[i] == w.store[i];
      }
    }
  }

  /**
   An operation on any session, in or out of the map, keeps the manager sound exactly when it does
   not close a stranger.
   */
  lemma ApplyIsSound(w: World, iceCap: nat, slot: nat, op: Op, now: int)
    requires iceCap > 0 && Sound(w, iceCap) && slot < |w.store| && Admissible(op)
    ensures Sound(Apply(w, iceCap, slot, op, now).0, iceCap) <==> !ClosesStranger(w, slot, op)
    ensures WorldEvolves(w, Apply(w, iceCap, slot, op, now).0)
  {
    ActKeepsCoherent(w.store[slot], iceCap, op, now);
    ActKeepsWindowed(w.store[slot], iceCap, op, now);
    ApplyEvolves(w, iceCap, slot, op, now);
    ApplyKeepsMapLive(w, iceCap, slot, op, now);
  }

  /** With ids never reused there is no stranger to close. */
  lemma DistinctIdsMeetNoStranger(w: World, slot: nat, op: Op)
    requires MapIsLive(w) && DistinctIds(w) && slot < |w.store|
    ensures !ClosesStranger(w, slot, op)
  {
    assert InMap(w, slot) <==> !Terminal(w.store[slot].state);
  }

  /** The same holds of a session just looked up, whatever its id. */
  lemma LiveSlotMeetsNoStranger(w: World, slot: nat, op: Op)
    requires MapIsLive(w) && slot < |w.store| && InMap(w, slot)
    ensures !ClosesStranger(w, slot, op)
  {
  }

  lemma CreateMakesNewborn(w: World, cfg: Config, id: string, minted: string, offerer: string, t: Ticks)
    requires WellFormed(w)
    ensures var (w', made) := Create(w, cfg, id, minted, offerer, t);
      made.Success? ==>
        && w'.store[made.value] == Newborn(if id == "" then minted else id, offerer, t.born)
        && HashShape(offerer) && InMap(w', made.value)
        && w' == World(Expire(w, cfg, t.mint).store + [w'.store[made.value]], w'.live)
  {
  }

  lemma AppendIsSound(w: World, iceCap: nat, r: Record)
    requires Sound(w, iceCap) && r.id !in w.live
    requires Coherent(r) && Windowed(r, iceCap) && !Terminal(r.state)
    ensures Sound(World(w.store + [r], w.live[r.id := |w.store|]), iceCap)
  {
    var w' := World(w.store + [r], w.live[r.id := |w.store|]);
    hide Coherent, Windowed;
    forall i | 0 <= i < |w'.store| ensures InMap(w', i) <==> !Terminal(w'.store[i].state) {
      if i < |w.store| {
        assert InMap(w, i) <==> !Terminal(w.store[i].state);
      }
    }
  }

  lemma CreateIsSound(w: World, cfg: Config, id: string, minted: string, offerer: string, t: Ticks)
    requires Sound(w, cfg.iceCap)
    ensures var w' := Create(w, cfg, id, minted, offerer, t).0;
      Sound(w', cfg.iceCap) && WorldEvolves(w, w')
  {
    var made := Create(w, cfg, id, minted, offerer, t).1;
    ExpireIsSound(w, cfg, t.mint);
    if made.Success? {
      AppendIsSound(Expire(w, cfg, t.mint), cfg.iceCap, Newborn(if id == "" then minted else id, offerer, t.born));
    }
  }

  /** Calls with nothing in between keep the manager sound, for ids of any kind. */
  lemma {:induction false} CallIsSound(w: World, cfg: Config, id: string, op: Op, t: Ticks)
    requires Sound(w, cfg.iceCap) && cfg.iceCap > 0
    ensures Sound(Call(w, cfg, id, op, t).0, cfg.iceCap)
    ensures WorldEvolves(w, Call(w, cfg, id, op, t).0)
    decreases op.Offer?
  {
    assert WellFormed(w);
    hide Sound, Expire, Apply, WorldEvolves;
    var w' := Call(w, cfg, id, op, t).0;
    if Precheck(op).None? {
      var (e, found) := Lookup(w, cfg, id, t.look);
      ExpireIsSound(w, cfg, t.look);
      if found.Success? {
        if Redirect(op).Some? {
          CallIsSound(e, cfg, id, FailOffer(Rejected(Redirect(op).value)), t.(look := t.relook));
        } else {
          LiveSlotMeetsNoStranger(e, found.value, op);
          ApplyIsSound(e, cfg.iceCap, found.value, op, t.stamp);
        }
        WorldEvolvesIsTransitive(w, e, w');
      }
    }
  }

  lemma HandleIsSound(w: World, cfg: Config, req: Request, suffix: string, t: Ticks)
    requires Sound(w, cfg.iceCap) && cfg.iceCap > 0
    ensures Sound(Handle(w, cfg, req, suffix, t).0, cfg.iceCap)
    ensures WorldEvolves(w, Handle(w, cfg, req, suffix, t).0)
  {
    match req
    case OfferRequest(id, peer, sdp) =>
      if id == "" {
        CreateIsSound(w, cfg, "", Mint(suffix), peer, t);
        var (w1, made) := Create(w, cfg, "", Mint(suffix), peer, t);
        if made.Success? {
          CallIsSound(w1, cfg, w1.store[made.value].id, Offer(peer, sdp), t);
          WorldEvolvesIsTransitive(w, w1, Handle(w, cfg, req, suffix, t).0);
        }
      } else if HashShape(peer) {
        CallIsSound(w, cfg, id, Offer(peer, sdp), t);
      }
    case AnswerRequest(id, peer, sdp) =>
      if id != "" && HashShape(peer) {
        CallIsSound(w, cfg, id, Answer(peer, sdp), t);
      }
    case IceRequest(id, peer, candidates) =>
      if id != "" && |candidates| == 1 {
        CallIsSound(w, cfg, id, Ice(peer, candidates[0]), t);
      }
  }

  // Count.

  function Count(w: World): nat {
    |w.live|
  }

  ghost function LiveSlots(store: seq<Record>): set<nat> {
    set i: nat | i < |store| && !Terminal(store[i].state)
  }

  /** `Count` is the number of sessions that have not ended. */
  lemma CountIsLive(w: World)
    requires MapIsLive(w)
    ensures Count(w) == |LiveSlots(w.store)|
  {
    forall i | i in LiveSlots(w.store) ensures i in w.live.Values {
      assert InMap(w, i);
    }
    forall i | i in w.live.Values ensures i in LiveSlots(w.store) {
      var id :| id in w.live && w.live[id] == i;
      assert InMap(w, i);
    }
    assert w.live.Values == LiveSlots(w.store);
    InjectiveMapSize(w.live);
  }

  lemma {:induction false} InjectiveMapSize(m: map<string, nat>)
    requires forall a, b | a in m && b in m && m[a] == m[b] :: a == b
    ensures |m| == |m.Values|
    decreases |m|
  {
    if |m| == 0 {
      assert m.Values == {};
    } else {
      var k :| k in m;
      var m' := m - {k};
      InjectiveMapSize(m');
      forall v | v in m.Values ensures v == m[k] || v in m'.Values {
        var a :| a in m && m[a] == v;
        assert a != k ==> a in m' && m'[a] == v;
      }
      assert m.Values == m'.Values + {m[k]};
      assert m.Keys == m'.Keys + {k};
    }
  }

  lemma LookupIsFresh(w: World, cfg: Config, id: string, now: int)
    requires Sound(w, cfg.iceCap) && cfg.ttl > 0 && Lookup(w, cfg, id, now).1.Success?
    ensures var (e, found) := Lookup(w, cfg, id, now);
      && InMap(w, found.value) && e.store[found.value] == w.store[found.value]
      && now - cfg.ttl <= w.store[found.value].updatedAt != 0
  {
    var slot := Lookup(w, cfg, id, now).1.value;
    ExpireAt(w, cfg, now, slot);
    assert InMap(w, slot) <==> !Terminal(w.store[slot].state);
  }

  /** A call that succeeds acted on a session that was in the map and inside its TTL at the lookup. */
  lemma SuccessMeansFresh(w: World, cfg: Config, id: string, op: Op, t: Ticks)
    requires Sound(w, cfg.iceCap) && cfg.iceCap > 0 && cfg.ttl > 0
    requires Call(w, cfg, id, op, t).1.Success?
    ensures var slot := Call(w, cfg, id, op, t).1.value;
      && InMap(w, slot) && w.store[slot].id == id
      && t.look - cfg.ttl <= w.store[slot].updatedAt != 0
  {
    LookupIsFresh(w, cfg, id, t.look);
  }
}

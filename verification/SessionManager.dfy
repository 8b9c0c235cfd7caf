/** The manager itself: session objects updated in place, and a map of them by id. */
module SessionManager {
  import opened Wrappers
  import opened Envelope
  import opened Sessions
  import opened PeerLists

  const DEFAULT_TTL := 15 * 60 * 1_000_000_000
  const DEFAULT_ICE_CAP := 50

  class WebRTCSession {
    ghost const slot: nat
    const id: string
    const offerer: string
    const createdAt: int
    var state: State
    var answerer: string
    var offer: Option<SDP>
    var answer: Option<SDP>
    var candidates: map<string, seq<Candidate>>
    var updatedAt: int
    var failedReason: Reason

    ghost function Value(): Record
      reads this
    {
      Record(id, state, offerer, answerer, offer, answer, candidates, createdAt, updatedAt, failedReason)
    }

    constructor (id: string, offerer: string, now: int, ghost slot: nat)
      ensures Value() == Newborn(id, offerer, now) && this.slot == slot
    {
      this.id, this.offerer, this.createdAt, this.slot := id, offerer, now, slot;
      state, answerer, offer, answer := New, "", None, None;
      candidates, updatedAt, failedReason := map[], now, NO_REASON;
    }

    /** The single point of state change. */
    method TransitionLocked(to: State, force: bool, now: int) returns (error: Option<Error>)
      modifies this`state, this`updatedAt
      ensures match Transition(old(Value()), to, force, now)
              case Success(r) => error.None? && Value() == r
              case Failure(e) => error == Some(e) && Value() == old(Value())
      ensures error.None? <==> old(state) == to || force || (old(state), to) in {
        (New, Connecting), (New, Failed), (New, FailedOffer),
        (Connecting, Connected), (Connecting, Failed),
        (Connected, Closed), (Connected, Failed)}
    {
      if state == to {
        return None;
      }
      if !force {
        match state {
          case New =>
            if to != Connecting && to != Failed && to != FailedOffer {
              return Some(BadTransition);
            }
          case Connecting =>
            if to != Connected && to != Failed {
              return Some(BadTransition);
            }
          case Connected =>
            if to != Closed && to != Failed {
              return Some(BadTransition);
            }
          case Closed | Failed | FailedOffer =>
            return Some(BadTransition);
        }
      }
      state, updatedAt := to, now;
      return None;
    }

    /** The candidates of every peer but one, as the walk over the map meets them. */
    method RemoteCandidates(peer: string) returns (out: seq<Candidate>)
      ensures exists order ::
        Enumerates(order, candidates.Keys - {peer}) && out == Flatten(order, candidates)
    {
      out := [];
      var todo := candidates.Keys;
      ghost var order: seq<string> := [];
      while todo != {}
        invariant todo <= candidates.Keys
        invariant Enumerates(order, candidates.Keys - todo - {peer})
        invariant out == Flatten(order, candidates)
        decreases todo
      {
        var stored :| stored in todo;
        ghost var seen := candidates.Keys - todo - {peer};
        todo := todo - {stored};
        if stored == peer {
          assert candidates.Keys - todo - {peer} == seen;
          continue;
        }
        EnumeratesOneMore(order, seen, stored);
        assert candidates.Keys - todo - {peer} == seen + {stored};
        out := out + candidates[stored];
        order := order + [stored];
        assert order[..|order| - 1] + [stored] == order;
      }
    }

    ghost function Suppliers(peers: set<string>): set<string>
      requires peers <= candidates.Keys
      reads this
    {
      set p | p in peers && candidates[p] != []
    }

    /** The peers that have supplied candidates, in ascending order. */
    method PeerList() returns (peers: seq<string>)
      ensures StrictlySorted(peers)
      ensures forall p :: p in peers <==> p in candidates && candidates[p] != []
    {
      var out: seq<string> := [];
      var todo := candidates.Keys;
      while todo != {}
        invariant todo <= candidates.Keys
        invariant Enumerates(out, Suppliers(candidates.Keys - todo))
        decreases todo
      {
        var k :| k in todo;
        ghost var seen := Suppliers(candidates.Keys - todo);
        todo := todo - {k};
        if |candidates[k]| > 0 {
          EnumeratesOneMore(out, seen, k);
          out := out + [k];
          assert Suppliers(candidates.Keys - todo) == seen + {k};
        } else {
          assert Suppliers(candidates.Keys - todo) == seen;
        }
      }
      var a := new string[|out|](i requires 0 <= i < |out| => out[i]);
      assert a[..] == out;
      SortStrings(a);
      peers := a[..];
      SortedPermutation(out, peers);
    }
  }

  class Manager {
    const ttl: int
    const iceCap: nat
    var sessions: map<string, WebRTCSession>
    /** Every session ever created, each at its slot. */
    ghost var created: seq<WebRTCSession>

    ghost predicate Valid()
      reads this, created
    {
      && iceCap > 0
      && (forall i | 0 <= i < |created| :: created[i].slot == i)
      && (forall key | key in sessions ::
            var ws := sessions[key]; ws.slot < |created| && created[ws.slot] == ws && ws.id == key)
    }

    ghost predicate Owns(ws: WebRTCSession)
      reads this
    {
      ws.slot < |created| && created[ws.slot] == ws
    }

    ghost function Settings(): Config {
      Config(ttl, iceCap)
    }

    ghost function View(): (w: World)
      requires Valid()
      reads this, created
      ensures WellFormed(w)
    {
      World(Store(), Live())
    }

    ghost function Store(): seq<Record>
      reads this, created
    {
      seq(|created|, i requires 0 <= i < |created| reads this, created => created[i].Value())
    }

    ghost function Live(): map<string, nat>
      reads this
    {
      map key | key in sessions :: sessions[key].slot
    }

    /** A returned session is the one the model names; a returned error is the model's. */
    ghost predicate Same(r: Result<WebRTCSession, Error>, spec: Result<nat, Error>)
      reads this
    {
      match (r, spec)
      case (Success(ws), Success(slot)) => slot < |created| && created[slot] == ws
      case (Failure(e), Failure(e')) => e == e'
      case _ => false
    }

    constructor (ttl: int, iceCap: int)
      ensures Valid() && fresh(this) && View() == EMPTY_WORLD
      ensures Settings() ==
        Config(if ttl <= 0 then 900_000_000_000 else ttl, if iceCap <= 0 then 50 else iceCap)
    {
      this.ttl := if ttl <= 0 then DEFAULT_TTL else ttl;
      this.iceCap := if iceCap <= 0 then DEFAULT_ICE_CAP else iceCap;
      sessions, created := map[], [];
    }

    /** The number of active sessions. */
    method Count() returns (n: nat)
      requires Valid()
      ensures n == |View().live|
    {
      assert View().live.Keys == sessions.Keys;
      return |sessions|;
    }

    /** What the view shows when only `ws` changed, and at most its entry left the map. */
    twostate lemma OnlyTouched(ws: WebRTCSession)
      requires old(Valid()) && Valid() && created == old(created) && Owns(ws)
      requires forall o | o in created && o != ws :: o.Value() == old(o.Value())
      ensures Store() == old(Store())[ws.slot := ws.Value()]
      ensures sessions == old(sessions) ==> Live() == old(Live())
      ensures sessions == old(sessions) - {ws.id} ==> Live() == old(Live()) - {ws.id}
    {
    }

    /** One turn of the expiry loop, with the ids in `todo` still to visit. */
    method ExpireOne(id: string, now: int, ghost w: World, ghost todo: set<string>) returns (gone: nat)
      requires Valid() && id in todo && todo <= sessions.Keys && todo <= w.live.Keys
      requires WellFormed(w) && View() == ExpireOnly(w, ttl, now, w.live.Keys - todo)
      modifies this`sessions, created
      ensures Valid() && created == old(created)
      ensures todo - {id} <= sessions.Keys
      ensures gone + |sessions| == |old(sessions)|
      ensures View() == ExpireOnly(w, ttl, now, w.live.Keys - (todo - {id}))
    {
      ExpireNext(w, ttl, now, todo, id);
      var ws := sessions[id];
      gone := 0;
      if (ws.updatedAt < now - ttl || ws.updatedAt == 0) && !Terminal(ws.state) {
        var _ := ws.TransitionLocked(Closed, true, now);
        sessions := sessions - {id};
        gone := 1;
      }
      OnlyTouched(ws);
    }

    /** The expiry loop, which visits the ids of the map in some order. */
    method ExpireLoop(now: int, ghost w: World) returns (expired: nat)
      requires Valid() && w == View()
      modifies this`sessions, created
      ensures Valid() && created == old(created)
      ensures View() == ExpireOnly(w, ttl, now, w.live.Keys)
      ensures expired + |sessions| == |old(sessions)|
    {
      hide ExpireOnly;
      expired := 0;
      var todo := sessions.Keys;
      assert w.live.Keys - todo == {};
      ExpireNothing(w, ttl, now);
      while todo != {}
        invariant Valid() && created == old(created)
        invariant todo <= sessions.Keys && todo <= w.live.Keys
        invariant View() == ExpireOnly(w, ttl, now, w.live.Keys - todo)
        invariant expired + |sessions| == |old(sessions)|
        decreases todo
      {
        var id :| id in todo;
        var gone := ExpireOne(id, now, w, todo);
        todo := todo - {id};
        expired := expired + gone;
      }
      assert w.live.Keys - todo == w.live.Keys;
    }

    method ExpireLocked(now: int) returns (expired: nat)
      requires Valid()
      modifies this`sessions, created
      ensures Valid() && created == old(created)
      ensures View() == Expire(old(View()), Settings(), now)
      ensures expired + |sessions| == |old(sessions)|
    {
      if ttl <= 0 {
        return 0;
      }
      expired := ExpireLoop(now, View());
    }

    method GetSession(id: string, now: int) returns (r: Result<WebRTCSession, Error>)
      requires Valid()
      modifies this`sessions, created
      ensures Valid() && created == old(created)
      ensures View() == Lookup(old(View()), Settings(), id, now).0
      ensures Same(r, Lookup(old(View()), Settings(), id, now).1)
    {
      if Blank(id) {
        return Failure(NotFound);
      }
      var _ := ExpireLocked(now);
      assert View().live.Keys == sessions.Keys;
      if id !in sessions {
        return Failure(NotFound);
      }
      return Success(sessions[id]);
    }

    method Insert(key: string, offerer: string, now: int) returns (ws: WebRTCSession)
      requires Valid() && key !in sessions
      modifies this`sessions, this`created
      ensures Valid() && fresh(ws) && created == old(created) + [ws] && ws.slot == |old(created)|
      ensures Store() == old(Store()) + [Newborn(key, offerer, now)]
      ensures Live() == old(Live())[key := |old(created)|]
    {
      ghost var n := |created|;
      ws := new WebRTCSession(key, offerer, now, n);
      created := created + [ws];
      sessions := sessions[key := ws];
    }

    method CreateSession(id: string, minted: string, offerer: string, t: Ticks)
      returns (r: Result<WebRTCSession, Error>)
      requires Valid()
      modifies this, created
      ensures Valid() && old(created) <= created
      ensures forall i | |old(created)| <= i < |created| :: fresh(created[i])
      ensures View() == Create(old(View()), Settings(), id, minted, offerer, t).0
      ensures Same(r, Create(old(View()), Settings(), id, minted, offerer, t).1)
    {
      if Blank(offerer) {
        return Failure(BadEnvelope(OffererMissing));
      }
      if !HashShape(offerer) {
        return Failure(BadEnvelope(BadHash));
      }
      var _ := ExpireLocked(t.mint);
      var key := if id == "" then minted else id;
      if key in sessions {
        return Failure(IdTaken);
      }
      var ws := Insert(key, offerer, t.born);
      return Success(ws);
    }

    /** The part of ApplyOffer under the session's lock, for a session that may have left the map. */
    method OfferLocked(ws: WebRTCSession, id: string, peer: string, sdp: SDP, now: int) returns (error: Option<Error>)
      requires Valid() && Owns(ws) && ws.id == id
      modifies this`sessions, ws
      ensures Valid() && created == old(created)
      ensures (View(), error) == Apply(old(View()), iceCap, ws.slot, Offer(peer, sdp), now)
    {
      if ws.state != New {
        OnlyTouched(ws);
        return Some(BadTransition);
      }
      if peer != ws.offerer {
        ws.failedReason := Mismatch(ws.offerer, peer);
        error := ws.TransitionLocked(FailedOffer, false, now);
        if error.None? {
          sessions := sessions - {id};
        }
        OnlyTouched(ws);
        return Some(BadEnvelope(OffererMismatch));
      }
      ws.offer := Some(sdp);
      error := ws.TransitionLocked(Connecting, false, now);
      OnlyTouched(ws);
    }

    method ApplyOffer(id: string, peer: string, sdp: SDP, t: Ticks)
      returns (r: Result<WebRTCSession, Error>)
      requires Valid()
      modifies this`sessions, created
      ensures Valid() && created == old(created)
      ensures View() == Call(old(View()), Settings(), id, Offer(peer, sdp), t).0
      ensures Same(r, Call(old(View()), Settings(), id, Offer(peer, sdp), t).1)
    {
      r := GetSession(id, t.look);
      if r.Failure? {
        return;
      }
      var fault := SDPFault(sdp);
      if fault.Some? {
        var _ := FailOffer(id, Rejected(fault.value), t.(look := t.relook));
        return Failure(BadEnvelope(fault.value));
      }
      var error := OfferLocked(r.value, id, peer, sdp, t.stamp);
      if error.Some? {
        return Failure(error.value);
      }
    }

    method AnswerLocked(ws: WebRTCSession, peer: string, sdp: SDP, now: int) returns (error: Option<Error>)
      requires Valid() && Owns(ws)
      modifies ws
      ensures Valid()
      ensures (View(), error) == Apply(old(View()), iceCap, ws.slot, Answer(peer, sdp), now)
    {
      if ws.state != Connecting {
        OnlyTouched(ws);
        return Some(BadTransition);
      }
      if peer == ws.offerer {
        OnlyTouched(ws);
        return Some(BadEnvelope(AnswererIsOfferer));
      }
      if !HashShape(peer) {
        OnlyTouched(ws);
        return Some(BadEnvelope(BadHash));
      }
      if ws.answerer == "" {
        ws.answerer := peer;
      } else if ws.answerer != peer {
        OnlyTouched(ws);
        return Some(BadEnvelope(AnswererMismatch));
      }
      ws.answer := Some(sdp);
      error := ws.TransitionLocked(Connected, false, now);
      OnlyTouched(ws);
    }

    method ApplyAnswer(id: string, peer: string, sdp: SDP, t: Ticks)
      returns (r: Result<WebRTCSession, Error>)
      requires Valid()
      modifies this`sessions, created
      ensures Valid() && created == old(created)
      ensures View() == Call(old(View()), Settings(), id, Answer(peer, sdp), t).0
      ensures Same(r, Call(old(View()), Settings(), id, Answer(peer, sdp), t).1)
    {
      var fault := SDPFault(sdp);
      if fault.Some? {
        return Failure(BadEnvelope(fault.value));
      }
      r := GetSession(id, t.look);
      if r.Failure? {
        return;
      }
      var error := AnswerLocked(r.value, peer, sdp, t.stamp);
      if error.Some? {
        return Failure(error.value);
      }
    }

    method AppendLocked(ws: WebRTCSession, peer: string, c: Candidate, now: int) returns (error: Option<Error>)
      requires Valid() && Owns(ws)
      modifies ws
      ensures Valid()
      ensures (View(), error) == Apply(old(View()), iceCap, ws.slot, Ice(peer, c), now)
    {
      if Terminal(ws.state) {
        OnlyTouched(ws);
        return Some(TerminalSession);
      }
      var list := if peer in ws.candidates then ws.candidates[peer] else [];
      if |list| >= iceCap {
        list := list[1..];
      }
      list := list + [c];
      ws.candidates := ws.candidates[peer := list];
      ws.updatedAt := now;
      OnlyTouched(ws);
      return None;
    }

    method AppendICE(id: string, peer: string, c: Candidate, t: Ticks)
      returns (r: Result<WebRTCSession, Error>)
      requires Valid()
      modifies this`sessions, created
      ensures Valid() && created == old(created)
      ensures View() == Call(old(View()), Settings(), id, Ice(peer, c), t).0
      ensures Same(r, Call(old(View()), Settings(), id, Ice(peer, c), t).1)
    {
      var fault := CandidateFault(c);
      if fault.Some? {
        return Failure(BadEnvelope(fault.value));
      }
      if !HashShape(peer) {
        return Failure(BadEnvelope(BadHash));
      }
      r := GetSession(id, t.look);
      if r.Failure? {
        return;
      }
      var error := AppendLocked(r.value, peer, c, t.stamp);
      if error.Some? {
        return Failure(error.value);
      }
    }

    method CloseLocked(ws: WebRTCSession, id: string, now: int) returns (error: Option<Error>)
      requires Valid() && Owns(ws) && ws.id == id
      modifies this`sessions, ws
      ensures Valid() && created == old(created)
      ensures (View(), error) == Apply(old(View()), iceCap, ws.slot, Close, now)
    {
      if ws.state == Closed {
        OnlyTouched(ws);
        return None;
      }
      if ws.state == Failed {
        sessions := sessions - {id};
        OnlyTouched(ws);
        return None;
      }
      error := ws.TransitionLocked(Closed, false, now);
      if error.None? {
        sessions := sessions - {id};
      }
      OnlyTouched(ws);
    }

    method CloseSession(id: string, t: Ticks) returns (error: Option<Error>)
      requires Valid()
      modifies this`sessions, created
      ensures Valid() && created == old(created)
      ensures View() == Call(old(View()), Settings(), id, Close, t).0
      ensures error == Outcome(Call(old(View()), Settings(), id, Close, t).1)
    {
      hide Lookup, Apply;
      var found := GetSession(id, t.look);
      if found.Failure? {
        return Some(found.error);
      }
      error := CloseLocked(found.value, id, t.stamp);
    }

    method FailLocked(ws: WebRTCSession, id: string, reason: Reason, now: int) returns (error: Option<Error>)
      requires Valid() && Owns(ws) && ws.id == id
      modifies this`sessions, ws
      ensures Valid() && created == old(created)
      ensures (View(), error) == Apply(old(View()), iceCap, ws.slot, Fail(reason), now)
    {
      if Terminal(ws.state) {
        OnlyTouched(ws);
        return None;
      }
      ws.failedReason := reason;
      error := ws.TransitionLocked(Failed, true, now);
      if error.None? {
        sessions := sessions - {id};
      }
      OnlyTouched(ws);
    }

    method FailSession(id: string, reason: Reason, t: Ticks) returns (error: Option<Error>)
      requires Valid()
      modifies this`sessions, created
      ensures Valid() && created == old(created)
      ensures View() == Call(old(View()), Settings(), id, Fail(reason), t).0
      ensures error == Outcome(Call(old(View()), Settings(), id, Fail(reason), t).1)
    {
      hide Lookup, Apply;
      var found := GetSession(id, t.look);
      if found.Failure? {
        return Some(found.error);
      }
      error := FailLocked(found.value, id, reason, t.stamp);
    }

    method FailOfferLocked(ws: WebRTCSession, id: string, reason: Reason, now: int) returns (error: Option<Error>)
      requires Valid() && Owns(ws) && ws.id == id
      modifies this`sessions, ws
      ensures Valid() && created == old(created)
      ensures (View(), error) == Apply(old(View()), iceCap, ws.slot, Op.FailOffer(reason), now)
    {
      if ws.state != New {
        OnlyTouched(ws);
        return None;
      }
      ws.failedReason := reason;
      error := ws.TransitionLocked(FailedOffer, false, now);
      if error.None? {
        sessions := sessions - {id};
      }
      OnlyTouched(ws);
    }

    method FailOffer(id: string, reason: Reason, t: Ticks) returns (error: Option<Error>)
      requires Valid()
      modifies this`sessions, created
      ensures Valid() && created == old(created)
      ensures View() == Call(old(View()), Settings(), id, Op.FailOffer(reason), t).0
      ensures error == Outcome(Call(old(View()), Settings(), id, Op.FailOffer(reason), t).1)
    {
      hide Lookup, Apply;
      var found := GetSession(id, t.look);
      if found.Failure? {
        return Some(found.error);
      }
      error := FailOfferLocked(found.value, id, reason, t.stamp);
    }

    // The POST handlers, after the method and JSON checks.

    method HandleOffer(id: string, peer: string, sdp: SDP, suffix: string, t: Ticks)
      returns (r: Result<WebRTCSession, Error>)
      requires Valid()
      modifies this, created
      ensures Valid() && old(created) <= created
      ensures View() == Handle(old(View()), Settings(), OfferRequest(id, peer, sdp), suffix, t).0
      ensures Same(r, Handle(old(View()), Settings(), OfferRequest(id, peer, sdp), suffix, t).1)
    {
      var key := id;
      if id == "" {
        r := CreateSession("", Mint(suffix), peer, t);
        if r.Failure? {
          return;
        }
        key := r.value.id;
      }
      assert forall i | 0 <= i < |old(created)| :: created[i] == old(created)[i];
      if !HashShape(peer) {
        return Failure(BadEnvelope(BadHash));
      }
      r := ApplyOffer(key, peer, sdp, t);
    }

    method HandleAnswer(id: string, peer: string, sdp: SDP, suffix: string, t: Ticks)
      returns (r: Result<WebRTCSession, Error>)
      requires Valid()
      modifies this`sessions, created
      ensures Valid() && created == old(created)
      ensures View() == Handle(old(View()), Settings(), AnswerRequest(id, peer, sdp), suffix, t).0
      ensures Same(r, Handle(old(View()), Settings(), AnswerRequest(id, peer, sdp), suffix, t).1)
    {
      if id == "" {
        return Failure(BadEnvelope(SessionIdMissing));
      }
      if !HashShape(peer) {
        return Failure(BadEnvelope(BadHash));
      }
      r := ApplyAnswer(id, peer, sdp, t);
    }

    method HandleICE(id: string, peer: string, candidates: seq<Candidate>, suffix: string, t: Ticks)
      returns (r: Result<WebRTCSession, Error>)
      requires Valid()
      modifies this`sessions, created
      ensures Valid() && created == old(created)
      ensures View() == Handle(old(View()), Settings(), IceRequest(id, peer, candidates), suffix, t).0
      ensures Same(r, Handle(old(View()), Settings(), IceRequest(id, peer, candidates), suffix, t).1)
    {
      if id == "" {
        return Failure(BadEnvelope(SessionIdMissing));
      }
      if |candidates| != 1 {
        return Failure(BadEnvelope(WrongCandidateCount));
      }
      r := AppendICE(id, peer, candidates[0], t);
    }
  }

  ghost function Outcome(r: Result<nat, Error>): Option<Error> {
    if r.Failure? then Some(r.error) else None
  }

  lemma ExpireNothing(w: World, ttl: int, now: int)
    requires WellFormed(w)
    ensures ExpireOnly(w, ttl, now, {}) == w
  {
    assert ExpireOnly(w, ttl, now, {}).store == w.store;
    assert ExpireOnly(w, ttl, now, {}).live == w.live;
  }

  /** Visiting one more id: its session is closed and dropped if it is stale, or nothing changes. */
  lemma ExpireOneMore(w: World, ttl: int, now: int, seen: set<string>, id: string)
    requires WellFormed(w) && id in w.live && id !in seen
    ensures var e, e' := ExpireOnly(w, ttl, now, seen), ExpireOnly(w, ttl, now, seen + {id});
            var slot := w.live[id];
      && id in e.live && e.live[id] == slot && e.store[slot] == w.store[slot]
      && e' == if Doomed(w.store[slot], ttl, now)
               then World(e.store[slot := w.store[slot].(state := Closed, updatedAt := now)], e.live - {id})
               else e
  {
    var e, e' := ExpireOnly(w, ttl, now, seen), ExpireOnly(w, ttl, now, seen + {id});
    var slot := w.live[id];
    if Doomed(w.store[slot], ttl, now) {
      assert e'.store == e.store[slot := w.store[slot].(state := Closed, updatedAt := now)];
      assert e'.live == e.live - {id};
    } else {
      assert e'.store == e.store;
      assert e'.live == e.live;
    }
  }

  lemma ExpireNext(w: World, ttl: int, now: int, todo: set<string>, id: string)
    requires WellFormed(w) && id in w.live && id in todo
    ensures var e := ExpireOnly(w, ttl, now, w.live.Keys - todo);
            var e' := ExpireOnly(w, ttl, now, w.live.Keys - (todo - {id}));
            var slot := w.live[id];
      && id in e.live && e.live[id] == slot && e.store[slot] == w.store[slot]
      && e' == if Doomed(w.store[slot], ttl, now)
               then World(e.store[slot := w.store[slot].(state := Closed, updatedAt := now)], e.live - {id})
               else e
  {
    assert w.live.Keys - (todo - {id}) == w.live.Keys - todo + {id};
    ExpireOneMore(w, ttl, now, w.live.Keys - todo, id);
  }
}

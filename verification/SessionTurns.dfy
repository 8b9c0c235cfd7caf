/**
 What a turn keeps. Every session is in its place and every caller goes on with the session it tested,
 except after certain turns: closing a session that failed or is about to, and writing to one that was
 closed in the middle of an action.
 */
module SessionTurns {
  import opened Wrappers
  import opened Envelope
  import opened Sessions
  import opened SessionInvariants
  import opened SessionActs
  import opened SessionRuns
  import opened SessionWalks

  // What every turn keeps, but for a few.

  /** The session as its caller has it in hand. */
  function InHand(was: Record, iceCap: nat, op: Op, next: Next): Record
    requires iceCap > 0
  {
    match next
    case ToFill => was
    case ToRead => Fill(was, iceCap, op)
    case ToSet => Fill(was, iceCap, op)
    case ToStamp => SetState(Fill(was, iceCap, op), Goal(was.offerer, op))
  }

  predicate HasPassed(was: Record, op: Op, next: Next) {
    var goal := Goal(was.offerer, op);
    && (next == ToRead || next == ToSet ==> goal.Some?)
    && (next == ToSet || (next == ToStamp && goal.Some?) ==> Admits(was.state, op, goal.value))
  }

  /** It passed its tests, and the session is what it made of it since, or was closed meanwhile. */
  predicate IsInHand(r: Record, iceCap: nat, op: Op, next: Next, was: Record)
    requires iceCap > 0
  {
    && Admissible(op) && Coherent(was) && Windowed(was, iceCap) && Test(was, op) == Go && HasPassed(was, op, next)
    && r.offerer == was.offerer
    && (r == InHand(was, iceCap, op, next) || (r.state == Closed && Coherent(r) && Windowed(r, iceCap)))
  }

  predicate IsReady(s: Moment, iceCap: nat, c: Caller)
    requires iceCap > 0
  {
    match c
    case Free(Idle) => true
    case Free(Looking(_, op)) => Precheck(op).None?
    case Free(Holding(_, op)) => Admissible(op)
    case Acting(slot, op, next, was) =>
      && slot < |s.world.store| && IsInHand(s.world.store[slot], iceCap, op, next, was)
      && (Terminal(s.world.store[slot].state) && !Ends(c, slot, s.world.store[slot].state) ==> !InMap(s.world, slot))
    case Dropping(slot) => slot < |s.world.store| && Terminal(s.world.store[slot].state)
  }

  /** A session that has not ended is in the map; one that has is there only while its lock is held. */
  predicate Placed(s: Moment, i: nat)
    requires i < |s.world.store|
  {
    if Terminal(s.world.store[i].state) then InMap(s.world, i) ==> Locked(s.callers, i) else InMap(s.world, i)
  }

  predicate Fine(s: Moment, iceCap: nat, i: nat)
    requires i < |s.world.store|
  {
    Acted(s.callers, i) || (Coherent(s.world.store[i]) && Windowed(s.world.store[i], iceCap))
  }

  predicate AllReady(s: Moment, iceCap: nat)
    requires iceCap > 0
  {
    forall tid | tid in s.callers :: IsReady(s, iceCap, s.callers[tid])
  }

  predicate AllPlaced(s: Moment) {
    forall i | 0 <= i < |s.world.store| :: Placed(s, i)
  }

  predicate AllFine(s: Moment, iceCap: nat) {
    forall i | 0 <= i < |s.world.store| :: Fine(s, iceCap, i)
  }

  /** Everything is in its place, and every session no one is acting on is coherent. */
  predicate Tidy(s: Moment, iceCap: nat)
    requires iceCap > 0
  {
    Fits(s) && DistinctIds(s.world) && AllReady(s, iceCap) && AllPlaced(s) && AllFine(s, iceCap)
  }

  /** A session has ended once its state says so, and the one who set the state has stamped it. */
  predicate Over(s: Moment, i: nat)
    requires i < |s.world.store|
  {
    Terminal(s.world.store[i].state) && !Ending(s.callers, i, s.world.store[i].state)
  }

  predicate DevelopsAt(s: Moment, s': Moment, i: nat)
    requires i < |s.world.store| <= |s'.world.store|
  {
    && Develops(s.world.store[i], s'.world.store[i])
    && (Over(s, i) ==> s'.world.store[i] == s.world.store[i] && Over(s', i))
  }

  /** No session is taken back, and none that has ended changes. */
  predicate DevelopsAll(s: Moment, s': Moment) {
    |s.world.store| <= |s'.world.store| && forall i | 0 <= i < |s.world.store| :: DevelopsAt(s, s', i)
  }

  /**
   The turns that break this: closing a session that failed, or that carries its reason for failing; and
   writing to one that has ended, be it a field, its state or its timestamp.
   */
  predicate Races(s: Moment, cfg: Config, turn: Turn)
    requires Fits(s) && cfg.iceCap > 0
  {
    Can(s, turn) &&
    match turn
    case DoForce => !Closable(s.world.store[MarkedSlot(s)])
    case DoFill(tid) =>
      var c := s.callers[tid];
      Over(s, c.slot) && Fill(s.world.store[c.slot], cfg.iceCap, c.op) != s.world.store[c.slot]
    case DoSet(tid) => Over(s, s.callers[tid].slot)
    case DoStamp(tid, now) =>
      var slot := s.callers[tid].slot;
      Over(s, slot) && s.world.store[slot].updatedAt != now
    case _ => false
  }

  /** A session that is created has an id no earlier one had. */
  predicate Fresh(s: Moment, turn: Turn)
    requires Fits(s)
  {
    turn.DoLeave? && Can(s, turn) && s.walk.value.purpose.Make? &&
    KeyOf(s.walk.value.purpose) !in s.world.live ==>
      forall i | 0 <= i < |s.world.store| :: s.world.store[i].id != KeyOf(s.walk.value.purpose)
  }

  /** Creations enter with an offerer that passed its checks. */
  predicate Checked(s: Moment) {
    s.walk.Some? && s.walk.value.purpose.Make? ==> HashShape(s.walk.value.purpose.offerer)
  }

  // A turn of one caller, on the session it holds.

  lemma StaysReady(s: Moment, s': Moment, iceCap: nat, c: Caller)
    requires iceCap > 0 && IsReady(s, iceCap, c) && |s.world.store| <= |s'.world.store|
    requires !c.Free? && c.slot < |s.world.store| ==>
      s'.world.store[c.slot] == s.world.store[c.slot] && (InMap(s'.world, c.slot) ==> InMap(s.world, c.slot))
    ensures IsReady(s', iceCap, c)
  {
    hide IsInHand, Admissible;
  }

  /** The new session and caller fit together. */
  predicate HolderFitsIn(s: Moment, iceCap: nat, slot: nat, r: Record, c: Caller)
    requires slot < |s.world.store|
  {
    && r.id == s.world.store[slot].id
    && (!c.Acting? ==> Coherent(r) && Windowed(r, iceCap))
    && (if Terminal(r.state) then InMap(s.world, slot) ==> !c.Free? else InMap(s.world, slot))
  }

  lemma HolderKeepsPlaces(s: Moment, iceCap: nat, tid: nat, slot: nat, r: Record, c: Caller)
    requires Fits(s) && AllPlaced(s) && AllFine(s, iceCap)
    requires slot < |s.world.store| && OnlyHolder(s.callers, tid, slot)
    requires CallerOf(s, tid).Free? || CallerOf(s, tid).slot == slot
    requires !c.Free? ==> c.slot == slot
    requires HolderFitsIn(s, iceCap, slot, r, c)
    ensures AllPlaced(SetSession(s, slot, r, tid, c)) && AllFine(SetSession(s, slot, r, tid, c), iceCap)
  {
    var s' := SetSession(s, slot, r, tid, c);
    CallerSet(s.callers, tid, c, slot);
    hide Fits, OnlyHolder, Exclusive, Locked, Acted, Ending, Coherent, Windowed;
    forall i | 0 <= i < |s.world.store| ensures Placed(s', i) && Fine(s', iceCap, i) {
      assert Placed(s, i) && Fine(s, iceCap, i);
      if i != slot {
        OthersKeepLocks(s.callers, tid, c, slot, i);
      }
    }
  }

  lemma HolderKeepsReady(s: Moment, iceCap: nat, tid: nat, slot: nat, r: Record, c: Caller)
    requires iceCap > 0 && AllReady(s, iceCap) && slot < |s.world.store| && OnlyHolder(s.callers, tid, slot)
    requires r.id == s.world.store[slot].id && IsReady(SetSession(s, slot, r, tid, c), iceCap, c)
    ensures AllReady(SetSession(s, slot, r, tid, c), iceCap)
  {
    var s' := SetSession(s, slot, r, tid, c);
    hide IsReady, Terminal;
    forall t | t in s'.callers ensures IsReady(s', iceCap, s'.callers[t]) {
      if t != tid {
        assert !Holds(s.callers[t], slot);
        StaysReady(s, s', iceCap, s.callers[t]);
      }
    }
  }

  lemma HolderTurnIsTidy(s: Moment, iceCap: nat, tid: nat, slot: nat, r: Record, c: Caller)
    requires iceCap > 0 && Tidy(s, iceCap) && slot < |s.world.store| && OnlyHolder(s.callers, tid, slot)
    requires CallerOf(s, tid).Free? || CallerOf(s, tid).slot == slot
    requires if c.Free? then !c.thread.Holding? else c.slot == slot
    requires HolderFitsIn(s, iceCap, slot, r, c) && IsReady(SetSession(s, slot, r, tid, c), iceCap, c)
    ensures Tidy(SetSession(s, slot, r, tid, c), iceCap)
  {
    HolderFits(s, tid, slot, r, c);
    HolderKeepsPlaces(s, iceCap, tid, slot, r, c);
    HolderKeepsReady(s, iceCap, tid, slot, r, c);
    hide Fits, AllReady, AllPlaced, AllFine, IsReady, OnlyHolder;
  }

  lemma HolderTurnDevelops(s: Moment, tid: nat, slot: nat, r: Record, c: Caller)
    requires Fits(s) && slot < |s.world.store| && OnlyHolder(s.callers, tid, slot)
    requires CallerOf(s, tid).Free? || CallerOf(s, tid).slot == slot
    requires !c.Free? ==> c.slot == slot
    ensures DevelopsAll(s, SetSession(s, slot, r, tid, c)) <==>
      && Develops(s.world.store[slot], r)
      && (Over(s, slot) ==> r == s.world.store[slot] && !Ends(c, slot, r.state))
  {
    var s' := SetSession(s, slot, r, tid, c);
    CallerSet(s.callers, tid, c, slot);
    hide Fits, OnlyHolder, Exclusive, Locked, Acted, Ending;
    forall i | 0 <= i < |s.world.store| && i != slot ensures DevelopsAt(s, s', i) {
      OthersKeepLocks(s.callers, tid, c, slot, i);
    }
    assert DevelopsAt(s, s', slot) <==>
      && Develops(s.world.store[slot], r)
      && (Over(s, slot) ==> r == s.world.store[slot] && !Ends(c, slot, r.state));
  }

  // Facts about a session in hand.

  lemma PlacedAt(s: Moment, iceCap: nat, slot: nat)
    requires iceCap > 0 && Tidy(s, iceCap) && slot < |s.world.store|
    ensures Placed(s, slot) && Fine(s, iceCap, slot)
  {
  }

  lemma ActorAt(s: Moment, iceCap: nat, tid: nat)
    requires iceCap > 0 && Tidy(s, iceCap) && tid in s.callers && s.callers[tid].Acting?
    ensures var c := s.callers[tid];
      && c.slot < |s.world.store| && IsReady(s, iceCap, c) && Placed(s, c.slot) && OnlyHolder(s.callers, tid, c.slot)
      && (Ending(s.callers, c.slot, s.world.store[c.slot].state) <==> Ends(c, c.slot, s.world.store[c.slot].state))
  {
    var c := s.callers[tid];
    assert IsReady(s, iceCap, c);
    HolderIsOnly(s, tid);
    CallerSet(s.callers, tid, c, c.slot);
    assert s.callers[tid := c] == s.callers;
    PlacedAt(s, iceCap, c.slot);
  }

  /** Unless it was closed meanwhile, the session still has the state it was tested with, until that is set. */
  lemma StateInHand(r: Record, iceCap: nat, op: Op, next: Next, was: Record)
    requires iceCap > 0 && IsInHand(r, iceCap, op, next, was) && next != ToStamp
    ensures r.state == was.state || (r.state == Closed && Coherent(r) && Windowed(r, iceCap))
    ensures Goal(was.offerer, op) != Some(was.state)
  {
    hide Coherent, Windowed, Admissible;
  }

  /** So do the fields, and then the caller goes on. */
  lemma FilledInHand(r: Record, iceCap: nat, op: Op, was: Record)
    requires iceCap > 0 && IsInHand(r, iceCap, op, ToFill, was)
    ensures var r' := Fill(r, iceCap, op);
      && r'.state == r.state && r'.id == r.id
      && (!Terminal(r.state) ==> Develops(r, r'))
      && (!Terminal(r.state) || r' == r ==>
            IsInHand(r', iceCap, op, if Goal(was.offerer, op).None? then ToStamp else ToRead, was))
  {
    StateInHand(r, iceCap, op, ToFill, was);
    if !Terminal(r.state) {
      FillDevelops(r, iceCap, op);
    }
    hide Develops, Coherent, Windowed, Admissible;
  }

  lemma StampedInHand(r: Record, iceCap: nat, op: Op, was: Record, now: int)
    requires iceCap > 0 && IsInHand(r, iceCap, op, ToStamp, was)
    ensures var r' := r.(updatedAt := now); Coherent(r') && Windowed(r', iceCap) && Develops(r, r')
    ensures Deletes(was.offerer, op) ==> Terminal(r.state)
  {
    EndIsCoherent(was, iceCap, op, now);
    StampIsNothing(r, now);
    assert Windowed(r.(updatedAt := now), iceCap) <==> Windowed(r, iceCap);
    hide Coherent, Windowed, Admissible, Test;
  }

  // Turn by turn.

  lemma TestTurn(s: Moment, cfg: Config, tid: nat)
    requires cfg.iceCap > 0 && Tidy(s, cfg.iceCap) && Can(s, DoTest(tid))
    ensures var s' := AfterTurn(s, cfg, DoTest(tid)); Tidy(s', cfg.iceCap) && DevelopsAll(s, s')
  {
    var th := ThreadAt(s, tid);
    var r := s.world.store[th.slot];
    var c := AfterTest(th, r);
    assert IsReady(s, cfg.iceCap, s.callers[tid]);
    PlacedAt(s, cfg.iceCap, th.slot);
    NotLockedIsOnly(s.callers, tid, th.slot);
    assert s.world.store[th.slot := r] == s.world.store;
    assert IsReady(SetSession(s, th.slot, r, tid, c), cfg.iceCap, c);
    hide Coherent, Windowed, Admissible, Locked, Acted, Ending, Exclusive, Test, Fits;
    HolderTurnIsTidy(s, cfg.iceCap, tid, th.slot, r, c);
    HolderTurnDevelops(s, tid, th.slot, r, c);
  }

  lemma FillTurn(s: Moment, cfg: Config, tid: nat)
    requires cfg.iceCap > 0 && Tidy(s, cfg.iceCap) && Can(s, DoFill(tid))
    ensures var s' := AfterTurn(s, cfg, DoFill(tid));
      Tidy(s', cfg.iceCap) && DevelopsAll(s, s') <==> !Races(s, cfg, DoFill(tid))
  {
    var c := s.callers[tid];
    var r, c' := s.world.store[c.slot], AfterFill(c);
    var r' := Fill(r, cfg.iceCap, c.op);
    ActorAt(s, cfg.iceCap, tid);
    FilledInHand(r, cfg.iceCap, c.op, c.was);
    HolderTurnDevelops(s, tid, c.slot, r', c');
    DevelopsStandingStill(r);
    hide Tidy, Fits, Exclusive, OnlyHolder, Locked, Acted, Ending, DevelopsAll, Develops, Fill, IsInHand, Goal;
    if !Terminal(r.state) || r' == r {
      assert IsReady(SetSession(s, c.slot, r', tid, c'), cfg.iceCap, c');
      HolderTurnIsTidy(s, cfg.iceCap, tid, c.slot, r', c');
    }
  }

  lemma DevelopsStandingStill(r: Record)
    ensures Develops(r, r)
  {
  }

  lemma ReadTurn(s: Moment, cfg: Config, tid: nat)
    requires cfg.iceCap > 0 && Tidy(s, cfg.iceCap) && Can(s, DoRead(tid))
    ensures var s' := AfterTurn(s, cfg, DoRead(tid)); Tidy(s', cfg.iceCap) && DevelopsAll(s, s')
  {
    var c := s.callers[tid];
    var r := s.world.store[c.slot];
    var c' := AfterRead(c, r);
    ActorAt(s, cfg.iceCap, tid);
    StateInHand(r, cfg.iceCap, c.op, ToRead, c.was);
    EndIsCoherent(c.was, cfg.iceCap, c.op, 0);
    DevelopsStandingStill(r);
    assert s.world.store[c.slot := r] == s.world.store;
    HolderTurnDevelops(s, tid, c.slot, r, c');
    hide Tidy, Fits, Exclusive, OnlyHolder, Locked, Acted, Ending, DevelopsAll, Develops;
    hide Coherent, Windowed, Admissible;
    assert IsReady(SetSession(s, c.slot, r, tid, c'), cfg.iceCap, c');
    HolderTurnIsTidy(s, cfg.iceCap, tid, c.slot, r, c');
  }

  lemma SetTurn(s: Moment, cfg: Config, tid: nat)
    requires cfg.iceCap > 0 && Tidy(s, cfg.iceCap) && Can(s, DoSet(tid))
    ensures var s' := AfterTurn(s, cfg, DoSet(tid));
      Tidy(s', cfg.iceCap) && DevelopsAll(s, s') <==> !Races(s, cfg, DoSet(tid))
  {
    var c := s.callers[tid];
    var r, goal := s.world.store[c.slot], Goal(c.was.offerer, c.op);
    var r', c' := SetState(r, goal), c.(next := ToStamp);
    ActorAt(s, cfg.iceCap, tid);
    StateInHand(r, cfg.iceCap, c.op, ToSet, c.was);
    SetDevelops(c.was, cfg.iceCap, c.op);
    HolderTurnDevelops(s, tid, c.slot, r', c');
    hide Tidy, Fits, Exclusive, OnlyHolder, Locked, Acted, Ending, DevelopsAll, Develops;
    hide Coherent, Windowed, Admissible;
    if !Terminal(r.state) {
      assert r == InHand(c.was, cfg.iceCap, c.op, ToSet);
      assert IsReady(SetSession(s, c.slot, r', tid, c'), cfg.iceCap, c');
      HolderTurnIsTidy(s, cfg.iceCap, tid, c.slot, r', c');
    }
  }

  lemma StampTurn(s: Moment, cfg: Config, tid: nat, now: int)
    requires cfg.iceCap > 0 && Tidy(s, cfg.iceCap) && Can(s, DoStamp(tid, now))
    ensures var s' := AfterTurn(s, cfg, DoStamp(tid, now));
      Tidy(s', cfg.iceCap) && DevelopsAll(s, s') <==> !Races(s, cfg, DoStamp(tid, now))
  {
    var c := s.callers[tid];
    var r := s.world.store[c.slot];
    var r', c' := r.(updatedAt := now), Done(c);
    ActorAt(s, cfg.iceCap, tid);
    StampedInHand(r, cfg.iceCap, c.op, c.was, now);
    HolderTurnDevelops(s, tid, c.slot, r', c');
    hide Tidy, Fits, Exclusive, OnlyHolder, Locked, Acted, Ending, DevelopsAll, Develops, Coherent, Windowed, IsInHand;
    if Races(s, cfg, DoStamp(tid, now)) {
      assert r' != r;
    } else {
      HolderTurnIsTidy(s, cfg.iceCap, tid, c.slot, r', c');
    }
  }

  // The forced close.

  lemma ForceKeepsPlaces(s: Moment, iceCap: nat)
    requires iceCap > 0 && Tidy(s, iceCap) && Can(s, DoForce)
    ensures Fits(Force(s)) && DistinctIds(Force(s).world) && AllPlaced(Force(s))
    ensures forall i | 0 <= i < |s.world.store| :: InMap(Force(s).world, i) ==> InMap(s.world, i) && i != MarkedSlot(s)
  {
    var s', slot := Force(s), MarkedSlot(s);
    assert InMap(s.world, slot);
    hide AllReady, AllFine, Exclusive, Locked;
    forall i | 0 <= i < |s.world.store|
      ensures Placed(s', i) && (InMap(s'.world, i) ==> InMap(s.world, i) && i != slot)
    {
      assert Placed(s, i);
    }
  }

  lemma ForceKeepsFine(s: Moment, iceCap: nat)
    requires iceCap > 0 && Tidy(s, iceCap) && Can(s, DoForce) && Closable(s.world.store[MarkedSlot(s)])
    ensures AllFine(Force(s), iceCap)
  {
    var s', slot := Force(s), MarkedSlot(s);
    var r := s.world.store[slot];
    assert Fine(s, iceCap, slot);
    StampIsNothing(r.(state := Closed), s.walk.value.now);
    assert Coherent(r) ==> Coherent(Forced(r, s.walk.value.now));
    assert Windowed(r, iceCap) ==> Windowed(Forced(r, s.walk.value.now), iceCap);
    hide Coherent, Windowed, Acted, Fits, AllReady, AllPlaced, DistinctIds, Closable, Forced;
    forall i | 0 <= i < |s.world.store| ensures Fine(s', iceCap, i) {
      assert Fine(s, iceCap, i);
    }
  }

  /** Whoever acts on the marked session goes on with the closed one. */
  lemma ForceKeepsReady(s: Moment, iceCap: nat, c: Caller)
    requires iceCap > 0 && Tidy(s, iceCap) && Can(s, DoForce) && IsReady(s, iceCap, c)
    ensures c.Acting? && c.slot == MarkedSlot(s) && !Closable(s.world.store[MarkedSlot(s)])
      && s.world.store[MarkedSlot(s)].state != Failed && s.world.store[MarkedSlot(s)].state != FailedOffer
      ==> !IsReady(Force(s), iceCap, c)
    ensures Closable(s.world.store[MarkedSlot(s)]) ==> IsReady(Force(s), iceCap, c)
  {
    var s', slot, now := Force(s), MarkedSlot(s), s.walk.value.now;
    var r := s.world.store[slot];
    ForceKeepsPlaces(s, iceCap);
    hide Tidy, Fits, AllReady, AllPlaced, AllFine, DistinctIds, Admissible, Coherent, Windowed, InMap;
    if c.Acting? && c.slot == slot {
      if r.state == Closed {
        assert Forced(r, now) == r;
      } else if r.state != Failed && r.state != FailedOffer {
        assert r == InHand(c.was, iceCap, c.op, c.next);
        ForcedMidway(c.was, iceCap, c.op, r, now);
      }
    } else if c.Dropping? && c.slot == slot {
    } else {
      StaysReady(s, s', iceCap, c);
    }
  }

  lemma ForceDevelops(s: Moment, iceCap: nat)
    requires iceCap > 0 && Tidy(s, iceCap) && Can(s, DoForce)
    ensures DevelopsAll(s, Force(s)) <==>
      s.world.store[MarkedSlot(s)].state != Failed && s.world.store[MarkedSlot(s)].state != FailedOffer
  {
    var s', slot := Force(s), MarkedSlot(s);
    LateExpiryIsHarmless(s.world.store[slot], s.walk.value.now);
    hide Tidy, Fits, Ending;
    forall i | 0 <= i < |s.world.store| && i != slot ensures DevelopsAt(s, s', i) {
      DevelopsStandingStill(s.world.store[i]);
    }
    assert DevelopsAt(s, s', slot) <==> Develops(s.world.store[slot], s'.world.store[slot]);
  }

  lemma ForceTurn(s: Moment, iceCap: nat)
    requires iceCap > 0 && Tidy(s, iceCap) && Can(s, DoForce)
    ensures Tidy(Force(s), iceCap) && DevelopsAll(s, Force(s)) <==> Closable(s.world.store[MarkedSlot(s)])
  {
    var s', slot := Force(s), MarkedSlot(s);
    var r := s.world.store[slot];
    ForceKeepsPlaces(s, iceCap);
    ForceDevelops(s, iceCap);
    if Closable(r) {
      ForceKeepsFine(s, iceCap);
      forall tid | tid in s'.callers ensures IsReady(s', iceCap, s'.callers[tid]) {
        ForceKeepsReady(s, iceCap, s.callers[tid]);
      }
    } else if r.state != Failed && r.state != FailedOffer {
      assert Fine(s, iceCap, slot);
      if Acted(s.callers, slot) {
        var tid :| tid in s.callers && s.callers[tid].Acting? && s.callers[tid].slot == slot;
        ForceKeepsReady(s, iceCap, s.callers[tid]);
      }
    }
  }

  // The turns that touch no session.

  lemma StandsStill(s: Moment, s': Moment, iceCap: nat)
    requires iceCap > 0 && Tidy(s, iceCap) && Fits(s') && s'.world == s.world
    requires forall i: nat :: SameLocks(s.callers, s'.callers, i)
    requires forall tid | tid in s'.callers ::
      (tid in s.callers && s'.callers[tid] == s.callers[tid]) || IsReady(s, iceCap, s'.callers[tid])
    ensures Tidy(s', iceCap) && DevelopsAll(s, s')
  {
    hide Fits, Exclusive, Coherent, Windowed, IsInHand, Locked, Acted, Ending, DistinctIds;
    forall i | 0 <= i < |s.world.store| ensures Placed(s', i) && Fine(s', iceCap, i) && DevelopsAt(s, s', i) {
      assert Placed(s, i) && Fine(s, iceCap, i) && SameLocks(s.callers, s'.callers, i);
      DevelopsStandingStill(s.world.store[i]);
    }
    hide Develops, InMap, Terminal, Placed, Fine, DevelopsAt, Admissible, SameLocks;
    forall tid | tid in s'.callers ensures IsReady(s', iceCap, s'.callers[tid]) {
      StaysReady(s, s', iceCap, s'.callers[tid]);
    }
  }

  lemma FreeTurn(s: Moment, iceCap: nat, tid: nat, th: Thread)
    requires iceCap > 0 && Tidy(s, iceCap) && CallerOf(s, tid).Free?
    requires IsReady(s, iceCap, Free(th)) && (th.Holding? ==> th.slot < |s.world.store|)
    ensures var s' := SetCaller(s, tid, Free(th)); Tidy(s', iceCap) && DevelopsAll(s, s')
  {
    FreeFits(s, tid, th);
    var cs, cs' := s.callers, s.callers[tid := Free(th)];
    forall i: nat ensures SameLocks(cs, cs', i) {
      FreeKeepsLocks(cs, tid, th, i);
    }
    hide Tidy, Fits, Locked, Acted, Ending, IsReady;
    StandsStill(s, SetCaller(s, tid, Free(th)), iceCap);
  }

  lemma WalkTurn(s: Moment, iceCap: nat, walk: Option<Walk>)
    requires iceCap > 0 && Tidy(s, iceCap) && Fits(s.(walk := walk))
    ensures Tidy(s.(walk := walk), iceCap) && DevelopsAll(s, s.(walk := walk))
  {
    hide Tidy, Fits, Locked, Acted, Ending, IsReady;
    StandsStill(s, s.(walk := walk), iceCap);
  }

  lemma SoughtIsReady(s: Moment, iceCap: nat, tid: nat)
    requires iceCap > 0 && Tidy(s, iceCap) && ThreadAt(s, tid).Looking?
    ensures var th := Sought(s.world.live, ThreadAt(s, tid).id, ThreadAt(s, tid).op);
      IsReady(s, iceCap, Free(th)) && (th.Holding? ==> th.slot < |s.world.store|)
  {
    assert IsReady(s, iceCap, s.callers[tid]);
    hide Exclusive;
  }

  // A deletion, and a creation.

  /** The entry of an ended session goes while its lock is still held. */
  lemma EntryGoes(s: Moment, s': Moment, iceCap: nat, tid: nat)
    requires iceCap > 0 && Tidy(s, iceCap) && Can(s, DoDrop(tid))
    requires s' == s.(world := World(s.world.store, s.world.live - {s.world.store[s.callers[tid].slot].id}))
    ensures Tidy(s', iceCap) && DevelopsAll(s, s')
  {
    var c := s.callers[tid];
    assert IsReady(s, iceCap, c);
    hide Exclusive, Coherent, Windowed, IsInHand, Locked, Acted, Ending, Terminal, Admissible;
    forall i | 0 <= i < |s.world.store|
      ensures Placed(s', i) && Fine(s', iceCap, i) && DevelopsAt(s, s', i) && (InMap(s'.world, i) ==> InMap(s.world, i))
    {
      assert Placed(s, i) && Fine(s, iceCap, i);
      DevelopsStandingStill(s.world.store[i]);
    }
    hide Develops, InMap, Placed, Fine, DevelopsAt, DistinctIds, AllPlaced, AllFine;
    forall t | t in s'.callers ensures IsReady(s', iceCap, s'.callers[t]) {
      StaysReady(s, s', iceCap, s.callers[t]);
    }
  }

  lemma DropTurn(s: Moment, iceCap: nat, tid: nat)
    requires iceCap > 0 && Tidy(s, iceCap) && Can(s, DoDrop(tid))
    ensures Tidy(Delete(s, tid), iceCap) && DevelopsAll(s, Delete(s, tid))
  {
    var slot := s.callers[tid].slot;
    var r := s.world.store[slot];
    var s' := s.(world := World(s.world.store, s.world.live - {r.id}));
    assert IsReady(s, iceCap, s.callers[tid]);
    EntryGoes(s, s', iceCap, tid);
    HolderIsOnly(s, tid);
    CallerSet(s.callers, tid, s.callers[tid], slot);
    assert s.callers[tid := s.callers[tid]] == s.callers;
    PlacedAt(s', iceCap, slot);
    DevelopsStandingStill(r);
    assert s.world.store[slot := r] == s.world.store;
    hide Tidy, Fits, Exclusive, OnlyHolder, Locked, Acted, Ending, Coherent, Windowed, Develops, DevelopsAll;
    HolderTurnIsTidy(s', iceCap, tid, slot, r, Free(Idle));
    HolderTurnDevelops(s', tid, slot, r, Free(Idle));
    DevelopsAllIsTransitive(s, s', Delete(s, tid));
  }

  lemma DevelopsAllIsTransitive(s: Moment, s': Moment, s'': Moment)
    requires DevelopsAll(s, s') && DevelopsAll(s', s'')
    ensures DevelopsAll(s, s'')
  {
    hide Over;
    forall i | 0 <= i < |s.world.store| ensures DevelopsAt(s, s'', i) {
      assert DevelopsAt(s, s', i) && DevelopsAt(s', s'', i);
      DevelopsIsTransitive(s.world.store[i], s'.world.store[i], s''.world.store[i]);
    }
  }

  lemma InsertTurn(s: Moment, iceCap: nat, key: string, offerer: string, born: int)
    requires iceCap > 0 && Tidy(s, iceCap) && s.walk.None? && HashShape(offerer) && key !in s.world.live
    requires forall i | 0 <= i < |s.world.store| :: s.world.store[i].id != key
    ensures Tidy(Insert(s, key, offerer, born), iceCap) && DevelopsAll(s, Insert(s, key, offerer, born))
  {
    var s', n := Insert(s, key, offerer, born), |s.world.store|;
    assert Coherent(Newborn(key, offerer, born)) && Windowed(Newborn(key, offerer, born), iceCap);
    assert Fits(s');
    hide Exclusive, Coherent, Windowed, IsInHand, Locked, Acted, Ending, Admissible;
    forall i | 0 <= i < n
      ensures Placed(s', i) && Fine(s', iceCap, i) && DevelopsAt(s, s', i) && (InMap(s'.world, i) ==> InMap(s.world, i))
    {
      assert Placed(s, i) && Fine(s, iceCap, i);
      DevelopsStandingStill(s.world.store[i]);
    }
    assert Placed(s', n) && Fine(s', iceCap, n);
    hide Develops, InMap, Placed, Fine, DevelopsAt, AllPlaced, AllFine, Terminal;
    forall tid | tid in s'.callers ensures IsReady(s', iceCap, s'.callers[tid]) {
      StaysReady(s, s', iceCap, s.callers[tid]);
    }
  }

  lemma LeaveTurn(s: Moment, iceCap: nat)
    requires iceCap > 0 && Tidy(s, iceCap) && Can(s, DoLeave) && Fresh(s, DoLeave) && Checked(s)
    ensures Tidy(Leave(s), iceCap) && DevelopsAll(s, Leave(s))
  {
    var s' := s.(walk := None);
    WalkTurn(s, iceCap, None);
    hide Tidy, Exclusive, DevelopsAll, IsReady;
    match s.walk.value.purpose
    case Seek(tid) =>
      var th := ThreadAt(s, tid);
      if th.Looking? {
        SoughtIsReady(s', iceCap, tid);
        FreeTurn(s', iceCap, tid, Sought(s.world.live, th.id, th.op));
        DevelopsAllIsTransitive(s, s', Leave(s));
      }
    case Make(_, _, offerer, born) =>
      var key := KeyOf(s.walk.value.purpose);
      if key !in s.world.live {
        InsertTurn(s', iceCap, key, offerer, born);
        DevelopsAllIsTransitive(s, s', Leave(s));
      }
    case Sweep =>
  }

  // All turns.

  lemma TurnKeepsChecked(s: Moment, cfg: Config, turn: Turn)
    requires Fits(s) && Checked(s) && cfg.iceCap > 0
    ensures Checked(AfterTurn(s, cfg, turn))
  {
    hide Expired, Forced, Fill, Test, Fits, Admits;
  }

  /** Each turn keeps order exactly if it is none of those. */
  lemma TurnIsOrderly(s: Moment, cfg: Config, turn: Turn)
    requires cfg.iceCap > 0 && Tidy(s, cfg.iceCap) && Checked(s) && Fresh(s, turn)
    ensures var s' := AfterTurn(s, cfg, turn);
      Tidy(s', cfg.iceCap) && DevelopsAll(s, s') <==> !Races(s, cfg, turn)
  {
    TurnFits(s, cfg, turn);
    WalkTurn(s, cfg.iceCap, s.walk);
    var s' := AfterTurn(s, cfg, turn);
    hide Tidy, Fits, Force, Leave, Delete, DevelopsAll, SetSession, Checked;
    if Can(s, turn) {
      match turn
      case DoBegin(tid, id, op) => FreeTurn(s, cfg.iceCap, tid, Looking(id, op));
      case DoMiss(tid) => FreeTurn(s, cfg.iceCap, tid, Idle);
      case DoEnter(_, _) => WalkTurn(s, cfg.iceCap, s'.walk);
      case DoCheck(id) => WalkTurn(s, cfg.iceCap, s'.walk);
      case DoForce => ForceTurn(s, cfg.iceCap);
      case DoLeave => LeaveTurn(s, cfg.iceCap);
      case DoTest(tid) => TestTurn(s, cfg, tid);
      case DoFill(tid) => FillTurn(s, cfg, tid);
      case DoRead(tid) => ReadTurn(s, cfg, tid);
      case DoSet(tid) => SetTurn(s, cfg, tid);
      case DoStamp(tid, now) => StampTurn(s, cfg, tid, now);
      case DoDrop(tid) => DropTurn(s, cfg.iceCap, tid);
    }
  }
}

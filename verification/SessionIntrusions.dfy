/**
 Where the races come from: a forced close that intrudes on a caller at work, or takes a session that
 failed. Without one nothing races; and after one there is always a way to go on that does.
 */
module SessionIntrusions {
  import opened Sessions
  import opened SessionInvariants
  import opened SessionActs
  import opened SessionWalks
  import opened SessionTurns
  import opened SessionWalkRuns

  /** What is left of the action writes to the session although that is closed meanwhile. */
  predicate Committed(op: Op, next: Next) {
    match next
    case ToFill => !op.Close? && op != FailOffer(NO_REASON)
    case ToRead => op.Fail?
    case ToSet => true
    case ToStamp => !op.Close?
  }

  /** The caller acts on a session that has ended, and is going to write to it. */
  predicate Bound(s: Moment, c: Caller) {
    c.Acting? && c.slot < |s.world.store| &&
    var state := s.world.store[c.slot].state;
    Terminal(state) && !Ends(c, c.slot, state) && Committed(c.op, c.next)
  }

  predicate Quiet(s: Moment) {
    forall tid | tid in s.callers :: !Bound(s, s.callers[tid])
  }

  /**
   A forced close intrudes if the session failed, or carries its reason for failing, or if its lock is
   held by a caller that is going to write to it.
   */
  predicate Intrudes(s: Moment, turn: Turn)
    requires Fits(s)
  {
    turn.DoForce? && Can(s, turn) &&
    var slot := MarkedSlot(s);
    || !Closable(s.world.store[slot])
    || (s.world.store[slot].state != Closed && exists tid | tid in s.callers :: WritesTo(s.callers[tid], slot))
  }

  predicate WritesTo(c: Caller, slot: nat) {
    c.Acting? && c.slot == slot && Committed(c.op, c.next)
  }

  lemma QuietForce(s: Moment, cfg: Config)
    requires cfg.iceCap > 0 && Tidy(s, cfg.iceCap) && Can(s, DoForce) && Quiet(s)
    ensures !Intrudes(s, DoForce) ==> Quiet(Force(s))
  {
    hide AllReady, AllPlaced, AllFine, Exclusive;
    if !Intrudes(s, DoForce) {
      forall tid | tid in s.callers ensures !Bound(Force(s), s.callers[tid]) {
        assert !Bound(s, s.callers[tid]);
        assert !WritesTo(s.callers[tid], MarkedSlot(s)) || s.world.store[MarkedSlot(s)].state == Closed;
      }
    }
  }

  /** A caller with a lock leaves everyone quiet if it is not bound itself. */
  lemma QuietHolder(s: Moment, tid: nat, slot: nat, r: Record, c: Caller)
    requires Quiet(s) && slot < |s.world.store| && OnlyHolder(s.callers, tid, slot)
    requires !Bound(SetSession(s, slot, r, tid, c), c)
    ensures Quiet(SetSession(s, slot, r, tid, c))
  {
    hide Committed, Ends, Terminal;
    var s' := SetSession(s, slot, r, tid, c);
    forall t | t in s'.callers ensures !Bound(s', s'.callers[t]) {
      if t != tid {
        assert !Bound(s, s.callers[t]) && !Holds(s.callers[t], slot);
      }
    }
  }

  lemma QuietFree(s: Moment, s': Moment)
    requires Quiet(s) && Fits(s) && |s.world.store| <= |s'.world.store|
    requires forall i | 0 <= i < |s.world.store| :: s'.world.store[i] == s.world.store[i]
    requires forall tid | tid in s'.callers ::
      s'.callers[tid].Free? || (tid in s.callers && s'.callers[tid] == s.callers[tid])
    ensures Quiet(s')
  {
    hide Committed, Ends, Terminal;
    forall tid | tid in s'.callers ensures !Bound(s', s'.callers[tid]) {
      assert s'.callers[tid].Acting? ==> !Bound(s, s.callers[tid]);
    }
  }

  lemma QuietTest(s: Moment, cfg: Config, tid: nat)
    requires cfg.iceCap > 0 && Tidy(s, cfg.iceCap) && Quiet(s) && Can(s, DoTest(tid))
    ensures Quiet(AfterTurn(s, cfg, DoTest(tid)))
  {
    var th := ThreadAt(s, tid);
    var r := s.world.store[th.slot];
    var c := AfterTest(th, r);
    NotLockedIsOnly(s.callers, tid, th.slot);
    assert s.world.store[th.slot := r] == s.world.store;
    assert !Bound(SetSession(s, th.slot, r, tid, c), c);
    hide Tidy, Fits, Quiet, Bound, OnlyHolder, Locked, Acted, Ending, Test;
    QuietHolder(s, tid, th.slot, r, c);
  }

  /** A session in hand that has ended was closed, unless the action is to close it. */
  lemma EndedInHand(r: Record, iceCap: nat, op: Op, next: Next, was: Record)
    requires iceCap > 0 && IsInHand(r, iceCap, op, next, was) && next != ToStamp && Terminal(r.state)
    ensures op.Close? || (r.state == Closed && r.reason == NO_REASON)
  {
    StateInHand(r, iceCap, op, next, was);
    hide Windowed, Admissible;
  }

  lemma QuietFill(s: Moment, cfg: Config, tid: nat)
    requires cfg.iceCap > 0 && Tidy(s, cfg.iceCap) && Quiet(s) && Can(s, DoFill(tid))
    ensures !Races(s, cfg, DoFill(tid)) && Quiet(AfterTurn(s, cfg, DoFill(tid)))
  {
    var c := s.callers[tid];
    var r := s.world.store[c.slot];
    var r', c' := Fill(r, cfg.iceCap, c.op), AfterFill(c);
    ActorAt(s, cfg.iceCap, tid);
    assert !Bound(s, c);
    if Terminal(r.state) {
      EndedInHand(r, cfg.iceCap, c.op, ToFill, c.was);
    }
    hide Tidy, Fits, Quiet, OnlyHolder, Locked, Acted, Ending, IsInHand, InMap;
    assert !Bound(SetSession(s, c.slot, r', tid, c'), c');
    QuietHolder(s, tid, c.slot, r', c');
  }

  lemma QuietRead(s: Moment, cfg: Config, tid: nat)
    requires cfg.iceCap > 0 && Tidy(s, cfg.iceCap) && Quiet(s) && Can(s, DoRead(tid))
    ensures Quiet(AfterTurn(s, cfg, DoRead(tid)))
  {
    var c := s.callers[tid];
    var r := s.world.store[c.slot];
    var c' := AfterRead(c, r);
    ActorAt(s, cfg.iceCap, tid);
    assert !Bound(s, c);
    assert s.world.store[c.slot := r] == s.world.store;
    hide Tidy, Fits, Quiet, OnlyHolder, Locked, Acted, Ending, IsInHand, InMap;
    assert !Bound(SetSession(s, c.slot, r, tid, c'), c');
    QuietHolder(s, tid, c.slot, r, c');
  }

  lemma QuietSet(s: Moment, cfg: Config, tid: nat)
    requires cfg.iceCap > 0 && Tidy(s, cfg.iceCap) && Quiet(s) && Can(s, DoSet(tid))
    ensures !Races(s, cfg, DoSet(tid)) && Quiet(AfterTurn(s, cfg, DoSet(tid)))
  {
    var c := s.callers[tid];
    var r := s.world.store[c.slot];
    var r', c' := SetState(r, Goal(c.was.offerer, c.op)), c.(next := ToStamp);
    ActorAt(s, cfg.iceCap, tid);
    assert !Bound(s, c);
    hide Tidy, Fits, Quiet, OnlyHolder, Locked, Acted, Ending, InMap;
    assert !Bound(SetSession(s, c.slot, r', tid, c'), c');
    QuietHolder(s, tid, c.slot, r', c');
  }

  lemma QuietStamp(s: Moment, cfg: Config, tid: nat, now: int)
    requires cfg.iceCap > 0 && Tidy(s, cfg.iceCap) && Quiet(s) && Can(s, DoStamp(tid, now))
    ensures !Races(s, cfg, DoStamp(tid, now)) && Quiet(AfterTurn(s, cfg, DoStamp(tid, now)))
  {
    var c := s.callers[tid];
    var r := s.world.store[c.slot];
    var r', c' := r.(updatedAt := now), Done(c);
    ActorAt(s, cfg.iceCap, tid);
    assert !Bound(s, c);
    hide Tidy, Fits, Quiet, OnlyHolder, Locked, Acted, Ending, InMap, Coherent, Windowed, Admissible;
    assert !Races(s, cfg, DoStamp(tid, now));
    QuietHolder(s, tid, c.slot, r', c');
  }

  /** A quiet caller finds its session as it tested it, or is not going to write. */
  lemma QuietTurn(s: Moment, cfg: Config, turn: Turn)
    requires cfg.iceCap > 0 && Tidy(s, cfg.iceCap) && Quiet(s) && !Intrudes(s, turn)
    ensures !Races(s, cfg, turn) && Quiet(AfterTurn(s, cfg, turn))
  {
    if Can(s, turn) {
      hide Tidy, Quiet;
      match turn
      case DoForce => QuietForce(s, cfg);
      case DoTest(tid) => QuietTest(s, cfg, tid);
      case DoFill(tid) => QuietFill(s, cfg, tid);
      case DoRead(tid) => QuietRead(s, cfg, tid);
      case DoSet(tid) => QuietSet(s, cfg, tid);
      case DoStamp(tid, now) => QuietStamp(s, cfg, tid, now);
      case _ => QuietFree(s, AfterTurn(s, cfg, turn));
    }
  }

  // Runs.

  predicate NeverIntrudes(s: Moment, cfg: Config, turns: seq<Turn>)
    requires Fits(s) && cfg.iceCap > 0
    decreases |turns|
  {
    turns == [] || (
      TurnFits(s, cfg, turns[0]);
      !Intrudes(s, turns[0]) && NeverIntrudes(AfterTurn(s, cfg, turns[0]), cfg, turns[1..]))
  }

  lemma {:induction false} NeverRacesUnlessIntruding(s: Moment, cfg: Config, turns: seq<Turn>)
    requires cfg.iceCap > 0 && Tidy(s, cfg.iceCap) && Checked(s) && Quiet(s)
    requires FreshThroughout(s, cfg, turns) && NeverIntrudes(s, cfg, turns)
    ensures NeverRaces(s, cfg, turns)
    decreases |turns|
  {
    assert Fits(s);
    hide Tidy, Fits, AfterTurn, DevelopsAll, Races, Intrudes, Fresh, Checked, Quiet;
    if turns != [] {
      QuietTurn(s, cfg, turns[0]);
      TurnIsOrderly(s, cfg, turns[0]);
      TurnKeepsChecked(s, cfg, turns[0]);
      NeverRacesUnlessIntruding(AfterTurn(s, cfg, turns[0]), cfg, turns[1..]);
    }
  }

  predicate Forceless(turns: seq<Turn>) {
    forall i | 0 <= i < |turns| :: turns[i] != DoForce
  }

  lemma {:induction false} ForcelessNeverIntrudes(s: Moment, cfg: Config, turns: seq<Turn>)
    requires cfg.iceCap > 0 && Fits(s) && Forceless(turns)
    ensures NeverIntrudes(s, cfg, turns)
    decreases |turns|
  {
    hide AfterTurn, Fits;
    if turns != [] {
      assert turns[0] != DoForce;
      TurnFits(s, cfg, turns[0]);
      ForcelessNeverIntrudes(AfterTurn(s, cfg, turns[0]), cfg, turns[1..]);
    }
  }

  /** Whatever the callers do next, order is kept until the next forced close. */
  ghost predicate SafeAhead(s: Moment, cfg: Config)
    requires Fits(s) && cfg.iceCap > 0
  {
    forall rest | Forceless(rest) && FreshThroughout(s, cfg, rest) :: Orderly(s, cfg, rest)
  }

  lemma QuietIsSafe(s: Moment, cfg: Config)
    requires cfg.iceCap > 0 && Tidy(s, cfg.iceCap) && Checked(s) && Quiet(s)
    ensures SafeAhead(s, cfg)
  {
    forall rest | Forceless(rest) && FreshThroughout(s, cfg, rest) ensures Orderly(s, cfg, rest) {
      ForcelessNeverIntrudes(s, cfg, rest);
      NeverRacesUnlessIntruding(s, cfg, rest);
      OrderlyIffNeverRaces(s, cfg, rest);
    }
  }

  lemma UntidyIsUnsafe(s: Moment, cfg: Config)
    requires Fits(s) && cfg.iceCap > 0 && !Tidy(s, cfg.iceCap)
    ensures !SafeAhead(s, cfg)
  {
    assert Forceless([]) && FreshThroughout(s, cfg, []) && !Orderly(s, cfg, []);
  }

  /** How many parts are left to do, at most. */
  function PartsLeft(next: Next): nat {
    match next
    case ToFill => 3
    case ToRead => 2
    case ToSet => 1
    case ToStamp => 0
  }

  function NextPart(s: Moment, tid: nat): Turn
    requires Fits(s) && CallerOf(s, tid).Acting?
  {
    match s.callers[tid].next
    case ToFill => DoFill(tid)
    case ToRead => DoRead(tid)
    case ToSet => DoSet(tid)
    case ToStamp => DoStamp(tid, s.world.store[s.callers[tid].slot].updatedAt + 1)
  }

  /** Bound to write, to a session that was closed before it had written anything. */
  predicate Harmful(s: Moment, tid: nat) {
    && tid in s.callers && s.callers[tid].Acting? && Bound(s, s.callers[tid])
    && var c := s.callers[tid];
       var r := s.world.store[c.slot];
       c.next == ToFill ==> r == c.was.(state := Closed, updatedAt := r.updatedAt)
  }

  lemma FillHarms(s: Moment, cfg: Config, tid: nat)
    requires cfg.iceCap > 0 && Tidy(s, cfg.iceCap) && Harmful(s, tid) && s.callers[tid].next == ToFill
    ensures Races(s, cfg, DoFill(tid)) || (Harmful(AfterTurn(s, cfg, DoFill(tid)), tid) &&
      AfterTurn(s, cfg, DoFill(tid)).callers[tid].next != ToFill)
  {
    var c := s.callers[tid];
    var r := s.world.store[c.slot];
    var r', c' := Fill(r, cfg.iceCap, c.op), AfterFill(c);
    ActorAt(s, cfg.iceCap, tid);
    assert Over(s, c.slot);
    hide Tidy, Fits, OnlyHolder, Locked, Acted, Ending, InMap, Windowed, Admissible;
    if r' == r {
      assert r.offer == c.was.offer && r.answer == c.was.answer;
      assert c.op.Fail? || c.op.Ice?;
      assert s.world.store[c.slot := r'] == s.world.store;
    }
  }

  lemma ReadHarms(s: Moment, cfg: Config, tid: nat)
    requires cfg.iceCap > 0 && Tidy(s, cfg.iceCap) && Harmful(s, tid) && s.callers[tid].next == ToRead
    ensures Harmful(AfterTurn(s, cfg, DoRead(tid)), tid) && AfterTurn(s, cfg, DoRead(tid)).callers[tid].next == ToSet
  {
    var c := s.callers[tid];
    ActorAt(s, cfg.iceCap, tid);
    EndedInHand(s.world.store[c.slot], cfg.iceCap, c.op, ToRead, c.was);
    hide Tidy, Fits, OnlyHolder, Locked, Acted, Ending, InMap, IsReady;
  }

  lemma HarmfulIsOver(s: Moment, iceCap: nat, tid: nat)
    requires iceCap > 0 && Tidy(s, iceCap) && Harmful(s, tid)
    ensures Over(s, s.callers[tid].slot)
  {
    ActorAt(s, iceCap, tid);
    hide Tidy, Fits, OnlyHolder, Ending, IsReady, Placed, Committed;
  }

  /** After the state is read there is nothing that could keep the caller from writing. */
  lemma LastPartsRace(s: Moment, cfg: Config, tid: nat)
    requires Fits(s) && cfg.iceCap > 0 && CallerOf(s, tid).Acting? && Over(s, s.callers[tid].slot)
    requires s.callers[tid].next == ToSet || s.callers[tid].next == ToStamp
    ensures Races(s, cfg, NextPart(s, tid))
  {
    hide Over, Fits, Closable, Fill;
  }

  lemma NextPartHarms(s: Moment, cfg: Config, tid: nat)
    requires cfg.iceCap > 0 && Tidy(s, cfg.iceCap) && Harmful(s, tid)
    ensures var (s', turn) := (AfterTurn(s, cfg, NextPart(s, tid)), NextPart(s, tid));
      Races(s, cfg, turn) || (Harmful(s', tid) && PartsLeft(s'.callers[tid].next) < PartsLeft(s.callers[tid].next))
  {
    HarmfulIsOver(s, cfg.iceCap, tid);
    assert Fits(s);
    hide Tidy, Fits, Races, Bound, Over;
    match s.callers[tid].next
    case ToFill => FillHarms(s, cfg, tid);
    case ToRead => ReadHarms(s, cfg, tid);
    case _ => LastPartsRace(s, cfg, tid);
  }

  lemma {:induction false} Harm(s: Moment, cfg: Config, tid: nat) returns (turns: seq<Turn>)
    requires cfg.iceCap > 0 && Tidy(s, cfg.iceCap) && Checked(s) && Harmful(s, tid)
    ensures Forceless(turns) && FreshThroughout(s, cfg, turns) && !NeverRaces(s, cfg, turns)
    decreases PartsLeft(s.callers[tid].next)
  {
    var turn := NextPart(s, tid);
    NextPartHarms(s, cfg, tid);
    TurnFits(s, cfg, turn);
    assert turn != DoForce && Fresh(s, turn);
    hide Tidy, Fits, AfterTurn, Fresh, Races, Checked, DevelopsAll, NextPart;
    if Races(s, cfg, turn) {
      turns := [turn];
    } else {
      TurnIsOrderly(s, cfg, turn);
      TurnKeepsChecked(s, cfg, turn);
      var rest := Harm(AfterTurn(s, cfg, turn), cfg, tid);
      turns := [turn] + rest;
      assert turns[1..] == rest;
    }
  }

  /** After a close that intruded without a race at once, there is a way to one. */
  lemma IntrusionIsUnsafe(s: Moment, cfg: Config)
    requires cfg.iceCap > 0 && Tidy(s, cfg.iceCap) && Checked(s) && Quiet(s)
    requires Intrudes(s, DoForce) && !Races(s, cfg, DoForce)
    ensures Fits(Force(s)) && !SafeAhead(Force(s), cfg)
  {
    var slot := MarkedSlot(s);
    var tid :| tid in s.callers && WritesTo(s.callers[tid], slot);
    var c := s.callers[tid];
    TurnFits(s, cfg, DoForce);
    TurnIsOrderly(s, cfg, DoForce);
    TurnKeepsChecked(s, cfg, DoForce);
    ActorAt(s, cfg.iceCap, tid);
    assert Harmful(Force(s), tid);
    hide Tidy, Fits, Force, Harmful, DevelopsAll, Checked, Quiet, IsReady;
    var rest := Harm(Force(s), cfg, tid);
    OrderlyIffNeverRaces(Force(s), cfg, rest);
  }

  /**
   Order is kept by every turn of the run, and at every moment of it would be kept until the next forced
   close, whatever the callers did instead.
   */
  ghost predicate SafeThroughout(s: Moment, cfg: Config, turns: seq<Turn>)
    requires Fits(s) && cfg.iceCap > 0
    decreases |turns|
  {
    SafeAhead(s, cfg) &&
    (turns == [] || (
      TurnFits(s, cfg, turns[0]);
      var s' := AfterTurn(s, cfg, turns[0]);
      DevelopsAll(s, s') && SafeThroughout(s', cfg, turns[1..])))
  }

  /** A run is safe at every moment if and only if none of its forced closes intrudes. */
  lemma {:induction false} SafeIffNeverIntrudes(s: Moment, cfg: Config, turns: seq<Turn>)
    requires cfg.iceCap > 0 && Tidy(s, cfg.iceCap) && Checked(s) && Quiet(s) && FreshThroughout(s, cfg, turns)
    ensures SafeThroughout(s, cfg, turns) <==> NeverIntrudes(s, cfg, turns)
    decreases |turns|
  {
    QuietIsSafe(s, cfg);
    assert Fits(s);
    hide Tidy, Fits, AfterTurn, DevelopsAll, Fresh, Checked, Quiet, SafeAhead;
    if turns != [] {
      TurnFits(s, cfg, turns[0]);
      var s' := AfterTurn(s, cfg, turns[0]);
      TurnIsOrderly(s, cfg, turns[0]);
      if Intrudes(s, turns[0]) {
        if !Races(s, cfg, turns[0]) {
          IntrusionIsUnsafe(s, cfg);
        } else if !Tidy(s', cfg.iceCap) {
          UntidyIsUnsafe(s', cfg);
        }
      } else {
        QuietTurn(s, cfg, turns[0]);
        TurnKeepsChecked(s, cfg, turns[0]);
        SafeIffNeverIntrudes(s', cfg, turns[1..]);
      }
    }
  }

  /** From the empty manager: of any run with fresh ids. */
  lemma SafeFromEmptyIffNeverIntrudes(cfg: Config, turns: seq<Turn>)
    requires cfg.iceCap > 0 && FreshThroughout(EMPTY, cfg, turns)
    ensures SafeThroughout(EMPTY, cfg, turns) <==> NeverIntrudes(EMPTY, cfg, turns)
    ensures NeverIntrudes(EMPTY, cfg, turns) ==> Orderly(EMPTY, cfg, turns)
  {
    EmptyIsTidy(cfg.iceCap);
    assert Quiet(EMPTY);
    SafeIffNeverIntrudes(EMPTY, cfg, turns);
    if NeverIntrudes(EMPTY, cfg, turns) {
      NeverRacesUnlessIntruding(EMPTY, cfg, turns);
      OrderlyIffNeverRaces(EMPTY, cfg, turns);
    }
  }
}

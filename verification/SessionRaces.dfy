/**
 What can go wrong between the locks, and exactly when: a session closed though it was used meanwhile,
 and a walk that never ends. Then runs from the empty manager in which each of these happens, and each
 of the races.
 */
module SessionRaces {
  import opened Wrappers
  import opened Envelope
  import opened Sessions
  import opened SessionActs
  import opened SessionWalks
  import opened SessionWalkRuns
  import opened SessionIntrusions

  // When expiry closes a session that is not stale.

  /** The caller that holds the session stamps it. */
  predicate Refreshes(s: Moment, turn: Turn, slot: nat)
    requires Fits(s)
  {
    turn.DoStamp? && Can(s, turn) && s.callers[turn.tid].slot == slot
  }

  predicate AnyRefreshes(s: Moment, cfg: Config, turns: seq<Turn>, slot: nat)
    requires Fits(s) && cfg.iceCap > 0
    decreases |turns|
  {
    turns != [] && (
      TurnFits(s, cfg, turns[0]);
      Refreshes(s, turns[0], slot) || AnyRefreshes(AfterTurn(s, cfg, turns[0]), cfg, turns[1..], slot))
  }

  /** Nothing is forced, and sessions are stamped no earlier than the walk began. */
  predicate Onward(turns: seq<Turn>, now: int) {
    forall i | 0 <= i < |turns| :: turns[i] != DoForce && (turns[i].DoStamp? ==> now <= turns[i].now)
  }

  predicate Marked(s: Moment, id: string, slot: nat, now: int) {
    && Fits(s) && s.walk.Some? && s.walk.value.marked == Some(id) && s.walk.value.now == now
    && id in s.world.live && s.world.live[id] == slot
  }

  lemma MarkedTurn(s: Moment, cfg: Config, turn: Turn, id: string, slot: nat, now: int)
    requires Marked(s, id, slot, now) && cfg.iceCap > 0 && cfg.ttl > 0 && now > 0
    requires turn != DoForce && (turn.DoStamp? ==> now <= turn.now)
    ensures var s' := AfterTurn(s, cfg, turn);
      && Marked(s', id, slot, now)
      && (Stale(s'.world.store[slot], cfg.ttl, now) <==>
            Stale(s.world.store[slot], cfg.ttl, now) && !Refreshes(s, turn, slot))
  {
    TurnFits(s, cfg, turn);
    hide Exclusive, Test, Admits, Precheck, Expired, HashShape, Goal;
  }

  /**
   Between the check of a stale session and its forced close: by the clock of the walk it is still stale
   at the close exactly if no caller that held it gave it a new timestamp. Otherwise the close takes a
   session that was used after the walk began.
   */
  lemma {:induction false} ClosedStaleUnlessRefreshed(s: Moment, cfg: Config, between: seq<Turn>,
                                                      id: string, slot: nat, now: int)
    requires Marked(s, id, slot, now) && cfg.iceCap > 0 && cfg.ttl > 0 && now > 0 && Onward(between, now)
    requires Stale(s.world.store[slot], cfg.ttl, now)
    ensures var s' := RunTurns(s, cfg, between);
      && Marked(s', id, slot, now)
      && (Stale(s'.world.store[slot], cfg.ttl, now) <==> !AnyRefreshes(s, cfg, between, slot))
      && Force(s').world.store[slot] == Forced(s'.world.store[slot], now)
      && id !in Force(s').world.live
    decreases |between|
  {
    if between != [] {
      assert between[0] != DoForce;
      TurnFits(s, cfg, between[0]);
      MarkedTurn(s, cfg, between[0], id, slot, now);
      var s' := AfterTurn(s, cfg, between[0]);
      hide AfterTurn, Refreshes;
      if Stale(s'.world.store[slot], cfg.ttl, now) {
        ClosedStaleUnlessRefreshed(s', cfg, between[1..], id, slot, now);
      } else {
        StaysFresh(s', cfg, between[1..], id, slot, now);
      }
    }
  }

  lemma {:induction false} StaysFresh(s: Moment, cfg: Config, between: seq<Turn>, id: string, slot: nat, now: int)
    requires Marked(s, id, slot, now) && cfg.iceCap > 0 && cfg.ttl > 0 && now > 0 && Onward(between, now)
    requires !Stale(s.world.store[slot], cfg.ttl, now)
    ensures Marked(RunTurns(s, cfg, between), id, slot, now)
    ensures !Stale(RunTurns(s, cfg, between).world.store[slot], cfg.ttl, now)
    decreases |between|
  {
    if between != [] {
      assert between[0] != DoForce;
      TurnFits(s, cfg, between[0]);
      MarkedTurn(s, cfg, between[0], id, slot, now);
      hide AfterTurn, Refreshes;
      StaysFresh(AfterTurn(s, cfg, between[0]), cfg, between[1..], id, slot, now);
    }
  }

  // Walks that never end.

  /** Left alone with the session, the caller is going to delete it before it lets go of its lock. */
  predicate WillDrop(c: Caller, r: Record) {
    match c
    case Free(_) => false
    case Dropping(_) => true
    case Acting(_, op, next, was) =>
      var goal := Goal(was.offerer, op);
      && Deletes(was.offerer, op)
      && (next == ToFill || next == ToRead ==> r.state == goal.value || Admits(r.state, op, goal.value))
  }

  predicate Clings(s: Moment, tid: nat, slot: nat)
    requires slot < |s.world.store|
  {
    tid in s.callers && Holds(s.callers[tid], slot) && WillDrop(s.callers[tid], s.world.store[slot])
  }

  predicate Blocks(s: Moment, id: string)
    requires Fits(s) && s.walk.Some? && id in s.walk.value.todo
  {
    s.walk.value.marked != Some(id) && exists tid | tid in s.callers :: Clings(s, tid, s.world.live[id])
  }

  /** The walk has yet to check a session whose lock is held by a caller that needs the map before it lets go. */
  predicate Hung(s: Moment)
    requires Fits(s)
  {
    s.walk.Some? && exists id | id in s.walk.value.todo :: Blocks(s, id)
  }

  predicate OwnTurn(turn: Turn, tid: nat) {
    match turn
    case DoFill(t) => t == tid
    case DoRead(t) => t == tid
    case DoSet(t) => t == tid
    case DoStamp(t, _) => t == tid
    case _ => false
  }

  /** What the caller does next does not change whether it is going to delete the session. */
  lemma OwnTurnDecidesNothing(s: Moment, cfg: Config, turn: Turn, tid: nat)
    requires Fits(s) && cfg.iceCap > 0 && OwnTurn(turn, tid) && Can(s, turn)
    ensures var (s', slot) := (AfterTurn(s, cfg, turn), s.callers[tid].slot);
      && tid in s'.callers && s'.walk == s.walk && s'.world.live == s.world.live
      && |s'.world.store| == |s.world.store|
      && (s'.callers[tid].Free? || s'.callers[tid].slot == slot)
      && (WillDrop(s'.callers[tid], s'.world.store[slot]) <==> WillDrop(s.callers[tid], s.world.store[slot]))
  {
    hide Exclusive;
  }

  /** No one else's turn touches the session or its entry, unless it is the one marked. */
  lemma OthersLeaveAlone(s: Moment, cfg: Config, turn: Turn, tid: nat, id: string)
    requires Fits(s) && cfg.iceCap > 0 && s.walk.Some? && id in s.walk.value.todo && s.walk.value.marked != Some(id)
    requires tid in s.callers && Holds(s.callers[tid], s.world.live[id]) && !OwnTurn(turn, tid)
    ensures var (s', slot) := (AfterTurn(s, cfg, turn), s.world.live[id]);
      && id in s'.world.live && s'.world.live[id] == slot && slot < |s'.world.store|
      && s'.world.store[slot] == s.world.store[slot]
      && tid in s'.callers && s'.callers[tid] == s.callers[tid]
      && s'.walk.Some? && id in s'.walk.value.todo && s'.walk.value.marked != Some(id)
  {
    HolderIsOnly(s, tid);
    hide Exclusive, Expired, Forced, Fill, Test, Admits, Precheck;
  }

  lemma OwnTurnIsLocal(s: Moment, cfg: Config, turn: Turn, tid: nat)
    requires Fits(s) && cfg.iceCap > 0 && OwnTurn(turn, tid) && Can(s, turn)
    ensures var (s', slot) := (AfterTurn(s, cfg, turn), s.callers[tid].slot);
      && s'.callers == s.callers[tid := s'.callers[tid]]
      && s'.world.store == s.world.store[slot := s'.world.store[slot]]
      && (s'.callers[tid].Acting? ==> PartsLeft(s'.callers[tid].next) < PartsLeft(s.callers[tid].next))
  {
    hide Exclusive, Fill, Test, Admits, Goal;
  }

  lemma HungStaysHung(s: Moment, cfg: Config, turn: Turn)
    requires Fits(s) && cfg.iceCap > 0 && Hung(s)
    ensures Fits(AfterTurn(s, cfg, turn)) && Hung(AfterTurn(s, cfg, turn))
  {
    TurnFits(s, cfg, turn);
    var s' := AfterTurn(s, cfg, turn);
    var id :| id in s.walk.value.todo && Blocks(s, id);
    var tid :| tid in s.callers && Clings(s, tid, s.world.live[id]);
    hide Fits, AfterTurn, WillDrop, Can;
    if OwnTurn(turn, tid) {
      if Can(s, turn) {
        OwnTurnDecidesNothing(s, cfg, turn, tid);
      }
    } else {
      OthersLeaveAlone(s, cfg, turn, tid, id);
    }
    assert Clings(s', tid, s'.world.live[id]);
    assert Blocks(s', id);
  }

  lemma {:induction false} HungForEver(s: Moment, cfg: Config, turns: seq<Turn>)
    requires Fits(s) && cfg.iceCap > 0 && Hung(s)
    ensures Hung(RunTurns(s, cfg, turns))
    decreases |turns|
  {
    hide AfterTurn, Hung, Fits;
    if turns != [] {
      HungStaysHung(s, cfg, turns[0]);
      HungForEver(AfterTurn(s, cfg, turns[0]), cfg, turns[1..]);
    }
  }

  lemma RunCons(s: Moment, cfg: Config, turn: Turn, turns: seq<Turn>)
    requires Fits(s) && cfg.iceCap > 0
    ensures Fits(AfterTurn(s, cfg, turn))
    ensures RunTurns(s, cfg, [turn] + turns) == RunTurns(AfterTurn(s, cfg, turn), cfg, turns)
  {
    TurnFits(s, cfg, turn);
    assert ([turn] + turns)[1..] == turns;
  }

  lemma {:induction false} RunAppend(s: Moment, cfg: Config, a: seq<Turn>, b: seq<Turn>)
    requires Fits(s) && cfg.iceCap > 0
    ensures RunTurns(s, cfg, a + b) == RunTurns(RunTurns(s, cfg, a), cfg, b)
    decreases |a|
  {
    hide Fits, AfterTurn;
    if a == [] {
      assert a + b == b;
    } else {
      TurnFits(s, cfg, a[0]);
      assert (a + b)[1..] == a[1..] + b;
      RunAppend(AfterTurn(s, cfg, a[0]), cfg, a[1..], b);
    }
  }

  /** The caller holds a session that the walk has yet to check. */
  predicate InTheWay(s: Moment, tid: nat, id: string)
    requires Fits(s)
  {
    && s.walk.Some? && id in s.walk.value.todo && s.walk.value.marked != Some(id)
    && tid in s.callers && Holds(s.callers[tid], s.world.live[id])
  }

  /** Another caller in the way before is still in the way, and no one comes to be so. */
  lemma OthersStayInTheWay(s: Moment, s': Moment, tid: nat, slot: nat)
    requires Fits(s) && Fits(s') && !Hung(s) && s'.walk == s.walk && s.walk.Some? && s'.world.live == s.world.live
    requires tid in s'.callers && s'.callers == s.callers[tid := s'.callers[tid]] && slot < |s.world.store|
    requires |s'.world.store| == |s.world.store| && s'.world.store == s.world.store[slot := s'.world.store[slot]]
    requires OnlyHolder(s.callers, tid, slot) && (s'.callers[tid].Free? || s'.callers[tid].slot == slot)
    requires !WillDrop(s'.callers[tid], s'.world.store[slot])
    ensures !Hung(s')
  {
    hide WillDrop, Exclusive;
    forall id | id in s'.walk.value.todo ensures !Blocks(s', id) {
      assert !Blocks(s, id);
      assert forall t | t in s'.callers && t != tid :: !Holds(s.callers[t], slot);
      assert forall t | t in s'.callers :: Clings(s', t, s.world.live[id]) ==> Clings(s, t, s.world.live[id]);
    }
  }

  lemma PartFreesTheWay(s: Moment, cfg: Config, tid: nat, id: string)
    requires Fits(s) && cfg.iceCap > 0 && !Hung(s) && InTheWay(s, tid, id)
    ensures s.callers[tid].Acting? && Fits(AfterTurn(s, cfg, NextPart(s, tid)))
    ensures var s' := AfterTurn(s, cfg, NextPart(s, tid));
      && !Hung(s') && s'.walk == s.walk && s'.world.live == s.world.live
      && tid in s'.callers && !s'.callers[tid].Dropping?
      && if s'.callers[tid].Free? then !Locked(s'.callers, s.world.live[id])
         else InTheWay(s', tid, id) && PartsLeft(s'.callers[tid].next) < PartsLeft(s.callers[tid].next)
  {
    var slot := s.world.live[id];
    var c := s.callers[tid];
    HolderIsOnly(s, tid);
    assert !Blocks(s, id);
    assert !Clings(s, tid, slot);
    assert c.Acting?;
    var turn := NextPart(s, tid);
    assert OwnTurn(turn, tid) && Can(s, turn);
    var s' := AfterTurn(s, cfg, turn);
    TurnFits(s, cfg, turn);
    OwnTurnDecidesNothing(s, cfg, turn, tid);
    OwnTurnIsLocal(s, cfg, turn, tid);
    hide Fits, AfterTurn, Hung, NextPart, Can;
    OthersStayInTheWay(s, s', tid, slot);
  }

  /** Whoever is in the way without being bound to delete can finish. */
  lemma {:induction false} LetGo(s: Moment, cfg: Config, tid: nat, id: string) returns (turns: seq<Turn>)
    requires Fits(s) && cfg.iceCap > 0 && !Hung(s) && InTheWay(s, tid, id)
    ensures var s' := RunTurns(s, cfg, turns);
      !Hung(s') && s'.walk == s.walk && s'.world.live == s.world.live && !Locked(s'.callers, s.world.live[id])
    decreases if s.callers[tid].Acting? then PartsLeft(s.callers[tid].next) else 0
  {
    PartFreesTheWay(s, cfg, tid, id);
    var turn := NextPart(s, tid);
    var s' := AfterTurn(s, cfg, turn);
    hide Fits, AfterTurn, Hung, NextPart, Locked;
    var rest := [];
    if !s'.callers[tid].Free? {
      rest := LetGo(s', cfg, tid, id);
    }
    turns := [turn] + rest;
    RunCons(s, cfg, turn, rest);
  }

  lemma LessToCheck(s: Moment, s': Moment)
    requires Fits(s) && Fits(s') && !Hung(s) && s.walk.Some? && s'.walk.Some? && s'.callers == s.callers
    requires s'.walk.value.todo <= s.walk.value.todo
    requires forall id | id in s'.walk.value.todo ::
      && s.walk.value.marked != Some(id) && s'.world.live[id] == s.world.live[id]
      && s'.world.live[id] < |s'.world.store|
      && s'.world.store[s'.world.live[id]] == s.world.store[s.world.live[id]]
    ensures !Hung(s')
  {
    hide WillDrop, Exclusive;
    forall id | id in s'.walk.value.todo ensures !Blocks(s', id) {
      assert !Blocks(s, id);
    }
  }

  /** One step of the walk itself: a forced close, or a check. */
  lemma ForceOn(s: Moment, cfg: Config)
    requires Fits(s) && cfg.iceCap > 0 && !Hung(s) && Can(s, DoForce)
    ensures var s' := AfterTurn(s, cfg, DoForce);
      Fits(s') && s'.walk.Some? && !Hung(s') && |s'.walk.value.todo| < |s.walk.value.todo|
  {
    TurnFits(s, cfg, DoForce);
    hide Forced, Hung, Exclusive, Locked;
    LessToCheck(s, Force(s));
    assert |s.walk.value.todo - {s.walk.value.marked.value}| < |s.walk.value.todo|;
  }

  lemma CheckOn(s: Moment, cfg: Config, id: string)
    requires Fits(s) && cfg.iceCap > 0 && !Hung(s) && Can(s, DoCheck(id))
    ensures var s' := AfterTurn(s, cfg, DoCheck(id));
      && Fits(s') && s'.walk.Some? && !Hung(s')
      && var (w, w') := (s.walk.value, s'.walk.value);
         |w'.todo| < |w.todo| || (w'.todo == w.todo && w'.marked.Some?)
  {
    TurnFits(s, cfg, DoCheck(id));
    hide Expired, Hung, Exclusive, Locked;
    LessToCheck(s, Check(s, cfg, id));
    assert |s.walk.value.todo - {id}| < |s.walk.value.todo|;
  }

  lemma {:induction false} WayOut(s: Moment, cfg: Config) returns (turns: seq<Turn>)
    requires Fits(s) && cfg.iceCap > 0 && s.walk.Some? && !Hung(s)
    ensures RunTurns(s, cfg, turns).walk.None?
    decreases |s.walk.value.todo|, s.walk.value.marked.None?
  {
    var w := s.walk.value;
    if w.todo == {} {
      turns := [DoLeave];
      RunCons(s, cfg, DoLeave, []);
      assert [DoLeave] + [] == [DoLeave];
    } else {
      var first, turn := [], DoForce;
      if w.marked.None? {
        var id :| id in w.todo;
        turn := DoCheck(id);
        if Locked(s.callers, s.world.live[id]) {
          var tid :| tid in s.callers && Holds(s.callers[tid], s.world.live[id]);
          first := LetGo(s, cfg, tid, id);
        }
        CheckOn(RunTurns(s, cfg, first), cfg, id);
      } else {
        ForceOn(s, cfg);
      }
      var s1 := RunTurns(s, cfg, first);
      hide AfterTurn, Hung, Fits;
      var rest := WayOut(AfterTurn(s1, cfg, turn), cfg);
      turns := first + ([turn] + rest);
      RunAppend(s, cfg, first, [turn] + rest);
      RunCons(s1, cfg, turn, rest);
    }
  }

  /**
   A walk can still come to its end exactly if none of the sessions it has yet to check is locked by a
   caller that is going to delete it. If one is, everyone who needs the map waits for ever.
   */
  lemma WalkEndsIffNotHung(s: Moment, cfg: Config)
    requires Fits(s) && cfg.iceCap > 0 && s.walk.Some?
    ensures (exists turns :: RunTurns(s, cfg, turns).walk.None?) <==> !Hung(s)
  {
    if Hung(s) {
      forall turns ensures RunTurns(s, cfg, turns).walk.Some? {
        HungForEver(s, cfg, turns);
      }
    } else {
      var turns := WayOut(s, cfg);
      assert RunTurns(s, cfg, turns).walk.None?;
    }
  }
}

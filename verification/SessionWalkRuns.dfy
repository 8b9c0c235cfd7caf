/** Runs of turns. They keep order exactly if none of their turns races. */
module SessionWalkRuns {
  import opened Sessions
  import opened SessionInvariants
  import opened SessionWalks
  import opened SessionTurns
  import SessionLocks

  function RunTurns(s: Moment, cfg: Config, turns: seq<Turn>): (s': Moment)
    requires Fits(s) && cfg.iceCap > 0
    ensures Fits(s')
    decreases |turns|
  {
    if turns == [] then s
    else
      TurnFits(s, cfg, turns[0]);
      RunTurns(AfterTurn(s, cfg, turns[0]), cfg, turns[1..])
  }

  predicate FreshThroughout(s: Moment, cfg: Config, turns: seq<Turn>)
    requires Fits(s) && cfg.iceCap > 0
    decreases |turns|
  {
    turns == [] || (
      TurnFits(s, cfg, turns[0]);
      Fresh(s, turns[0]) && FreshThroughout(AfterTurn(s, cfg, turns[0]), cfg, turns[1..]))
  }

  predicate NeverRaces(s: Moment, cfg: Config, turns: seq<Turn>)
    requires Fits(s) && cfg.iceCap > 0
    decreases |turns|
  {
    turns == [] || (
      TurnFits(s, cfg, turns[0]);
      !Races(s, cfg, turns[0]) && NeverRaces(AfterTurn(s, cfg, turns[0]), cfg, turns[1..]))
  }

  /** Every state of the run is tidy, and no turn of it takes a session back or touches one that has ended. */
  predicate Orderly(s: Moment, cfg: Config, turns: seq<Turn>)
    requires Fits(s) && cfg.iceCap > 0
    decreases |turns|
  {
    Tidy(s, cfg.iceCap) &&
    (turns == [] || (
      TurnFits(s, cfg, turns[0]);
      var s' := AfterTurn(s, cfg, turns[0]);
      DevelopsAll(s, s') && Orderly(s', cfg, turns[1..])))
  }

  /**
   A run keeps order throughout if and only if none of its turns closes a session that failed or carries
   its reason for failing, or alters one that has ended.
   */
  lemma {:induction false} OrderlyIffNeverRaces(s: Moment, cfg: Config, turns: seq<Turn>)
    requires cfg.iceCap > 0 && Tidy(s, cfg.iceCap) && Checked(s) && FreshThroughout(s, cfg, turns)
    ensures Orderly(s, cfg, turns) <==> NeverRaces(s, cfg, turns)
    decreases |turns|
  {
    assert Fits(s);
    hide Tidy, Fits, AfterTurn, DevelopsAll, Races, Fresh, Checked;
    if turns != [] {
      TurnFits(s, cfg, turns[0]);
      var s' := AfterTurn(s, cfg, turns[0]);
      TurnIsOrderly(s, cfg, turns[0]);
      TurnKeepsChecked(s, cfg, turns[0]);
      if Tidy(s', cfg.iceCap) {
        OrderlyIffNeverRaces(s', cfg, turns[1..]);
      } else {
        assert !Orderly(s', cfg, turns[1..]);
      }
    }
  }

  lemma {:induction false} OrderlyRunsDevelop(s: Moment, cfg: Config, turns: seq<Turn>)
    requires cfg.iceCap > 0 && Fits(s) && Orderly(s, cfg, turns)
    ensures Tidy(RunTurns(s, cfg, turns), cfg.iceCap)
    ensures DevelopsAll(s, RunTurns(s, cfg, turns))
    decreases |turns|
  {
    DevelopsAllStandingStill(s);
    hide Tidy, Fits, AfterTurn, DevelopsAll;
    if turns != [] {
      TurnFits(s, cfg, turns[0]);
      var s' := AfterTurn(s, cfg, turns[0]);
      OrderlyRunsDevelop(s', cfg, turns[1..]);
      DevelopsAllIsTransitive(s, s', RunTurns(s', cfg, turns[1..]));
    }
  }

  lemma DevelopsAllStandingStill(s: Moment)
    ensures DevelopsAll(s, s)
  {
  }

  lemma {:induction false} RunKeepsChecked(s: Moment, cfg: Config, turns: seq<Turn>)
    requires cfg.iceCap > 0 && Fits(s) && Checked(s)
    ensures Checked(RunTurns(s, cfg, turns))
    decreases |turns|
  {
    hide AfterTurn, Fits, Checked;
    if turns != [] {
      TurnFits(s, cfg, turns[0]);
      TurnKeepsChecked(s, cfg, turns[0]);
      RunKeepsChecked(AfterTurn(s, cfg, turns[0]), cfg, turns[1..]);
    }
  }

  lemma EmptyIsTidy(iceCap: nat)
    requires iceCap > 0
    ensures Tidy(EMPTY, iceCap) && Checked(EMPTY)
  {
  }

  lemma TidyCounts(s: Moment, iceCap: nat)
    requires iceCap > 0 && Tidy(s, iceCap)
    ensures Count(s.world) == |LiveSlots(s.world.store)| + |SessionLocks.Lingering(s.world)|
  {
    var w := s.world;
    forall i | 0 <= i < |w.store| && !Terminal(w.store[i].state) ensures InMap(w, i) {
      assert Placed(s, i);
    }
    SessionLocks.CountSeesLingering(w);
  }

  /**
   From the empty manager, with the locks taken one at a time and no race: a session that has not ended
   is in the map, one that has is there only while its lock is held, `Count` is too high by just those,
   and over any later stretch of the run no session is taken back and no ended one changes.
   */
  lemma WalkingRunsAreSound(cfg: Config, before: seq<Turn>, after: seq<Turn>)
    requires cfg.iceCap > 0
    requires FreshThroughout(EMPTY, cfg, before) && NeverRaces(EMPTY, cfg, before)
    requires var s := RunTurns(EMPTY, cfg, before); FreshThroughout(s, cfg, after) && NeverRaces(s, cfg, after)
    ensures var s := RunTurns(EMPTY, cfg, before);
      && Tidy(s, cfg.iceCap)
      && Count(s.world) == |LiveSlots(s.world.store)| + |SessionLocks.Lingering(s.world)|
      && DevelopsAll(s, RunTurns(s, cfg, after))
  {
    var s := RunTurns(EMPTY, cfg, before);
    EmptyIsTidy(cfg.iceCap);
    OrderlyIffNeverRaces(EMPTY, cfg, before);
    OrderlyRunsDevelop(EMPTY, cfg, before);
    RunKeepsChecked(EMPTY, cfg, before);
    hide Tidy, Checked, FreshThroughout, NeverRaces, RunTurns, Orderly, DevelopsAll;
    TidyCounts(s, cfg.iceCap);
    OrderlyIffNeverRaces(s, cfg, after);
    OrderlyRunsDevelop(s, cfg, after);
  }
}

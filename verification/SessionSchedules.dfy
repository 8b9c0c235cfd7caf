/** The other direction: whatever callers can do in steps that are all at once, they can do with their locks. */
module SessionSchedules {
  import opened Envelope
  import opened Sessions
  import opened SessionInvariants
  import opened SessionRuns
  import opened SessionLocks

  /** No caller is between ending a session and deleting it. */
  predicate NoneDropping(f: Locks) {
    forall tid | tid in f.callers :: f.callers[tid].Free?
  }

  /** The step, and the deletion that is due after it. */
  function MovesFor(step: Step): seq<Move> {
    [Take(step)] + if step.Finish? then [Drop(step.tid)] else []
  }

  function Schedule(steps: seq<Step>): seq<Move> {
    if steps == [] then [] else MovesFor(steps[0]) + Schedule(steps[1..])
  }

  lemma WaitingIsIdle(f: Locks, cfg: Config, step: Step)
    requires Fitting(f) && cfg.iceCap > 0 && NoneDropping(f) && !Enabled(f, step)
    ensures Do(Settled(f), cfg, step) == Settled(f)
  {
    assert forall slot :: !Locked(f, slot);
    assert Walkable(f);
    hide Blank;
  }

  lemma StepHappens(f: Locks, cfg: Config, step: Step)
    requires Fitting(f) && cfg.iceCap > 0 && NoneDropping(f) && DistinctIds(f.world)
    requires FreshIds(Settled(f), cfg, [step])
    ensures var f' := Advance(f, cfg, Take(step));
      && Settled(f') == Do(Settled(f), cfg, step)
      && (step.Finish? || NoneDropping(f'))
      && (forall tid | tid in f'.callers && f'.callers[tid].Dropping? :: step.Finish? && tid == step.tid)
  {
    if Enabled(f, step) {
      MoveIsShown(f, cfg, Take(step));
      RunOne(Settled(f), cfg, step);
    } else {
      WaitingIsIdle(f, cfg, step);
    }
    hide Do, Enabled, Settled, Act;
  }

  lemma MovesHappen(f: Locks, cfg: Config, step: Step)
    requires Fitting(f) && cfg.iceCap > 0 && NoneDropping(f) && DistinctIds(f.world)
    requires FreshIds(Settled(f), cfg, [step])
    ensures var f' := Play(f, cfg, MovesFor(step));
      NoneDropping(f') && Settled(f') == Do(Settled(f), cfg, step)
  {
    var f1 := Advance(f, cfg, Take(step));
    StepHappens(f, cfg, step);
    if step.Finish? {
      DropIsHidden(f1, cfg, step.tid);
      assert NoneDropping(Advance(f1, cfg, Drop(step.tid)));
      hide Advance, Settled, Do;
      assert Play(f, cfg, [Take(step)] + [Drop(step.tid)]) == Play(f1, cfg, [Drop(step.tid)]);
      assert Play(f1, cfg, [Drop(step.tid)]) == Advance(f1, cfg, Drop(step.tid));
    } else {
      hide Advance, Settled, Do;
      assert MovesFor(step) == [Take(step)];
      assert Play(f, cfg, [Take(step)]) == f1;
    }
  }

  lemma {:induction false} PlaySplits(f: Locks, cfg: Config, a: seq<Move>, b: seq<Move>)
    requires Fitting(f) && cfg.iceCap > 0
    ensures Play(f, cfg, a + b) == Play(Play(f, cfg, a), cfg, b)
    decreases |a|
  {
    hide Advance, Fitting;
    if a == [] {
      assert a + b == b;
    } else {
      assert (a + b)[1..] == a[1..] + b;
      PlaySplits(Advance(f, cfg, a[0]), cfg, a[1..], b);
    }
  }

  /** From a state with no deletion under way, every run of steps has a run with locks that ends the same way. */
  lemma {:induction false} AtomicRunsHappen(f: Locks, cfg: Config, steps: seq<Step>)
    requires Fitting(f) && cfg.iceCap > 0 && NoneDropping(f)
    requires Good(Settled(f), cfg.iceCap) && DistinctIds(f.world) && FreshIds(Settled(f), cfg, steps)
    ensures NoneDropping(Play(f, cfg, Schedule(steps)))
    ensures Settled(Play(f, cfg, Schedule(steps))) == Run(Settled(f), cfg, steps)
    decreases |steps|
  {
    if steps != [] {
      assert FreshIds(Settled(f), cfg, [steps[0]]);
      var f' := Play(f, cfg, MovesFor(steps[0]));
      MovesHappen(f, cfg, steps[0]);
      RunOne(Settled(f), cfg, steps[0]);
      StaleHandlesAreHarmless(Settled(f), cfg, [steps[0]]);
      SettledWorld(f);
      SettledWorld(f');
      PlaySplits(f, cfg, MovesFor(steps[0]), Schedule(steps[1..]));
      hide Play, Settled, Do, Good, DistinctIds, Fitting, MovesFor;
      AtomicRunsHappen(f', cfg, steps[1..]);
    }
  }
}

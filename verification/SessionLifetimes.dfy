/** How long a session stays in the map, with any number of callers. */
module SessionLifetimes {
  import opened Envelope
  import opened Sessions
  import opened SessionInvariants
  import opened SessionRuns

  /** The clock reading of a step that walks the map, if it gets as far as that. */
  function WalkTime(s: System, step: Step): seq<int> {
    match step
    case CreateStep(_, _, offerer, t) => if !Blank(offerer) && 16 <= |offerer| <= 64 then [t.mint] else []
    case Look(tid, now) => if ThreadOf(s, tid).Looking? && !Blank(ThreadOf(s, tid).id) then [now] else []
    case ExpireStep(now) => [now]
    case _ => []
  }

  /** The operation ends a session in this state. */
  predicate IsEndedBy(r: Record, op: Op) {
    match op
    case Close => r.state == Connected
    case Fail(_) => true
    case FailOffer(_) => r.state == New
    case Offer(peer, _) => r.state == New && peer != r.offerer
    case _ => false
  }

  /** The step walks the map more than the TTL after the last timestamp, or it ends the session. */
  predicate Loses(s: System, cfg: Config, step: Step, slot: nat)
    requires Typed(s) && slot < |s.world.store|
  {
    var r := s.world.store[slot];
    || (cfg.ttl > 0 && WalkTime(s, step) != [] &&
          (r.updatedAt == 0 || WalkTime(s, step)[0] - r.updatedAt > cfg.ttl))
    || (step.Finish? && var th := ThreadOf(s, step.tid); th.Holding? && th.slot == slot && IsEndedBy(r, th.op))
  }

  predicate AnyLoses(s: System, cfg: Config, steps: seq<Step>, slot: nat)
    requires Typed(s) && cfg.iceCap > 0 && slot < |s.world.store|
    decreases |steps|
  {
    steps != [] && (Loses(s, cfg, steps[0], slot) || AnyLoses(Do(s, cfg, steps[0]), cfg, steps[1..], slot))
  }

  lemma CreationKeeps(s: System, cfg: Config, step: Step, slot: nat)
    requires cfg.iceCap > 0 && Good(s, cfg.iceCap) && step.CreateStep? && slot < |s.world.store| && InMap(s.world, slot)
    ensures InMap(Do(s, cfg, step).world, slot) <==> !Loses(s, cfg, step, slot)
  {
    ExpireAt(s.world, cfg, step.ticks.mint, slot);
    assert InMap(s.world, slot) <==> !Terminal(s.world.store[slot].state);
    hide Expire, Sound, Ready, Blank;
  }

  lemma WalkKeeps(s: System, cfg: Config, step: Step, slot: nat)
    requires cfg.iceCap > 0 && Good(s, cfg.iceCap) && (step.Look? || step.ExpireStep?)
    requires slot < |s.world.store| && InMap(s.world, slot)
    ensures InMap(Do(s, cfg, step).world, slot) <==> !Loses(s, cfg, step, slot)
  {
    ExpireAt(s.world, cfg, step.now, slot);
    assert InMap(s.world, slot) <==> !Terminal(s.world.store[slot].state);
    hide Expire, Sound, Ready, Blank;
  }

  lemma FinishKeeps(s: System, cfg: Config, step: Step, slot: nat)
    requires cfg.iceCap > 0 && Good(s, cfg.iceCap) && DistinctIds(s.world) && step.Finish?
    requires slot < |s.world.store| && InMap(s.world, slot)
    ensures InMap(Do(s, cfg, step).world, slot) <==> !Loses(s, cfg, step, slot)
  {
    var th, w, w' := ThreadOf(s, step.tid), s.world, Do(s, cfg, step).world;
    assert InMap(w, slot) <==> !Terminal(w.store[slot].state);
    if th.Holding? {
      DistinctIdsMeetNoStranger(w, th.slot, th.op);
      ApplyIsSound(w, cfg.iceCap, th.slot, th.op, step.now);
      ActEnds(w.store[slot], cfg.iceCap, th.op, step.now);
      assert InMap(w', slot) <==> !Terminal(w'.store[slot].state);
      hide Act, Sound, DistinctIds, Ready, IsEndedBy, WorldEvolves, InMap;
    }
  }

  lemma ActEnds(r: Record, iceCap: nat, op: Op, now: int)
    requires iceCap > 0 && !Terminal(r.state)
    ensures Terminal(Act(r, iceCap, op, now).record.state) <==> IsEndedBy(r, op)
  {
  }

  lemma StepKeeps(s: System, cfg: Config, step: Step, slot: nat)
    requires cfg.iceCap > 0 && Good(s, cfg.iceCap) && DistinctIds(s.world)
    requires slot < |s.world.store| && InMap(s.world, slot)
    ensures InMap(Do(s, cfg, step).world, slot) <==> !Loses(s, cfg, step, slot)
  {
    match step
    case CreateStep(_, _, _, _) => CreationKeeps(s, cfg, step, slot);
    case Begin(_, _, _) =>
    case Finish(_, _) => FinishKeeps(s, cfg, step, slot);
    case _ => WalkKeeps(s, cfg, step, slot);
  }

  /**
   Over any run, by any callers, with ids never reused: a session stays in the map exactly as long as no
   lookup, creation or sweep comes more than the TTL after its last timestamp and no operation ends it.
   */
  lemma {:induction false} KeptUntilLost(s: System, cfg: Config, steps: seq<Step>, slot: nat)
    requires cfg.iceCap > 0 && Good(s, cfg.iceCap) && DistinctIds(s.world) && FreshIds(s, cfg, steps)
    requires slot < |s.world.store| && InMap(s.world, slot)
    ensures InMap(Run(s, cfg, steps).world, slot) <==> !AnyLoses(s, cfg, steps, slot)
    decreases |steps|
  {
    if steps != [] {
      var s1 := Do(s, cfg, steps[0]);
      StepKeeps(s, cfg, steps[0], slot);
      assert FreshIds(s, cfg, [steps[0]]);
      StaleHandlesAreHarmless(s, cfg, [steps[0]]);
      RunOne(s, cfg, steps[0]);
      hide Do, Loses, FreshIds, DistinctIds;
      if InMap(s1.world, slot) {
        KeptUntilLost(s1, cfg, steps[1..], slot);
      } else {
        EndedIsLost(s1, cfg, steps[1..], slot);
      }
    }
  }

  lemma EndedIsLost(s: System, cfg: Config, steps: seq<Step>, slot: nat)
    requires cfg.iceCap > 0 && Good(s, cfg.iceCap) && DistinctIds(s.world) && FreshIds(s, cfg, steps)
    requires slot < |s.world.store| && !InMap(s.world, slot)
    ensures !InMap(Run(s, cfg, steps).world, slot)
  {
    StaleHandlesAreHarmless(s, cfg, steps);
    var w, w' := s.world, Run(s, cfg, steps).world;
    assert InMap(w, slot) <==> !Terminal(w.store[slot].state);
    assert InMap(w', slot) <==> !Terminal(w'.store[slot].state);
    assert Evolves(w.store[slot], w'.store[slot]);
  }
}

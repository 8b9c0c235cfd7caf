/**
 Many threads calling the manager at once. A call is several atomic steps: it looks its session up
 under the map lock (expiring on the way), and only later acts on it under the session lock. In
 between, other threads may end and remove that session.
 */
module SessionRuns {
  import opened Envelope
  import opened Sessions
  import opened SessionInvariants

  datatype Thread = Idle | Looking(id: string, op: Op) | Holding(slot: nat, op: Op)

  datatype System = System(world: World, threads: map<nat, Thread>)

  datatype Step =
    | CreateStep(id: string, minted: string, offerer: string, ticks: Ticks)
    | Begin(tid: nat, id: string, op: Op)
    | Look(tid: nat, now: int)
    | Finish(tid: nat, now: int)
    | ExpireStep(now: int)

  const EMPTY_SYSTEM := System(EMPTY_WORLD, map[])

  function ThreadOf(s: System, tid: nat): Thread {
    if tid in s.threads then s.threads[tid] else Idle
  }

  predicate Typed(s: System) {
    && WellFormed(s.world)
    && forall tid | tid in s.threads && s.threads[tid].Holding? :: s.threads[tid].slot < |s.world.store|
  }

  /** One atomic step; a step its thread is not ready for does nothing. */
  function Do(s: System, cfg: Config, step: Step): (s': System)
    requires Typed(s) && cfg.iceCap > 0
    ensures Typed(s') && |s.world.store| <= |s'.world.store|
  {
    match step
    case CreateStep(id, minted, offerer, t) => s.(world := Create(s.world, cfg, id, minted, offerer, t).0)
    case Begin(tid, id, op) =>
      if ThreadOf(s, tid).Idle? && Precheck(op).None? then s.(threads := s.threads[tid := Looking(id, op)]) else s
    case Look(tid, now) =>
      var th := ThreadOf(s, tid);
      if !th.Looking? then s
      else
        var (w, found) := Lookup(s.world, cfg, th.id, now);
        var next :=
          if found.Failure? then Idle
          else if Redirect(th.op).Some? then Looking(th.id, FailOffer(Rejected(Redirect(th.op).value)))
          else Holding(found.value, th.op);
        System(w, s.threads[tid := next])
    case Finish(tid, now) =>
      var th := ThreadOf(s, tid);
      if !th.Holding? then s
      else System(Apply(s.world, cfg.iceCap, th.slot, th.op, now).0, s.threads[tid := Idle])
    case ExpireStep(now) => s.(world := Expire(s.world, cfg, now))
  }

  function Run(s: System, cfg: Config, steps: seq<Step>): (s': System)
    requires Typed(s) && cfg.iceCap > 0
    ensures Typed(s') && |s.world.store| <= |s'.world.store|
    decreases |steps|
  {
    if steps == [] then s else Run(Do(s, cfg, steps[0]), cfg, steps[1..])
  }

  /** Everything the threads rely on. */
  predicate Good(s: System, iceCap: nat) {
    Typed(s) && Sound(s.world, iceCap) && Ready(s)
  }

  /** Threads have passed the checks that come before their next step. */
  predicate Ready(s: System) {
    forall tid | tid in s.threads ::
      match s.threads[tid]
      case Idle => true
      case Looking(_, op) => Precheck(op).None?
      case Holding(_, op) => Admissible(op)
  }

  /** Only finishing an operation can break the manager, and only by closing a stranger. */
  predicate Harmless(s: System, step: Step)
    requires Typed(s)
  {
    step.Finish? && ThreadOf(s, step.tid).Holding? ==>
      !ClosesStranger(s.world, ThreadOf(s, step.tid).slot, ThreadOf(s, step.tid).op)
  }

  lemma StepEvolves(s: System, cfg: Config, step: Step)
    requires cfg.iceCap > 0 && Good(s, cfg.iceCap)
    ensures WorldEvolves(s.world, Do(s, cfg, step).world)
  {
    assert WorldEvolves(s.world, s.world);
    hide Sound, WorldEvolves, Expire, Apply, Create;
    match step
    case CreateStep(id, minted, offerer, t) => CreateIsSound(s.world, cfg, id, minted, offerer, t);
    case Begin(_, _, _) =>
    case Look(_, now) => ExpireIsSound(s.world, cfg, now);
    case Finish(tid, now) =>
      var th := ThreadOf(s, tid);
      if th.Holding? {
        ApplyEvolves(s.world, cfg.iceCap, th.slot, th.op, now);
      }
    case ExpireStep(now) => ExpireIsSound(s.world, cfg, now);
  }

  lemma StepIsSound(s: System, cfg: Config, step: Step)
    requires cfg.iceCap > 0 && Good(s, cfg.iceCap)
    ensures Sound(Do(s, cfg, step).world, cfg.iceCap) <==> Harmless(s, step)
  {
    match step
    case CreateStep(id, minted, offerer, t) => CreateIsSound(s.world, cfg, id, minted, offerer, t);
    case Begin(_, _, _) =>
    case Look(_, now) => ExpireIsSound(s.world, cfg, now);
    case Finish(tid, now) =>
      var th := ThreadOf(s, tid);
      if th.Holding? {
        ApplyIsSound(s.world, cfg.iceCap, th.slot, th.op, now);
      }
    case ExpireStep(now) => ExpireIsSound(s.world, cfg, now);
  }

  lemma StepIsGood(s: System, cfg: Config, step: Step)
    requires cfg.iceCap > 0 && Good(s, cfg.iceCap)
    ensures Good(Do(s, cfg, step), cfg.iceCap) <==> Harmless(s, step)
    ensures WorldEvolves(s.world, Do(s, cfg, step).world)
  {
    StepIsSound(s, cfg, step);
    StepEvolves(s, cfg, step);
    ThreadsStayReady(s, cfg, step);
  }

  lemma ThreadsStayReady(s: System, cfg: Config, step: Step)
    requires cfg.iceCap > 0 && Typed(s) && Ready(s)
    ensures Ready(Do(s, cfg, step))
  {
  }

  predicate GoodThroughout(s: System, cfg: Config, steps: seq<Step>)
    requires Typed(s) && cfg.iceCap > 0
    decreases |steps|
  {
    Good(s, cfg.iceCap) && (steps != [] ==> GoodThroughout(Do(s, cfg, steps[0]), cfg, steps[1..]))
  }

  predicate HarmlessThroughout(s: System, cfg: Config, steps: seq<Step>)
    requires Typed(s) && cfg.iceCap > 0
    decreases |steps|
  {
    steps != [] ==> Harmless(s, steps[0]) && HarmlessThroughout(Do(s, cfg, steps[0]), cfg, steps[1..])
  }

  /** Over a whole run the map holds exactly the live sessions if and only if no step closes a stranger. */
  lemma {:induction false} GoodExactlyWhenHarmless(s: System, cfg: Config, steps: seq<Step>)
    requires cfg.iceCap > 0 && Good(s, cfg.iceCap)
    ensures GoodThroughout(s, cfg, steps) <==> HarmlessThroughout(s, cfg, steps)
    decreases |steps|
  {
    if steps != [] {
      StepIsGood(s, cfg, steps[0]);
      if Harmless(s, steps[0]) {
        GoodExactlyWhenHarmless(Do(s, cfg, steps[0]), cfg, steps[1..]);
      }
    }
  }

  predicate Creates(s: System, cfg: Config, step: Step)
    requires Typed(s)
  {
    step.CreateStep? && Create(s.world, cfg, step.id, step.minted, step.offerer, step.ticks).1.Success?
  }

  /** No session is created under an id that any earlier session had; a creation that is refused may name any id. */
  predicate FreshIds(s: System, cfg: Config, steps: seq<Step>)
    requires Typed(s) && cfg.iceCap > 0
    decreases |steps|
  {
    steps != [] ==>
      && (Creates(s, cfg, steps[0]) ==>
            forall i | 0 <= i < |s.world.store| ::
              s.world.store[i].id != if steps[0].id == "" then steps[0].minted else steps[0].id)
      && FreshIds(Do(s, cfg, steps[0]), cfg, steps[1..])
  }

  lemma StepKeepsDistinctIds(s: System, cfg: Config, step: Step)
    requires cfg.iceCap > 0 && Good(s, cfg.iceCap) && DistinctIds(s.world)
    requires FreshIds(s, cfg, [step])
    ensures DistinctIds(Do(s, cfg, step).world)
  {
    StepIsGood(s, cfg, step);
    hide Good, Apply, Expire, Lookup, Newborn;
    var w, w' := s.world, Do(s, cfg, step).world;
    assert forall i | 0 <= i < |w.store| :: w'.store[i].id == w.store[i].id;
    if Creates(s, cfg, step) {
      CreateMakesNewborn(w, cfg, step.id, step.minted, step.offerer, step.ticks);
    } else {
      assert |w'.store| == |w.store|;
    }
  }

  /**
   Stale handles are harmless: with ids never reused, in any interleaving of any number of threads,
   a session is in the map exactly while it has not ended, and a session that has ended never changes.
   */
  lemma {:induction false} StaleHandlesAreHarmless(s: System, cfg: Config, steps: seq<Step>)
    requires cfg.iceCap > 0 && Good(s, cfg.iceCap) && DistinctIds(s.world) && FreshIds(s, cfg, steps)
    ensures Good(Run(s, cfg, steps), cfg.iceCap) && DistinctIds(Run(s, cfg, steps).world)
    ensures WorldEvolves(s.world, Run(s, cfg, steps).world)
    ensures HarmlessThroughout(s, cfg, steps)
    decreases |steps|
  {
    if steps == [] {
      assert forall i | 0 <= i < |s.world.store| :: Evolves(s.world.store[i], s.world.store[i]);
    } else {
      var s1 := Do(s, cfg, steps[0]);
      if steps[0].Finish? && ThreadOf(s, steps[0].tid).Holding? {
        DistinctIdsMeetNoStranger(s.world, ThreadOf(s, steps[0].tid).slot, ThreadOf(s, steps[0].tid).op);
      }
      StepIsGood(s, cfg, steps[0]);
      StepKeepsDistinctIds(s, cfg, steps[0]);
      StaleHandlesAreHarmless(s1, cfg, steps[1..]);
      WorldEvolvesIsTransitive(s.world, s1.world, Run(s1, cfg, steps[1..]).world);
    }
  }

  /** From the empty manager, at any point of a run: the map, the fields and the count tell the same story. */
  lemma ReachableIsSound(cfg: Config, steps: seq<Step>)
    requires cfg.iceCap > 0 && FreshIds(EMPTY_SYSTEM, cfg, steps)
    ensures var w := Run(EMPTY_SYSTEM, cfg, steps).world;
      && Count(w) == |LiveSlots(w.store)|
      && forall i | 0 <= i < |w.store| ::
           && (InMap(w, i) <==> !Terminal(w.store[i].state))
           && Coherent(w.store[i])
  {
    StaleHandlesAreHarmless(EMPTY_SYSTEM, cfg, steps);
    CountIsLive(Run(EMPTY_SYSTEM, cfg, steps).world);
  }

  lemma {:induction false} RunSplits(s: System, cfg: Config, a: seq<Step>, b: seq<Step>)
    requires Typed(s) && cfg.iceCap > 0
    ensures Run(s, cfg, a + b) == Run(Run(s, cfg, a), cfg, b)
    ensures FreshIds(s, cfg, a + b) ==> FreshIds(s, cfg, a) && FreshIds(Run(s, cfg, a), cfg, b)
    decreases |a|
  {
    if a == [] {
      assert a + b == b;
    } else {
      assert (a + b)[1..] == a[1..] + b;
      RunSplits(Do(s, cfg, a[0]), cfg, a[1..], b);
    }
  }

  /** A session that has ended by some point of a run is the same record at every later point. */
  lemma EndedSessionsAreFrozen(cfg: Config, before: seq<Step>, after: seq<Step>, slot: nat)
    requires cfg.iceCap > 0 && FreshIds(EMPTY_SYSTEM, cfg, before + after)
    requires slot < |Run(EMPTY_SYSTEM, cfg, before).world.store|
    requires Terminal(Run(EMPTY_SYSTEM, cfg, before).world.store[slot].state)
    ensures var earlier, later := Run(EMPTY_SYSTEM, cfg, before).world, Run(EMPTY_SYSTEM, cfg, before + after).world;
      slot < |later.store| && later.store[slot] == earlier.store[slot]
  {
    RunSplits(EMPTY_SYSTEM, cfg, before, after);
    StaleHandlesAreHarmless(EMPTY_SYSTEM, cfg, before);
    StaleHandlesAreHarmless(Run(EMPTY_SYSTEM, cfg, before), cfg, after);
  }

  // Without fresh ids: a slow close takes a newer session of the same id out of the map.

  const DEVICE := "0123456789abcdef"

  const NOON := Ticks(1, 1, 1, 1, 1)

  const OPEN := [CreateStep("a", "", DEVICE, NOON)]
  const CLOSING := [Begin(0, "a", Close), Look(0, 1)]
  const FAILING := [Begin(1, "a", Fail(NO_REASON)), Look(1, 1)]
  const REUSE := OPEN + (CLOSING + (FAILING + ([Finish(1, 1)] + (OPEN + [Finish(0, 1)]))))

  const SMALL := Config(10, 1)

  const BORN := Newborn("a", DEVICE, 1)

  lemma ReuseFinishes(w: World, w': World, threads: map<nat, Thread>, tid: nat)
    requires var s := System(w, threads); Typed(s) && ThreadOf(s, tid).Holding?
    requires Apply(w, 1, threads[tid].slot, threads[tid].op, 1).0 == w'
    ensures Do(System(w, threads), SMALL, Finish(tid, 1)) == System(w', threads[tid := Idle])
  {
  }

  lemma RunChain(s: System, cfg: Config, a: seq<Step>, t: System, b: seq<Step>)
    requires Typed(s) && cfg.iceCap > 0 && Run(s, cfg, a) == t
    ensures Run(s, cfg, a + b) == Run(t, cfg, b)
  {
    RunSplits(s, cfg, a, b);
  }

  lemma RunOne(s: System, cfg: Config, a: Step)
    requires Typed(s) && cfg.iceCap > 0
    ensures Run(s, cfg, [a]) == Do(s, cfg, a)
  {
    assert Run(Do(s, cfg, a), cfg, []) == Do(s, cfg, a);
  }

  lemma RunTwo(s: System, cfg: Config, a: Step, b: Step)
    requires Typed(s) && cfg.iceCap > 0
    ensures Run(s, cfg, [a, b]) == Do(Do(s, cfg, a), cfg, b)
  {
    RunOne(Do(s, cfg, a), cfg, b);
    assert [a, b][1..] == [b];
  }

  lemma ReuseCreates(w: World)
    requires w.live == map[]
    ensures Create(w, SMALL, "a", "", DEVICE, NOON).0 == World(w.store + [BORN], map["a" := |w.store|])
  {
    TrimRightKeepsPrefix(DEVICE);
    assert Expire(w, SMALL, 1) == w;
  }

  lemma ReuseFinds(w: World, op: Op, threads: map<nat, Thread>, tid: nat)
    requires w == World([BORN], map["a" := 0]) && !op.Offer? && Precheck(op).None?
    requires ThreadOf(System(w, threads), tid).Idle?
    ensures var s := System(w, threads);
      Typed(s) ==> Run(s, SMALL, [Begin(tid, "a", op), Look(tid, 1)]) == System(w, threads[tid := Holding(0, op)])
  {
    var s := System(w, threads);
    if Typed(s) {
      assert Trim("a") == "a" by {
        assert SpaceAt("a") == 0 && SpaceBefore("a") == 0;
        assert TrimLeft("a") == "a";
      }
      assert Expire(w, SMALL, 1) == w;
      var s1 := System(w, threads[tid := Looking("a", op)]);
      assert Do(s, SMALL, Begin(tid, "a", op)) == s1;
      assert Do(s1, SMALL, Look(tid, 1)) == System(w, threads[tid := Holding(0, op)]);
      RunTwo(s, SMALL, Begin(tid, "a", op), Look(tid, 1));
    }
  }

  const TWO_HOLD := map[0 := Holding(0, Close), 1 := Holding(0, Fail(NO_REASON))]

  lemma ReuseBegins(rest: seq<Step>)
    ensures var s := System(World([BORN], map["a" := 0]), TWO_HOLD);
      Typed(s) && Run(EMPTY_SYSTEM, SMALL, OPEN + (CLOSING + (FAILING + rest))) == Run(s, SMALL, rest)
  {
    var w := World([BORN], map["a" := 0]);
    var closing := map[0 := Holding(0, Close)];
    ReuseCreates(EMPTY_WORLD);
    assert [] + [BORN] == [BORN];
    ReuseFinds(w, Close, map[], 0);
    ReuseFinds(w, Fail(NO_REASON), closing, 1);
    assert closing[1 := Holding(0, Fail(NO_REASON))] == TWO_HOLD;
    RunOne(EMPTY_SYSTEM, SMALL, OPEN[0]);
    RunChain(EMPTY_SYSTEM, SMALL, OPEN, System(w, map[]), CLOSING + (FAILING + rest));
    RunChain(System(w, map[]), SMALL, CLOSING, System(w, closing), FAILING + rest);
    RunChain(System(w, closing), SMALL, FAILING, System(w, TWO_HOLD), rest);
  }

  const DEAD := BORN.(state := Failed)
  const ONE_HOLDS := TWO_HOLD[1 := Idle]

  lemma ReuseFails(rest: seq<Step>)
    ensures var s, s' := System(World([BORN], map["a" := 0]), TWO_HOLD), System(World([DEAD], map[]), ONE_HOLDS);
      Typed(s) && Typed(s') && Run(s, SMALL, [Finish(1, 1)] + rest) == Run(s', SMALL, rest)
  {
    var w, w' := World([BORN], map["a" := 0]), World([DEAD], map[]);
    ReuseFinishes(w, w', TWO_HOLD, 1);
    RunOne(System(w, TWO_HOLD), SMALL, Finish(1, 1));
    RunChain(System(w, TWO_HOLD), SMALL, [Finish(1, 1)], System(w', ONE_HOLDS), rest);
  }

  lemma ReuseReopens(rest: seq<Step>)
    ensures var s, s' := System(World([DEAD], map[]), ONE_HOLDS), System(World([DEAD, BORN], map["a" := 1]), ONE_HOLDS);
      Typed(s) && Typed(s') && Run(s, SMALL, OPEN + rest) == Run(s', SMALL, rest)
  {
    var w, w' := World([DEAD], map[]), World([DEAD, BORN], map["a" := 1]);
    ReuseCreates(w);
    assert [DEAD] + [BORN] == [DEAD, BORN];
    RunOne(System(w, ONE_HOLDS), SMALL, OPEN[0]);
    RunChain(System(w, ONE_HOLDS), SMALL, OPEN, System(w', ONE_HOLDS), rest);
  }

  lemma ReuseCloses()
    ensures var s := System(World([DEAD, BORN], map["a" := 1]), ONE_HOLDS);
      Typed(s) && Run(s, SMALL, [Finish(0, 1)]).world == World([DEAD, BORN], map[])
  {
    var w := World([DEAD, BORN], map["a" := 1]);
    ReuseFinishes(w, World([DEAD, BORN], map[]), ONE_HOLDS, 0);
    RunOne(System(w, ONE_HOLDS), SMALL, Finish(0, 1));
  }

  lemma ReusedIdLosesSession()
    ensures Run(EMPTY_SYSTEM, SMALL, REUSE).world == World([DEAD, BORN], map[])
    ensures !MapIsLive(Run(EMPTY_SYSTEM, SMALL, REUSE).world)
  {
    ReuseBegins([Finish(1, 1)] + (OPEN + [Finish(0, 1)]));
    ReuseFails(OPEN + [Finish(0, 1)]);
    ReuseReopens([Finish(0, 1)]);
    ReuseCloses();
    assert InMap(World([DEAD, BORN], map[]), 1) <==> false;
  }

  // ICE candidates: each peer's list is a window on what was accepted from it.

  function Last<T>(xs: seq<T>, n: nat): seq<T> {
    if |xs| <= n then xs else xs[|xs| - n..]
  }

  lemma LastOfLast<T>(xs: seq<T>, ys: seq<T>, zs: seq<T>, n: nat)
    ensures Last(Last(xs + ys, n) + zs, n) == Last(xs + (ys + zs), n)
  {
    assert xs + ys + zs == xs + (ys + zs);
    if |xs + ys| > n {
      assert Last(xs + ys, n) == (xs + ys)[|xs + ys| - n..];
      assert Last(xs + ys, n) + zs == (xs + ys + zs)[|xs + ys| - n..];
    }
  }

  function AcceptedNow(s: System, step: Step, slot: nat, peer: string): seq<Candidate>
    requires Typed(s)
  {
    if step.Finish? then
      match ThreadOf(s, step.tid)
      case Holding(h, Ice(p, c)) =>
        if h == slot && p == peer && !Terminal(s.world.store[h].state) then [c] else []
      case _ => []
    else []
  }

  /** The candidates accepted from `peer` for one session, in the order of the run. */
  function Accepted(s: System, cfg: Config, steps: seq<Step>, slot: nat, peer: string): seq<Candidate>
    requires Typed(s) && cfg.iceCap > 0
    decreases |steps|
  {
    if steps == [] then []
    else AcceptedNow(s, steps[0], slot, peer) + Accepted(Do(s, cfg, steps[0]), cfg, steps[1..], slot, peer)
  }

  function Stored(w: World, slot: nat, peer: string): seq<Candidate> {
    if slot < |w.store| then CandidatesOf(w.store[slot], peer) else []
  }

  lemma StepSlidesWindow(s: System, cfg: Config, step: Step, slot: nat, peer: string)
    requires Typed(s) && cfg.iceCap > 0 && |Stored(s.world, slot, peer)| <= cfg.iceCap
    ensures Stored(Do(s, cfg, step).world, slot, peer)
         == Last(Stored(s.world, slot, peer) + AcceptedNow(s, step, slot, peer), cfg.iceCap)
  {
    if step.Finish? {
      ApplySlidesWindow(s, cfg, step.tid, step.now, slot, peer);
    } else {
      OthersKeepStored(s, cfg, step, slot, peer);
      hide Do, Stored;
      assert Stored(s.world, slot, peer) + [] == Stored(s.world, slot, peer);
    }
  }

  lemma OthersKeepStored(s: System, cfg: Config, step: Step, slot: nat, peer: string)
    requires Typed(s) && cfg.iceCap > 0 && !step.Finish?
    ensures Stored(Do(s, cfg, step).world, slot, peer) == Stored(s.world, slot, peer)
  {
    hide Blank, HashShape, Precheck, Redirect;
  }

  lemma ApplySlidesWindow(s: System, cfg: Config, tid: nat, now: int, slot: nat, peer: string)
    requires Typed(s) && cfg.iceCap > 0 && |Stored(s.world, slot, peer)| <= cfg.iceCap
    ensures Stored(Do(s, cfg, Finish(tid, now)).world, slot, peer)
         == Last(Stored(s.world, slot, peer) + AcceptedNow(s, Finish(tid, now), slot, peer), cfg.iceCap)
  {
    var before := Stored(s.world, slot, peer);
    assert before + [] == before;
    match ThreadOf(s, tid)
    case Holding(h, Ice(p, c)) =>
      if h == slot && p == peer && !Terminal(s.world.store[h].state) {
        assert Slide(before, c, cfg.iceCap) == Last(before + [c], cfg.iceCap);
      }
    case _ =>
  }

  lemma {:induction false} IceWindow(s: System, cfg: Config, steps: seq<Step>, slot: nat, peer: string)
    requires Typed(s) && cfg.iceCap > 0 && |Stored(s.world, slot, peer)| <= cfg.iceCap
    ensures Stored(Run(s, cfg, steps).world, slot, peer)
         == Last(Stored(s.world, slot, peer) + Accepted(s, cfg, steps, slot, peer), cfg.iceCap)
    decreases |steps|
  {
    var before := Stored(s.world, slot, peer);
    if steps == [] {
      assert before + [] == before;
    } else {
      var s1 := Do(s, cfg, steps[0]);
      StepSlidesWindow(s, cfg, steps[0], slot, peer);
      IceWindow(s1, cfg, steps[1..], slot, peer);
      LastOfLast(before, AcceptedNow(s, steps[0], slot, peer), Accepted(s1, cfg, steps[1..], slot, peer), cfg.iceCap);
    }
  }

  /** From the empty manager: the last `iceCap` candidates accepted from that peer, in order. */
  lemma IceWindowFromEmpty(cfg: Config, steps: seq<Step>, slot: nat, peer: string)
    requires cfg.iceCap > 0
    ensures Stored(Run(EMPTY_SYSTEM, cfg, steps).world, slot, peer)
         == Last(Accepted(EMPTY_SYSTEM, cfg, steps, slot, peer), cfg.iceCap)
  {
    IceWindow(EMPTY_SYSTEM, cfg, steps, slot, peer);
    assert [] + Accepted(EMPTY_SYSTEM, cfg, steps, slot, peer) == Accepted(EMPTY_SYSTEM, cfg, steps, slot, peer);
  }
}

/**
 The same callers with their locks. Ending a session takes two steps: the state changes under the
 session's lock, and only then, with that lock still held, is the session deleted from the map under
 the map's lock. Whoever walks the map has to wait for the lock of every session in it; lookups and
 creations all do, since a manager's TTL is positive. These runs are shown to be runs of the step
 system in which both happen at once.
 */
module SessionLocks {
  import opened Envelope
  import opened Sessions
  import opened SessionInvariants
  import opened SessionRuns

  /** A caller between the two steps still holds the lock of its session. */
  datatype Caller = Free(thread: Thread) | Dropping(slot: nat)

  datatype Locks = Locks(world: World, callers: map<nat, Caller>)

  const EMPTY_LOCKS := Locks(EMPTY_WORLD, map[])

  datatype Move = Take(step: Step) | Drop(tid: nat)

  predicate Fitting(f: Locks) {
    && WellFormed(f.world)
    && (forall tid | tid in f.callers && f.callers[tid].Dropping? :: f.callers[tid].slot < |f.world.store|)
    && (forall tid | tid in f.callers && f.callers[tid].Free? && f.callers[tid].thread.Holding? ::
          f.callers[tid].thread.slot < |f.world.store|)
  }

  function CallerOf(f: Locks, tid: nat): Caller {
    if tid in f.callers then f.callers[tid] else Free(Idle)
  }

  predicate Locked(f: Locks, slot: nat) {
    exists tid | tid in f.callers :: f.callers[tid] == Dropping(slot)
  }

  /** No session in the map is locked, so the map can be walked. */
  predicate Walkable(f: Locks) {
    forall id | id in f.world.live :: !Locked(f, f.world.live[id])
  }

  /** A step that is not enabled waits. */
  predicate Enabled(f: Locks, step: Step) {
    match step
    case CreateStep(_, _, _, _) => Walkable(f)
    case ExpireStep(_) => Walkable(f)
    case Begin(tid, _, _) => CallerOf(f, tid).Free?
    case Look(tid, _) =>
      && CallerOf(f, tid).Free? && CallerOf(f, tid).thread.Looking?
      && (Walkable(f) || Blank(CallerOf(f, tid).thread.id))
    case Finish(tid, _) =>
      && CallerOf(f, tid).Free? && CallerOf(f, tid).thread.Holding?
      && !Locked(f, CallerOf(f, tid).thread.slot)
  }

  function ThreadFor(c: Caller): Thread {
    match c
    case Free(th) => th
    case Dropping(_) => Idle
  }

  function Threads(f: Locks): map<nat, Thread> {
    map tid | tid in f.callers :: ThreadFor(f.callers[tid])
  }

  /** Callers that are not dropping a session take their state from `threads`. */
  function Callers(f: Locks, threads: map<nat, Thread>): map<nat, Caller> {
    map tid | tid in threads :: if CallerOf(f, tid).Dropping? then CallerOf(f, tid) else Free(threads[tid])
  }

  function Advance(f: Locks, cfg: Config, move: Move): (f': Locks)
    requires Fitting(f) && cfg.iceCap > 0
    ensures Fitting(f')
  {
    match move
    case Drop(tid) =>
      var c := CallerOf(f, tid);
      if c.Free? then f
      else Locks(World(f.world.store, f.world.live - {f.world.store[c.slot].id}), f.callers[tid := Free(Idle)])
    case Take(step) =>
      if !Enabled(f, step) then f
      else if step.Finish? then
        var th := CallerOf(f, step.tid).thread;
        var e := Act(f.world.store[th.slot], cfg.iceCap, th.op, step.now);
        assert e.record.id == f.world.store[th.slot].id;
        Locks(World(f.world.store[th.slot := e.record], f.world.live),
              f.callers[step.tid := if e.drop then Dropping(th.slot) else Free(Idle)])
      else
        var s := Do(System(f.world, Threads(f)), cfg, step);
        Locks(s.world, Callers(f, s.threads))
  }

  // What the locks hide.

  function Leaving(f: Locks): set<string>
    requires Fitting(f)
  {
    set tid | tid in f.callers && f.callers[tid].Dropping? :: f.world.store[f.callers[tid].slot].id
  }

  /** The state in which sessions about to be deleted are deleted already. */
  function Settled(f: Locks): (s: System)
    requires Fitting(f)
    ensures Typed(s)
  {
    System(World(f.world.store, f.world.live - Leaving(f)), Threads(f))
  }

  lemma LeavingIsLocked(f: Locks, id: string)
    requires Fitting(f) && DistinctIds(f.world) && Walkable(f)
    ensures id in f.world.live ==> id !in Leaving(f)
  {
  }

  lemma WalkableIsSettled(f: Locks)
    requires Fitting(f) && DistinctIds(f.world) && Walkable(f)
    ensures Settled(f) == System(f.world, Threads(f))
  {
    forall id | id in f.world.live ensures id !in Leaving(f) {
      LeavingIsLocked(f, id);
    }
    assert f.world.live - Leaving(f) == f.world.live;
  }

  /** What an observer of settled states sees of a move: nothing of a deletion, and nothing of a caller that waits. */
  function Shown(f: Locks, move: Move): seq<Step> {
    if move.Take? && Enabled(f, move.step) then [move.step] else []
  }

  lemma DropIsHidden(f: Locks, cfg: Config, tid: nat)
    requires Fitting(f) && cfg.iceCap > 0
    ensures Settled(Advance(f, cfg, Drop(tid))) == Settled(f)
  {
    var c := CallerOf(f, tid);
    if c.Dropping? {
      var f' := Advance(f, cfg, Drop(tid));
      var id := f.world.store[c.slot].id;
      assert f.callers[tid].Dropping? && id in Leaving(f);
      forall x ensures x in Leaving(f) <==> x in Leaving(f') || x == id {
        if x in Leaving(f) && x != id {
          var t :| t in f.callers && f.callers[t].Dropping? && f.world.store[f.callers[t].slot].id == x;
          assert t in f'.callers && f'.callers[t] == f.callers[t];
        }
        if x in Leaving(f') {
          var t :| t in f'.callers && f'.callers[t].Dropping? && f'.world.store[f'.callers[t].slot].id == x;
          assert t in f.callers && f.callers[t] == f'.callers[t];
        }
      }
      assert f'.world.live - Leaving(f') == f.world.live - Leaving(f);
      assert Threads(f') == Threads(f);
    }
  }

  lemma ActKeepsId(r: Record, iceCap: nat, op: Op, now: int)
    requires iceCap > 0
    ensures Act(r, iceCap, op, now).record.id == r.id
  {
  }

  /** A caller that ends its session is about to delete it. */
  lemma EndingIsLeaving(f: Locks, f': Locks, tid: nat, slot: nat, drop: bool, x: string)
    requires Fitting(f) && Fitting(f') && slot < |f.world.store| == |f'.world.store|
    requires forall i | 0 <= i < |f.world.store| :: f'.world.store[i].id == f.world.store[i].id
    requires CallerOf(f, tid).Free?
    requires f'.callers == f.callers[tid := if drop then Dropping(slot) else Free(Idle)]
    ensures x in Leaving(f') <==> x in Leaving(f) || (drop && x == f.world.store[slot].id)
  {
    hide WellFormed;
    if x in Leaving(f) {
      var t :| t in f.callers && f.callers[t].Dropping? && f.world.store[f.callers[t].slot].id == x;
      assert t in f'.callers && f'.callers[t] == f.callers[t];
    }
    if x in Leaving(f') {
      var t :| t in f'.callers && f'.callers[t].Dropping? && f'.world.store[f'.callers[t].slot].id == x;
      assert t != tid ==> t in f.callers && f.callers[t] == f'.callers[t];
    }
    if drop && x == f.world.store[slot].id {
      assert f'.callers[tid] == Dropping(slot);
    }
  }

  lemma FinishIsShown(f: Locks, cfg: Config, tid: nat, now: int)
    requires Fitting(f) && cfg.iceCap > 0 && Enabled(f, Finish(tid, now))
    ensures Settled(Advance(f, cfg, Take(Finish(tid, now)))) == Do(Settled(f), cfg, Finish(tid, now))
  {
    var th := CallerOf(f, tid).thread;
    ActKeepsId(f.world.store[th.slot], cfg.iceCap, th.op, now);
    hide Act;
    var f' := Advance(f, cfg, Take(Finish(tid, now)));
    var e := Act(f.world.store[th.slot], cfg.iceCap, th.op, now);
    var id := f.world.store[th.slot].id;
    forall x ensures x in Leaving(f') <==> x in Leaving(f) || (e.drop && x == id) {
      EndingIsLeaving(f, f', tid, th.slot, e.drop, x);
    }
    hide Leaving;
    assert f'.world.live - Leaving(f') ==
      if e.drop then (f.world.live - Leaving(f)) - {id} else f.world.live - Leaving(f);
    assert Threads(f') == Threads(f)[tid := Idle];
  }

  lemma DoKeepsIds(s: System, cfg: Config, step: Step, i: nat)
    requires Typed(s) && cfg.iceCap > 0 && !step.Finish? && i < |s.world.store|
    ensures Do(s, cfg, step).world.store[i].id == s.world.store[i].id
  {
    match step
    case CreateStep(_, _, _, t) => ExpireAt(s.world, cfg, t.mint, i);
    case Look(_, now) => ExpireAt(s.world, cfg, now, i);
    case ExpireStep(now) => ExpireAt(s.world, cfg, now, i);
    case _ =>
  }

  lemma DoKeepsThreads(f: Locks, cfg: Config, step: Step)
    requires Fitting(f) && cfg.iceCap > 0 && Enabled(f, step) && !step.Finish?
    ensures var threads := Do(System(f.world, Threads(f)), cfg, step).threads;
      && f.callers.Keys <= threads.Keys
      && forall tid | tid in f.callers && f.callers[tid].Dropping? :: threads[tid] == Idle
  {
    hide Create, Lookup, Expire;
  }

  lemma CallersKeepLeaving(f: Locks, s: System)
    requires Fitting(f) && |f.world.store| <= |s.world.store|
    requires forall i | 0 <= i < |f.world.store| :: s.world.store[i].id == f.world.store[i].id
    requires f.callers.Keys <= s.threads.Keys
    requires forall tid | tid in f.callers && f.callers[tid].Dropping? :: s.threads[tid] == Idle
    requires Fitting(Locks(s.world, Callers(f, s.threads)))
    ensures var f' := Locks(s.world, Callers(f, s.threads));
      Leaving(f') == Leaving(f) && Threads(f') == s.threads
  {
    hide WellFormed;
    var f' := Locks(s.world, Callers(f, s.threads));
    assert forall tid ::
      tid in f.callers && f.callers[tid].Dropping? <==> tid in f'.callers && f'.callers[tid].Dropping?;
    forall x ensures x in Leaving(f') <==> x in Leaving(f) {
      if x in Leaving(f) {
        var t :| t in f.callers && f.callers[t].Dropping? && f.world.store[f.callers[t].slot].id == x;
        assert f'.callers[t] == f.callers[t];
      }
    }
  }

  /** Steps other than an action on a session leave those about to be deleted as they are. */
  lemma OthersKeepLeaving(f: Locks, cfg: Config, step: Step)
    requires Fitting(f) && cfg.iceCap > 0 && Enabled(f, step) && !step.Finish?
    ensures var f' := Advance(f, cfg, Take(step));
      Leaving(f') == Leaving(f) && Threads(f') == Do(System(f.world, Threads(f)), cfg, step).threads
  {
    assert Typed(System(f.world, Threads(f)));
    hide Do, Enabled, Leaving, Callers, Threads;
    var s := Do(System(f.world, Threads(f)), cfg, step);
    DoKeepsThreads(f, cfg, step);
    forall i | 0 <= i < |f.world.store| ensures s.world.store[i].id == f.world.store[i].id {
      DoKeepsIds(System(f.world, Threads(f)), cfg, step, i);
    }
    assert Advance(f, cfg, Take(step)) == Locks(s.world, Callers(f, s.threads));
    CallersKeepLeaving(f, s);
  }

  /** The ids a map may hold after such a step: those it held and that of a session created. */
  lemma OthersAddOnlyNew(s: System, cfg: Config, step: Step, id: string)
    requires Typed(s) && cfg.iceCap > 0 && !step.Finish? && id in Do(s, cfg, step).world.live
    ensures id in s.world.live || (Creates(s, cfg, step) && id == if step.id == "" then step.minted else step.id)
  {
  }

  lemma LeavingIsOld(f: Locks, cfg: Config, step: Step, id: string)
    requires Fitting(f) && cfg.iceCap > 0 && Creates(Settled(f), cfg, step) && FreshIds(Settled(f), cfg, [step])
    requires id in Leaving(f)
    ensures id != if step.id == "" then step.minted else step.id
  {
    var tid :| tid in f.callers && f.callers[tid].Dropping? && f.world.store[f.callers[tid].slot].id == id;
    assert Settled(f).world.store[f.callers[tid].slot].id == id;
  }

  lemma WalkingIsShown(f: Locks, cfg: Config, step: Step)
    requires Fitting(f) && cfg.iceCap > 0 && Enabled(f, step) && !step.Finish?
    requires DistinctIds(f.world) && Walkable(f) && FreshIds(Settled(f), cfg, [step])
    ensures Settled(Advance(f, cfg, Take(step))) == Do(Settled(f), cfg, step)
  {
    var f' := Advance(f, cfg, Take(step));
    WalkableIsSettled(f);
    OthersKeepLeaving(f, cfg, step);
    hide Do, Creates;
    forall id | id in f'.world.live ensures id !in Leaving(f') {
      OthersAddOnlyNew(System(f.world, Threads(f)), cfg, step, id);
      LeavingIsLocked(f, id);
      if Creates(Settled(f), cfg, step) && id in Leaving(f) {
        LeavingIsOld(f, cfg, step, id);
      }
    }
    assert f'.world.live - Leaving(f') == f'.world.live;
  }

  /** Steps that do not walk the map. */
  lemma OthersAreShown(f: Locks, cfg: Config, step: Step)
    requires Fitting(f) && cfg.iceCap > 0 && Enabled(f, step)
    requires step.Begin? || (step.Look? && Blank(CallerOf(f, step.tid).thread.id))
    ensures Settled(Advance(f, cfg, Take(step))) == Do(Settled(f), cfg, step)
  {
    OthersKeepLeaving(f, cfg, step);
    hide Blank;
  }

  lemma MoveIsShown(f: Locks, cfg: Config, move: Move)
    requires Fitting(f) && cfg.iceCap > 0 && DistinctIds(f.world)
    requires FreshIds(Settled(f), cfg, Shown(f, move))
    ensures Settled(Advance(f, cfg, move)) == Run(Settled(f), cfg, Shown(f, move))
  {
    if move.Drop? {
      DropIsHidden(f, cfg, move.tid);
    } else if Enabled(f, move.step) {
      RunOne(Settled(f), cfg, move.step);
      if move.step.Finish? {
        FinishIsShown(f, cfg, move.step.tid, move.step.now);
      } else if Walkable(f) {
        WalkingIsShown(f, cfg, move.step);
      } else {
        OthersAreShown(f, cfg, move.step);
      }
    }
  }

  // Runs.

  function Play(f: Locks, cfg: Config, moves: seq<Move>): (f': Locks)
    requires Fitting(f) && cfg.iceCap > 0
    ensures Fitting(f')
    decreases |moves|
  {
    if moves == [] then f else Play(Advance(f, cfg, moves[0]), cfg, moves[1..])
  }

  function AllShown(f: Locks, cfg: Config, moves: seq<Move>): seq<Step>
    requires Fitting(f) && cfg.iceCap > 0
    decreases |moves|
  {
    if moves == [] then [] else Shown(f, moves[0]) + AllShown(Advance(f, cfg, moves[0]), cfg, moves[1..])
  }

  /** Every run with locks is, to an observer of settled states, a run in which calls act and delete at once. */
  lemma {:induction false} LocksMakeStepsAtomic(f: Locks, cfg: Config, moves: seq<Move>)
    requires Fitting(f) && cfg.iceCap > 0 && Good(Settled(f), cfg.iceCap) && DistinctIds(f.world)
    requires FreshIds(Settled(f), cfg, AllShown(f, cfg, moves))
    ensures Settled(Play(f, cfg, moves)) == Run(Settled(f), cfg, AllShown(f, cfg, moves))
    decreases |moves|
  {
    hide Advance, Settled, Good, DistinctIds, Shown, Fitting, FreshIds;
    if moves != [] {
      var f1 := Advance(f, cfg, moves[0]);
      var a, b := Shown(f, moves[0]), AllShown(f1, cfg, moves[1..]);
      RunSplits(Settled(f), cfg, a, b);
      MoveIsShown(f, cfg, moves[0]);
      SettledWorld(f);
      SettledWorld(f1);
      StaleHandlesAreHarmless(Settled(f), cfg, a);
      LocksMakeStepsAtomic(f1, cfg, moves[1..]);
    }
  }

  lemma SettledWorld(f: Locks)
    requires Fitting(f)
    ensures DistinctIds(Settled(f).world) <==> DistinctIds(f.world)
    ensures Settled(f).world.store == f.world.store
  {
  }

  /** Sessions that have ended and are still in the map. */
  ghost function Lingering(w: World): set<nat> {
    set i: nat | i < |w.store| && InMap(w, i) && Terminal(w.store[i].state)
  }

  lemma OnlyLockedLinger(f: Locks, iceCap: nat, i: nat)
    requires Fitting(f) && Good(Settled(f), iceCap) && DistinctIds(f.world) && i < |f.world.store|
    ensures if Terminal(f.world.store[i].state) then InMap(f.world, i) ==> Locked(f, i) else InMap(f.world, i)
  {
    var s := Settled(f);
    assert InMap(s.world, i) <==> !Terminal(s.world.store[i].state);
    var id := f.world.store[i].id;
    if InMap(f.world, i) && id in Leaving(f) {
      var tid :| tid in f.callers && f.callers[tid].Dropping? && f.world.store[f.callers[tid].slot].id == id;
      assert f.callers[tid] == Dropping(i);
    }
  }

  lemma CountSeesLingering(w: World)
    requires WellFormed(w)
    requires forall i | 0 <= i < |w.store| && !Terminal(w.store[i].state) :: InMap(w, i)
    ensures Count(w) == |LiveSlots(w.store)| + |Lingering(w)|
  {
    forall i | i in LiveSlots(w.store) + Lingering(w) ensures i in w.live.Values {
      assert InMap(w, i);
    }
    forall i | i in w.live.Values ensures i in LiveSlots(w.store) + Lingering(w) {
      var id :| id in w.live && w.live[id] == i;
      assert InMap(w, i);
    }
    assert w.live.Values == LiveSlots(w.store) + Lingering(w);
    assert LiveSlots(w.store) !! Lingering(w);
    InjectiveMapSize(w.live);
  }

  /**
   At any point of a run from the empty manager: a session that has not ended is in the map; one that
   has ended is there only while the caller that ended it holds its lock, on the way to deleting it;
   and `Count`, which waits for no session's lock, is too high by just those.
   */
  lemma LockedRunsAreSound(cfg: Config, moves: seq<Move>)
    requires cfg.iceCap > 0 && FreshIds(EMPTY_SYSTEM, cfg, AllShown(EMPTY_LOCKS, cfg, moves))
    ensures var f := Play(EMPTY_LOCKS, cfg, moves);
      && (forall i | 0 <= i < |f.world.store| ::
            && Coherent(f.world.store[i])
            && if Terminal(f.world.store[i].state) then InMap(f.world, i) ==> Locked(f, i) else InMap(f.world, i))
      && Count(f.world) == |LiveSlots(f.world.store)| + |Lingering(f.world)|
      && (Walkable(f) ==> MapIsLive(f.world))
  {
    var f := Play(EMPTY_LOCKS, cfg, moves);
    var shown := AllShown(EMPTY_LOCKS, cfg, moves);
    assert Settled(EMPTY_LOCKS) == EMPTY_SYSTEM by {
      assert Threads(EMPTY_LOCKS) == map[];
    }
    LocksMakeStepsAtomic(EMPTY_LOCKS, cfg, moves);
    StaleHandlesAreHarmless(EMPTY_SYSTEM, cfg, shown);
    SettledWorld(f);
    hide Play, AllShown, Settled;
    forall i | 0 <= i < |f.world.store|
      ensures if Terminal(f.world.store[i].state) then InMap(f.world, i) ==> Locked(f, i) else InMap(f.world, i)
    {
      OnlyLockedLinger(f, cfg.iceCap, i);
    }
    CountSeesLingering(f.world);
    if Walkable(f) {
      WalkableIsSettled(f);
    }
  }

  /** So whatever a lookup returns has not ended. */
  lemma LookupFindsLive(f: Locks, cfg: Config, id: string, now: int)
    requires Fitting(f) && Good(Settled(f), cfg.iceCap) && DistinctIds(f.world) && Walkable(f)
    ensures var (e, found) := Lookup(f.world, cfg, id, now);
      found.Success? ==> !Terminal(e.store[found.value].state)
  {
    WalkableIsSettled(f);
    ExpireIsSound(f.world, cfg, now);
    var (e, found) := Lookup(f.world, cfg, id, now);
    assert found.Success? ==> InMap(e, found.value);
  }
}

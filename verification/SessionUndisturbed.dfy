/**
 With no one else about, a walk of the map and an action on a session come to what they are as single steps:
 so whatever callers can do in single steps, they can do lock by lock and part by part.
 */
module SessionUndisturbed {
  import opened Wrappers
  import opened Envelope
  import opened Sessions
  import opened SessionActs
  import opened SessionRuns
  import opened SessionWalks
  import opened SessionWalkRuns
  import opened SessionRaces
  import SessionLocks
  import SessionManager

  // An action.

  /** The base moment with the session and its caller replaced. */
  predicate Stands(s: Moment, slot: nat, r: Record, tid: nat, c: Caller) {
    && Fits(s) && slot < |s.world.store| && OnlyHolder(s.callers, tid, slot) && CallerOf(s, tid).Free?
    && r.id == s.world.store[slot].id
    && if c.Free? then !c.thread.Holding? else c.slot == slot
  }

  lemma StandsFits(s: Moment, slot: nat, r: Record, tid: nat, c: Caller)
    requires Stands(s, slot, r, tid, c)
    ensures Fits(SetSession(s, slot, r, tid, c))
  {
    HolderFits(s, tid, slot, r, c);
  }

  /** What a part of an action does, and that it is passed over where it does not apply. */
  function FillPart(r: Record, c: Caller, iceCap: nat): (Record, Caller)
    requires iceCap > 0
  {
    if c.Acting? && c.next == ToFill then (Fill(r, iceCap, c.op), AfterFill(c)) else (r, c)
  }

  function ReadPart(r: Record, c: Caller): (Record, Caller) {
    (r, if c.Acting? && c.next == ToRead then AfterRead(c, r) else c)
  }

  function SetPart(r: Record, c: Caller): (Record, Caller) {
    if c.Acting? && c.next == ToSet then (SetState(r, Goal(c.was.offerer, c.op)), c.(next := ToStamp)) else (r, c)
  }

  function StampPart(r: Record, c: Caller, now: int): (Record, Caller) {
    if c.Acting? && c.next == ToStamp then (r.(updatedAt := now), Done(c)) else (r, c)
  }

  lemma FillStands(s: Moment, cfg: Config, slot: nat, r: Record, tid: nat, c: Caller)
    requires cfg.iceCap > 0 && Stands(s, slot, r, tid, c)
    ensures var (r', c') := FillPart(r, c, cfg.iceCap);
      && Stands(s, slot, r', tid, c') && Fits(SetSession(s, slot, r, tid, c))
      && AfterTurn(SetSession(s, slot, r, tid, c), cfg, DoFill(tid)) == SetSession(s, slot, r', tid, c')
  {
    StandsFits(s, slot, r, tid, c);
    hide Fits, OnlyHolder;
  }

  lemma ReadStands(s: Moment, cfg: Config, slot: nat, r: Record, tid: nat, c: Caller)
    requires cfg.iceCap > 0 && Stands(s, slot, r, tid, c)
    ensures var (r', c') := ReadPart(r, c);
      && Stands(s, slot, r', tid, c') && Fits(SetSession(s, slot, r, tid, c))
      && AfterTurn(SetSession(s, slot, r, tid, c), cfg, DoRead(tid)) == SetSession(s, slot, r', tid, c')
  {
    StandsFits(s, slot, r, tid, c);
    hide Fits, OnlyHolder;
  }

  lemma SetStands(s: Moment, cfg: Config, slot: nat, r: Record, tid: nat, c: Caller)
    requires cfg.iceCap > 0 && Stands(s, slot, r, tid, c)
    ensures var (r', c') := SetPart(r, c);
      && Stands(s, slot, r', tid, c') && Fits(SetSession(s, slot, r, tid, c))
      && AfterTurn(SetSession(s, slot, r, tid, c), cfg, DoSet(tid)) == SetSession(s, slot, r', tid, c')
  {
    StandsFits(s, slot, r, tid, c);
    hide Fits, OnlyHolder;
  }

  lemma StampStands(s: Moment, cfg: Config, slot: nat, r: Record, tid: nat, c: Caller, now: int)
    requires cfg.iceCap > 0 && Stands(s, slot, r, tid, c)
    ensures var (r', c') := StampPart(r, c, now);
      && Stands(s, slot, r', tid, c') && Fits(SetSession(s, slot, r, tid, c))
      && AfterTurn(SetSession(s, slot, r, tid, c), cfg, DoStamp(tid, now)) == SetSession(s, slot, r', tid, c')
  {
    StandsFits(s, slot, r, tid, c);
    hide Fits, OnlyHolder;
  }

  function ActionTurns(tid: nat, now: int): seq<Turn> {
    [DoTest(tid)] + ([DoFill(tid)] + ([DoRead(tid)] + ([DoSet(tid)] + ([DoStamp(tid, now)] + []))))
  }

  function Parts(r: Record, c: Caller, iceCap: nat, now: int): (Record, Caller)
    requires iceCap > 0
  {
    var (r1, c1) := FillPart(r, c, iceCap);
    var (r2, c2) := ReadPart(r1, c1);
    var (r3, c3) := SetPart(r2, c2);
    StampPart(r3, c3, now)
  }

  lemma PartsAreInTurns(r: Record, slot: nat, op: Op, iceCap: nat, now: int)
    requires iceCap > 0
    ensures Parts(r, AfterTest(Holding(slot, op), r), iceCap, now) ==
      (Act(r, iceCap, op, now).record, if Act(r, iceCap, op, now).drop then Dropping(slot) else Free(Idle))
  {
    InTurnsIsAct(r, iceCap, op, now);
    hide Act;
  }

  lemma PartsRun(s: Moment, cfg: Config, slot: nat, r: Record, tid: nat, c: Caller, now: int)
    requires cfg.iceCap > 0 && Stands(s, slot, r, tid, c)
    ensures Fits(SetSession(s, slot, r, tid, c))
    ensures RunTurns(SetSession(s, slot, r, tid, c), cfg,
              [DoFill(tid)] + ([DoRead(tid)] + ([DoSet(tid)] + ([DoStamp(tid, now)] + [])))) ==
            SetSession(s, slot, Parts(r, c, cfg.iceCap, now).0, tid, Parts(r, c, cfg.iceCap, now).1)
  {
    assert slot < |s.world.store|;
    hide AfterTurn, Fits, Stands, SetSession, FillPart, ReadPart, SetPart, StampPart;
    var (r1, c1) := FillPart(r, c, cfg.iceCap);
    var (r2, c2) := ReadPart(r1, c1);
    var (r3, c3) := SetPart(r2, c2);
    FillStands(s, cfg, slot, r, tid, c);
    ReadStands(s, cfg, slot, r1, tid, c1);
    SetStands(s, cfg, slot, r2, tid, c2);
    StampStands(s, cfg, slot, r3, tid, c3, now);
    var t := [DoStamp(tid, now)] + [];
    RunCons(SetSession(s, slot, r, tid, c), cfg, DoFill(tid), [DoRead(tid)] + ([DoSet(tid)] + t));
    RunCons(SetSession(s, slot, r1, tid, c1), cfg, DoRead(tid), [DoSet(tid)] + t);
    RunCons(SetSession(s, slot, r2, tid, c2), cfg, DoSet(tid), t);
    RunCons(SetSession(s, slot, r3, tid, c3), cfg, DoStamp(tid, now), []);
  }

  /** Undisturbed, the parts of an action make of the session and its caller what the action as one step does. */
  lemma ActsLikeOneStep(s: Moment, cfg: Config, tid: nat, now: int)
    requires Fits(s) && cfg.iceCap > 0 && Can(s, DoTest(tid))
    ensures var th := ThreadAt(s, tid);
      var e := Act(s.world.store[th.slot], cfg.iceCap, th.op, now);
      RunTurns(s, cfg, ActionTurns(tid, now)) ==
        SetSession(s, th.slot, e.record, tid, if e.drop then Dropping(th.slot) else Free(Idle))
  {
    var th := ThreadAt(s, tid);
    var r := s.world.store[th.slot];
    var c := AfterTest(th, r);
    NotLockedIsOnly(s.callers, tid, th.slot);
    assert s.world.store[th.slot := r] == s.world.store;
    assert AfterTurn(s, cfg, DoTest(tid)) == SetSession(s, th.slot, r, tid, c);
    assert Stands(s, th.slot, r, tid, c);
    hide AfterTurn, Fits, Stands, SetSession, AfterTest, Parts, Can;
    PartsRun(s, cfg, th.slot, r, tid, c, now);
    PartsAreInTurns(r, th.slot, th.op, cfg.iceCap, now);
    RunCons(s, cfg, DoTest(tid), [DoFill(tid)] + ([DoRead(tid)] + ([DoSet(tid)] + ([DoStamp(tid, now)] + []))));
  }

  // A walk.

  /** No walk is on, and no one has a lock. */
  predicate Calm(s: Moment) {
    Fits(s) && s.walk.None? && forall tid | tid in s.callers :: s.callers[tid].Free?
  }

  function Walking(s: Moment, w: World, purpose: Purpose, now: int, todo: set<string>, marked: Option<string>): Moment {
    Moment(w, s.callers, Some(Walk(purpose, now, todo, marked)))
  }

  /** The world with all but `todo` visited. */
  function Visited(w: World, cfg: Config, now: int, todo: set<string>): World
    requires WellFormed(w)
  {
    ExpireOnly(w, cfg.ttl, now, w.live.Keys - todo)
  }

  lemma VisitFits(s: Moment, cfg: Config, purpose: Purpose, now: int, todo: set<string>)
    requires Calm(s) && todo <= s.world.live.Keys
    ensures Fits(Walking(s, Visited(s.world, cfg, now, todo), purpose, now, todo, None))
  {
    var e := Visited(s.world, cfg, now, todo);
    assert forall id | id in todo :: id in e.live;
  }

  /** One more id is visited: checked, and if it is stale closed. */
  lemma VisitOne(s: Moment, cfg: Config, purpose: Purpose, now: int, todo: set<string>, id: string)
      returns (turns: seq<Turn>)
    requires Calm(s) && cfg.iceCap > 0 && todo <= s.world.live.Keys && id in todo
    ensures Fits(Walking(s, Visited(s.world, cfg, now, todo), purpose, now, todo, None))
    ensures RunTurns(Walking(s, Visited(s.world, cfg, now, todo), purpose, now, todo, None), cfg, turns) ==
            Walking(s, Visited(s.world, cfg, now, todo - {id}), purpose, now, todo - {id}, None)
  {
    var e := Visited(s.world, cfg, now, todo);
    var m := Walking(s, e, purpose, now, todo, None);
    VisitFits(s, cfg, purpose, now, todo);
    SessionManager.ExpireNext(s.world, cfg.ttl, now, todo, id);
    assert !Locked(s.callers, e.live[id]);
    hide ExpireOnly;
    var m' := AfterTurn(m, cfg, DoCheck(id));
    RunCons(m, cfg, DoCheck(id), []);
    if Doomed(s.world.store[s.world.live[id]], cfg.ttl, now) {
      assert m' == Walking(s, e, purpose, now, todo, Some(id));
      RunCons(m, cfg, DoCheck(id), [DoForce] + []);
      RunCons(m', cfg, DoForce, []);
      turns := [DoCheck(id)] + ([DoForce] + []);
    } else {
      turns := [DoCheck(id)] + [];
    }
  }

  lemma {:induction false} VisitAll(s: Moment, cfg: Config, purpose: Purpose, now: int, todo: set<string>)
      returns (turns: seq<Turn>)
    requires Calm(s) && cfg.iceCap > 0 && todo <= s.world.live.Keys
    ensures Fits(Walking(s, Visited(s.world, cfg, now, todo), purpose, now, todo, None))
    ensures RunTurns(Walking(s, Visited(s.world, cfg, now, todo), purpose, now, todo, None), cfg, turns) ==
            Walking(s, Visited(s.world, cfg, now, {}), purpose, now, {}, None)
    decreases |todo|
  {
    VisitFits(s, cfg, purpose, now, todo);
    if todo == {} {
      turns := [];
    } else {
      var id :| id in todo;
      assert |todo - {id}| < |todo|;
      var first := VisitOne(s, cfg, purpose, now, todo, id);
      var rest := VisitAll(s, cfg, purpose, now, todo - {id});
      turns := first + rest;
      RunAppend(Walking(s, Visited(s.world, cfg, now, todo), purpose, now, todo, None), cfg, first, rest);
    }
  }

  /** Undisturbed, a walk does what an expiry pass does. */
  lemma WalksLikeOneStep(s: Moment, cfg: Config, purpose: Purpose, now: int) returns (turns: seq<Turn>)
    requires Calm(s) && cfg.iceCap > 0 && Can(s, DoEnter(purpose, now))
    ensures RunTurns(s, cfg, turns) == Walking(s, Expire(s.world, cfg, now), purpose, now, {}, None)
  {
    var todo := if cfg.ttl <= 0 then {} else s.world.live.Keys;
    var s1 := Walking(s, s.world, purpose, now, todo, None);
    assert AfterTurn(s, cfg, DoEnter(purpose, now)) == s1;
    var rest := [];
    if cfg.ttl > 0 {
      SessionManager.ExpireNothing(s.world, cfg.ttl, now);
      assert s.world.live.Keys - todo == {};
      assert s.world.live.Keys - {} == s.world.live.Keys;
      rest := VisitAll(s, cfg, purpose, now, todo);
    }
    hide AfterTurn, ExpireOnly;
    RunCons(s, cfg, DoEnter(purpose, now), rest);
    turns := [DoEnter(purpose, now)] + rest;
  }

  // Whole runs.

  function ThreadFor(c: Caller): Thread {
    if c.Free? then c.thread else Idle
  }

  /** The moment as the single steps see it. */
  function AsSystem(s: Moment): System {
    System(s.world, map tid | tid in s.callers :: ThreadFor(s.callers[tid]))
  }

  lemma CalmIsTyped(s: Moment)
    requires Calm(s)
    ensures Typed(AsSystem(s))
    ensures forall tid :: ThreadOf(AsSystem(s), tid) == ThreadAt(s, tid)
  {
  }

  /** The moment that follows is calm again and is what the step makes of the system. */
  predicate ComesTo(s: Moment, cfg: Config, step: Step, s': Moment)
    requires cfg.iceCap > 0 && Typed(AsSystem(s))
  {
    Calm(s') && AsSystem(s') == Do(AsSystem(s), cfg, step)
  }

  lemma StandingStillComesTo(s: Moment, cfg: Config, step: Step)
    requires Calm(s) && cfg.iceCap > 0 && Typed(AsSystem(s)) && Do(AsSystem(s), cfg, step) == AsSystem(s)
    ensures ComesTo(s, cfg, step, RunTurns(s, cfg, []))
  {
  }

  lemma BeginHappens(s: Moment, cfg: Config, step: Step) returns (turns: seq<Turn>)
    requires Calm(s) && cfg.iceCap > 0 && step.Begin? && Typed(AsSystem(s))
    ensures ComesTo(s, cfg, step, RunTurns(s, cfg, turns))
  {
    CalmIsTyped(s);
    var turn := DoBegin(step.tid, step.id, step.op);
    turns := [turn] + [];
    RunCons(s, cfg, turn, []);
    hide Exclusive, Precheck;
  }

  lemma DropEnds(s: Moment, cfg: Config, tid: nat, slot: nat, r: Record, drop: bool)
    requires Calm(s) && cfg.iceCap > 0 && slot < |s.world.store| && r.id == s.world.store[slot].id
    ensures var s1 := SetSession(s, slot, r, tid, if drop then Dropping(slot) else Free(Idle));
      var w' := World(s.world.store[slot := r], if drop then s.world.live - {r.id} else s.world.live);
      var s2 := Moment(w', s.callers[tid := Free(Idle)], None);
      && Fits(s1) && AfterTurn(s1, cfg, DoDrop(tid)) == s2 && Calm(s2)
      && AsSystem(s2) == System(w', AsSystem(s).threads[tid := Idle])
  {
    var c := if drop then Dropping(slot) else Free(Idle);
    assert OnlyHolder(s.callers, tid, slot);
    StandsFits(s, slot, r, tid, c);
    assert s.callers[tid := c][tid := Free(Idle)] == s.callers[tid := Free(Idle)];
  }

  lemma FinishHappens(s: Moment, cfg: Config, step: Step) returns (turns: seq<Turn>)
    requires Calm(s) && cfg.iceCap > 0 && step.Finish? && Typed(AsSystem(s))
    ensures ComesTo(s, cfg, step, RunTurns(s, cfg, turns))
  {
    CalmIsTyped(s);
    var (tid, now, th) := (step.tid, step.now, ThreadAt(s, step.tid));
    if !th.Holding? {
      turns := [];
      StandingStillComesTo(s, cfg, step);
    } else {
      var e := Act(s.world.store[th.slot], cfg.iceCap, th.op, now);
      var s1 := RunTurns(s, cfg, ActionTurns(tid, now));
      ActsLikeOneStep(s, cfg, tid, now);
      turns := ActionTurns(tid, now) + ([DoDrop(tid)] + []);
      RunAppend(s, cfg, ActionTurns(tid, now), [DoDrop(tid)] + []);
      SessionLocks.ActKeepsId(s.world.store[th.slot], cfg.iceCap, th.op, now);
      hide AfterTurn, AsSystem, Act, Exclusive, ActionTurns, SetSession;
      DropEnds(s, cfg, tid, th.slot, e.record, e.drop);
      RunCons(s1, cfg, DoDrop(tid), []);
    }
  }

  lemma SweepHappens(s: Moment, cfg: Config, step: Step) returns (turns: seq<Turn>)
    requires Calm(s) && cfg.iceCap > 0 && step.ExpireStep? && Typed(AsSystem(s))
    ensures ComesTo(s, cfg, step, RunTurns(s, cfg, turns))
  {
    var walk := WalksLikeOneStep(s, cfg, Sweep, step.now);
    turns := walk + ([DoLeave] + []);
    RunAppend(s, cfg, walk, [DoLeave] + []);
    RunCons(RunTurns(s, cfg, walk), cfg, DoLeave, []);
    hide Exclusive, Expire;
  }

  lemma SeekLeaves(s: Moment, cfg: Config, w: World, tid: nat, now: int)
    requires Calm(s) && cfg.iceCap > 0 && ThreadAt(s, tid).Looking?
    requires Fits(Walking(s, w, Seek(tid), now, {}, None)) && |w.store| == |s.world.store|
    ensures var (m, th) := (Walking(s, w, Seek(tid), now, {}, None), ThreadAt(s, tid));
      var m' := Moment(w, s.callers[tid := Free(Sought(w.live, th.id, th.op))], None);
      && AfterTurn(m, cfg, DoLeave) == m' && Calm(m')
      && AsSystem(m') == System(w, AsSystem(s).threads[tid := Sought(w.live, th.id, th.op)])
  {
    hide Redirect;
  }

  lemma SeekHappens(s: Moment, cfg: Config, step: Step) returns (turns: seq<Turn>)
    requires Calm(s) && cfg.iceCap > 0 && step.Look? && Typed(AsSystem(s))
    requires ThreadAt(s, step.tid).Looking? && !Blank(ThreadAt(s, step.tid).id)
    ensures ComesTo(s, cfg, step, RunTurns(s, cfg, turns))
  {
    CalmIsTyped(s);
    var walk := WalksLikeOneStep(s, cfg, Seek(step.tid), step.now);
    turns := walk + ([DoLeave] + []);
    hide AfterTurn, Calm, AsSystem, Expire, Blank, Redirect, Fits;
    SeekLeaves(s, cfg, Expire(s.world, cfg, step.now), step.tid, step.now);
    RunAppend(s, cfg, walk, [DoLeave] + []);
    RunCons(RunTurns(s, cfg, walk), cfg, DoLeave, []);
  }

  lemma LookHappens(s: Moment, cfg: Config, step: Step) returns (turns: seq<Turn>)
    requires Calm(s) && cfg.iceCap > 0 && step.Look? && Typed(AsSystem(s))
    ensures ComesTo(s, cfg, step, RunTurns(s, cfg, turns))
  {
    CalmIsTyped(s);
    var (tid, th) := (step.tid, ThreadAt(s, step.tid));
    if !th.Looking? {
      turns := [];
      StandingStillComesTo(s, cfg, step);
    } else if Blank(th.id) {
      turns := [DoMiss(tid)] + [];
      RunCons(s, cfg, DoMiss(tid), []);
      hide Exclusive, Blank;
    } else {
      turns := SeekHappens(s, cfg, step);
    }
  }

  lemma MakeLeaves(s: Moment, cfg: Config, w: World, purpose: Purpose, now: int)
    requires Calm(s) && cfg.iceCap > 0 && purpose.Make?
    requires Fits(Walking(s, w, purpose, now, {}, None)) && |w.store| == |s.world.store|
    ensures var key := KeyOf(purpose);
      var w' := if key in w.live then w
                else World(w.store + [Newborn(key, purpose.offerer, purpose.born)], w.live[key := |w.store|]);
      && AfterTurn(Walking(s, w, purpose, now, {}, None), cfg, DoLeave) == Moment(w', s.callers, None)
      && Calm(Moment(w', s.callers, None))
      && AsSystem(Moment(w', s.callers, None)) == System(w', AsSystem(s).threads)
  {
  }

  lemma CreationHappens(s: Moment, cfg: Config, step: Step) returns (turns: seq<Turn>)
    requires Calm(s) && cfg.iceCap > 0 && step.CreateStep? && Typed(AsSystem(s))
    ensures ComesTo(s, cfg, step, RunTurns(s, cfg, turns))
  {
    if Blank(step.offerer) || !HashShape(step.offerer) {
      turns := [];
      StandingStillComesTo(s, cfg, step);
    } else {
      var purpose := Make(step.id, step.minted, step.offerer, step.ticks.born);
      var walk := WalksLikeOneStep(s, cfg, purpose, step.ticks.mint);
      turns := walk + ([DoLeave] + []);
      RunAppend(s, cfg, walk, [DoLeave] + []);
      hide AfterTurn, Calm, AsSystem, Expire, Blank, Fits;
      MakeLeaves(s, cfg, Expire(s.world, cfg, step.ticks.mint), purpose, step.ticks.mint);
      RunCons(RunTurns(s, cfg, walk), cfg, DoLeave, []);
    }
  }

  lemma StepHappens(s: Moment, cfg: Config, step: Step) returns (turns: seq<Turn>)
    requires Calm(s) && cfg.iceCap > 0 && Typed(AsSystem(s))
    ensures ComesTo(s, cfg, step, RunTurns(s, cfg, turns))
  {
    match step
    case CreateStep(_, _, _, _) => turns := CreationHappens(s, cfg, step);
    case Begin(_, _, _) => turns := BeginHappens(s, cfg, step);
    case Look(_, _) => turns := LookHappens(s, cfg, step);
    case Finish(_, _) => turns := FinishHappens(s, cfg, step);
    case ExpireStep(_) => turns := SweepHappens(s, cfg, step);
  }

  /**
   From a moment when no walk is on and no lock is held, every run of single steps has a run lock by lock and
   part by part that ends in such a moment with the same sessions, map and callers.
   */
  lemma {:induction false} SingleStepsHappen(s: Moment, cfg: Config, steps: seq<Step>) returns (turns: seq<Turn>)
    requires Calm(s) && cfg.iceCap > 0
    ensures Typed(AsSystem(s)) && Calm(RunTurns(s, cfg, turns))
    ensures AsSystem(RunTurns(s, cfg, turns)) == SessionRuns.Run(AsSystem(s), cfg, steps)
    decreases |steps|
  {
    CalmIsTyped(s);
    if steps == [] {
      turns := [];
    } else {
      var first := StepHappens(s, cfg, steps[0]);
      hide Do, AfterTurn, AsSystem, Calm;
      var s' := RunTurns(s, cfg, first);
      var rest := SingleStepsHappen(s', cfg, steps[1..]);
      RunAppend(s, cfg, first, rest);
      turns := first + rest;
    }
  }
}

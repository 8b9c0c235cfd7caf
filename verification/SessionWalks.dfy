/**
 The same callers, one lock at a time. Whoever looks a session up, creates one or sweeps takes the map's
 lock and keeps it while it walks the map. At each session it waits for that session's lock, checks
 whether the session is stale, and lets go of it; a stale one it then closes and deletes, without its
 lock. A caller that holds a session acts on it under its lock, part by part, and the close may come in
 between; if it ends the session, it deletes it under the map's lock before it lets go.
 */
module SessionWalks {
  import opened Wrappers
  import opened Envelope
  import opened Sessions
  import opened SessionActs
  import opened SessionRuns

  /** What a caller that has the lock of a session does next. */
  datatype Next = ToFill | ToRead | ToSet | ToStamp

  /** One that acts remembers the session as it tested it; all that its turns use of this is the offerer. */
  datatype Caller =
    | Free(thread: Thread)
    | Acting(slot: nat, op: Op, next: Next, was: Record)
    | Dropping(slot: nat)

  datatype Purpose = Seek(tid: nat) | Make(id: string, minted: string, offerer: string, born: int) | Sweep

  /** The ids still to visit, and the one found stale that is to be closed next. */
  datatype Walk = Walk(purpose: Purpose, now: int, todo: set<string>, marked: Option<string>)

  type Callers = map<nat, Caller>

  datatype Moment = Moment(world: World, callers: Callers, walk: Option<Walk>)

  const EMPTY := Moment(EMPTY_WORLD, map[], None)

  datatype Turn =
    | DoBegin(tid: nat, id: string, op: Op)
    | DoMiss(tid: nat)
    | DoEnter(purpose: Purpose, now: int)
    | DoCheck(id: string)
    | DoForce
    | DoLeave
    | DoTest(tid: nat)
    | DoFill(tid: nat)
    | DoRead(tid: nat)
    | DoSet(tid: nat)
    | DoStamp(tid: nat, now: int)
    | DoDrop(tid: nat)

  // Who has which lock.

  predicate Holds(c: Caller, slot: nat) {
    !c.Free? && c.slot == slot
  }

  /** The caller has just set this state and still has to stamp the session. */
  predicate Ends(c: Caller, slot: nat, state: State) {
    c.Acting? && c.slot == slot && c.next == ToStamp && Goal(c.was.offerer, c.op) == Some(state)
  }

  predicate Locked(cs: Callers, slot: nat) {
    exists tid | tid in cs :: Holds(cs[tid], slot)
  }

  predicate Acted(cs: Callers, slot: nat) {
    exists tid | tid in cs :: cs[tid].Acting? && cs[tid].slot == slot
  }

  predicate Ending(cs: Callers, slot: nat, state: State) {
    exists tid | tid in cs :: Ends(cs[tid], slot, state)
  }

  /** No one but this caller can have the lock. */
  predicate OnlyHolder(cs: Callers, tid: nat, slot: nat) {
    forall t | t in cs && t != tid :: !Holds(cs[t], slot)
  }

  predicate Exclusive(cs: Callers) {
    forall tid | tid in cs && !cs[tid].Free? :: OnlyHolder(cs, tid, cs[tid].slot)
  }

  predicate Fits(s: Moment) {
    && WellFormed(s.world) && Exclusive(s.callers)
    && (forall tid | tid in s.callers && !s.callers[tid].Free? :: s.callers[tid].slot < |s.world.store|)
    && (forall tid | tid in s.callers && s.callers[tid].Free? && s.callers[tid].thread.Holding? ::
          s.callers[tid].thread.slot < |s.world.store|)
    && match s.walk
       case None => true
       case Some(w) => w.todo <= s.world.live.Keys && (w.marked.Some? ==> w.marked.value in w.todo)
  }

  function CallerOf(s: Moment, tid: nat): Caller {
    if tid in s.callers then s.callers[tid] else Free(Idle)
  }

  function ThreadAt(s: Moment, tid: nat): Thread {
    if CallerOf(s, tid).Free? then CallerOf(s, tid).thread else Idle
  }

  predicate Acts(s: Moment, tid: nat, next: Next) {
    CallerOf(s, tid).Acting? && CallerOf(s, tid).next == next
  }

  /** A turn that cannot be taken waits. */
  predicate Can(s: Moment, turn: Turn)
    requires Fits(s)
  {
    match turn
    case DoBegin(tid, _, op) => CallerOf(s, tid) == Free(Idle) && Precheck(op).None?
    case DoMiss(tid) => ThreadAt(s, tid).Looking? && Blank(ThreadAt(s, tid).id)
    case DoEnter(purpose, _) =>
      && s.walk.None?
      && (match purpose
          case Seek(tid) => ThreadAt(s, tid).Looking? && !Blank(ThreadAt(s, tid).id)
          case Make(_, _, offerer, _) => !Blank(offerer) && HashShape(offerer)
          case Sweep => true)
    case DoCheck(id) =>
      && s.walk.Some? && s.walk.value.marked.None? && id in s.walk.value.todo
      && !Locked(s.callers, s.world.live[id])
    case DoForce => s.walk.Some? && s.walk.value.marked.Some?
    case DoLeave => s.walk.Some? && s.walk.value.todo == {}
    case DoTest(tid) => ThreadAt(s, tid).Holding? && !Locked(s.callers, ThreadAt(s, tid).slot)
    case DoFill(tid) => Acts(s, tid, ToFill)
    case DoRead(tid) => Acts(s, tid, ToRead)
    case DoSet(tid) => Acts(s, tid, ToSet)
    case DoStamp(tid, _) => Acts(s, tid, ToStamp)
    case DoDrop(tid) => s.walk.None? && CallerOf(s, tid).Dropping?
  }

  // The walk.

  /** What a lookup that has walked the map comes back with. */
  function Sought(live: map<string, nat>, id: string, op: Op): Thread {
    if id !in live then Idle
    else if Redirect(op).Some? then Looking(id, FailOffer(Rejected(Redirect(op).value)))
    else Holding(live[id], op)
  }

  function KeyOf(purpose: Purpose): string
    requires purpose.Make?
  {
    if purpose.id == "" then purpose.minted else purpose.id
  }

  function SetCaller(s: Moment, tid: nat, c: Caller): Moment {
    s.(callers := s.callers[tid := c])
  }

  /** Whether the session filed under an id is to be closed, by a reading of the clock. */
  predicate Expired(world: World, id: string, ttl: int, now: int)
    requires WellFormed(world) && id in world.live
  {
    Doomed(world.store[world.live[id]], ttl, now)
  }

  function Check(s: Moment, cfg: Config, id: string): Moment
    requires Fits(s) && Can(s, DoCheck(id))
  {
    var w := s.walk.value;
    if Expired(s.world, id, cfg.ttl, w.now) then s.(walk := Some(w.(marked := Some(id))))
    else s.(walk := Some(w.(todo := w.todo - {id})))
  }

  function MarkedSlot(s: Moment): (slot: nat)
    requires Fits(s) && Can(s, DoForce)
    ensures slot < |s.world.store|
  {
    s.world.live[s.walk.value.marked.value]
  }

  /** Closes the marked session whatever became of it since the check, and deletes it. */
  function Force(s: Moment): Moment
    requires Fits(s) && Can(s, DoForce)
  {
    var w, slot := s.walk.value, MarkedSlot(s);
    var id := w.marked.value;
    Moment(World(s.world.store[slot := Forced(s.world.store[slot], w.now)], s.world.live - {id}),
           s.callers, Some(w.(todo := w.todo - {id}, marked := None)))
  }

  function Insert(s: Moment, key: string, offerer: string, born: int): Moment {
    var w := s.world;
    s.(world := World(w.store + [Newborn(key, offerer, born)], w.live[key := |w.store|]))
  }

  function Leave(s: Moment): Moment
    requires Fits(s) && Can(s, DoLeave)
  {
    var world, s' := s.world, s.(walk := None);
    match s.walk.value.purpose
    case Seek(tid) =>
      var th := ThreadAt(s, tid);
      if th.Looking? then SetCaller(s', tid, Free(Sought(world.live, th.id, th.op))) else s'
    case Make(_, _, offerer, born) =>
      var key := KeyOf(s.walk.value.purpose);
      if key in world.live then s' else Insert(s', key, offerer, born)
    case Sweep => s'
  }

  // The parts of an action.

  function SetSession(s: Moment, slot: nat, r: Record, tid: nat, c: Caller): Moment
    requires slot < |s.world.store|
  {
    Moment(World(s.world.store[slot := r], s.world.live), s.callers[tid := c], s.walk)
  }

  function Done(c: Caller): Caller
    requires c.Acting?
  {
    if Deletes(c.was.offerer, c.op) then Dropping(c.slot) else Free(Idle)
  }

  function AfterTest(th: Thread, r: Record): Caller
    requires th.Holding?
  {
    match Test(r, th.op)
    case Stop => Free(Idle)
    case OnlyDelete => Dropping(th.slot)
    case Go => Acting(th.slot, th.op, ToFill, r)
  }

  function AfterFill(c: Caller): Caller
    requires c.Acting?
  {
    c.(next := if Goal(c.was.offerer, c.op).None? then ToStamp else ToRead)
  }

  function AfterRead(c: Caller, r: Record): Caller
    requires c.Acting?
  {
    match Goal(c.was.offerer, c.op)
    case None => Free(Idle)
    case Some(to) =>
      if r.state == to then Done(c) else if Admits(r.state, c.op, to) then c.(next := ToSet) else Free(Idle)
  }

  function Delete(s: Moment, tid: nat): Moment
    requires Fits(s) && Can(s, DoDrop(tid))
  {
    var id := s.world.store[CallerOf(s, tid).slot].id;
    Moment(World(s.world.store, s.world.live - {id}), s.callers[tid := Free(Idle)], s.walk)
  }

  function AfterTurn(s: Moment, cfg: Config, turn: Turn): Moment
    requires Fits(s) && cfg.iceCap > 0
  {
    if !Can(s, turn) then s
    else
      match turn
      case DoBegin(tid, id, op) => SetCaller(s, tid, Free(Looking(id, op)))
      case DoMiss(tid) => SetCaller(s, tid, Free(Idle))
      case DoEnter(purpose, now) =>
        s.(walk := Some(Walk(purpose, now, if cfg.ttl <= 0 then {} else s.world.live.Keys, None)))
      case DoCheck(id) => Check(s, cfg, id)
      case DoForce => Force(s)
      case DoLeave => Leave(s)
      case DoTest(tid) =>
        SetCaller(s, tid, AfterTest(ThreadAt(s, tid), s.world.store[ThreadAt(s, tid).slot]))
      case DoFill(tid) =>
        var c := s.callers[tid];
        SetSession(s, c.slot, Fill(s.world.store[c.slot], cfg.iceCap, c.op), tid, AfterFill(c))
      case DoRead(tid) =>
        var c := s.callers[tid];
        SetCaller(s, tid, AfterRead(c, s.world.store[c.slot]))
      case DoSet(tid) =>
        var c := s.callers[tid];
        SetSession(s, c.slot, SetState(s.world.store[c.slot], Goal(c.was.offerer, c.op)), tid, c.(next := ToStamp))
      case DoStamp(tid, now) =>
        var c := s.callers[tid];
        SetSession(s, c.slot, s.world.store[c.slot].(updatedAt := now), tid, Done(c))
      case DoDrop(tid) => Delete(s, tid)
  }

  // What the turn of one caller does to the locks.

  lemma CallerSet(cs: Callers, tid: nat, c: Caller, slot: nat)
    requires Exclusive(cs) && OnlyHolder(cs, tid, slot)
    requires tid in cs && !cs[tid].Free? ==> cs[tid].slot == slot
    requires !c.Free? ==> c.slot == slot
    ensures Exclusive(cs[tid := c])
    ensures Locked(cs[tid := c], slot) <==> !c.Free?
    ensures Acted(cs[tid := c], slot) <==> c.Acting?
    ensures forall state :: Ending(cs[tid := c], slot, state) <==> Ends(c, slot, state)
  {
    var cs' := cs[tid := c];
    assert cs'[tid] == c;
  }

  /** No lock is taken or let go, and nobody comes to end the session or is done with that. */
  predicate SameLocks(cs: Callers, cs': Callers, slot: nat) {
    && (Locked(cs', slot) <==> Locked(cs, slot))
    && (Acted(cs', slot) <==> Acted(cs, slot))
    && forall state :: Ending(cs', slot, state) <==> Ending(cs, slot, state)
  }

  lemma OthersKeepLocks(cs: Callers, tid: nat, c: Caller, slot: nat, i: nat)
    requires tid in cs && !cs[tid].Free? ==> cs[tid].slot == slot
    requires (!c.Free? ==> c.slot == slot) && i != slot
    ensures SameLocks(cs, cs[tid := c], i)
  {
    var cs' := cs[tid := c];
    assert forall t | t in cs && t != tid :: cs'[t] == cs[t];
    if Locked(cs, i) {
      var t :| t in cs && Holds(cs[t], i);
      assert Holds(cs'[t], i);
    }
    if Acted(cs, i) {
      var t :| t in cs && cs[t].Acting? && cs[t].slot == i;
      assert cs'[t] == cs[t];
    }
    forall state ensures Ending(cs', i, state) <==> Ending(cs, i, state) {
      if Ending(cs, i, state) {
        var t :| t in cs && Ends(cs[t], i, state);
        assert Ends(cs'[t], i, state);
      }
    }
  }

  /** A free caller that stays free changes no lock. */
  lemma FreeKeepsLocks(cs: Callers, tid: nat, th: Thread, i: nat)
    requires tid in cs ==> cs[tid].Free?
    ensures Exclusive(cs) ==> Exclusive(cs[tid := Free(th)])
    ensures SameLocks(cs, cs[tid := Free(th)], i)
  {
    OthersKeepLocks(cs, tid, Free(th), i + 1, i);
  }

  lemma NotLockedIsOnly(cs: Callers, tid: nat, slot: nat)
    requires !Locked(cs, slot)
    ensures OnlyHolder(cs, tid, slot) && !Acted(cs, slot) && forall state :: !Ending(cs, slot, state)
  {
  }

  lemma HolderIsOnly(s: Moment, tid: nat)
    requires Fits(s) && tid in s.callers && !s.callers[tid].Free?
    ensures OnlyHolder(s.callers, tid, s.callers[tid].slot)
  {
  }

  lemma TurnFits(s: Moment, cfg: Config, turn: Turn)
    requires Fits(s) && cfg.iceCap > 0
    ensures Fits(AfterTurn(s, cfg, turn)) && |s.world.store| <= |AfterTurn(s, cfg, turn).world.store|
  {
    hide Exclusive, OnlyHolder, Test, Admits, Precheck, Doomed, Forced, HashShape;
    if Can(s, turn) {
      match turn
      case DoBegin(tid, id, op) => FreeFits(s, tid, Looking(id, op));
      case DoMiss(tid) => FreeFits(s, tid, Idle);
      case DoEnter(_, _) =>
      case DoCheck(_) =>
      case DoForce =>
      case DoLeave => LeaveFits(s);
      case DoTest(tid) =>
        var th := ThreadAt(s, tid);
        NotLockedIsOnly(s.callers, tid, th.slot);
        HolderFits(s, tid, th.slot, s.world.store[th.slot], AfterTest(th, s.world.store[th.slot]));
      case DoFill(tid) =>
        var c := s.callers[tid];
        HolderIsOnly(s, tid);
        HolderFits(s, tid, c.slot, Fill(s.world.store[c.slot], cfg.iceCap, c.op), AfterFill(c));
      case DoRead(tid) =>
        var c := s.callers[tid];
        HolderIsOnly(s, tid);
        HolderFits(s, tid, c.slot, s.world.store[c.slot], AfterRead(c, s.world.store[c.slot]));
      case DoSet(tid) =>
        var c := s.callers[tid];
        HolderIsOnly(s, tid);
        HolderFits(s, tid, c.slot, SetState(s.world.store[c.slot], Goal(c.was.offerer, c.op)), c.(next := ToStamp));
      case DoStamp(tid, now) =>
        var c := s.callers[tid];
        HolderIsOnly(s, tid);
        HolderFits(s, tid, c.slot, s.world.store[c.slot].(updatedAt := now), Done(c));
      case DoDrop(tid) => DropFits(s, tid);
    }
  }

  lemma FreeFits(s: Moment, tid: nat, th: Thread)
    requires Fits(s) && CallerOf(s, tid).Free? && (th.Holding? ==> th.slot < |s.world.store|)
    ensures Fits(SetCaller(s, tid, Free(th)))
  {
    FreeKeepsLocks(s.callers, tid, th, 0);
  }

  lemma LeaveFits(s: Moment)
    requires Fits(s) && Can(s, DoLeave)
    ensures Fits(Leave(s)) && |s.world.store| <= |Leave(s).world.store|
  {
    hide Exclusive;
    if s.walk.value.purpose.Seek? {
      var th := ThreadAt(s, s.walk.value.purpose.tid);
      if th.Looking? {
        FreeFits(s.(walk := None), s.walk.value.purpose.tid, Sought(s.world.live, th.id, th.op));
      }
    }
  }

  lemma HolderFits(s: Moment, tid: nat, slot: nat, r: Record, c: Caller)
    requires Fits(s) && slot < |s.world.store| && OnlyHolder(s.callers, tid, slot)
    requires CallerOf(s, tid).Free? || CallerOf(s, tid).slot == slot
    requires if c.Free? then !c.thread.Holding? else c.slot == slot
    requires r.id == s.world.store[slot].id
    ensures Fits(SetSession(s, slot, r, tid, c))
  {
    CallerSet(s.callers, tid, c, slot);
    hide Exclusive, OnlyHolder;
  }

  lemma DropFits(s: Moment, tid: nat)
    requires Fits(s) && Can(s, DoDrop(tid))
    ensures Fits(Delete(s, tid))
  {
    HolderIsOnly(s, tid);
    CallerSet(s.callers, tid, Free(Idle), s.callers[tid].slot);
    hide Exclusive, OnlyHolder;
  }
}

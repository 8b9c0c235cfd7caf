/**
 An action on a session, taken apart into what its caller does under the session's lock: it tests the
 session, fills in fields, tests the state once more, sets it, and stamps the session.
 */
module SessionActs {
  import opened Wrappers
  import opened Envelope
  import opened Sessions
  import opened SessionInvariants

  datatype Ruling = Stop | OnlyDelete | Go

  /** The tests an action starts with. */
  function Test(r: Record, op: Op): Ruling {
    match op
    case Offer(_, _) => if r.state == New then Go else Stop
    case Answer(peer, _) =>
      if && r.state == Connecting && peer != r.offerer && HashShape(peer)
         && (r.answerer == "" || r.answerer == peer)
      then Go
      else Stop
    case Ice(_, _) => if Terminal(r.state) then Stop else Go
    case Close => if r.state == Closed then Stop else if r.state == Failed then OnlyDelete else Go
    case Fail(_) => if Terminal(r.state) then Stop else Go
    case FailOffer(_) => if r.state == New then Go else Stop
  }

  /** The fields written before the state is looked at again. */
  function Fill(r: Record, iceCap: nat, op: Op): Record
    requires iceCap > 0
  {
    match op
    case Offer(peer, sdp) =>
      if peer != r.offerer then r.(reason := Mismatch(r.offerer, peer)) else r.(offer := Some(sdp))
    case Answer(peer, sdp) => r.(answerer := peer, answer := Some(sdp))
    case Ice(peer, c) => r.(candidates := r.candidates[peer := Slide(CandidatesOf(r, peer), c, iceCap)])
    case Close => r
    case Fail(reason) => r.(reason := reason)
    case FailOffer(reason) => r.(reason := reason)
  }

  /** The state an action moves to, if it moves at all. */
  function Goal(offerer: string, op: Op): Option<State> {
    match op
    case Offer(peer, _) => Some(if peer != offerer then FailedOffer else Connecting)
    case Answer(_, _) => Some(Connected)
    case Ice(_, _) => None
    case Close => Some(Closed)
    case Fail(_) => Some(Failed)
    case FailOffer(_) => Some(FailedOffer)
  }

  /** The second look at the state. */
  predicate Admits(state: State, op: Op, to: State) {
    op.Fail? || Allowed(state, to)
  }

  /** An action that has ended its session deletes it. */
  predicate Deletes(offerer: string, op: Op) {
    Goal(offerer, op).Some? && Terminal(Goal(offerer, op).value)
  }

  function SetState(r: Record, goal: Option<State>): Record {
    if goal.Some? then r.(state := goal.value) else r
  }

  /** The parts in turn, with no one else at the session: what it becomes, and whether it is deleted. */
  function InTurns(r: Record, iceCap: nat, op: Op, now: int): (Record, bool)
    requires iceCap > 0
  {
    match Test(r, op)
    case Stop => (r, false)
    case OnlyDelete => (r, true)
    case Go =>
      var f, goal := Fill(r, iceCap, op), Goal(r.offerer, op);
      if goal.None? then (f.(updatedAt := now), false)
      else if f.state == goal.value then (f, Deletes(r.offerer, op))
      else if !Admits(f.state, op, goal.value) then (f, false)
      else (SetState(f, goal).(updatedAt := now), Deletes(r.offerer, op))
  }

  /** Together the parts are the action. */
  lemma InTurnsIsAct(r: Record, iceCap: nat, op: Op, now: int)
    requires iceCap > 0
    ensures var e := Act(r, iceCap, op, now); InTurns(r, iceCap, op, now) == (e.record, e.drop)
  {
  }

  lemma FillDevelops(r: Record, iceCap: nat, op: Op)
    requires iceCap > 0 && Coherent(r) && Test(r, op) == Go
    ensures Develops(r, Fill(r, iceCap, op)) && Fill(r, iceCap, op).state == r.state
  {
  }

  lemma SetDevelops(r: Record, iceCap: nat, op: Op)
    requires iceCap > 0 && Test(r, op) == Go
    requires Goal(r.offerer, op).Some? && Admits(r.state, op, Goal(r.offerer, op).value)
    ensures var f := Fill(r, iceCap, op); Develops(f, SetState(f, Goal(r.offerer, op)))
    ensures !Terminal(r.state)
  {
  }

  /** What the whole action leaves is coherent, and so is what it leaves when its second look refuses. */
  lemma EndIsCoherent(r: Record, iceCap: nat, op: Op, now: int)
    requires iceCap > 0 && Coherent(r) && Windowed(r, iceCap) && Admissible(op) && Test(r, op) == Go
    ensures var f, goal := Fill(r, iceCap, op), Goal(r.offerer, op);
      if goal.None? || Admits(r.state, op, goal.value) then
        var e := SetState(f, goal).(updatedAt := now); Coherent(e) && Windowed(e, iceCap)
      else Coherent(f) && Windowed(f, iceCap)
  {
    ActKeepsCoherent(r, iceCap, op, now);
    ActKeepsWindowed(r, iceCap, op, now);
    InTurnsIsAct(r, iceCap, op, now);
  }

  /** What a forced close makes of a session, whenever it comes. */
  function Forced(r: Record, now: int): Record {
    if r.state == Closed then r else r.(state := Closed, updatedAt := now)
  }

  /** A session may be closed where it stands unless it failed, or its reason for failing is already written. */
  predicate Closable(r: Record) {
    r.state != Failed && r.state != FailedOffer && (r.state == Closed || r.reason == NO_REASON)
  }

  /**
   Expiry lets go of the session between its check and its forced move to `closed`. A session that
   changed in between stays within its rules exactly if it did not fail there.
   */
  lemma LateExpiryIsHarmless(r: Record, now: int)
    ensures Transition(r, Closed, true, now) == Success(Forced(r, now))
    ensures Evolves(r, Forced(r, now)) <==> !(r.state == Failed || r.state == FailedOffer)
    ensures Develops(r, Forced(r, now)) <==> !(r.state == Failed || r.state == FailedOffer)
  {
  }

  /** The session as it stands before the last part of an action: as tested, filled in, or with its state set. */
  predicate IsMidway(was: Record, iceCap: nat, op: Op, r: Record)
    requires iceCap > 0
  {
    var f, goal := Fill(was, iceCap, op), Goal(was.offerer, op);
    || r == was
    || r == f
    || (r == SetState(f, goal) && (goal.Some? ==> Admits(was.state, op, goal.value)))
  }

  lemma MidwayIsWindowed(was: Record, iceCap: nat, op: Op, r: Record)
    requires iceCap > 0 && Windowed(was, iceCap) && Admissible(op) && Test(was, op) == Go
    requires IsMidway(was, iceCap, op, r)
    ensures Windowed(r, iceCap)
  {
    ActKeepsWindowed(was, iceCap, op, 0);
    InTurnsIsAct(was, iceCap, op, 0);
    hide SDPFault, CandidateFault;
    assert op.Ice? ==> Fill(was, iceCap, op).candidates == Act(was, iceCap, op, 0).record.candidates;
    assert !op.Ice? ==> r.candidates == was.candidates;
  }

  lemma MidwayIsNearlyCoherent(was: Record, iceCap: nat, op: Op, r: Record)
    requires iceCap > 0 && Coherent(was) && Admissible(op) && Test(was, op) == Go && IsMidway(was, iceCap, op, r)
    requires r.state != Failed && r.state != FailedOffer
    ensures Coherent(r.(state := Closed)) <==> r.reason == NO_REASON
    ensures r.state == Closed ==> r.reason == NO_REASON
  {
    hide Windowed, CandidateFault;
  }

  /** Closed in the middle of an action, a session is coherent exactly if it carries no reason yet. */
  lemma ForcedMidway(was: Record, iceCap: nat, op: Op, r: Record, now: int)
    requires iceCap > 0 && Coherent(was) && Windowed(was, iceCap) && Admissible(op) && Test(was, op) == Go
    requires IsMidway(was, iceCap, op, r) && r.state != Failed && r.state != FailedOffer
    ensures Coherent(Forced(r, now)) <==> Closable(r)
    ensures Windowed(Forced(r, now), iceCap)
  {
    MidwayIsWindowed(was, iceCap, op, r);
    MidwayIsNearlyCoherent(was, iceCap, op, r);
    StampIsNothing(r.(state := Closed), now);
    hide IsMidway, Test, Fill;
  }

  lemma StampIsNothing(r: Record, now: int)
    ensures Coherent(r.(updatedAt := now)) <==> Coherent(r)
  {
  }
}

/** Runs from the empty manager in which sessions are rewritten, lost or closed while in use, and one that hangs. */
module SessionWitnesses {
  import opened Wrappers
  import opened Envelope
  import opened Sessions
  import opened SessionInvariants
  import opened SessionActs
  import opened SessionRuns
  import opened SessionWalks
  import opened SessionWalkRuns
  import opened SessionRaces

  // A session is made, and a caller looks it up.

  const MAKE := Make("a", "", DEVICE, 1)

  /** One session, still filed or not, and one caller. */
  function Stage(r: Record, filed: bool, c: Caller, walk: Option<Walk>): Moment {
    Moment(World([r], if filed then map["a" := 0] else map[]), map[0 := c], walk)
  }

  const MAKING := Moment(EMPTY_WORLD, map[], Some(Walk(MAKE, 1, {}, None)))
  const MADE := Moment(World([BORN], map["a" := 0]), map[], None)

  function Asking(op: Op, walk: Option<Walk>): Moment {
    Stage(BORN, true, Free(Looking("a", op)), walk)
  }

  function Held(op: Op): Moment {
    Stage(BORN, true, Free(Holding(0, op)), None)
  }

  function Opening(op: Op, rest: seq<Turn>): seq<Turn> {
    [DoEnter(MAKE, 1)] + ([DoLeave] + ([DoBegin(0, "a", op)] + ([DoEnter(Seek(0), 1)] +
      ([DoCheck("a")] + ([DoLeave] + rest)))))
  }

  lemma AIsNoBlank()
    ensures !Blank("a") && !Blank(DEVICE) && HashShape(DEVICE)
  {
    assert SpaceAt("a") == 0 && SpaceAt(DEVICE) == 0;
    TrimRightKeepsPrefix("a");
    TrimRightKeepsPrefix(DEVICE);
  }

  lemma MakingIsRun()
    ensures Fits(EMPTY) && Fits(MAKING) && Fits(MADE)
    ensures AfterTurn(EMPTY, SMALL, DoEnter(MAKE, 1)) == MAKING && AfterTurn(MAKING, SMALL, DoLeave) == MADE
  {
    AIsNoBlank();
    hide Blank;
    assert EMPTY_WORLD.live.Keys == {};
    assert [] + [BORN] == [BORN];
  }

  lemma AskingIsRun(op: Op)
    requires Admissible(op)
    ensures Fits(MADE) && Fits(Asking(op, None)) && Fits(Asking(op, Some(Walk(Seek(0), 1, {"a"}, None))))
    ensures AfterTurn(MADE, SMALL, DoBegin(0, "a", op)) == Asking(op, None)
    ensures AfterTurn(Asking(op, None), SMALL, DoEnter(Seek(0), 1)) == Asking(op, Some(Walk(Seek(0), 1, {"a"}, None)))
  {
    AIsNoBlank();
    hide Blank, Precheck, Redirect;
    assert MADE.world.live.Keys == {"a"};
  }

  lemma FindingIsRun(op: Op)
    requires Admissible(op)
    ensures var s, s' := Asking(op, Some(Walk(Seek(0), 1, {"a"}, None))), Asking(op, Some(Walk(Seek(0), 1, {}, None)));
      && Fits(s) && Fits(s') && Fits(Held(op))
      && AfterTurn(s, SMALL, DoCheck("a")) == s' && AfterTurn(s', SMALL, DoLeave) == Held(op)
  {
    hide Blank, Precheck, Redirect;
    assert {"a"} - {"a"} == {};
    assert map[0 := Free(Looking("a", op))][0 := Free(Holding(0, op))] == map[0 := Free(Holding(0, op))];
  }

  lemma OpeningIsHeld(op: Op, rest: seq<Turn>)
    requires Admissible(op)
    ensures Fits(EMPTY) && Fits(Held(op))
    ensures RunTurns(EMPTY, SMALL, Opening(op, rest)) == RunTurns(Held(op), SMALL, rest)
  {
    MakingIsRun();
    AskingIsRun(op);
    FindingIsRun(op);
    hide AfterTurn, Fits, Asking, Held, Admissible;
    var r4 := [DoCheck("a")] + ([DoLeave] + rest);
    var r2 := [DoBegin(0, "a", op)] + ([DoEnter(Seek(0), 1)] + r4);
    RunCons(EMPTY, SMALL, DoEnter(MAKE, 1), [DoLeave] + r2);
    RunCons(MAKING, SMALL, DoLeave, r2);
    RunCons(MADE, SMALL, DoBegin(0, "a", op), [DoEnter(Seek(0), 1)] + r4);
    RunCons(Asking(op, None), SMALL, DoEnter(Seek(0), 1), r4);
    RunCons(Asking(op, Some(Walk(Seek(0), 1, {"a"}, None))), SMALL, DoCheck("a"), [DoLeave] + rest);
    RunCons(Asking(op, Some(Walk(Seek(0), 1, {}, None))), SMALL, DoLeave, rest);
  }

  // Turns on that stage.

  /** The sweep that found the session stale, and the same after it closed it. */
  const FOUND := Some(Walk(Sweep, 100, {"a"}, Some("a")))
  const SWEPT := Some(Walk(Sweep, 100, {}, None))

  predicate Set(r: Record, filed: bool, c: Caller, walk: Option<Walk>) {
    && r.id == "a" && r.offerer == DEVICE
    && (walk.None? || (walk == FOUND && filed) || walk == SWEPT)
    && match c
       case Free(Idle) => true
       case Free(Looking(_, _)) => true
       case Free(Holding(slot, _)) => slot == 0
       case Acting(slot, _, _, was) => slot == 0 && was.offerer == DEVICE
       case Dropping(slot) => slot == 0
  }

  lemma StageFits(r: Record, filed: bool, c: Caller, walk: Option<Walk>)
    requires Set(r, filed, c, walk)
    ensures Fits(Stage(r, filed, c, walk))
  {
  }

  /** A part of an action, by the caller that has the lock. */
  function PartOf(r: Record, c: Caller, turn: Turn): (Record, Caller)
    requires c.Acting?
  {
    match turn
    case DoFill(_) => (Fill(r, 1, c.op), AfterFill(c))
    case DoRead(_) => (r, AfterRead(c, r))
    case DoSet(_) => (SetState(r, Goal(DEVICE, c.op)), c.(next := ToStamp))
    case DoStamp(_, now) => (r.(updatedAt := now), Done(c))
    case _ => (r, c)
  }

  lemma TestOnStage(r: Record, filed: bool, op: Op, walk: Option<Walk>, rest: seq<Turn>)
    requires Set(r, filed, Free(Holding(0, op)), walk) && Test(r, op) == Go
    ensures var c := Free(Holding(0, op)); var c' := Acting(0, op, ToFill, r);
      && Fits(Stage(r, filed, c, walk)) && Fits(Stage(r, filed, c', walk)) && Set(r, filed, c', walk)
      && RunTurns(Stage(r, filed, c, walk), SMALL, [DoTest(0)] + rest) ==
           RunTurns(Stage(r, filed, c', walk), SMALL, rest)
  {
    var c, c' := Free(Holding(0, op)), Acting(0, op, ToFill, r);
    StageFits(r, filed, c, walk);
    StageFits(r, filed, c', walk);
    hide Fits, Test;
    assert map[0 := c][0 := c'] == map[0 := c'];
    assert AfterTurn(Stage(r, filed, c, walk), SMALL, DoTest(0)) == Stage(r, filed, c', walk);
    RunCons(Stage(r, filed, c, walk), SMALL, DoTest(0), rest);
  }

  lemma PartOnStage(r: Record, filed: bool, c: Caller, walk: Option<Walk>, turn: Turn, rest: seq<Turn>)
    requires Set(r, filed, c, walk) && OwnTurn(turn, 0) && c.Acting?
    requires match c.next
      case ToFill => turn.DoFill?
      case ToRead => turn.DoRead?
      case ToSet => turn.DoSet?
      case ToStamp => turn.DoStamp?
    ensures var (r', c') := PartOf(r, c, turn);
      && Fits(Stage(r, filed, c, walk)) && Fits(Stage(r', filed, c', walk)) && Set(r', filed, c', walk)
      && RunTurns(Stage(r, filed, c, walk), SMALL, [turn] + rest) == RunTurns(Stage(r', filed, c', walk), SMALL, rest)
  {
    var (r', c') := PartOf(r, c, turn);
    StageFits(r, filed, c, walk);
    StageFits(r', filed, c', walk);
    hide Fits, Fill, Admits;
    assert [r][0 := r'] == [r'] && [r][0 := r] == [r];
    assert map[0 := c][0 := c'] == map[0 := c'];
    assert AfterTurn(Stage(r, filed, c, walk), SMALL, turn) == Stage(r', filed, c', walk);
    RunCons(Stage(r, filed, c, walk), SMALL, turn, rest);
  }

  lemma ForceOnStage(r: Record, c: Caller, rest: seq<Turn>)
    requires Set(r, true, c, FOUND)
    ensures Fits(Stage(r, true, c, FOUND)) && Fits(Stage(Forced(r, 100), false, c, SWEPT))
    ensures Set(Forced(r, 100), false, c, SWEPT)
    ensures RunTurns(Stage(r, true, c, FOUND), SMALL, [DoForce] + rest) ==
            RunTurns(Stage(Forced(r, 100), false, c, SWEPT), SMALL, rest)
  {
    StageFits(r, true, c, FOUND);
    StageFits(Forced(r, 100), false, c, SWEPT);
    hide Fits;
    assert [r][0 := Forced(r, 100)] == [Forced(r, 100)];
    assert map["a" := 0] - {"a"} == map[];
    assert {"a"} - {"a"} == {};
    assert AfterTurn(Stage(r, true, c, FOUND), SMALL, DoForce) == Stage(Forced(r, 100), false, c, SWEPT);
    RunCons(Stage(r, true, c, FOUND), SMALL, DoForce, rest);
  }

  /** The session is looked up, and long after a sweep comes and finds it stale. */
  function Swept(op: Op, rest: seq<Turn>): seq<Turn> {
    Opening(op, [DoEnter(Sweep, 100)] + ([DoCheck("a")] + rest))
  }

  lemma SweepFinds(op: Op, rest: seq<Turn>)
    requires Admissible(op)
    ensures Fits(EMPTY) && Fits(Stage(BORN, true, Free(Holding(0, op)), FOUND))
    ensures Set(BORN, true, Free(Holding(0, op)), FOUND)
    ensures RunTurns(EMPTY, SMALL, Swept(op, rest)) ==
            RunTurns(Stage(BORN, true, Free(Holding(0, op)), FOUND), SMALL, rest)
  {
    var s0 := Held(op);
    var s1 := s0.(walk := Some(Walk(Sweep, 100, {"a"}, None)));
    OpeningIsHeld(op, [DoEnter(Sweep, 100)] + ([DoCheck("a")] + rest));
    assert s0.world.live.Keys == {"a"};
    assert AfterTurn(s0, SMALL, DoEnter(Sweep, 100)) == s1;
    assert Fits(s1) && !Locked(s1.callers, 0);
    assert AfterTurn(s1, SMALL, DoCheck("a")) == Stage(BORN, true, Free(Holding(0, op)), FOUND);
    StageFits(BORN, true, Free(Holding(0, op)), FOUND);
    hide Fits, AfterTurn, Admissible, Opening;
    RunCons(s0, SMALL, DoEnter(Sweep, 100), [DoCheck("a")] + rest);
    RunCons(s1, SMALL, DoCheck("a"), rest);
  }

  lemma RunNothing(s: Moment)
    requires Fits(s)
    ensures RunTurns(s, SMALL, []) == s
  {
  }

  // What happens there.

  const FAILS := [DoTest(0), DoFill(0), DoRead(0), DoSet(0), DoStamp(0, 100)]

  function Ended(reason: Reason): Record {
    BORN.(state := Failed, reason := reason, updatedAt := 100)
  }

  lemma FailParts(reason: Reason)
    ensures var (r, c) := (BORN.(reason := reason), Acting(0, Fail(reason), ToRead, BORN));
      && PartOf(BORN, c.(next := ToFill), DoFill(0)) == (r, c)
      && PartOf(r, c, DoRead(0)) == (r, c.(next := ToSet))
      && PartOf(r, c.(next := ToSet), DoSet(0)) == (r.(state := Failed), c.(next := ToStamp))
      && PartOf(r.(state := Failed), c.(next := ToStamp), DoStamp(0, 100)) == (Ended(reason), Dropping(0))
  {
  }

  lemma FailsOnStage(reason: Reason, filed: bool, walk: Option<Walk>, rest: seq<Turn>)
    requires Set(BORN, filed, Free(Holding(0, Fail(reason))), walk)
    ensures var s := Stage(BORN, filed, Free(Holding(0, Fail(reason))), walk);
      && Fits(s) && Fits(Stage(Ended(reason), filed, Dropping(0), walk))
      && RunTurns(s, SMALL, FAILS + rest) == RunTurns(Stage(Ended(reason), filed, Dropping(0), walk), SMALL, rest)
  {
    var (r, c) := (BORN.(reason := reason), Acting(0, Fail(reason), ToRead, BORN));
    FailParts(reason);
    hide RunTurns, AfterTurn, Fits, PartOf, Stage, Ended;
    var t3 := [DoRead(0)] + ([DoSet(0)] + ([DoStamp(0, 100)] + rest));
    assert FAILS + rest == [DoTest(0)] + ([DoFill(0)] + t3);
    TestOnStage(BORN, filed, Fail(reason), walk, [DoFill(0)] + t3);
    PartOnStage(BORN, filed, c.(next := ToFill), walk, DoFill(0), t3);
    PartOnStage(r, filed, c, walk, DoRead(0), [DoSet(0)] + ([DoStamp(0, 100)] + rest));
    PartOnStage(r, filed, c.(next := ToSet), walk, DoSet(0), [DoStamp(0, 100)] + rest);
    PartOnStage(r.(state := Failed), filed, c.(next := ToStamp), walk, DoStamp(0, 100), rest);
  }

  /** The caller fails the session, and the sweep closes it after all: one that ended changes. */
  lemma FailedSessionIsClosed(reason: Reason)
    ensures Fits(EMPTY)
    ensures var s := RunTurns(EMPTY, SMALL, Swept(Fail(reason), FAILS));
      s.world.store == [Ended(reason)] && RunTurns(s, SMALL, [DoForce]).world.store == [Ended(reason).(state := Closed)]
  {
    SweepFinds(Fail(reason), FAILS);
    FailsOnStage(reason, true, FOUND, []);
    assert FAILS + [] == FAILS;
    hide Swept;
    ForceOnStage(Ended(reason), Dropping(0), []);
    assert [DoForce] + [] == [DoForce];
  }

  lemma LateFailParts(reason: Reason)
    ensures var r := BORN.(state := Closed, updatedAt := 100);
      var (r', c) := (r.(reason := reason), Acting(0, Fail(reason), ToFill, BORN));
      && Forced(BORN, 100) == r
      && PartOf(r, c, DoFill(0)) == (r', c.(next := ToRead))
      && PartOf(r', c.(next := ToRead), DoRead(0)) == (r', c.(next := ToSet))
      && PartOf(r', c.(next := ToSet), DoSet(0)) == (r'.(state := Failed), c.(next := ToStamp))
  {
  }

  /** The sweep closes the session once the caller has tested it, and the caller fails it all the same. */
  lemma ClosedSessionIsFailed(reason: Reason)
    ensures Fits(EMPTY)
    ensures var s := RunTurns(EMPTY, SMALL, Swept(Fail(reason), [DoTest(0), DoForce]));
      && s.world.store == [BORN.(state := Closed, updatedAt := 100)]
      && RunTurns(s, SMALL, [DoFill(0), DoRead(0), DoSet(0)]).world.store ==
           [BORN.(state := Failed, reason := reason, updatedAt := 100)]
  {
    LateFailParts(reason);
    hide AfterTurn, Fits, PartOf, Forced, Swept, RunTurns;
    var (r, c) := (Forced(BORN, 100), Acting(0, Fail(reason), ToFill, BORN));
    var r' := r.(reason := reason);
    var c1, c2 := c.(next := ToRead), c.(next := ToSet);
    assert [DoTest(0), DoForce] == [DoTest(0)] + ([DoForce] + []);
    SweepFinds(Fail(reason), [DoTest(0)] + ([DoForce] + []));
    TestOnStage(BORN, true, Fail(reason), FOUND, [DoForce] + []);
    ForceOnStage(BORN, c, []);
    assert [DoFill(0), DoRead(0), DoSet(0)] == [DoFill(0)] + ([DoRead(0)] + ([DoSet(0)] + []));
    PartOnStage(r, false, c, SWEPT, DoFill(0), [DoRead(0)] + ([DoSet(0)] + []));
    PartOnStage(r', false, c1, SWEPT, DoRead(0), [DoSet(0)] + []);
    PartOnStage(r', false, c2, SWEPT, DoSet(0), []);
    RunNothing(Stage(r, false, c, SWEPT));
    RunNothing(Stage(r'.(state := Failed), false, c.(next := ToStamp), SWEPT));
  }

  /** The sweep closes the session, and the caller still adds its candidate and is told that it did. */
  lemma ClosedSessionTakesCandidate(peer: string, candidate: Candidate)
    requires Admissible(Ice(peer, candidate))
    ensures Fits(EMPTY)
    ensures var s := RunTurns(EMPTY, SMALL, Swept(Ice(peer, candidate), [DoTest(0), DoForce]));
      && s.world.store == [BORN.(state := Closed, updatedAt := 100)]
      && RunTurns(s, SMALL, [DoFill(0)]).world.store ==
           [BORN.(state := Closed, updatedAt := 100, candidates := map[peer := [candidate]])]
  {
    var (r, c) := (Forced(BORN, 100), Acting(0, Ice(peer, candidate), ToFill, BORN));
    assert r == BORN.(state := Closed, updatedAt := 100);
    assert Slide([], candidate, 1) == [candidate];
    assert PartOf(r, c, DoFill(0)).0 == r.(candidates := map[peer := [candidate]]);
    hide AfterTurn, Fits, PartOf, Forced, Swept, Admissible;
    assert [DoTest(0), DoForce] == [DoTest(0)] + ([DoForce] + []);
    SweepFinds(Ice(peer, candidate), [DoTest(0)] + ([DoForce] + []));
    TestOnStage(BORN, true, Ice(peer, candidate), FOUND, [DoForce] + []);
    ForceOnStage(BORN, c, []);
    assert [DoFill(0)] == [DoFill(0)] + [];
    PartOnStage(r, false, c, SWEPT, DoFill(0), []);
  }

  lemma OfferParts(sdp: SDP)
    ensures var r := BORN.(offer := Some(sdp));
      var (r', c) := (r.(state := Closed, updatedAt := 100), Acting(0, Offer(DEVICE, sdp), ToRead, BORN));
      && Forced(r, 100) == r'
      && PartOf(BORN, c.(next := ToFill), DoFill(0)) == (r, c)
      && PartOf(r, c, DoRead(0)) == (r, c.(next := ToSet))
      && PartOf(r', c.(next := ToSet), DoSet(0)) == (r'.(state := Connecting), c.(next := ToStamp))
  {
  }

  /** The sweep closes and deletes the session, and the caller sets it to `connecting`, alive and unmapped. */
  lemma LiveSessionIsLost(sdp: SDP)
    requires Admissible(Offer(DEVICE, sdp))
    ensures Fits(EMPTY)
    ensures var turns := Swept(Offer(DEVICE, sdp), [DoTest(0), DoFill(0), DoRead(0), DoForce, DoSet(0)]);
      RunTurns(EMPTY, SMALL, turns).world ==
        World([BORN.(state := Connecting, offer := Some(sdp), updatedAt := 100)], map[])
  {
    OfferParts(sdp);
    hide AfterTurn, Fits, PartOf, Forced, Swept, Admissible, RunTurns;
    var (r, c) := (BORN.(offer := Some(sdp)), Acting(0, Offer(DEVICE, sdp), ToRead, BORN));
    var c0, c2 := c.(next := ToFill), c.(next := ToSet);
    var r' := Forced(r, 100);
    var t3 := [DoRead(0)] + ([DoForce] + ([DoSet(0)] + []));
    assert [DoTest(0), DoFill(0), DoRead(0), DoForce, DoSet(0)] == [DoTest(0)] + ([DoFill(0)] + t3);
    SweepFinds(Offer(DEVICE, sdp), [DoTest(0)] + ([DoFill(0)] + t3));
    TestOnStage(BORN, true, Offer(DEVICE, sdp), FOUND, [DoFill(0)] + t3);
    PartOnStage(BORN, true, c0, FOUND, DoFill(0), t3);
    PartOnStage(r, true, c, FOUND, DoRead(0), [DoForce] + ([DoSet(0)] + []));
    ForceOnStage(r, c2, [DoSet(0)] + []);
    PartOnStage(r', false, c2, SWEPT, DoSet(0), []);
    RunNothing(Stage(r'.(state := Connecting), false, c.(next := ToStamp), SWEPT));
  }

  lemma IceParts(peer: string, candidate: Candidate)
    ensures var r := BORN.(candidates := map[peer := [candidate]]);
      var (r', c) := (r.(updatedAt := 100), Acting(0, Ice(peer, candidate), ToStamp, BORN));
      && PartOf(BORN, c.(next := ToFill), DoFill(0)) == (r, c)
      && PartOf(r, c, DoStamp(0, 100)) == (r', Free(Idle))
      && Forced(r', 100) == r'.(state := Closed)
  {
    assert Slide([], candidate, 1) == [candidate];
  }

  /** A candidate stamps the session after the sweep found it stale; the sweep closes it all the same. */
  lemma SessionInUseIsClosed(peer: string, candidate: Candidate)
    requires Admissible(Ice(peer, candidate))
    ensures Fits(EMPTY)
    ensures var s := RunTurns(EMPTY, SMALL, Swept(Ice(peer, candidate), [DoTest(0), DoFill(0), DoStamp(0, 100)]));
      && s.world.store == [BORN.(updatedAt := 100, candidates := map[peer := [candidate]])]
      && !Stale(s.world.store[0], SMALL.ttl, 100)
      && RunTurns(s, SMALL, [DoForce]).world ==
           World([BORN.(state := Closed, updatedAt := 100, candidates := map[peer := [candidate]])], map[])
  {
    IceParts(peer, candidate);
    hide AfterTurn, Fits, PartOf, Forced, Swept, Admissible, RunTurns;
    var (r, c) := (BORN.(candidates := map[peer := [candidate]]), Acting(0, Ice(peer, candidate), ToStamp, BORN));
    var c0, r' := c.(next := ToFill), r.(updatedAt := 100);
    assert [DoTest(0), DoFill(0), DoStamp(0, 100)] == [DoTest(0)] + ([DoFill(0)] + ([DoStamp(0, 100)] + []));
    SweepFinds(Ice(peer, candidate), [DoTest(0)] + ([DoFill(0)] + ([DoStamp(0, 100)] + [])));
    TestOnStage(BORN, true, Ice(peer, candidate), FOUND, [DoFill(0)] + ([DoStamp(0, 100)] + []));
    PartOnStage(BORN, true, c0, FOUND, DoFill(0), [DoStamp(0, 100)] + []);
    PartOnStage(r, true, c, FOUND, DoStamp(0, 100), []);
    ForceOnStage(r', Free(Idle), []);
    assert [DoForce] + [] == [DoForce];
    RunNothing(Stage(r', true, Free(Idle), FOUND));
    RunNothing(Stage(r'.(state := Closed), false, Free(Idle), SWEPT));
  }

  /** The caller fails the session, and before it deletes it a sweep comes: each waits for the other. */
  lemma WalkHangs(reason: Reason)
    ensures Fits(EMPTY)
    ensures Hung(RunTurns(EMPTY, SMALL, Opening(Fail(reason), FAILS + [DoEnter(Sweep, 100)])))
  {
    var s := Stage(Ended(reason), true, Dropping(0), None);
    var s' := s.(walk := Some(Walk(Sweep, 100, {"a"}, None)));
    OpeningIsHeld(Fail(reason), FAILS + [DoEnter(Sweep, 100)]);
    FailsOnStage(reason, true, None, [DoEnter(Sweep, 100)]);
    assert s.world.live.Keys == {"a"};
    assert AfterTurn(s, SMALL, DoEnter(Sweep, 100)) == s';
    assert Clings(s', 0, 0);
    assert Fits(s') && Blocks(s', "a");
    hide Opening, AfterTurn, Fits;
    RunCons(s, SMALL, DoEnter(Sweep, 100), []);
    assert [DoEnter(Sweep, 100)] + [] == [DoEnter(Sweep, 100)];
  }
}

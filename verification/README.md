# Verified model of the Open E2EE backend core

The project models the parts of the backend in which state is shared, cleaned up lazily or parsed by
hand, and proves what callers may rely on.

* **WebRTC sessions** (`Sessions`, `SessionInvariants`, `SessionCalls`, `SessionRuns`, `SessionLifetimes`,
  `SessionLocks`, `SessionSchedules`, `SessionActs`, `SessionWalks`, `SessionTurns`, `SessionWalkRuns`,
  `SessionIntrusions`, `SessionRaces`, `SessionWitnesses`, `SessionUndisturbed`, `SessionHandlers`,
  `SessionManager`, `PeerLists`, `Envelope`, `WhiteSpace`).
  Sessions are values in `Sessions`: one record per session ever created and a map from ids to the
  active ones. `SessionManager` holds the same as objects that methods update in place; each method is
  proved equal to its function in `Sessions`, so what is proved of the values holds of the objects.
  `SessionCalls` says of every call when it works and what it leaves, state by state.
  `SessionRuns` is the step system of many callers: a call looks its session up in one atomic step and
  acts on it in a later one, by which time the session may be gone. `SessionLocks` sets the deletion of a
  session apart from its end. `SessionWalks` takes every lock one at a time and every action part by part
  (`SessionActs`), since expiry closes sessions without their locks. `SessionTurns` and `SessionWalkRuns`
  prove what such runs keep, and exactly when; `SessionIntrusions` and `SessionRaces` say exactly which
  forced closes do harm and which walks hang; `SessionWitnesses` has runs in which each of these happens.
  `SessionSchedules` and `SessionUndisturbed` prove the other direction: every run of single steps is one
  that the locks, and the parts, allow. `SessionLifetimes` says exactly how long a session stays in the map.
* **Active Pool** (`PoolMembers`, `PoolModel`, `PoolRuns`, `PoolDelete`, `PoolCount`, `PoolAnswers`,
  `RedisPool`). A Redis sorted set from members to expiry seconds, the matching script, and the pool operations. `PoolRuns`
  compares the pool with a plain set that never cleans up, and keeps a ledger of every member;
  `PoolDelete` and `PoolCount` take the deletion and the count apart into their round trips. `PoolAnswers`
  says in terms of what was registered which receiver a sender gets, and how long one waits.
* **Rate limits** (`TokenBuckets`, `TokenGrants`, `RateLimiter`, `DeviceGrants`). Two token buckets with lazy
  refill, over the reals: bounds from above, and what they owe their callers.
* **Client Hello** (`ClientHello`, `FingerprintBytes`). The extension walk with its 16-bit advance, cipher suites, the
  preimage of the fingerprint.
* **Signalling hub** (`Signalling`, `SignallingRuns`, `RelayRuns`, `SignallingDelivery`, `SignallingHub`). Bounded inboxes
  that are replaced on reconnect, the read loop of a connection, and both together.
* **Decimal** and **Scanner** (`Decimal`; `Scanner`, `ScannerText`, `ScannerTwice`,
  `ScannerMatch`, `ScannerEffects`): the hand-written number conversions, and the comment stripper with the tool search built on it.

`Wrappers`, `Separated`, `Sequences` and `Lexicographic` are small shared modules.

Clock readings, random suffixes, SHA-256 and the contents of parsed packets are parameters. Go
strings are byte strings here, one character a byte; integers are 64 bits wide where that shows.

Where the code and its documentation differ, the model follows the code:

* `GetSession` on an aged session reports not found; its comment (webrtc.go:610-613) announces a
  closed record.
* `Count` waits for no session's lock, so while a caller is deleting a session it ended, the count
  still includes it.
* `CloseSession` closes from `connected` only; `new` and `connecting` sessions are closed by expiry.
* A pool member is the hash together with its labels. Registering a hash with other labels adds a
  second member, although pool.go:120 and pool.go:344-345 speak of an update. Hand-outs are therefore
  counted by member. Labels are compared as they are, although pool.go:101 mentions lower case.
* Not found by `MatchSender` speaks of the first `scanLimit` active members.
* The ICE bucket of a session belongs to one connection; a reconnecting device starts with full ones.
* `Hub.Send` documents that envelopes for a closed inbox are dropped. Under the lock discipline a
  closed inbox is never in the map; a send overtaken by a reconnect meets a closed channel.
* `transitionLocked` asks its callers to hold the session's lock (webrtc.go:168-171), and
  `expireLocked` calls it without (webrtc.go:937). So a forced close can meet a session that failed, or
  come in the middle of an action. Then an ended session can change, by the close or by the rest of the
  action, and one that was closed and deleted can come to life again outside the map.
  `EndedSessionsAreFrozen` takes the expiry of one session as a single step and speaks of runs without
  this; `OrderlyIffNeverRaces` and `SafeIffNeverIntrudes` say exactly when the code is safe from it.

Members that say exactly when the code falls short are `SessionRuns.GoodExactlyWhenHarmless`,
`SessionWalkRuns.OrderlyIffNeverRaces`, `SessionIntrusions.SafeIffNeverIntrudes`,
`SessionTurns.ForceTurn`, `SessionRaces.ClosedStaleUnlessRefreshed`, `SessionLifetimes.KeptUntilLost`,
`SessionRaces.WalkEndsIffNotHung`, `PoolMembers.RoundTrip`, `PoolMembers.Readable`,
`PoolDelete.UnreadableSurvivesDeletion`, `PoolCount.SplitCountIsBounded`,
`ClientHello.HaltsIffUnstuck`, `SignallingRuns.SplitSendPanicsWhenDisplaced`,
`RelayRuns.DisconnectCutsTheHolder`, `Decimal.PrintsWhatWasRead` and
`ScannerTwice.StrippingTwiceIsOnceIffSeamless`.

## Model

| member | source | states |
|---|---|---|
| SessionRuns.StaleHandlesAreHarmless | backend/internal/matching/webrtc.go:688-942 | with ids never reused, however many callers interleave their lookup steps and their later acting steps, a session is in the map exactly while it has not ended, all sessions stay coherent, and over the whole run each only evolves: an ended one never changes again, offer and answer are written once, states only move up |
| SessionRuns.ReachableIsSound | backend/internal/matching/webrtc.go:602-942 | at any point of any such run from an empty manager the map, the states and the fields agree, and `Count` is the number of sessions that have not ended |
| SessionRuns.EndedSessionsAreFrozen | backend/internal/matching/webrtc.go:688-942 | a session ended at some point of a run has the same state, offer, answer, candidates, reason and timestamps at every later point, although callers may still hold it |
| SessionRuns.GoodExactlyWhenHarmless | backend/internal/matching/webrtc.go:802-827 | without the assumption on ids: a run keeps the map exact if and only if no step closes an ended `failed` session whose id is in the map again |
| SessionRuns.ReusedIdLosesSession | backend/internal/matching/webrtc.go:812-818 | such a run exists: a slow close of a failed session takes a newer session with the same id out of the map, which is then live and unreachable |
| SessionRuns.StepIsGood | backend/internal/matching/webrtc.go:688-942 | one step of any caller in any good state: what it can break, and exactly when; sessions evolve even then |
| SessionRuns.ThreadsStayReady | backend/internal/matching/webrtc.go:688-797 | a caller acts only on a session it looked up, with a payload that passed its checks |
| SessionRuns.IceWindow | backend/internal/matching/webrtc.go:772-797 | over any run each peer's stored list is the last `iceCap` of what was stored and then accepted from it, in order, whatever happens to the session and to other peers |
| SessionRuns.IceWindowFromEmpty | backend/internal/matching/webrtc.go:772-797 | so from an empty manager it is the last min(n, iceCap) of the n candidates accepted |
| SessionLifetimes.KeptUntilLost | backend/internal/matching/webrtc.go:614-942 | over any run, by any callers, with ids never reused: a session stays in the map if and only if no lookup, creation or sweep comes more than the TTL after its last timestamp and no close of it when connected, failure, failed offer or offer of a stranger when new is carried out |
| SessionSchedules.AtomicRunsHappen | backend/internal/matching/webrtc.go:688-942 | the converse of the next row: from a state with no deletion under way, every run in which calls act and delete at once is the outcome of a run with locks |
| SessionLocks.LocksMakeStepsAtomic | backend/internal/matching/webrtc.go:688-942 | with a walk of the map taken as one step: ending a session and deleting it from the map are two steps of its caller, which holds the session's lock in between, and a walk waits for the locks of the sessions in the map; every such run is, apart from deletions under way, a run in which both happen at once |
| SessionLocks.LockedRunsAreSound | backend/internal/matching/webrtc.go:602-942 | so at any point of such a run a session that has not ended is in the map, one that has ended is there only while its lock is held on the way to its deletion, and `Count` is too high by just those |
| SessionLocks.LookupFindsLive | backend/internal/matching/webrtc.go:614-626 | a lookup never returns a session that has ended |
| SessionLocks.DropIsHidden | backend/internal/matching/webrtc.go:721-725 | the deletion itself changes nothing that the others could still have seen |
| SessionActs.InTurnsIsAct | backend/internal/matching/webrtc.go:688-906 | testing, filling in, reading the state again, setting it and stamping, one after the other and undisturbed, are the action in one piece: the same record and the same deletion |
| SessionUndisturbed.ActsLikeOneStep | backend/internal/matching/webrtc.go:688-906 | the same of the turns: with no one else about, the parts of an action, taken one turn at a time, leave the session and its caller as the action in one step does |
| SessionUndisturbed.WalksLikeOneStep | backend/internal/matching/webrtc.go:921-942 | with no one else about, a walk that visits the sessions one by one, in any order, and closes the stale ones, is one expiry pass |
| SessionUndisturbed.SingleStepsHappen | backend/internal/matching/webrtc.go:602-942 | so from a moment at which no lock is held, every run of single steps is the outcome of a run lock by lock and part by part |
| SessionActs.ForcedMidway | backend/internal/matching/webrtc.go:931-938 | a session closed by force in the middle of any action, whatever part of it is done, keeps its field rules if and only if it carries no reason for failing yet |
| SessionTurns.TurnIsOrderly | backend/internal/matching/webrtc.go:688-942 | with every lock taken on its own, every action taken part by part and forced closes coming in anywhere: each turn keeps all invariants, takes no session back and changes no ended one, if and only if it is none of the racing turns |
| SessionTurns.ForceTurn | backend/internal/matching/webrtc.go:931-938 | of a forced close: if and only if the session did not fail since it was checked, and carries no reason for failing |
| SessionWalkRuns.OrderlyIffNeverRaces | backend/internal/matching/webrtc.go:688-942 | so a run keeps every invariant at every step, and never takes a session back or changes an ended one, if and only if no forced close meets a session that failed or carries its reason for failing, and no part of an action alters a session that has ended |
| SessionWalkRuns.WalkingRunsAreSound | backend/internal/matching/webrtc.go:602-942 | so from an empty manager, at any point of a run without such a turn: sessions that have not ended are in the map, an ended one is there only while its lock is held, `Count` is too high by just those, and from then on no session is taken back and no ended one changes |
| SessionIntrusions.SafeIffNeverIntrudes | backend/internal/matching/webrtc.go:921-942 | the condition at the forced close itself: a run keeps order, and at each of its moments would keep it until the next forced close whatever its callers did instead, if and only if no forced close of the run met a session that failed, or that carries its reason, or whose lock is held by a caller that is still going to write to it |
| SessionIntrusions.SafeFromEmptyIffNeverIntrudes | backend/internal/matching/webrtc.go:921-942 | the same from the empty manager; and a run without such a close keeps order |
| SessionIntrusions.NeverRacesUnlessIntruding | backend/internal/matching/webrtc.go:921-942 | in particular a run in which no forced close does that has no race |
| SessionIntrusions.IntrusionIsUnsafe | backend/internal/matching/webrtc.go:921-942 | and after each one that does, but for those that are a race themselves, the caller at work can go on so that there is one |
| SessionWitnesses.FailedSessionIsClosed | backend/internal/matching/webrtc.go:931-938 | it happens, with any reason: a sweep finds a session stale, its caller fails it, and the sweep then closes the failed session |
| SessionWitnesses.ClosedSessionIsFailed | backend/internal/matching/webrtc.go:851-855 | a caller finds its session alive, a sweep closes and deletes it, and the caller turns `closed` into `failed` |
| SessionWitnesses.ClosedSessionTakesCandidate | backend/internal/matching/webrtc.go:786-796 | with any good candidate: a caller finds its session alive, a sweep closes and deletes it, and the caller still stores its candidate there |
| SessionWitnesses.LiveSessionIsLost | backend/internal/matching/webrtc.go:725-730 | with any good offer: a sweep closes and deletes the session after its state was read for the last time, and the caller sets it to `connecting`, alive and in no map |
| SessionRaces.ClosedStaleUnlessRefreshed | backend/internal/matching/webrtc.go:931-938 | a session found stale is still stale when it is closed if and only if no one who held it stamped it in between; otherwise a session used after the walk began is closed |
| SessionWitnesses.SessionInUseIsClosed | backend/internal/matching/webrtc.go:931-938 | which happens: a session is closed just after a candidate was accepted for it |
| SessionRaces.WalkEndsIffNotHung | backend/internal/matching/webrtc.go:921-942 | a walk can still end if and only if none of the sessions it has yet to check is locked by a caller that is going to delete it, for which it needs the map's lock; otherwise it never does |
| SessionWitnesses.WalkHangs | backend/internal/matching/webrtc.go:921-942 | such a run exists: the sweep waits for the session's lock and the caller for the map's |
| SessionCalls.LookupFinds | backend/internal/matching/webrtc.go:614-626 | a lookup of an id finds a session if and only if one is filed under it and, given a TTL, its last timestamp is not the zero time and lies within the TTL; it returns that session, unchanged, or not found |
| SessionCalls.NotFoundSettles | backend/internal/matching/webrtc.go:614-626 | a call whose lookup finds nothing reports not found, or a malformed payload before that, and changes nothing but by expiry |
| SessionCalls.UnforcedEdges | backend/internal/matching/webrtc.go:177-217 | the seven moves a session makes without force, each with its new timestamp; force makes any, and standing still is no error |
| SessionCalls.CloseSettles | backend/internal/matching/webrtc.go:802-827 | closing a session found works if and only if it is connected: it is then closed, stamped and out of the map; otherwise it is refused and the session is unchanged and still in it |
| SessionCalls.FailSettles | backend/internal/matching/webrtc.go:844-862 | failing works on every session found: failed, with its reason and stamp, out of the map |
| SessionCalls.FailOfferSettlesIt | backend/internal/matching/webrtc.go:887-906 | tagging a failed offer ends a session in `new` in that way and leaves any other as it is |
| SessionCalls.GoodOfferSettles | backend/internal/matching/webrtc.go:688-730 | a well-formed offer works if and only if the session is `new` and the offer comes from its offerer: connecting, with that offer; from another peer it ends the session with a reason that names both, and past `new` it is refused without effect |
| SessionCalls.BadOfferSettles | backend/internal/matching/webrtc.go:693-701 | a malformed offer never works; a session in `new` ends as a failed offer with the fault as its reason, any other stays as it is |
| SessionCalls.GoodAnswerSettles | backend/internal/matching/webrtc.go:735-766 | a well-formed answer works if and only if the session is connecting and the peer has a hash of 16 to 64 bytes and is not the offerer: connected, with that answer; otherwise the error names the first of these that fails and nothing changes |
| SessionCalls.GoodCandidateSettles | backend/internal/matching/webrtc.go:772-797 | a well-formed candidate works on every session found: it is the last of its peer's list, the first having made room if the list was full, and nothing else but the timestamp changes |
| SessionCalls.MalformedChangesNothing | backend/internal/matching/webrtc.go:735-778 | a malformed answer or candidate, or a hash of a bad length, is refused before any session is looked at |
| SessionCalls.CreateSettles | backend/internal/matching/webrtc.go:634-661 | a creation works if and only if the hash is not blank and has 16 to 64 bytes and no session to be found has the id: the new session is in `new`, empty, with both timestamps, and in the map |
| SessionCalls.RequestsAreChecked | backend/internal/matching/webrtc.go:1094-1185 | requests without an id, with a bad hash or with other than one candidate are refused without effect |
| SessionCalls.HandshakeSucceeds | backend/internal/matching/webrtc.go:1094-1185 | from any state: offer without id, answer, candidate and close, well formed and each within the TTL, all succeed and leave exactly the record they should |
| SessionInvariants.ActKeepsCoherent | backend/internal/matching/webrtc.go:688-906 | connecting means an offer, no answer and no answerer; connected means both, by two different peers; only sessions that failed carry a reason: every operation keeps this |
| SessionInvariants.ActKeepsWindowed | backend/internal/matching/webrtc.go:772-797 | every stored candidate list belongs to a hash-shaped peer and holds between one and `iceCap` candidates |
| SessionInvariants.ActEvolves | backend/internal/matching/webrtc.go:177-217 | no operation rewrites an offer or an answer, lowers the state, or touches an ended session; `failed_offer` is reached from `new` only |
| SessionInvariants.ActDrops | backend/internal/matching/webrtc.go:688-906 | a session leaves the map in the very step that ends it, and an ended one only through a second close |
| SessionInvariants.AnswererMismatchIsDead | backend/internal/matching/webrtc.go:755-760 | the branch that compares a second answerer with the first is never taken |
| SessionInvariants.ApplyKeepsMapLive | backend/internal/matching/webrtc.go:688-906 | acting on a session held since an earlier lookup keeps the map exact if and only if it does not close a stranger |
| SessionInvariants.ApplyIsSound | backend/internal/matching/webrtc.go:688-906 | the same with all field invariants |
| SessionInvariants.DistinctIdsMeetNoStranger | backend/internal/matching/webrtc.go:802-827 | with distinct ids that never happens |
| SessionInvariants.LiveSlotMeetsNoStranger | backend/internal/matching/webrtc.go:802-827 | nor when nothing came between the lookup and the close |
| SessionInvariants.ExpireAt | backend/internal/matching/webrtc.go:921-942 | a session is closed and removed by an expiry pass if and only if it is in the map, has not ended, and its last timestamp is the zero time or more than the TTL old; all others are untouched |
| SessionInvariants.ExpireIsSound | backend/internal/matching/webrtc.go:921-942 | expiry keeps the map exact and the sessions coherent |
| SessionInvariants.CreateIsSound | backend/internal/matching/webrtc.go:634-661 | creation keeps them too and disturbs no earlier session except by expiry |
| SessionInvariants.CallIsSound | backend/internal/matching/webrtc.go:688-906 | calls one after another keep them for ids of any kind, reused or not |
| SessionInvariants.HandleIsSound | backend/internal/matching/webrtc.go:1094-1185 | so do the three POST handlers |
| SessionInvariants.CountIsLive | backend/internal/matching/webrtc.go:602-608 | `Count` is the number of sessions that have not ended |
| SessionInvariants.LookupIsFresh | backend/internal/matching/webrtc.go:614-626 | a lookup returns a session unchanged and inside its TTL, or nothing |
| SessionInvariants.SuccessMeansFresh | backend/internal/matching/webrtc.go:688-906 | in sequential use no call succeeds on a session last updated more than the TTL before |
| SessionHandlers.OfferSettles | backend/internal/matching/webrtc.go:688-730 | an offer to a `new` session leaves it connecting with that offer, or ended |
| SessionHandlers.OfferWithoutIdSettles | backend/internal/matching/webrtc.go:1094-1126 | an offer without an id creates at most one session, which ends up connecting and stored if the request succeeded, else ended and removed |
| SessionHandlers.HandleLeavesNoNew | backend/internal/matching/webrtc.go:1094-1185 | no request, whatever its kind and content, leaves a stored session in `new` |
| SessionHandlers.ServeLeavesNoNew | backend/internal/matching/webrtc.go:1094-1185 | the same after any sequence of requests, with all invariants and the count |
| SessionHandlers.RepeatedOfferChangesNothing | backend/internal/matching/webrtc.go:688-730 | an offer naming a session, well formed or not, fails and leaves every session still stored exactly as it was |
| SessionHandlers.FailOfferSettles | backend/internal/matching/webrtc.go:887-906 | tagging a failed offer ends a `new` session and leaves any other as it is |
| SessionHandlers.ExpiryLeavesOnlyFresh | backend/internal/matching/webrtc.go:921-942 | after an expiry pass every stored session was updated within the TTL |
| SessionManager.WebRTCSession.TransitionLocked | backend/internal/matching/webrtc.go:177-217 | without force the state changes along one of the seven allowed edges, with force along any, with its timestamp; otherwise nothing changes and the error is reported |
| SessionManager.WebRTCSession.RemoteCandidates | backend/internal/matching/webrtc.go:383-394 | the lists of all peers but the given one, in some order of the peers |
| PeerLists.FlattenIsTheUnion | backend/internal/matching/webrtc.go:383-394 | that order does not matter to which candidates are returned, counted with repetition |
| PeerLists.FlattenKeepsEachList | backend/internal/matching/webrtc.go:383-394 | each peer's candidates stay together and in order |
| SessionManager.WebRTCSession.PeerList | backend/internal/matching/webrtc.go:1224-1236 | the strictly ascending list of exactly the peers that have candidates, for every order of the map walk |
| PeerLists.StrictlySortedIsUnique | backend/internal/matching/webrtc.go:1224-1236 | there is only one such list |
| PeerLists.SortStrings | backend/internal/matching/webrtc.go:1241-1247 | the array ends up sorted and a permutation of what it was |
| Lexicographic.FirstDifferenceDecides | backend/internal/matching/webrtc.go:1241-1247 | the order of texts used there: the first difference decides, and a text that is over comes first |
| SessionManager.Manager.constructor | backend/internal/matching/webrtc.go:586-594 | an empty manager with a TTL of a quarter of an hour and room for fifty candidates where no positive setting is given |
| SessionManager.Manager.Count | backend/internal/matching/webrtc.go:604-608 | the size of the map, to which `CountIsLive` gives its meaning |
| SessionManager.Manager.ExpireLocked | backend/internal/matching/webrtc.go:921-942 | the loop over the map, in any order, closes and removes every stale session at once, and reports how many |
| SessionManager.Manager.GetSession | backend/internal/matching/webrtc.go:614-626 | expiry, then the session filed under the id, or not found; a blank id is not even expired for |
| SessionManager.Manager.CreateSession | backend/internal/matching/webrtc.go:634-661 | the new world is the one the step system's create step reaches, and the returned object is its last slot |
| SessionManager.Manager.ApplyOffer | backend/internal/matching/webrtc.go:688-730 | on the objects, exactly the offer call of the step system: state, map, error and returned session |
| SessionManager.Manager.ApplyAnswer | backend/internal/matching/webrtc.go:735-766 | exactly the answer call |
| SessionManager.Manager.AppendICE | backend/internal/matching/webrtc.go:772-797 | exactly the candidate call |
| SessionManager.Manager.CloseSession | backend/internal/matching/webrtc.go:802-827 | exactly the close call |
| SessionManager.Manager.FailSession | backend/internal/matching/webrtc.go:844-862 | exactly the fail call |
| SessionManager.Manager.FailOffer | backend/internal/matching/webrtc.go:887-906 | exactly the failed-offer call |
| SessionManager.Manager.HandleOffer | backend/internal/matching/webrtc.go:1094-1126 | exactly the handler about which `OfferWithoutIdSettles` and `RepeatedOfferChangesNothing` speak |
| SessionManager.Manager.HandleAnswer | backend/internal/matching/webrtc.go:1130-1154 | exactly the answer handler |
| SessionManager.Manager.HandleICE | backend/internal/matching/webrtc.go:1160-1185 | exactly the candidate handler |
| Envelope.SDPAccepted | backend/internal/matching/webrtc.go:264-294 | a description is accepted exactly when its type is known and its first visible text, on whatever line, is `v=0`; a bad type is reported first, then a text without anything visible |
| Envelope.CandidateAccepted | backend/internal/matching/webrtc.go:240-249 | a candidate is accepted exactly when its first visible text is `candidate:`, and a blank one is reported as such |
| WhiteSpace.FrontIsWhiteSpace | backend/internal/matching/webrtc.go:241-294 | what is trimmed in front of a text is the UTF-8 encoding of a code point that Unicode calls white space, and of no other |
| WhiteSpace.EndIsWhiteSpace | backend/internal/matching/webrtc.go:241-294 | and so it is at the end |
| PoolRuns.PoolRefinesPlainSet | backend/internal/matching/pool.go:206-242 | with a clock that does not go back, the lazily cleaned pool gives every caller the replies of a plain set that never removes expired receivers and only ignores them |
| PoolRuns.SweepsAreInvisible | backend/internal/matching/pool.go:482-491 | runs that differ only in when and how often the sweeper ran give every caller the same replies |
| PoolRuns.SweeperIsOptional | backend/internal/matching/pool.go:482-491 | in particular those of the run without any sweep |
| PoolCount.SplitCountIsBounded | backend/internal/matching/pool.go:408-420 | at any point of any run, with the two round trips of `Count` apart and anything in between: beside what the plain set counts at the second one by the clock reading of `Count`, the reply misses exactly the receivers still active by that reading that others cleaned up in between, and has exactly those too many that had expired by it, which were all registered in between for less than a second; none that is active by the last reading of all is missed |
| PoolCount.SplitCountWithinASecond | backend/internal/matching/pool.go:408-420 | so within one second of the clock it misses nobody |
| PoolCount.SweepBetweenShows | backend/internal/matching/pool.go:408-420 | a sweep between the two changes the reply if and only if a receiver expires between the two clock readings |
| PoolRuns.Balances | backend/internal/matching/pool.go:351-491 | conservation: over any run, registrations of a member plus its presence before equal its presence after plus overwritings, hand-outs, expiries and deletions |
| PoolRuns.NoDoubleHandOut | backend/internal/matching/pool.go:123-129 | between two matches that hand out the same member there is a registration of that member |
| PoolRuns.MalformedMeansLost | backend/internal/matching/pool.go:390-400 | a match ends in the malformed-member error exactly when the member it removed has more than four fields |
| PoolRuns.PlainRunsStayReadable | backend/internal/matching/pool.go:351-400 | if no registered field holds the separator, no match ever does |
| PoolAnswers.MemberFormat | backend/internal/matching/pool.go:249-263 | a member is the three labels, a dash for a missing one, and the hash, with unit separators between them |
| PoolAnswers.AcceptsByFields | backend/internal/matching/pool.go:225-234 | any member passes the script's filters if and only if it has four fields or more, the last not empty, and each filter is empty, a star or equal to the field in its place |
| PoolAnswers.AcceptsWhatMeets | backend/internal/matching/pool.go:225-263 | so a receiver registered without separators passes if and only if each filter is empty, a star or equal to the receiver's own operator, country or app, a missing one being a dash |
| PoolAnswers.SenderGetsWhatItAskedFor | backend/internal/matching/pool.go:206-242 | a sender gets a receiver that meets its criteria label by label, the earliest to expire among those the script looks at, with the member's text deciding between equals, and that one leaves the pool; it is told not found if and only if none of those meets them |
| PoolAnswers.EverySenderGetsWhatItAskedFor | backend/internal/matching/pool.go:351-400 | the same at any point of any run from the empty pool in which no registered field holds the separator |
| PoolAnswers.WaitsItsTime | backend/internal/matching/pool.go:351-367 | a registered receiver is there, to be matched and counted, for the time it asked for, or a quarter of an hour, in whole seconds of the clock: over any run that does not hand it out, register it anew or delete its hash, and no longer |
| PoolAnswers.CountAndSweepGoByTime | backend/internal/matching/pool.go:408-420 | the count is the number of receivers whose second of expiry is yet to come, and a sweep removes exactly the others |
| PoolAnswers.DeletionIsByHash | backend/internal/matching/pool.go:442-471 | of receivers that can be read back, a deletion takes exactly those registered with that hash |
| PoolModel.ScriptMeetsSpec | backend/internal/matching/pool.go:206-242 | the earliest-expiring member among those looked at that passes all filters is removed and returned, expired members go, all else stays; nothing is returned only if none of those passes |
| PoolModel.CandidatesAreEarliest | backend/internal/matching/pool.go:216-220 | those looked at are the earliest active members, `scanLimit` of them or all |
| PoolModel.SmallPoolsAreSearchedWhole | backend/internal/matching/pool.go:371-400 | with at most `scanLimit` active members not-found means that no active member matches, and conversely |
| PoolModel.ClosingCleanupIsIdle | backend/internal/matching/pool.go:239-241 | the second cleanup of the script removes nothing |
| PoolModel.OrderIsByExpiryThenMember | backend/internal/matching/pool.go:216-220 | the order of a range is by expiry, and by member between equals |
| PoolMembers.RoundTrip | backend/internal/matching/pool.go:249-284 | registering and reading back gives the same receiver if and only if no field holds the separator and none of the three labels is a lone dash |
| PoolMembers.Readable | backend/internal/matching/pool.go:249-284 | a registered member can be read back at all if and only if no field holds the separator |
| PoolMembers.EncodeIsInjective | backend/internal/matching/pool.go:249-263 | such receivers share a member only if they are the same |
| PoolMembers.LuaMatchesAtStart | backend/internal/matching/pool.go:225-229 | the script's pattern, though not anchored, never matches later than at the first byte |
| PoolMembers.ReadersAgree | backend/internal/matching/pool.go:225-284 | the script's pattern and the Go reader see the same four fields in every member the Go reader accepts with a non-empty hash; a member only the script accepts has more than four fields |
| PoolDelete.DeleteRemovesHash | backend/internal/matching/pool.go:442-471 | a deletion whose snapshot and single removals are interleaved with any other calls leaves no member of that hash, if none was registered meanwhile; one of the empty hash does nothing |
| PoolDelete.DeletedHashIsNotMatched | backend/internal/matching/pool.go:442-471 | and no later match returns that hash until it is registered again |
| PoolDelete.DeleteSparesOthers | backend/internal/matching/pool.go:442-471 | it removes no member of another hash: what the others did meanwhile accounts for every such member |
| PoolDelete.QuietDeleteIsAtomic | backend/internal/matching/pool.go:442-471 | with nobody else around the loop is one atomic deletion |
| PoolDelete.UnreadableSurvivesDeletion | backend/internal/matching/pool.go:442-471 | a registered receiver survives the deletion of its own hash if and only if one of its fields holds the separator |
| RedisPool.RedisPool.MatchScript | backend/internal/matching/pool.go:206-242 | the script's loop, command by command, does and returns what `ScriptMeetsSpec` describes |
| RedisPool.RedisPool.RegisterReceiver | backend/internal/matching/pool.go:351-367 | the member of that receiver gets the new expiry and nothing else changes; an empty hash is refused |
| RedisPool.RedisPool.MatchSender | backend/internal/matching/pool.go:371-400 | the match step of the runs above, on the client's set: new set and reply |
| RedisPool.RedisPool.Count | backend/internal/matching/pool.go:408-420 | the count step of the runs above |
| RedisPool.RedisPool.DeleteByHash | backend/internal/matching/pool.go:442-471 | alone, exactly the members read back with that hash go, and their number is returned |
| RedisPool.RedisPool.SweepIdle | backend/internal/matching/pool.go:482-491 | exactly the expired members go, and their number is returned |
| RedisPool.RedisPool.SetScanLimit | backend/internal/matching/pool.go:319-324 | only a positive limit replaces the old one |
| TokenBuckets.GrantsAreBounded | backend/internal/api/middleware.go:514-544 | calls on one bucket at times in [from, to] are granted at most capacity + rate * (to - from) tokens, whatever came before and in whatever order the times come |
| TokenBuckets.TakeIsFunded | backend/internal/api/middleware.go:526-537 | a granted token is paid for by what the bucket held and what time has brought |
| TokenBuckets.RefillIsAdditive | backend/internal/api/middleware.go:526-534 | refilling in two goes is refilling in one, clamp included |
| TokenGrants.TokensAreCalls | backend/internal/api/middleware.go:526-537 | from below: a bucket serves at least as many calls as it holds whole tokens, at whatever times they come |
| TokenGrants.NewBucketServesItsCapacity | backend/internal/api/middleware.go:518-537 | so one never used serves its whole capacity |
| TokenGrants.InstantIsCounted | backend/internal/api/middleware.go:535-543 | with no time passing, exactly so many calls are granted as there are whole tokens, the first ones, and each takes one token |
| TokenGrants.BurstAfterSilence | backend/internal/api/middleware.go:526-537 | after a silence, exactly as many as what was left and what the silence brought make whole tokens, up to the capacity |
| TokenGrants.RefusalsCostNothing | backend/internal/api/middleware.go:538-543 | after any number of refusals the next call is granted if and only if what was left before them and the refill since make a whole token |
| TokenGrants.AllowsItsTokens | backend/internal/matching/signalling.go:389-402 | the other limiter too serves as many calls as its bucket holds whole tokens |
| TokenBuckets.RetryAfterIsTight | backend/internal/api/middleware.go:538-543 | the reported seconds bring a whole token, one second less does not bring more than was missing |
| TokenBuckets.RetryAfterIsHonest | backend/internal/api/middleware.go:538-543 | after a refusal with s seconds the next call succeeds if it comes s or more seconds later, and is refused if it comes more than a second before that |
| TokenBuckets.AllowIsTake | backend/internal/matching/signalling.go:389-402 | from equal buckets, with a clock that does not go back, the other limiter decides alike and leaves an equal bucket |
| TokenBuckets.AllowAllIsTakeAll | backend/internal/matching/signalling.go:389-402 | so it decides alike over any sequence of calls |
| TokenBuckets.AllowedIsBounded | backend/internal/matching/signalling.go:389-402 | and keeps the same rate bound |
| RateLimiter.NormaliseIsUsable | backend/internal/api/middleware.go:486-504 | whatever the settings, every capacity is at least one and the refill is positive; good settings are kept |
| RateLimiter.KeyIsInjective | backend/internal/api/middleware.go:546-551 | two callers share a bucket only if they are the same device, or both anonymous |
| RateLimiter.DevicesAreIndependent | backend/internal/api/middleware.go:514-551 | the decisions on one device in a run of calls of all devices are those of the device alone |
| DeviceGrants.BurstIsServed | backend/internal/api/middleware.go:486-551 | whatever the settings, with their defaults: from a fresh limiter each device is served its burst of calls, and anonymous callers together theirs, whoever else calls |
| DeviceGrants.MinuteBringsRefill | backend/internal/api/middleware.go:486-551 | a device that has used up its burst and comes back a minute later is served exactly as many calls as a minute refills, or its burst if that is less |
| RateLimiter.DeviceIsBounded | backend/internal/api/middleware.go:514-551 | so each device is held to its own capacity plus refill in any stretch of time |
| RateLimiter.WaitingPays | backend/internal/api/middleware.go:538-543 | a refused device that waits as told is served, whatever the others do meanwhile |
| RateLimiter.ReachableIsProper | backend/internal/api/middleware.go:514-544 | no run of calls leaves a bucket above its capacity or below nothing |
| RateLimiter.EveryWindowIsBounded | backend/internal/api/middleware.go:514-551 | so from a fresh limiter, after any calls at all, each device is held to its capacity plus refill in any stretch of time |
| RateLimiter.WaitingAlwaysPays | backend/internal/api/middleware.go:538-543 | from a fresh limiter, after any earlier calls, a refused device that waits as told is served, and one that comes more than a second too early is refused, whatever the others do meanwhile |
| RateLimiter.Limiter.constructor | backend/internal/api/middleware.go:486-504 | no buckets yet, and usable settings |
| RateLimiter.Limiter.Take | backend/internal/api/middleware.go:514-544 | the buckets and the answer are those of the run above; buckets of other keys are untouched |
| RateLimiter.TokenBucket.Allow | backend/internal/matching/signalling.go:389-402 | the bucket and the answer are those of the second limiter |
| ClientHello.DecodeExtensions | backend/internal/analysis/tls.go:346-365 | on every block on which the walk ends, with its 16-bit advance: the types it reads that are not GREASE, in order, and whether it read one that is |
| ClientHello.WireBlocksAreRead | backend/internal/analysis/tls.go:346-365 | blocks of at most 65535 bytes, the limit of section 4.1.2 of RFC 8446, are all such blocks, and are read as their longest well-formed prefix |
| ClientHello.WalkIsParse | backend/internal/analysis/tls.go:346-365 | so is any longer block without a payload of 65532 bytes or more |
| ClientHello.ParseIsLongest | backend/internal/analysis/tls.go:346-365 | longest: any list of extensions whose wire form is a prefix of the bytes is a prefix of the list read |
| ClientHello.SerialiseOfParse | backend/internal/analysis/tls.go:346-365 | the bytes are the wire form of the list read followed by a rest in which no whole extension stands |
| ClientHello.WalkReadsWhatWasSent | backend/internal/analysis/tls.go:346-365 | decoding the wire form of any extension list within that limit gives the list back |
| ClientHello.HaltsIffUnstuck | backend/internal/analysis/tls.go:346-365 | on input of any length the loop ends if and only if it meets no payload of exactly 65532 bytes |
| ClientHello.OneByteMoreCanHang | backend/internal/analysis/tls.go:346-365 | a block of 65536 bytes exists on which it does not end |
| ClientHello.GREASEIsTheRegisteredSet | backend/internal/analysis/tls.go:305-309 | the byte test accepts exactly the sixteen values of section 2 of RFC 8701 |
| ClientHello.DecodeCipherSuites | backend/internal/analysis/tls.go:317-332 | the big-endian suites that are not GREASE, in order, and whether any was; nothing for an odd number of bytes |
| ClientHello.SuitesOfPack | backend/internal/analysis/tls.go:239-262 | repacking suites big-endian and decoding them gives them back |
| ClientHello.ClientHelloFingerprint | backend/internal/analysis/tls.go:239-265 | sixteen bytes of the hash of the packed suites followed by the raw extensions; zeros without a hello |
| FingerprintBytes.PreimageBytes | backend/internal/analysis/tls.go:251-262 | the hashed bytes: two for each suite, the high half first, and from there on the raw extensions |
| FingerprintBytes.SamePreimage | backend/internal/analysis/tls.go:251-262 | two hellos have the same preimage if and only if the suites of one begin with those of the other, and the other's extensions are the bytes of the further suites and then the extensions of the one: there is no boundary |
| FingerprintBytes.PreimageTellsApart | backend/internal/analysis/tls.go:251-262 | so with equally many suites, if and only if suites and extensions are equal |
| FingerprintBytes.WireBytesAreHashed | backend/internal/analysis/tls.go:190-262 | of a hello without GREASE the very bytes of both lists are hashed; of a suite list of odd length nothing is |
| ClientHello.GREASESuitesLeaveNoTrace | backend/internal/analysis/tls.go:239-262 | two raw suite lists lead to the same preimage if and only if they agree after dropping GREASE |
| ClientHello.InsertedGREASELeavesNoTrace | backend/internal/analysis/tls.go:239-262 | a GREASE suite inserted anywhere leaves the preimage unchanged |
| ClientHello.FingerprintHex | backend/internal/analysis/tls.go:269-278 | two lower-case hexadecimal digits for each byte, high half first |
| FingerprintBytes.DigitsSpellTheirValue | backend/internal/analysis/tls.go:269-278 | each digit stands for its value, letters being lower case |
| ClientHello.HexIsInjective | backend/internal/analysis/tls.go:269-278 | fingerprints with equal texts are equal |
| ClientHello.DedupOrdered | backend/internal/analysis/tls.go:372-386 | in place of a list, its first occurrences |
| ClientHello.DedupIsDedup | backend/internal/analysis/tls.go:372-386 | these are each value once, ordered by where it first occurs |
| ClientHello.DedupIsUnique | backend/internal/analysis/tls.go:372-386 | and no other list is |
| ClientHello.Summarise | backend/internal/analysis/tls.go:190-216 | suites, extension types once each with their number, whether either list was greased, and the raw extension bytes |
| FingerprintBytes.KindsAreReported | backend/internal/analysis/tls.go:346-365 | the types reported are those of the extensions in order, less the registered GREASE values, whose presence is noted |
| ClientHello.SummaryOfSent | backend/internal/analysis/tls.go:190-216 | for a well-formed hello these are the suites and the extensions the client sent, less GREASE |
| SignallingRuns.RunKeepsSound | backend/internal/matching/signalling.go:244-295 | in every run of hub calls, the lookup and the channel send of one call apart with anything in between: the open inboxes are exactly those in the map, each under its own hash, none holds more than 64 envelopes, and a send meets a closed channel if and only if it comes after its inbox was closed |
| SignallingRuns.AcceptedIsDeliveredOrPending | backend/internal/matching/signalling.go:244-295 | for every inbox ever handed out, what was accepted is what was delivered followed by what still waits, in order, across reconnects and unregistration |
| SignallingRuns.ClosedOnlyDrains | backend/internal/matching/signalling.go:218-227 | a closed inbox stays closed and accepts nothing more |
| SignallingRuns.EndMeansAllDelivered | backend/internal/matching/signalling.go:465-474 | a write loop that sees the end of its channel has had everything ever accepted for it |
| SignallingRuns.ConnectedIsOpen | backend/internal/matching/signalling.go:299-303 | the connected count is the number of open inboxes |
| SignallingDelivery.RegisterConnects | backend/internal/matching/signalling.go:244-261 | any device with a hash of 16 to 64 bytes can connect unless cancelled: it gets a fresh empty inbox, which a lookup finds, and of the others only its own earlier inbox is closed |
| SignallingDelivery.UndeliverableIsRefused | backend/internal/matching/signalling.go:268-284 | a send that is cancelled, or to a device that is not connected, does nothing and says which |
| SignallingDelivery.SendsFillTheInbox | backend/internal/matching/signalling.go:268-284 | a connected device takes what is sent to it, in order, until 64 envelopes wait, and then nothing |
| SignallingDelivery.ReceivesEmptyTheInbox | backend/internal/matching/signalling.go:465-474 | its write loop gets what waits, the oldest first |
| SignallingDelivery.SentIsDelivered | backend/internal/matching/signalling.go:268-284 | so up to 64 envelopes sent to a device with an empty inbox are delivered by its next turns, in order |
| SignallingDelivery.FrameIsJudged | backend/internal/matching/signalling.go:477-537 | a frame that is no ICE candidate is dropped unless its kind is one of the other seven, its hashes have proper lengths and it has a session and a timestamp; refused if it is not from the connection's own hash; and passed on if it is addressed |
| SignallingDelivery.GoodFrameArrives | backend/internal/matching/signalling.go:477-537 | a frame to be passed on, to a device that is connected and has room, is put behind what waits in its inbox, and is what the next turn of its write loop delivers if nothing waited |
| SignallingDelivery.BurstPasses | backend/internal/matching/signalling.go:503-516 | a connection passes the first ICE frames of a session on, its burst of them, whatever else it has read |
| SignallingDelivery.LimitsAreThoseSet | backend/internal/matching/signalling.go:361-369 | the limits are the positive ones last set, and at first twenty at once and ten a second |
| SignallingRuns.HeldUntilDisplaced | backend/internal/matching/signalling.go:244-295 | an inbox stays open, and in the map under its hash, exactly until that hash is registered again or unregistered |
| SignallingRuns.SplitSendPanicsWhenDisplaced | backend/internal/matching/signalling.go:268-284 | a send whose channel operation comes later than its lookup meets a closed channel if and only if the inbox was displaced in between; otherwise it is the send made at once |
| SignallingRuns.SplitSendPanics | backend/internal/matching/signalling.go:268-284 | which happens: the receiver unregisters between the lookup and the channel send |
| RelayRuns.DisconnectCutsTheHolder | backend/internal/matching/signalling.go:413-463 | over any run of connections, an inbox stays open exactly until a connection of its hash is made or one of that hash ends, be it an older one than its own |
| RelayRuns.NewConnectionIsCut | backend/internal/matching/signalling.go:413-463 | which happens: a device connects anew, its old connection ends, and the new one's inbox is closed while it still runs |
| RelayRuns.DeliveriesAreGenuine | backend/internal/matching/signalling.go:477-537 | in every run of connections on the hub, whatever is delivered to a device was handed over earlier by a connection that had read it off the wire, whose registered hash is the sender the frame names, and was addressed to that device and well formed |
| RelayRuns.QueuedWasSent | backend/internal/matching/signalling.go:477-537 | the same of whatever is accepted for an inbox |
| RelayRuns.PlayConserves | backend/internal/matching/signalling.go:413-543 | with connections too, what was accepted for an inbox is what was delivered from it followed by what still waits |
| RelayRuns.LateHandOverPanics | backend/internal/matching/signalling.go:268-284 | a connection that hands over a frame some time after looking up its receiver meets a closed channel if and only if a connection of that hash was made or ended in between |
| RelayRuns.HandOverPanics | backend/internal/matching/signalling.go:268-284 | which happens: the receiver connects anew between the lookup and the hand-over |
| RelayRuns.PlayIsARun | backend/internal/matching/signalling.go:413-543 | connections act on the hub only through its calls: states and events of any run of theirs are those of a run of the hub |
| RelayRuns.IceIsBounded | backend/internal/matching/signalling.go:503-516 | one connection lets through at most burst + rate * (to - from) ICE frames of one session in any stretch of time |
| RelayRuns.EveryWindowIsBounded | backend/internal/matching/signalling.go:503-516 | the same from its very start, whatever it has read before |
| Signalling.LimitsStayUsable | backend/internal/matching/signalling.go:361-369 | a handler always has a burst of at least one and a positive refill |
| SignallingHub.HubInbox.Close | backend/internal/matching/signalling.go:218-227 | the inbox is closed, its contents kept; closing twice is closing once |
| SignallingHub.HubInbox.Receive | backend/internal/matching/signalling.go:465-474 | the oldest envelope while there is one, then the end if closed |
| SignallingHub.Hub.Register | backend/internal/matching/signalling.go:244-261 | a fresh inbox under that hash, and the one it replaces closed; refused when cancelled or the hash has a bad length |
| SignallingHub.Hub.Look | backend/internal/matching/signalling.go:269-279 | the inbox under that hash, or refused because cancelled or unknown |
| SignallingHub.HubInbox.Offer | backend/internal/matching/signalling.go:280-283 | the channel send: appended while there is room, else refused without effect |
| SignallingHub.Hub.Send | backend/internal/matching/signalling.go:268-284 | the two with nothing in between, on the inbox in the map |
| SignallingHub.Hub.Unregister | backend/internal/matching/signalling.go:288-295 | the inbox under that hash is closed and forgotten, all else untouched |
| SignallingHub.Hub.ConnectedCount | backend/internal/matching/signalling.go:299-303 | the number of hashes in the map |
| SignallingHub.Hub.IsConnected | backend/internal/matching/signalling.go:306-311 | whether the hash is in the map |
| SignallingHub.Connection.Judge | backend/internal/matching/signalling.go:477-537 | one turn of the read loop: the frame is dropped, refused, rate-limited or passed on, and only the bucket of its session is charged |
| Decimal.Itoa | backend/internal/api/errors.go:154-174 | the decimal text of every 64-bit number except the least, which comes out as a bare minus sign |
| Decimal.ValueOfDigits | backend/internal/api/errors.go:154-174 | of any size: the digits spell the number, without a zero in front |
| Decimal.FillDigits | backend/internal/api/errors.go:164-169 | the digits written backwards into the twenty-byte buffer always leave room for the sign |
| Decimal.PrintedIsInjective | backend/internal/api/errors.go:154-174 | two 64-bit numbers never print the same |
| Decimal.Atoi | backend/internal/matching/webrtc.go:494-510 | the number its leading digits spell, or the error met first: overflow past 2^30, a byte that is no digit, or an empty text |
| Decimal.ReadsWhatWasPrinted | backend/internal/matching/webrtc.go:494-510 | a printed number up to 2^30 reads back as itself, a larger one overflows, a negative one is invalid |
| Decimal.PrintsWhatWasRead | backend/internal/matching/webrtc.go:494-510 | printing a number that was read gives the text back if and only if it had no zeros in front |
| ScannerText.StripIsOnePass | tools/lib/scanner.py:46-110 | stripping line by line with the three carried flags is one pass over the whole text by a machine in one of four modes, and at most one flag is ever set |
| ScannerText.StripComposes | tools/lib/scanner.py:98-110 | stripping one half of a file and then the other from the flags the first half left is stripping the file |
| ScannerText.LinesStayInPlace | tools/lib/scanner.py:98-110 | the stripped file has as many lines as the file, and each is a subsequence of the line it came from |
| ScannerText.UnchangedIffClean | tools/lib/scanner.py:46-110 | a file comes out unchanged if and only if no block opens in it and no line is a comment |
| ScannerText.StrippingTwiceStripsMore | tools/lib/scanner.py:46-95 | stripping is not idempotent: a removed block can leave a new opener behind |
| ScannerTwice.SignBehindBlockIsStrippedLater | tools/lib/scanner.py:65-72 | nor is it where a removed block leaves a comment sign at the start of its line: a text on which the second stripping removes more |
| ScannerTwice.StrippingTwiceIsOnceIffSeamless | tools/lib/scanner.py:46-110 | stripping a stripped file changes nothing if and only if the file passes a check made in one walk over it: on no line that a block has touched does a kept character complete, with what was kept before it, a block opener or a line comment |
| ScannerTwice.WithoutBlocksOnceIsEnough | tools/lib/scanner.py:46-110 | so a file in which no block opens, however many of its lines are comments, is stripped twice to the same text as once |
| Scanner.StripCommentsLine | tools/lib/scanner.py:46-95 | for any setting of the flags, what the turns of the walk keep of the line, and the flags it ends with |
| Scanner.StripFile | tools/lib/scanner.py:98-110 | the lines stripped one after the other and joined again, and their number |
| ScannerMatch.ReportsAreUses | tools/lib/scanner.py:113-133 | a tool is reported for a line if and only if it is on the list and is the base name of a word of that line of the stripped file, with the line's original number |
| ScannerMatch.ReportsAscend | tools/lib/scanner.py:113-133 | reports come in the order of the lines |
| ScannerMatch.PiecesAreWords | tools/lib/scanner.py:42-43 | the non-empty pieces of a split at runs of separators are exactly the longest stretches without one |
| ScannerMatch.BaseIsLast | tools/lib/scanner.py:130-131 | the base name is what follows the last slash |
| ScannerEffects.CommentLines | tools/lib/scanner.py:65-72 | a line is a comment if and only if a hash sign or two slashes are the first thing on it that is no white space |
| ScannerEffects.CommentLineIsStripped | tools/lib/scanner.py:65-72 | of a comment line exactly the margin is kept |
| ScannerEffects.BlockIsStripped | tools/lib/scanner.py:50-94 | a block of any of the three kinds goes, marks included, and the line goes on behind it as code |
| ScannerEffects.CodeIsKept | tools/lib/scanner.py:73-74 | a character behind the start of a line at which no block opens is kept |
| ScannerEffects.WordsAreSplit | tools/lib/scanner.py:42-43 | white space and nine signs come between words, and nothing else does |
| ScannerEffects.ToolsAreReported | tools/lib/scanner.py:36-39 | a word is reported, bare or under any path, if and only if it is one of the twelve tools |
| WhiteSpace.ScannerAddsSeparators | tools/lib/scanner.py:42-43 | its white space is that of Unicode and the four information separators of ASCII |
| ScannerMatch.MatchFile | tools/lib/scanner.py:113-133 | the hits of the stripped lines, numbered from one; skipping blank lines and empty pieces loses nothing |

## Left out

- SessionRuns.StaleHandlesAreHarmless: the expiry of one session is one step, although webrtc.go:931-937 lets go of the session lock between its check and the forced transition, and an action under that lock is one step too; `SessionWalks` takes both apart.
- SessionLocks.LocksMakeStepsAtomic: a walk of the map is one step that waits until all its locks are free; `SessionWalkRuns.WalkingRunsAreSound` states the invariants for walks that visit one session at a time.
- Deadlock freedom of the manager: false; `SessionRaces.WalkEndsIffNotHung` says which states are stuck.
- SessionRuns.ReachableIsSound: the same single-step expiry; `SessionWalkRuns.WalkingRunsAreSound` is the finer statement.
- SessionRuns.EndedSessionsAreFrozen: the same; `SessionWalkRuns.OrderlyIffNeverRaces` says when it holds of the code.
- SessionLifetimes.KeptUntilLost: the same, and each operation on a session is one step.
- SessionRuns.GoodExactlyWhenHarmless: the same, and the deletion after an end is part of its step; runs that reuse ids are not modelled lock by lock.
- SessionWalkRuns.OrderlyIffNeverRaces: creations use no id an earlier session had; a part of an action - its tests, the fields it fills in, reading the state, setting it, the timestamp - is one turn, and so is the forced close with its deletion; what callers are told is not part of these runs.
- SessionWalkRuns.WalkingRunsAreSound: the same.
- SessionIntrusions.SafeIffNeverIntrudes: the same, and fresh ids too.
- SessionRaces.ClosedStaleUnlessRefreshed: sessions are stamped with readings no earlier than the one the walk began with.
- The text of failure reasons: kept as structured values, not rendered.
- Session states outside the six constants, `Valid`, `Snapshot`, views, `Expire` as an exported wrapper, STUN and TURN settings, long polling, `translateError` and the HTTP and JSON layers of the handlers.
- PoolRuns.SweepsAreInvisible: `Count` sends its two commands as one step here, as in the other runs of that module, and the number `DeleteByHash` returns is not among the replies compared; `PoolCount` states what the two commands apart give.
- PoolRuns.PoolRefinesPlainSet: the same of `Count`.
- PoolRuns.SweeperIsOptional: the same of `Count`.
- RedisPool.RedisPool.Count: stated for its two commands with nothing in between; see `PoolCount`.
- SessionLocks.LockedRunsAreSound: the same of walks as `LocksMakeStepsAtomic`; `WalkingRunsAreSound` is the finer statement.
- PoolAnswers.SenderGetsWhatItAskedFor: speaks of receivers registered without a separator in a field; of other members `AcceptsByFields` and `MalformedMeansLost` do.
- RedisPool.RedisPool.DeleteByHash: the number it returns is stated for a deletion nobody interrupts.
- RedisPool.RedisPool.MatchScript: the lower bound of its range is `now` and not a millionth of a second more, which selects the same members once the expired ones are gone.
- Redis and network errors, connection set-up, and the ticker of `RunSweeper`.
- TokenBuckets.RetryAfterIsHonest: asks that the clock has not gone back before the refusal; the rate bound does not.
- Rounding of floating-point tokens: reals are used.
- ClientHello.ClientHelloFingerprint: the hash is any function with 32-byte results, so nothing is said about collisions; suites and extensions are concatenated without a boundary.
- Record and handshake framing of a Client Hello, SNI and the version names: done by the gopacket library, which is not part of this model.
- SignallingHub.HubInbox.Offer: asks for an open channel; on a closed one the code panics, which `Fill` and `Put` in `Signalling` model and `RunKeepsSound` speaks of.
- SignallingHub.Hub.Send: as a method it has nothing between its lookup and its channel send; the runs of `SignallingRuns` and `RelayRuns` have.
- RelayRuns.DeliveriesAreGenuine: the hash a connection presents is taken as it comes, since the handler leaves its authentication to the edge.
- Whether a signalling handler ever finishes: it waits for a write loop that ends only when the inbox is closed, which its own deferred call does.
- WebSocket framing and deadlines, JSON decoding of frames, and the error frames sent back to a sender.
- Scanner input and output: decoding, newline translation, arguments and exit codes.
- Scoring, entropy, telemetry sniffing, the echo bot, user deletion, and the string-matching checkers under infra and tools: one-branch or easy facts, or logarithms.

# Pubky core FFI: a verified model of its protocols

The crate wraps an SDK for mobile hosts. What it adds of its own is a set of concurrent protocols and
bounded loops, and these are what this project models and proves:

- **Session cache** (`RecencyList`, `LruCache`, `SessionProtocol`, `SessionRuns`, `SessionAnswers`,
  `SessionLocks`, `SessionErrors`): an LRU keyed by secret with use and mint stamps, proved to be a move-to-front list;
  on top of it single-flight minting through reference-counted locks, re-mints after a rejection, the
  retry of an operation, and network switches, interleaved for any number of callers.
- **Sign-in flows addressed by id** (`FlowRegistry`, `FlowProtocol`, `FlowRuns`, `FlowAnswers`,
  `FlowCap`, `AwaitLoop`): the registry with its cap, TTL and sweep, and every poll, await, cancel, sweep,
  delivery and restore as steps of one machine; where the single approval is at every moment.
- **Resume loop and generation slot** (`ResumeLoop`, `ResumeSlot`), **cookie exchange**
  (`CookieExchange`), **foreign objects** (`ForeignObject`), **wire converters** (`Utf8`,
  `WireFormat`), **event streams** (`EventStream`) and the **capped body reader** (`BodyLimit`).

A protocol is a state, an action per lock-protected region (or per event of the outside world), and
runs: sequences of states in which each follows from the one before by an enabled action. Results of
the SDK and the network are free inputs, time is a counter that never goes back. What the source
changes in place by one caller at a time is a class: `Lru`, `Registry`, `Slot`, `ByteBuffer`; the
methods of the first three are proved to be the very updates that the protocol steps apply. `dafny verify dfyconfig.toml`
checks everything.

## Where the code and its documentation disagree

The model follows the code. Each promise below is shown to fail by a concrete run, and the exact
condition under which it holds is proved.

- A flow is answered expired only after a look in its channel, so that an approval which came in time
  is not lost (src/auth_flow_handles.rs:18-23, 104-112): the listener's ack, its hand-over, the look
  and the reading of the clock are separate steps. `FlowRuns.ExpiryCanLoseATimelyApproval` loses one
  handed over after the look, `FlowRuns.ExpiryCanLoseAnAckedApproval` one acked before it;
  `FlowRuns.LostExactlyToLateArrivals` says exactly when.
- The sweep "bounds the map at twice the cap" (src/auth_flow_handles.rs:104-106): a start stamps its
  flow before it takes the lock. `FlowCap.TwiceTheCapExactly` gives the condition,
  `FlowCap.SlowStartsPassTwiceTheCap` a run for every cap and TTL, `FlowCap.IdleBound` what holds
  instead.
- The lock map is meant to empty itself (src/session_cache.rs:291-297): two callers that check before
  either drops leave an entry. `SessionLocks.ALockCanBeLeftBehind`, `SessionLocks.UnusedExactly`.
- A switch clears the cache so that no session of the outgoing client is used again
  (src/lib.rs:205-208): a mint in flight stores one afterwards. `SessionRuns.AnOldSessionCanBeCached`,
  `SessionRuns.OldSessionsWereInFlight`.
- Saved resume state belongs to the newest flow (src/grant_resume.rs:70-75): overlapping starts can
  save the older. `ResumeSlot.OverlappingStartsSaveTheOlder`, `ResumeSlot.SavedIsNewestExactly`.

## Model

| member | source | states |
|---|---|---|
| RecencyList.TouchKeepsWellFormed | src/session_cache.rs:155-160 | a lookup keeps secrets distinct, the size within a capacity of at least one, and every mint stamp between 1 and the clock |
| RecencyList.TouchBySecret | src/session_cache.rs:155-160 | a lookup changes no entry: every secret keeps its session and mint stamp |
| RecencyList.PutKeepsWellFormed | src/session_cache.rs:167-180 | an insert keeps the size within capacity, secrets distinct and stamps bounded by the clock |
| RecencyList.PutBySecret | src/session_cache.rs:167-180 | an insert stores its own session under a stamp newer than all, and whatever else it keeps is unchanged |
| RecencyList.PutAfterCut | src/session_cache.rs:167-180 | making room first and inserting after is the list operation of an insert |
| RecencyList.DropBySecret | src/session_cache.rs:245-247 | a forget removes exactly its own secret |
| RecencyList.ResizeBySecret | src/session_cache.rs:197-200 | a new capacity keeps the invariant, exactly the secrets whose place in the recency order is within it, and each of those unchanged |
| RecencyList.PutEvicts | src/session_cache.rs:167-180 | an insert of a new secret evicts exactly the least recently used one of a full cache, and nothing from a cache with room |
| RecencyList.FoundIsOnly | src/session_cache.rs:135-139 | the entry found for a secret is the only one it has |
| RecencyList.TouchMovesToFront | src/session_cache.rs:155-160 | a lookup that hits makes its secret the most recently used and leaves all others in their order; one that misses changes no order |
| RecencyList.PutGoesInFront | src/session_cache.rs:167-180 | an insert makes its secret the most recently used and leaves what else it keeps in order |
| RecencyList.JustUsedSurvives | src/session_cache.rs:155-195 | a secret just looked up survives any run of other secrets' inserts shorter than the capacity |
| LruCache.SizeAgrees | src/session_cache.rs:135-139 | the stamped map and the recency list it stands for have the same size |
| LruCache.LastIsOldest | src/session_cache.rs:183-195 | the last of the list is the one entry whose use stamp is strictly smallest |
| LruCache.RepresentationUnique | src/session_cache.rs:135-139 | stamps determine the order: a stamped map stands for one recency list only |
| LruCache.RepresentsStore | src/session_cache.rs:155-180 | an entry stamped later than all others is the front of the list |
| LruCache.Lru.constructor | src/session_cache.rs:142-148 | a new cache is the empty list, with the capacity asked for, or one for none |
| LruCache.Lru.Agreement | src/session_cache.rs:155-160 | map and list hold the same secrets with the same sessions and mint stamps |
| LruCache.Lru.Get | src/session_cache.rs:155-160 | a lookup answers from the list; a hit is then first in the order of use, and the others keep theirs |
| LruCache.Lru.MintedAfter | src/session_cache.rs:162-165 | answers a session exactly when the cached one is stamped later than asked; a hit is first in the order of use either way |
| LruCache.Lru.EvictOldest | src/session_cache.rs:183-195 | one eviction removes exactly the list's last element |
| LruCache.Lru.TrimTo | src/session_cache.rs:183-195 | the eviction loop leaves exactly the most recently used entries, in their order |
| LruCache.Lru.Insert | src/session_cache.rs:167-180 | the new entry is first in the order of use, under a fresh stamp; what else is kept stays in order, and the rest is the end of the list |
| LruCache.Lru.Forget | src/session_cache.rs:245-247 | a forget removes its secret and leaves the others in order |
| LruCache.Lru.Clear | src/session_cache.rs:249-251 | a clear empties the list and keeps clock and capacity |
| LruCache.Lru.SetCapacity | src/session_cache.rs:197-200 | the capacity is the one asked for, or one for none, and what is left is the front of the list |
| SessionProtocol.StepKeepsInv | src/session_cache.rs:277-448 | every lock region of every caller keeps: shared locks, exclusive bodies, nothing cached during a mint, stamps issued, the retry discipline |
| SessionProtocol.BodiesDiffer | src/session_cache.rs:277-298 | two callers inside single-flight bodies have different secrets |
| SessionProtocol.TwoMeansAlone | src/session_cache.rs:291-297 | with another clone alive the reference count is above two |
| SessionProtocol.RemovedWhenAlone | src/session_cache.rs:291-297 | a lock is removed from the map only when no other caller of its secret is using it |
| SessionRuns.RunInv | src/session_cache.rs:277-448 | the invariant holds in every state of every run, from an empty cache of any capacity |
| SessionRuns.OneMintPerSecret | src/session_cache.rs:277-298 | in no reachable state do two callers run a mint body for one secret |
| SessionRuns.LiveCallersShareTheLock | src/session_cache.rs:277-298 | two live callers for a secret hold one and the same lock, the map's |
| SessionRuns.NothingCachedDuringAMint | src/session_cache.rs:302-349 | from the decision to mint until the result is remembered, the cache holds nothing for that secret |
| SessionRuns.MintsFollowAnUnsatisfiedLook | src/session_cache.rs:302-349 | whoever is about to mint looked under its secret's lock, found nothing it would take, and has been on the way to its mint ever since |
| SessionRuns.NothingWantedDuringAMint | src/session_cache.rs:302-349 | from that look until the result is remembered, nothing the caller would have taken is cached for its secret |
| SessionRuns.RemintIsNewer | src/session_cache.rs:322-349 | whatever single-flight hands out is stamped later than the stamp the caller asked to be newer than |
| SessionAnswers.EveryAnswerWasStored | src/session_cache.rs:302-349 | nobody is given a session that some caller's mint of that secret did not store, under its stamp |
| SessionAnswers.RefreshIsFresh | src/session_cache.rs:415-418 | a refresh answers a session stored after the refresh's own first look, so newer than whatever that look saw |
| SessionAnswers.RetriedExactly | src/session_cache.rs:425-463 | an operation is tried again exactly when it was the caller's first run, on a session its first look found cached, and failed with an authentication error, a 401 or a 403; otherwise the caller is done with that run |
| SessionAnswers.RetryIsDecided | src/session_cache.rs:425-448 | a run that is tried again ends the caller only through another run or through the failure of its own import |
| SessionAnswers.SecondRunIsNewer | src/session_cache.rs:425-448 | of two runs, the first was on a session stored before the caller's first look, the second on one stored after it, under a later stamp |
| SessionAnswers.ConcurrentCallersShare | src/session_cache.rs:302-349 | whatever its job, a caller that looked before another's mint was stored takes that session under the lock, unless a step took it out of the cache |
| SessionAnswers.ConcurrentMintsAreSeparated | src/session_cache.rs:302-349 | and if it mints all the same, a step between the two took the session out, one of the removals |
| SessionAnswers.WarmCallersMintNothing | src/session_cache.rs:302-308 | a caller of session_for whose look finds its secret cached is done with that session |
| SessionRuns.AtMostOneRetry | src/session_cache.rs:425-463 | an operation is attempted at most twice, the second time only after an Authentication error or a 401 or 403 (sections 15.5.2 and 15.5.4 of RFC 9110), on a session stamped later |
| SessionRuns.SlotFate | src/session_cache.rs:135-349 | a step keeps a cached session as it is, or removes it, and it removes it if and only if it is a forget of its secret, a clear, a capacity its place is beyond, a mint into a full cache of which it is the least recently used, or a re-mint by a caller that saw it fail |
| SessionRuns.KeptUnlessRemoved | src/session_cache.rs:302-349 | a session some caller wants stays, unchanged, through any stretch of a run in which no step takes it away, whatever else is minted or resized meanwhile |
| SessionRuns.MintsAreSeparated | src/session_cache.rs:302-349 | between two mints of a secret, the second wanting no more than the first gave, there is a step before which such a session was cached and after which it is gone; a re-mint that removed it had itself seen at least that stamp fail |
| SessionRuns.StoredIsCached | src/session_cache.rs:315-316 | right after a mint is remembered its session is cached under the new stamp |
| SessionRuns.LaterCallersReuse | src/session_cache.rs:302-320 | a caller that looks under the lock after another's mint takes that very session, with its stamp, unless a step in between took it out of the cache |
| SessionRuns.MintBegan | src/session_cache.rs:391-393 | a mint in flight was begun by an import that read the client the mint uses, and has been in flight in every state since |
| SessionRuns.ClientChangesBySwitch | src/lib.rs:202-209 | the client changes only when a switch sets it |
| SessionRuns.CachedByStore | src/session_cache.rs:241-251 | whatever is cached was put there, with its stamp, by some caller's mint, and no switch has cleared the cache since |
| SessionRuns.NoneSurvivesASwitch | src/lib.rs:202-209 | nothing cached before a switch survives it: what is cached in any later state is stamped after it |
| SessionRuns.OldSessionsWereInFlight | src/lib.rs:202-213 | every cached session has an import and a store behind it, and its mint was in flight at every switch finished since that import; once switches are over, it is of an older client if and only if a switch was set and cleared between the two |
| SessionRuns.AnOldSessionCanBeCached | src/lib.rs:202-213 | a run after whose switch a session of the client before it is cached |
| SessionRuns.CleanStep | src/lib.rs:202-252 | no step but a switch brings a foreign client's session into a clean cache |
| SessionRuns.CleanUntilNextSwitch | src/lib.rs:202-252 | a cache and mints in flight that are all of the current client stay so in every later state until the next switch |
| SessionRuns.CleanAfterAQuietSwitch | src/lib.rs:202-252 | after a switch that finds no mint in flight, every cached session is of the current client in every later state until the next switch |
| SessionLocks.StaysForAnother | src/session_cache.rs:291-297 | in a tidy state a lock that survives the count check has another user |
| SessionLocks.PromptReclaimIsTidy | src/session_cache.rs:291-297 | check and drop taken as one step leave no unused lock behind |
| SessionLocks.PromptRunsAreTidy | src/session_cache.rs:277-298 | so in every run with prompt drops every lock in the map is in use |
| SessionLocks.LocksAreExactlyTheWanted | src/session_cache.rs:277-298 | in such runs the map's keys are exactly the secrets with live callers |
| SessionLocks.UserBeside | src/session_cache.rs:291-297 | the other users of a lock are exactly its other holders that have not checked the count yet |
| SessionLocks.LeftBehindExactly | src/session_cache.rs:291-297 | in any run, a step leaves a lock behind if and only if it is a count check whose only company is callers between their own check and their drop |
| SessionLocks.UnusedExactly | src/session_cache.rs:277-298 | in any run and at any state, a lock stands in the map unused if and only if some such check left it behind and no caller of its secret has joined since |
| SessionLocks.ALockCanBeLeftBehind | src/session_cache.rs:291-297 | a run after which the map keeps a lock that no caller holds |
| SessionErrors.MarkerIffRejected | src/session_cache.rs:84-123 | the message of a failure starts with the rejection marker exactly when its typed error was a rejection, or an operation's verb already starts with it |
| SessionErrors.MarkerTellsRejections | src/session_cache.rs:104-123 | the marker separates rejections from all other failures under exactly the verbs that do not start with it |
| SessionErrors.RejectionKeepsItsText | src/session_cache.rs:84-123 | a message about a rejection contains the error's own text and, for an operation, the caller's verb |
| SessionErrors.FailureKeepsItsChain | src/session_cache.rs:112-122 | a message about any other failure contains the whole chain of its causes and, for an operation, starts with the caller's verb |
| SessionErrors.EndsWithTheLastOutcome | src/session_cache.rs:425-448 | in every run, what with_session reports is its caller's last typed outcome, import or operation, whatever came before |
| SessionErrors.MarkerOverRuns | src/session_cache.rs:84-123 | over every sequence of outcomes, the final message starts with the marker exactly when the caller's last typed error was a rejection (or its operation's verb starts with it) |
| FlowRegistry.Registry.EvictExpired | src/auth_flow_handles.rs:113-116 | a sweep keeps exactly the flows in a call's hands and the idle ones no older than twice the TTL, each as it was |
| FlowRegistry.Registry.LiveCount | src/auth_flow_handles.rs:120-125 | counts exactly the flows inside their TTL |
| FlowRegistry.Registry.Insert | src/auth_flow_handles.rs:181-190 | a start is admitted exactly when the live flows are below the cap, and a refused one changes nothing |
| FlowRegistry.Registry.Take | src/auth_flow_handles.rs:212-231 | unknown for an id not there, busy for one in another call's hands, otherwise what the entry held; the listener leaves the map before the sweep, so the flow asked for is never swept |
| FlowRegistry.Registry.GiveBack | src/auth_flow_handles.rs:239-248 | succeeds exactly when the entry is still there, and restores only its listener |
| FlowRegistry.Registry.Cancel | src/auth_flow_handles.rs:451-461 | answers true exactly for a flow in a call's hands at any age or an idle one not past collection; afterwards the id is unknown and every other flow within its time is as it was |
| FlowProtocol.StepKeepsInv | src/auth_flow_handles.rs:194-461 | every step of every call, cancel, sweep and listener, its ack and its hand-over apart, keeps: one occupant per flow, entries matching hands, an approval held only where it was fetched to |
| FlowRuns.RunInv | src/auth_flow_handles.rs:194-461 | the invariant holds in every state of every run |
| FlowRuns.OneHolder | src/auth_flow_handles.rs:212-252 | a flow's listener is in the map or in one call's hands, never both and never in two |
| FlowRuns.EndsOnce | src/auth_flow_handles.rs:302-448 | at most one call per id ever answers approved, expired or failed, and then the flow is nowhere else |
| FlowRuns.CancelledWhileHeld | src/auth_flow_handles.rs:451-461 | a call holding a cancelled flow held it when the cancel came |
| FlowRuns.GiveBackFailsIffCancelled | src/auth_flow_handles.rs:239-248 | a give-back fails exactly when a cancel removed the entry since the take; otherwise the listener is back in its entry and the call says pending |
| FlowRuns.OnePlace | src/auth_flow_handles.rs:302-448 | an approval is never in two places |
| FlowRuns.Relocate | src/auth_flow_handles.rs:302-448 | each step moves an approval from its place to a place |
| FlowRuns.ApprovalConserved | src/auth_flow_handles.rs:302-461 | once posted, an approval is in exactly one place in every state: relay, with the flow's one listener (acked or in its channel), taken by one call, or gone with a dropped listener |
| FlowRuns.LookDecides | src/auth_flow_handles.rs:314-322 | an approval in the channel before a look is that call's answer for good, at any age of the flow |
| FlowRuns.DropsAreJustified | src/auth_flow_handles.rs:104-116 | a step drops an approval, handed over or only acked, if and only if it is a cancel (or the end of a call on a cancelled flow), a sweep past twice the TTL, or an answer of expired |
| FlowRuns.ClosingIsOld | src/auth_flow_handles.rs:254-256 | expired is answered only past the TTL |
| FlowRuns.NoLossWithinTtl | src/auth_flow_handles.rs:104-116 | with the TTL fixed, an uncancelled flow's approval is lost only after the TTL, and before twice the TTL only to an answer of expired |
| FlowRuns.FetchedByAck | src/auth_flow_handles.rs:18-19 | the relay has let an approval go exactly when some listener has acked it |
| FlowRuns.FetchedIsInHand | src/auth_flow_handles.rs:355-359 | while a call holds a flow and has not decided to hand its approval out, an approval the relay has let go is with the listener in its hands |
| FlowRuns.ExpiryDropsIffFetched | src/auth_flow_handles.rs:18-23 | an answer of expired drops the flow's approval if and only if the relay has let it go by then |
| FlowRuns.LookedTooEarly | src/auth_flow_handles.rs:314-322 | a call that answers expired made its look before any hand-over of the flow's approval |
| FlowRuns.ClosingWasJudged | src/auth_flow_handles.rs:254-256 | a call about to answer expired read the clock past the TTL, and has not looked since |
| FlowRuns.LostExactlyToLateArrivals | src/auth_flow_handles.rs:314-349 | up to twice the TTL, an uncancelled flow's approval is lost if and only if, as steps of the run, some call looked before any hand-over, read the clock past the TTL and answered without looking again, and a listener had acked the approval by then |
| FlowRuns.IdleFlowKept | src/auth_flow_handles.rs:113-116 | an idle flow keeps its place and its listener until it is taken, cancelled or older than twice the TTL |
| FlowRuns.ExpiryCanLoseATimelyApproval | src/auth_flow_handles.rs:314-322 | a run that loses an approval handed over within the TTL, with no cancel |
| FlowRuns.ExpiryCanLoseAnAckedApproval | src/auth_flow_handles.rs:355-359 | a run that loses an approval acked within the TTL and before the look, never handed over |
| FlowAnswers.AnswersExactly | src/auth_flow_handles.rs:302-461 | a call answers approved, failed, expired, unresumable, cancelled, pending, already awaited or no such flow if and only if the step happened that decides so |
| FlowAnswers.AsStarted | src/auth_flow_handles.rs:173-190 | what is known of a flow, its time and whether it can be rejoined, is what its start said |
| FlowAnswers.HeldAsStarted | src/auth_flow_handles.rs:212-231 | and so is what a call has in hand |
| FlowAnswers.StartedFlowsAreKept | src/auth_flow_handles.rs:136-191 | a flow just started is there to be taken until it is taken, cancelled, or older than twice the TTL |
| FlowAnswers.NoSuchFlowAfterwards | src/auth_flow_handles.rs:9-11 | once a call has ended a flow, every later poll or await of it is told there is no such flow |
| FlowAnswers.BusyIsTold | src/auth_flow_handles.rs:302-313 | while a call holds an uncancelled flow, a poll of it says pending at once and an await is refused |
| FlowAnswers.ReplacedAfterRelayFailure | src/auth_flow_handles.rs:379-421 | a listener is replaced only after a look, the last there was, that found it dead of the relay |
| FlowAnswers.SameListenerBack | src/auth_flow_handles.rs:355-359 | a call that gives its flow back without a restore puts back the very listener it took |
| FlowAnswers.PollsDoNotWait | src/auth_flow_handles.rs:302-349 | a poll never sleeps |
| FlowAnswers.AwaitsTimeOut | src/auth_flow_handles.rs:432-448 | an await gives its flow back only once its time is up |
| FlowCap.CapHolds | src/auth_flow_handles.rs:149-190 | racing starts never put more live flows in the map than the cap, however long each took |
| FlowCap.WindowHolds | src/auth_flow_handles.rs:104-190 | in every state, any stretch of TTL minus the start delay contains the starts of at most cap entries |
| FlowCap.IdleBound | src/auth_flow_handles.rs:104-116 | for any start delay within the TTL, what a sweep leaves idle is at most one cap for the live flows and one per stretch needed to make up a TTL |
| FlowCap.TwiceTheCap | src/auth_flow_handles.rs:104-116 | with starts inserting within one tick of their stamp, every sweep leaves at most twice the cap idle |
| FlowCap.SlowStartsPassTwiceTheCap | src/auth_flow_handles.rs:173-190 | for every positive TTL and every cap, starts delayed two ticks can leave three times the cap |
| FlowCap.TwiceTheCapExactly | src/auth_flow_handles.rs:104-190 | twice the cap bounds every sweep of every run if and only if starts insert within a tick of their stamp or the TTL is zero |
| AwaitLoop.Rejoin | src/auth_flow_handles.rs:379-421 | a relay failure ends the await past the TTL or when cancelled in the backoff; otherwise the new listener starts 1, 2, 4 or 8 seconds later by the quick deaths in a row, cut short by the deadline |
| AwaitLoop.AwaitApproval | src/auth_flow_handles.rs:365-448 | for timeout D at most ceil(D/200ms)+1 looks and D/1s+1 restores; looks 200 ms apart; each listener replaced for its own relay failure after the backoff its run of quick deaths calls for; no pass before the last was cancelled, and a cancel in a sleep or backoff that is reached is the answer; a timeout gives back the newest listener; with exact sleeps it never outlasts D |
| ResumeLoop.Backoff | src/grant_resume.rs:141-143 | every wait is between one and eight seconds |
| ResumeLoop.BackoffValues | src/grant_resume.rs:139-143 | the waits are 1, 2, 4, then 8 seconds |
| ResumeLoop.OneMoreWait | src/grant_resume.rs:157-215 | one more turn of the loop extends the restores of the arithmetic by its own |
| ResumeLoop.GivesUpExactly | src/grant_resume.rs:125-143 | after any listeners' lives, the loop gives up exactly when the flow is 170 s old, or when listeners dying within 5 s of their start have followed one another for 90 s; otherwise the restore comes 1, 2, 4 or 8 s after the death, by their number |
| ResumeLoop.AwaitWith | src/grant_resume.rs:157-215 | the loop ends whatever the waits do, with exactly the restores of the arithmetic; it restores only a flow wanted before and after the delay, gives up on a wanted flow's relay failure only where the arithmetic does, and forgets the saved state on every exit but the superseded one |
| ResumeLoop.RestoresArePaced | src/grant_resume.rs:128-143 | from any point of a loop, the restores still to come keep to the bounds below |
| ResumeLoop.RestoreBounds | src/grant_resume.rs:25-36 | however long listeners live: every restore begins less than 178 s after the start, no quick-failure run counts past 13, and there are at most 43 restores |
| ResumeLoop.FortyThreeIsReached | src/grant_resume.rs:128-143 | some listeners' lives bring it to 43, so the bound is exact |
| ResumeLoop.QuickRunCounts | src/grant_resume.rs:128-143 | listeners that all die at once get thirteen restores and no more |
| ResumeSlot.Slot.Remember | src/grant_resume.rs:72-75 | is the bump and the write of the step system in one; the slot invariant holds after it and every loop there was is superseded |
| ResumeSlot.Slot.IsCurrent | src/grant_resume.rs:81-83 | answers true for a loop's generation exactly when that loop is not superseded |
| ResumeSlot.Slot.Forget | src/grant_resume.rs:87-92 | is the loop's last step in the step system; nothing of its generation is left saved and no other generation's state is touched |
| ResumeSlot.Slot.Clear | src/grant_resume.rs:98-101 | is the bump and the write of the step system in one; nothing is saved after it and every loop there was is superseded |
| ResumeSlot.RetiresEveryLoop | src/grant_resume.rs:72-101 | an update taken as one step keeps the slot invariant and supersedes every loop |
| ResumeSlot.GenerationsOnlyGrow | src/grant_resume.rs:72-101 | the counter never goes back and a loop keeps its generation |
| ResumeSlot.NoRestoreAfterCheck | src/grant_resume.rs:157-215 | once superseded, a loop starts no restore after its next check, in any interleaving |
| ResumeSlot.ChecksStopTheSuperseded | src/grant_resume.rs:157-215 | a check sends a loop on its way out exactly when the loop is superseded |
| ResumeSlot.EnteredFor | src/grant_resume.rs:147-152 | a loop runs for the generation that was saved when it entered |
| ResumeSlot.LoopsEraseOnlyTheirOwn | src/grant_resume.rs:85-92 | in any run, a loop's steps erase saved state of its own generation only, so a superseded loop never erases the newest flow's |
| ResumeSlot.SerialRunKeepsSlot | src/grant_resume.rs:72-101 | when updates do not overlap, the slot invariant holds throughout |
| ResumeSlot.SavedIsNewest | src/auth_flow.rs:185-197 | then saved state carries the newest generation, and no loop that is over has left its own behind |
| ResumeSlot.SavedByTheLastWrite | src/grant_resume.rs:72-75 | what is saved was put there by the last write |
| ResumeSlot.UpdateBegan | src/grant_resume.rs:72-75 | an update under way began with the bump to the generation it will save |
| ResumeSlot.SavedIsNewestExactly | src/grant_resume.rs:72-101 | in any run, between updates, saved state is the newest if and only if nobody else bumped the counter between the bump and the write of the start that saved it |
| ResumeSlot.OverlappingStartsSaveTheOlder | src/grant_resume.rs:72-75 | a run of two starts that leaves the older one's state saved |
| CookieExchange.RetryDelays | src/cookie_exchange.rs:53-66 | a retry is granted exactly when an attempt is left and its pause, 1, 2, 4 or 8 s, with all that may follow ends within 120 s |
| CookieExchange.ResolveWithRetries | src/cookie_exchange.rs:106-143 | up to four lookups of 25 s each at exact pauses, until one finds the homeserver; gives up only after four or where the next pause and 55 s would pass 120 s, with the last lookup's reason |
| CookieExchange.SpendWithRetries | src/cookie_exchange.rs:158-188 | up to three exchanges of 30 s each at exact pauses; every one but the last could not connect; after a last such one, three were made or the next pause and 30 s would pass 120 s; the outcome is the last exchange's |
| CookieExchange.Exchange | src/cookie_exchange.rs:148-189 | every exit is within 120 s; at most four lookups then three exchanges, none before a lookup succeeded; every exchange but the last certainly left the token unspent; neither loop stops short while it has an attempt and the time for it; success exactly when the last exchange gave a credential |
| ForeignObject.StepKeepsInv | bindings/android/pubkycore.kt:1448-1497 | every atomic step keeps the counter equal to running blocks plus the reference destroy gives up, and zero exactly when the pointer is freed or one thread is about to |
| ForeignObject.RunInv | bindings/android/pubkycore.kt:1448-1497 | that holds in every state of every run |
| ForeignObject.FreedOnceAndAlone | bindings/android/pubkycore.kt:1459-1497 | freed at most once, only after a destroy, never with a block running |
| ForeignObject.NoBlockAfterFree | bindings/android/pubkycore.kt:1474-1497 | no block starts once the pointer has been freed |
| ForeignObject.RefusedExactly | bindings/android/pubkycore.kt:1474-1485 | a call is turned away exactly when the pointer is freed or about to be, or the counter is full |
| ForeignObject.FreedWhenAllIsDone | bindings/android/pubkycore.kt:1459-1497 | after a destroy and the end of every call the pointer has been freed exactly once |
| Utf8.ScalarRoundTrip | bindings/android/pubkycore.kt:1266-1318 | a scalar's bytes (section 3 of RFC 3629) read back as that scalar, whatever follows |
| Utf8.ScalarCanonical | bindings/android/pubkycore.kt:1280-1285 | bytes accepted as a scalar are the ones written for it: no overlong form, no surrogate |
| Utf8.ScalarLayout | bindings/android/pubkycore.kt:1287-1293 | the table of section 3 of RFC 3629 in figures: number of bytes, lead byte, tail bytes, and the scalar as the number their bits make |
| Utf8.ScalarExamples | bindings/android/pubkycore.kt:1287-1293 | characters from the examples of section 7 of RFC 3629, byte for byte |
| Utf8.ThreeBytesPerUnit | bindings/android/pubkycore.kt:1304-1311 | a string never takes more than three bytes per UTF-16 unit |
| Utf8.DecodeEncode | bindings/android/pubkycore.kt:1266-1318 | a string without lone surrogates survives encoding and decoding |
| Utf8.EncodeDecode | bindings/android/pubkycore.kt:1266-1318 | well-formed bytes survive decoding and encoding, so no string has two encodings |
| WireFormat.GetPut | bindings/android/pubkycore.kt:1186-1244 | an integer of any width reads back as itself |
| WireFormat.PutDigits | bindings/android/pubkycore.kt:157-168 | most significant byte first: byte i of k is the digit worth 256 to the power k-1-i |
| WireFormat.WireBytes | bindings/android/pubkycore.kt:1186-1334 | the bytes of every shape in figures: 1 and 0 for true, false, present and absent, a four-byte big-endian length before text, bytes and items, a number from 1 before a variant's fields |
| WireFormat.SizeCoversWrite | bindings/android/pubkycore.kt:128-149 | the size a converter asks for is the bytes it writes plus what its strings ask for beyond theirs, never less: exact where there is no string |
| WireFormat.RoundTrip | bindings/android/pubkycore.kt:1671-2204 | for every nesting of optionals, sequences, records and variants, reading what was written gives the value and leaves exactly what followed |
| WireFormat.RoundTripAll | bindings/android/pubkycore.kt:3004-3074 | the same for the items of a sequence |
| WireFormat.WriteIsInjective | bindings/android/pubkycore.kt:128-149 | no two values of a shape are written alike |
| WireFormat.ReadExtends | bindings/android/pubkycore.kt:128-149 | a reader that succeeds does not look past what it consumes |
| WireFormat.TruncatedIsRefused | bindings/android/pubkycore.kt:128-149 | every proper prefix of what was written is refused |
| WireFormat.UnknownVariantIsRefused | bindings/android/pubkycore.kt:2311-2350 | a variant's number that is 0 or beyond the last is refused |
| WireFormat.AllocationSizeWraps | bindings/android/pubkycore.kt:1307-1311 | the 32-bit computation, wrapping at each sum and product, is the true size wrapped once |
| WireFormat.AllocationSuffices | bindings/android/pubkycore.kt:138-146 | so whenever the true size fits 32 bits, the allocation is that size and holds what is written |
| WireFormat.ByteBuffer.Put | bindings/android/pubkycore.kt:1313-1317 | appends the bytes at the position and touches nothing before it |
| WireFormat.ByteBuffer.Get | bindings/android/pubkycore.kt:1280-1285 | takes exactly the next bytes, or fails exactly where there are too few |
| WireFormat.WriteInto | bindings/android/pubkycore.kt:1671-2204 | the in-place writer appends exactly the bytes of the value and advances past them |
| WireFormat.WriteAllInto | bindings/android/pubkycore.kt:3004-3074 | the same for the loop over a sequence's items |
| WireFormat.ReadFrom | bindings/android/pubkycore.kt:1671-2204 | the in-place reader fails exactly where the parse does, and otherwise gives its value and leaves its rest |
| WireFormat.ReadAllFrom | bindings/android/pubkycore.kt:3004-3074 | the same for the loop over a sequence's items |
| WireFormat.LowerIntoRustBuffer | bindings/android/pubkycore.kt:157-168 | the buffer allocated is large enough, what it holds lifts back to the value, and it begins with the big-endian length or number the converter writes |
| WireFormat.LiftFrom | bindings/android/pubkycore.kt:176-188 | lifting answers a value only when it consumed the whole buffer |
| WireFormat.LiftLowered | bindings/android/pubkycore.kt:157-188 | lifting what was lowered gives the value back |
| WireFormat.RecordWritesItsFields | bindings/android/pubkycore.kt:1671-2204 | a record is written as its fields one after the other, with nothing in between |
| WireFormat.RecordsRoundTrip | bindings/android/pubkycore.kt:1671-2204 | each of the thirteen records survives lowering and lifting, in a buffer of the size asked for |
| WireFormat.ErrorsRoundTrip | bindings/android/pubkycore.kt:2311-2456 | each of the nine error variants survives with its fields, behind the bytes 0, 0, 0 and its own number |
| EventStream.Pump | src/events.rs:139-160 | callbacks are the events in order and then exactly one error or completion; completion exactly when every item was an event and no delivery threw; the error is the stream's own unless the last delivery threw |
| EventStream.StepKeepsInv | src/events.rs:105-181 | every step of starting, gating, pumping, stopping and dropping keeps ids unique and entries with their own unfinished task |
| EventStream.RegisteredMeansRunning | src/events.rs:105-134 | a registered id always belongs to its own unfinished task |
| EventStream.RunningMeansRegistered | src/events.rs:105-134 | a stream that is registered, not stopped and not over is in the table under its own id |
| EventStream.StoppedForGood | src/events.rs:163-181 | stopping a stream, alone or with all, aborts its task for good and its id never comes back |
| EventStream.DropsRemoveTheirOwn | src/events.rs:128-134 | a drop, however late, removes no other stream's entry |
| BodyLimit.ReadUpTo | src/body_limit.rs:75-101 | success if and only if the declared length (section 8.6 of RFC 9110) and the whole body are within the limit and no chunk failed, with all bytes in order; refusal at the header, or at the first chunk whose prefix passes the limit; never more than the limit held |
| BodyLimit.JoinedSplits | src/body_limit.rs:92-100 | the body of two runs of chunks is the one followed by the other |

## Left out

- SDK, network, DNS, TLS, relay HTTP and the scheduler: their results and timings are parameters of the methods or free choices of the actions.
- Clocks and counters are unbounded; 64-bit overflow of stamps, generations and sequence numbers is not modelled.
- Random flow ids are taken to be fresh, and the order in which a map is iterated is arbitrary.
- Sleeps are exact in `ResumeLoop` and `CookieExchange`; in `AwaitLoop` they last at least as asked.
- Minting futures dropped half-way (a cancelled caller), panics and poisoned mutexes.
- Protocols of several callers are step systems over values; update in place and aliasing appear only in the classes named above.
- SessionProtocol.StepKeepsInv: forgetting a whole grant is any number of single forgets; which secrets belong to a grant is not modelled.
- SessionRuns.RemintIsNewer: nothing is claimed for good about forgotten secrets, because a mint in flight across a forget stores its session afterwards.
- FlowRuns.EndsOnce: counts the answers of calls; a cancel can answer true while the call holding the flow still answers approved.
- FlowProtocol.StepKeepsInv: the first, advisory cap check of a start and the building of its relay channel are not steps; an approval once acked is taken to reach the channel unless its listener is dropped, as src/auth_flow_handles.rs:18-19 says.
- The classification of a failure as the relay's (URL prefix matching) and as never sent is an input.
- CookieExchange.Exchange: the name that is resolved and the wording of its failures.
- WireFormat.ReadFrom: what the host decoder substitutes for malformed UTF-8 in a string (the model gives no value), and the buffer's position after a failed read.
- Pointers, callback interfaces and checksums in the bindings; the Swift, Python and C bindings, which repeat the Kotlin converters.
- EventStream.StepKeepsInv: validation and building of a subscription, and the number that stopping all streams returns.
- `src/auth_flow.rs` slot polling, `src/locks.rs`, storage, keys, formatting, environment and build files: thin wrappers that would only add easy members.

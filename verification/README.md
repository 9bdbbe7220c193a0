# Verification of the session, subscription and merge logic of TwsWebSocket

TwsWebSocket multiplexes many browser sessions over one upstream TWS connection. This project models the
tables and protocols that make that work, and proves what they keep over all runs. Where several threads or
coroutines touch the same state, the model is a transition system whose steps are the critical sections of the
code; a run is any sequence of steps, and the main results are about all runs. Beside it stands a class whose
methods have the branches of the source. Those of `OrderGateway`, `WebCoSocket`, `AccountGateway`, `RequestGateway`,
`ContractGateway`, `PendingSet` and `Cache` that stand for a step are proved to take exactly that step of their
transition system; `UpdateAccountValue`, `ContractDone`, `CancelPositionsMulti` and `OnOrderChange` are sequences of
steps without interference, and `SendDetails` is the part of `OnDetailsEnd` in the gateway. The workers of
`RequestPipeline` are proved against the functions its transition system uses for one message and one transmission,
not against its steps. `DayLoader`, the two statistic tables and `TweetSearch` run alone and are proved against
functions of their state.

| file | component |
|---|---|
| `WriteLocks.dfy` | session table, 32-bit session ids, per-session write flag of `WebCoSocket` |
| `AccountSubscriptions.dfy` | account subscription table and upstream handles of `WebSendGateway` |
| `OrderNotices.dfy` | suppression of the first notice about an order a session placed itself |
| `RequestRoutes.dfy` | request id to client routing, look-up and cancelling |
| `MultiRequests.dfy` | contract details collected per id, and the one `MultiEnd` of a multi-request |
| `RequestPipeline.dfy` | `WebRequestWorker` and `TwsSendWorker` as one pipeline |
| `PendingContracts.dfy` | the shared pending set of a previous-day request |
| `DaySummaries.dfy` | the day map and the two load passes of one contract |
| `StatisticTable.dfy` | `mrk_statistic_update` in MySQL and MS SQL |
| `StatRequests.dfy` | the single-pass row filter and the statistics computed per contract |
| `FlexTrades.dfy`, `FlexCache.dfy` | flex statements: deduplication, day index, range, and the cache over the directory |
| `TweetMerge.dfy`, `TweetQuery.dfy` | the tweet merge through a time index, and the bounded query |

`dafny verify dfyconfig.toml` checks all of it.

## What turned out not to hold

The code is modelled as it is. These expectations fail, and each has its exact condition or a family of
counterexamples:

- Closing a session passes an empty account name, so it removes none of its account subscriptions
  (`ClosingASessionErasesNothing`).
- Saving a handle keeps every handle accounted for only if the entry it overwrites has none, so subscribing twice
  loses the first handle (`SaveConservesIffTheEntryIsBlank`, `ResubscribingLosesTheHandle`).
- Session ids repeat once the 32-bit counter has gone round; `emplace` then leaves the new connection without an
  entry and calls meant for it reach the old stream (`IdsAreDistinctUntilTheyWrap`, `WrappedIdReachesTheOldStream`).
- A multi-request is closed exactly once in every schedule only if it is not empty and no request is open under its
  client id (`ClosedOnceIffNotEmptyAndNotOpen`); only the route of the id answered last is removed, the others stay
  (`OtherRoutesAreLeftBehind`). Nothing in this repository calls `AddMultiRequest`, so these are schedules its interface
  allows, not ones a caller here produces.
- Cancelling silences a client only if its (session, client) key was unique (`CancelSilencesIffTheKeyIsUnique`).
- The erase and the emptiness test of the pending set lock it separately, so `MultiEnd` can be pushed more than once
  (`TwoEndsWhenTestsOverlap`); with the two as one step it is pushed unless a failed contract load empties the set.
- A day that has bars is lost if its regular hours cannot be fetched, in a load that wants them and gets that far
  (`LoadsPartitionTheDaysIffNoneIsLost`, `AFailedFetchLosesTheDay`); if the second load has bars for it, it follows an
  empty pointer (`EmptyPointerIffTheLostDayHasBars`).
- The high of a day starts at zero, so it is wrong exactly when all highs are negative.
- At shutdown the TWS worker stops first; it has handled all that is meant for it only if nothing under way, waiting
  or still to come is (`ShutdownLosesWhatIsForwardedLate`, `AMessageAfterTheStopIsLost`).
- A failed insert is rolled back by the MySQL procedure only; the MS SQL one keeps its other statements
  (`MsSqlSimulatesIffNoInsertFails`).
- The flex checksum is taken before the load waits for its lock and stored before the data, and a request compares it
  before it looks at the cache, without the lock. So a request can be given other data than it checked after a load
  that found other data than was checked, while a load of other data has stored its checksum only, or when a load of
  other data stores it between the comparison and the look (`StaleAnswerIff`, with `UndoneChangeIsStillRead`,
  `AskingBetweenTheStoresReadsOldData` and `StoringBeforeTheLookReadsOtherData`).
- A kept tweet's time is cut to 32 bits while the index holds it uncut (`IndexAgreesIffTimesFit`).

## Model

| member | source | states |
|---|---|---|
| `WriteLocks.Reachable` | source/WebCoSocket.cpp:114-152 | in every state any interleaving reaches, the flag, the calls' phases, the three logs of each stream and the session table fit together |
| `WriteLocks.FlagIsSetForOneCall` | source/WebCoSocket.cpp:133-141 | a stream's flag is set if and only if a call is between setting and clearing it, and there is never more than one such call |
| `WriteLocks.HolderIsLast` | source/WebCoSocket.cpp:133-141 | the call between setting and clearing a flag is the last that set it, and the only one not yet completed |
| `WriteLocks.CompletionsFollowTheLock` | source/WebCoSocket.cpp:133-151 | per stream, writes start and complete in the order in which their calls set the flag, at most one ahead of the completions, and no call sets it twice |
| `WriteLocks.CallsOnlyAdvance` | source/WebCoSocket.cpp:114-152 | a call never goes back a phase, never changes session or stream, and a dropped, completed or failed call stays that |
| `WriteLocks.CallsAreTheBegins` | source/WebCoSocket.cpp:114-123 | the calls of a run are exactly those begun in it, in their order, each for the session it was begun for |
| `WriteLocks.OutcomeIsHistory` | source/WebCoSocket.cpp:139-148 | a call is completed only by a write without an error, and comes to erase its session, or has failed, only by a write with one |
| `WriteLocks.EntriesChangeOnlySo` | source/WebCoSocket.cpp:61-96 | in every reachable state a table entry disappears if and only if its id is removed or a call for that id erases after a failed write, is never replaced, and appears if and only if a connection is entered under a free id |
| `WriteLocks.IdsCountUp` | source/WebCoSocket.cpp:61-67 | connection n is numbered n+1 modulo 2^32, whatever else happens |
| `WriteLocks.IdsAreDistinctUntilTheyWrap` | source/WebCoSocket.cpp:61-67 | ids are distinct if and only if at most 2^32 connections were numbered |
| `WriteLocks.WritesReachTheirOwnSession` | source/WebCoSocket.cpp:123-141 | a write lands on one stream only, whose connection was numbered with the caller's session id; before the ids wrap no other connection ever had that id, even if the session was erased meanwhile |
| `WriteLocks.RegisterBindsAFreeId` | source/WebCoSocket.cpp:61-67 | a connection gets the table entry of its id if and only if no entry with that id is left |
| `WriteLocks.AfterAFullTurn` | source/WebCoSocket.cpp:61-67 | numbering 2^32 more connections while one stays open hands out its id again |
| `WriteLocks.WrappedIdReachesTheOldStream` | source/WebCoSocket.cpp:61-67 | the connection numbered then has no entry, and a call for it waits for the old session's stream |
| `WriteLocks.WebCoSocket.NumberConnection` | source/WebCoSocket.cpp:63 | the new id is the counter's next value, taken outside the mutex, and nothing else changes |
| `WriteLocks.WebCoSocket.RegisterConnection` | source/WebCoSocket.cpp:64-66 | adds the entry without overwriting one |
| `WriteLocks.WebCoSocket.RemoveConnection` | source/WebCoSocket.cpp:92-96 | removes the entry of the id and leaves running calls alone |
| `WriteLocks.WebCoSocket.FindSession` | source/WebCoSocket.cpp:124-132 | binds the call to the stream the table names at that moment, or drops it |
| `WriteLocks.WebCoSocket.TestAndSetFlag` | source/WebCoSocket.cpp:133-137 | sets the flag and reports whether it was set; only a call that found it clear goes on |
| `WriteLocks.WebCoSocket.AsyncWrite` | source/WebCoSocket.cpp:139 | appends the call to its own stream |
| `WriteLocks.WebCoSocket.OnWritten` | source/WebCoSocket.cpp:139-151 | clears the flag before anything else, also after an error; the call is completed without one, and with one it goes on to erase its session |
| `WriteLocks.WebCoSocket.KillSession` | source/WebCoSocket.cpp:143-148 | a failed write removes the entry of its session id |
| `WriteLocks.WebCoSocket.ForEachSession` | source/WebCoSocket.cpp:68-75 | the callback runs exactly once for every session of the snapshot |
| `AccountSubscriptions.HandlesAreConserved` | source/WebSendGateway.cpp:73-98 | over every interleaving of both subscribe phases, cancels, updates and their late erasures in which no session subscribes an account it holds, every handle is in one place and the table holds nobody else's handle |
| `AccountSubscriptions.HandleIsInOnePlace` | source/WebSendGateway.cpp:152-174 | each handle returned is awaiting its save, recorded for one (account, session), or passed to CancelAccountUpdates, exactly one of these, and always for the holder it was returned to |
| `AccountSubscriptions.SaveConservesIffTheEntryIsBlank` | source/WebSendGateway.cpp:162-165 | saving keeps all handles accounted for if and only if the entry it overwrites has no handle |
| `AccountSubscriptions.ResubscribingLosesTheHandle` | source/WebSendGateway.cpp:157-165 | from any good state, subscribing a held account again leaves its first handle nowhere |
| `AccountSubscriptions.ASecondSubscriptionLosesTheFirst` | source/WebSendGateway.cpp:157-165 | the smallest such run, from empty tables |
| `AccountSubscriptions.EraseTouchesOneEntry` | source/WebSendGateway.cpp:73-98 | an erasure removes one entry, leaves every other account and session as it was, keeps an emptied inner map, and cancels exactly the entry's handle and the one it was given |
| `AccountSubscriptions.EntriesChangeOnlySo` | source/WebSendGateway.cpp:73-174 | an entry appears blank when its session subscribes, gets the handle saved for it, is gone after a cancel of a named account or the erasure of an unreached session, and is touched by nothing else |
| `AccountSubscriptions.HandlesAreCancelledOnlySo` | source/WebSendGateway.cpp:84-97 | a cancel passes the handle of its entry to CancelAccountUpdates and no other; an erasure of an unreached session also the one it was scanned with |
| `AccountSubscriptions.ReturnedHandleAwaitsItsSave` | source/WebSendGateway.cpp:157-165 | a new handle awaits its save, for the session it was returned for, until it is saved |
| `AccountSubscriptions.ScanOwesTheUnreached` | source/WebSendGateway.cpp:132-146 | an update owes an erasure, with the handle it saw, for exactly the subscribers it did not reach |
| `AccountSubscriptions.ClosingASessionErasesNothing` | source/WebSendGateway.cpp:100-106 | erasing a session changes nothing: its subscriptions are gone afterwards if and only if it had none |
| `AccountSubscriptions.AccountGateway.BeginSubscription` | source/WebSendGateway.cpp:157-160 | adds an entry with handle 0 unless there is one |
| `AccountSubscriptions.AccountGateway.SaveHandle` | source/WebSendGateway.cpp:162-165 | stores the handle whatever happened to the entry meanwhile |
| `AccountSubscriptions.AccountGateway.EraseAccountSubscription` | source/WebSendGateway.cpp:73-98 | the loop with its early exit is the erasure of one entry |
| `AccountSubscriptions.AccountGateway.PushToSubscribers` | source/WebSendGateway.cpp:132-145 | tells whether anybody was reached and collects exactly those who were not, with their handles |
| `AccountSubscriptions.AccountGateway.PushUpdate` | source/WebSendGateway.cpp:132-146 | the critical section: tells whether anybody was reached, and owes an erasure for each session that was not |
| `AccountSubscriptions.AccountGateway.EraseMissed` | source/WebSendGateway.cpp:147 | one owed erasure, whatever the table holds by then |
| `AccountSubscriptions.AccountGateway.UpdateAccountValue` | source/WebSendGateway.cpp:124-150 | without interference, exactly the unreached subscribers of the account lose their entry and have their handle cancelled; for an unnamed account no entry goes, and the handles are still cancelled |
| `AccountSubscriptions.AccountGateway.CancelAccountSubscription` | source/WebSendGateway.cpp:170-174 | afterwards the session's entry of the named account is gone, every other entry is as it was, and the handle of that entry, and no other, is cancelled |
| `OrderNotices.PendingIsPlacedSince` | source/WebSendGateway.cpp:23-43 | an order is pending for a session if and only if the session placed it and was offered no readable change of it since |
| `OrderNotices.SendsExactlyTheExpected` | source/WebSendGateway.cpp:44-60 | every interleaving of placements and broadcasts sends exactly the notices that history calls for, in order |
| `OrderNotices.BroadcastNotifies` | source/WebSendGateway.cpp:53-60 | a broadcast to distinct sessions notifies each that may read the order and did not just place it, once and nobody else, and forgets only the placements it answers |
| `OrderNotices.VisibleIsSentOrSuppressed` | source/WebSendGateway.cpp:44-60 | per session and order, visible changes are those sent plus those suppressed, and each placement suppresses at most one |
| `OrderNotices.OthersAreSentEverything` | source/WebSendGateway.cpp:53-60 | a session that never placed the order is sent every change it can read |
| `OrderNotices.NoEmptyOrderSet` | source/WebSendGateway.cpp:33-38 | no session is ever left with an empty order set |
| `OrderNotices.OrderGateway.AddOrder` | source/WebSendGateway.cpp:24-28 | makes the order pending for the session |
| `OrderNotices.OrderGateway.CheckPlaceOrderResult` | source/WebSendGateway.cpp:29-43 | true if and only if the order was pending, and then it no longer is; the last one takes the session's set along |
| `OrderNotices.OrderGateway.OnOrderChange` | source/WebSendGateway.cpp:53-60 | offers the change to each session of the snapshot in turn |
| `RequestRoutes.TableIsHistory` | source/WebSendGateway.h:31-34 | an id is in the table if and only if it was registered and not erased since, under the key of the earliest such registration |
| `RequestRoutes.CallbacksReachTheRegistrant` | source/WebSendGateway.cpp:251-261 | over every run, callbacks are delivered exactly to the clients history names, in order, and dropped otherwise |
| `RequestRoutes.FreshIdsKeepTheirClient` | source/WebSendGateway.cpp:204-215 | with fresh ids a callback reaches the session and client that registered it, or nobody once it is erased |
| `RequestRoutes.SilentWithoutARoute` | source/WebSendGateway.cpp:251-261 | a client without a route hears nothing until it asks again |
| `RequestRoutes.CancelSilencesIffTheKeyIsUnique` | source/TwsSendWorker.cpp:337-351 | erasing the id found silences the client in every later run if and only if no second live request has its key |
| `RequestRoutes.RequestGateway.AddRequestSession` | source/WebSendGateway.h:31-32 | registers under the given id, or a new one for 0, never overwriting |
| `RequestRoutes.RequestGateway.RequestFind` | source/WebSendGateway.cpp:176-180 | inverts registration: an id of the key, and 0 only if the key has none |
| `RequestRoutes.RequestGateway.RequestErase` | source/WebSendGateway.h:34 | removes the id and nothing else |
| `RequestRoutes.RequestGateway.Push` | source/WebSendGateway.cpp:251-261 | delivers to the registered client, and reports whether there was one |
| `RequestRoutes.RequestGateway.CancelPositionsMulti` | source/TwsSendWorker.cpp:337-351 | cancels and erases only live requests of the named clients, and with unique keys all of them |
| `MultiRequests.MultiEndExactlyOnce` | source/WebSendGateway.cpp:108-115 | among arbitrary other traffic, a multi-request gets no MultiEnd while an id is unanswered and exactly one from then on |
| `MultiRequests.AnswersInOneBatch` | source/WebSendGateway.cpp:263-297 | each id is answered to the client that asked with exactly its details in order, and MultiEnd is in the batch of the last answer |
| `MultiRequests.StaysOpen` | source/WebSendGateway.cpp:263-297 | the tables hold exactly the unanswered ids and what was collected for them |
| `MultiRequests.OtherRoutesAreLeftBehind` | source/WebSendGateway.cpp:295-296 | of the routes of a completed multi-request exactly one is removed |
| `MultiRequests.ClosedOnceIffNotEmptyAndNotOpen` | source/WebSendGateway.cpp:108-115 | in every schedule a multi-request with new ids gets exactly one MultiEnd, with its last answer, if and only if it is not empty and no request is open under its client id |
| `MultiRequests.OpenRequestsAreRouted` | source/WebSendGateway.cpp:108-115 | in every run with new ids, the ids of an open request are routed to it, as the line above takes for granted |
| `MultiRequests.SecondRequestUnderAnOpenClientIdIsNeverClosed` | source/WebSendGateway.cpp:110-113 | while a non-empty request is open, a second one under its client id gets no MultiEnd of its own, even when all ids of both are answered |
| `MultiRequests.EmptyRequestClosesTheNextAnswer` | source/WebSendGateway.cpp:274-287 | the entry of an empty request stays through any traffic until an id of its client is answered, and that answer carries the MultiEnd |
| `MultiRequests.RoutesMayBeAddedLater` | source/WebSendGateway.cpp:110-114 | adding the routes after the mutex is released is the same as adding them at once, as long as nothing registers or answers the ids in between |
| `MultiRequests.FollowsEmptyPointerIff` | source/WrapperWeb.cpp:155-179 | in a run in which no moved-out result was used yet, the next event uses one if and only if its id had a detail and then an end callback and, for an end callback, its route is still live |
| `MultiRequests.EndingOnceIsSafe` | source/WrapperWeb.cpp:155-179 | so none is ever used while nothing comes for an id after its end callback |
| `MultiRequests.EndingTwiceFollowsTheEmptyPointer` | source/WebSendGateway.cpp:289-296 | because the route of a multi-request's id stays after its answer, a second end callback for it reaches the moved-out result |
| `MultiRequests.ContractGateway.AddMultiRequest` | source/WebSendGateway.cpp:108-115 | records the ids for the client unless it has some, and adds each route not yet there |
| `MultiRequests.ContractGateway.OnDetails` | source/WrapperWeb.cpp:155-167 | appends the detail to what its id has collected |
| `MultiRequests.ContractGateway.OnDetailsEnd` | source/WrapperWeb.cpp:168-179 | hands on what was collected, or an empty result |
| `MultiRequests.ContractGateway.SendDetails` | source/WebSendGateway.cpp:263-297 | one batch to the client, with MultiEnd for the last id; the route goes only then or for a single request |
| `RequestPipeline.PipelineKeepsOrder` | source/WebRequestWorker.cpp:39-106 | at every moment, messages handled by the TWS worker followed by its queue are, transmission by transmission in order of arrival, the reverse of those no local handler takes; the local ones and the errors reported for unset messages kept the same order |
| `RequestPipeline.EachItemIsPickedOnce` | source/WebRequestWorker.cpp:61-106 | a transmission's messages are split between the two destinations, each once |
| `RequestPipeline.PicksInOrder` | source/WebRequestWorker.cpp:61-106 | what is picked for a destination are exactly the set messages of that sort, each once, unchanged and in order |
| `RequestPipeline.ReversedAt` | source/WebRequestWorker.cpp:63-65 | the last message of a transmission is taken first |
| `RequestPipeline.KindsForTheTwsWorker` | source/WebRequestWorker.cpp:67-104 | what is left for the TWS worker are its own requests and those of the generic ones that no local handler knows |
| `RequestPipeline.EveryValueIsInOnePlace` | source/WebRequestWorker.cpp:61-106 | once the web worker is idle, every message that arrived is in exactly one place with content and session unchanged |
| `RequestPipeline.NothingIsHandledAfterTheStop` | source/TwsSendWorker.cpp:35-42 | a stopped worker handles nothing more |
| `RequestPipeline.HandledQueuedAndRest` | source/WebRequestWorker.cpp:39-106 | at any moment, what is meant for the TWS worker is what it handled, its queue, and the rest of the transmissions |
| `RequestPipeline.ShutdownLosesWhatIsForwardedLate` | source/TwsSendWorker.cpp:35-42 | what the TWS worker has handled at its stop is all it ever handles, and that is everything meant for it if and only if nothing in the transmissions under way, waiting or still to come then was |
| `RequestPipeline.AMessageAfterTheStopIsLost` | source/TwsSendWorker.cpp:35-42 | one upstream message arriving after the stop is never handled, whatever follows |
| `RequestPipeline.WebRequestWorker.ReceiveRequests` | source/WebRequestWorker.cpp:214-248 | takes the content away if and only if the kind is a local one |
| `RequestPipeline.WebRequestWorker.HandleMessage` | source/WebRequestWorker.cpp:67-104 | a message goes to a local handler or to the queue, never both, and a forwarded one is unchanged by the release and re-attach |
| `RequestPipeline.WebRequestWorker.HandleTransmission` | source/WebRequestWorker.cpp:61-106 | the loop consumes the transmission from its end and terminates |
| `RequestPipeline.TwsSendWorker.RunDown` | source/TwsSendWorker.cpp:35-42 | interrupted, the loop handles what is queued in order and ends with the queue empty |
| `PendingContracts.NoEndWhilePending` | source/PreviousDayValues.cpp:125-126 | over every interleaving no MultiEnd is pushed while an id is pending, and every pending id has a coroutine still to come |
| `PendingContracts.MultiEndsAreTheOpenTests` | source/PreviousDayValues.cpp:125-126 | MultiEnd is pushed as often as coroutines were between erase and test when the set became empty |
| `PendingContracts.TwoEndsWhenTestsOverlap` | source/PreviousDayValues.cpp:125-126 | two coroutines that both erase before either tests push it twice |
| `PendingContracts.SettledSet` | source/PreviousDayValues.cpp:163-169 | with erase and test as one step, the set holds exactly the ids no coroutine has ended for |
| `PendingContracts.MultiEndIffTheLastEraseFinished` | source/PreviousDayValues.cpp:20-25 | then, for any completion order, duplicate ids and failures, MultiEnd is pushed at most once, only with the set empty, and if and only if the erase that emptied it was not that of a failed contract load |
| `PendingContracts.PendingSet.constructor` | source/PreviousDayValues.cpp:165-166 | collects the ids without repetitions |
| `PendingContracts.PendingSet.ContractFailed` | source/PreviousDayValues.cpp:20-25 | only erases the id |
| `PendingContracts.PendingSet.EraseContract` | source/PreviousDayValues.cpp:125 | erases the id and tells whether it was there |
| `PendingContracts.PendingSet.TestAndPush` | source/PreviousDayValues.cpp:125-126 | pushes MultiEnd if and only if the set is empty by then |
| `PendingContracts.PendingSet.ContractDone` | source/PreviousDayValues.cpp:125-126 | both without interference: pushes MultiEnd if and only if the id was the only one left |
| `DaySummaries.GroupByDay` | source/PreviousDayValues.cpp:44-53 | the loop computes the groups as they grow bar by bar |
| `DaySummaries.GroupsAreTheDays` | source/PreviousDayValues.cpp:44-53 | each day with bars has exactly its bars in their order, and no other day has a group |
| `DaySummaries.GroupHasTheDaysBars` | source/PreviousDayValues.cpp:44-53 | a group holds each bar of its day as often as the input, and none of another day |
| `DaySummaries.GroupOpensAndCloses` | source/PreviousDayValues.cpp:91-93 | a group starts with the first bar of the day and ends with the last |
| `DaySummaries.SummarizeDay` | source/PreviousDayValues.cpp:90-115 | count from the day's bars; open, close, high and low from the first, the last and all bars of the regular hours where they were fetched and have the day, and of the day's bars otherwise; day and quotes stay |
| `DaySummaries.BoundsOfBars` | source/PreviousDayValues.cpp:106-112 | the running low and high bound all bars and are taken by one, or are their start values |
| `DaySummaries.SummaryStaysInBounds` | source/PreviousDayValues.cpp:91-115 | for priced bars a summary not of a previous day has low <= open, close <= high, also when regular-hours bars replace the day's |
| `DaySummaries.HighIsTheGreatestIffNotNegative` | source/PreviousDayValues.cpp:106-113 | the high is the greatest high if and only if that is not negative |
| `DaySummaries.DayHasEnds` | source/PreviousDayValues.cpp:91-93 | the ends of a group are the first and the last bar of the day in the fetched bars |
| `DaySummaries.DayHasItsCount` | source/PreviousDayValues.cpp:91 | the size of a group is the number of positions at which the fetched bars have the day |
| `DaySummaries.QuotedTakesTheLastClose` | source/PreviousDayValues.cpp:54-65 | setting a quote takes the close of the last bar of the day, leaves a day without bars at zero, and changes nothing else |
| `DaySummaries.CollectDays` | source/PreviousDayValues.cpp:32-37 | with strictly decreasing trading days the loop ends with exactly `count` days, each with a blank summary |
| `DaySummaries.PassConservesTheDays` | source/PreviousDayValues.cpp:84-119 | each day with a summary is consumed once or left, except the one at which the inner fetch threw |
| `DaySummaries.PassTakesTheDaysWithBars` | source/PreviousDayValues.cpp:85-89 | a pass consumes only days with bars, and what a finished one leaves are exactly the days without |
| `DaySummaries.ConsumedCompletesASlot` | source/PreviousDayValues.cpp:84-119 | every summary consumed is one of the map, completed with its own day's bars, and what is left is as it was, or missing |
| `DaySummaries.ConsumedIffReached` | source/PreviousDayValues.cpp:84-119 | a day's summary is consumed if and only if the day has bars, and no day up to it has bars and a missing summary or regular hours that throw |
| `DaySummaries.PassGoesUp` | source/PreviousDayValues.cpp:85 | what a pass consumes, and what it leaves, is in the order of the days |
| `DaySummaries.PassFailsAtTheFirstThrow` | source/PreviousDayValues.cpp:96-98 | a pass fails at a day if and only if it is the first day with bars whose regular hours cannot be fetched, and that day's summary is the one left missing |
| `DaySummaries.PassMeetsTheMissingSummary` | source/PreviousDayValues.cpp:86-91 | a pass that fetches nothing ends early if and only if a day with bars has no summary any more, and else goes over all days |
| `DaySummaries.DayLoader.LoadPass` | source/PreviousDayValues.cpp:84-119 | the loop that erases while it iterates is the pass, and pushes each consumed summary once, in order, if there is a session |
| `DaySummaries.DayLoader.ConsumeAt` | source/PreviousDayValues.cpp:87-118 | the summary leaves the map before the fetch of the regular hours; the day is erased only if that succeeds |
| `DaySummaries.DayLoader.SetQuotes` | source/PreviousDayValues.cpp:54-65 | sets the quote of the days that have bars to their last close, and nothing else |
| `DaySummaries.DayLoader.Load` | source/PreviousDayValues.cpp:68-124 | one load: the quotes and trades where they are wanted, an early end where a fetch throws, and the pass |
| `DaySummaries.CurrentLoadConserves` | source/PreviousDayValues.cpp:68-124 | a load of current days consumes or leaves each day, but for the one at which it fails |
| `DaySummaries.PreviousLoadConserves` | source/PreviousDayValues.cpp:68-124 | a load of previous days loses none |
| `DaySummaries.FirstLoadFailsAtTheLostDay` | source/PreviousDayValues.cpp:96-98 | the first load fails at a day if and only if regular hours are wanted, quotes and trades were fetched, and it is the first day that has bars and no regular hours |
| `DaySummaries.WhatIsLoaded` | source/PreviousDayValues.cpp:32-141 | only stocks are loaded twice, and only outside their hours; regular hours are wanted only when a stock is closed and not about to open; which days are asked for, in each case |
| `DaySummaries.PushedSummariesAreRight` | source/PreviousDayValues.cpp:68-119 | every summary of the first load counts the trades of its day, opens and closes with the first and the last bar of the day, and has the high and low of the day's bars, all but the count from the regular hours where they were fetched and have the day; those of the second load have no high and low; the quotes are the last closes of the day, or zero |
| `DaySummaries.FirstLoadPushes` | source/PreviousDayValues.cpp:84-119 | the first load pushes a day's summary if and only if its fetches are answered, the day has trades, and no day up to it has its regular hours fetched in vain |
| `DaySummaries.LastLoadPushes` | source/PreviousDayValues.cpp:140-151 | the second pushes a day's summary if and only if there is a second load, it has bars for the day, the first did not push it, and the day does not come at or behind a lost day for which it has bars |
| `DaySummaries.LoadsGoUp` | source/PreviousDayValues.cpp:85 | each load pushes its summaries in the order of the days |
| `DaySummaries.TradingDaysAreDistinct` | source/PreviousDayValues.cpp:33 | with strictly decreasing trading days, the days asked for are `count` ascending ones that end with the current day, each the trading day before the next |
| `DaySummaries.Previous` | source/PreviousDayValues.cpp:28-151 | the number of days follows from the market; what is pushed are the summaries of the first load and then of the second, each right in every field; the days left and both outcomes are those of the two loads |
| `DaySummaries.LoadsKeepAllButTheLostDay` | source/PreviousDayValues.cpp:84-119 | over both loads each trading day is consumed or left exactly once, except the lost day, which is neither |
| `DaySummaries.LoadsPartitionTheDaysIffNoneIsLost` | source/PreviousDayValues.cpp:140-151 | consumed and left days partition the trading days if and only if no day is lost, a condition on the fetches alone |
| `DaySummaries.EmptyPointerIffTheLostDayHasBars` | source/PreviousDayValues.cpp:90-91 | the second load uses the moved-out summary if and only if it fetched bars for the lost day |
| `DaySummaries.AFailedFetchLosesTheDay` | source/PreviousDayValues.cpp:32-37 | a stock whose market is closed has two days to load; with a bar for the current one and no regular hours that day is lost, and its bars in the second load reach the moved-out summary |
| `StatisticTable.CallHoldsIffTheGroupWasWhole` | sql/mrk_statistic_update.sql:17-39 | after a call the group's rows are its arguments, row by row, if and only if the group was all there or all absent |
| `StatisticTable.GroupsStayWhole` | sql/mrk_statistic_update.sql:17-39 | in every run of calls, with other rows written between, both groups of every contract are whole, so no insert violates the key |
| `StatisticTable.RowsAreTheLastArguments` | sql/mrk_statistic_update.sql:17-39 | and a group's rows are the arguments of the last call for it |
| `StatisticTable.MySqlTable.StatisticUpdate` | sql/mrk_statistic_update.sql:7-40 | commits if and only if no insert meets a row, overwrites or adds the whole group, and after a rollback nothing has changed; the rows are the arguments afterwards if and only if the group was whole |
| `StatisticTable.MySqlTable.InsertGroup` | sql/mrk_statistic_update.sql:20-28 | succeeds if and only if no row of the group was there |
| `StatisticTable.MsSqlTable.StatisticUpdate` | sql/mrk_statistic_update.ms.sql:2-31 | without the low row every insert that meets no row takes effect; with it the existing rows are overwritten |
| `StatisticTable.MsSqlSimulatesIffNoInsertFails` | sql/mrk_statistic_update.ms.sql:5-31 | the MS SQL call keeps the tables equal, ids modulo 256, if and only if no insert of the call meets a row |
| `StatisticTable.MsSqlFollowsEveryRun` | sql/mrk_statistic_update.ms.sql:5-31 | so over every run from empty tables, with other rows written between, both tables hold the same rows of the two groups |
| `StatRequests.FilterRows` | source/requests/Stats.cpp:63-82 | keeps the rows the single pass keeps, and recalculates exactly the contracts with a stale update day |
| `StatRequests.OnePassIsTwoPassIffNoneComesTooEarly` | source/requests/Stats.cpp:62-82 | on any rows, the single pass equals the filter that knows the stale contracts beforehand if and only if no row precedes its contract's stale update day |
| `StatRequests.OnePassKeepsWhatPasses` | source/requests/Stats.cpp:63-82 | on any rows, kept are exactly, in their order, those that are no update day and are of one of the two undated statistics or of a contract that no row before has shown to be out of date |
| `StatRequests.OrderedRowsKept` | source/requests/Stats.cpp:62-82 | for rows ordered by absolute id, what is kept depends on the contract's update day alone |
| `StatRequests.OrderedRowsAreFilteredAsMeant` | source/requests/Stats.cpp:62 | rows ordered by absolute id are filtered as by two passes |
| `StatRequests.AddSpan` | source/requests/Stats.cpp:126-149 | one answer adds the requested statistics of its span, the one asked for first |
| `StatRequests.CollectHoldsEachOnce` | source/requests/Stats.cpp:126-149 | each requested statistic of the span once, with the answer's value and day |
| `StatRequests.SpanIsInOrder` | source/requests/Stats.cpp:126-149 | an answer's low and its day go to the lows, its high and that day to the highs, its average to the moving average without a day; each day stands behind its statistic; the statistic asked for comes first, then year low, year high and average |
| `StatRequests.PartsHoldEachOnce` | source/requests/Stats.cpp:112-150 | with at most one answer per span no statistic and no day is twice in the message, each statistic is followed by its day, and each value is the one of an answer that belongs to it |
| `StatRequests.PartsHoldWhatWasAnswered` | source/requests/Stats.cpp:112-150 | every requested statistic of an answered span is in the message |
| `StatRequests.AtMostTwoQueries` | source/requests/Stats.cpp:112-125 | one query per span means at most two |
| `StatRequests.ComputeStats` | source/requests/Stats.cpp:88-150 | for any order and repetition of requested statistics, at most two queries, one per span, over all days or 365; nothing twice in the message, and every value the one of an answer that belongs to it; the empty head timestamp is read if and only if there is none and a statistic of the last year, or `Pwl`, is requested and not stored; otherwise, if no query throws, everything requested is sent, except all-time statistics asked for while the contract has no data a year old |
| `FlexTrades.DayFitsSixteenBits` | source/Flex.cpp:117-125 | a 32-bit time gives a day that fits the 16-bit key, and a 16-bit counter goes past it without wrapping |
| `FlexTrades.FirstTradeWins` | source/Flex.cpp:90-110 | where nothing is kept for a trade id yet, it is kept if and only if some element of it has an order id, with the data of the first such element |
| `FlexTrades.FirstOrderWins` | source/Flex.cpp:90-98 | the same for orders by order id |
| `FlexTrades.FirstTradeOfTheFiles` | source/Flex.cpp:55-112 | the element sequence of all files keeps the first trade of each id, by file and position, and nothing else |
| `FlexTrades.FirstOrderOfTheFiles` | source/Flex.cpp:55-98 | the same for orders |
| `FlexTrades.LoadingAFileTwiceChangesNothing` | source/Flex.cpp:60-112 | meeting a file again, after any others, changes nothing |
| `FlexTrades.LoadFiles` | source/Flex.cpp:55-112 | over files and positions: an id has a trade, or an order, if and only if some file has one with an order id, and the one kept is the first of the first such file |
| `FlexTrades.IndexByDay` | source/Flex.cpp:113-127 | each day lists exactly the items of that day, by id |
| `FlexTrades.SendTrades` | source/Flex.cpp:164-195 | scanning the days gives exactly the items between the beginning of the start day and the end of the end day, each once, by day and id |
| `FlexTrades.Request` | source/WebRequestWorker.cpp:249-255 | a whole request on freshly loaded files gives exactly the first trades and orders of their ids with a time in the days asked for, each once, by day and id |
| `FlexCache.RequestsAreHistory` | source/Flex.cpp:32-46 | a request holds the checksum of the directory it scanned, whatever changed since |
| `FlexCache.CacheIsHistory` | source/Flex.cpp:26-51 | what is cached is what its load found; the checksum stored is that of what its request had checked, unless a later load has stored its own |
| `FlexCache.LoadIsHistory` | source/Flex.cpp:52-130 | a load under way holds what it found and the checksum of what its request had checked |
| `FlexCache.FreshLoadHasTheFirst` | source/Flex.cpp:55-112 | a load has exactly the ids that some xml file has a trade, or an order, of, and the first of each, by file and position |
| `FlexCache.XmlIffItsExtension` | source/Flex.cpp:65-67 | only files whose name ends in `.xml`, behind at least one character, are loaded |
| `FlexCache.StampsAreOfEachFile` | source/Flex.cpp:32-46 | the checksum is over the path and write time of every file, whatever its extension |
| `FlexCache.StaleAnswerIff` | source/Flex.cpp:46-50 | in any run, with any number of requests and loads under way, an answer from the cache differs from what its request checked if and only if: a load stored data between its comparison and its look, and the last such found other data than it had checked; or none did, and when it compared the cached load had found other data than was checked, or a load of data other than the cached had stored its checksum only |
| `FlexCache.StaleIffOvertakenOrBetweenStores` | source/Flex.cpp:46-48 | after any run, some directory gives the next, uninterrupted request a stale answer if and only if one of the last two is so |
| `FlexCache.UndisturbedRequest` | source/Flex.cpp:46-50 | what that means for the request's own steps |
| `FlexCache.CalmRunsReadFresh` | source/Flex.cpp:26-51 | if no load is overtaken, a request that compares while no load is between its stores, and looks before another load has stored its data, is given what a fresh load of the directory it checked gives |
| `FlexCache.LoadsGiveWhatTheyFound` | source/Flex.cpp:113-130 | in any run a load gives what it found |
| `FlexCache.SequentialRequestsReadFresh` | source/Flex.cpp:26-51 | over every sequential run of changes, evictions and requests, a request is given what a fresh load of the current directory gives |
| `FlexCache.UndoneChangeIsStillRead` | source/Flex.cpp:128-130 | for any two directories with different data, one overtaken load and an undone change make the next request read the wrong one |
| `FlexCache.AskingBetweenTheStoresReadsOldData` | source/Flex.cpp:128-130 | for any two that also differ in checksum, a request between the two stores of the second load reads the data of the first, with no load overtaken |
| `FlexCache.StoringBeforeTheLookReadsOtherData` | source/Flex.cpp:47-48 | for any such two, a request whose comparison and look fall around both stores of a load reads that load's data, although the directory is the other one all the time |
| `FlexCache.InjectiveTells` | source/Flex.cpp:32-46 | an injective checksum and contents fixed by path and write time are enough for these results |
| `FlexCache.Cache.ScanDirectory` | source/Flex.cpp:28-46 | computes the checksum of the directory as it is now |
| `FlexCache.Cache.CompareChecksum` | source/Flex.cpp:47 | compares it with the one stored at that moment |
| `FlexCache.Cache.GetCached` | source/Flex.cpp:48-50 | answers with what is cached at that moment, or goes on to a load |
| `FlexCache.Cache.ReadDirectory` | source/Flex.cpp:54-127 | under the lock, loads the xml files as its loop reads them, each at its own time; a failure stores nothing |
| `FlexCache.Cache.StoreChecksum` | source/Flex.cpp:128 | stores the checksum computed before the lock was taken, and no data |
| `FlexCache.Cache.StoreLoaded` | source/Flex.cpp:130 | stores and returns what was read |
| `TweetMerge.Position` | source/requests/Twitter.cpp:311-317 | the first tweet of a list with the given time and id |
| `TweetMerge.KeptTweetsStay` | source/requests/Twitter.cpp:318-322 | tweets in the list keep position, time, author and text through any merge |
| `TweetMerge.KeysStayUnique` | source/requests/Twitter.cpp:311-322 | (time, id) stays unique if it was |
| `TweetMerge.KeysAreTheUnion` | source/requests/Twitter.cpp:311-322 | the merged keys are those of both lists, and an old key keeps its place |
| `TweetMerge.MetricsAreTheLast` | source/requests/Twitter.cpp:322 | a key's metrics are those of the last accepted tweet with it |
| `TweetMerge.OthersAreUntouched` | source/requests/Twitter.cpp:322 | a tweet that came no more is unchanged |
| `TweetMerge.NewTweetsAreTheFirst` | source/requests/Twitter.cpp:318-321 | the rest of the list are the new keys in the order they first came, each with the time, id, author and text of that first tweet, its time cut to 32 bits |
| `TweetMerge.EveryPositionsMetrics` | source/requests/Twitter.cpp:322 | at every position the metrics are those of the last tweet with its key, if that came and this is the key's first position, and otherwise those that were there |
| `TweetMerge.MergedFieldByField` | source/requests/Twitter.cpp:311-322 | the merged list, field by field: the kept tweets where they were, with newer metrics if they came again, and then exactly the first tweets of all other keys in the order they came, with the metrics of the last |
| `TweetMerge.SearchIsKeyedMerge` | source/requests/Twitter.cpp:292-325 | the filter with its growing set of blocked authors followed by the merge is the keyed merge of the accepted tweets, acceptance being read off the earlier tweets alone |
| `TweetMerge.AcceptedArePicked` | source/requests/Twitter.cpp:294-309 | accepted are exactly, in their order, the tweets that pass every filter given the tweets before them |
| `TweetMerge.BlockingArePicked` | source/requests/Twitter.cpp:301-307 | the tweets whose tags are counted are exactly the overtagged ones of authors not blocked by an earlier one |
| `TweetMerge.OnlySpyNeedsItsTag` | source/requests/Twitter.cpp:298-299 | only a search for SPY, in any case, looks at the tags: one must be the symbol behind a dollar sign, in any case |
| `TweetMerge.NewlyBlocked` | source/requests/Twitter.cpp:295-307 | an author is blocked if and only if an unblocked, hash-matching tweet of theirs with more than four tags came before |
| `TweetMerge.TagsAreCounted` | source/requests/Twitter.cpp:304-305 | a tag's ignored count grows by its occurrences in the blocking tweets, one tweet per author |
| `TweetMerge.PopularTweetsAreSent` | source/requests/Twitter.cpp:323-335 | each tweet to send stands, when the page ends, at the position remembered for it |
| `TweetMerge.PopularArePicked` | source/requests/Twitter.cpp:323-324 | to be sent are exactly, in their order, the tweets of a page that are accepted after all the tweets before and have more than five likes |
| `TweetMerge.EachPagePushesItsPopular` | source/requests/Twitter.cpp:326-336 | each page pushes one batch of its popular tweets as the list has them then, or nothing if it has none; any other answer pushes nothing |
| `TweetMerge.PushesGrow` | source/requests/Twitter.cpp:272-338 | batches once pushed stay, and at first there are none |
| `TweetMerge.TweetsInHoldsEachPage` | source/requests/Twitter.cpp:292 | the tweets merged are those of the pages fetched, page by page and in their order |
| `TweetMerge.IndexAgreesIffTimesFit` | source/requests/Twitter.cpp:320 | the time index and the list agree, each tweet once under its own time, if and only if every accepted time fits 32 bits |
| `TweetMerge.SinceWeekKeepsTheRecent` | source/requests/Twitter.cpp:227-232 | exactly the tweets of the last seven days are kept, each once and in their order |
| `TweetMerge.Prune` | source/requests/Twitter.cpp:228-232 | the loop keeps exactly these, in their order |
| `TweetMerge.IndexByTime` | source/requests/Twitter.cpp:235-237 | each tweet is indexed once, under its time, in list order |
| `TweetMerge.TweetSearch.Find` | source/requests/Twitter.cpp:311-317 | the scan of a time's range finds what a search of the whole list would |
| `TweetMerge.TweetSearch.Merge` | source/requests/Twitter.cpp:318-322 | list and index after the update are those of the keyed merge |
| `TweetMerge.TweetSearch.TakeTweet` | source/requests/Twitter.cpp:294-324 | one turn of the merge loop, with all its filters |
| `TweetMerge.TweetSearch.HandleResponse` | source/requests/Twitter.cpp:277-337 | merges a page and sends its popular tweets as they are kept then, in one batch if there are any |
| `TweetMerge.TweetSearch.FetchPage` | source/requests/Twitter.cpp:272-338 | one turn of the page loop; an answer that does not parse leaves the token of the page before, and there is a next turn unless the call failed or the token is empty |
| `TweetMerge.TweetSearch.FetchPages` | source/requests/Twitter.cpp:272-338 | makes at most ten calls, up to the first failure, last page or unparsable first page; merges all pages until then and sends a batch after each |
| `TweetMerge.PagesAreOneRun` | source/requests/Twitter.cpp:272-338 | merging page by page is merging all the tweets in one go |
| `TweetMerge.Search` | source/requests/Twitter.cpp:213-337 | the final list, field by field: the tweets of the last seven days where they were, then the first of every other accepted tweet of the pages fetched; the batches are those of its pages; a list less than twenty minutes old is sent and kept as it is |
| `TweetQuery.SortByCount` | source/requests/Twitter.cpp:244-245 | the same tags in ascending count, those of one count in their order |
| `TweetQuery.NamesAreTheExcludables` | source/requests/Twitter.cpp:252-253 | the names excluded are those of exactly the excludable tags among the considered, in their order |
| `TweetQuery.CandidateIsTheUnsignedTag` | source/requests/Twitter.cpp:249-252 | a name is the tag without one leading sign; it is excludable if and only if it has at least two characters and no part of the symbol is the name, whatever the case |
| `TweetQuery.JoinedHoldsEachName` | source/requests/Twitter.cpp:253 | each name stands behind a separator, right after the names before it |
| `TweetQuery.ExclusionsFit` | source/requests/Twitter.cpp:250-251 | exclusions that fit one by one fit together |
| `TweetQuery.BuildQuery` | source/requests/Twitter.cpp:240-255 | the considered tags are the longest prefix, that fits tag by tag, of all tags in descending count, and the query, the names of the excludable ones between prefix and suffix, has at most 512 characters if and only if prefix and suffix have |

## Left out

- Sockets, TLS, framing and serialization: a stream is the sequence of whole writes on it.
- Upstream calls, HTTP, JSON, XML, files and database queries: their answers are parameters, a failure included.
- Trading calendar, time zones and `ToTimeT`: trading days are a strictly decreasing function, and a day is a time divided by 86400.
- `Tweet::Tags` and `Str::NextWord`: the tags of a tweet are an input.
- `EraseRequestSession`, `_requestSessions` and the pushes by result kind: sets of sessions without a protocol.
- `AccountRequest`: its test for a remaining subscription reads inverted, but it has no state of its own.
- The contract handles of `WrapperCo` that bypass the collected contract details.
- The final sorted sending of tweets: its comparator divides by a time difference and is no strict order.
- Loading contracts and head timestamps, and the query for the price of `Pwl`, in a statistics request.
- `SendAuthors`, blocking users upstream, market data, news, Edgar, Reddit, watch lists, Blockly and login.
- Order of iteration over hash tables: loops over them pick any remaining key.
- WriteLocks.WebCoSocket.TestAndSetFlag: one turn of the spin; that the spin ends is not stated, as it depends on the scheduler.
- AccountSubscriptions.AccountGateway.UpdateAccountValue: the update without interference; with interference it is the two methods above it, in any interleaving.
- RequestRoutes.CancelSilencesIffTheKeyIsUnique: a callback looks its route up and sends in one step; one that looked up before the erase can still be sent after it.
- MultiRequests.ContractGateway.AddMultiRequest: one step, while the routes are added after the mutex is released; `RoutesMayBeAddedLater` says when that makes no difference.
- MultiRequests.ContractGateway.OnDetails: a detail after the end callback of its id, for which the source follows an empty pointer, starts a new result here; `FollowsEmptyPointerIff` says exactly when.
- MultiRequests.ContractGateway.OnDetailsEnd: a second end callback on a live route, for which the source follows an empty pointer, hands on an empty result here; `FollowsEmptyPointerIff` says exactly when.
- PendingContracts.PendingSet.ContractDone: erase and test without interference; with interference they are `EraseContract` and `TestAndPush`.
- DaySummaries.SummarizeDay: the volume and its rounding are not modelled, and prices are reals.
- DaySummaries.DayLoader.Load: the arguments of the fetches (end date, number of days, bar size) are not modelled; any bars may come back.
- DaySummaries.Previous: the null pending set of a single-contract call, which the second load dereferences, is not modelled.
- StatRequests.ComputeStats: ends where the source reads an empty head timestamp, whose value is undefined; the number of `Pwl`, 6, is not defined in this repository.
- FlexTrades.SendTrades: trades and orders are two day maps, not two lists of one record per day; a failed load, after which the source reads a null pointer, is not modelled; the day counter is unbounded, and `DayFitsSixteenBits` says that for 32-bit times it does not wrap.
- FlexCache.Cache.ReadDirectory: knows regular files only, and does not tell an empty file from one without trades.
- FlexCache.Cache.ScanDirectory: sees all files at one moment.
- TweetMerge.TweetSearch.FetchPages: the sets of authors and of sent tweets, which only the sending after the loop uses, are not kept.
- TweetQuery.BuildQuery: the encoded prefix is an input.

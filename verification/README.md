# Verified model of the quiz match core

This project models the match core of a real-time quiz backend and proves properties of it over every input and
every run. It follows the program's own pieces, one module each:

- **Scoring** (`Scoring.dfy`): the score of an answer and the recount at the end of a match. Submission leaves the
  current answer out of its streak, the recount puts it in; the two totals are related exactly.
- **Match records** (`MatchRecords.dfy`): what submitting and finalizing do to one player's record. No flag closes
  a match; that padding closes it is derived.
- **Match protocol** (`MatchProtocol.dfy`): submissions and finalizations as interleaved small steps (acquire the
  lease lock, read, write, release, crash, time passing). Runs in which every section ends within its lease are
  serializable; in any run at all, it is told exactly when an answer is lost.
- **Match service** (`MatchService.dfy`, `MatchLaws.dfy`): the state manager and service as objects over a keyed store,
  down to the requests sent to the leaderboard and the payload returned, and what a match promises from end to end.
- **Leaderboard** (`Leaderboard.dfy`, `LeaderboardCalls.dfy`): incremental counters against the fold of the result
  log, over string keys, and calls that interleave window by window.
- **Rate limiter** (`RateLimiter.dfy`): the token bucket of the Gemini wrapper as one refill process and any number
  of callers over channels.
- **Matchmaking** (`Matchmaking.dfy`), **Rooms** (`Rooms.dfy`) and **Hub** (`Hub.dfy`): the queue, the private rooms
  with their join handlers interleaved, and the WebSocket hub with its slices shifted in place.
- **Question packs** (`QuestionPack.dfy`, `PackLaws.dfy`, `Regeneration.dfy`, `PackCache.dfy`, `Text.dfy`): pack
  assembly and exactly when it succeeds, the arithmetic of asking again, and the cache with its string key.

`Common.dfy` holds shared types. Objects the program updates in place are classes; their methods are specified by
functions and predicates about which the lemmas speak. Clocks, random draws, Redis and database failures and the
answers of the question pool and the AI generator are parameters. Map iteration takes an arbitrary order. Floating
point is replaced by exact reals with truncation toward zero.

## Where the code differs from what it says

Each of these is a lemma about the code as it is, with the exact condition where there is one.

- The level-1 duplicate filter keeps every list as it is (`QuestionPack.LevelOneKeepsEverything`,
  `DuplicateCheckNeverHelps`).
- With one to three seen questions the two-player branch only reorders the pack, or fails
  (`QuestionPack.FewSeenSucceedsIff`): when each player has seen one question that the other has not, there is no
  pack (`DifferentSeenFails`, `OneSeenEachFails`).
- The completion payload is built from the records read before finalization, so a first finalization reports
  zeros (`MatchService.FirstPayloadIsBlank`).
- Finalizing again counts again on the leaderboard (`MatchService.RepeatedFinalizationCountsAgain`).
- A call that overruns the 30 s lease can lose an accepted answer (`MatchProtocol.OverrunLosesAnswer`): exactly by a
  later write from an earlier snapshot (`AnswerLostIff`).
- A queued request stops all refilling once the bucket is empty (`RateLimiter.StarvedForever`,
  `StarvationReachable`), a token sent to a caller that gave up is never put back (`LeaksExactly`,
  `LeakReachable`), and a rate above 60 panics (`IntervalPositive`).
- An old connection's cleanup can drop a newer one (`Hub.StaleCleanup`).
- A broadcast that runs while one player of a pair is removed can reach the other twice (`Hub.PairServed`). Missing
  a member takes a match of three or more (`Hub.ServedTimes`), which no caller builds.
- A room whose match creation fails never starts (`Rooms.PairStrandedIffCreationFailed`). The room manager itself
  accepts more than two places; there a second joiner can also come between the first one's join and its count
  (`Rooms.StrandedIff`, `NotSecondIff`). Creation over HTTP admits two places only.

## Model

| member | source | states |
|---|---|---|
| Scoring.Engine.constructor | internal/match/service.go:55-57 | a configuration with no base score is replaced by the default constants |
| Scoring.Engine.CalculateScore | internal/match/scoring/engine.go:40-76 | a wrong answer earns nothing; a right one earns the base plus time bonus plus streak bonus of the specification |
| Scoring.Engine.StreakBefore | internal/match/scoring/engine.go:114-121 | the backward inner loop returns the length of the trailing run of correct answers before answer i |
| Scoring.Engine.ComputeFinalScore | internal/match/scoring/engine.go:89-147 | the nested loops compute the total of a one-pass running streak, correct over length, and the percentage of the longest run; an empty list gives zeros |
| Scoring.TimeBonusMonotone | internal/match/scoring/engine.go:53-63 | less time left never raises the time bonus |
| Scoring.StreakConventionsDiffer | internal/match/scoring/engine.go:112-124 | the streak part counting the answer itself exceeds the part counting only earlier answers by exactly one bonus per maximal run of correct answers |
| Scoring.FinalTotalTelescopes | internal/match/service.go:436-451 | for any answers, each scored with its own clock and time limit, final total = summed ScoreEarned + bonus of every maximal run + what the time bonuses have changed by since |
| Scoring.FinalTotalAgainstEarned | internal/match/scoring/engine.go:126-133 | if finalization has no longer limit than any submission had, the final total is at most summed ScoreEarned plus the run bonuses, and equals it if and only if every correct answer keeps its time bonus |
| Scoring.BonusFalls | internal/match/scoring/engine.go:53-63 | a later clock and a shorter limit never raise a time bonus |
| Scoring.TimeBonusLinear | internal/match/scoring/engine.go:53-63 | the time bonus b of a correct answer with r of t left satisfies t*b <= max*r < t*b + t; beyond either end it is the maximum or nothing |
| Scoring.ScoreByClock | internal/match/service.go:444-450 | the same by the clock: what counts is how long before the reading the answer was given |
| Scoring.StreakBonusIs | internal/match/scoring/engine.go:66-73 | the streak bonus is the base score times the capped percentage, rounded down, and nothing without a streak |
| Scoring.DefaultScoreIs | internal/match/scoring/engine.go:16-23 | under the default constants a correct answer is worth 100 + 50*r/t + min(5k, 50), a wrong one nothing |
| Scoring.CorrectCountIs | internal/match/scoring/engine.go:102-110 | the counter is the number of places with a correct answer |
| Scoring.LongestRunIs | internal/match/scoring/engine.go:102-110 | the longest run is a run of correct answers and no other is longer |
| Scoring.LongerLimitRaises | internal/match/service.go:430-434 | with a time bonus of at least 2 there is for every limit an answer scored under it, as under the 15 s fallback, that ends with more when finalized under twice the limit, so the condition is needed |
| Scoring.StreakCeilingClosedForm | internal/match/scoring/engine.go:66-73 | the sum of min(5k, 50) is 5n(n+1)/2 up to ten answers and 275 + 50(n-10) beyond |
| Scoring.FinalTotalCeiling | internal/match/scoring/engine.go:16-23 | under the default constants n answers total at most 150n plus that sum, reached if and only if all are correct with the whole time left |
| Scoring.PaddingKeepsTotal | internal/match/scoring/engine.go:101-133 | appended wrong answers do not change the total at a fixed clock, whatever streak came before |
| Scoring.PaddingKeepsCounts | internal/match/scoring/engine.go:102-110 | appended wrong answers change neither the correct count nor the longest run |
| Scoring.PaddingKeepsFinal | internal/match/scoring/engine.go:135-146 | with wrong answers appended total and streak percentage stay and accuracy is the correct count over the new length |
| Scoring.ScoresNothingIff | internal/match/scoring/engine.go:46-50 | in every configuration with a positive base and no negative bonus, as the default one, a total is never negative, and zero if and only if no answer is correct |
| Scoring.FinalizingLater | internal/match/scoring/engine.go:126-129 | a later clock never raises a total and leaves accuracy and streak percentage alone |
| Scoring.NegativeBonusRises | internal/match/scoring/engine.go:61-62 | for every configuration with a negative time bonus there is a list whose total rises with time, so the condition of FinalizingLater is needed |
| Scoring.TotalSettles | internal/match/scoring/engine.go:126-133 | once every answer is older than the timeout the total no longer depends on the clock |
| MatchRecords.FindByToken | internal/match/service.go:405-418 | the first question carrying the token, none if and only if no question does |
| MatchRecords.SubmitKeepsOrders | internal/match/service.go:405-463 | accepted if and only if the first question with the token has no answer yet; then one answer of that order is appended with the submitted token, text and time, marked and scored with the streak before it, nothing else changes, and orders stay distinct and within 1..n |
| MatchRecords.SubmitRefuses | internal/match/service.go:399-425 | no pack, no question with the token, or a question already answered: each refusal gives its own error |
| MatchRecords.FinalizeCloses | internal/match/service.go:546-564 | after finalization every question order has exactly one answer and the earlier answers are still in front, in order |
| MatchRecords.FinalizeFields | internal/match/service.go:552-596 | a finalized player is completed, or left early if the player had left; identity stays, and every added answer is an empty wrong one to a question of the pack, with its token |
| MatchRecords.ClosedRejectsSubmissions | internal/match/service.go:420-425 | no status flag closes a match: a record with an answer for every order refuses every submission |
| MatchRecords.FinalizeTwice | internal/match/service.go:552-564 | a second finalization leaves the answer list as it is |
| MatchRecords.PaddingAgreesWithLeaderboard | internal/match/service.go:580-586 | padding leaves total and streak percentage as scored without it and makes the engine's accuracy the leaderboard's own CorrectCount/QuestionCount |
| MatchRecords.BuildPackItems | internal/match/service.go:166-178 | the conversion loop numbers the questions from 1 and signs each with id and answer |
| MatchRecords.TokensDistinct | internal/match/service.go:482-490 | questions with distinct ids get distinct tokens without a key, and with one if no id holds a colon and the code does not collide on the pack |
| MatchRecords.PayloadTellsId | internal/match/service.go:486 | ids without a colon can be read back from the signed payload |
| MatchRecords.ColonsShareToken | internal/match/service.go:486 | with a colon in an id two different questions share a token under every key |
| MatchRecords.AnswerableIffFirst | internal/match/service.go:408-414 | a question can be answered on an empty record if and only if no earlier question of the pack carries its token |
| MatchRecords.RepeatedQuestionNeverAnswered | internal/match/service.go:405-425 | in any run of submissions a question that repeats an earlier one never gets an answer until finalization pads it as wrong |
| MatchRecords.RunKeepsRecord | internal/match/service.go:386-479 | after any series of submissions to an empty record, each with its own clock and limit, the orders are distinct and from the pack, and each answer carries its own submission's score |
| MatchRecords.RunFinalTotal | internal/match/service.go:580 | finalizing after any series of submissions gives the summed scores plus one bonus per maximal run plus the change of the time bonuses; if no submission had a shorter limit or later clock, no more than without that change, with the exact case of equality |
| MatchProtocol.AtMostOneLease | internal/match/state.go:30-40 | in every reachable state of every interleaving, two calls are both inside their sections only if one has overrun its lease |
| MatchProtocol.LeaseNotStolen | internal/match/state.go:42-52 | no step of another call, stale unlocks and crashes included, takes an unexpired lease away |
| MatchProtocol.ThirtySecondsExclusive | internal/match/state.go:30-40 | in any run, whoever tries within thirty seconds of a granted and unreleased acquisition is refused and changes nothing, even if the holder has crashed |
| MatchProtocol.FreeAfterThirtySeconds | internal/match/state.go:30-40 | once thirty seconds have passed since every granted acquisition the next is granted, released or not |
| MatchProtocol.OrdersAlwaysOk | internal/match/service.go:420-425 | in every reachable state each record's orders are distinct and from 1..n |
| MatchProtocol.Serializable | internal/match/service.go:386-479 | if every section ends within its lease, be it by unlocking, by a crash or with a lost unlock, the store equals that of the sections run one after the other in lock-acquisition order |
| MatchProtocol.AcceptedAnswerKept | internal/match/service.go:463-468 | under the same condition every accepted and stored answer is in the final record, where it was put |
| MatchProtocol.AnswerLostIff | internal/match/service.go:394-468 | in any run, within leases or not, crashes included, a stored answer is lost later if and only if a later step stores a record without it, made from a snapshot read before the answer was stored |
| MatchProtocol.FinalizedForever | internal/match/service.go:546-564 | after a finalization stored a record, all later submissions by that player are refused and the answer list never changes again |
| MatchProtocol.OverrunLosesAnswer | internal/match/state.go:34 | a concrete run in which a call overruns the 30 s lease and an accepted answer is gone in the end |
| MatchService.StateManager.LockMatch | internal/match/state.go:30-40 | the lock is taken for 30 s if and only if Redis answers and nobody holds it unexpired; the two errors are told apart |
| MatchService.StateManager.Unlock | internal/match/state.go:42-52 | the lock is released if and only if the script runs and the lock still holds the caller's value |
| MatchService.StateManager.StorePlayerState | internal/match/state.go:58-68 | the record is written under its key, or nothing changes when Redis refuses |
| MatchService.StateManager.GetPlayerState | internal/match/state.go:71-86 | the stored record, none, or the read error |
| MatchService.StateManager.GetAllPlayerStates | internal/match/state.go:89-113 | each readable record of the match exactly once, in an arbitrary order, or the error of the key listing |
| MatchService.StateManager.StoreMatchQuestions | internal/match/state.go:116-125 | the pack is written under its match |
| MatchService.StateManager.GetMatchQuestions | internal/match/state.go:128-143 | the stored pack, empty if there is none, or the read error |
| MatchService.Service.SetUpMatch | internal/match/service.go:166-230 | a created match gets its numbered pack and a blank record for each player, old records of theirs included, except where a write fails; every other pack and record stays |
| MatchService.Service.SubmitAnswer | internal/match/service.go:386-479 | errors in the source's order, failed reads included; only acceptance changes the store, in the caller's record and exactly as specified; the lock is free again unless the unlock is lost |
| MatchService.Service.PadAnswers | internal/match/service.go:546-564 | the two loops append exactly the specified padding |
| MatchService.Service.FinalizePlayer | internal/match/service.go:545-596 | one player's finalized record is the specified one and the counted correct answers are its correct count |
| MatchService.Service.FinalizePlayers | internal/match/service.go:544-645 | every listed record is replaced by its finalization except where Redis refuses; one request per registered player, in order, if eligible |
| MatchService.MarkWinners | internal/match/service.go:658-666 | the winners are exactly the maximum scorers, and a non-empty list has one |
| MatchService.Service.RecordAll | internal/match/service.go:665-685 | each request, by its own summary lookup and failure, goes to its room's board, to the windows, or nowhere |
| MatchService.Service.BuildResults | internal/match/service.go:688-712 | the payload shows the records as listed, with zeros for missing values |
| MatchService.Service.FinalizeMatch | internal/match/service.go:494-725 | each error that ends the call early and what it leaves; otherwise the new records, the requests sent, the board afterwards and the payload are all determined |
| MatchService.FirstPayloadIsBlank | internal/match/service.go:545-712 | the payload of a first finalization shows every player with zeros and not completed, because the loop finalizes copies; with a positive base score and no negative bonus the score shown is right if and only if the player has no correct answer |
| MatchService.RepeatedFinalizationCountsAgain | internal/match/service.go:494-521 | k finalizations of one match, in whatever order they list the records and whichever writes are refused, raise the counters of a registered player they can read by k games, k times the match's correct answers and questions, the sum of the totals that the same answers have at each clock, and one win for each call in which no request has a higher score |
| MatchService.RepeatedTotalAtMost | internal/match/service.go:580 | with one limit and clocks not before the first, that sum is at most k times the first total |
| MatchService.TwoFinalizationsCountTwice | internal/match/service.go:494-521 | an instance for every registered player alone in a match: two finalizations a minute apart, two games |
| MatchLaws.PackShows | internal/match/service.go:166-178 | the stored pack lists the given questions in order with their ids; a token is the id, or the code of id:answer under a key |
| MatchLaws.MarkedByTheQuestions | internal/match/service.go:405-463 | with distinct ids, no colon in an id and no collision, an answer to question k by its token is accepted once, for order k + 1, and correct if and only if it is the text given for that question at creation |
| MatchLaws.CreatedPlayerIsNew | internal/match/service.go:203-230 | creation leaves every listed player it can write queued, unanswered and without a score, under its own name and guest flag |
| MatchLaws.CreatedMatchMarks | internal/match/service.go:166-230 | from creation to the store: a listed player's first answer is stored under that player, marked by the question, and under the default constants worth 100 + 50*(limit - elapsed)/limit of the configured limit, or of 15 s without a summary |
| MatchLaws.FinalizationSettles | internal/match/service.go:545-612 | each record of the match that can be read and written ends completed, or left early if its player had left, with the total of its answers; all other records stay |
| MatchLaws.NextPayloadShows | internal/match/service.go:688-712 | the payload of the next finalization shows those statuses, names and totals |
| MatchLaws.PrivateMatchStaysInRoom | internal/match/service.go:665-685 | a private match counts on its room's board, each player by the whole result, and on no other |
| MatchLaws.NothingCounted | internal/match/service.go:650-685 | an ineligible match, a failed status update, or a mode that is neither private with a room nor random counts nowhere |
| MatchLaws.GuestsSendNothing | internal/match/service.go:615-630 | a user id that only guests of the match have is in no request |
| MatchLaws.HeldThirtySeconds | internal/match/state.go:30-40 | a granted lock is found held for exactly thirty seconds |
| Leaderboard.KeysInjective | internal/leaderboard/service.go:255-261 | window and user are recovered from the set and hash keys |
| Leaderboard.PrivateKeyIsWindowKey | internal/leaderboard/service.go:334-340 | a room's keys are those of the window named private_room:code, and of no other window |
| Leaderboard.KeyExamples | internal/leaderboard/service.go:255-261 | the keys of a daily board and of a room's board, spelled out |
| Leaderboard.DefaultWindowsNotPrivate | internal/leaderboard/service.go:87-89 | no default window is such a window |
| Leaderboard.Service.constructor | internal/leaderboard/service.go:77-110 | defaults for prefix, windows and list length |
| Leaderboard.Service.UpdateWindow | internal/leaderboard/service.go:180-202 | one transaction: score and counters of one user in one window, or nothing |
| Leaderboard.Service.RecordResult | internal/leaderboard/service.go:113-148 | the windows before the first failing update are bumped by the request's entry and no others |
| Leaderboard.Service.RecordPrivateRoomResult | internal/leaderboard/service.go:264-307 | the same entry goes to the room's own keys, or nothing and an error |
| Leaderboard.Service.ReadMeta | internal/leaderboard/service.go:232-253 | the stored counters and totals, accuracy pooled from them, zero without questions; none when the read fails |
| Leaderboard.Service.Top | internal/leaderboard/service.go:151-173 | at most topN distinct users by falling score, each row with the score and counters stored for that user; users whose metadata cannot be read are left out, and a failed list is an error |
| Leaderboard.ReadableFacts | internal/leaderboard/service.go:163-171 | dropping unreadable rows keeps order and scores, and drops nothing when all can be read |
| Leaderboard.ReadableAre | internal/leaderboard/service.go:163-171 | the rows kept are exactly those whose metadata can be read |
| Leaderboard.CountersAdd | internal/leaderboard/service.go:184-192 | any updates add to a user's shown numbers the fold of the entries applied to that user in that window |
| Leaderboard.CountersAreFolds | internal/leaderboard/service.go:184-192 | from an empty store, score, wins, games, correct and questions are the fold of the result log |
| Leaderboard.ShownIsTally | internal/leaderboard/service.go:113-148 | after any run of recorded results the shown score, wins, games, correct answers and questions are the sums over the requests that counted for the user in the window, as often as it was listed before a failure |
| Leaderboard.WinsAreMatchesWon | internal/leaderboard/service.go:126-136 | with windows listed once, games are the number of counted matches and wins the number of those with the won flag |
| Leaderboard.NameIsLatest | internal/leaderboard/service.go:193-195 | the name shown is that of the latest counted result |
| Leaderboard.StoreStep | internal/leaderboard/service.go:139-143 | the store after a run grows by the updates of each further event |
| Leaderboard.PrivateLeavesWindows | internal/leaderboard/service.go:285-302 | a private-room result changes no window entry |
| LeaderboardCalls.WindowsDifferByOwed | internal/leaderboard/service.go:139-143 | whatever calls interleave window by window and wherever they fail, a window shows what a later one shows plus exactly the results of the calls that stand or failed between the two |
| LeaderboardCalls.LaterWindowsLagBehind | internal/leaderboard/service.go:139-143 | so no window exceeds an earlier one in any state of any interleaving |
| LeaderboardCalls.DefaultWindowsLagBehind | internal/leaderboard/service.go:87-89 | the same for the default windows, with no condition on names |
| LeaderboardCalls.OneByOne | internal/leaderboard/service.go:139-143 | calls one after the other, wherever they fail, are one of the interleavings: they leave the same store |
| LeaderboardCalls.LaterWindowsLag | internal/leaderboard/service.go:139-143 | so the order of the windows holds for them too |
| Leaderboard.PooledAccuracyBetween | internal/leaderboard/service.go:249-251 | pooled accuracy lies between the least and the greatest per-match accuracy |
| RateLimiter.EffectiveRpm | examples/ai/gemini-wrapper/main.go:34-36 | a positive rate is kept and any other replaced by 10 |
| RateLimiter.IntervalPositive | examples/ai/gemini-wrapper/main.go:42 | the refill interval is positive if and only if the rate is at most 60; otherwise the ticker panics |
| RateLimiter.RateOvershoot | examples/ai/gemini-wrapper/main.go:42 | q is the greatest number with rpm*q <= 60, and 60/q lies in [rpm, 2 rpm) |
| RateLimiter.NewRateLimiter | examples/ai/gemini-wrapper/main.go:33-62 | a full bucket and an idle refill, or a panic beyond 60 |
| RateLimiter.TokensConserved | examples/ai/gemini-wrapper/main.go:65-146 | in every interleaving bucket + direct takes + deliveries + the token in refill's hand = rpm + deposits, and the bucket never holds more than rpm |
| RateLimiter.PutBackUnreachable | examples/ai/gemini-wrapper/main.go:83-89 | a request's channel is never full when refill sends, so the put-back branch is unreachable |
| RateLimiter.ServedOnce | examples/ai/gemini-wrapper/main.go:80-82 | a served request is never in the queue or in hand again, and deliveries count served requests |
| RateLimiter.QueueBounded | examples/ai/gemini-wrapper/main.go:117-125 | at most a hundred requests are queued, and a call is turned away at once only when they are |
| RateLimiter.TokensAccountedFor | examples/ai/gemini-wrapper/main.go:65-146 | every token is in the bucket, in refill's hand, with a caller that returned true, in the channel of one still waiting, or in the channel of one that gave up |
| RateLimiter.LeaksExactly | examples/ai/gemini-wrapper/main.go:80-89 | a token is leaked exactly when it is delivered to a caller that gave up or a caller gives up with its token arrived, and stays leaked: the comment's put-back never happens |
| RateLimiter.LeakReachable | examples/ai/gemini-wrapper/main.go:80-89 | for every rate from 1 to 60 there is a run that leaks a token |
| RateLimiter.StarvedForever | examples/ai/gemini-wrapper/main.go:73-97 | from an empty bucket with a request waiting and refill neither holding nor about to deposit a token, no step of anyone hands out a token ever again |
| RateLimiter.StarvedIffDead | examples/ai/gemini-wrapper/main.go:73-106 | a reachable state is starved if and only if no continuation hands out another token |
| RateLimiter.StarvationReachable | examples/ai/gemini-wrapper/main.go:117-132 | for every rate from 1 to 60, rpm + 2 steps lead to starvation |
| RateLimiter.TakesInWindow | examples/ai/gemini-wrapper/main.go:72-106 | in any window of W seconds of any run at most rpm + W/q + 1 tokens are handed out, plus the ticks refill was behind when it opened |
| RateLimiter.LateRefillExceeds | examples/ai/gemini-wrapper/main.go:67-72 | for every rate from 1 to 60 a run in which rpm + 2 tokens go out within one second, so the bound without that backlog fails |
| Matchmaking.Manager.Enqueue | internal/match/queue/manager.go:50-89 | matches some waiting player of another user in the same category if there is one, in any map order; otherwise waits; keeps the invariant |
| Matchmaking.Manager.Dequeue | internal/match/queue/manager.go:92-103 | removes exactly the token, or fails and changes nothing; keeps the invariant |
| Matchmaking.InvHolds | internal/match/queue/manager.go:50-103 | after any run all who wait in one category are one user, and tokens are partitioned |
| Matchmaking.WaitingCameFrom | internal/match/queue/manager.go:82-88 | whoever waits was put there by an earlier call that found nobody, with that call's data |
| Matchmaking.MatchPairs | internal/match/queue/manager.go:50-80 | a match pairs the caller with another user who asked earlier for the same category, an empty name meaning general, each with the data of their own call |
| Matchmaking.DequeueSucceedsIff | internal/match/queue/manager.go:92-103 | a cancel succeeds if and only if its token was issued and neither matched nor cancelled |
| Matchmaking.OpponentDetermined | internal/match/queue/manager.go:67-79 | any two map orders agree on whether there is a match and on the opponent's user |
| Matchmaking.TokensAccountedFor | internal/match/queue/manager.go:54-103 | every issued token is in exactly one of waiting, matched and dequeued |
| Matchmaking.NoMissedMatch | internal/match/queue/manager.go:158-169 | no two users of one category are ever left waiting |
| Rooms.RoomManager.GenerateRoomCode | internal/match/room.go:207-222 | the first drawn code that no room has |
| Rooms.RoomManager.CreateRoom | internal/match/room.go:65-113 | guests are refused; otherwise a waiting room with its host alone, under a code nobody had |
| Rooms.RoomManager.JoinRoom | internal/match/room.go:116-159 | refusals in the source's order; a join appends one player and changes nothing else |
| Rooms.RoomManager.StartRoom | internal/match/room.go:174-204 | only a waiting room of two or more starts, once, with its match id |
| Rooms.InvHolds | internal/match/handler.go:183-230 | the invariants of every interleaving of room creations and handleJoinPrivate calls with distinct codes |
| Rooms.AtMostOneAttempt | internal/match/handler.go:195-213 | for any MaxPlayers, at most one match creation is ever attempted per room |
| Rooms.RoomsAlwaysOk | internal/match/room.go:116-204 | players are distinct and at most MaxPlayers (the host counts), and MatchID is set if and only if the room is not waiting |
| Rooms.StartedForever | internal/match/room.go:183-192 | a started room never changes again |
| Rooms.JoinRefusalIs | internal/match/room.go:122-148 | who may join and what each refusal says; the last refusal is never given for a room whose host is in it |
| Rooms.StartRefusalIs | internal/match/room.go:180-190 | who may start and what each refusal says |
| Rooms.RoomKeepsRequest | internal/match/room.go:65-113 | whatever happens later a room shows what its request asked for, general without a category, countdown five and its host first |
| Rooms.JoinedPlayerStays | internal/match/room.go:150-158 | whoever joins stands at the next place ever after, with the name and guest flag of the join and not as host |
| Rooms.StartedMatchId | internal/match/handler.go:195-219 | a room that no longer waits is starting with the match id returned to its launcher's own match creation |
| Rooms.StrandedForever | internal/match/handler.go:195-213 | a waiting room that no handler can start any more stays so |
| Rooms.StrandedIff | internal/match/handler.go:195-219 | a room of any size that somebody joined is stranded if and only if its first joiner counted other than two players or its match creation failed, and started if and only if that joiner launched it |
| Rooms.NotSecondIff | internal/match/handler.go:189-198 | the first joiner fails to count two if and only if somebody else joins between its join and its count |
| Rooms.PairStrandedIffCreationFailed | internal/match/http.go:142-144 | in a room for two, the only size creation over HTTP admits, only a failed match creation strands a full room |
| Rooms.LargerRoomsMayNeverStart | internal/match/handler.go:195 | for every size from three on there is a run whose room never starts, without a single match creation |
| Rooms.InsertOverwritesIff | internal/match/room.go:71-101 | in any run, codes distinct or not, an insert overwrites a room if and only if a room was inserted under the same code since this creation drew it; two creations then were in flight with one code |
| Rooms.SameCodeLosesRoom | internal/match/room.go:71-101 | the run in which that happens, so the condition on codes is needed |
| Hub.Connection.Send | pkg/http/ws/hub.go:168-182 | closed: refused; full: refused; otherwise appended to the send queue |
| Hub.Connection.Close | pkg/http/ws/hub.go:185-196 | closes once; the send channel is closed with it |
| Hub.Connection.ChanClose | pkg/http/ws/hub.go:193-194 | requires an open channel, so each is closed at most once |
| Hub.Connection.ChanSend | pkg/http/ws/hub.go:176-181 | requires an open channel, so none is sent to after closing |
| Hub.CutInPlace | pkg/http/ws/hub.go:58 | the shifting append leaves the list without the entry, the old last value in the freed slot, and the rest of the array |
| Hub.Grow | pkg/http/ws/hub.go:76 | an append beyond capacity copies to a new array |
| Hub.Hub.RegisterConnection | pkg/http/ws/hub.go:30-41 | the user's old connection is closed and the new one registered, as the value model says |
| Hub.Hub.UnregisterConnection | pkg/http/ws/hub.go:44-63 | the user's connection is closed and gone, and every member list is the old one without the user, as the value model says |
| Hub.Hub.JoinMatch | pkg/http/ws/hub.go:66-77 | the user is appended once, in the match's own array while it has room and else in a new one, the old array unchanged; other matches keep their slices and contents |
| Hub.Hub.LeaveMatch | pkg/http/ws/hub.go:80-91 | the user is removed from that match only |
| Hub.Hub.SendToUser | pkg/http/ws/hub.go:128-138 | unknown user, full and delivered are told apart, and only that user's queue grows |
| Hub.Hub.BroadcastToMatch | pkg/http/ws/hub.go:94-110 | each member with room gets the message exactly once, nobody else anything, and the result is the first failure in list order |
| Hub.FirstNotSentIs | pkg/http/ws/hub.go:99-109 | that result is a success if and only if every send was, and else the first one that was not |
| Hub.ViewAlwaysOk | pkg/http/ws/hub.go:30-91 | under any order of operations on fresh connections the registered ones are open and belong to one user each, and member lists repeat nobody |
| Hub.SendingIs | pkg/http/ws/hub.go:99-138 | sending succeeds if and only if the user is registered with fewer than 256 messages waiting; a broadcast adds the message to exactly the listed users' queues for whom it does |
| Hub.MemberIff | pkg/http/ws/hub.go:44-91 | after any run a match's members are exactly those who joined and neither left nor were unregistered since |
| Hub.ConnectionIff | pkg/http/ws/hub.go:30-63 | after any run a user's connection is the one registered last, unless the user was unregistered since |
| Hub.ClosedIff | pkg/http/ws/hub.go:30-63 | the hub has closed exactly the connections whose user was registered again or unregistered after them |
| Hub.UnregisteredIsGone | pkg/http/ws/hub.go:54-62 | after any run, unregistering leaves the user in no match |
| Hub.StaleCleanup | internal/match/handler.go:39-53 | the cleanup of the handler that registered at event i closes a connection that is not its own if and only if the user has registered again since and was not cleaned up after that |
| Hub.ReconnectIsDropped | internal/match/handler.go:52 | the three steps by which an old handler drops a newer connection |
| Hub.ServedTimes | pkg/http/ws/hub.go:95-104 | with a broadcast's reads and a cut's shifts interleaved one element at a time, a staying member is served zero, one or two times, each exactly told by how far the shift stood at the two reads |
| Hub.PairServed | pkg/http/ws/hub.go:95-104 | in a match of two nobody who stays is missed, and the second player is served twice if and only if the first is cut out between the broadcast taking the list and reading it |
| Hub.PairServedTwice | pkg/http/ws/hub.go:95-104 | the run in which that happens |
| Hub.AtomicCutSkips | pkg/http/ws/hub.go:58 | a cut done as a whole between two reads misses exactly the member whose turn was next, and only behind the reader and before the last place |
| Text.DecimalInjective | internal/question/cache.go:34 | different integers print differently |
| Text.DecimalReads | internal/question/cache.go:34 | the printed form of an integer stands for it |
| Text.SortStrings | internal/question/cache.go:36 | the sorted parts are the same set, strictly increasing |
| PackCache.Cache.KeyOf | internal/question/cache.go:31-44 | the key computed along any map order is a key of the request |
| PackCache.Cache.Get | internal/question/cache.go:46-59 | the value stored under the request's key; a miss and a failed read give none |
| PackCache.Cache.Set | internal/question/cache.go:61-67 | the pack is stored under the request's key, or nothing changes |
| PackCache.KeyUnique | internal/question/cache.go:31-36 | a request has one key, independent of map order |
| PackCache.KeyExample | internal/question/cache.go:31-44 | the key of one request, spelled out |
| PackCache.KeyDetermines | internal/question/cache.go:31-44 | two requests have equal keys if and only if totals, difficulty counts and the joined category and seed agree |
| PackCache.SeedsSuffice | internal/question/cache.go:37-43 | with colon-free seeds equal keys mean equal categories and seeds too, whatever categories clients send |
| PackCache.SeedHashTellsMatches | internal/match/service.go:106-107 | generated seeds have no colon and tell match id and time |
| PackCache.MatchesNeverShareKeys | internal/match/service.go:106-107 | two matches never share a cached pack |
| PackCache.ColonsCollide | internal/question/cache.go:37-43 | with a colon in a seed, which no created match has, different categories and seeds can share a key |
| PackCache.NamesCollide | internal/question/cache.go:34-43 | a colon in a difficulty name lets requests for five and for six questions share a key |
| Regeneration.ProportionalNeeds | internal/question/service.go:131-143 | both loops, in any map order: the truncated share of each difficulty, zero raised to one where questions were wanted |
| Regeneration.FlooredNeeds | internal/question/service.go:311-315 | the single-user branch keeps the truncated shares |
| Regeneration.SumOf | internal/question/service.go:411-414 | the requested total is the sum of the needs, in any map order |
| Regeneration.RegenerationBounds | internal/question/service.go:131-143 | with k positive counts summing to the pack size, a shortfall is asked for again within k - 1 questions either way |
| Regeneration.RegenerationBoundsReached | internal/question/service.go:131-143 | both ends of that bound are reached by the fixed distributions |
| Regeneration.FixedDistributionSum | internal/match/service.go:74-102 | the fixed distribution sums to the question count if and only if it is 5, 10 or 15 |
| QuestionPack.CheckWithinMatchDuplicates | internal/question/service.go:461-476 | the first occurrences in order, and the flag if and only if an id repeats |
| QuestionPack.FirstOccurrencesFacts | internal/question/service.go:466-473 | first occurrences repeat nothing and miss nothing, and keep the length if and only if nothing repeated |
| QuestionPack.LevelOneKeepsEverything | internal/question/service.go:114-124 | the level-1 filter is the identity on every list |
| QuestionPack.KeepingFirstsWouldWork | internal/question/service.go:119-124 | keeping first occurrences instead gives a list without repetition and with the same ids |
| QuestionPack.KeepMarked | internal/question/service.go:119-124 | the filtering loop keeps exactly the questions with a marked id, in order |
| QuestionPack.AppendFresh | internal/question/service.go:153-158 | the refill loop appends exactly the new ids, in order, while there is room |
| QuestionPack.FetchAIMixed | internal/question/service.go:406-422 | the generator is asked for the needs and their sum, or there is none |
| QuestionPack.Gather | internal/question/service.go:69-103 | pool questions in some order of the difficulties, then one fallback call for all that is missing; it fails if and only if a call it needs fails |
| QuestionPack.LevelOne | internal/question/service.go:105-173 | the trimmed list of gathered and extra questions, or an error if and only if they are too few |
| QuestionPack.DuplicateCheckNeverHelps | internal/question/service.go:105-173 | a full pack is free of repetition if and only if the gathered questions alone fill it without any |
| PackLaws.GatheringFills | internal/question/service.go:69-103 | the generator is asked for exactly what the pool lacks of each difficulty; if it gives as many as asked and the pool never too many, the list has the number wanted |
| PackLaws.LevelOneSucceedsIff | internal/question/service.go:105-173 | a gathered list passes if and only if it is long enough, or repeats and the reply to the second request has enough new ids |
| PackLaws.FilterInOrder | internal/question/service.go:119-124 | a filtered list keeps the order of the list |
| QuestionPack.RepetitionSurvives | internal/question/service.go:112-163 | a private pack of five with the fixed distribution whose random draws repeat questions |
| QuestionPack.Service.CheckBothPlayersHistory | internal/question/service.go:511-561 | unseen ids and both counts against the histories; everything unseen when no answer can be had |
| QuestionPack.Service.AddUserQuestionHistory | internal/question/service.go:565-588 | the user's set grows by the ids, also when setting the expiry fails; other users' sets stay |
| QuestionPack.KeepFew | internal/question/service.go:241-274 | unseen questions, then seen ones back, one per id: full if and only if few enough are missing and none of them repeats, and then nothing is lost |
| QuestionPack.Service.AppendUnseen | internal/question/service.go:226-237 | regenerated questions are taken if they pass their own history check, are new and fit |
| QuestionPack.Service.ReplaceSeen | internal/question/service.go:194-240 | the branch for more than three seen questions |
| QuestionPack.Service.CrossMatch | internal/question/service.go:175-283 | outcome and error of the two-player branch in each of its three cases, and the pack unchanged when the histories cannot be read |
| QuestionPack.FewSeenSucceedsIff | internal/question/service.go:241-283 | with one to three seen a pack is made if and only if one player saw all that the other saw and no seen question repeats; it is the same pack in another order |
| QuestionPack.DifferentSeenFails | internal/question/service.go:241-283 | whatever pool and generator answer, no pack is made when each player has seen up to three and one that the other has not |
| QuestionPack.OneSeenEachFails | internal/question/service.go:241-283 | five different questions of which each player has seen one: no pack |
| QuestionPack.ManySeenAllReplaced | internal/question/service.go:194-240 | with more than three seen the pack repeats nothing and, with every check answered, holds nothing either player saw |
| PackLaws.ManySeenSucceedsIff | internal/question/service.go:194-240 | with more than three seen by a player a pack is made if and only if the unseen ids and the ids of the generator's second reply that pass their check fill it; it holds all the unseen ids, and only questions of the list and the reply |
| PackLaws.ManySeenAllChecked | internal/question/service.go:194-240 | with every check answered: if and only if the list and the reply have enough ids in neither history |
| PackLaws.NothingSeen | internal/question/service.go:175-192 | a list of which neither player has seen anything is the pack |
| PackLaws.RandomPairIsFair | internal/question/service.go:175-283 | by request: a random match of two known players with readable histories holds at most three questions either has seen |
| PackLaws.UncheckedStays | internal/question/service.go:175-183 | other modes, unknown users and unreadable histories leave the list as it is |
| QuestionPack.AtMostThreeSeen | internal/question/service.go:175-283 | with every check answered, a two-player pack holds at most three questions seen by either player |
| QuestionPack.NextPackMostlyNew | internal/question/service.go:563-588 | a pack stored in a player's history shares at most three questions with that player's next two-player pack |
| QuestionPack.Service.CheckUserQuestionHistory | internal/question/service.go:481-506 | exactly the ids outside the history or whose read fails, in order, and the count of the others |
| QuestionPack.Service.AppendPassed | internal/question/service.go:324-331 | regenerated questions are taken if they pass the single user's check, are new and fit |
| QuestionPack.Service.CrossMatchSingle | internal/question/service.go:284-379 | outcome and error of the deprecated single-user branch in each of its three cases, and the pack unchanged without Redis |
| QuestionPack.SingleSize | internal/question/service.go:371-378 | a pack made by that branch has exactly the requested size |
| PackLaws.SingleManySeenSucceedsIff | internal/question/service.go:284-340 | the same condition for the single-user branch, over shares rounded down and with repetitions kept |
| PackLaws.SingleUserChecked | internal/question/service.go:284-290 | a random request with a user id but no pair of them is checked against that user's history |
| QuestionPack.Service.Assemble | internal/question/service.go:69-379 | an uncached pack is gathered, checked and filtered by mode; errors if and only if a step fails |
| QuestionPack.Service.FetchPack | internal/question/service.go:64-391 | hit if and only if the key is cached and readable; otherwise the assembled pack, stored if Redis takes it; every success, fresh or cached, in every mode has exactly TotalQuestions questions when cached packs were so stored |
| QuestionPack.CachedSize | internal/question/service.go:65-67 | a cached pack found under a request's key has that request's size |

## Left out

- HTTP routing, authentication, configuration, logging, JSON encoding, the SQL layer and its type conversions: storing and loading is the identity, and the database is a lookup that may fail.
- Match creation beyond the pack and the blank records: the creation call does not send the service's match id to the database, so a match summary is any partial answer, and each reading of it is a parameter of its own.
- Expiry of stored keys other than the lock (records and packs after two hours, cached packs, histories, board entries with a TTL): contents stay until overwritten.
- Floating-point rounding: ratios and percentages are exact reals; only the truncation to int is kept.
- One clock reading serves a whole finalization in the model; the program reads the clock for every answer.
- The network: the AI generator and the question pool are arbitrary answers or failures, and the HMAC is a function of the signed payload, assumed not to collide on one pack where a lemma says so.
- History sets that change while one pack is being assembled: a pack is checked against fixed histories.
- Cached packs are returned without a history check, as in the program; the fairness lemmas are about packs assembled anew. No two matches share a cached pack (PackCache.MatchesNeverShareKeys).
- Rooms as shared objects: a join handler that reads a room after joining takes its reads as separate steps on the shared state, but the room itself is a value.
- Random code generation as a process: the draws are a parameter, and termination with probability one is not modelled.
- Write and read pumps, BroadcastAll, snapshots, Pub/Sub publishing, private-room leaderboard reading, GetPosition, ShouldOfferBot, bot fill, ready state and progress: I/O loops, stubs or easy members.
- The limiter's waiting times: a queued caller may give up at any moment.
- The removal of a list entry shifts whole user ids in the model; that a reader may see half-copied ids is not.

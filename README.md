# Wrestling promotion simulator: the match engine

This project is a Dafny model of the match engine of a desktop wrestling-promotion game. The engine is `electron/simulation.js`, together with the two IPC handlers of `electron/simulation-handlers.js` that carry logic. It covers three things:

- how one match is resolved from the wrestlers' attributes: worker scores, the winner draw, match quality, segment rating, crowd reaction and finish type;
- how the SQLite store is updated afterwards: win/loss counters and regional popularity, the event's average rating, and the title holder with the reign history;
- the batch driver that creates events and fills them with random matches, catching storage errors per match and per event.

The model is split into five modules:

| module | file | contents |
|---|---|---|
| `Basics` | `basics.dfy` | `Option`, `Result`, the clamp, decimal text |
| `Tables` | `tables.dfy` | the row datatypes and the `Database` class holding the tables |
| `MatchEngine` | `match_engine.dfy` | the pure scoring and outcome functions, and the pair-picking loop |
| `Simulation` | `simulation.dfy` | the store updates and `processAutoSimulation` |
| `SimulationHandlers` | `handlers.dfy` | `simulation:simulateMatch` and `simulation:saveMatchResult` |

How the model is built:

- **The store.** It is a class whose tables are fields: `workers` is a `seq` in rowid order, `titles` and `events` are `map`s keyed by id, and `matches` and `title_history` are `seq`s. Every procedure `f(db, ...)` of the source is a method that modifies only the tables the procedure writes.
- **Method specifications.** Each such method is specified by a function of the old tables, and the game's properties are proved about those functions.
- **Randomness.** Each `Math.random()` value is a parameter in [0, 1). The batch reads its draws in call order from a finite tape.
- **Inputs supplied by the caller.** The current time and the date of the first event are parameters.
- **Storage failures.** The batch's `try`/`catch` paths are driven by an injected `Faults` value, which can fail the event insert, each match insert and the event rating update. `saveMatchResult` and `updateTitleChampion` instead check the `FOREIGN KEY` constraints and the `NOT NULL` constraint on `title_history.reign_start` themselves (`electron/database.js` turns foreign keys on).

Where one might expect otherwise, the model follows the code:

- With both scores 0, the winning share is `0 / 0`, which is NaN, so worker 2 wins.
- A missing worker, event or title row makes the update a silent no-op.
- `simulation:simulateMatch` does not reject the same id twice.
- `saveMatchResult` updates a worker listed twice twice (`SaveCountsListings`, `SaveCountsRepeatedWorkerTwice`).
- `updateTitleChampion` never closes an open reign. It appends a separate closed row for the previous holder and always appends a new open row, so open reigns pile up for a title. This is proved in `TwoTitleMatchesTwoOpenReigns`.

## Model

| member | source | states |
|---|---|---|
| Basics.Clamp | electron/simulation.js:64 | `Math.max(lo, Math.min(hi, x))` lies in [lo, hi], is `x` inside the range and the nearer bound outside it |
| Basics.ClampMonotone | electron/simulation.js:64 | clamping preserves order |
| Basics.TensUnits | electron/simulation.js:247 | the digit split by repeated subtraction is the quotient and remainder of division by ten |
| Basics.NatToStringInjective | electron/simulation.js:247 | two numbers with the same decimal text are equal, so each error message names one match or event number |
| Basics.NatToStringLong | electron/simulation.js:247 | the text of a number of two or more digits has no leading zero |
| Basics.NatToString | electron/simulation.js:198-200 | the `${n}` text of a number is a non-empty string of decimal digits, one digit long exactly when the number is below 10; that it names the number uniquely is `NatToStringInjective` |
| Tables.FindWorker | electron/simulation.js:89 | `SELECT ... WHERE id = ?` `.get` returns the first row with that id, and nothing exactly when no row has it |
| Tables.FindWorkerByIds | electron/simulation.js:89 | a lookup by id depends only on the id column |
| Tables.StoredWorkerIsFound | electron/simulation.js:174 | every worker read into the pool is found again by its id |
| Tables.FoundIdListed | electron/database.js:133-138 | a worker key that resolves is a value of the id column |
| MatchEngine.BaseScore | electron/simulation.js:32-50 | the weights 0.25/0.15/0.20/0.15/0.15/0.10 add up to 1: attributes in [0, 100] give a score in [0, 100], and equal attributes `a` give exactly `a` |
| MatchEngine.WorkerScore | electron/simulation.js:51-53 | the score is never negative and lies within [0.9·base, 1.1·base]; a non-positive base gives 0 |
| MatchEngine.VarianceBounds | electron/simulation.js:51-52 | the variance `(r - 0.5) * 0.2 * score` is within ±10% of a non-negative score and never lifts a non-positive one above 0 |
| MatchEngine.DrawScales | electron/simulation.js:52 | multiplying by a draw in [0, 1) moves a value towards 0 without crossing it |
| MatchEngine.WorkerScoreMonotone | electron/simulation.js:52-53 | a higher draw never lowers the score |
| MatchEngine.Worker1Wins | electron/simulation.js:9-13 | worker 1 wins only with a positive score, always wins against a zero score, and loses when both scores are 0 (the NaN comparison) |
| MatchEngine.WinsMonotoneInScore | electron/simulation.js:9-13 | raising worker 1's score never turns a winning draw into a losing one |
| MatchEngine.EqualScoresFairCoin | electron/simulation.js:9-13 | with equal positive scores worker 1 wins exactly for draws below 0.5 |
| MatchEngine.MatchQuality | electron/simulation.js:56-65 | quality lies in [1, 10], and within one point of the base quality when the clamp does not apply |
| MatchEngine.QualityMonotone | electron/simulation.js:62-64 | quality never falls as the draw rises |
| MatchEngine.BaseQualityRange | electron/simulation.js:58-61 | attributes in [0, 100] give a base quality in [0, 10] |
| MatchEngine.BaseQuality | electron/simulation.js:58-61 | 60% of the average skill plus 40% of the average psychology on a scale of ten: equal skill and psychology `a` give exactly `a / 10`; the range is `BaseQualityRange` |
| MatchEngine.SegmentRating | electron/simulation.js:67-73 | the rating lies in [1, 10], never exceeds 8.5 for a quality of at most 10, and is within half a point of 80% of the quality when unclamped |
| MatchEngine.CrowdReaction | electron/simulation.js:75-81 | each of the five labels is returned exactly on its quality band: ≥ 8.5, [8, 8.5), [7, 8), [6, 7), < 6 |
| MatchEngine.CrowdReactionMonotone | electron/simulation.js:75-81 | a better match never draws a worse label |
| MatchEngine.Index | electron/simulation.js:85 | `Math.floor(r * n)` is a valid index, the floor of `r * n` |
| MatchEngine.IndexReachable | electron/simulation.js:85 | every index is produced by some draw |
| MatchEngine.FinishType | electron/simulation.js:83-86 | the finish is one of the six listed |
| MatchEngine.FinishReachable | electron/simulation.js:83-86 | each of the six finishes is produced by some draw |
| MatchEngine.Description | electron/simulation.js:28 | the description is the winner's name, " venceu contra " and the loser's name |
| MatchEngine.SimulateMatch | electron/simulation.js:3-30 | the winner is worker 1 or worker 2, and worker 1 exactly when its score share beats the draw; the description names the winner, then the other worker as the loser; quality is in [1, 10], the rating in [1, 8.5], and the reaction is the label of the quality |
| MatchEngine.PickPair | electron/simulation.js:210-216 | when a pair is found the two picks have distinct ids; worker 1 is the first draw, worker 2 the last draw, and every draw in between repeated worker 1's id; when none is found the tape is used up and every later draw repeated worker 1; and a pair is found exactly when `SecondPick` over the picked ids finds one, at the position it names |
| MatchEngine.Picks | electron/simulation.js:210-216 | one picked id per draw of the tape |
| MatchEngine.PicksAt | electron/simulation.js:210-216 | the pick of draw k is `pool[Math.floor(tape[k] * pool.length)].id` |
| MatchEngine.SecondPick | electron/simulation.js:214-216 | the redrawing of worker 2 stops at the first later pick with another id than worker 1's, or finds none |
| MatchEngine.SecondPickSkips | electron/simulation.js:214-216 | every pick the redrawing passes over repeats worker 1's id |
| Simulation.ShiftPopularityRegions | electron/simulation.js:105-110 | each of the six regions becomes `clamp(p + delta, 0, 100)` |
| Simulation.ShiftPopularity | electron/simulation.js:105-110 | `MAX(0, MIN(100, p + delta))` on the six region columns leaves every region in [0, 100] whatever the old values and the delta; each region's value is `ShiftPopularityRegions` |
| Simulation.AfterMatch | electron/simulation.js:93-95 | one more match; one more win on a win, otherwise one more loss; consistent records stay consistent |
| Simulation.AfterMatchColumns | electron/simulation.js:98-110 | every region shifts by +15 on a win or −5 on a loss and is clamped to [0, 100]; no column other than the counters and the popularity changes |
| Simulation.WithMatchResult | electron/simulation.js:88-124 | only the row with the id changes, to `AfterMatch`; a missing id changes nothing; ids, consistency and popularity ranges are preserved |
| Simulation.UpdateWorkerStats | electron/simulation.js:88-124 | the workers table becomes `WithMatchResult` of the old one |
| Simulation.LookupsSurviveStats | electron/simulation.js:88-124 | a stats update moves no row, so every lookup by id still gives the same index |
| Simulation.Ratings | electron/simulation.js:127 | the query returns at most one rating per row |
| Simulation.RatingsSelect | electron/simulation.js:127 | the query returns nothing exactly when no row belongs to the event, and every rating it returns is that of a row of the event |
| Simulation.Mean | electron/simulation.js:131 | the average of equal ratings is that rating |
| Simulation.Rated | electron/simulation.js:126-134 | the event's average becomes the mean of its segment ratings; no rows or no event means no write; no other event changes |
| Simulation.UpdateEventRating | electron/simulation.js:126-134 | the events table becomes `Rated` of the old one |
| Simulation.RatingsAppend | electron/simulation.js:127 | a newly inserted row of the event is the last rating returned |
| Simulation.MeanWithin | electron/simulation.js:131 | the mean of ratings within [lo, hi] is within [lo, hi] |
| Simulation.MeanOfThree | electron/simulation.js:131 | ratings 8, 7 and 9 average exactly 8 |
| Simulation.FirstTitleWin | electron/simulation.js:146 | `MIN(created_at)` over the holder's wins of this title: NULL exactly when there is none, otherwise the earliest such timestamp |
| Simulation.ClosedReign | electron/simulation.js:142-151 | the outgoing holder's row carries the title, the holder, their first title win as start, now as end and the title's defense count; a NULL start is the `NOT NULL` error |
| Simulation.ChampionChange | electron/simulation.js:136-166 | a missing title changes nothing; for an existing one the change succeeds exactly when the new holder is a worker and, for a held title, the old holder has a title win (else the NULL-start error) and is still a worker (else the foreign-key error); on success the title gets the new holder with defenses 1, and the history gains the open row (holder, now, 0 defenses), preceded for a held title by one closed row carrying the old holder, their first title win and the old defense count; on error the title row is as it was and the history keeps only a closed row already written; existing history rows never change |
| Simulation.FirstTitleWinAppend | electron/simulation.js:146 | after a row is appended, a first title win exists exactly when one existed before or the new row is such a win |
| Simulation.UpdateTitleChampion | electron/simulation.js:136-166 | the two title tables and the error become `ChampionChange` of the old ones |
| Simulation.OpenReignsGrow | electron/simulation.js:161-165 | each successful title change adds exactly one open reign and closes none |
| Simulation.TwoTitleMatchesTwoOpenReigns | electron/simulation.js:142-165 | two successive title changes on a vacant title leave two open reigns |
| Simulation.OpenReignsAppend | electron/simulation.js:143-165 | the open reigns of appended history rows add up |
| Simulation.OfPromotion | electron/simulation.js:174 | the filter keeps exactly the workers of the promotion |
| Simulation.Roster | electron/simulation.js:174 | the pool is the first 200 of the promotion's workers in row order, or all of them when there are fewer: at most 200, all of the promotion, a prefix of the filtered table of the right length |
| Simulation.RosterIdsOfPromotion | electron/simulation.js:174 | every id of the roster belongs to a worker of the promotion |
| Simulation.LoggedErrorText | electron/simulation.js:247-256 | the logged text is the prefix ("Erro no match " or "Erro no evento "), the number in decimal, ": " and the error's message |
| Simulation.LoggedError | electron/simulation.js:247-256 | `${prefix}${n}: ${error.message}` starts with the prefix, ends with the message and holds at least one digit and ": " between them; the exact layout is `LoggedErrorText` |
| Simulation.LoggedErrorInjective | electron/simulation.js:247-256 | the same failure of two different matches, or of two different events, logs two different texts |
| Simulation.FailedMatches | electron/simulation.js:207-249 | at most m of an event's m matches fail |
| Simulation.MatchesRun | electron/simulation.js:207-249 | every match of an event is either counted or logs exactly one error, and exactly the failed matches log one |
| Simulation.EventStep | electron/simulation.js:188-257 | an event that is not counted logs exactly one event error, for its insert or its rating, after its match errors; a counted event logs only its match errors; every match of an inserted event is counted or failed; no earlier error is removed |
| Simulation.EventCounted | electron/simulation.js:193-254 | an event is counted when neither its insert nor its rating update raises; this is the condition on which `EventStep` adds one event and logs no event error |
| Simulation.EventsInserted | electron/simulation.js:193-204 | at most n of events 1..n are inserted |
| Simulation.BatchRun | electron/simulation.js:187-258 | at most n events are counted, and the errors are one per event not counted plus one per failed match of an inserted event |
| Simulation.BatchRunMatches | electron/simulation.js:207-249 | the counted matches and the failed matches of inserted events add up to matchesPerEvent per inserted event |
| Simulation.BatchRunBound | electron/simulation.js:245 | at most n × matchesPerEvent matches are counted |
| Simulation.EventsInsertedMonotone | electron/simulation.js:187-204 | later events never lower the number of inserted events |
| Simulation.NewEvent | electron/simulation.js:190-202 | the inserted event belongs to the promotion, is dated eventNum − 1 days after today, is scheduled and has no rating yet |
| Simulation.NewEventText | electron/simulation.js:198-200 | the event's name is the prefix, " #" and the decimal event number; its venue is "Arena " and the number |
| Simulation.NewEventsDistinct | electron/simulation.js:198-200 | two events of one run have different names and different venues |
| Simulation.RatedNewEvent | electron/simulation.js:193-252 | inserting the event and then rating it, or failing to, leaves its final row |
| Simulation.EventAfter | electron/simulation.js:193-257 | the events table after event k keeps every old id and, unless the insert fails, holds the event under the id it was given, for the promotion of the run; the exact rows are `EventAfterKeeps` and `EventAfterNew` |
| Simulation.FinalEvent | electron/simulation.js:193-252 | an event ends up rated only when its rating update succeeds and the query finds ratings of its matches; the exact row is `FinalEventShape` |
| Simulation.BatchEvents | electron/simulation.js:187-258 | the events table after events 1..n keeps every old id; the new ids and rows are `BatchEventsKeys`, `BatchEventsKeepOld` and `BatchEventsNew` |
| Simulation.StoppedEvents | electron/simulation.js:193-252 | the events table of a run stopped inside event k keeps every old id and holds event k, inserted and never rated, under the next id |
| Simulation.EventAfterKeeps | electron/simulation.js:193-257 | an event's step adds its id unless its insert fails and changes no other event |
| Simulation.FinalEventShape | electron/simulation.js:251-252 | an event's final row is its inserted row, rated with the mean of its matches' ratings unless the rating fails; it stays unrated exactly when the rating fails or it has no match |
| Simulation.EventAfterNew | electron/simulation.js:193-252 | unless its insert fails, the event's final row is stored under its id |
| Simulation.EventAfterIgnore | electron/simulation.js:252 | an event's step reads only the ratings of that event |
| Simulation.BatchEventsKeys | electron/simulation.js:187-204 | a run leaves the old event ids and the consecutive new ids of the events it inserted |
| Simulation.BatchEventsKeepOld | electron/simulation.js:187-258 | a run keeps every old event row unchanged |
| Simulation.BatchEventsNew | electron/simulation.js:187-258 | inserted event k has the id after those of the earlier inserted events, and its final row there |
| Simulation.RatingsIgnore | electron/simulation.js:127 | rows of other events do not change an event's ratings |
| Simulation.BatchEventsIgnore | electron/simulation.js:207-252 | rows of later events do not change the rows of earlier ones |
| Simulation.CleanMatches | electron/simulation.js:207-249 | without storage errors every match is counted and none logs an error |
| Simulation.CleanRun | electron/simulation.js:187-258 | without storage errors n events of m matches report n events, n·m matches and no errors |
| Simulation.CleanRunExample | electron/simulation.js:187-258 | 5 events of 8 matches report 5 events and 40 matches |
| Simulation.InsertMatch | electron/database.js:117-139 | the row is appended with the next id and the current time exactly when all its foreign keys resolve; otherwise the foreign-key error, and nothing is written |
| Simulation.MatchKeysResolve | electron/database.js:133-139 | the foreign keys of `match_results` (event, workers 1 to 4, winner, title) resolve; then worker 1, worker 2 and the winner are values of the id column |
| Simulation.InsertEvent | electron/simulation.js:193-204 | the event gets the next, fresh id and nothing else changes |
| Simulation.OfEventRows | electron/simulation.js:222-239 | rows belong to the batch of an event exactly when each one pairs two distinct workers of the roster, singles without a title, for that event |
| Simulation.AllSimulatedRows | electron/simulation.js:222-239 | rows belong to a batch exactly when each one pairs two distinct workers of the roster, singles without a title |
| Simulation.ExtendsRows | electron/simulation.js:222-239 | the rows a match appends belong to its event |
| Simulation.OfEventAppend | electron/simulation.js:207-249 | the rows of two runs of an event's matches belong to the event |
| Simulation.AllSimulatedAppend | electron/simulation.js:187-258 | appending an event's rows to a batch's rows gives rows of the batch |
| Simulation.RowsAppend | electron/simulation.js:207-249 | appending the rows of a later match keeps the rows of the event and replays their statistics in order |
| Simulation.GrownBy | electron/simulation.js:187-258 | appending batch rows keeps every old row and adds only rows of two distinct workers of the roster |
| Simulation.PlayMatch | electron/simulation.js:208-245 | runs out of draws exactly when `MatchEnd` over the picked ids finds no complete match from `pos`, and then reads nothing and writes nothing; otherwise it reads on to where `MatchEnd` says, and either fails with the injected insert error and writes nothing, or appends exactly `DrawnRow` (the two picked workers, `simulateMatch` on the six draws after them) with the next id, and updates exactly those two workers by `AfterPairing` |
| Simulation.DrawMatch | electron/simulation.js:210-219 | a pair and its six draws are found exactly when `MatchEnd` finds a complete match; the row is then `DrawnRow`, whose two workers are roster workers with distinct ids |
| Simulation.DrawsAt | electron/simulation.js:219 | six consecutive draws of the tape are valid draws for `simulateMatch` |
| Simulation.MatchEnd | electron/simulation.js:210-219 | a complete match reads at least eight draws and ends inside the tape, and its first pick and its last pairing pick have different ids |
| Simulation.MatchEndEight | electron/simulation.js:210-219 | a match whose first draw of worker 2 already picks another worker reads exactly eight draws |
| Simulation.MatchEndOfPick | electron/simulation.js:210-219 | the pair search and the six draws after it end where `MatchEnd` says, or the tape runs out exactly when `MatchEnd` finds nothing |
| Simulation.DrawsAfter | electron/simulation.js:207-245 | the draws of `count` matches read from `pos` end inside the tape, or the tape runs out during one of them |
| Simulation.DrawsAfterLength | electron/simulation.js:207-245 | `count` complete matches read at least eight draws each |
| Simulation.DrawsAfterAdd | electron/simulation.js:207-245 | reading a + b matches is reading a matches and then b more from where they ended |
| Simulation.DrawsAfterExhausted | electron/simulation.js:207-245 | once the tape has run out, more matches cannot be fed |
| Simulation.DrawsAfterStep | electron/simulation.js:207-245 | one more match reads on from where the ones before it ended |
| Simulation.TapeFeedsFewer | electron/simulation.js:187-245 | a tape that feeds some matches feeds fewer, and holds at least eight draws per match |
| Simulation.InsertedMatchesRun | electron/simulation.js:193-249 | the matches attempted (those of inserted events) are the counted ones plus the failed ones |
| Simulation.InsertedMatchesMonotone | electron/simulation.js:187-207 | later events never lower the number of matches attempted |
| Simulation.DrawsAfterSum | electron/simulation.js:187-245 | reading from the start past the first a matches continues at the position they ended |
| Simulation.EventDraws | electron/simulation.js:187-245 | events 1..k read the draws of events 1..k−1 and then those of event k's matches |
| Simulation.ExhaustedLater | electron/simulation.js:187-245 | a tape that cannot feed the run through event k cannot feed it through any later event |
| Simulation.UpdatePairStats | electron/simulation.js:242-243 | both workers of the row are updated, in order |
| Simulation.AfterPairing | electron/simulation.js:242-243 | `updateWorkerStats` for worker 1 and then worker 2 of a row moves no row of `workers`; the rest is `PairingKeepsStats` |
| Simulation.PairingKeepsStats | electron/simulation.js:242-243 | updating the pair keeps every row in place, records consistent and popularity in range |
| Simulation.CreditIsWithMatchResult | electron/simulation.js:88-124 | the scan that updates the first row with the id is `WithMatchResult` |
| Simulation.AfterRowsLast | electron/simulation.js:242-243 | replaying the rows updates the last row's two workers last, as `AfterPairing` |
| Simulation.AfterRowsKeepsStats | electron/simulation.js:242-243 | replaying any rows keeps every worker row in place, records consistent and popularity in range |
| Simulation.AfterRowsAppend | electron/simulation.js:242-243 | replaying two runs of rows is replaying the first, then the second |
| Simulation.AfterRows | electron/simulation.js:242-243 | the workers table after both statistics updates of each appended batch row in turn; it carries no contract of its own, and `AfterRowsLast`, `AfterRowsKeepsStats` and `AfterRowsAppend` state what it is |
| Simulation.BatchRow | electron/simulation.js:219-239 | the inserted row pairs the two picked workers as a singles match of the event without a title, and its winner, quality, rating, reaction, finish and description are those `simulateMatch` returns for the pair |
| Simulation.RecordBatchMatch | electron/simulation.js:222-245 | the row is appended with the next id and both workers are updated |
| Simulation.PlayNumbered | electron/simulation.js:207-248 | out of draws exactly when `MatchEnd` finds no complete match, and then the tallies are unchanged; otherwise the draws end where `MatchEnd` says and the tallies are `MatchesRun`; the rows it appends belong to the event, one per counted match, and the worker table becomes `AfterRows` of the old one and those rows |
| Simulation.PlayEvent | electron/simulation.js:207-249 | out of draws exactly when the tape cannot feed the event's matches (`DrawsAfter`); otherwise the draws end where `DrawsAfter` says and the tallies are `MatchesRun`; the rows appended belong to the event, one per counted match, and the worker table becomes `AfterRows` of the old one and those rows |
| Simulation.RunEvent | electron/simulation.js:188-257 | out of draws exactly when the tape cannot feed the matches the event attempts; otherwise the draws end where `DrawsAfter` says, the summary advances by `EventStep` and the events table by `EventAfter`; an insert error writes nothing; the rows appended belong to the new event, one per counted match, and the worker table becomes `AfterRows` of them; out of draws, the event stays unrated |
| Simulation.ProcessAutoSimulation | electron/simulation.js:168-261 | refused with the message exactly when the promotion has fewer than 2 workers, and then nothing is written; otherwise (`Outcome`) the run finishes exactly when the tape feeds every match the inserted events attempt, with the summary `BatchRun` and the events table `BatchEvents`, and otherwise stops in the first event whose matches the tape cannot feed, with `StoppedEvents`; stored events are never changed, only rows pairing two distinct workers of the roster `Roster(old workers, promotionId)` are appended, one per counted match, and the worker table becomes `AfterRows` of the old one and the appended rows |
| Simulation.ShortTapeStops | electron/simulation.js:187-245 | a run whose tape holds fewer than eight draws per attempted match does not finish |
| Simulation.StopDecides | electron/simulation.js:187-245 | a run that stops in the first event the tape cannot feed is decided by the tape |
| Simulation.BatchKeepsEvents | electron/simulation.js:187-258 | a finished or stopped run keeps every old event row unchanged |
| Simulation.StoppedBounds | electron/simulation.js:187-258 | a run stopped inside an event has created at most n events and counted at most n × matchesPerEvent matches |
| Simulation.RunEvents | electron/simulation.js:187-258 | the loop over events 1..n finishes exactly when the tape feeds every attempted match, with `BatchRun`, `BatchEvents` and the next event id after n events, and otherwise stops in the first event it cannot feed; the rows it appends are batch rows, one per counted match, replayed by `AfterRows` on the workers |
| Simulation.BatchStep | electron/simulation.js:188-257 | one pass of the loop takes the tables and the tape position after events 1..k−1 to those after event k, or, exactly when the tape cannot feed event k's matches, stops inside event k with that event unrated |
| Simulation.BatchStepRows | electron/simulation.js:207-249 | the rows of one more event extend the batch's rows and their replay |
| Simulation.BatchStepEvents | electron/simulation.js:188-257 | the events table after one pass is `BatchEvents` after k events, or `StoppedEvents` at event k |
| Simulation.EventsAfterStep | electron/simulation.js:207-252 | the rows of event k do not change the rows of events 1..k−1 |
| Simulation.PartialBound | electron/simulation.js:245 | a run stopped inside an event has counted no more matches than the full run could |
| SimulationHandlers.SimulateMatchRequest | electron/simulation-handlers.js:7-23 | fails with "Lutador não encontrado" exactly when either id is missing; otherwise returns `simulateMatch` on the two stored rows, whose winner is one of the two ids |
| SimulationHandlers.Present | electron/simulation-handlers.js:40-45 | `x \|\| null` keeps an id exactly when it is given and not 0 |
| SimulationHandlers.InsertedRow | electron/simulation-handlers.js:31-51 | the row the INSERT binds names exactly the workers the handler then updates, in the same order, and a title exactly when a non-zero title id is given |
| SimulationHandlers.Participants | electron/simulation-handlers.js:54-63 | worker 1 first, then exactly the present workers 2 to 4 |
| SimulationHandlers.ParticipantsCount | electron/simulation-handlers.js:54-63 | an id occurs in the list once for every field among worker 1 to worker 4 that names it, so a repeated id is listed as often as it is named |
| SimulationHandlers.StatsAfter | electron/simulation-handlers.js:54-63 | the successive updates keep every row in place, records consistent and popularity in range |
| SimulationHandlers.StatsAfterEffect | electron/simulation-handlers.js:54-63 | with distinct ids each listed worker gets exactly one match, won iff it is the winner; every other row is unchanged |
| SimulationHandlers.StatsAfterCounts | electron/simulation-handlers.js:54-63 | on a table with unique ids, for any list of ids, repeated ones included, each worker gets one match per occurrence of its id, each a win when it is the winner and a loss otherwise, and keeps its row |
| SimulationHandlers.RepeatedParticipantCountedTwice | electron/simulation-handlers.js:54-56 | a worker listed twice gets two matches |
| SimulationHandlers.NewRowRated | electron/simulation-handlers.js:31-66 | the new row's rating is the last one the rating query sees |
| SimulationHandlers.SavedRatingInRange | electron/simulation-handlers.js:66 | the event's new average lies within the range of its old ratings and the new one |
| SimulationHandlers.TitleAfter | electron/simulation-handlers.js:69-71 | without a title id the title tables are untouched and no error is raised; with one, no error is raised exactly when the winner is a worker and a held title's holder has a title win and is a worker; an error leaves the titles as they were; no other title changes and the history only grows |
| SimulationHandlers.Inserted | electron/simulation-handlers.js:31-51 | the INSERT appends one row with the next id, the current time, the event, the winner and the title id of the request, and changes nothing else |
| SimulationHandlers.Applied | electron/simulation-handlers.js:53-77 | the updates after the INSERT leave the match rows alone, keep every worker row in place, add no event or title, only grow the history, reply with the row's id on success and fail only on a title update, leaving the titles as they were |
| SimulationHandlers.Saved | electron/simulation-handlers.js:26-78 | the handler appends at most one match row, keeps every worker row in place, adds no event or title, only grows the history, and a successful reply is the new row's id |
| SimulationHandlers.SaveMatchResult | electron/simulation-handlers.js:26-78 | the store and the reply become `Saved` of the old store |
| SimulationHandlers.SaveRefusesUnresolvedKeys | electron/simulation-handlers.js:31-51 | a row with an unresolved reference is refused with the foreign-key error and nothing is written |
| SimulationHandlers.SaveAppendsRow | electron/simulation-handlers.js:31-73 | the row is appended with the next id and the current time, and a successful reply carries that id |
| SimulationHandlers.SaveReply | electron/simulation-handlers.js:73-77 | the reply is the new id after the keys resolved, the foreign-key error, or the title update's error rethrown |
| SimulationHandlers.SaveUpdatesParticipants | electron/simulation-handlers.js:54-63 | worker 1 and each present worker 2 to 4 get exactly one match, won iff it is the winner; nobody else changes |
| SimulationHandlers.SaveCountsListings | electron/simulation-handlers.js:53-63 | after a save whose keys resolve, on a table with unique ids, each worker has gained one match for every field among worker 1 to worker 4 that names it, repeated ids included |
| SimulationHandlers.SaveCountsRepeatedWorkerTwice | electron/simulation-handlers.js:53-63 | a save whose keys resolve and that names worker 1 again as worker 2, with no worker 3 or 4, gives that worker's row two more matches |
| SimulationHandlers.SaveRatesEvent | electron/simulation-handlers.js:66 | the event's average becomes the mean of its earlier ratings followed by the new one, and no other event changes |
| SimulationHandlers.SaveSucceeds | electron/simulation-handlers.js:26-78 | a save succeeds exactly when the row's keys resolve and, for a title match, the title is vacant, or its holder is the winner (a defense, whose own row is a title win), or its holder has a recorded title win and is still a worker |
| SimulationHandlers.SaveChangesTitleOnlyWhenGiven | electron/simulation-handlers.js:69-71 | without a title id the title tables are untouched and the reply is the id; with one, success makes the winner champion with defenses 1 and appends their open reign |
| SimulationHandlers.ApplyBookedMatch | electron/simulation-handlers.js:53-77 | the store and the reply become `Applied` of the store after the insert |
| SimulationHandlers.UpdateParticipants | electron/simulation-handlers.js:54-63 | the workers table becomes `StatsAfter` of the old one for the handler's ids |

## Left out

- Dates and timestamps (`new Date()`, `toISOString()`, `CURRENT_TIMESTAMP`, `created_at`) are opaque integers supplied by the caller. An event's day is `today + eventNum - 1`, and no calendar or string format is modelled.
- Only the columns the engine reads or writes are modelled. Constraints on other columns, and `NOT NULL` on values the caller leaves undefined, are not.
- `date`, `venue` and the other text columns are plain strings, without SQLite type affinity.
- IEEE-754 doubles are modelled as exact reals, so rounding is not modelled. NaN appears only in the one place it decides an outcome: the `0 / 0` share when both scores are 0.
- `Math.random()` is modelled by parameters in [0, 1). The event insert's foreign key to `promotions` is not modelled, because promotions are not part of the store.
- Faults: in the batch, storage errors are injected only at the event insert, at each match insert and at the event rating update.
- The two `updateWorkerStats` calls of a batch match (`electron/simulation.js:242-243`) can also raise inside the match's `try`, after its row was inserted; the model does not inject that failure. The row count (one appended row per counted match) and the `AfterRows` equations for the workers table of `PlayNumbered`, `PlayEvent`, `RunEvent`, `RunEvents` and `ProcessAutoSimulation` depend on it: such a failure would leave a row whose match is logged as an error and whose statistics are applied in part or not at all.
- `numberOfEvents` and `matchesPerEvent` are natural numbers. The source accepts any JavaScript number; a negative count runs no iteration, as 0 does here, and a fractional count is not modelled.
- The `worker2` resample loop in `processAutoSimulation` may not terminate for an adversarial random source. The model reads a finite tape of draws and reports `DrawsExhausted` with the partial summary when the tape runs out. That result does not exist in the source.
- Simulation.ProcessAutoSimulation: for a run whose draws ran out, the partial summary is only bounded (by `PartialEvent` and the totals), not given exactly; the tables are given exactly, by `StoppedEvents` and `AfterRows`.
- The reign history can hold several open rows per title, as the code writes it. No claim of at most one open reign is made, and the opposite is proved.
- Simulation.ChampionChange: a held title is recognised by a present `current_champion_id`. The falsy id 0 is not distinguished, because worker ids are autoincrement keys starting at 1.
- SimulationHandlers.SaveUpdatesParticipants: its precondition asks for distinct listed ids. The handler does not check this; `SaveCountsListings` gives the match counts for any listing, repeated ids included, and `SaveCountsRepeatedWorkerTwice` the case of worker 1 named again as worker 2.
- The `matchType = 'singles'` default parameter of `simulation:simulateMatch` is supplied by the caller, and `simulateMatch` ignores the match type, as the source does.
- `console.error` logging and the Electron `ipcMain` registration are left out. The `simulation:autoSimulate` handler only forwards to `processAutoSimulation`, and `simulation:getStats` is four `COUNT(*)` queries, so neither is modelled further.
- Concurrency between IPC calls is not modelled. The handlers run one at a time against a single store.

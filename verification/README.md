# The OpenAQ bronze pipeline in Dafny

A Dafny 4.11 model of how the pipeline paces requests, fetches and checks measurements, and
reconciles them with the bronze tables, with proofs of what it promises over every input,
interleaving and run. `dafny verify dfyconfig.toml` checks the whole project.

Three parts:

1. **The rate limiter.** `windows.dfy` says what a window demands of a history of grants and
   defines the naive limiter that keeps that whole history. `ratelimit.dfy` is the real limiter: a class
   whose pruned logs are proved to answer exactly as the naive one. `threads.dfy` lets any number of
   threads interleave checks and sleeps. `schedule.dfy` proves the schedule optimal for
   requests served in order and gives the free tier's schedule in closed form. The thread model is
   built from the same functions that specify the class (`SlidingWindowLimiter.Check`). Safety never
   uses that a sleep lasts as long as asked; only progress does.
2. **The bronze tables.** `join.dfy` is the FULL OUTER JOIN of the procedure and its counts;
   `bronze.dfy` the procedure as a step between databases; `history.dfy` arbitrary sequences of
   committed transactions, compared with specifications read off the list of operations alone;
   `warehouse.dfy` the tables as mutable state, with every statement of the procedure able to fail
   and a rollback; `dag.dfy` the three chained Airflow tasks, their retries, and a crash possible after
   every commit.
3. **Fetching and collecting.** `api_records.dfy` says what the API's JSON records say, field by field, for the
   results below to be stated on; `pagination.dfy` and `client.dfy` are the retried, rate-limited,
   paginated fetch; `ingest.dfy` and `staged_measurement.dfy` the batch collection through it; `times.dfy` the
   rolling window; `endtoend.dfy` joins them to part 2: what bronze holds after a run. `runs.dfy` follows
   bronze over many runs; `datasets.dfy` says what runs come to when the API serves datasets in chunks.

Conventions. Time in the limiter and the client is `real`; instants in the tables are integers
(microseconds). Tables are sequences of rows; results that compare tables built in different ways compare them
as multisets, as sets, or instant by instant. Period starts are strings in the client and instants in the database; both read them with one
function `parse`, an arbitrary parameter. The API is an arbitrary function from query and attempt to HTTP outcome;
the clock, the random draws, database faults and crashes are arbitrary too. A run's `ApiScript` is a ghost record of the walks
its client made; `Ingest.CollectedBy` says that each is made of the API's own answers, in attempts that follow on
one another, and that no call is missing or superfluous.

## What the proofs found

- Skipping an unchanged window equals replacing it exactly when bronze identities are unique in the window
  (`Bronze.SkipEqualsReplaceIff`): with a repeated bronze row the counts are all zero and the repeated row stays
  (`Bronze.SkipNeedsUniqueness`). Uniqueness holds in every reachable state (`History.ReplayKeepsUnique`).
- ADR-0008 says that re-running a measurement window is idempotent. That holds for staging and refreshing again
  (`Bronze.RestagedRefreshIsIdle`). Calling the procedure again without staging finds the staging consumed and
  empties the window and the load's snapshot (`Bronze.RepeatedRefreshEmptiesWindow`). It leaves the database as it
  was exactly when the load had staged no measurement in the window and no location
  (`Bronze.RepeatedRefreshIsIdleIff`); with a location alone it reports no change and yet erases the snapshot
  (`Bronze.RepeatErasesSnapshot`). `retries=0` on the refresh keeps automatic retries away from this.
- Calls of the procedure on disjoint windows commute for different loads, rejected calls included
  (`Bronze.DisjointRefreshesCommute`). For one load they commute exactly under `Bronze.OrderIsIrrelevant`: when
  both commit, it must have staged nothing in either window; when the guard rejects one of them, bronze must hold
  nothing in that one's window and no location may be staged; when it rejects both, always
  (`Bronze.SameLoadCommutesIff`). `Bronze.OrderCanMatter` is a load whose calls do not commute.
- The database duplicate guard is stricter than the client's: two spellings of one instant pass the client
  and fail the database (`EndToEnd.AliasesReachTheDatabase`). The database accepts a batch exactly if the client
  accepts it and its strings do not alias (`EndToEnd.GuardsAgreeUpToAliases`); for a batch the client accepted
  this alone decides whether its run commits (`EndToEnd.RunCommitsIffNoAliases`).
- A complete dataset whose neighbouring full pages happen to be equal is refused as pagination that does not
  advance; this, the page limit and a record without a readable key are the only three reasons
  (`Pagination.PaginationIsComplete`); `Pagination.EqualPagesAreRefused` is the smallest such dataset.
- An instant lies in exactly 24 hourly windows precisely when it is between one hour before the first
  window's end and one hour after the last window's start (`Times.InnerInstantsAreCovered24Times`).
- Whichever hourly runs happened, nothing between the first and the last goes uncovered exactly when no two
  neighbouring ones are more than 24 hours apart (`Times.SkippedRunsLeaveNoGap`).
- A sensor skipped after persistent server errors loses its rows of the window, and all of them are among those
  counted absent, as ADR-0008 says (`EndToEnd.SkippedSensorLosesItsRows`).
- Failures that retrying gets past are invisible: against an API that serves datasets in chunks and recovers within
  the attempts allowed, a collection is a function of the datasets (`Datasets.HealthyCollection`), and a run in which
  nothing else fails publishes exactly when its load ID is not empty, its interval has a window, and the datasets can
  be fetched, read and told apart (`Datasets.RunAgainstHealthyApi`).
- The repository's README draws the ingest as one task; the code has three, and the model follows the code.

## Model

| member | source | states |
|---|---|---|
| Windows.CountReaches | include/openaq/ratelimit.py:80-85 | In a sorted history the trailing count reaches m exactly when the m-th entry from the end is inside the span |
| Windows.SpacedIffRespects | include/openaq/ratelimit.py:15-18 | "At most max_requests in any half-open span, ending at any real time" equals "entries max_requests apart differ by at least seconds" |
| Windows.CountInIs | include/openaq/ratelimit.py:15-18 | The recursive count is the number of history entries in the half-open span |
| Windows.RespectsIff | include/openaq/ratelimit.py:15-18 | The window's demand, as sets of positions: no half-open span of its length has more of them than the cap |
| Windows.EarliestIsLeast | include/openaq/ratelimit.py:76-86 | The naive whole-history limiter admits from the computed moment on and at no moment before it |
| Windows.GrantKeepsSpacing | include/openaq/ratelimit.py:69-72 | Appending an admitted grant keeps every window's demand |
| Ratelimit.PruneTracks | include/openaq/ratelimit.py:80-82 | A pruned log stays a suffix of the grant history that dropped only aged-out entries, and its length is the naive trailing count |
| Ratelimit.FastFormRefinesNaive | include/openaq/ratelimit.py:76-86 | The wait from the logs' oldest entries is zero exactly when the naive limiter admits, else the least delay after which it admits |
| Ratelimit.GrantKeepsInv | include/openaq/ratelimit.py:70-72 | Granting keeps the invariant, including that no log exceeds its cap and no span is over its limit |
| Ratelimit.SlidingWindowLimiter.Create | include/openaq/ratelimit.py:20-24 | Construction succeeds exactly for a non-empty tuple of windows with positive caps and spans |
| Ratelimit.SlidingWindowLimiter.LongestWait | include/openaq/ratelimit.py:76-86 | The in-place pruning loop computes the specified logs and wait |
| Ratelimit.SlidingWindowLimiter.Check | include/openaq/ratelimit.py:66-72 | One lock-protected check grants exactly when the naive limiter would, stamped with the clock, and otherwise only prunes |
| Ratelimit.SlidingWindowLimiter.Acquire | include/openaq/ratelimit.py:58-74 | A caller alone sleeps not at all if every window has room and otherwise once, for exactly the time until it has, and then gets one grant |
| Schedule.GreedyIsFeasible | include/openaq/ratelimit.py:58-86 | The schedule of requests served in order is sorted, respects arrivals and every window |
| Schedule.GreedyIsOptimal | include/openaq/ratelimit.py:58-86 | No schedule that respects order, arrivals and windows serves any request earlier |
| Schedule.ServeInOrder | include/openaq/ratelimit.py:58-74 | Serving arrivals through the limiter class on an exact clock yields that schedule |
| Schedule.FreeTierClosedForm | include/openaq/ratelimit.py:29-32 | The k-th back-to-back grant on the free tier comes at 3600*(k / 2000) + 60*((k % 2000) / 60) seconds, for every k |
| Threads.ConcurrentSafety | include/openaq/ratelimit.py:65-74 | For any threads and interleaving, even with sleeps cut short, every span of every window stays within its cap and grants are in clock order |
| Threads.FailureMeansOthersWereGranted | include/openaq/ratelimit.py:65-74 | A failed check after a call's first implies another thread was granted since its previous check |
| Threads.SleepsWhatIsAsked | include/openaq/ratelimit.py:64-74 | In every reachable state, what a call has slept, with the sleep it is in, is the sum of the least delays its failed checks found |
| Threads.IterationBound | include/openaq/ratelimit.py:64-74 | A granted call made at most 2 plus as many checks as grants went to others during it, and slept exactly what its failed checks asked for, no longer than it took |
| Threads.IterationBoundIsReached | include/openaq/ratelimit.py:64-74 | A concrete interleaving of three threads in which a call makes as many checks as the bound allows |
| Join.GuardIffUnique | include/sql/bootstrap/04_bronze_tables.sql:69-83 | The group count of the guard is zero exactly when the identities are unique |
| Join.JoinIn | include/sql/bootstrap/04_bronze_tables.sql:129-133 | Exactly which rows the full outer join holds |
| Join.UnchangedIffSameContent | include/sql/bootstrap/04_bronze_tables.sql:97-135 | All three counts are zero exactly when staged and bronze hold the same payload under every identity |
| Join.JoinCounts | include/sql/bootstrap/04_bronze_tables.sql:97-120 | new + matched is the staged size, absent + matched the bronze size, changed at most matched |
| Join.CountsAreExact | include/sql/bootstrap/04_bronze_tables.sql:97-120 | Between unique tables the three counts are the numbers of identities only staged, staged and held with different payloads, and only held |
| Join.OldestNewIsMinimum | include/sql/bootstrap/04_bronze_tables.sql:120-127 | The oldest new period start is the minimum over new identities, NULL exactly when there are none |
| Bronze.StagingTableHolds | include/openaq/refresh_bronze.py:237-249 | After staging, the staging table holds exactly the other loads' rows and one row of this load for each measurement given |
| Bronze.LocationTableHolds | include/openaq/refresh_bronze.py:252-272 | The same for the staged locations |
| Bronze.SnapshotRowsHold | include/sql/bootstrap/04_bronze_tables.sql:164-174 | The snapshot's rows are the locations in order, each with its own payload, the load, the window's end and the load time |
| Bronze.StagedAfterStaging | include/openaq/refresh_bronze.py:237-249 | Staging replaces the rows of its own load ID and no other's |
| Bronze.RefreshConsumesStaging | include/sql/bootstrap/04_bronze_tables.sql:176-180 | A committed refresh empties its own staging and leaves other loads' staging |
| Bronze.RefreshReplacesSnapshot | include/sql/bootstrap/04_bronze_tables.sql:161-174 | It replaces its load's snapshot by the staged locations, stamped with the window's end, and keeps the others |
| Bronze.RefreshKeepsUnique | include/sql/bootstrap/04_bronze_tables.sql:69-159 | A committed refresh keeps bronze identities unique |
| Bronze.RefreshContent | include/sql/bootstrap/04_bronze_tables.sql:85-159 | After a commit, skipped or not, the window holds exactly what was staged there and the rest is unchanged |
| Bronze.RefreshRowsIn | include/sql/bootstrap/04_bronze_tables.sql:137-159 | Each row after a refresh was there before, or is a staged row of the window under this load |
| Bronze.SkipEqualsReplaceIff | include/sql/bootstrap/04_bronze_tables.sql:135-159 | The procedure leaves the same table of identities and payloads as an unconditional delete and insert exactly when a count is not zero or bronze identities are unique in the window |
| Bronze.SkipEqualsReplace | include/sql/bootstrap/04_bronze_tables.sql:135-159 | So it does in every table with unique identities |
| Bronze.SkipNeedsUniqueness | include/sql/bootstrap/04_bronze_tables.sql:135-159 | A concrete non-unique bronze table on which the two differ |
| Bronze.RefreshAccounting | include/sql/bootstrap/04_bronze_tables.sql:97-159 | The counts account for all staged rows, all bronze rows of the window, and the change in table size |
| Bronze.RefreshCountsAreExact | include/sql/bootstrap/04_bronze_tables.sql:85-186 | A committed refresh with unique bronze identities returns, counted on the tables' rows, how many identities are staged and not held in the window, staged and held with another payload, and held and not staged |
| Bronze.RestagedRefreshIsIdle | include/sql/bootstrap/04_bronze_tables.sql:85-180 | Staging the same rows and refreshing again, under any load, reports zeros and changes no bronze row, LOAD_ID and LOADED_AT included |
| Bronze.RepeatedRefreshEmptiesWindow | include/sql/bootstrap/04_bronze_tables.sql:137-180 | A refresh repeated without staging commits and empties the window and the snapshot; its diff is empty exactly when nothing had been staged in the window |
| Bronze.RepeatedRefreshIsIdleIff | include/sql/bootstrap/04_bronze_tables.sql:137-182 | The repeat leaves the whole database as it was exactly when the load had staged no measurement in the window and no location |
| Bronze.RepeatErasesSnapshot | include/sql/bootstrap/04_bronze_tables.sql:161-174 | A concrete database on which the repeat reports no change and erases the snapshot |
| Bronze.DisjointRefreshesCommute | include/sql/bootstrap/04_bronze_tables.sql:69-195 | Calls of different loads on disjoint windows, committed or rolled back, report the same in either order and leave the same rows at every instant, snapshots and staging |
| Bronze.SameLoadCommutesIff | include/sql/bootstrap/04_bronze_tables.sql:69-195 | For one load, committed or rolled back, the exact condition under which the order makes no difference |
| Bronze.OrderCanMatter | include/sql/bootstrap/04_bronze_tables.sql:137-180 | A concrete load whose measurement stays or is lost depending on which of its two windows is refreshed first |
| Bronze.MergeKeepsOneRow | include/openaq/refresh_bronze.py:87-137 | The MERGE keeps one row per load and the other loads' rows |
| Bronze.LastMergeWins | include/openaq/refresh_bronze.py:87-137 | A retried MERGE, whatever its completion time and figures, leaves the table as if it had been the only one |
| History.ReplayStaging | include/openaq/refresh_bronze.py:237-272 | What the staging tables hold for a load is what the operations alone say it has staged and not refreshed |
| History.ReplayKeepsUnique | include/sql/bootstrap/04_bronze_tables.sql:69-159 | No sequence of operations creates a repeated bronze identity |
| History.LastCoveringLoadWins | include/sql/bootstrap/04_bronze_tables.sql:85-159 | Bronze at each instant is what was staged for the last committed refresh covering it, or the initial content |
| History.Provenance | include/sql/bootstrap/04_bronze_tables.sql:142-159 | Every bronze row was staged by its own load for a committed refresh whose window contains it |
| History.SnapshotIsLastStaged | include/sql/bootstrap/04_bronze_tables.sql:161-174 | Each load's snapshot is the location list staged for its last committed refresh, stamped with that refresh's end |
| History.OnlyRefreshPublishes | include/sql/bootstrap/04_bronze_tables.sql:67-195 | Measurements and snapshots change only in a committed refresh |
| History.StagingIsPerLoad | include/sql/bootstrap/04_bronze_tables.sql:26-27 | What is staged under a load depends on that load's operations only |
| History.RestagingReplacesLeftovers | include/openaq/refresh_bronze.py:237-272 | In the tables, restaging replaces whatever a crashed attempt left under the same load, and publishes nothing |
| History.CrashedLoadIsInvisible | include/sql/bootstrap/04_bronze_tables.sql:69-180 | Without the operations of a load that only ever staged, bronze, snapshots, summaries and every other load's staging would be the same |
| History.ReplayKeepsOneSummary | include/openaq/refresh_bronze.py:87-137 | The summary table keeps at most one row per load through any operations |
| History.SummaryIsLastRecorded | include/openaq/refresh_bronze.py:87-137 | A load's summary row is the one its last MERGE recorded, or the initial one |
| Warehouse.BronzeSchema.StageMeasurements | include/openaq/refresh_bronze.py:237-249 | Commits the load's rows, read as instants, or leaves every table as it was |
| Warehouse.BronzeSchema.StageLocations | include/openaq/refresh_bronze.py:252-272 | Commits the load's raw locations or leaves every table as it was |
| Warehouse.BronzeSchema.ReconcileStatements | include/sql/bootstrap/04_bronze_tables.sql:67-182 | The procedure's statements in order compute the specified database and counts, and stop at a failure |
| Warehouse.BronzeSchema.RefreshWindow | include/openaq/refresh_bronze.py:275-295 | The call commits the whole specified step or, on any failure, leaves every table as it was |
| Warehouse.BronzeSchema.RecordLoadSummary | include/openaq/refresh_bronze.py:298-328 | Upserts the row for valid arguments, with bronze_changed true exactly when a count is not zero |
| Dag.MergeKeepsBacking | dags/openaq_ingest.py:115-160 | Recording a summary whose refresh committed keeps every Asset event and summary backed |
| Dag.BackedRefreshCommitted | dags/openaq_ingest.py:91-160 | An emitted event or a summary row implies that its load's refresh committed with exactly its counts |
| Dag.IngestDag.FetchApiAndStage | dags/openaq_ingest.py:53-89 | Makes exactly the API calls the collection needs; commits nothing, the locations, or the whole staging of the batch they make, and returns a summary only for the whole |
| Dag.IngestDag.RefreshBronze | dags/openaq_ingest.py:91-112 | Commits at most one refresh of the run's window, refusing a summary of another load |
| Dag.IngestDag.RecordSummaryAndEmitAsset | dags/openaq_ingest.py:114-160 | Emits only after its summary row is committed with the run's figures, and keeps every emitted event backed |
| Dag.IngestDag.RecordWithRetry | dags/openaq_ingest.py:28-31 | One retry: with matching load IDs it fails to emit only when both attempts fail; at most one upsert per attempt and one event |
| Dag.IngestDag.Run | dags/openaq_ingest.py:162-164 | However a run dies, it committed part of one staging of what its API calls came to, or all of it with one refresh and its summaries; it emits only if no task died for good and it published under a load ID that is not empty, with the figures of its own batch and its own refresh in the event and in the summary row; and it does emit when nothing fails for good and the guard accepts |
| Pagination.PaginationIsComplete | include/openaq/client.py:290-331 | A walk that saw the chunks of a dataset returns exactly when the dataset is short enough, repeats no full page and is well formed, with all records in order and the right page count |
| Pagination.EqualPagesAreRefused | include/openaq/client.py:300-310 | A well-formed dataset of two equal one-record pages is refused although the page limit allows it |
| Pagination.LocationIdentityIs | include/openaq/client.py:96-98 | A location's key is its "id" field, it has none when that is missing or null, and it is refused exactly when no object or unhashable |
| Pagination.MeasurementIdentityIs | include/openaq/client.py:101-114 | A measurement's key is its start and parameter ID, read from the named fields; exactly which records have one, have none, or are refused |
| Pagination.WalkFailures | include/openaq/client.py:297-331 | Which error ends a walk: the last answer's, a repeated page, a record without a readable key, or the page limit, in that order |
| Pagination.DuplicateKeysInOrder | include/openaq/client.py:313-320 | Keys are reported record by record, in the order of the pages |
| Pagination.DuplicateCountIsExact | include/openaq/client.py:313-320 | The duplicate count is the number of records whose key occurs on an earlier page |
| Pagination.DuplicateKeyIn | include/openaq/client.py:313-320 | A key is reported exactly when two different pages carry it |
| Pagination.NoDuplicatesIffDisjoint | include/openaq/client.py:313-320 | The count is zero exactly when page key sets are pairwise disjoint |
| Client.Decode | include/openaq/client.py:401-439 | An attempt is retried exactly for no response, 429, 5xx or a body that is not JSON, is a server error exactly for 5xx, and yields an envelope only from an accepted status |
| Client.DecodeRaises | include/openaq/client.py:401-439 | Which error each status and body raises |
| Client.HintIsAsked | include/openaq/client.py:473-495 | A 429 reports a delay exactly when its Retry-After, or else its reset header, suggests that delay |
| Client.ParseRetryAfter | include/openaq/client.py:473-495 | The header loop returns the first usable positive delay |
| Client.PageAnswerIff | include/openaq/client.py:454-472 | An attempt yields a page exactly when its response carries it: the "results" array of the body, whole, or an explicit null for an empty one |
| Client.PauseIsBounded | include/openaq/client.py:441-451 | No pause exceeds the cap, and one that no response asked for not the doubled ceiling |
| Client.RequestWithinBudgets | include/openaq/client.py:357-395 | The pauses of one request add up to at most its attempts times the cap, and, when no response asked for a delay, to at most the sum of the doubling ceilings |
| Client.BudgetsInClosedForm | include/openaq/client.py:441-451 | These two sums are n*cap and base*(2^n - 1) |
| Client.OpenAQClient.Create | include/openaq/client.py:169-205 | Construction succeeds exactly for usable settings, and keeps each of them |
| Client.OpenAQClient.BackoffDelay | include/openaq/client.py:441-451 | The server's hint under the cap, or the generator's uniform draw from zero to the doubled and capped ceiling |
| Client.OpenAQClient.Pause | include/openaq/client.py:395 | Sleeps exactly once before a retry, for what the failed response asks for or the backoff, and advances the clock by it |
| Client.OpenAQClient.Request | include/openaq/client.py:350-399 | Ends at the first attempt that succeeds or fails beyond retry, or the last one; answers with that attempt; one limiter grant per attempt; between attempts exactly one pause each, as long as the failed response asks for or the backoff, all of them spent asleep |
| Client.OpenAQClient.Paginate | include/openaq/client.py:271-346 | Stops exactly at the first short, empty, repeated or malformed page, error or page limit; the result is made of the server's own answers, each page's attempts right after the last one's and exactly as many as retrying demands |
| Client.OpenAQClient.ListLocations | include/openaq/client.py:209-223 | Against a server that answers with the chunks of any dataset, whatever fails in between, a walk returns exactly if its last request is answered and the dataset can be fetched, and then returns the dataset |
| Client.OpenAQClient.ListMeasurements | include/openaq/client.py:241-267 | The same for one sensor's window |
| Client.ServerErrorIsPersistent | include/openaq/client.py:357-395 | A walk raises a server error exactly when the last attempt for its last page met a 5xx; all of that page's attempts were then used up and failed retryably |
| Client.TriedRecovers | include/openaq/client.py:357-395 | A request whose failures are retryable and pass within the attempts allowed ends at the attempt that yields the page |
| Client.OpenAQClient.CountRepeats | include/openaq/client.py:313-320 | The record loop counts and samples the keys seen on earlier pages |
| Ingest.TargetSensorsIn | include/openaq/client.py:507-522 | A sensor is fetched exactly when a location whose provider ID is 66 or 70 lists it and its parameter's name is one of seven, up to the case of its letters |
| Ingest.TargetSensorsGrow | include/openaq/ingest.py:79-88 | The sensors come location by location, each location's in the order it lists them |
| Ingest.OnlyPollutantsAreFetched | include/openaq/client.py:507-522 | A concrete location of provider 66 whose PM2.5 sensor is fetched and whose thermometer is not |
| Ingest.DiscoverySucceedsIff | include/openaq/ingest.py:79-88 | Discovery's records are refused exactly for a location, or a sensor of an ingested provider's location, of unexpected shape |
| StagedMeasurements.FromApiIs | include/openaq/refresh_bronze.py:157-166 | A record is staged whole, under its own period start and parameter ID, and exactly when it has both |
| StagedMeasurements.CastAllIn | include/openaq/refresh_bronze.py:237-249 | The rows staged are the given ones with their start read as an instant, nothing else changed |
| Ingest.SortIs | include/openaq/ingest.py:121-130 | A record is staged exactly as itself, when its start can be read and lies in the window |
| Ingest.NotStagedIs | include/openaq/ingest.py:121-130 | It is excluded exactly when its start lies outside, and otherwise refused: with an attribute error exactly when it is no object |
| Ingest.RejectDuplicateIdentities | include/openaq/ingest.py:186-196 | Accepts exactly the batches with unique identities |
| Ingest.SortRecords | include/openaq/ingest.py:121-130 | The record loop computes the specified sorting, or stops at the first record refused |
| Ingest.CollectIngestBatch | include/openaq/ingest.py:63-155 | The collection, through the paginated client, computes the specified batch or error from walks made of the server's own answers, with no call missing or superfluous |
| Times.ZonesAgree | include/openaq/ingest.py:169-175 | Moving the wall clock and the offset together keeps the instant; without an offset there is none |
| Times.WindowIsHourAligned | include/openaq/ingest.py:50-60 | The window depends on instants only, is hour-aligned, lasts 24 hours, and is refused exactly for naive or reversed intervals |
| Times.HourlyWindowIsRefreshWindow | include/openaq/ingest.py:50-60 | The windows of the three results below are those the function returns, for every interval ending at that instant, in any time zone |
| Times.HourlyRunsCoverWithoutGaps | include/openaq/ingest.py:59-60 | Consecutive hourly runs cover exactly the range from the first window's start to the last one's end |
| Times.InnerInstantsAreCovered24Times | include/openaq/ingest.py:59-60 | Exactly which instants lie in 24 of the windows |
| Times.SkippedRunsLeaveNoGap | include/openaq/ingest.py:59-60 | Whichever runs happened, their windows cover exactly the range from the first to the last if and only if neighbouring runs are at most 24 hours apart |
| EndToEnd.CollectionSucceedsIff | include/openaq/ingest.py:63-155 | A collection succeeds exactly when discovery answers with readable locations, every sensor answers readably or hits a persistent server error, and no two in-window records share an identity |
| EndToEnd.SortingKeepsOrder | include/openaq/ingest.py:121-130 | A sensor's staged payloads are its answer's in-window records, as often and in the order it lists them |
| EndToEnd.HarvestCountsServerErrors | include/openaq/ingest.py:111-118 | The server-error count is the number of sensors that hit a persistent server error |
| EndToEnd.BatchIsApiContent | include/openaq/ingest.py:99-155 | The record count is the number of records the sensors returned, all others than the staged are excluded, and a row is in the batch exactly when its payload is a record its own sensor returned, with the row's start and parameter, that starts in the window |
| EndToEnd.GuardsAgreeUpToAliases | include/sql/bootstrap/04_bronze_tables.sql:69-83 | The database guard accepts a batch exactly if the client does and its strings do not alias |
| EndToEnd.AliasesReachTheDatabase | include/openaq/ingest.py:186-196 | Two spellings of one instant pass the client's check and fail the database's |
| EndToEnd.RunCommitsIffNoAliases | include/sql/bootstrap/04_bronze_tables.sql:71-83 | The SQL window filter removes no staged row, and a run commits exactly when no strings alias |
| EndToEnd.RunPublishesApiContent | dags/openaq_ingest.py:53-112 | After a run, bronze in its window is exactly the batch at each instant, unchanged outside, identities unique |
| EndToEnd.BatchAtIn | include/openaq/ingest.py:121-130 | The batch holds a row at an instant of the window exactly when its payload is a record its own sensor returned, of its parameter and that instant |
| EndToEnd.RunPublishesTheBatch | dags/openaq_ingest.py:53-112 | As tables: each staged row once, the load's snapshot exactly the discovered locations, and every other load's snapshot as it was |
| EndToEnd.RunReportsTheChanges | dags/openaq_ingest.py:108-160 | The counts a run reports are how its batch differs from what bronze held in the window before the run: identities only collected, held with another payload, and only held |
| EndToEnd.RunIsAllOrNothing | dags/openaq_ingest.py:53-164 | Wherever a run dies, bronze and snapshots are as before, or the window holds the whole batch and the load's snapshot its locations, and the rest of both is as before |
| EndToEnd.CrashedRunPublishesNothing | dags/openaq_ingest.py:53-105 | A run that dies before its refresh commits leaves measurements, snapshots and summaries alone |
| EndToEnd.KeyIsIdentity | include/openaq/client.py:101-114 | The client's page key of a record with a start and a parameter is those two, its staged identity without the sensor |
| EndToEnd.DuplicatesLieOutsideWindow | include/openaq/ingest.py:186-196 | Every cross-page duplicate the client counted for a sensor of an accepted batch lies outside the window |
| EndToEnd.SkippedIffPersistentServerError | include/openaq/ingest.py:103-118 | A sensor is skipped exactly when its page's last attempt met a 5xx, after every allowed attempt had failed retryably |
| EndToEnd.SkippedSensorLosesItsRows | docs/adr/0008-bronze-load-strategy.md:16 | After a published run bronze holds no row in the window of a sensor that never answered, and all it had there are counted absent |
| Runs.LastPublishedRunWins | dags/openaq_ingest.py:53-164 | After any number of runs, each of which may have died anywhere, bronze at each instant is the batch of the last run that published and covers it, or empty |
| Runs.HourlyRunsSettle | dags/openaq_ingest.py:42-52 | With hourly runs that all publish, bronze at each instant is the batch of the last of the 24 runs that cover it, or the latest so far |
| Datasets.RunPublishesTheDatasets | dags/openaq_ingest.py:53-112 | After a run against chunked datasets publishes, the window holds a row exactly when its payload is a record in the dataset of its own sensor, a target sensor not skipped, of its parameter and instant; and the snapshot is the dataset of locations |
| Datasets.FlakyIsHealthy | include/openaq/client.py:357-395 | For any datasets, a server that drops every other attempt meets the premise of the three results below as soon as two attempts are allowed |
| Datasets.HealthyCollection | include/openaq/ingest.py:63-155 | If the API recovers from every failure within the attempts allowed, a collection succeeds exactly when the datasets can be fetched and read and no identity repeats, and its batch is theirs, record by record |
| Datasets.HealthyRunCanPublish | dags/openaq_ingest.py:53-112 | A run can then publish exactly when, besides, its load ID is not empty and no instant is written in two ways |
| Datasets.RunAgainstHealthyApi | dags/openaq_ingest.py:53-164 | A run against such an API in which nothing else fails emits exactly under those conditions, and then bronze holds the datasets: each in-window record of the sensors that a location of an ingested provider lists and that measure a target pollutant, once, and the locations |

## Left out

- HTTP sessions, headers other than the two retry hints, TLS and JSON decoding: an attempt is an outcome; a NaN header value counts as unusable.
- Floating-point rounding in the limiter and the backoff: times are reals.
- Python's equality between 1, 1.0 and True inside JSON values: the model's JSON values are equal only when of the same kind.
- Lower-casing of parameter names beyond ASCII letters.
- Datetimes before year 1, where subtracting 24 hours overflows.
- The fallback error after the retry loop: the loop in `Client.OpenAQClient.Request` is proved to end inside its last attempt, so it has no exit there.
- `RefreshResult.from_snowflake` and `xcom_value`: the counts pass between tasks as values, without their JSON form.
- STAGED_AT and the serialisation of payloads through `json.dumps` and PARSE_JSON, taken as the identity.
- Snowflake isolation levels and autocommit: runs are serial (`max_active_runs=1`) and each staging call commits once; a commit between its delete and insert would be a staging of no rows, which `history.dfy` covers.
- URLs and query parameters: an endpoint is what they ask for. `Ingest.CollectIngestBatch` takes the client it is given; the run's construction of it is `Client.OpenAQClient.Create`.
- Airflow scheduling beyond task order and retries, `list_sensors`, logging, the audit, spike, transform, smoke and healthcheck code, dbt models, roles and grants.
- Threads.IterationBound: assumes sleeps last at least as long as asked, which safety does not.
- Schedule.ServeInOrder: assumes a clock moved only by exact sleeps, as the closed form does.

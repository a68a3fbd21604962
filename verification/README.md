# Verified model of the trading system's data and decision core

This project models four parts of the repository and proves what they are for.

**Annual tax with loss carry-forward** (`Products`, `LossCarryforward`, `AnnualTax`,
`RealizedReturns`). Wealth compounds year by year; gains are taxed after the oldest losses have
been used; losses expire after three years. Floats are real numbers and the tax rate is a symbol.
Main results: annual taxation never ends ahead of one tax deferred to the end, oldest-first use is
optimal among all permitted rules, and losses and wealth are conserved.

**The tick pipeline** (`Calendar`, `Text`, `WallClock`, `ServerTime`, `Ticks`, `Chunks`,
`Normalize`, `TabFile`, `LargestEvents`, `Dataset`, `Validate`, `Report`, `Convert`, `ReadBack`,
`Stages`, `Pipeline`, `Reuse`, `UnitChange`, `Interruption`). Requested dates are split into chunks, which are downloaded, normalized, validated
and converted to monthly files in server time, with a manifest recording progress. The calendar is
the proleptic Gregorian one (RFC 3339, section 5.7 and appendix C). New York's daylight saving is a
table of transitions. SHA-256 is an ideal hash: a digest holds the content it was taken of. The
commands are methods that change a `Store` in place; `Pipeline` considers every sequence of
commands and the loss of any file at any time. Download and normalize may be stopped after any
chunk, and a conversion at any point of its writing; registering a plan and recording a validation
save the manifest once, so stopping them earlier leaves no trace.

**The decision service** (`Decision`, `Repository`, `Service`, `DecisionProtocol`, `Auth`,
`Replay`). Workers share one table on which every request is one atomic step. Providers may return
anything or raise, workers may die between any two steps, and a write may be applied although it is
reported as failed. Time for nonces is a clock that never goes back; an expired item may be deleted
at any later time.

**Two refinements** (`Labels`, `Drawdown`). A bar-based label against every course of prices the
bars allow, and a single-pass drawdown against its definition over all pairs.

## What the proofs turned up

- A conversion is tied to the validation it relies on by the fingerprint of all chunks, but the
  dataset id leaves out the chunk unit. Validating the day plan and then converting the month plan
  of the same directory writes data that no validation read. `UnitChange` gives such a run.
  `Pipeline.OnlyTheValidatedUnit` gives the exact condition under which a conversion writes what the
  last validation read and counts as many: it converts the unit that was validated.
- A conversion to another server time that is stopped when its files are in place but its record is
  not yet saved leaves files that a later command takes for its own (`Interruption`).
  `Reuse.EndsExactly` gives the exact condition for reuse and `Reuse.ReusedMeans` what is then there
  if no conversion was cut short and nothing was lost.
- An event's key is unambiguous because event ids are UUIDs: an ISO 8601 time, as it is parsed here,
  may hold the separator.
- A new `WallClockFormatter` prints an empty date for the last second before the epoch
  (`WallClock.WallClockFormatter.Format`), and conversion then fails because no file is open.
- The New York close conversion is not undone in one hour a year in each direction; both are exact.
- `max_drawdown_amount` is the amount at the greatest relative fall and need not be the greatest
  fall in money (`Drawdown.AmountIsNotTheLargest`). It is exactly when no point with a higher running
  peak than the deepest point lies further below that peak (`Drawdown.AmountIsLargestExactly`).
- A nonce item may be deleted once it has expired only if claims follow their clock check at once;
  `Replay.AcceptedAtMostOnce` gives the exact trade-off.

## Model

| member | source | states |
|---|---|---|
| LossCarryforward.LiveKeepsRecent | python/analysis/benchmark_comparison.py:195 | Expiry removes exactly the amounts that arose more than three years before the year at hand |
| LossCarryforward.LiveShape | python/analysis/benchmark_comparison.py:195 | An entry survives expiry exactly when it is at most three years old; order and signs stay |
| LossCarryforward.UsedIsMin | python/analysis/benchmark_comparison.py:200-208 | Using losses in order offsets the smaller of the gain and all losses; the list pays exactly that and holds no empty entry |
| LossCarryforward.RestFromCutoff | python/analysis/benchmark_comparison.py:202-207 | Losses from any origin on are touched only after every older one is exhausted |
| LossCarryforward.YearConservesLosses | python/analysis/benchmark_comparison.py:195-210 | One year accounts for every loss: it is used, expired or carried on |
| LossCarryforward.OldestFirstYearShape | python/analysis/benchmark_comparison.py:195-210 | After a year the list is positive, oldest first and at most three years old |
| LossCarryforward.OldestFirstRunIsFeasible | python/analysis/benchmark_comparison.py:194-210 | The rule only uses losses at most three years old and never more than a gain |
| LossCarryforward.YearKeepsAhead | python/analysis/benchmark_comparison.py:194-210 | Dominance step: offset so far plus losses from any origin cutoff on stays at least that of any other rule |
| LossCarryforward.TaxableAndOffset | python/analysis/benchmark_comparison.py:211 | Under any permitted rule every gain is either offset or taxed |
| LossCarryforward.OldestFirstIsOptimal | python/analysis/benchmark_comparison.py:194-213 | For any yearly gains and any rule using losses at most three years old, oldest-first has offset at least as much after every year, so cumulative taxable income is least |
| AnnualTax.DropExpired | python/analysis/benchmark_comparison.py:195 | The filter loop keeps exactly the live losses |
| AnnualTax.OffsetGain | python/analysis/benchmark_comparison.py:200-208 | The loop over the list computes the amount used and the list that remains |
| AnnualTax.TaxOneYear | python/analysis/benchmark_comparison.py:195-218 | One pass of the loop produces the record of the specification |
| AnnualTax.ApplyAnnualTax | python/analysis/benchmark_comparison.py:185-219 | The whole loop produces the specified records for the years in ascending order |
| AnnualTax.CompoundReturns | python/analysis/benchmark_comparison.py:162-166 | The loop computes the product of one plus each return |
| AnnualTax.YearsCompoundToTotal | python/analysis/benchmark_comparison.py:187-190 | Grouping by year loses nothing: the yearly multiples multiply to the total multiple |
| AnnualTax.YearsOfRun | python/analysis/benchmark_comparison.py:187-194 | The years taxed are those that occur, each once, ascending, with positive multiples |
| AnnualTax.YearsCompoundTheirMonths | python/analysis/benchmark_comparison.py:187-190 | The dictionary holds exactly the years that occur, and each year is the product over its own months and no others |
| AnnualTax.RecordsAreTheirMonths | python/analysis/benchmark_comparison.py:187-218 | The records are of exactly the years that occur, ascending; each return before tax is the product over that year's months less one, and each gain is that return on the wealth the year starts with |
| AnnualTax.TaxYearsIsLedger | python/analysis/benchmark_comparison.py:191-219 | Each record follows from the one before: starting wealth, use, expiry, tax and ending wealth |
| AnnualTax.LedgerShape | python/analysis/benchmark_comparison.py:195-210 | Over any run the carried list is positive, strictly increasing in origin and at most three years old |
| AnnualTax.LossesAreConserved | python/analysis/benchmark_comparison.py:195-210 | Over any run, losses incurred = losses used + expired + remaining |
| AnnualTax.WealthIsConserved | python/analysis/benchmark_comparison.py:197-213 | Over any run, ending wealth = 1 + sum of gains - rate times taxable income |
| AnnualTax.ListsAreOldestFirst | python/analysis/benchmark_comparison.py:194-210 | The lists of a run are the oldest-first lists of its own gains |
| AnnualTax.TaxableSumIsTotal | python/analysis/benchmark_comparison.py:211 | The taxable income reported is the income that those lists account for |
| AnnualTax.RunTaxesLeastIncome | python/analysis/benchmark_comparison.py:194-213 | No rule limited to losses at most three years old would have taxed a smaller income, after any number of years |
| AnnualTax.RunIsBounded | python/analysis/benchmark_comparison.py:191-213 | Wealth stays positive and some level bounds wealth plus live losses by what deferral leaves of that level |
| AnnualTax.AnnualNeverBeatsDeferred | python/analysis/benchmark_comparison.py:185-242 | For every stream of returns above -1 and every rate in [0, 1), annual taxation ends with at most the after-tax multiple of one deferred tax |
| AnnualTax.SingleYearIsTight | python/analysis/benchmark_comparison.py:233-242 | Within one calendar year both treatments end equal |
| RealizedReturns.EaMonthlyReturns | python/analysis/benchmark_comparison.py:105-123 | Returns exist exactly when the balance is positive, all trades close inside the period and equity never reaches zero; each return times the equity before it is the month's profit |
| RealizedReturns.ReturnsCompoundToEquity | python/analysis/benchmark_comparison.py:115-123 | The returns compound back to the final equity, and each is above -1 |
| RealizedReturns.EquityCountsEveryTrade | python/analysis/benchmark_comparison.py:110-120 | Every trade counts exactly once in the final equity |
| RealizedReturns.RealizedStream | python/analysis/benchmark_comparison.py:105-123 | Returns built from realized profit compound to initial balance plus total profit, and the tax comparison holds for them |
| Calendar.NextDayCounts | python/tickdata/timeutil.py:26-27 | The closed-form day count grows by one from each date to the next |
| Calendar.OrdinalOfDateOf | python/tickdata/timeutil.py:108 | Counting days forward and the closed form undo each other |
| Calendar.DateOfOrdinal | python/tickdata/timeutil.py:26-27 | The date with a given day count is the one counted |
| Calendar.OrdinalOrder | python/tickdata/timeutil.py:26-27 | Earlier dates have smaller day counts and different dates different ones |
| WallClock.WallClockFormatter.constructor | python/tickdata/timeutil.py:100-103 | A new formatter remembers second -1 and empty texts |
| WallClock.WallClockFormatter.Format | python/tickdata/timeutil.py:105-112 | The result is the stateless printer's, except that a formatter that has printed nothing yet prints an empty date for the last second before the epoch |
| WallClock.FormatAll | python/tickdata/timeutil.py:97-112 | Any sequence of wall times from the epoch on prints as the stateless printer would |
| WallClock.DayCache.ParseWallMs | python/tickdata/providers/csvfile.py:90-99 | For any integer reader and whatever the day cache holds, the result is that of parsing without it |
| WallClock.ParseWallUndoesPrinter | python/tickdata/providers/csvfile.py:90-99 | With any integer reader that reads plain digits, the tab-file parser recovers the exact millisecond from printed text, for all four-digit years |
| WallClock.FractionsRead | python/tickdata/providers/csvfile.py:96-99 | A clock text may have any number of fraction digits or none: missing ones are zeros at the end, those beyond the third are cut off |
| WallClock.WallTextToMsUndoesPrinter | python/tickdata/timeutil.py:20-23 | The fixed-layout parser recovers the exact millisecond from printed text, for all four-digit years |
| WallClock.PrintOrder | python/tickdata/timeutil.py:105-112 | Printed text order is time order, and equal text means equal time |
| WallClock.PrintDateOrder | python/tickdata/timeutil.py:110 | Printed date order follows day order |
| ServerTime.NyCloseRoundTrip | python/tickdata/timeutil.py:68-81 | To the New York close clock and back is the identity, except in the last hour of summer time, where it is exactly one hour later |
| ServerTime.NyCloseWallRoundTrip | python/tickdata/timeutil.py:68-81 | From a wall time to UTC and back is the identity, except in the hour skipped in spring, where it is exactly one hour later |
| ServerTime.ConstantShiftRoundTrip | python/tickdata/timeutil.py:68-81 | The utc and fixed modes invert everywhere, both ways |
| ServerTime.WallGoesBack | python/tickdata/timeutil.py:75-76 | Wall time runs backwards exactly across the end of summer time, within an hour |
| ServerTime.OffsetBounds | python/tickdata/timeutil.py:53-73 | Offsets stay within fourteen hours |
| ServerTime.ClockIsAhead | python/tickdata/timeutil.py:68-76 | How far and in which direction each mode shifts: not at all, by the given hours in whole milliseconds, or by three hours on New York summer time and two otherwise |
| ServerTime.HourDecidesOffset | python/tickdata/timeutil.py:87-94 | The offset at the start of an hour holds through the hour |
| ServerTime.OffsetCache.OffsetForHour | python/tickdata/timeutil.py:87-94 | The memo answers as a direct lookup would, and stays true |
| ServerTime.OffsetCache.OffsetAt | python/tickdata/timeutil.py:68-73 | The memoized offset is the offset looked up directly at the instant |
| ServerTime.OffsetCache.WallOf | python/tickdata/timeutil.py:75-76 | Conversion through the memo is the pure conversion |
| ServerTime.OffsetCache.UtcOf | python/tickdata/timeutil.py:78-81 | Conversion back through the memo is the pure conversion |
| TabFile.IterMt5Tab | python/tickdata/providers/csvfile.py:71-87 | For any integer and number readers, reading with the day cache and the offset memo gives the same rows as reading without them |
| TabFile.EveryLineCounts | python/tickdata/providers/csvfile.py:78-82 | Only a blank line with fewer than three tabs stands for no row; any other line with fewer is a rejected row |
| TabFile.ConvertedLineReadsBack | python/tickdata/providers/csvfile.py:71-87 | A converted line reads back as its own instant and prices, an hour late only in the last hour of New York summer time |
| ReadBack.OutputReadsBack | python/tickdata/convert.py:97-128 | Reading all converted files again under the same rule gives the stream they were written from: same order, none lost or added, own prices, own instants outside the ambiguous hour |
| Chunks.PlanChunks | python/tickdata/chunks.py:38-56 | The loop ends; each error arises exactly under its condition; otherwise "day" gives the days and "month" the months that tile the request |
| Chunks.MonthEnd | python/tickdata/chunks.py:34-35 | The day before the first of the next month is the last day of the month |
| Chunks.TilesAscend | python/tickdata/chunks.py:45-56 | Later chunks start after earlier ones end, and ids strictly increase |
| Chunks.ChunkIdsAreDistinct | python/tickdata/download.py:33-42 | Different chunks of a plan have different manifest keys |
| Chunks.EachDateOnce | python/tickdata/chunks.py:47-55 | Every requested date lies in exactly one chunk |
| Chunks.ChunkEnds | python/tickdata/chunks.py:52 | A month chunk ends with its month or with the request, whichever is first |
| Chunks.TilingIsUnique | python/tickdata/chunks.py:45-56 | A plan is determined by its request |
| Ticks.ValidMeans | python/tickdata/model.py:38-49 | A tick is valid exactly when its numbers are finite, prices positive and uncrossed and volumes not negative; each reason exactly under its condition |
| Normalize.NormalizeFile | python/tickdata/normalize.py:24-63 | The single pass writes the usable ticks without consecutive repeats, and its statistics are exact |
| Normalize.RowsAreConserved | python/tickdata/normalize.py:35-52 | Rows in = usable rows + rejections, and the output is at most the usable rows |
| Normalize.RunStartsAre | python/tickdata/normalize.py:46-48 | The kept positions are exactly those that differ from the position before |
| Normalize.DedupPicksRunStarts | python/tickdata/normalize.py:46-50 | The output is the ticks at those positions, in order |
| Normalize.NormalizedIsSound | python/tickdata/normalize.py:40-50 | Every output tick is valid and inside the window, and no two neighbours are equal |
| Normalize.NormalizingAgain | python/tickdata/normalize.py:35-52 | Normalizing the output again changes nothing and rejects nothing |
| LargestEvents.FeedAll | python/tickdata/validate.py:205-208 | Feeding any stream leaves the first twenty of the stable descending sort of all of it |
| LargestEvents.SortDescends | python/tickdata/validate.py:207 | The sort is in descending order of size and keeps the events |
| LargestEvents.SortIsStable | python/tickdata/validate.py:207 | Events of equal size keep their order of arrival |
| Validate.FindWeekend | python/tickdata/validate.py:30-35 | The scan finds a weekend exactly when some Saturday noon lies in the interval |
| Validate.WeekendClosedForm | python/tickdata/validate.py:30-35 | That is so exactly when the interval reaches the first Saturday noon at or after its start |
| Validate.ReadFile | python/tickdata/validate.py:99-137 | The line loop computes the specified counters |
| Validate.CheckOneChunk | python/tickdata/validate.py:68-140 | The checks of one chunk, in order, compute the specified counters |
| Validate.ValidateDataset | python/tickdata/validate.py:50-157 | The whole pass computes the specified report and manifest record |
| Validate.LineIsClean | python/tickdata/validate.py:99-137 | A line adds no error exactly when it parses, is valid, is in its window and does not go back in time |
| Validate.LinesAreClean | python/tickdata/validate.py:99-137 | A file adds no error exactly when all its lines are good and in time order after what came before |
| Validate.ChunkIsClean | python/tickdata/validate.py:68-140 | A chunk adds no error exactly when it is sound and its ticks continue the stream in time order |
| Validate.ChunksAreClean | python/tickdata/validate.py:68-140 | The plan adds no error exactly when every chunk is sound and the whole stream ascends; the counters then describe the stream |
| Validate.VerdictIsSound | python/tickdata/validate.py:68-157 | The verdict is not FAIL exactly when the symbol matches, every planned chunk is present, normalized from its recorded raw hash, intact, readable, valid and in its window, the stream is non-empty and never goes back, and few enough rows were rejected; the tick count is then exact |
| Validate.InversionForcesFail | python/tickdata/validate.py:114-117 | Any two ticks out of time order, in whatever chunks, force FAIL |
| Report.ReportIsExact | python/tickdata/validate.py:112-154 | For a sound dataset the report counts exactly the repeated ticks, the gaps beyond the limit with no Saturday noon between and the jumps beyond the ratio, knows the first and last instant, and warns of each kind as often as there is cause |
| Report.PassMeans | python/tickdata/validate.py:83-157 | The verdict is PASS exactly when the dataset is sound, no row was rejected, every empty chunk is a single Saturday, and no two neighbours are equal, too far apart without a weekend between, or too far apart in price |
| Report.ErrorsAreNamed | python/tickdata/validate.py:58-148 | For any dataset each error code is reported exactly when there is cause for it in the manifest, a header, a checksum, a line read or the order of all valid ticks read; the tick count and first and last times are those of all ticks read |
| Report.TooManyRejectedMeans | python/tickdata/validate.py:144-148 | The rejected share is too large exactly when rejected rows exceed the allowed share of all rows |
| Convert.MonthFile.Write | python/tickdata/convert.py:43-48 | Writing appends one line and keeps count, first and last server time true |
| Convert.MonthFile.Close | python/tickdata/convert.py:50-56 | The record describes exactly the lines written |
| Convert.Writer.StartMonth | python/tickdata/convert.py:115-119 | The open file, if any, is closed into the list and the next month's file is opened empty |
| Convert.Writer.Add | python/tickdata/convert.py:105-126 | A tick is refused exactly when server time goes back, and otherwise the finished and open files hold the image of everything read |
| Convert.SameMonth | python/tickdata/convert.py:120-124 | A tick of the open month goes to the end of the open file |
| Convert.NextMonth | python/tickdata/convert.py:115-124 | A tick of another month closes the open file and starts the next, and month keys keep increasing |
| Convert.KeysFollowWalls | python/tickdata/convert.py:113-114 | Month keys never go back while wall time goes forward |
| Convert.ConvertLines | python/tickdata/convert.py:104-126 | One file converts exactly when every line parses and server time never goes back |
| Convert.ConvertChunk | python/tickdata/convert.py:98-126 | A chunk not recorded as complete is passed over; a missing entry or file is an exception |
| Convert.ConvertAll | python/tickdata/convert.py:89-132 | Conversion finishes exactly when everything can be read and server time starts at the epoch or later and never goes back; the files, concatenated, are then exactly the image of all ticks in order, each holds one month, counts sum to the total and month keys strictly increase |
| Convert.NothingIsOverwritten | python/tickdata/convert.py:50-56 | Increasing month keys give different names, so every file is in the directory with its own lines |
| Stages.RegisteredIs | python/tickdata/download.py:33-42 | Registering a plan adds the missing chunks as pending and touches nothing else |
| Stages.FetchIsFirst | python/tickdata/download.py:82-111 | The attempts end with the first that is not a retryable failure, if the policy allows that many |
| Stages.EmptyRawMeans | python/tickdata/download.py:45-51 | A raw file counts as empty exactly when everything between its first and second line end is white space |
| Stages.Store.EnsureChunkEntries | python/tickdata/download.py:33-42 | The loop registers the plan |
| Stages.Store.DownloadChunk | python/tickdata/download.py:72-115 | The retry loop ends as the specification says and records it with the raw file |
| Stages.Store.RunDownload | python/tickdata/download.py:61-116 | The loop over the plan skips, fetches, fails or raises chunk by chunk as specified |
| Stages.DownloadResumes | python/tickdata/download.py:54-58 | After a download that failed nowhere, another fetches nothing and changes nothing |
| Stages.DownloadReportsAll | python/tickdata/download.py:71-116 | Every chunk is reported once, as done, skipped or failed |
| Stages.DownloadLeaves | python/tickdata/download.py:54-116 | After a download that failed nowhere every chunk is settled, and a complete one's file is there with the recorded size |
| Stages.DownloadOutcome | python/tickdata/download.py:61-116 | For each chunk: skipped exactly without force when it is empty or its file is there in full, failed exactly when every attempt could be retried, otherwise done with the first file delivered and a record that measures it; skipped and failed leave the file |
| Stages.Store.NormalizeChunk | python/tickdata/normalize.py:74-114 | One chunk is failed, skipped, emptied or normalized as specified |
| Stages.Store.RunNormalize | python/tickdata/normalize.py:66-115 | The loop over the plan does so chunk by chunk |
| Stages.NormalizeResumes | python/tickdata/normalize.py:82-91 | After a normalization that failed nowhere, another rewrites nothing |
| Stages.NormalizeLeaves | python/tickdata/normalize.py:73-114 | After a normalization that failed nowhere every chunk is normalized from the raw file recorded now, and a complete one's file is there |
| Stages.NormalizeOutcome | python/tickdata/normalize.py:73-114 | For each chunk: failed exactly when not downloaded, skipped exactly without force when current, otherwise done; a chunk done is the normalized form of its raw file with exact counts, and an empty download leaves no normalized file |
| Stages.Store.RunValidate | python/tickdata/validate.py:187-202 | Validation records its result with the fingerprint of the entries it saw |
| Stages.Store.RunConvert | python/tickdata/convert.py:70-155 | The guards, the reuse of an up-to-date result, regeneration and abortion each leave the directory as specified |
| Pipeline.IdsIdentify | python/tickdata/chunks.py:48-54 | Within one dataset an id names a single chunk, whichever plan it comes from |
| Pipeline.StepHolds | python/tickdata/normalize.py:93-114 | Every command keeps the manifest true to the files: recorded checksums and row counts are those of the normalized recorded raw data, and recorded sizes and emptiness those of the raw data |
| Pipeline.RunHolds | python/tickdata/normalize.py:73-114 | So does every run from an empty dataset |
| Pipeline.ValidationIsLast | python/tickdata/validate.py:190-201 | The manifest's validation is that of the last validate command, of the state it saw |
| Pipeline.SameFingerprintSameFile | python/tickdata/validate.py:22-27 | Under equal fingerprints a chunk present in both states has the same file in both |
| Pipeline.ConvertsWhatWasValidated | python/tickdata/convert.py:74-83 | In every run, a conversion of the unit last validated writes exactly the ticks that validation read, and counts as many |
| Pipeline.OnlyTheValidatedUnit | python/tickdata/convert.py:74-83 | In every run, a conversion writes what the last validation read, and counts as many, exactly when it converts the unit that was validated |
| Pipeline.UnitDecides | python/tickdata/convert.py:97-104 | A conversion has read only validated files exactly when it converts the unit last validated, or the manifest lists no chunk of its plan as complete when it starts |
| Pipeline.NoTicksNothingComplete | python/tickdata/convert.py:98-101 | A readable plan yields no ticks exactly when the manifest lists every chunk of it as something other than complete |
| Pipeline.ResultsAreCurrent | python/tickdata/convert.py:149-153 | In every run, a recorded import, verification or history quality was recorded after the last conversion that wrote files |
| Pipeline.ChangedChunkIsRefused | python/tickdata/convert.py:78-79 | If any chunk has changed since validation, conversion is refused and changes nothing |
| Pipeline.OutputComesFromDownloads | python/tickdata/convert.py:97-128 | The output files are the image of the normalized downloads that validation saw |
| Pipeline.WallsFollow | python/tickdata/convert.py:106-112 | Server time follows an ascending stream exactly when it starts at the epoch or later and no hour of quotes runs through an autumn change |
| Pipeline.ValidatedConverts | python/tickdata/convert.py:97-126 | A validated dataset can always be read back within four-digit years, and converts exactly under that condition |
| Pipeline.MonthsAreComplete | python/tickdata/convert.py:85-133 | A conversion of the unit last validated leaves one file a month, in increasing order, each in the directory with its own lines |
| Reuse.RecordIsLast | python/tickdata/convert.py:134-154 | The conversion record is that of the last conversion that finished, if there is one |
| Reuse.EndsExactly | python/tickdata/convert.py:59-83 | A conversion is refused exactly unless the last validation passed or warned and saw the data as it is now; it reuses exactly when not forced and the last finished conversion was of the same data to the same server time with all its files still there |
| Reuse.ReusedMeans | python/tickdata/convert.py:59-83 | What is reused is an earlier conversion's work under this command's own rule; if no conversion was cut short and no file lost since, its files are the whole directory |
| Interruption.OtherServerTimeIsReused | python/tickdata/convert.py:59-87 | A concrete run: a conversion to another server time stopped before its record is saved leaves files that a later command reuses as its own |
| UnitChange.UnvalidatedDataIsConverted | python/tickdata/config.py:60-62 | A concrete run: the dataset id leaves out the chunk unit, so validating one unit and converting the other writes a tick that no validation read |
| Decision.AllowMeans | services/decision_api/src/decision_api/service.py:70-149 | A decision is ALLOW exactly when the prediction is well-formed and meets both thresholds, time remains, and the language model's answer is well-formed and allows, or vetoes in shadow mode |
| Decision.FaultsVeto | services/decision_api/src/decision_api/service.py:86-94 | Any fault of either provider is a veto |
| Decision.GoodPredictionMeans | services/decision_api/src/decision_api/service.py:72-76 | A prediction counts exactly when it is a probability, a finite return and a name of at most 64 characters |
| Decision.GoodLlmMeans | services/decision_api/src/decision_api/service.py:111-136 | An answer of the language model counts exactly when every field has its form and it was answered no earlier than asked |
| Decision.TimeRemainsMeans | services/decision_api/src/decision_api/service.py:107-109 | The language model is asked exactly without a clock or with enough time left; NaN is never enough |
| Decision.EvaluationDescribes | services/decision_api/src/decision_api/service.py:58-192 | Every field of the response and of the audit record holds exactly what the providers said: status, values, version or fallback, each reason code, verdict, times and whether the answer counted |
| Repository.Kinds | services/decision_api/src/decision_api/repository.py:14-62 | Keys of decisions, events and nonces never meet |
| Repository.DecisionKeyIsInjective | services/decision_api/src/decision_api/repository.py:26 | A request id determines its key |
| Repository.NonceKeyIsInjective | services/decision_api/src/decision_api/repository.py:17 | A key id and a nonce determine their key |
| Repository.EventKeyIsInjective | services/decision_api/src/decision_api/repository.py:60-62 | Two events share a key exactly when source, time and id are equal |
| Repository.RecordedIsKeyed | services/decision_api/src/decision_api/repository.py:60-85 | An event is recorded exactly when its key is taken, with the body found there |
| Repository.DynamoRepository.PutIfAbsent | services/decision_api/src/decision_api/repository.py:49-53 | A conditional write succeeds exactly when the key is free, and then adds one item |
| Repository.DynamoRepository.GetDecision | services/decision_api/src/decision_api/repository.py:25-30 | The read returns the stored row of a request, if any |
| Repository.DynamoRepository.SaveDecision | services/decision_api/src/decision_api/repository.py:32-57 | A decision is stored exactly when the request has none |
| Repository.DynamoRepository.ClaimNonce | services/decision_api/src/decision_api/repository.py:14-23 | A nonce is claimed exactly when it is unused |
| Repository.DynamoRepository.SaveTradeEvent | services/decision_api/src/decision_api/repository.py:59-85 | An event, named by source, time and id, is created exactly when no such event is recorded, a duplicate exactly when it is recorded with the same body, and a conflict exactly when only with another |
| Service.DecisionService.Decide | services/decision_api/src/decision_api/service.py:49-202 | Whatever other workers write meanwhile, the answer is the stored row or a conflict with it; the row is the earlier one, another worker's, or this evaluation with its audit, and then both describe what the providers said |
| DecisionProtocol.StepKeeps | services/decision_api/src/decision_api/repository.py:49-57 | No step changes or removes a decision or an event |
| DecisionProtocol.DeciderLearns | services/decision_api/src/decision_api/service.py:51-56 | A worker that holds, has answered or refused knows the row that justifies it |
| DecisionProtocol.StepInv | services/decision_api/src/decision_api/service.py:193-202 | Every step of every worker keeps what all workers know true |
| DecisionProtocol.RowsNeverChange | services/decision_api/src/decision_api/repository.py:32-57 | In every run a stored decision or event stays as it is |
| DecisionProtocol.AnswerIsTheRow | services/decision_api/src/decision_api/service.py:193-202 | An answer is the stored row then and later; a refusal means that the row is for another body |
| DecisionProtocol.AnswersAgree | services/decision_api/src/decision_api/service.py:49-56 | In every run with any crashes, all answers for one request id are one response to one body |
| DecisionProtocol.EventsAreCreatedOnce | services/decision_api/src/decision_api/repository.py:59-85 | An event, named by source, time and id, is created at most once, a duplicate only for an equal hash and a conflict only for another |
| DecisionProtocol.FirstRecordingCreates | services/decision_api/src/decision_api/repository.py:72-76 | In every run the first attempt to record an event creates it |
| DecisionProtocol.SettledForACause | services/decision_api/src/decision_api/repository.py:77-85 | A duplicate or conflict is reported only if an attempt of the run recorded that event with the same, or another, body |
| DecisionProtocol.RunThinks | services/decision_api/src/decision_api/service.py:183-192 | Every stored item and every proposal is the evaluation of its own request and body, with its audit record |
| DecisionProtocol.ResponsesAreDescribed | services/decision_api/src/decision_api/service.py:58-202 | Every response stored or answered, and its audit record, describe what the providers said in one evaluation of the same request and body |
| DecisionProtocol.AllowIsJustified | services/decision_api/src/decision_api/service.py:58-202 | Every stored or returned ALLOW goes back to an evaluation whose model values and language-model answer justify it |
| DecisionProtocol.StepRefines | services/decision_api/src/decision_api/service.py:193-202 | Each step is one operation of a sequential write-once register, or none |
| DecisionProtocol.RefinesRegister | services/decision_api/src/decision_api/service.py:49-56 | The whole history is that of a sequential write-once register |
| DecisionProtocol.AnswersAreLogged | services/decision_api/src/decision_api/service.py:193-202 | Every answer given is the answer of one of its operations |
| DecisionProtocol.WorkerDecides | services/decision_api/src/decision_api/service.py:49-202 | One worker's steps end with the row and the answer that the method promises, whatever others wrote in between |
| Auth.VerifyRequest | services/decision_api/src/decision_api/auth.py:37-79 | A request is accepted exactly when it is genuine and its nonce is unused, and then the nonce is stored; each refusal arises exactly under its condition, and then nothing changes |
| Auth.SignatureBindsRequest | services/decision_api/src/decision_api/auth.py:66 | Equal signed texts mean equal path, time, nonce and body hash |
| Auth.DecimalReads | services/decision_api/src/decision_api/auth.py:66 | Decimal text reads back as its number and holds no separator |
| Replay.StepInv | services/decision_api/src/decision_api/auth.py:59-78 | An accepted nonce is stored until its expiry and the grace after it have passed |
| Replay.AcceptedAtMostOnce | services/decision_api/src/decision_api/auth.py:59-78 | Every run accepts each request at most once exactly when claims follow their clock check no later than deletion waits after expiry; with both as one step any deletion after expiry is safe |
| Replay.LateClaimReplays | services/decision_api/src/decision_api/auth.py:75-76 | Otherwise a run accepts one request twice |
| Labels.BarDecides | python/ml/features/labels.py:41-45 | A bar that reaches at most one level is touched the same way on every course of prices |
| Labels.FirstBarMeans | python/ml/features/labels.py:43-51 | A bar that reaches a level settles the outcome alone |
| Labels.QuietBarMeans | python/ml/features/labels.py:37-42 | A bar that reaches no level changes nothing |
| Labels.LabelIsRight | python/ml/features/labels.py:37-52 | TP or SL exactly when every course of prices the bars allow touches that level first, CENSORED exactly when none touches either, AMBIGUOUS exactly when two disagree; over all bars given when they are valid, and over those examined in any case; for BUY and SELL |
| Labels.RefusedExactly | python/ml/features/labels.py:23-52 | Each refusal exactly under its condition; the bar reported, or refused, is the first that is not valid and quiet |
| Labels.ReturnsAgree | python/ml/features/labels.py:45-52 | A TP label is a gain and an SL label a loss before the cost taken from both: return times entry is the way from the entry to the level, in the direction of the trade |
| Drawdown.SortKeeps | python/analysis/drawdown.py:41 | Sorting by time keeps the points |
| Drawdown.BuiltExactly | python/analysis/drawdown.py:28-47 | Rows are rejected exactly for an equity that is not positive and finite or for a repeated time; otherwise the curve has the same points in strictly ascending time |
| Drawdown.PeakIsMaximum | python/analysis/drawdown.py:44-46 | The running peak is the largest equity so far and one of them |
| Drawdown.FallBelowRate | python/analysis/drawdown.py:46 | The rate at a point is at least the fall to it from any earlier point |
| Drawdown.ReportedIsDrawdown | python/analysis/drawdown.py:60-65 | The reported peak is the last point at the running maximum, all points between it and recovery are lower, and recovery is the first return |
| Drawdown.DeepestDrawdown | python/analysis/drawdown.py:50-72 | The single-pass rate is the maximum of (e_i - e_j)/e_i over all i <= j, reported at the first trough of that depth; zero exactly when equity never falls |
| Drawdown.AmountIsNotTheLargest | python/analysis/drawdown.py:67 | A concrete curve on which the reported amount is smaller than another fall in money |
| Drawdown.AmountIsLargestExactly | python/analysis/drawdown.py:67 | The reported amount is the greatest fall in money over all pairs exactly when no point with a higher running peak than the deepest point has a greater drawdown amount |
| Drawdown.AmountIsLargestBelowPeak | python/analysis/drawdown.py:67 | In particular it is whenever the curve never rises above the height it fell from |

## Left out

- Sharpe ratio, CAGR, the monthly fee factor and the report writers: square roots, fractional powers and text.
- Float rounding everywhere: floats are real numbers with the infinities and NaN; `format_number` and `repr` are trusted to round-trip.
- `strptime` also accepts short fields: `WallTextToMs` reads the fixed layout with plain digits.
- The padding of `%Y` below the year 1000, which depends on the platform: years are printed with four digits.
- Crashes between replacing a raw or normalized file and saving the manifest.
- Stages.Store.DownloadChunk: does not model an `OSError` after the raw file is in place, because file and manifest change in one step.
- Stages.Store.RunDownload: does not model that `OSError` either.
- The order of chunks in the fingerprint text: the fingerprint is a map from chunk id, since entries are only ever appended.
- Validate.ValidateDataset: leaves the lists of the largest gaps and jumps to `LargestEvents`, because they do not influence the verdict, and drops byte counts, example texts and the exceptions of printing an instant outside the calendar.
- Convert.MonthFile.Close: drops the file size, because the number texts are not modelled.
- Convert.ConvertAll: drops file sizes and the first and last UTC instants of the record, because they restate the lines, and an interruption from outside, which is a step of its own in `Pipeline`; the loop over one file's lines and the loop body are methods of their own.
- Stages.Store.RunConvert: promises nothing about a run interrupted from outside; `Pipeline` allows that as a step.
- Repository.DynamoRepository.SaveDecision: drops the candidate index and most audit fields of the item, because no conditional write or read here depends on them.
- Repository.DynamoRepository.SaveTradeEvent: drops the index and the separate columns of the item, because they copy fields of the event.
- Service.DecisionService.Decide: keeps the audit fields that say what the language model answered and whether it counted; the other audit fields are dropped, because nothing reads them back.
- A provider object whose attributes change between two reads: answers are values here.
- Signatures, hashing, JSON, integer parsing and the tz database: parameters or tables.
- Heartbeats, HTTP and Lambda envelopes, metrics, secrets, infrastructure, model training, and the other report columns: easy members or foreign code.

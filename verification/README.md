# Vitals reconciliation engine

A Dafny model of the core of a mobile health-sync app. The app reads vitals from Health Connect on Android and from HealthKit on iOS, and reconciles them into three outputs for a requested time window:

- a day-by-day series;
- an intraday list of hourly points;
- one summary record.

A small persisted store drives the syncs and queues the results for upload.

The model covers these parts of the core:

- **Time window utility** (`TimeWindow`): resolves `today`, `7d`, `30d` and `custom` to a [start-of-day, end-of-day] window, and derives today's day key.
- **Permissions** (`Permissions`, `Dedup`):
  - Health Connect `recordType:accessType` keys;
  - the missing-permission request;
  - keep-first de-duplication of the granted permissions;
  - the decision whether every required read is granted;
  - the HealthKit initialisation outcome.
- **Health Connect range sync** (`HealthConnect`):
  - daily grouped buckets, with later buckets for a day overwriting earlier ones;
  - blood-pressure records;
  - per-day means of the instant vitals;
  - the weight buckets;
  - the gap filler that emits one record per calendar day;
  - the hourly points and the window summary.
- **HealthKit range sync** (`Apple`, `AppleDaily`):
  - the per-period fold of every sample stream;
  - the heart-rate finalization;
  - the rollup of hours into days;
  - the sorted day rows, the hourly projection and the summary reducer.
- **Platform entry points** (`Service`): `requestPlatformPermissions` and `syncVitalsRange`, which always requests hourly granularity.
- **Store** (`Store`):
  - the `syncRange` reentrancy guard, permission re-request and error state machine;
  - `requestPermissions`;
  - `flushQueue`, which marks only the successful pushes;
  - the `partialize` projection of the persisted state.

## How things are represented

- **Metric records.** A JavaScript object with optional numeric fields is a `map<Field, real>`: a missing key is `undefined`.
- **Instants.** An instant is a calendar-day index plus milliseconds into that day. A day key `YYYY-MM-DD` is represented by the day index. `Text.DateKey` and `Text.DateKeyRoundTrip` show that the printed key identifies its date.
- **Dictionaries.** A dictionary used for grouping is an `Ordered.OMap`, which remembers insertion order. That is the order `Object.values` and `Object.entries` return.
- **SDK calls.** An SDK call is a `Wrappers.Call` that either returned or failed. The `safe*` wrappers catch a throw and turn it into the empty list or into `undefined`. The `promisify*` wrappers do the same for an error reported to the HealthKit callback. A getter that throws synchronously rejects the promise instead, which is not modelled (see `Service.SyncVitalsRange` under "## Left out").
- **Environment.** The clock, date parsing, the platform, the permission dialog's answer, the SDK results and the upload push are all parameters.

The model is organised in these modules:

- **Helpers:** `Wrappers`, `Numeric`, `Text`, `Ordered`, `Grouping`, `Dedup`, `Sorting`.
- **Shared records:** `Vitals`.
- **One module per source concern:** `TimeWindow`, `Permissions`, `HealthConnect`, `Apple`, `AppleDaily`, `Service`, `Store`.

## Behaviour worth noting

- **Health Connect daily buckets.** Each bucket *assigns* its day's field (`dailyMap[key].steps = ...`), so when two buckets share a day the later one wins. The fields are not summed across buckets.
- **Weight in the HealthKit summary.** The summary takes `acc.weightKg ?? entry.weightKg ?? weightInKg`. The day rows never carry a weight, so the summary weight is the converted latest weight whenever there is at least one day, even though no day row has a weight, and is absent only when there are no days.
- **Health Connect summary.**
  - Every field of the Health Connect summary is present.
  - A missing aggregate reads as 0.
  - Blood pressure is averaged over all the window's records.
  - The instant vitals are averaged over the days of the filled series.
  - No field takes the first day's value.
- **Hourly rollup order.** The hourly rollup keeps, for a point vital, the value of the first hour that has one, and "first" is the insertion order of the hourly map. An hour is inserted by the first sample stream that touches it, so this is not necessarily ascending hour order.
- **Custom ranges.** A custom window is not ordered: a valid start after a valid end is kept as given (`TimeWindow.CustomWindowMayBeReversed`).
- **Permission re-request on iOS.** `syncRange` re-requests permissions on iOS on every sync, even with a cached grant. On iOS `requestPlatformPermissions` always resolves, so the request's failure branch cannot be reached there. The new result replaces the cached one, so a cached grant does not carry a sync whose HealthKit initialisation now fails (`Store.SyncRange`, `Store.PlatformReply`).
- **Persisted state.** Only the permission result is persisted. Metrics and daily rows are dropped on restart (`Store.Rehydrate`).

## Model

| member | source | states |
|---|---|---|
| Wrappers.OrElse | src/health/healthService.ts:1043 | `a ?? b`: the result is one of the operands, present when either is, and a present left operand wins |
| Wrappers.OrElseAssociative | src/health/healthService.ts:1153 | `a ?? b ?? c` means the same however it is grouped |
| Wrappers.OrElseNeutral | src/health/healthService.ts:1043 | a missing value is neutral on both sides of `??` |
| Wrappers.ListOrEmpty | src/health/healthService.ts:1179-1207 | a non-empty result is exactly what the call returned; the empty list means the call threw or returned nothing, so a failure looks like a window without data |
| Wrappers.ValueOrNone | src/health/healthService.ts:1167-1177 | a present result is exactly what the call returned; it is `undefined` exactly when the call threw or returned nothing |
| Numeric.Round | src/health/healthService.ts:1022 | `Math.round`: the result is within half a unit of the argument, halves going up |
| Numeric.SumAppend | src/health/healthService.ts:1244 | the sum of a concatenation is the sum of the parts |
| Numeric.Present | src/health/healthService.ts:1240-1242 | the filtered values are exactly the present ones, and none remain exactly when none was present |
| Numeric.MeanOfPresent | src/health/healthService.ts:1239-1245 | missing exactly when no value is present, otherwise the mean of the present values |
| Numeric.SeqMin | src/health/healthService.ts:921 | the running `Math.min` is an element and is below every element |
| Numeric.SeqMax | src/health/healthService.ts:922 | the running `Math.max` is an element and is above every element |
| Numeric.FirstPresent | src/health/healthService.ts:1061-1071 | missing exactly when nothing is present, else the element at the first present position |
| Numeric.FoldOrElseIsFirstPresent | src/health/healthService.ts:1148 | a left fold of `acc ?? x` picks the accumulator if present, else the first present element |
| Numeric.LastPresentIs | src/health/healthService.ts:522 | the last present element is missing exactly when nothing is present, and otherwise nothing present follows it |
| Text.Upper | src/health/healthService.ts:947 | `toUpperCase` restricted to ASCII: same length, each ASCII lower-case letter upper-cased, every other character kept |
| Text.UpperIdempotent | src/health/healthService.ts:947 | upper-casing twice is upper-casing once |
| Text.ContainsAt | src/health/healthService.ts:948 | `includes` holds exactly when the keyword occurs at some position |
| Text.PadDigits | src/health/healthService.ts:894-896 | `padStart(width, '0')` gives exactly `width` decimal digits |
| Text.PadDigitsRoundTrip | src/health/healthService.ts:894-896 | the padded digits read back as the number |
| Text.DateKeyRoundTrip | src/health/healthService.ts:470 | the `YYYY-MM-DD` key of a valid date reads back as that date, so keys identify days |
| Text.IsoTimestamp | src/health/rangeUtils.ts:32 | an ISO timestamp is 24 characters long |
| TimeWindow.NotAfterIsMillisOrder | src/health/healthService.ts:1309 | comparing instants by day then time agrees with comparing their millisecond clocks |
| TimeWindow.StartOfDay | src/health/rangeUtils.ts:35-39 | the same day at 00:00:00.000, not after the input |
| TimeWindow.EndOfDay | src/health/rangeUtils.ts:41-45 | the same day at 23:59:59.999, not before the input |
| TimeWindow.AddDays | src/health/rangeUtils.ts:11 | `setDate(getDate() + n)` moves the day by `n` and keeps the time of day |
| TimeWindow.ParsedBound | src/health/rangeUtils.ts:15-20 | an absent or empty bound is ignored, and otherwise the bound is whatever the parser yields, invalid text included |
| TimeWindow.ComputeRange | src/health/rangeUtils.ts:3-29 | `today` is [start, end] of now; `7d` and `30d` end today and span exactly 7 and 30 calendar days; each named window starts at midnight and ends at 23:59:59.999 with start < end; a custom bound replaces today's only when supplied and valid, snapped to its day |
| TimeWindow.CustomWindowMayBeReversed | src/health/rangeUtils.ts:14-23 | a custom window whose valid start follows its valid end is returned reversed |
| TimeWindow.TodayKey | src/health/rangeUtils.ts:31-33 | the key is the 10-character prefix of the timestamp |
| TimeWindow.TodayKeyIsDateKey | src/health/rangeUtils.ts:31-33 | the prefix of a valid ISO timestamp is its date's `YYYY-MM-DD` key and reads back as that date |
| Permissions.KeyInjective | src/health/healthService.ts:130-132 | two permissions share a `recordType:accessType` key exactly when they are equal |
| Permissions.Missing | src/health/healthService.ts:151-156 | the missing list holds exactly the wanted permissions whose key is not granted |
| Permissions.DescribeAll | src/health/healthService.ts:182-184 | one `recordType (accessType)` line per granted permission, in order |
| Permissions.EnsureHealthConnectPermissions | src/health/healthService.ts:134-187 | without the SDK: not granted, with the fixed message, and nothing requested. Otherwise: exactly the not-yet-granted permissions are requested; the dialog's grants count only when something was missing; the granted list has distinct keys, covers the union of old and new grants and draws only from it; granted iff every required read key is in that union |
| Permissions.RequestHealthKitPermissions | src/health/healthService.ts:230-268 | iOS result without a granted list; granted iff HealthKit initialised without error; an init error or throw is reported as the detail |
| Permissions.HasWeightAccess | src/health/healthService.ts:370-373 | weight access iff some granted permission has record type Weight and read access; no granted list means no access |
| Dedup.KeySetSnoc | src/health/healthService.ts:168 | appending an element adds its key to the key set |
| Dedup.FindIndex | src/health/healthService.ts:166 | `findIndex`: the first position with the key, or the length exactly when the key is absent |
| Dedup.FirstOccurrence | src/health/healthService.ts:164-166 | a position is kept exactly when its key does not occur earlier |
| Dedup.KeepFirst | src/health/healthService.ts:163-167 | the de-duplicated list has distinct keys and the same key set, each kept element is the first with its key, and kept elements stay in input order |
| Dedup.KeepFirstUpToOrder | src/health/healthService.ts:163-167 | the elements kept from a prefix come in the order of their first occurrences |
| Sorting.Insert | src/health/healthService.ts:1082 | inserting into an ascending run gives an ascending permutation one longer, headed by the earlier of the two heads |
| Sorting.SortByDate | src/health/healthService.ts:1082 | `sort` by date key gives an ascending permutation of the rows |
| Sorting.SortedStrictly | src/health/healthService.ts:1084-1086 | with distinct dates the sorted rows strictly ascend |
| Ordered.Put | src/health/healthService.ts:886 | `o[k] = v` updates the entry; an existing key keeps its place and a new key goes last |
| Ordered.Values | src/health/healthService.ts:1019 | `Object.values` lists the entries in key order |
| Ordered.Items | src/health/healthService.ts:1231 | `Object.entries` lists the key and value pairs in key order |
| Ordered.MapValues | src/health/healthService.ts:1019-1025 | rewriting every entry in place keeps the keys and their order |
| Grouping.Only | src/health/healthService.ts:904-908 | the items landing in one period are a subsequence of the input, all with that period's key |
| Grouping.RunAppend | src/health/healthService.ts:904-1016 | folding two lists in turn is folding their concatenation |
| Grouping.GroupAt | src/health/healthService.ts:904-908 | after bucketing, a key is present iff it was before or an item has it, and its entry is the fold of that key's items |
| Grouping.GroupKeepsOrder | src/health/healthService.ts:886 | bucketing only appends keys, so earlier keys keep their order |
| Vitals.Put | src/health/healthService.ts:475 | assigning a field sets it and leaves every other field alone |
| Vitals.Restrict | src/state/healthStore.ts:118-133 | a projection keeps exactly the chosen fields |
| Vitals.AddTo | src/health/healthService.ts:907 | `(e.f ?? 0) + v` sets the field and nothing else |
| Vitals.LowerTo | src/health/healthService.ts:974-976 | running minimum: the smaller of the old and new value, or the new value when none was there |
| Vitals.RaiseTo | src/health/healthService.ts:977-979 | running maximum: the larger of the old and new value, or the new value when none was there |
| Vitals.WithBloodPressure | src/health/healthService.ts:1264-1269 | the reading becomes the displayed systolic and diastolic, and the four min/max fields fold it in; nothing else changes |
| HealthConnect.Converted | src/health/healthService.ts:472-512 | a bucket value, or 0 when missing; sleep and exercise in rounded minutes, or 0; weight keeps the existing value when the bucket has none |
| HealthConnect.AssignBucket | src/health/healthService.ts:472-476 | a bucket creates its day if needed and sets only that day's field |
| HealthConnect.AssignBucketsDays | src/health/healthService.ts:469-512 | a day is present iff it was before or some bucket starts on it; days without buckets are untouched |
| HealthConnect.AssignBucketsFrame | src/health/healthService.ts:472-476 | a bucket pass changes no field but its own |
| HealthConnect.AssignBucketsLastWins | src/health/healthService.ts:472-512 | the day's field is the converted value of the day's last bucket |
| HealthConnect.AssignBucketsKeep | src/health/healthService.ts:519-523 | the day's weight is the last present bucket weight, else the previous value |
| HealthConnect.SumsAt | src/health/healthService.ts:1219-1229 | a day has an accumulator iff it has a timestamped, valued record; the accumulator holds their sum and count |
| HealthConnect.BucketInstantRecords | src/health/healthService.ts:1209-1237 | each day with readings gets their mean in `field`, and its other fields are kept; days without readings are untouched and no day is added for them |
| HealthConnect.InstantStage | src/health/healthService.ts:1231-1236 | one instant pass sets its own field to the day's mean and leaves every other field alone |
| HealthConnect.PressureStep | src/health/healthService.ts:1256-1270 | a record without `startTime` or `time` is skipped; otherwise its day applies the blood-pressure rule and no other day changes |
| HealthConnect.WithBloodPressureRange | src/health/healthService.ts:1266-1269 | each min/max field folds in the new reading |
| HealthConnect.BucketPressureRecordsFrame | src/health/healthService.ts:1247-1271 | a day is present iff it was before or a record lands on it; days without records are untouched, and fields outside blood pressure are never changed |
| HealthConnect.BucketPressureRecordsLatest | src/health/healthService.ts:1264-1265 | a day's systolic and diastolic are those of its last record |
| HealthConnect.BucketPressureRecordsLow | src/health/healthService.ts:1266-1268 | a day's min field is the minimum of its readings |
| HealthConnect.BucketPressureRecordsHigh | src/health/healthService.ts:1267-1269 | a day's max field is the maximum of its readings |
| HealthConnect.PressureWithinRange | src/health/healthService.ts:1266-1269 | every reading of a day lies between the day's min and max fields |
| HealthConnect.AverageFromDaily | src/health/healthService.ts:1239-1245 | missing iff no day has the field, otherwise the mean of the days' present values |
| HealthConnect.AveragePressure | src/health/healthService.ts:1289-1298 | missing iff there are no records, otherwise the mean of the chosen readings |
| HealthConnect.AllPresent | src/health/healthService.ts:1240-1242 | filtering a column with no gaps keeps every value in order |
| HealthConnect.ZeroDay | src/health/healthService.ts:1313-1320 | a synthesized day has the five cumulative fields at 0 and no other field |
| HealthConnect.FillFrom | src/health/healthService.ts:1309-1323 | one record per cursor step, the `i`-th being day `cursor + i` |
| HealthConnect.FillMissingDays | src/health/healthService.ts:1299-1326 | one record per day from start to end, dated consecutively and strictly ascending; existing entries are returned unchanged and absent days are zero days |
| HealthConnect.FillCoversWindow | src/health/healthService.ts:1299-1326 | for a midnight-to-end-of-day window the series has exactly the window's number of calendar days, and each day sits at its offset |
| HealthConnect.HourValue | src/health/healthService.ts:533-593 | an hourly value is the bucket value or 0; exercise is in rounded minutes, 0 when missing or zero |
| HealthConnect.ActiveHourMatchesDailyRule | src/health/healthService.ts:505-512 | the hourly exercise minutes agree with the daily rounding rule |
| HealthConnect.HourlyOf | src/health/healthService.ts:533-593 | one point per bucket, with the bucket's date and hour, the series' metric name and unit, the converted value and the Health Connect source |
| HealthConnect.HealthConnectHourly | src/health/healthService.ts:527-593 | the hourly list holds one point per hourly bucket of the five series, each with an hour in 0..23 from Health Connect |
| HealthConnect.HealthConnectSummary | src/health/healthService.ts:595-616 | an Android summary with exactly the thirteen metric fields, each given by `HealthConnect.SummaryValue` |
| HealthConnect.SummaryValue | src/health/healthService.ts:595-616 | a window total the platform returned is reported as is, and 0 when its call threw or had no value; sleep and exercise seconds become rounded minutes; weight only with weight access; blood pressure is the mean reading over the records, 0 without records; an instant vital is the mean over the days that have it (`Numeric.MeanOfPresent` of its column), 0 when none does |
| HealthConnect.TotalSummary | src/health/healthService.ts:597-600 | `agg?.FIELD ?? 0`: the returned value, and 0 when the call threw or had no value |
| HealthConnect.MinutesSummary | src/health/healthService.ts:601-608 | a returned duration in seconds as rounded minutes, and 0 when the call threw or had no value |
| HealthConnect.InstantSummary | src/health/healthService.ts:612-615 | `averageFromDaily(...) ?? 0`: the mean over the days that have the field, 0 when none does |
| HealthConnect.SummaryInstantIsColumnMean | src/health/healthService.ts:612-615 | an instant vital of the summary is the present-value mean of its daily column, or 0 |
| HealthConnect.PressureSummary | src/health/healthService.ts:610-611 | `averageBP(...) ?? 0`: the mean reading over the records, 0 without records |
| HealthConnect.WindowDayMeans | src/health/healthService.ts:514-518 | one entry per calendar day of the window, each that day's mean reading |
| HealthConnect.FilledColumn | src/health/healthService.ts:1299-1326 | filling the gaps keeps an instant vital's column: each day shows what the map held, and a zero-filled day has none |
| HealthConnect.FilledDay | src/health/healthService.ts:1311-1322 | a filled day shows an instant vital exactly as the map held it, and a zero-filled day has none |
| HealthConnect.NoWeightBeforeWeights | src/health/healthService.ts:469-523 | before the weight pass no day of the map has a weight |
| HealthConnect.DailyInstantMeans | src/health/healthService.ts:469-523 | in the range sync's map an instant vital is the day's mean reading, on every day |
| HealthConnect.SummaryInstantFromReadings | src/health/healthService.ts:358-619 | with a granted round, a summary instant vital is the mean, over the window's days with readings, of each day's mean reading, and 0 when no day has one |
| HealthConnect.SyncHealthConnectRange | src/health/healthService.ts:358-619 | rejects with the permission message iff the negotiation does not grant; otherwise the filled daily series of the window, the summary over it and the hourly points |
| HealthConnect.StageOf | src/health/healthService.ts:469-512 | the pass found for a field is a pass over that field |
| HealthConnect.GroupedStageOf | src/health/healthService.ts:472-512 | each of the six grouped fields is written by exactly its own bucket series and rule |
| HealthConnect.GroupedDaysAt | src/health/healthService.ts:469-512 | after the grouped passes a grouped field is the converted last bucket of the day, and is absent when the day has no bucket |
| HealthConnect.ReadingDaysFrame | src/health/healthService.ts:514-523 | the reading-based passes leave the grouped fields alone |
| HealthConnect.DailyGroupedField | src/health/healthService.ts:469-523 | in the final daily map a grouped field is the converted last bucket of the day, absent without one |
| HealthConnect.DailyInstantField | src/health/healthService.ts:514-518 | in the final daily map an instant vital is the mean of the day's readings, absent without any |
| HealthConnect.DailyWeight | src/health/healthService.ts:519-523 | in the final daily map the weight is the day's last present weight bucket |
| HealthConnect.DailyPressure | src/health/healthService.ts:514 | in the final daily map a day with records shows the last reading and the min and max of its readings |
| Apple.PeriodOf | src/health/healthService.ts:889-902 | the period of a sample is its day, and in hourly mode the hour containing it |
| Apple.AddSample | src/health/healthService.ts:904-908 | a cumulative sample adds its (scaled) value to its field only |
| Apple.HeartStep | src/health/healthService.ts:910-923 | a heart sample changes only the heart fields; a zero or missing running sum restarts the sum, count and range at this sample, otherwise it adds to the sum and count and widens the range |
| Apple.Classify | src/health/healthService.ts:945-957 | an absent or empty label is unclassified; otherwise the upper-cased label is awake iff it contains AWAKE, REM iff it contains REM but not AWAKE, core iff it contains CORE, ASLEEP or LIGHT but neither earlier keyword, deep iff it contains DEEP and none of the earlier ones |
| Apple.ClassifyIsFirstMatch | src/health/healthService.ts:947-956 | classifying a non-empty label is taking the stage of the first keyword, in the order AWAKE, REM, CORE, ASLEEP, LIGHT, DEEP, that occurs in its upper case |
| Apple.ClassifyLightIsCore | src/health/healthService.ts:952 | any label whose upper case contains LIGHT and neither AWAKE nor REM is core sleep |
| Apple.ClassifyAwakeWins | src/health/healthService.ts:948 | any label whose upper case contains AWAKE is awake time, whatever else it contains |
| Apple.SleepStep | src/health/healthService.ts:938-958 | a sleep sample adds its rounded minutes to the total and to at most its one classified stage, and touches nothing else |
| Apple.PressureStep | src/health/healthService.ts:967-988 | a blood-pressure sample changes only the blood-pressure fields |
| Apple.LatestSample | src/health/healthService.ts:991-1016 | a latest-wins sample overwrites its field only |
| Apple.Batches | src/health/healthService.ts:904-1016 | the eleven sample streams, in source order |
| Apple.PassIsPerKey | src/health/healthService.ts:904-1016 | one stream pass creates a period iff a sample lands on it, and acts on each period independently |
| Apple.FoldedAt | src/health/healthService.ts:885-1016 | after every pass a period is present iff some sample lands on it, and its entry is the passes applied in order to that period |
| Apple.Amounts | src/health/healthService.ts:935 | each sample's amount is its value, or 0 when missing, scaled (metres to km for distance) |
| Apple.AddRun | src/health/healthService.ts:904-908 | a cumulative stream leaves the count and the other fields alone, and its field gets the sum of the amounts (untouched for no samples) |
| Apple.LatestRun | src/health/healthService.ts:991-1016 | a latest-wins stream leaves its field at the last sample's value and nothing else changed |
| Apple.HeartRunFrame | src/health/healthService.ts:910-923 | the heart stream leaves every non-heart field alone |
| Apple.HeartRun | src/health/healthService.ts:910-923 | with positive samples from a zero start, the running sum is the sum of the samples and the count is their number |
| Apple.HeartRunLow | src/health/healthService.ts:916-921 | for a non-empty run of positive samples from a zero start, the minimum is the smallest sample |
| Apple.HeartRunHigh | src/health/healthService.ts:917-922 | for a non-empty run of positive samples from a zero start, the maximum is the largest sample |
| Apple.SleepRunTotal | src/health/healthService.ts:938-944 | the sleep total is the sum of all samples' minutes, and non-sleep fields are untouched |
| Apple.SleepRunStage | src/health/healthService.ts:945-956 | a stage field grows by exactly the minutes of the samples classified to it |
| Apple.SleepRunStagePresent | src/health/healthService.ts:945-956 | a stage field is present iff it was before or some sample was classified to it |
| Apple.PressureRun | src/health/healthService.ts:967-988 | after a period's readings the displayed reading is the last one, and min/max are the extremes of all of them |
| Apple.PressureRunFrame | src/health/healthService.ts:967-988 | the blood-pressure stream touches no other field |
| Apple.Writer | src/health/healthService.ts:904-1016 | each field has at most one of the eleven streams writing it |
| Apple.WriterIsSole | src/health/healthService.ts:904-1016 | a stream writes a field iff it is that field's writer |
| Apple.SlotAfterAppend | src/health/healthService.ts:904-1016 | running two groups of streams is running them one after the other |
| Apple.SoleWriter | src/health/healthService.ts:904-1016 | a field written by one stream only is absent before that stream and is what that stream leaves |
| Apple.FinalizeSlot | src/health/healthService.ts:1018-1025 | finalization changes only the heart-rate average, which becomes the rounded sum over count when a count exists, and drops the count |
| Apple.DailyMap | src/health/healthService.ts:885-1025 | the finalized period map is a valid ordered map |
| Apple.DailyMapAt | src/health/healthService.ts:885-1025 | a period is in the map iff a sample lands on it, with its finalized entry |
| Apple.SummedField | src/health/healthService.ts:904-964 | steps, calories, distance and exercise are each the total of the period's samples of that stream |
| Apple.LatestField | src/health/healthService.ts:991-1016 | glucose, temperature, oxygen and respiratory rate are each the last sample value of the period |
| Apple.EntryWeight | src/health/healthService.ts:885-1016 | no period entry carries a weight |
| Apple.EntryHeartAbsent | src/health/healthService.ts:910-923 | a period without heart samples has no heart fields |
| Apple.EntryHeartAverage | src/health/healthService.ts:910-923 | with positive samples the period's heart rate is `Math.round` of their mean |
| Apple.EntryHeartRange | src/health/healthService.ts:916-922 | with positive samples the period's min and max heart rate are the extremes of its samples |
| Apple.EntrySleepTotal | src/health/healthService.ts:938-944 | the period's sleep total is the minutes of its samples, absent without any |
| Apple.EntrySleepStage | src/health/healthService.ts:945-957 | a stage field holds the minutes of the samples classified to it, present iff there is one |
| Apple.EntryPressure | src/health/healthService.ts:967-988 | a period's blood pressure is its last reading, with the min and max of all its readings |
| Apple.EntryPressureAbsent | src/health/healthService.ts:967-988 | a period without blood-pressure samples has no blood-pressure field |
| Apple.StagesWithinTotal | src/health/healthService.ts:938-957 | with non-negative sample durations, the four stage totals add up to no more than the sleep total |
| Apple.StagesMayExceedTotal | src/health/healthService.ts:941-944 | the minutes are not guarded: an in-bed sample ending a day before it starts, next to ten awake minutes, gives awake 10 against a total of -1430 |
| Apple.EntryStagesWithinTotal | src/health/healthService.ts:938-957 | with non-negative sample durations, in every period the stage minutes sum to at most the sleep minutes |
| Apple.ClassifyLight | src/health/healthService.ts:952 | "light" is classified as core sleep, not REM |
| Apple.ClassifyRemExample | src/health/healthService.ts:950 | "REM" is classified as REM sleep |
| Apple.ClassifyIgnoresCase | src/health/healthService.ts:947 | classification depends only on the upper-cased label |
| Apple.ClassifyInBed | src/health/healthService.ts:946-956 | an "INBED" sample matches no keyword and counts only to the total |
| Apple.HeartExampleAverage | src/health/healthService.ts:910-923 | samples 60, 70 and 80 finalize to an average of 70 |
| Apple.HeartExampleRange | src/health/healthService.ts:916-922 | samples 60, 70 and 80 give a minimum of 60 and a maximum of 80 |
| Apple.HeartRestartExample | src/health/healthService.ts:913-918 | a leading zero sample is discarded by the restart, so 0 then 80 finalizes to 80 |
| AppleDaily.MergeAt | src/health/healthService.ts:1034-1071 | merging an hour into its day applies each field's rollup rule |
| AppleDaily.RollStep | src/health/healthService.ts:1045-1048 | the hour counter grows exactly when the hour has an average heart rate |
| AppleDaily.StepAddUp | src/health/healthService.ts:1034-1042 | cumulative and stage fields add the hour's value, or 0 |
| AppleDaily.StepLowest | src/health/healthService.ts:1050-1054 | the minimum heart rate folds in the hour's minimum |
| AppleDaily.StepHighest | src/health/healthService.ts:1055-1059 | the maximum heart rate folds in the hour's maximum |
| AppleDaily.StepKeepFirst | src/health/healthService.ts:1061-1071 | point fields keep the day's value and otherwise take the hour's |
| AppleDaily.RollupAt | src/health/healthService.ts:1029-1074 | a date is in the rollup iff some hour falls on it, and its record is the fold of that date's hours in map order |
| AppleDaily.HourTotalIsSum | src/health/healthService.ts:1034-1042 | the accumulated total is the sum of the present hourly values |
| AppleDaily.RollAddUp | src/health/healthService.ts:1034-1042 | a rolled cumulative field is the sum of the present hourly values |
| AppleDaily.RollAddUpPresent | src/health/healthService.ts:1034-1042 | a rolled cumulative field is always present |
| AppleDaily.RollPresence | src/health/healthService.ts:1045-1071 | a rolled non-cumulative field is present iff some hour has it |
| AppleDaily.RollAverageSum | src/health/healthService.ts:1045-1048 | the rolled heart-rate sum and hour count are the sum and number of the hourly averages present |
| AppleDaily.RollLowest | src/health/healthService.ts:1050-1054 | the rolled minimum heart rate is the smallest hourly minimum |
| AppleDaily.RollHighest | src/health/healthService.ts:1055-1059 | the rolled maximum heart rate is the largest hourly maximum |
| AppleDaily.RollKeepFirst | src/health/healthService.ts:1061-1071 | a rolled point field is the first present hourly value in map order |
| AppleDaily.DayTotal | src/health/healthService.ts:1034-1042 | a day's cumulative or stage field is the sum over its hours |
| AppleDaily.DayHeartRate | src/health/healthService.ts:1045-1048 | a day's heart rate is the rounded mean of its hourly averages, absent when none is present |
| AppleDaily.DayHeartRange | src/health/healthService.ts:1050-1059 | a day's min and max heart rate are the extremes over its hours, absent when none |
| AppleDaily.DayFirst | src/health/healthService.ts:1061-1071 | a day's point field is the first value present among its hours |
| AppleDaily.KeyShape | src/health/healthService.ts:889-902 | the map holds hour periods (hour 0..23) exactly in hourly mode |
| AppleDaily.RolledRows | src/health/healthService.ts:1076-1081 | one rolled day row per date of the rollup, in rollup order |
| AppleDaily.PlainRows | src/health/healthService.ts:1084 | one day row per period of the daily map, in map order |
| AppleDaily.DailyRolled | src/health/healthService.ts:1076-1082 | in hourly mode the rows are exactly the rolled days, strictly ascending by date |
| AppleDaily.DailyPlain | src/health/healthService.ts:1084-1086 | in daily mode the rows are exactly the map's days with their entries, strictly ascending by date |
| AppleDaily.PlainRowsDistinct | src/health/healthService.ts:1084-1086 | the daily-mode rows have distinct dates |
| AppleDaily.SummaryMergeAt | src/health/healthService.ts:1144-1162 | each summary field follows its reducer rule |
| AppleDaily.WeightInKg | src/health/healthService.ts:1142 | the fallback weight is present iff the latest weight is present and non-zero, and is pounds × 0.453592 |
| AppleDaily.SummaryRunTotal | src/health/healthService.ts:1147-1152 | a cumulative summary field accumulates the day totals, and is present once there is a day |
| AppleDaily.SummaryTotal | src/health/healthService.ts:1147-1152 | a cumulative summary field is the sum of the days' present values, absent with no days |
| AppleDaily.SummaryFirst | src/health/healthService.ts:1148-1159 | a point summary field is the first value present in day order |
| AppleDaily.SummaryOmits | src/health/healthService.ts:1144-1162 | fields outside the thirteen summary fields never reach the summary |
| AppleDaily.SummaryWeightFallback | src/health/healthService.ts:1153 | with a fallback and at least one day, the summary weight is the first day's weight, else the fallback |
| AppleDaily.SummaryWeightFirst | src/health/healthService.ts:1153 | without a fallback the summary weight is the first weight present in day order |
| AppleDaily.DailyNoWeight | src/health/healthService.ts:1027-1087 | no day row carries a weight |
| AppleDaily.SummaryWeight | src/health/healthService.ts:1141-1162 | the summary weight is the converted latest weight whenever there is a day, and absent otherwise |
| AppleDaily.EntryPointsAre | src/health/healthService.ts:1097-1120 | the points of one hour are exactly its present series values |
| AppleDaily.PointsAre | src/health/healthService.ts:1091-1121 | the points are exactly the present series values of each hour |
| AppleDaily.HourlyPointsAre | src/health/healthService.ts:1089-1122 | the hourly projection is exactly one point per hour of the map and present series field |
| AppleDaily.HourlyPointsShape | src/health/healthService.ts:1093-1106 | every hourly point has an hour in 0..23 and the Apple Health source |
| AppleDaily.AppleRange | src/health/healthService.ts:790-1165 | an iOS result whose rows ascend strictly by date, carry no weight, and are the rolled-up days in hourly mode and the day entries otherwise; whose summary totals are the sums over the rows, point fields the first present value, weight the converted latest weight once there is a row, with no breakdown field; and whose hourly points, in hourly mode only, have hours 0..23 and the Apple Health source |
| AppleDaily.RangeRows | src/health/healthService.ts:1075-1086 | the range rows ascend strictly by date, one per date, carry no weight, and are the rolled-up days in hourly mode and the day entries otherwise |
| AppleDaily.RangeSummary | src/health/healthService.ts:1141-1162 | the range summary's totals are sums over the rows, point fields the first present value, weight the converted latest weight once there is a row, and no breakdown field |
| AppleDaily.SummaryOfRows | src/health/healthService.ts:1141-1162 | for any rows, summary totals are sums over the rows, point fields the first present value, and fields outside the thirteen never appear |
| Service.RequestPlatformPermissions | src/health/healthService.ts:224-269 | Android negotiates with Health Connect; iOS is granted iff HealthKit initialised |
| Service.SyncVitalsRange | src/health/healthService.ts:280-291 | iOS resolves with hourly points and rolled-up days, since every getter failure is taken to reach the callback; Android rejects exactly when its permission round is not granted |
| Store.ToDailyRow | src/state/healthStore.ts:118-133 | the stored row keeps the date and exactly the thirteen listed metric fields, dropping stages and min/max |
| Store.ToDailyRows | src/state/healthStore.ts:118-133 | one stored row per day, same order |
| Store.RequestPermissions | src/state/healthStore.ts:56-69 | a thrown request sets only the failure message; otherwise the result is cached and the error is cleared iff granted, else the permissions-required message; nothing else changes |
| Store.SyncRange | src/state/healthStore.ts:70-142 | a no-op while syncing; otherwise `syncing` ends false; success iff the post-check grant holds and the range sync resolves, and then the error stays cleared and metrics, rows, saved days and the queued payload come from its result; a failure sets the sync error and keeps metrics and rows; off iOS a cached grant is never re-requested; a settled re-request replaces the cached result; on iOS the result is always re-requested, so a sync succeeds only when HealthKit initialised |
| Store.PlatformReply | src/health/healthService.ts:224-269 | on iOS the permission request always settles, granted iff HealthKit initialised; elsewhere it is the Android outcome |
| Store.Succeeded | src/state/healthStore.ts:146-150 | no more ids than pending items |
| Store.FlushQueue | src/state/healthStore.ts:143-154 | marks nothing iff no push succeeded, otherwise exactly the succeeded ids in queue order |
| Store.SucceededAre | src/state/healthStore.ts:146-150 | an id is marked iff an item with that id was pushed successfully |
| Store.RemainingAre | src/storage/db.ts:69-76 | after marking, exactly the unmarked items stay pending |
| Store.FailuresStayPending | src/state/healthStore.ts:143-154 | with distinct ids, an item stays pending after a flush iff its push failed |
| Store.Partialize | src/state/healthStore.ts:159-162 | the persisted projection keeps the permission result |
| Store.Rehydrate | src/state/healthStore.ts:45-55 | a restart keeps the permission result, resets everything else to the initial state, and persisting it again gives back what was stored |

## Left out

- Service.SyncVitalsRange: on iOS the model always resolves. In the source a HealthKit getter that throws synchronously inside the `new Promise` executor of `promisifyHealthArray` or `promisifyHealthValue` rejects the promise, so `syncAppleHealthRange` rejects. That path is not modelled. `Store.SyncRange` still covers a rejected range sync through its `rangeSync` parameter.
- AppleDaily.AppleRange: never rejects, for the same reason.
- Platform SDK calls (`aggregateRecord`, `aggregateGroupByDuration`, `readRecords`, `initHealthKit`, the HealthKit sample getters) are external. Their results are inputs, and only the failure-to-empty wrappers around them are modelled.
- `Promise.all`, `async`/`await` and the store's `set`/`get` are left out: fetches are taken as settled, and the store is a state record updated in sequence.
- Time zones are abstracted away. The source mixes UTC day keys (`slice(0, 10)`, `toISOString`) with local `getHours`, `setHours` and `setDate`. Instants here have a single calendar, so that mismatch is not reproduced.
- Floating point, NaN and 64-bit number behaviour are not modelled. Values are exact reals, and `Math.round` is rounding half up on reals.
- Day keys are day indices. `localeCompare` on equal-width `YYYY-MM-DD` keys is taken to be date order.
- The Apple period key `YYYY-MM-DDTHH:00:00` is a (day, hour) pair. So the `Number.isInteger(hour)` guard of the hourly projection always passes in hourly mode.
- The `sleepSessions` projection (healthService.ts:1124-1139) and all console logging are display or diagnostic only.
- The legacy single-window syncs `syncVitals`, `syncHealthConnect`, `syncAppleHealth` and `averageInstantRecord`, and the `timeRange` helper, are not part of this model. They are not reachable from `syncRange`.
- `saveDaily`, `enqueueSync` and `markSynced` are SQLite I/O and are not executed. `Store.SyncRange` returns the days to save and the payload to queue, and `Store.FlushQueue` returns the ids to mark.
- The queue payload's `syncedAt` timestamp is not modelled.
- `pushVitals` is an input function from payload to success.
- `initDb` inside `requestPermissions` catches its own errors and has no effect on the state, so it is not modelled.
- The store's `setError` and `setInitialSynced` are single-field setters with no logic. `initialSynced` is only shown to be preserved by the modelled operations.
- Permissions.EnsureHealthConnectPermissions: the `initialize` and `getGrantedPermissions` calls are assumed to succeed. Only SDK availability and the dialog's answer vary.
- HealthConnect.AveragePressure: a record's `systolic` and `diastolic` readings are always present, as the record type declares. So `averageBP`'s filter of undefined readings never removes anything here.
- Apple.EntryHeartAverage: stated only for positive heart-rate samples. The restart quirk for a zero running sum is modelled in `Apple.HeartStep`, and exhibited in `Apple.HeartRestartExample`, but the mean property does not hold across it.
- Apple.EntryHeartRange: stated only for positive heart-rate samples, for the same reason.
- Apple.HeartRun: stated only for positive samples from a zero start, for the same reason.
- Apple.HeartRunLow: stated only for a non-empty run of positive samples from a zero start, for the same reason.
- Apple.HeartRunHigh: stated only for a non-empty run of positive samples from a zero start, for the same reason.
- Apple.StagesWithinTotal: the bound is stated only for sleep samples whose rounded duration is not negative, which holds whenever the end is not before the start. The source does not guard against a reversed sample, and `Apple.StagesMayExceedTotal` shows the bound failing for one.
- Apple.EntryStagesWithinTotal: stated only for sleep samples whose rounded duration is not negative, for the same reason.
- Text.Upper: upper-cases ASCII letters only. JavaScript's `toUpperCase` also maps other letters, and can change the length (`ß` becomes `SS`, dotless `ı` becomes `I`). HealthKit's sleep stage labels are ASCII, so classification is unaffected for them, but a non-ASCII label such as `lıght` would be classified differently.
- Apple.HeartStep: a heart sample's value is always present. The source's `hr.value ?? 0` default for a missing value, and the `Math.min`/`Math.max` it would then be compared in, are not modelled.
- Apple.PressureStep: a blood-pressure sample's systolic and diastolic values are always present. The source reads them unchecked from an untyped sample, so a missing value would be written as `undefined`; that is not modelled.
- TimeWindow.TodayKey: requires the timestamp to have at least ten characters. `toISOString` always yields 24.
- Sorting.SortedStrictly: stated for rows with distinct dates, which both callers guarantee (`AppleDaily.DailyRolled`, `AppleDaily.DailyPlain`).

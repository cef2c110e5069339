# AutoTrace predictive maintenance suggestions, in Dafny

This project models the suggestion engine of the AutoTrace vehicle-maintenance
service and proves properties of it. Given a vehicle (stored category, initial
odometer, monthly usage rate, registration time), its maintenance history in
service-date order and the current time, the engine:

- estimates today's odometer by extrapolating from the last known reading with
  fixed 30-day months;
- picks the next preventive milestone of the category's schedule from the
  recorded reading;
- projects the date that milestone falls due;
- returns a summary with the remaining distance, an overdue flag, the
  milestone's checklist and the whole schedule, each entry flagged overdue
  against the estimate.

Beside it sit two small pure pieces: the closed mapping between API category
values and stored enum values, and the URL, object-key and content-type helpers
of the file-storage module.

Files, one module each:

- `outcomes.dfy` (`Outcomes`): `Option`, `Result` and `Outcome`.
- `config.dfy` (`Config`): the schedule table and the default rate.
- `types.dfy` (`Types`): the summary shape and the category mapping.
- `jsmath.dfy` (`JsMath`): `Math.max`, `Math.round`, and number-to-`Date`
  conversion with its valid range.
- `suggestions.dfy` (`Suggestions`): the engine.
- `storage.dfy` (`Storage`): the storage helpers.
- `scenarios.dfy` (`Scenarios`): worked examples.

Modelling choices:

- Time values are integral milliseconds.
- Estimates and rates are exact reals.
- Recorded odometer readings and schedule marks are integers, matching the
  integer odometer the maintenance input schema demands.
- The current time is a parameter. The source reads the clock.
- The storage module's environment (public base URL, bucket) is a
  `StorageConfig` value built by `LoadStorageConfig`.
- `Math.round(x)` is `floor(x + 0.5)`.
- `new Date(x).toISOString()` is modelled in two steps. First it checks the
  valid Date range of ±8.64e15 ms. Outside it the Date is invalid and the
  rendering throws a `RangeError`, modelled as an error result. Inside it the
  value is truncated toward zero.
- A vehicle's rate is `Option<real>`. The code types it as a number. The
  model also admits a null rate, `None`, which the `??` at
  src/services/suggestions.ts:13 guards against. There the default rate
  replaces it. Where the code uses the rate without `??`, JavaScript would read
  `null` as 0: the product in the estimator is 0, and a positive gap divided
  by it is infinity.

## Behaviour worth knowing

- A zero rate is kept. Only a null rate falls back to the default, and only in
  the no-record branch of the estimator. After a service a null rate
  multiplies as 0, so the estimate stays at the recorded reading
  (`Scenarios.NullRateAfterServiceKeepsReading`). For a target still ahead, a
  zero or null rate makes the due date infinite. The Date is then invalid, and
  the call throws instead of returning a summary
  (`Scenarios.ZeroRateIsNotReplaced`).
- `overdue` compares the unrounded gap. So `overdue` implies a rounded
  `kmToNext` of 0 (`Suggestions.BuildSuggestions`). The converse fails when
  the estimate is less than half a km short of the target
  (`Scenarios.ZeroKmToNextWithoutOverdue`).
- The summary type makes the due date optional, but the code produces it on
  every path or throws. The model's summary carries it as a plain time value,
  and the throw is the `Err` result of `BuildSuggestions`
  (`Suggestions.SummarySucceedsIff` says exactly when that happens).
- The code copies the vehicle's rate into the summary's `monthlyAverageKm`
  unchanged. Because the model admits a null rate, the model's summary field is
  an `Option<real>`, and it is `None` exactly when the vehicle's rate is.

## Model

| member | source | states |
|---|---|---|
| Config.ProfilesWellFormed | src/config.ts:11-32 | exactly the four categories car, motorcycle, truck and other have schedules; each is non-empty, has strictly ascending positive marks and a non-empty checklist per milestone |
| Config.ProfileMarks | src/config.ts:11-32 | the marks are 5000/10000/20000/40000 for cars, 3000/6000/12000 for motorcycles, 10000/20000/40000 for trucks and 5000/15000 for the generic schedule |
| Types.VehicleCategoryToPrisma | src/types.ts:38-49 | always yields one of the four stored enum values; CAR, MOTORCYCLE and TRUCK come exactly from car, motorcycle and truck |
| Types.VehicleCategoryFromPrisma | src/types.ts:51-62 | always yields one of the four API values; car, motorcycle and truck come exactly from CAR, MOTORCYCLE and TRUCK |
| Types.CategoryRoundTripFromValue | src/types.ts:38-62 | storing any of the four category values and reading it back returns it unchanged |
| Types.CategoryRoundTripFromStored | src/types.ts:38-62 | reading any of the four stored values and storing it again returns it unchanged |
| Types.CategoryMappingDefaults | src/types.ts:38-62 | any string outside the specific values is stored as OTHER, and any stored value outside them reads back as other |
| Types.CategoryToPrismaInjective | src/types.ts:38-49 | distinct category values are stored as distinct enum values |
| JsMath.Round | src/services/suggestions.ts:74 | the rounded value lies within half a unit of its input, rounding halves up |
| JsMath.Max | src/services/suggestions.ts:63 | the result is one of the two arguments and at least both of them |
| JsMath.RoundNonNegative | src/services/suggestions.ts:77 | a non-negative gap rounds to a non-negative integer, and to zero exactly when it is below one half |
| JsMath.DateFromNumber | src/services/suggestions.ts:37-38 | a Date can be rendered exactly when the time value is within the valid range; the rendered value is then valid and within one millisecond of the input, truncated toward zero |
| Suggestions.EstimateCurrentKm | src/services/suggestions.ts:9-19 | at the baseline time the estimate is the baseline reading; with a non-negative rate it is at least the baseline afterwards and at most the baseline before; after a service a null rate leaves the estimate at the recorded reading |
| Suggestions.Latest | src/services/suggestions.ts:55 | the latest record is the last entry of the history, and there is none exactly when the history is empty |
| Suggestions.BaselineIsLastRecord | src/services/suggestions.ts:55-60 | the baseline reading and time are the last record's odometer and service date, or the vehicle's initial odometer and registration time when there are no records |
| Suggestions.EstimateDifference | src/services/suggestions.ts:9-19 | between any two instants the estimate grows by the elapsed 30-day months times the rate in use |
| Suggestions.EstimateMonotonicInNow | src/services/suggestions.ts:9-19 | with a non-negative rate, a later current time never gives a smaller estimate |
| Suggestions.EstimateOneMonthLater | src/services/suggestions.ts:7-19 | one fixed month of 2,592,000,000 ms adds exactly one month's rate to the estimate |
| Suggestions.EstimateUsesDefaultRate | src/services/suggestions.ts:10-13 | a vehicle with no records and no rate of its own is assumed to travel the default 1000 km per month |
| Suggestions.ProfileKey | src/services/suggestions.ts:21-24 | the key always has a schedule, and it is always the mapped category value, so the fallback never changes it |
| Suggestions.ScheduleFor | src/services/suggestions.ts:56-57 | the applicable schedule is well formed; CAR, MOTORCYCLE and TRUCK get the car, motorcycle and truck schedules, and any other stored category gets the generic schedule |
| Suggestions.FirstAbove | src/services/suggestions.ts:61 | the scan returns the first index whose mark exceeds the baseline, or reports that no mark does |
| Suggestions.NextMilestoneIndex | src/services/suggestions.ts:60-61 | the selected milestone is the first one above the baseline reading; if none is above, it is the last milestone |
| Suggestions.NextMilestoneIsLeastMarkAbove | src/services/suggestions.ts:60-61 | on an ascending schedule the selected mark is the least mark above the baseline, or the greatest mark when every mark has been passed |
| Suggestions.NextMilestone | src/services/suggestions.ts:55-61 | the targeted milestone is an entry of the vehicle's schedule; if its mark is above the baseline reading (the last record's odometer, else the initial odometer), it is the least such mark in the schedule; otherwise every mark has been passed and it is the schedule's last milestone |
| Suggestions.ProjectDate | src/services/suggestions.ts:36-38 | a null or zero rate makes the date invalid; otherwise a date exists exactly when the projected instant is in the valid range, within one ms of it |
| Suggestions.EstimateDueDate | src/services/suggestions.ts:26-49 | a target at or below the baseline reading is due at the baseline time, if that is a valid Date; for a target ahead with a non-zero rate, a date exists exactly when the projected instant (baseline time plus gap/rate months) is in the valid range, and is within one ms of it; with a null or zero rate a target ahead cannot be dated |
| Suggestions.DueDateAfterBaseline | src/services/suggestions.ts:41-48 | with a positive rate and the projected instant in the valid range, a target ahead is due no earlier than the baseline time, and strictly later once covering the gap takes at least one ms |
| Suggestions.DueDateBracket | src/services/suggestions.ts:46-48 | with a positive rate, a baseline at or after the epoch and the projected instant in the valid range, the due date is the projected instant rounded down to a whole millisecond |
| Suggestions.EstimateCrossesTargetAfter | src/services/suggestions.ts:9-19 | with a positive rate, if an instant is the time needed to cover the gap to a target, rounded down to a millisecond, then the estimate has not passed the target at that instant and has passed it one ms later |
| Suggestions.DueDateMatchesEstimate | src/services/suggestions.ts:26-49 | for a positive rate, a baseline at or after the epoch and a projected instant in the valid range, due date and estimator agree: at the due date the estimate has not yet passed the target, and one ms later it has |
| Suggestions.UpcomingList | src/services/suggestions.ts:67-71 | the upcoming list has one entry per milestone in schedule order, with the milestone's mark and checklist; an entry is overdue iff the estimate has reached its mark |
| Suggestions.BuildSuggestions | src/services/suggestions.ts:51-83 | fails exactly when the due date cannot be rendered. Otherwise the summary passes the vehicle's rate through unchanged, rounds the estimate, targets the selected milestone and copies its checklist, keeps kmToNext non-negative, sets overdue iff the estimate reached the target (then kmToNext is 0), and lists the whole schedule |
| Suggestions.SummarySucceedsIff | src/services/suggestions.ts:26-83 | a summary is returned exactly when the target is already reached and the baseline time is a valid Date, or the target is ahead, the rate is non-zero and the projected due instant is in the valid range |
| Suggestions.UpcomingOverdueIsPrefix | src/services/suggestions.ts:67-71 | the overdue flags of the upcoming list form a prefix: an entry is flagged only if every earlier entry is |
| Suggestions.OverdueMatchesUpcomingEntry | src/services/suggestions.ts:63-79 | the upcoming list holds an entry with the target's mark and checklist whose flag equals the summary's overdue flag |
| Suggestions.SummaryMonotonicInNow | src/services/suggestions.ts:51-83 | for a null or non-negative rate, advancing the current time leaves success, target and due date unchanged; the estimate never falls, the remaining distance never grows, and nothing overdue becomes not overdue |
| Storage.RemoveTrailingSlash | src/lib/storage.ts:31 | the result is a prefix of the input that does not end in '/', and only slashes were removed |
| Storage.RemoveTrailingSlashIdempotent | src/lib/storage.ts:31 | stripping twice is the same as stripping once |
| Storage.RemoveTrailingSlashIgnoresAddedSlashes | src/lib/storage.ts:31 | appending any number of slashes does not change the stripped result |
| Storage.CategoryConfigOf | src/lib/storage.ts:20-29 | only vehicle photos are image-only, and each category prefix is a non-empty path segment without a slash |
| Storage.LoadStorageConfig | src/lib/storage.ts:33-42 | start-up fails exactly when the bucket is missing or empty; a non-empty public base URL is kept with only its trailing slashes removed |
| Storage.BaseUrlForCategory | src/lib/storage.ts:53-65 | a category's base URL is the public root, a slash and the category prefix; it fails only when neither a public base nor a bucket is set |
| Storage.BuildFileUrl | src/lib/storage.ts:67-72 | an absent or empty file name has no URL; a present one has a URL exactly when the category's base URL can be built, and it is that base URL, a slash and the file name |
| Storage.GetObjectKey | src/lib/storage.ts:84-85 | the key is the category prefix, a slash, then the file name |
| Storage.FileUrlIsRootAndObjectKey | src/lib/storage.ts:53-85 | with a bucket configured, a file's public URL is the public root, a slash, then the object key of the same file |
| Storage.LoadedConfigBuildsUrls | src/lib/storage.ts:33-65 | after a successful start-up every non-empty file name has a URL, and a public base URL in use never ends in a slash |
| Storage.SlashOnlyBaseFallsBackToBucket | src/lib/storage.ts:33-64 | a public base URL made only of slashes strips to the empty string, counts as unset, and URLs point at the bucket |
| Storage.ObjectKeyInjective | src/lib/storage.ts:84-85 | an object key determines both its upload category and its file name |
| Storage.CategoryPrefixesDistinct | src/lib/storage.ts:20-29 | the two categories have distinct prefixes; only vehicle photos are image-only |
| Storage.EnsureContentType | src/lib/storage.ts:74-82 | an empty content type is always rejected; a maintenance document accepts any non-empty type; a vehicle photo accepts exactly the types starting with "image/" |
| Scenarios.NewCarAfterTwoMonths | src/services/suggestions.ts:51-83 | a new car at 1000 km/month, 60 days in, with no records: about 2000 km, next service at 5000 km, 3000 km to go, not overdue, due five months after registration |
| Scenarios.CarAfterFirstService | src/services/suggestions.ts:51-83 | the same car serviced at 5200 km 30 days ago: about 6200 km, next service at 10000 km, 3800 km to go, not overdue, due 4.8 months after the service |
| Scenarios.TruckPastLastMark | src/services/suggestions.ts:60-64 | a truck whose baseline is 45000 km targets its last mark of 40000 km, with 0 km to go, overdue, due at the last service date, and every upcoming entry flagged |
| Scenarios.UnknownCategoryUsesGenericSchedule | src/services/suggestions.ts:21-24 | an unknown stored category gets the generic schedule with marks 5000 and 15000 |
| Scenarios.ZeroRateIsNotReplaced | src/services/suggestions.ts:9-49 | a zero rate is not replaced by the default: the estimate stays at the initial reading, and the due date of a target ahead cannot be rendered, so the call fails |
| Scenarios.NullRateAfterServiceKeepsReading | src/services/suggestions.ts:16-48 | after a service a null rate multiplies as zero: the estimate stays at the recorded reading, and a target ahead cannot be dated, so the call fails |
| Scenarios.ZeroKmToNextWithoutOverdue | src/services/suggestions.ts:63-77 | an estimate 0.3 km short of the target gives a rounded kmToNext of 0 while overdue is false |
| Scenarios.TargetChosenFromBaselineFlaggedFromEstimate | src/services/suggestions.ts:60-71 | a car never serviced and estimated at 6000 km is still sent to the 5000 km milestone, already flagged overdue, while the 10000 km entry is not |

## Left out

- Floating point: estimates, rates and the due-date arithmetic use exact reals, so IEEE-754 rounding in the products and quotients is not modelled.
- ISO-8601 rendering: the due date is kept as its integral time value, not the string the service returns.
- An `undefined` rate, which would give NaN: the code types the rate as a number, and the model admits only a number or `null`.
- Suggestions.NextMilestoneIndex: requires a non-empty schedule. Every configured schedule is non-empty (`Config.ProfilesWellFormed`), so `at(-1)` never sees an empty one.
- The environment override of the default monthly rate (`AVERAGE_MONTHLY_KM`): the model fixes the code's fallback of 1000.
- The order of the maintenance history is not checked. Like the source, the engine just takes the last record as the latest.
- Object-store I/O: existence checks, signed upload URLs, making files public, downloads, and `createPresignedUpload`. These are foreign calls.
- `timestampedName`: it reads the clock and a random source and uses a path library.
- The thin wrappers `getVehiclePhotoUrl` and `getMaintenanceDocumentUrl`: each is `BuildFileUrl` with a fixed category.
- Storage errors are constructors of `StorageError`, not the source's error message strings.
- HTTP routing, validation schemas, persistence, authentication and certificate layout are outside the engine. Only schema constraints appear, and only as preconditions.

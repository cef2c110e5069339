/** The predictive maintenance suggestion engine: from a vehicle snapshot,
    its maintenance history (oldest first) and the current time, it
    estimates today's odometer, picks the next schedule milestone, projects
    the date it falls due and lists the whole schedule with overdue flags.

    Time values are integral milliseconds since the epoch; distances are
    kilometres, exact reals for estimates and integers for recorded
    odometer readings. The current time is an explicit parameter.
 */
module Suggestions {
  import opened Outcomes
  import opened Config
  import opened Types
  import opened JsMath

  /** The engine's fixed-length "month": thirty days, in milliseconds. */
  const MONTH_IN_MS: int := 1000 * 60 * 60 * 24 * 30

  /** The fields of a stored vehicle the engine reads. `category` is the
      stored enum value; `averageMonthlyKm` is the vehicle's own usage rate.
      The model also admits a null rate, None, which the `??` of the
      estimator guards against. */
  datatype Vehicle = Vehicle(
    category: string,
    initialOdometer: int,
    averageMonthlyKm: Option<real>,
    createdAt: int
  )

  /** A completed service: the odometer reading and the service date. */
  datatype MaintenanceRecord = MaintenanceRecord(odometer: int, serviceDate: int)

  /** The only way the engine fails: rendering a date whose time value is not
      a valid Date (JavaScript's "RangeError: Invalid time value"). */
  datatype SuggestionError = InvalidTimeValue

  // ---------------------------------------------------------------------
  // Baseline: the most recent known true odometer reading and its time.
  // ---------------------------------------------------------------------

  /** The most recent record, the last of a history sorted by service date. */
  function Latest(records: seq<MaintenanceRecord>): (r: Option<MaintenanceRecord>)
    ensures r.None? <==> |records| == 0
    ensures r.Some? ==> r.value == records[|records| - 1]
  {
    if |records| == 0 then None else Some(records[|records| - 1])
  }

  function BaselineOdometer(vehicle: Vehicle, latest: Option<MaintenanceRecord>): int {
    match latest
    case Some(m) => m.odometer
    case None => vehicle.initialOdometer
  }

  function BaselineTime(vehicle: Vehicle, latest: Option<MaintenanceRecord>): int {
    match latest
    case Some(m) => m.serviceDate
    case None => vehicle.createdAt
  }

  /** The baseline is the last record's reading and service date, or the
      vehicle's initial reading and registration time without records. */
  lemma BaselineIsLastRecord(vehicle: Vehicle, records: seq<MaintenanceRecord>)
    ensures |records| == 0 ==>
              && BaselineOdometer(vehicle, Latest(records)) == vehicle.initialOdometer
              && BaselineTime(vehicle, Latest(records)) == vehicle.createdAt
    ensures |records| > 0 ==>
              && BaselineOdometer(vehicle, Latest(records)) == records[|records| - 1].odometer
              && BaselineTime(vehicle, Latest(records)) == records[|records| - 1].serviceDate
  {
  }

  // ---------------------------------------------------------------------
  // Odometer estimator
  // ---------------------------------------------------------------------

  /** The number JavaScript's arithmetic reads `null` as. */
  const NULL_AS_NUMBER: real := 0.0

  /** The rate the estimator multiplies by. The configured default stands in
      only for a vehicle without records whose own rate is null; after a
      service a null rate is multiplied as it is, that is, as zero. */
  function EstimatorRate(vehicle: Vehicle, latest: Option<MaintenanceRecord>): real {
    match latest
    case None => vehicle.averageMonthlyKm.GetOr(AVERAGE_MONTHLY_KM as real)
    case Some(_) => vehicle.averageMonthlyKm.GetOr(NULL_AS_NUMBER)
  }

  function ElapsedMonths(from: int, now: int): real {
    (now - from) as real / MONTH_IN_MS as real
  }

  /** Today's odometer, extrapolated from the baseline at a constant rate. */
  function EstimateCurrentKm(vehicle: Vehicle, latest: Option<MaintenanceRecord>, now: int): (km: real)
    ensures now == BaselineTime(vehicle, latest) ==> km == BaselineOdometer(vehicle, latest) as real
    ensures EstimatorRate(vehicle, latest) >= 0.0 && now >= BaselineTime(vehicle, latest) ==>
              km >= BaselineOdometer(vehicle, latest) as real
    ensures EstimatorRate(vehicle, latest) >= 0.0 && now <= BaselineTime(vehicle, latest) ==>
              km <= BaselineOdometer(vehicle, latest) as real
    ensures latest.Some? && vehicle.averageMonthlyKm.None? ==> km == BaselineOdometer(vehicle, latest) as real
  {
    var rate := EstimatorRate(vehicle, latest);
    var months := ElapsedMonths(BaselineTime(vehicle, latest), now);
    ScaleSign(months, rate);
    match latest
    case None =>
      vehicle.initialOdometer as real + months * vehicle.averageMonthlyKm.GetOr(AVERAGE_MONTHLY_KM as real)
    case Some(m) =>
      m.odometer as real + months * vehicle.averageMonthlyKm.GetOr(NULL_AS_NUMBER)
  }

  /** Sign of a product with a non-negative factor. */
  lemma ScaleSign(x: real, c: real)
    ensures c >= 0.0 && x >= 0.0 ==> x * c >= 0.0
    ensures c >= 0.0 && x <= 0.0 ==> x * c <= 0.0
  {
  }

  lemma ScaleMonotonic(x: real, y: real, c: real)
    requires x <= y && c >= 0.0
    ensures x * c <= y * c
  {
    assert y * c - x * c == (y - x) * c;
    ScaleSign(y - x, c);
  }

  /** Between two instants the estimate grows by the elapsed months times the
      rate; with the baseline value at the baseline time this pins the
      estimator down completely. */
  lemma {:induction false} EstimateDifference(vehicle: Vehicle, latest: Option<MaintenanceRecord>, n1: int, n2: int)
    ensures EstimateCurrentKm(vehicle, latest, n2) - EstimateCurrentKm(vehicle, latest, n1)
            == ElapsedMonths(n1, n2) * EstimatorRate(vehicle, latest)
  {
    var t := BaselineTime(vehicle, latest);
    var rate := EstimatorRate(vehicle, latest);
    assert ElapsedMonths(t, n2) - ElapsedMonths(t, n1) == ElapsedMonths(n1, n2);
    assert ElapsedMonths(t, n2) * rate - ElapsedMonths(t, n1) * rate
        == (ElapsedMonths(t, n2) - ElapsedMonths(t, n1)) * rate;
  }

  /** Holding the vehicle and history fixed, a later "now" never gives a
      smaller estimate (for a non-negative rate). */
  lemma EstimateMonotonicInNow(vehicle: Vehicle, latest: Option<MaintenanceRecord>, n1: int, n2: int)
    requires EstimatorRate(vehicle, latest) >= 0.0
    requires n1 <= n2
    ensures EstimateCurrentKm(vehicle, latest, n1) <= EstimateCurrentKm(vehicle, latest, n2)
  {
    EstimateDifference(vehicle, latest, n1, n2);
    ScaleSign(ElapsedMonths(n1, n2), EstimatorRate(vehicle, latest));
  }

  /** One thirty-day month adds exactly one month's rate to the estimate. */
  lemma EstimateOneMonthLater(vehicle: Vehicle, latest: Option<MaintenanceRecord>, now: int)
    ensures EstimateCurrentKm(vehicle, latest, now + MONTH_IN_MS)
            == EstimateCurrentKm(vehicle, latest, now) + EstimatorRate(vehicle, latest)
  {
    EstimateDifference(vehicle, latest, now, now + MONTH_IN_MS);
  }

  /** Without records and without a rate of its own, a vehicle is assumed to
      travel the configured default per month. */
  lemma EstimateUsesDefaultRate(vehicle: Vehicle)
    requires vehicle.averageMonthlyKm.None?
    ensures EstimateCurrentKm(vehicle, None, vehicle.createdAt + MONTH_IN_MS)
            == vehicle.initialOdometer as real + AVERAGE_MONTHLY_KM as real
  {
    EstimateOneMonthLater(vehicle, None, vehicle.createdAt);
  }

  // ---------------------------------------------------------------------
  // Profile lookup and milestone selection
  // ---------------------------------------------------------------------

  /** The schedule key of a vehicle: its category value, or the generic key
      when the table has no entry for it. Every value the category mapping
      yields has an entry, so the fallback never changes the key. */
  function ProfileKey(vehicle: Vehicle): (key: string)
    ensures key in PREVENTIVE_PROFILES
    ensures key == VehicleCategoryFromPrisma(vehicle.category)
  {
    var category := VehicleCategoryFromPrisma(vehicle.category);
    if category in PREVENTIVE_PROFILES then category else FALLBACK_PROFILE
  }

  /** The schedule that applies to a vehicle. */
  function ScheduleFor(vehicle: Vehicle): (s: Schedule)
    ensures WellFormedSchedule(s)
    ensures vehicle.category == "CAR" ==> s == CAR_SCHEDULE
    ensures vehicle.category == "MOTORCYCLE" ==> s == MOTORCYCLE_SCHEDULE
    ensures vehicle.category == "TRUCK" ==> s == TRUCK_SCHEDULE
    ensures vehicle.category !in {"CAR", "MOTORCYCLE", "TRUCK"} ==> s == OTHER_SCHEDULE
  {
    ProfilesWellFormed();
    PREVENTIVE_PROFILES[ProfileKey(vehicle)]
  }

  /** Index of the first milestone at or after `from` whose mark is strictly
      above `base`, if any. */
  function FirstAbove(schedule: Schedule, base: int, from: nat): (r: Option<nat>)
    requires from <= |schedule|
    ensures r.Some? ==> from <= r.value < |schedule| && schedule[r.value].kmMark > base
    ensures r.Some? ==> forall j :: from <= j < r.value ==> schedule[j].kmMark <= base
    ensures r.None? ==> forall j :: from <= j < |schedule| ==> schedule[j].kmMark <= base
    decreases |schedule| - from
  {
    if from == |schedule| then None
    else if schedule[from].kmMark > base then Some(from)
    else FirstAbove(schedule, base, from + 1)
  }

  /** The milestone selector: the first milestone strictly above the
      baseline reading, or the last milestone once every mark is passed. */
  function NextMilestoneIndex(schedule: Schedule, base: int): (i: nat)
    requires |schedule| > 0
    ensures i < |schedule|
    ensures schedule[i].kmMark > base ==> forall j :: 0 <= j < i ==> schedule[j].kmMark <= base
    ensures schedule[i].kmMark <= base ==>
              i == |schedule| - 1 && forall j :: 0 <= j < |schedule| ==> schedule[j].kmMark <= base
  {
    match FirstAbove(schedule, base, 0)
    case Some(i) => i
    case None => |schedule| - 1
  }

  /** On an ascending schedule the selected mark is the least mark above the
      baseline when there is one, and the greatest mark otherwise. */
  lemma NextMilestoneIsLeastMarkAbove(schedule: Schedule, base: int)
    requires |schedule| > 0 && StrictlyAscending(schedule)
    ensures (exists j :: 0 <= j < |schedule| && schedule[j].kmMark > base) ==>
              var m := schedule[NextMilestoneIndex(schedule, base)].kmMark;
              m > base && forall j :: 0 <= j < |schedule| && schedule[j].kmMark > base ==> m <= schedule[j].kmMark
    ensures (forall j :: 0 <= j < |schedule| ==> schedule[j].kmMark <= base) ==>
              forall j :: 0 <= j < |schedule| ==> schedule[j].kmMark <= schedule[NextMilestoneIndex(schedule, base)].kmMark
  {
    var i := NextMilestoneIndex(schedule, base);
    forall j | 0 <= j < |schedule| && schedule[j].kmMark > base
      ensures schedule[i].kmMark > base && schedule[i].kmMark <= schedule[j].kmMark
    {
      if schedule[i].kmMark <= base {
        assert false;
      } else if j < i {
        assert false;
      }
    }
  }

  /** The milestone the engine targets for a vehicle with this history. */
  function NextMilestone(vehicle: Vehicle, records: seq<MaintenanceRecord>): (m: Milestone)
    ensures m in ScheduleFor(vehicle)
    ensures var s := ScheduleFor(vehicle);
            var b := BaselineOdometer(vehicle, Latest(records));
            && (m.kmMark > b ==> forall x :: x in s && x.kmMark > b ==> m.kmMark <= x.kmMark)
            && (m.kmMark <= b ==> m == s[|s| - 1] && forall x :: x in s ==> x.kmMark <= b)
  {
    var schedule := ScheduleFor(vehicle);
    var base := BaselineOdometer(vehicle, Latest(records));
    NextMilestoneIsLeastMarkAbove(schedule, base);
    schedule[NextMilestoneIndex(schedule, base)]
  }

  // ---------------------------------------------------------------------
  // Due-date projector
  // ---------------------------------------------------------------------

  /** The exact instant at which a vehicle travelling `rate` km per month
      from `baseTime` covers `kmDiff` more kilometres. */
  function ProjectedTime(baseTime: int, kmDiff: int, rate: real): real
    requires rate != 0.0
  {
    baseTime as real + (kmDiff as real / rate) * MONTH_IN_MS as real
  }

  /** Rendering of a date `kmDiff` km past the baseline. A null rate reads as
      zero, and a positive gap divided by zero is infinity, an invalid Date. */
  function ProjectDate(baseTime: int, kmDiff: int, rate: Option<real>): (due: Option<int>)
    requires kmDiff > 0
    ensures rate.None? || rate == Some(0.0) ==> due.None?
    ensures rate.Some? && rate.value != 0.0 ==>
              (due.Some? <==> -(MAX_TIME_VALUE as real) <= ProjectedTime(baseTime, kmDiff, rate.value) <= MAX_TIME_VALUE as real)
    ensures due.Some? ==> -1.0 < ProjectedTime(baseTime, kmDiff, rate.value) - due.value as real < 1.0
  {
    match rate
    case None => None
    case Some(r) =>
      if r == 0.0 then None
      else DateFromNumber(ProjectedTime(baseTime, kmDiff, r))
  }

  /** A target ahead of the baseline falls due at an instant inside the range
      of valid Dates. */
  predicate DueInRange(latest: Option<MaintenanceRecord>, vehicle: Vehicle, targetKm: int)
    requires vehicle.averageMonthlyKm.Some? && vehicle.averageMonthlyKm.value != 0.0
  {
    var p := ProjectedTime(BaselineTime(vehicle, latest), targetKm - BaselineOdometer(vehicle, latest),
                           vehicle.averageMonthlyKm.value);
    -(MAX_TIME_VALUE as real) <= p <= MAX_TIME_VALUE as real
  }

  /** The date the target mark is expected to be reached: the baseline time
      when the target is already at or below the baseline reading, otherwise
      the baseline time plus the months the remaining gap takes. */
  function EstimateDueDate(latest: Option<MaintenanceRecord>, vehicle: Vehicle, targetKm: int): (due: Option<int>)
    ensures targetKm <= BaselineOdometer(vehicle, latest) ==>
              due == (if ValidTimeValue(BaselineTime(vehicle, latest)) then Some(BaselineTime(vehicle, latest)) else None)
    ensures targetKm > BaselineOdometer(vehicle, latest) && vehicle.averageMonthlyKm.Some?
              && vehicle.averageMonthlyKm.value != 0.0 ==>
              (due.Some? <==> DueInRange(latest, vehicle, targetKm))
    ensures targetKm > BaselineOdometer(vehicle, latest) && vehicle.averageMonthlyKm.Some?
              && vehicle.averageMonthlyKm.value != 0.0 && due.Some? ==>
              -1.0 < ProjectedTime(BaselineTime(vehicle, latest), targetKm - BaselineOdometer(vehicle, latest),
                                   vehicle.averageMonthlyKm.value) - due.value as real < 1.0
    ensures targetKm > BaselineOdometer(vehicle, latest) && !(vehicle.averageMonthlyKm.Some? && vehicle.averageMonthlyKm.value != 0.0) ==>
              due.None?
  {
    var baseTime := BaselineTime(vehicle, latest);
    var kmDiff := targetKm - BaselineOdometer(vehicle, latest);
    if kmDiff <= 0 then DateFromWholeNumber(baseTime); DateFromNumber(baseTime as real)
    else ProjectDate(baseTime, kmDiff, vehicle.averageMonthlyKm)
  }

  /** For a positive rate, a target ahead of the baseline falls due no earlier
      than the baseline time, and strictly later once the gap takes at least
      a millisecond to cover. */
  lemma DueDateAfterBaseline(latest: Option<MaintenanceRecord>, vehicle: Vehicle, targetKm: int)
    requires targetKm > BaselineOdometer(vehicle, latest)
    requires vehicle.averageMonthlyKm.Some? && vehicle.averageMonthlyKm.value > 0.0
    requires DueInRange(latest, vehicle, targetKm)
    ensures BaselineTime(vehicle, latest) <= EstimateDueDate(latest, vehicle, targetKm).value
    ensures (targetKm - BaselineOdometer(vehicle, latest)) as real * MONTH_IN_MS as real >= vehicle.averageMonthlyKm.value ==>
              BaselineTime(vehicle, latest) < EstimateDueDate(latest, vehicle, targetKm).value
  {
    var t := BaselineTime(vehicle, latest);
    var gap := targetKm - BaselineOdometer(vehicle, latest);
    var r := vehicle.averageMonthlyKm.value;
    var x := (gap as real / r) * MONTH_IN_MS as real;
    assert ProjectedTime(t, gap, r) == t as real + x;
    TravelTime(gap as real, r, MONTH_IN_MS as real, 0.0);
  }

  /** Facts about the time gap / r * m (in ms) needed to cover `gap` km at
      `r` km per month of `m` ms: it is positive, it is at least one
      millisecond when gap * m >= r, and `e` ms of travel cover at most the
      gap exactly when e is at most that time. */
  lemma TravelTime(gap: real, r: real, m: real, e: real)
    requires gap > 0.0 && r > 0.0 && m > 0.0
    ensures gap / r * m > 0.0
    ensures gap * m >= r ==> gap / r * m >= 1.0
    ensures e <= gap / r * m ==> e / m * r <= gap
    ensures e > gap / r * m ==> e / m * r > gap
  {
    var x := gap / r * m;
    assert x == (gap * m) / r;
    assert x / m * r == gap;
    if e <= x {
      assert e / m <= x / m;
      ScaleMonotonic(e / m, x / m, r);
    } else {
      assert e / m > x / m;
      ScaleStrict(x / m, e / m, r);
    }
  }

  /** The estimate at any instant, relative to the baseline, for the rate
      `rate` the estimator uses. */
  lemma EstimateFromBaseline(vehicle: Vehicle, latest: Option<MaintenanceRecord>, n: int, rate: real)
    requires EstimatorRate(vehicle, latest) == rate
    ensures EstimateCurrentKm(vehicle, latest, n)
            == BaselineOdometer(vehicle, latest) as real
               + (n - BaselineTime(vehicle, latest)) as real / MONTH_IN_MS as real * rate
  {
    EstimateDifference(vehicle, latest, BaselineTime(vehicle, latest), n);
  }

  /** The projected due date agrees with the estimator: for a positive rate
      and a baseline after the epoch, at the due date the estimate has not
      passed the target and one millisecond later it has. */
  lemma DueDateMatchesEstimate(latest: Option<MaintenanceRecord>, vehicle: Vehicle, targetKm: int)
    requires targetKm > BaselineOdometer(vehicle, latest)
    requires vehicle.averageMonthlyKm.Some? && vehicle.averageMonthlyKm.value > 0.0
    requires BaselineTime(vehicle, latest) >= 0
    requires DueInRange(latest, vehicle, targetKm)
    ensures EstimateCurrentKm(vehicle, latest, EstimateDueDate(latest, vehicle, targetKm).value) <= targetKm as real
    ensures EstimateCurrentKm(vehicle, latest, EstimateDueDate(latest, vehicle, targetKm).value + 1) > targetKm as real
  {
    DueDateBracket(latest, vehicle, targetKm);
    EstimateCrossesTargetAfter(vehicle, latest, targetKm, vehicle.averageMonthlyKm.value,
                               EstimateDueDate(latest, vehicle, targetKm).value);
  }

  /** If `d` is the time needed to cover the gap to the target, rounded down
      to a millisecond past the baseline, the estimate reaches the target
      between `d` and `d + 1`. */
  lemma EstimateCrossesTargetAfter(vehicle: Vehicle, latest: Option<MaintenanceRecord>, targetKm: int, r: real, d: int)
    requires EstimatorRate(vehicle, latest) == r && r > 0.0
    requires targetKm > BaselineOdometer(vehicle, latest)
    requires var x := (targetKm - BaselineOdometer(vehicle, latest)) as real / r * MONTH_IN_MS as real;
             (d - BaselineTime(vehicle, latest)) as real <= x < (d + 1 - BaselineTime(vehicle, latest)) as real
    ensures EstimateCurrentKm(vehicle, latest, d) <= targetKm as real
    ensures EstimateCurrentKm(vehicle, latest, d + 1) > targetKm as real
  {
    var t := BaselineTime(vehicle, latest);
    var base := BaselineOdometer(vehicle, latest);
    EstimateFromBaseline(vehicle, latest, d, r);
    EstimateFromBaseline(vehicle, latest, d + 1, r);
    TravelBracket(base as real, (targetKm - base) as real, r, MONTH_IN_MS as real,
                  (d - t) as real, (d + 1 - t) as real);
  }

  /** Travelling `e` ms covers at most the gap and `e + 1` ms more than it,
      when `e` is the travel time rounded down. */
  lemma TravelBracket(base: real, gap: real, r: real, m: real, e: real, next: real)
    requires gap > 0.0 && r > 0.0 && m > 0.0
    requires next == e + 1.0
    requires e <= gap / r * m < next
    ensures base + e / m * r <= base + gap
    ensures base + next / m * r > base + gap
  {
    TravelTime(gap, r, m, e);
    TravelTime(gap, r, m, next);
  }

  /** With a baseline after the epoch the due date is the projected instant
      rounded down to a whole millisecond. */
  lemma DueDateBracket(latest: Option<MaintenanceRecord>, vehicle: Vehicle, targetKm: int)
    requires targetKm > BaselineOdometer(vehicle, latest)
    requires vehicle.averageMonthlyKm.Some? && vehicle.averageMonthlyKm.value > 0.0
    requires BaselineTime(vehicle, latest) >= 0
    requires DueInRange(latest, vehicle, targetKm)
    ensures var t := BaselineTime(vehicle, latest);
            var d := EstimateDueDate(latest, vehicle, targetKm).value;
            var x := (targetKm - BaselineOdometer(vehicle, latest)) as real / vehicle.averageMonthlyKm.value * MONTH_IN_MS as real;
            (d - t) as real <= x < (d + 1 - t) as real
  {
    var gap := targetKm - BaselineOdometer(vehicle, latest);
    TravelTime(gap as real, vehicle.averageMonthlyKm.value, MONTH_IN_MS as real, 0.0);
  }

  lemma ScaleStrict(x: real, y: real, c: real)
    requires x < y && c > 0.0
    ensures x * c < y * c
  {
    assert y * c - x * c == (y - x) * c;
  }

  // ---------------------------------------------------------------------
  // Summary builder
  // ---------------------------------------------------------------------

  /** The estimate the summary is built from. */
  function Estimate(vehicle: Vehicle, records: seq<MaintenanceRecord>, now: int): real
  {
    EstimateCurrentKm(vehicle, Latest(records), now)
  }

  /** The due date the summary reports, if it can be rendered. */
  function DueDate(vehicle: Vehicle, records: seq<MaintenanceRecord>): Option<int> {
    EstimateDueDate(Latest(records), vehicle, NextMilestone(vehicle, records).kmMark)
  }

  /** Each milestone of the schedule, with its overdue flag taken against the
      time-extrapolated estimate. */
  function UpcomingList(schedule: Schedule, estimatedKm: real): (u: seq<UpcomingItem>)
    ensures |u| == |schedule|
    ensures forall i :: 0 <= i < |schedule| ==>
              && u[i].kmMark == schedule[i].kmMark
              && u[i].checklist == schedule[i].items
              && (u[i].overdue <==> estimatedKm >= schedule[i].kmMark as real)
  {
    seq(|schedule|, i requires 0 <= i < |schedule| =>
      UpcomingItem(schedule[i].kmMark, schedule[i].items, estimatedKm >= schedule[i].kmMark as real))
  }

  /** The whole computation. It fails only where the due date cannot be
      rendered as a date. */
  function BuildSuggestions(vehicle: Vehicle, records: seq<MaintenanceRecord>, now: int)
    : (r: Result<SuggestionSummary, SuggestionError>)
    ensures r.Err? <==> DueDate(vehicle, records).None?
    ensures r.Ok? ==>
              var s := r.value;
              var est := Estimate(vehicle, records, now);
              && s.monthlyAverageKm == vehicle.averageMonthlyKm
              && est - 0.5 < s.estimatedCurrentKm as real <= est + 0.5
              && s.nextMaintenanceKm == NextMilestone(vehicle, records).kmMark
              && s.checklist == NextMilestone(vehicle, records).items
              && s.kmToNext >= 0
              && (s.overdue <==> est >= s.nextMaintenanceKm as real)
              && (s.overdue ==> s.kmToNext == 0)
              && (!s.overdue ==> s.nextMaintenanceKm as real - est - 0.5 < s.kmToNext as real
                                   <= s.nextMaintenanceKm as real - est + 0.5)
              && s.estimatedDueDate == DueDate(vehicle, records).value
              && s.upcoming == UpcomingList(ScheduleFor(vehicle), est)
  {
    var latest := Latest(records);
    var schedule := ScheduleFor(vehicle);
    var estimatedKm := EstimateCurrentKm(vehicle, latest, now);
    var baseOdometer := BaselineOdometer(vehicle, latest);
    var nextStop := schedule[NextMilestoneIndex(schedule, baseOdometer)];
    var kmToNext := Max(0.0, nextStop.kmMark as real - estimatedKm);
    var overdue := kmToNext <= 0.0;
    match EstimateDueDate(latest, vehicle, nextStop.kmMark)
    case None => Err(InvalidTimeValue)
    case Some(due) =>
      RoundNonNegative(kmToNext);
      Ok(SuggestionSummary(
        Round(estimatedKm),
        vehicle.averageMonthlyKm,
        nextStop.kmMark,
        Round(kmToNext),
        overdue,
        due,
        nextStop.items,
        UpcomingList(schedule, estimatedKm)))
  }

  /** Exactly when the engine returns a summary: a target already reached
      needs a valid baseline time; a target ahead needs a non-zero rate and a
      projected due instant inside the range of valid Dates. */
  lemma SummarySucceedsIff(vehicle: Vehicle, records: seq<MaintenanceRecord>, now: int)
    ensures var latest := Latest(records);
            var target := NextMilestone(vehicle, records).kmMark;
            BuildSuggestions(vehicle, records, now).Ok? <==>
              if target <= BaselineOdometer(vehicle, latest) then ValidTimeValue(BaselineTime(vehicle, latest))
              else vehicle.averageMonthlyKm.Some? && vehicle.averageMonthlyKm.value != 0.0
                   && DueInRange(latest, vehicle, target)
  {
  }

  /** The overdue flags of the upcoming list form a prefix: a milestone is
      flagged only if every earlier one is. */
  lemma UpcomingOverdueIsPrefix(vehicle: Vehicle, records: seq<MaintenanceRecord>, now: int)
    requires DueDate(vehicle, records).Some?
    ensures var u := BuildSuggestions(vehicle, records, now).value.upcoming;
            forall i, j :: 0 <= i < j < |u| && u[j].overdue ==> u[i].overdue
  {
    var schedule := ScheduleFor(vehicle);
    var u := BuildSuggestions(vehicle, records, now).value.upcoming;
    assert StrictlyAscending(schedule);
    forall i, j | 0 <= i < j < |u| && u[j].overdue
      ensures u[i].overdue
    {
      assert schedule[i].kmMark < schedule[j].kmMark;
    }
  }

  /** The summary-level overdue flag agrees with the upcoming entry of the
      targeted milestone. */
  lemma OverdueMatchesUpcomingEntry(vehicle: Vehicle, records: seq<MaintenanceRecord>, now: int)
    requires DueDate(vehicle, records).Some?
    ensures var s := BuildSuggestions(vehicle, records, now).value;
            exists i :: 0 <= i < |s.upcoming| && s.upcoming[i].kmMark == s.nextMaintenanceKm
                        && s.upcoming[i].checklist == s.checklist && s.upcoming[i].overdue == s.overdue
  {
    var schedule := ScheduleFor(vehicle);
    var i := NextMilestoneIndex(schedule, BaselineOdometer(vehicle, Latest(records)));
    var s := BuildSuggestions(vehicle, records, now).value;
    assert s.upcoming[i].kmMark == s.nextMaintenanceKm;
  }

  /** Advancing "now" with the vehicle and history fixed: the outcome does not
      change from success to failure, the target and due date stay put, the
      estimate never decreases, the remaining distance never increases and
      nothing overdue stops being overdue. */
  lemma SummaryMonotonicInNow(vehicle: Vehicle, records: seq<MaintenanceRecord>, n1: int, n2: int)
    requires vehicle.averageMonthlyKm.None? || vehicle.averageMonthlyKm.value >= 0.0
    requires n1 <= n2
    ensures BuildSuggestions(vehicle, records, n1).Ok? <==> BuildSuggestions(vehicle, records, n2).Ok?
    ensures BuildSuggestions(vehicle, records, n1).Ok? ==>
              var s1 := BuildSuggestions(vehicle, records, n1).value;
              var s2 := BuildSuggestions(vehicle, records, n2).value;
              && s1.nextMaintenanceKm == s2.nextMaintenanceKm
              && s1.estimatedDueDate == s2.estimatedDueDate
              && s1.estimatedCurrentKm <= s2.estimatedCurrentKm
              && s1.kmToNext >= s2.kmToNext
              && (s1.overdue ==> s2.overdue)
              && forall i :: 0 <= i < |s1.upcoming| && s1.upcoming[i].overdue ==> s2.upcoming[i].overdue
  {
    var latest := Latest(records);
    EstimateMonotonicInNow(vehicle, latest, n1, n2);
    var e1 := EstimateCurrentKm(vehicle, latest, n1);
    var e2 := EstimateCurrentKm(vehicle, latest, n2);
    RoundMonotonic(e1, e2);
    var mark := NextMilestone(vehicle, records).kmMark as real;
    RoundMonotonic(Max(0.0, mark - e2), Max(0.0, mark - e1));
  }
}

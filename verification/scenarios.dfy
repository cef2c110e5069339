/** Worked examples of the suggestion engine on concrete vehicles, including
    its edge cases: the last milestone repeated once every mark is passed,
    zero and null rates, the asymmetry between the baseline-based target and
    the estimate-based overdue flags, and the rounding gap between `overdue`
    and a zero `kmToNext`.
 */
module Scenarios {
  import opened Outcomes
  import opened Config
  import opened Types
  import opened JsMath
  import opened Suggestions

  const DAY_IN_MS: int := 1000 * 60 * 60 * 24

  /** A new car at 0 km driven 1000 km a month, sixty days after it was
      registered and with no service yet: about 2000 km, 3000 km short of
      the 5000 km service, due five months after registration. */
  lemma NewCarAfterTwoMonths(createdAt: int)
    requires 0 <= createdAt <= MAX_TIME_VALUE - 5 * MONTH_IN_MS
    ensures var r := BuildSuggestions(Vehicle("CAR", 0, Some(1000.0), createdAt), [], createdAt + 60 * DAY_IN_MS);
            && r.Ok?
            && r.value.estimatedCurrentKm == 2000
            && r.value.nextMaintenanceKm == 5000
            && r.value.kmToNext == 3000
            && !r.value.overdue
            && r.value.estimatedDueDate == createdAt + 5 * MONTH_IN_MS
            && r.value.checklist == CAR_SCHEDULE[0].items
  {
    var v := Vehicle("CAR", 0, Some(1000.0), createdAt);
    EstimateFromBaseline(v, None, createdAt + 60 * DAY_IN_MS, 1000.0);
    assert Estimate(v, [], createdAt + 60 * DAY_IN_MS) == 2000.0;
    assert NextMilestoneIndex(CAR_SCHEDULE, 0) == 0;
    assert ProjectedTime(createdAt, 5000, 1000.0) == (createdAt + 5 * MONTH_IN_MS) as real;
  }

  /** The same car serviced at 5200 km thirty days ago: the baseline moves to
      5200 km, the next service is the first mark above it (10000 km), the
      estimate is about 6200 km and the service falls due 4.8 months after
      the last one. */
  lemma CarAfterFirstService(now: int)
    requires MONTH_IN_MS <= now <= MAX_TIME_VALUE - 4 * MONTH_IN_MS
    ensures var v := Vehicle("CAR", 0, Some(1000.0), now - 60 * DAY_IN_MS);
            var r := BuildSuggestions(v, [MaintenanceRecord(5200, now - 30 * DAY_IN_MS)], now);
            && r.Ok?
            && r.value.estimatedCurrentKm == 6200
            && r.value.nextMaintenanceKm == 10000
            && r.value.kmToNext == 3800
            && !r.value.overdue
            && r.value.estimatedDueDate == now - MONTH_IN_MS + 12_441_600_000
  {
    var v := Vehicle("CAR", 0, Some(1000.0), now - 60 * DAY_IN_MS);
    var latest := Some(MaintenanceRecord(5200, now - 30 * DAY_IN_MS));
    EstimateFromBaseline(v, latest, now, 1000.0);
    assert EstimateCurrentKm(v, latest, now) == 6200.0;
    assert NextMilestoneIndex(CAR_SCHEDULE, 5200) == 1;
    assert ProjectedTime(now - MONTH_IN_MS, 4800, 1000.0) == (now - MONTH_IN_MS + 12_441_600_000) as real;
  }

  /** A truck whose last service read 45000 km, past its highest mark: the
      engine keeps targeting the last milestone (40000 km), with nothing
      left to drive, overdue, and due at the last service date. */
  lemma TruckPastLastMark(serviceDate: int, now: int, rate: real)
    requires ValidTimeValue(serviceDate) && serviceDate <= now && rate > 0.0
    ensures var r := BuildSuggestions(Vehicle("TRUCK", 0, Some(rate), serviceDate), [MaintenanceRecord(45000, serviceDate)], now);
            && r.Ok?
            && r.value.nextMaintenanceKm == 40000
            && r.value.kmToNext == 0
            && r.value.overdue
            && r.value.estimatedDueDate == serviceDate
            && forall i :: 0 <= i < |r.value.upcoming| ==> r.value.upcoming[i].overdue
  {
    assert NextMilestoneIndex(TRUCK_SCHEDULE, 45000) == 2;
  }

  /** A stored category the table does not know is served the generic
      schedule, whose marks are 5000 and 15000 km. */
  lemma UnknownCategoryUsesGenericSchedule(vehicle: Vehicle)
    requires vehicle.category !in STORED_CATEGORIES
    ensures Marks(ScheduleFor(vehicle)) == [5000, 15000]
  {
    ProfileMarks();
  }

  /** A zero rate is not replaced by the default: without records the
      estimate stays at the initial reading at every instant, and for a
      target still ahead the due date divides by zero, so the whole call
      fails instead of producing a summary. */
  lemma ZeroRateIsNotReplaced(createdAt: int, now: int, initialOdometer: int)
    requires initialOdometer < 5000
    ensures EstimateCurrentKm(Vehicle("CAR", initialOdometer, Some(0.0), createdAt), None, now) == initialOdometer as real
    ensures BuildSuggestions(Vehicle("CAR", initialOdometer, Some(0.0), createdAt), [], now).Err?
  {
    var v := Vehicle("CAR", initialOdometer, Some(0.0), createdAt);
    EstimateFromBaseline(v, None, now, 0.0);
    if initialOdometer < 0 {
      assert NextMilestoneIndex(CAR_SCHEDULE, initialOdometer) == 0;
    }
    assert NextMilestone(v, []).kmMark > initialOdometer;
  }

  /** After a service a null rate is multiplied as zero: the estimate stays at
      the recorded reading at every instant, and a target still ahead cannot
      be dated, so the call fails. */
  lemma NullRateAfterServiceKeepsReading(serviceDate: int, now: int, odometer: int)
    requires 0 <= odometer < 5000
    ensures EstimateCurrentKm(Vehicle("CAR", 0, None, serviceDate), Some(MaintenanceRecord(odometer, serviceDate)), now)
            == odometer as real
    ensures BuildSuggestions(Vehicle("CAR", 0, None, serviceDate), [MaintenanceRecord(odometer, serviceDate)], now).Err?
  {
    var v := Vehicle("CAR", 0, None, serviceDate);
    var latest := Some(MaintenanceRecord(odometer, serviceDate));
    EstimateFromBaseline(v, latest, now, 0.0);
    assert NextMilestone(v, [MaintenanceRecord(odometer, serviceDate)]).kmMark > odometer;
  }

  /** `overdue` compares the unrounded gap: an estimate 0.3 km short of the
      target reports a rounded `kmToNext` of 0 while `overdue` stays false.
      So a zero `kmToNext` does not imply `overdue`, although the converse
      holds (BuildSuggestions). */
  lemma ZeroKmToNextWithoutOverdue()
    ensures var r := BuildSuggestions(Vehicle("CAR", 0, Some(1000.0), 0), [], 12_959_222_400);
            r.Ok? && r.value.kmToNext == 0 && !r.value.overdue
  {
    var v := Vehicle("CAR", 0, Some(1000.0), 0);
    EstimateFromBaseline(v, None, 12_959_222_400, 1000.0);
    assert Estimate(v, [], 12_959_222_400) == 4999.7;
    assert NextMilestoneIndex(CAR_SCHEDULE, 0) == 0;
  }

  /** The target is chosen from the recorded reading, the overdue flags from
      the estimate: a car never serviced, six months after registration at
      1000 km a month, is still sent to its 5000 km service, which both the
      summary and the upcoming list already flag as overdue, while the
      10000 km entry is not. */
  lemma TargetChosenFromBaselineFlaggedFromEstimate()
    ensures var r := BuildSuggestions(Vehicle("CAR", 0, Some(1000.0), 0), [], 6 * MONTH_IN_MS);
            && r.Ok?
            && r.value.estimatedCurrentKm == 6000
            && r.value.nextMaintenanceKm == 5000
            && r.value.overdue
            && r.value.upcoming[0].overdue
            && !r.value.upcoming[1].overdue
  {
    var v := Vehicle("CAR", 0, Some(1000.0), 0);
    EstimateFromBaseline(v, None, 6 * MONTH_IN_MS, 1000.0);
    assert Estimate(v, [], 6 * MONTH_IN_MS) == 6000.0;
    assert NextMilestoneIndex(CAR_SCHEDULE, 0) == 0;
  }
}

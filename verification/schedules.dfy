/**
 * Conversion of the pump's daily schedules into treatment-log profile
 * schedules. Each is an element-wise map that keeps length and order and
 * labels entry `i` with entry `i`'s start time. Formatting a start time is an
 * input (`show`); values stay in the pump's integer units (milli-units of
 * insulin, tenths of a carb ratio, mg/dL of glucose).
 */
module NightscoutSchedules {
  import opened Wrappers

  /** Offset of a schedule entry from midnight, kept abstract. */
  type TimeOfDay = int

  /** One profile-schedule entry: formatted start time and value. */
  datatype TimeValue = TimeValue(time: string, value: int)

  type Schedule = seq<TimeValue>

  datatype BasalRate = BasalRate(start: TimeOfDay, rate: int)

  datatype CarbUnits = Grams | Exchanges

  datatype CarbRatio = CarbRatio(start: TimeOfDay, ratio: int, units: CarbUnits)

  datatype InsulinSensitivity = InsulinSensitivity(start: TimeOfDay, sensitivity: int)

  datatype GlucoseTarget = GlucoseTarget(start: TimeOfDay, low: int, high: int)

  /** The panic message of a carb-ratio schedule not in grams. */
  const CarbUnitsError: string := "carb units must be grams"

  /** Builds a schedule with entry `i` made from `sched[i]`, one entry at a time. */
  method Tabulate<E>(sched: seq<E>, time: E -> string, value: E -> int) returns (tv: Schedule)
    ensures |tv| == |sched|
    ensures forall i :: 0 <= i < |sched| ==> tv[i] == TimeValue(time(sched[i]), value(sched[i]))
  {
    tv := [];
    var i := 0;
    while i < |sched|
      invariant 0 <= i <= |sched|
      invariant |tv| == i
      invariant forall j :: 0 <= j < i ==> tv[j] == TimeValue(time(sched[j]), value(sched[j]))
    {
      tv := tv + [TimeValue(time(sched[i]), value(sched[i]))];
      i := i + 1;
    }
  }

  method BasalRateSchedule(sched: seq<BasalRate>, show: TimeOfDay -> string) returns (tv: Schedule)
    ensures |tv| == |sched|
    ensures forall i :: 0 <= i < |sched| ==> tv[i].time == show(sched[i].start) && tv[i].value == sched[i].rate
  {
    tv := Tabulate(sched, (e: BasalRate) => show(e.start), (e: BasalRate) => e.rate);
  }

  /** Fails exactly when the schedule is non-empty and its first entry is not in grams. */
  method CarbRatioSchedule(sched: seq<CarbRatio>, show: TimeOfDay -> string) returns (r: Result<Schedule, string>)
    ensures r.Failure? <==> |sched| != 0 && sched[0].units != Grams
    ensures r.Failure? ==> r.error == CarbUnitsError
    ensures r.Success? ==> |r.value| == |sched|
    ensures r.Success? ==>
              forall i :: 0 <= i < |sched| ==> r.value[i].time == show(sched[i].start) && r.value[i].value == sched[i].ratio
  {
    if |sched| != 0 && sched[0].units != Grams {
      return Failure(CarbUnitsError);
    }
    var tv := Tabulate(sched, (e: CarbRatio) => show(e.start), (e: CarbRatio) => e.ratio);
    return Success(tv);
  }

  method InsulinSensitivitySchedule(sched: seq<InsulinSensitivity>, show: TimeOfDay -> string) returns (tv: Schedule)
    ensures |tv| == |sched|
    ensures forall i :: 0 <= i < |sched| ==>
              tv[i].time == show(sched[i].start) && tv[i].value == sched[i].sensitivity
  {
    tv := Tabulate(sched, (e: InsulinSensitivity) => show(e.start), (e: InsulinSensitivity) => e.sensitivity);
  }

  /** Splits a target schedule into a low and a high schedule that share start times index-wise. */
  method GlucoseTargetSchedule(sched: seq<GlucoseTarget>, show: TimeOfDay -> string) returns (low: Schedule, high: Schedule)
    ensures |low| == |sched| && |high| == |sched|
    ensures forall i :: 0 <= i < |sched| ==> low[i].time == show(sched[i].start) && high[i].time == low[i].time
    ensures forall i :: 0 <= i < |sched| ==> low[i].value == sched[i].low && high[i].value == sched[i].high
  {
    low, high := [], [];
    var i := 0;
    while i < |sched|
      invariant 0 <= i <= |sched|
      invariant |low| == i && |high| == i
      invariant forall j :: 0 <= j < i ==> low[j] == TimeValue(show(sched[j].start), sched[j].low)
      invariant forall j :: 0 <= j < i ==> high[j] == TimeValue(show(sched[j].start), sched[j].high)
    {
      var t := show(sched[i].start);
      low := low + [TimeValue(t, sched[i].low)];
      high := high + [TimeValue(t, sched[i].high)];
      i := i + 1;
    }
  }
}

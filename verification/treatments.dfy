/**
 * Translation of decoded pump history records into treatment-log entries.
 * The records are visited left to right; each may look at the record right
 * after it. Insulin stays in integer milli-units and durations in integer
 * nanoseconds; the conversion of insulin to floating-point units is not
 * modelled, so every insulin value below is the milli-unit count.
 */
module NightscoutTreatments {
  import opened Wrappers

  /** A point in time, kept abstract. */
  type Time = int

  /** A span of time in nanoseconds, as Go's `time.Duration`. */
  type Duration = int

  const Minute: Duration := 60_000_000_000

  /** The duration a suspend is logged with: one day, in minutes. */
  const MinutesPerDay: int := 24 * 60

  const BgCheckEvent: string := "BG Check"
  const TempBasalEvent: string := "Temp Basal"
  const MealBolusEvent: string := "Meal Bolus"
  const SiteChangeEvent: string := "Site Change"
  const GlucoseUnits: string := "mg/dl"

  /** The record types the translation distinguishes; all others are `OtherRecord`. */
  datatype RecordType =
    | BGCapture
    | TempBasalRate
    | TempBasalDuration
    | Bolus
    | Rewind
    | Prime
    | ResumePump
    | SuspendPump
    | OtherRecord(code: int)

  datatype BolusInfo = BolusInfo(amount: int, duration: Duration)

  /**
   * One decoded history record. Only the fields the translation reads are
   * kept; each is meaningful only for the record types that carry it.
   */
  datatype HistoryRecord = HistoryRecord(
    kind: RecordType,
    time: Time,
    insulin: int,
    duration: Duration,
    glucose: int,
    bolus: BolusInfo)

  /** A treatment-log entry; absent optional fields are `None`, an unset string is "". */
  datatype Treatment = Treatment(
    createdAt: Time,
    enteredBy: string,
    eventType: string,
    glucose: Option<int>,
    units: string,
    absolute: Option<int>,
    insulin: Option<int>,
    duration: Option<int>)

  /** Go's integer division of a duration by one minute, truncating toward zero. */
  function WholeMinutes(d: Duration): (m: int)
    ensures 0 <= d ==> 0 <= m && m * Minute <= d < m * Minute + Minute
    ensures d < 0 ==> m <= 0 && m * Minute - Minute < d <= m * Minute
  {
    if 0 <= d then d / Minute else -((-d) / Minute)
  }

  /** The record after position `i`, if there is one. */
  function Lookahead(records: seq<HistoryRecord>, i: nat): (next: Option<HistoryRecord>)
    requires i < |records|
    ensures next.Some? <==> i + 1 < |records|
    ensures next.Some? ==> next.value == records[i + 1]
  {
    if i + 1 < |records| then Some(records[i + 1]) else None
  }

  /** Whether the following record exists and has type `t`. */
  function NextEvent(next: Option<HistoryRecord>, t: RecordType): (b: bool)
  {
    match next
    case None => false
    case Some(r2) => r2.kind == t
  }

  /** The fields every treatment starts with. */
  function Blank(user: string, r: HistoryRecord): Treatment
  {
    Treatment(r.time, user, "", None, "", None, None, None)
  }

  /**
   * The treatment one record yields, given the record after it, or `None`
   * when the record is dropped.
   */
  function Convert(user: string, r: HistoryRecord, next: Option<HistoryRecord>): (t: Option<Treatment>)
    ensures t.Some? ==> t.value.createdAt == r.time && t.value.enteredBy == user
  {
    var info := Blank(user, r);
    match r.kind
    case BGCapture =>
      Some(info.(eventType := BgCheckEvent, glucose := Some(r.glucose), units := GlucoseUnits))
    case TempBasalRate =>
      if !NextEvent(next, TempBasalDuration) then None
      else if next.value.duration == 0 then
        Some(info.(eventType := TempBasalEvent, absolute := Some(0), duration := Some(0)))
      else
        Some(info.(eventType := TempBasalEvent, absolute := Some(r.insulin),
                   duration := Some(WholeMinutes(next.value.duration))))
    case Bolus =>
      Some(info.(eventType := MealBolusEvent, insulin := Some(r.bolus.amount),
                 duration := Some(WholeMinutes(r.bolus.duration))))
    case Rewind =>
      if !NextEvent(next, Prime) then None
      else Some(info.(eventType := SiteChangeEvent))
    case ResumePump =>
      Some(info.(eventType := TempBasalEvent, absolute := Some(0), duration := Some(0)))
    case SuspendPump =>
      Some(info.(eventType := TempBasalEvent, absolute := Some(0), duration := Some(MinutesPerDay)))
    case _ => None
  }

  /** The conversion of record `i`, looking at record `i + 1`. */
  function ConvertAt(user: string, records: seq<HistoryRecord>, i: nat): Option<Treatment>
    requires i < |records|
  {
    Convert(user, records[i], Lookahead(records, i))
  }

  /** No glucose reading is attached: glucose absent and units unset. */
  predicate NoGlucose(t: Treatment)
  {
    t.glucose.None? && t.units == ""
  }

  /**
   * The fixed field values of each kind of treatment, and the partner a
   * temp-basal rate or a rewind needs in order to yield one. Every field a
   * kind does not set stays absent or empty.
   */
  lemma ConvertFields(user: string, r: HistoryRecord, next: Option<HistoryRecord>)
    ensures var t := Convert(user, r, next);
            r.kind == BGCapture ==>
              t.Some? && t.value.eventType == BgCheckEvent
              && t.value.glucose == Some(r.glucose) && t.value.units == GlucoseUnits
              && t.value.absolute.None? && t.value.insulin.None? && t.value.duration.None?
    ensures var t := Convert(user, r, next);
            r.kind == TempBasalRate ==>
              (t.Some? <==> next.Some? && next.value.kind == TempBasalDuration)
    ensures var t := Convert(user, r, next);
            r.kind == TempBasalRate && t.Some? ==>
              t.value.eventType == TempBasalEvent
              && NoGlucose(t.value) && t.value.insulin.None?
              && (next.value.duration == 0 ==> t.value.absolute == Some(0) && t.value.duration == Some(0))
              && (next.value.duration != 0 ==>
                    t.value.absolute == Some(r.insulin)
                    && t.value.duration == Some(WholeMinutes(next.value.duration)))
    ensures var t := Convert(user, r, next);
            r.kind == Bolus ==>
              t.Some? && t.value.eventType == MealBolusEvent
              && NoGlucose(t.value) && t.value.absolute.None?
              && t.value.insulin == Some(r.bolus.amount)
              && t.value.duration == Some(WholeMinutes(r.bolus.duration))
    ensures var t := Convert(user, r, next);
            r.kind == Rewind ==>
              (t.Some? <==> next.Some? && next.value.kind == Prime)
              && (t.Some? ==>
                    t.value.eventType == SiteChangeEvent && NoGlucose(t.value)
                    && t.value.absolute.None? && t.value.insulin.None? && t.value.duration.None?)
    ensures var t := Convert(user, r, next);
            r.kind == ResumePump ==>
              t.Some? && t.value.eventType == TempBasalEvent
              && NoGlucose(t.value) && t.value.insulin.None?
              && t.value.absolute == Some(0) && t.value.duration == Some(0)
    ensures var t := Convert(user, r, next);
            r.kind == SuspendPump ==>
              t.Some? && t.value.eventType == TempBasalEvent
              && NoGlucose(t.value) && t.value.insulin.None?
              && t.value.absolute == Some(0) && t.value.duration == Some(MinutesPerDay)
    ensures r.kind.TempBasalDuration? || r.kind.Prime? || r.kind.OtherRecord? ==>
              Convert(user, r, next).None?
  {
  }

  /** `NextEvent` on record `i`'s lookahead holds exactly when record `i + 1` exists and has type `t`. */
  lemma NextEventAt(records: seq<HistoryRecord>, i: nat, t: RecordType)
    requires i < |records|
    ensures NextEvent(Lookahead(records, i), t) <==> i + 1 < |records| && records[i + 1].kind == t
  {
  }

  /** What record `i` appends to the log: its treatment, or nothing. */
  function Emitted(user: string, records: seq<HistoryRecord>, i: nat): (ts: seq<Treatment>)
    requires i < |records|
    ensures |ts| <= 1
    ensures forall k :: 0 <= k < |ts| ==> ts[k].createdAt == records[i].time && ts[k].enteredBy == user
  {
    match ConvertAt(user, records, i)
    case None => []
    case Some(t) => [t]
  }

  /** The treatments of `records[i..]`, each record looking ahead into the whole list. */
  function TreatmentsFrom(user: string, records: seq<HistoryRecord>, i: nat): (ts: seq<Treatment>)
    requires i <= |records|
    ensures |ts| <= |records| - i
    ensures forall k :: 0 <= k < |ts| ==> ts[k].enteredBy == user
    decreases |records| - i
  {
    if i == |records| then [] else Emitted(user, records, i) + TreatmentsFrom(user, records, i + 1)
  }

  /** The treatment log of a list of history records, entered by `user`. */
  function Treatments(user: string, records: seq<HistoryRecord>): (ts: seq<Treatment>)
    ensures |ts| <= |records|
    ensures forall k :: 0 <= k < |ts| ==> ts[k].enteredBy == user
  {
    TreatmentsFrom(user, records, 0)
  }

  /**
   * Reference statement of which positions yield a treatment: the six
   * translated types, where a temp-basal rate needs a temp-basal duration
   * right after it and a rewind needs a prime right after it.
   */
  predicate Yields(records: seq<HistoryRecord>, i: nat)
    requires i < |records|
  {
    match records[i].kind
    case BGCapture => true
    case Bolus => true
    case ResumePump => true
    case SuspendPump => true
    case TempBasalRate => i + 1 < |records| && records[i + 1].kind == TempBasalDuration
    case Rewind => i + 1 < |records| && records[i + 1].kind == Prime
    case _ => false
  }

  /** The positions from `i` on that yield a treatment, in increasing order. */
  function OriginsFrom(records: seq<HistoryRecord>, i: nat): (os: seq<nat>)
    requires i <= |records|
    ensures forall k :: 0 <= k < |os| ==> i <= os[k] < |records|
    decreases |records| - i
  {
    if i == |records| then []
    else if Yields(records, i) then [i] + OriginsFrom(records, i + 1)
    else OriginsFrom(records, i + 1)
  }

  /** `OriginsFrom` lists every yielding position from `i` on, and only those, in increasing order. */
  lemma {:induction false} OriginsFromExact(records: seq<HistoryRecord>, i: nat)
    requires i <= |records|
    ensures forall k :: 0 <= k < |OriginsFrom(records, i)| ==> Yields(records, OriginsFrom(records, i)[k])
    ensures forall k, l :: 0 <= k < l < |OriginsFrom(records, i)| ==> OriginsFrom(records, i)[k] < OriginsFrom(records, i)[l]
    ensures forall j :: i <= j < |records| && Yields(records, j) ==> j in OriginsFrom(records, i)
    decreases |records| - i
  {
    if i < |records| {
      OriginsFromExact(records, i + 1);
      var os := OriginsFrom(records, i + 1);
      if Yields(records, i) {
        var os' := [i] + os;
        assert OriginsFrom(records, i) == os';
        forall k | 1 <= k < |os'|
          ensures os'[k] == os[k - 1] && Yields(records, os'[k])
        {
        }
      }
    }
  }

  /** The positions of `records` that yield a treatment, in increasing order. */
  function Origins(records: seq<HistoryRecord>): (os: seq<nat>)
    ensures forall k :: 0 <= k < |os| ==> os[k] < |records| && Yields(records, os[k])
    ensures forall k, l :: 0 <= k < l < |os| ==> os[k] < os[l]
    ensures forall j :: 0 <= j < |records| && Yields(records, j) ==> j in os
  {
    OriginsFromExact(records, 0);
    OriginsFrom(records, 0)
  }

  /** `Convert` yields a treatment exactly at the positions `Yields` names. */
  lemma ConvertAgreesWithYields(user: string, records: seq<HistoryRecord>, i: nat)
    requires i < |records|
    ensures ConvertAt(user, records, i).Some? <==> Yields(records, i)
  {
  }

  /** The treatments the listed positions yield, in the order listed. */
  function TreatmentsAt(user: string, records: seq<HistoryRecord>, os: seq<nat>): seq<Treatment>
    requires forall k :: 0 <= k < |os| ==> os[k] < |records|
  {
    if os == [] then [] else Emitted(user, records, os[0]) + TreatmentsAt(user, records, os[1..])
  }

  /** Positions that all yield produce one treatment each, entry `k` coming from `os[k]`. */
  lemma {:induction false} TreatmentsAtYielding(user: string, records: seq<HistoryRecord>, os: seq<nat>)
    requires forall k :: 0 <= k < |os| ==> os[k] < |records| && Yields(records, os[k])
    ensures |TreatmentsAt(user, records, os)| == |os|
    ensures forall k :: 0 <= k < |os| ==>
              ConvertAt(user, records, os[k]).Some?
              && TreatmentsAt(user, records, os)[k] == ConvertAt(user, records, os[k]).value
  {
    if os != [] {
      TreatmentsAtYielding(user, records, os[1..]);
      var ts := TreatmentsAt(user, records, os[1..]);
      forall k | 0 <= k < |os|
        ensures ConvertAt(user, records, os[k]).Some?
      {
        ConvertAgreesWithYields(user, records, os[k]);
      }
      assert Emitted(user, records, os[0]) == [ConvertAt(user, records, os[0]).value];
      forall k | 1 <= k < |os|
        ensures TreatmentsAt(user, records, os)[k] == ConvertAt(user, records, os[k]).value
      {
        assert os[k] == os[1..][k - 1];
      }
    }
  }

  /** The treatments of the origins from `i` start with whatever record `i` appends. */
  lemma TreatmentsAtOriginsStep(user: string, records: seq<HistoryRecord>, i: nat)
    requires i < |records|
    ensures TreatmentsAt(user, records, OriginsFrom(records, i))
            == Emitted(user, records, i) + TreatmentsAt(user, records, OriginsFrom(records, i + 1))
  {
    ConvertAgreesWithYields(user, records, i);
    var os := OriginsFrom(records, i + 1);
    if Yields(records, i) {
      assert ([i] + os)[1..] == os;
    }
  }

  /** The treatments from position `i` on are exactly the treatments of the origins from `i`. */
  lemma {:induction false} TreatmentsFromMatchOrigins(user: string, records: seq<HistoryRecord>, i: nat)
    requires i <= |records|
    ensures TreatmentsFrom(user, records, i) == TreatmentsAt(user, records, OriginsFrom(records, i))
    decreases |records| - i
  {
    if i < |records| {
      TreatmentsFromMatchOrigins(user, records, i + 1);
      TreatmentsAtOriginsStep(user, records, i);
    }
  }

  /**
   * The translation keeps input order and emits at most one treatment per
   * record: entry `k` is the conversion of record `Origins(records)[k]`, the
   * origins strictly increase, and each entry is stamped with its record's time.
   */
  lemma TreatmentsInInputOrder(user: string, records: seq<HistoryRecord>)
    ensures |Treatments(user, records)| == |Origins(records)|
    ensures forall k :: 0 <= k < |Origins(records)| ==>
              ConvertAt(user, records, Origins(records)[k]).Some?
              && Treatments(user, records)[k] == ConvertAt(user, records, Origins(records)[k]).value
    ensures forall k :: 0 <= k < |Origins(records)| ==>
              Treatments(user, records)[k].createdAt == records[Origins(records)[k]].time
  {
    TreatmentsFromMatchOrigins(user, records, 0);
    TreatmentsAtYielding(user, records, Origins(records));
  }

  /**
   * A record yields a treatment exactly when its type is translated and, for
   * a temp-basal rate or a rewind, the very next record is its partner. The
   * last record therefore never pairs.
   */
  lemma PairingRule(records: seq<HistoryRecord>, i: nat)
    requires i < |records|
    ensures i in Origins(records) <==> Yields(records, i)
    ensures records[i].kind == TempBasalRate ==>
              (i in Origins(records) <==> i + 1 < |records| && records[i + 1].kind == TempBasalDuration)
    ensures records[i].kind == Rewind ==>
              (i in Origins(records) <==> i + 1 < |records| && records[i + 1].kind == Prime)
    ensures i == |records| - 1 && (records[i].kind == TempBasalRate || records[i].kind == Rewind) ==>
              i !in Origins(records)
    ensures records[i].kind.TempBasalDuration? || records[i].kind.Prime? || records[i].kind.OtherRecord? ==>
              i !in Origins(records)
  {
    var os := Origins(records);
    if i in os {
      var k :| 0 <= k < |os| && os[k] == i;
    }
  }
}

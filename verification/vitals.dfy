/** The per-period metric record. A `DailyMetrics` object of the source is an
    object whose numeric fields are all optional; here it is a map from the
    field to its value, and a field that is not in the map is `undefined`. */
module Vitals {
  import opened Wrappers
  import opened Numeric

  datatype Field =
    | Steps | AverageHeartRate | Calories | DistanceKm | SleepMinutes
    | SleepAwakeMinutes | SleepRemMinutes | SleepCoreMinutes | SleepDeepMinutes
    | ActiveMinutes | WeightKg
    | BloodPressureSystolic | BloodPressureDiastolic
    | MinSystolic | MaxSystolic | MinDiastolic | MaxDiastolic
    | MinHeartRate | MaxHeartRate
    | BloodGlucoseMgPerDl | BodyTemperatureC | OxygenSaturationPercent | RespiratoryRate

  /** Every field, so that a record can be built field by field. */
  const AllFields: set<Field> := {
    Steps, AverageHeartRate, Calories, DistanceKm, SleepMinutes,
    SleepAwakeMinutes, SleepRemMinutes, SleepCoreMinutes, SleepDeepMinutes,
    ActiveMinutes, WeightKg, BloodPressureSystolic, BloodPressureDiastolic,
    MinSystolic, MaxSystolic, MinDiastolic, MaxDiastolic, MinHeartRate, MaxHeartRate,
    BloodGlucoseMgPerDl, BodyTemperatureC, OxygenSaturationPercent, RespiratoryRate}

  lemma AllFieldsComplete(g: Field)
    ensures g in AllFields
  {
  }

  /** The metric fields of one period; absent keys are missing data. */
  type Metrics = map<Field, real>

  /** One calendar day's record, keyed by its day index. */
  datatype DailyMetrics = DailyMetrics(date: int, fields: Metrics)

  datatype Platform = Android | Ios

  /** `VitalMetrics`: the window-level summary. */
  datatype Summary = Summary(platform: Platform, fields: Metrics)

  function Get(m: Metrics, f: Field): (r: Option<real>)
    ensures r.Some? <==> f in m
    ensures r.Some? ==> r.value == m[f]
  {
    if f in m then Some(m[f]) else None
  }

  /** `(m.f ?? 0)`. */
  function GetOrZero(m: Metrics, f: Field): real
  {
    Get(m, f).GetOr(0.0)
  }

  /** Assigning an optional value: `m.f = v`, where `undefined` removes the field. */
  function Put(m: Metrics, f: Field, v: Option<real>): (r: Metrics)
    ensures Get(r, f) == v
    ensures forall g :: g != f ==> Get(r, g) == Get(m, g)
  {
    if v.Some? then m[f := v.value] else m - {f}
  }

  /** Fields the gap filler zeroes and the summary reducer adds up. */
  predicate Cumulative(f: Field)
  {
    f in {Steps, Calories, DistanceKm, SleepMinutes, ActiveMinutes}
  }

  /** The sleep-stage breakdown fields. */
  predicate SleepStage(f: Field)
  {
    f in {SleepAwakeMinutes, SleepRemMinutes, SleepCoreMinutes, SleepDeepMinutes}
  }

  /** The thirteen metric fields of `VitalMetrics` and of the store's `DailyRow`. */
  predicate RowField(f: Field)
  {
    f in {Steps, AverageHeartRate, Calories, DistanceKm, SleepMinutes, ActiveMinutes, WeightKg,
          BloodPressureSystolic, BloodPressureDiastolic, BloodGlucoseMgPerDl,
          BodyTemperatureC, OxygenSaturationPercent, RespiratoryRate}
  }

  /** The summary fields that take the first present value rather than a sum. */
  predicate PointField(f: Field)
  {
    RowField(f) && !Cumulative(f)
  }

  /** `m` restricted to the fields satisfying `keep`. */
  function Restrict(m: Metrics, keep: Field -> bool): (r: Metrics)
    ensures forall f :: Get(r, f) == (if keep(f) then Get(m, f) else None)
  {
    map f | f in m && keep(f) :: m[f]
  }

  /** `m.f = (m.f ?? 0) + v`: the running-sum rule of the cumulative metrics. */
  function AddTo(m: Metrics, f: Field, v: real): (r: Metrics)
    ensures Get(r, f) == Some(GetOrZero(m, f) + v)
    ensures forall g :: g != f ==> Get(r, g) == Get(m, g)
  {
    m[f := GetOrZero(m, f) + v]
  }

  /** `m.f = m.f != null ? combine(m.f, v) : v` for a running minimum. */
  function LowerTo(m: Metrics, f: Field, v: real): (r: Metrics)
    ensures f in m ==> Get(r, f) == Some(if m[f] <= v then m[f] else v)
    ensures f !in m ==> Get(r, f) == Some(v)
    ensures forall g :: g != f ==> Get(r, g) == Get(m, g)
  {
    m[f := if f in m && m[f] <= v then m[f] else v]
  }

  /** `m.f = m.f != null ? Math.max(m.f, v) : v` for a running maximum. */
  function RaiseTo(m: Metrics, f: Field, v: real): (r: Metrics)
    ensures f in m ==> Get(r, f) == Some(if m[f] >= v then m[f] else v)
    ensures f !in m ==> Get(r, f) == Some(v)
    ensures forall g :: g != f ==> Get(r, g) == Get(m, g)
  {
    m[f := if f in m && m[f] >= v then m[f] else v]
  }

  /** The blood-pressure rule: the displayed reading is the latest one folded,
      and the systolic and diastolic ranges widen to include it. */
  function WithBloodPressure(m: Metrics, sys: real, dia: real): (r: Metrics)
    ensures Get(r, BloodPressureSystolic) == Some(sys)
    ensures Get(r, BloodPressureDiastolic) == Some(dia)
    ensures Get(r, MinSystolic) == Some(if MinSystolic in m then Min(m[MinSystolic], sys) else sys)
    ensures Get(r, MaxSystolic) == Some(if MaxSystolic in m then Max(m[MaxSystolic], sys) else sys)
    ensures Get(r, MinDiastolic) == Some(if MinDiastolic in m then Min(m[MinDiastolic], dia) else dia)
    ensures Get(r, MaxDiastolic) == Some(if MaxDiastolic in m then Max(m[MaxDiastolic], dia) else dia)
    ensures forall g :: !BloodPressureField(g) ==> Get(r, g) == Get(m, g)
  {
    var minSys := if MinSystolic in m && m[MinSystolic] <= sys then m[MinSystolic] else sys;
    var maxSys := if MaxSystolic in m && m[MaxSystolic] >= sys then m[MaxSystolic] else sys;
    var minDia := if MinDiastolic in m && m[MinDiastolic] <= dia then m[MinDiastolic] else dia;
    var maxDia := if MaxDiastolic in m && m[MaxDiastolic] >= dia then m[MaxDiastolic] else dia;
    m[BloodPressureSystolic := sys][BloodPressureDiastolic := dia]
     [MinSystolic := minSys][MaxSystolic := maxSys][MinDiastolic := minDia][MaxDiastolic := maxDia]
  }

  /** The six fields the blood-pressure rule writes. */
  predicate BloodPressureField(f: Field)
  {
    f in {BloodPressureSystolic, BloodPressureDiastolic, MinSystolic, MaxSystolic, MinDiastolic, MaxDiastolic}
  }

  /** Which half of a blood-pressure reading. */
  datatype PressureKind = SystolicKind | DiastolicKind

  /** The field tracking the running minimum, and maximum, of one kind. */
  function LowField(kind: PressureKind): Field
  {
    match kind
    case SystolicKind => MinSystolic
    case DiastolicKind => MinDiastolic
  }

  function HighField(kind: PressureKind): Field
  {
    match kind
    case SystolicKind => MaxSystolic
    case DiastolicKind => MaxDiastolic
  }

  /** No blood-pressure range has been tracked yet. */
  predicate NoPressureRange(e: Metrics)
  {
    MinSystolic !in e && MaxSystolic !in e && MinDiastolic !in e && MaxDiastolic !in e
  }

  /** One `HourlyMetric` point of the intraday projection. */
  datatype HourlyMetric = HourlyMetric(date: int, hour: int, metricType: string, value: real, unit: string, source: string)

  /** `VitalsRangeResult`, without the display-only sleep sessions. */
  datatype RangeResult = RangeResult(platform: Platform, summary: Summary, daily: seq<DailyMetrics>, hourly: seq<HourlyMetric>)

  /** How a platform range sync settles: rejected with a reason, or resolved. */
  datatype RangeOutcome = Rejected(reason: string) | Resolved(result: RangeResult)
}

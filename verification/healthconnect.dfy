/** The Health Connect range sync: daily grouped buckets assigned per day,
    instant readings averaged per day, blood pressure folded per day, the
    gap filler, the window totals and the hourly projection. Every SDK result
    is an input; a call that threw is absorbed into "no data". */
module HealthConnect {
  import opened Wrappers
  import opened Numeric
  import opened Vitals
  import opened TimeWindow
  import Permissions

  /** The per-day map `Record<string, DailyMetrics>`, keyed by day index. */
  type DayMap = map<int, Metrics>

  /** `dailyMap[key] || { date: key }`. */
  function EntryAt(m: DayMap, k: int): Metrics
  {
    if k in m then m[k] else map[]
  }

  // ---------------------------------------------------------------------
  // Daily grouped buckets

  /** One slice of `aggregateGroupByDuration`: the day of its `startTime` and
      the aggregate read from its `result` (missing when left out). */
  datatype Bucket = Bucket(day: int, value: Option<real>)

  /** How a bucket's aggregate lands in its day's field:
      `v ?? 0` (steps, heart rate, calories, distance), `v != null ? Math.round(v / 60) : 0`
      (sleep and exercise seconds to minutes), or `v ?? existing` (weight). */
  datatype BucketRule = OrZero | MinutesOrZero | KeepWhenMissing

  function Converted(rule: BucketRule, v: Option<real>, existing: Option<real>): (r: Option<real>)
    ensures rule == OrZero ==> r == Some(v.GetOr(0.0))
    ensures rule == MinutesOrZero ==> r == Some(if v.Some? then Round(v.value / 60.0) as real else 0.0)
    ensures rule == KeepWhenMissing ==> r == OrElse(v, existing)
  {
    match rule
    case OrZero => Some(v.GetOr(0.0))
    case MinutesOrZero => Some(if v.Some? then Round(v.value / 60.0) as real else 0.0)
    case KeepWhenMissing => OrElse(v, existing)
  }

  /** One bucket lands on its own day and nowhere else. */
  function AssignBucket(m: DayMap, f: Field, rule: BucketRule, b: Bucket): (r: DayMap)
    ensures forall k :: k in r <==> k in m || k == b.day
    ensures forall k :: k != b.day ==> EntryAt(r, k) == EntryAt(m, k)
    ensures EntryAt(r, b.day) == Put(EntryAt(m, b.day), f, Converted(rule, b.value, Get(EntryAt(m, b.day), f)))
  {
    var e := EntryAt(m, b.day);
    m[b.day := Put(e, f, Converted(rule, b.value, Get(e, f)))]
  }

  /** `buckets.forEach(bucket => dailyMap[key].f = convert(bucket))`. */
  function AssignBuckets(m: DayMap, f: Field, rule: BucketRule, bs: seq<Bucket>): DayMap
  {
    if |bs| == 0 then m
    else AssignBucket(AssignBuckets(m, f, rule, bs[..|bs| - 1]), f, rule, bs[|bs| - 1])
  }

  /** The aggregates of the buckets that start on day `k`, in order. */
  function DayValues(bs: seq<Bucket>, k: int): seq<Option<real>>
  {
    if |bs| == 0 then []
    else DayValues(bs[..|bs| - 1], k) + (if bs[|bs| - 1].day == k then [bs[|bs| - 1].value] else [])
  }

  /** A day appears once a bucket starts on it; a day no bucket starts on is untouched. */
  lemma {:induction false} AssignBucketsDays(m: DayMap, f: Field, rule: BucketRule, bs: seq<Bucket>, k: int)
    ensures k in AssignBuckets(m, f, rule, bs) <==> k in m || |DayValues(bs, k)| > 0
    ensures |DayValues(bs, k)| == 0 ==> EntryAt(AssignBuckets(m, f, rule, bs), k) == EntryAt(m, k)
    decreases |bs|
  {
    if |bs| > 0 {
      AssignBucketsDays(m, f, rule, bs[..|bs| - 1], k);
    }
  }

  /** The bucket pass for field `f` leaves every other field of every day alone. */
  lemma {:induction false} AssignBucketsFrame(m: DayMap, f: Field, rule: BucketRule, bs: seq<Bucket>, k: int, g: Field)
    requires g != f
    ensures Get(EntryAt(AssignBuckets(m, f, rule, bs), k), g) == Get(EntryAt(m, k), g)
    decreases |bs|
  {
    if |bs| > 0 {
      AssignBucketsFrame(m, f, rule, bs[..|bs| - 1], k, g);
    }
  }

  /** Buckets assign rather than add: under `?? 0` and the minutes rule a day
      holds the converted aggregate of the LAST bucket starting on it. */
  lemma {:induction false} AssignBucketsLastWins(m: DayMap, f: Field, rule: BucketRule, bs: seq<Bucket>, k: int)
    requires rule != KeepWhenMissing
    requires |DayValues(bs, k)| > 0
    ensures var vs := DayValues(bs, k);
      Get(EntryAt(AssignBuckets(m, f, rule, bs), k), f) == Converted(rule, vs[|vs| - 1], None)
    decreases |bs|
  {
    var init, b := bs[..|bs| - 1], bs[|bs| - 1];
    var prev := AssignBuckets(m, f, rule, init);
    assert AssignBuckets(m, f, rule, bs) == AssignBucket(prev, f, rule, b);
    if b.day != k {
      assert DayValues(bs, k) == DayValues(init, k);
      AssignBucketsLastWins(m, f, rule, init, k);
    } else {
      var vs := DayValues(bs, k);
      assert vs == DayValues(init, k) + [b.value];
      assert Converted(rule, b.value, Get(EntryAt(prev, k), f)) == Converted(rule, b.value, None);
    }
  }

  /** Weight (`v ?? existing`): a day holds the last aggregate present among
      its buckets, else what it held before. */
  lemma {:induction false} AssignBucketsKeep(m: DayMap, f: Field, bs: seq<Bucket>, k: int)
    ensures Get(EntryAt(AssignBuckets(m, f, KeepWhenMissing, bs), k), f)
         == OrElse(LastPresent(DayValues(bs, k)), Get(EntryAt(m, k), f))
    decreases |bs|
  {
    if |bs| > 0 {
      var init := bs[..|bs| - 1];
      AssignBucketsKeep(m, f, init, k);
      if bs[|bs| - 1].day == k {
        var v := bs[|bs| - 1].value;
        var vs := DayValues(init, k) + [v];
        assert DayValues(bs, k) == vs;
        assert vs[..|vs| - 1] == DayValues(init, k);
        assert LastPresent(vs) == if v.Some? then v else LastPresent(DayValues(init, k));
      } else {
        assert DayValues(bs, k) == DayValues(init, k);
      }
    }
  }

  // ---------------------------------------------------------------------
  // Instant readings: glucose, temperature, oxygen saturation, respiratory rate

  /** A raw Health Connect record: its `startTime` and `time` (as day indices,
      missing when absent) and the reading `getValue` extracts from it. */
  datatype InstantRecord = InstantRecord(startDay: Option<int>, timeDay: Option<int>, value: Option<real>)

  /** `rec.startTime || rec.time`. */
  function Stamp(startDay: Option<int>, timeDay: Option<int>): Option<int>
  {
    OrElse(startDay, timeDay)
  }

  /** The readings that count for day `k`: stamped on `k` and with a value. */
  function Readings(rs: seq<InstantRecord>, k: int): seq<real>
  {
    if |rs| == 0 then []
    else
      var r := rs[|rs| - 1];
      Readings(rs[..|rs| - 1], k)
        + (if Stamp(r.startDay, r.timeDay) == Some(k) && r.value.Some? then [r.value.value] else [])
  }

  datatype Agg = Agg(sum: real, count: nat)

  /** The first pass of `bucketInstantRecords`: a running sum and count per day. */
  function Sums(rs: seq<InstantRecord>): map<int, Agg>
  {
    if |rs| == 0 then map[]
    else
      var s := Sums(rs[..|rs| - 1]);
      var r := rs[|rs| - 1];
      var ts := Stamp(r.startDay, r.timeDay);
      if ts.None? || r.value.None? then s
      else
        var a := if ts.value in s then s[ts.value] else Agg(0.0, 0);
        s[ts.value := Agg(a.sum + r.value.value, a.count + 1)]
  }

  lemma {:induction false} SumsAt(rs: seq<InstantRecord>, k: int)
    ensures k in Sums(rs) <==> |Readings(rs, k)| > 0
    ensures k in Sums(rs) ==> Sums(rs)[k] == Agg(Sum(Readings(rs, k)), |Readings(rs, k)|)
    decreases |rs|
  {
    if |rs| > 0 {
      SumsAt(rs[..|rs| - 1], k);
      var r := rs[|rs| - 1];
      if Stamp(r.startDay, r.timeDay) == Some(k) && r.value.Some? {
        SumsHit(rs, k);
      } else {
        SumsMiss(rs, k);
      }
    }
  }

  lemma SumsAll(rs: seq<InstantRecord>)
    ensures forall k :: k in Sums(rs) <==> |Readings(rs, k)| > 0
    ensures forall k :: k in Sums(rs) ==> Sums(rs)[k] == Agg(Sum(Readings(rs, k)), |Readings(rs, k)|)
  {
    forall k
      ensures (k in Sums(rs) <==> |Readings(rs, k)| > 0)
      ensures k in Sums(rs) ==> Sums(rs)[k] == Agg(Sum(Readings(rs, k)), |Readings(rs, k)|)
    {
      SumsAt(rs, k);
    }
  }

  /** The running sum and count of day `k` agree with its readings. */
  predicate SumsAgree(rs: seq<InstantRecord>, k: int)
  {
    && (k in Sums(rs) <==> |Readings(rs, k)| > 0)
    && (k in Sums(rs) ==> Sums(rs)[k] == Agg(Sum(Readings(rs, k)), |Readings(rs, k)|))
  }

  /** A last record read on day `k` adds its value to that day's sum and count. */
  lemma SumsHit(rs: seq<InstantRecord>, k: int)
    requires |rs| > 0 && SumsAgree(rs[..|rs| - 1], k)
    requires var r := rs[|rs| - 1]; Stamp(r.startDay, r.timeDay) == Some(k) && r.value.Some?
    ensures SumsAgree(rs, k)
  {
    var init, r := rs[..|rs| - 1], rs[|rs| - 1];
    var s := Sums(init);
    var v := r.value.value;
    assert Readings(rs, k) == Readings(init, k) + [v];
    SumSnoc(Readings(init, k), v);
    var a := if k in s then s[k] else Agg(0.0, 0);
    assert Sums(rs) == s[k := Agg(a.sum + v, a.count + 1)];
  }

  /** Any other last record leaves day `k` as it was. */
  lemma SumsMiss(rs: seq<InstantRecord>, k: int)
    requires |rs| > 0 && SumsAgree(rs[..|rs| - 1], k)
    requires var r := rs[|rs| - 1]; !(Stamp(r.startDay, r.timeDay) == Some(k) && r.value.Some?)
    ensures SumsAgree(rs, k)
  {
    var init, r := rs[..|rs| - 1], rs[|rs| - 1];
    var s := Sums(init);
    var ts := Stamp(r.startDay, r.timeDay);
    assert Readings(rs, k) == Readings(init, k);
    if ts.Some? && r.value.Some? {
      var a := if ts.value in s then s[ts.value] else Agg(0.0, 0);
      assert Sums(rs) == s[ts.value := Agg(a.sum + r.value.value, a.count + 1)];
    } else {
      assert Sums(rs) == s;
    }
  }


  /** The fields `bucketInstantRecords` may write. */
  predicate InstantField(f: Field)
  {
    f in {BloodGlucoseMgPerDl, BodyTemperatureC, OxygenSaturationPercent, RespiratoryRate}
  }

  /** `bucketInstantRecords(records, dailyMap, getValue, field)`. */
  function BucketInstantRecords(rs: seq<InstantRecord>, m: DayMap, f: Field): (r: DayMap)
    requires InstantField(f)
    // a day with readings gets their mean in `f`, and nothing else of it changes
    ensures forall k :: |Readings(rs, k)| > 0 ==> k in r && r[k] == EntryAt(m, k)[f := Mean(Readings(rs, k))]
    // a day without readings is left as it was (and not created)
    ensures forall k :: |Readings(rs, k)| == 0 ==> (k in r <==> k in m) && (k in m ==> r[k] == m[k])
  {
    var sums := Sums(rs);
    SumsAll(rs);
    var written := set k | k in sums && sums[k].count > 0;
    map k | k in m.Keys + written ::
      if k in written then EntryAt(m, k)[f := sums[k].sum / sums[k].count as real] else m[k]
  }

  // ---------------------------------------------------------------------
  // Blood pressure

  /** A raw Health Connect blood-pressure record (readings in mmHg). */
  datatype PressureRecord = PressureRecord(startDay: Option<int>, timeDay: Option<int>, systolic: real, diastolic: real)

  /** One record folds into the day it is stamped on and nowhere else. */
  function PressureStep(m: DayMap, r: PressureRecord): (r': DayMap)
    ensures forall k :: k in r' <==> k in m || Stamp(r.startDay, r.timeDay) == Some(k)
    ensures forall k :: Stamp(r.startDay, r.timeDay) == Some(k) ==>
      EntryAt(r', k) == WithBloodPressure(EntryAt(m, k), r.systolic, r.diastolic)
    ensures forall k :: Stamp(r.startDay, r.timeDay) != Some(k) ==> EntryAt(r', k) == EntryAt(m, k)
  {
    match Stamp(r.startDay, r.timeDay)
    case None => m
    case Some(k) => m[k := WithBloodPressure(EntryAt(m, k), r.systolic, r.diastolic)]
  }

  /** `bucketBPRecords(records, dailyMap)`; unstamped records are skipped. */
  function BucketPressureRecords(rs: seq<PressureRecord>, m: DayMap): DayMap
  {
    if |rs| == 0 then m
    else PressureStep(BucketPressureRecords(rs[..|rs| - 1], m), rs[|rs| - 1])
  }

  /** The records stamped on day `k`, in order. */
  function PressuresOn(rs: seq<PressureRecord>, k: int): seq<PressureRecord>
  {
    if |rs| == 0 then []
    else
      var r := rs[|rs| - 1];
      PressuresOn(rs[..|rs| - 1], k) + (if Stamp(r.startDay, r.timeDay) == Some(k) then [r] else [])
  }

  function Reading(r: PressureRecord, kind: PressureKind): real
  {
    match kind
    case SystolicKind => r.systolic
    case DiastolicKind => r.diastolic
  }

  /** The readings of one kind, in order. */
  function ReadingsOf(ps: seq<PressureRecord>, kind: PressureKind): (r: seq<real>)
    ensures |r| == |ps| && forall i :: 0 <= i < |ps| ==> r[i] == Reading(ps[i], kind)
  {
    if |ps| == 0 then [] else ReadingsOf(ps[..|ps| - 1], kind) + [Reading(ps[|ps| - 1], kind)]
  }

  /** The range rule of one record, for one kind. */
  lemma WithBloodPressureRange(e: Metrics, r: PressureRecord, kind: PressureKind)
    ensures var e' := WithBloodPressure(e, r.systolic, r.diastolic);
      var v := Reading(r, kind);
      && Get(e', LowField(kind)) == Some(if LowField(kind) in e then Min(e[LowField(kind)], v) else v)
      && Get(e', HighField(kind)) == Some(if HighField(kind) in e then Max(e[HighField(kind)], v) else v)
  {
  }

  /** The blood-pressure rule, per day: days without a stamped record and all
      fields outside the blood-pressure group are untouched. */
  lemma {:induction false} BucketPressureRecordsFrame(rs: seq<PressureRecord>, m: DayMap, k: int)
    ensures var r := BucketPressureRecords(rs, m);
      var ps := PressuresOn(rs, k);
      && (k in r <==> k in m || |ps| > 0)
      && (|ps| == 0 ==> EntryAt(r, k) == EntryAt(m, k))
      && (forall g :: !BloodPressureField(g) ==> Get(EntryAt(r, k), g) == Get(EntryAt(m, k), g))
    decreases |rs|
  {
    if |rs| > 0 {
      var init := rs[..|rs| - 1];
      BucketPressureRecordsFrame(init, m, k);
      var rec := rs[|rs| - 1];
      if Stamp(rec.startDay, rec.timeDay) == Some(k) {
        assert PressuresOn(rs, k) == PressuresOn(init, k) + [rec];
      }
    }
  }

  /** A day with stamped records shows the last of them. */
  lemma {:induction false} BucketPressureRecordsLatest(rs: seq<PressureRecord>, m: DayMap, k: int)
    requires |PressuresOn(rs, k)| > 0
    ensures var ps := PressuresOn(rs, k);
      var e := EntryAt(BucketPressureRecords(rs, m), k);
      && Get(e, BloodPressureSystolic) == Some(ps[|ps| - 1].systolic)
      && Get(e, BloodPressureDiastolic) == Some(ps[|ps| - 1].diastolic)
    decreases |rs|
  {
    var init := rs[..|rs| - 1];
    var rec := rs[|rs| - 1];
    if Stamp(rec.startDay, rec.timeDay) == Some(k) {
      assert PressuresOn(rs, k) == PressuresOn(init, k) + [rec];
    } else {
      assert PressuresOn(rs, k) == PressuresOn(init, k);
      BucketPressureRecordsLatest(init, m, k);
    }
  }

  /** A day's running minimum is the smallest reading stamped on it. */
  lemma {:induction false} BucketPressureRecordsLow(rs: seq<PressureRecord>, m: DayMap, k: int, kind: PressureKind)
    requires NoPressureRange(EntryAt(m, k))
    requires |PressuresOn(rs, k)| > 0
    ensures Get(EntryAt(BucketPressureRecords(rs, m), k), LowField(kind)) == Some(SeqMin(ReadingsOf(PressuresOn(rs, k), kind)))
    decreases |rs|
  {
    var init := rs[..|rs| - 1];
    var rec := rs[|rs| - 1];
    var ps := PressuresOn(init, k);
    var prev := BucketPressureRecords(init, m);
    assert BucketPressureRecords(rs, m) == PressureStep(prev, rec);
    if Stamp(rec.startDay, rec.timeDay) == Some(k) {
      var ps' := ps + [rec];
      assert PressuresOn(rs, k) == ps';
      assert ps'[..|ps'| - 1] == ps;
      assert ReadingsOf(ps', kind) == ReadingsOf(ps, kind) + [Reading(rec, kind)];
      assert EntryAt(BucketPressureRecords(rs, m), k) == WithBloodPressure(EntryAt(prev, k), rec.systolic, rec.diastolic);
      WithBloodPressureRange(EntryAt(prev, k), rec, kind);
      if |ps| > 0 {
        BucketPressureRecordsLow(init, m, k, kind);
        SeqMinSnoc(ReadingsOf(ps, kind), Reading(rec, kind));
      } else {
        BucketPressureRecordsFrame(init, m, k);
        assert EntryAt(prev, k) == EntryAt(m, k);
        assert ReadingsOf(ps', kind) == [Reading(rec, kind)];
      }
    } else {
      assert PressuresOn(rs, k) == ps;
      BucketPressureRecordsLow(init, m, k, kind);
    }
  }

  /** A day's running maximum is the largest reading stamped on it. */
  lemma {:induction false} BucketPressureRecordsHigh(rs: seq<PressureRecord>, m: DayMap, k: int, kind: PressureKind)
    requires NoPressureRange(EntryAt(m, k))
    requires |PressuresOn(rs, k)| > 0
    ensures Get(EntryAt(BucketPressureRecords(rs, m), k), HighField(kind)) == Some(SeqMax(ReadingsOf(PressuresOn(rs, k), kind)))
    decreases |rs|
  {
    var init := rs[..|rs| - 1];
    var rec := rs[|rs| - 1];
    var ps := PressuresOn(init, k);
    var prev := BucketPressureRecords(init, m);
    assert BucketPressureRecords(rs, m) == PressureStep(prev, rec);
    if Stamp(rec.startDay, rec.timeDay) == Some(k) {
      var ps' := ps + [rec];
      assert PressuresOn(rs, k) == ps';
      assert ps'[..|ps'| - 1] == ps;
      assert ReadingsOf(ps', kind) == ReadingsOf(ps, kind) + [Reading(rec, kind)];
      assert EntryAt(BucketPressureRecords(rs, m), k) == WithBloodPressure(EntryAt(prev, k), rec.systolic, rec.diastolic);
      WithBloodPressureRange(EntryAt(prev, k), rec, kind);
      if |ps| > 0 {
        BucketPressureRecordsHigh(init, m, k, kind);
        SeqMaxSnoc(ReadingsOf(ps, kind), Reading(rec, kind));
      } else {
        BucketPressureRecordsFrame(init, m, k);
        assert EntryAt(prev, k) == EntryAt(m, k);
        assert ReadingsOf(ps', kind) == [Reading(rec, kind)];
      }
    } else {
      assert PressuresOn(rs, k) == ps;
      BucketPressureRecordsHigh(init, m, k, kind);
    }
  }

  /** Every reading of a day lies within that day's tracked range. */
  lemma PressureWithinRange(rs: seq<PressureRecord>, m: DayMap, k: int, i: int, kind: PressureKind)
    requires NoPressureRange(EntryAt(m, k))
    requires 0 <= i < |PressuresOn(rs, k)|
    ensures var e := EntryAt(BucketPressureRecords(rs, m), k);
      && LowField(kind) in e && HighField(kind) in e
      && e[LowField(kind)] <= Reading(PressuresOn(rs, k)[i], kind) <= e[HighField(kind)]
  {
    BucketPressureRecordsLow(rs, m, k, kind);
    BucketPressureRecordsHigh(rs, m, k, kind);
    var xs := ReadingsOf(PressuresOn(rs, k), kind);
    assert xs[i] == Reading(PressuresOn(rs, k)[i], kind);
  }

  // ---------------------------------------------------------------------
  // Window averages

  /** The values of field `f` across the daily series. */
  function FieldValues(daily: seq<DailyMetrics>, f: Field): (r: seq<Option<real>>)
    ensures |r| == |daily| && forall i :: 0 <= i < |daily| ==> r[i] == Get(daily[i].fields, f)
  {
    seq(|daily|, i requires 0 <= i < |daily| => Get(daily[i].fields, f))
  }

  /** `averageFromDaily(daily, field)`: the mean over the days that have the
      field, or `undefined` when no day has it. */
  function AverageFromDaily(daily: seq<DailyMetrics>, f: Field): (r: Option<real>)
    ensures r.None? <==> forall i :: 0 <= i < |daily| ==> f !in daily[i].fields
    ensures r.Some? ==> r.value == Mean(Present(FieldValues(daily, f)))
  {
    MeanOfPresent(FieldValues(daily, f))
  }

  /** `averageBP(records, type)`: the mean reading, or `undefined` for no records. */
  function AveragePressure(rs: seq<PressureRecord>, kind: PressureKind): (r: Option<real>)
    ensures r.None? <==> |rs| == 0
    ensures r.Some? ==> r.value == Mean(seq(|rs|, i requires 0 <= i < |rs| => Reading(rs[i], kind)))
  {
    var vs := seq(|rs|, i requires 0 <= i < |rs| => Some(Reading(rs[i], kind)));
    var r := MeanOfPresent(vs);
    assert Present(vs) == seq(|rs|, i requires 0 <= i < |rs| => Reading(rs[i], kind)) by {
      AllPresent(vs);
    }
    assert |rs| > 0 ==> vs[0].Some?;
    r
  }

  lemma {:induction false} AllPresent(vs: seq<Option<real>>)
    requires forall i :: 0 <= i < |vs| ==> vs[i].Some?
    ensures Present(vs) == seq(|vs|, i requires 0 <= i < |vs| => vs[i].value)
    decreases |vs|
  {
    if |vs| > 0 {
      var init := vs[..|vs| - 1];
      var last := vs[|vs| - 1];
      AllPresent(init);
      assert vs == init + [last];
      PresentAppend(init, last);
      assert Present(vs) == Present(init) + [last.value];
      assert seq(|vs|, i requires 0 <= i < |vs| => vs[i].value)
          == seq(|init|, i requires 0 <= i < |init| => init[i].value) + [last.value];
    }
  }

  // ---------------------------------------------------------------------
  // Gap filler

  /** The record a filled-in day gets: cumulative metrics zero, nothing else. */
  function ZeroDay(d: int): (r: DailyMetrics)
    ensures r.date == d
    ensures forall f :: Get(r.fields, f) == (if Cumulative(f) then Some(0.0) else None)
  {
    DailyMetrics(d, map[Steps := 0.0, Calories := 0.0, DistanceKm := 0.0, SleepMinutes := 0.0, ActiveMinutes := 0.0])
  }

  /** `existing ?? { date: key, steps: 0, ... }`. */
  function DayRecord(m: DayMap, d: int): DailyMetrics
  {
    if d in m then DailyMetrics(d, m[d]) else ZeroDay(d)
  }

  /** How many times the gap filler's cursor, stepping a day at a time from
      `cursor`, is not after `end`. */
  function CursorSteps(cursor: Instant, end: Instant): nat
  {
    if !NotAfter(cursor, end) then 0
    else end.day - cursor.day + (if cursor.ms <= end.ms then 1 else 0)
  }

  /** The `while (cursor <= endDate)` loop of `fillMissingDays`, from `cursor`. */
  function FillFrom(cursor: Instant, end: Instant, m: DayMap): (r: seq<DailyMetrics>)
    ensures |r| == CursorSteps(cursor, end)
    ensures forall i :: 0 <= i < |r| ==> r[i] == DayRecord(m, cursor.day + i)
    decreases end.day - cursor.day + 1
  {
    if NotAfter(cursor, end) then
      var rest := FillFrom(AddDays(cursor, 1), end, m);
      [DayRecord(m, cursor.day)] + rest
    else []
  }

  /** `fillMissingDays(start, end, dailyMap)`. */
  function FillMissingDays(start: Instant, end: Instant, m: DayMap): (r: seq<DailyMetrics>)
    // one record per calendar day the cursor visits, in strictly ascending order
    ensures |r| == CursorSteps(start, end)
    ensures forall i :: 0 <= i < |r| ==> r[i].date == start.day + i
    ensures forall i, j :: 0 <= i < j < |r| ==> r[i].date < r[j].date
    // days with data come back as they were, the others zero-filled
    ensures forall i :: 0 <= i < |r| && r[i].date in m ==> r[i].fields == m[r[i].date]
    ensures forall i :: 0 <= i < |r| && r[i].date !in m ==> r[i] == ZeroDay(r[i].date)
  {
    FillFrom(start, end, m)
  }

  /** For a window spanning whole days the filled series has exactly one
      record per calendar day of the window. */
  lemma FillCoversWindow(w: Window, m: DayMap)
    requires w.start.ms == 0 && w.end.ms == LAST_MS && w.start.day <= w.end.day
    ensures |FillMissingDays(w.start, w.end, m)| == CalendarDays(w)
    ensures forall d :: w.start.day <= d <= w.end.day ==>
              FillMissingDays(w.start, w.end, m)[d - w.start.day] == DayRecord(m, d)
  {
  }

  // ---------------------------------------------------------------------
  // Hourly projection

  /** One slice of an hourly `aggregateGroupByDuration`: its start and aggregate. */
  datatype HourBucket = HourBucket(start: Instant, value: Option<real>)

  const MS_PER_HOUR: int := 3_600_000

  /** The five hourly series, in the order they are pushed. */
  datatype HourlySeries = StepsHourly | HeartRateHourly | CaloriesHourly | DistanceHourly | ActiveHourly

  function MetricName(k: HourlySeries): string
  {
    match k
    case StepsHourly => "steps"
    case HeartRateHourly => "heart_rate"
    case CaloriesHourly => "calories"
    case DistanceHourly => "distance"
    case ActiveHourly => "active_minutes"
  }

  function UnitName(k: HourlySeries): string
  {
    match k
    case StepsHourly => "count"
    case HeartRateHourly => "bpm"
    case CaloriesHourly => "kcal"
    case DistanceHourly => "km"
    case ActiveHourly => "min"
  }

  /** The value pushed for one hourly aggregate: `v ?? 0`, and for exercise
      time a truthy seconds total rounded to minutes, else 0. */
  function HourValue(k: HourlySeries, v: Option<real>): (r: real)
    ensures k != ActiveHourly ==> r == v.GetOr(0.0)
    ensures k == ActiveHourly && v.Some? && v.value != 0.0 ==> r == Round(v.value / 60.0) as real
    ensures k == ActiveHourly && (v.None? || v.value == 0.0) ==> r == 0.0
  {
    if k == ActiveHourly then
      if v.Some? && v.value != 0.0 then Round(v.value / 60.0) as real else 0.0
    else v.GetOr(0.0)
  }

  /** For exercise time the truthiness test agrees with the daily `!= null`
      test: a zero total gives 0 minutes either way. */
  lemma ActiveHourMatchesDailyRule(v: Option<real>)
    ensures Some(HourValue(ActiveHourly, v)) == Converted(MinutesOrZero, v, None)
  {
    if v.Some? && v.value == 0.0 {
      assert Round(0.0) == 0;
    }
  }

  /** `bucketsByHour.forEach(bucket => hourly.push({...}))` for one series:
      one point per bucket, in bucket order, on the bucket's day and hour. */
  function HourlyOf(bs: seq<HourBucket>, k: HourlySeries): (r: seq<HourlyMetric>)
    ensures |r| == |bs|
    ensures forall i :: 0 <= i < |bs| ==>
      && r[i].date == bs[i].start.day
      && 0 <= r[i].hour < 24 && r[i].hour * MS_PER_HOUR <= bs[i].start.ms < (r[i].hour + 1) * MS_PER_HOUR
      && r[i].metricType == MetricName(k) && r[i].unit == UnitName(k)
      && r[i].value == HourValue(k, bs[i].value)
      && r[i].source == "health_connect"
  {
    seq(|bs|, i requires 0 <= i < |bs| =>
      HourlyMetric(bs[i].start.day, bs[i].start.ms / MS_PER_HOUR, MetricName(k),
                   HourValue(k, bs[i].value), UnitName(k), "health_connect"))
  }

  // ---------------------------------------------------------------------
  // The range sync

  /** Everything the platform hands back for one window: the six (seven with
      weight) window totals, the instant and blood-pressure records, the
      daily buckets and the hourly buckets. Each is a call that may have thrown. */
  datatype HealthConnectData = HealthConnectData(
    steps: Call<Option<real>>, heart: Call<Option<real>>, calories: Call<Option<real>>,
    distance: Call<Option<real>>, sleep: Call<Option<real>>, active: Call<Option<real>>,
    weight: Call<Option<real>>,
    glucose: Call<seq<InstantRecord>>, temperature: Call<seq<InstantRecord>>,
    oxygen: Call<seq<InstantRecord>>, respiratory: Call<seq<InstantRecord>>,
    pressure: Call<seq<PressureRecord>>,
    stepsByDay: Call<seq<Bucket>>, heartByDay: Call<seq<Bucket>>, caloriesByDay: Call<seq<Bucket>>,
    distanceByDay: Call<seq<Bucket>>, sleepByDay: Call<seq<Bucket>>, activeByDay: Call<seq<Bucket>>,
    weightByDay: Call<seq<Bucket>>,
    stepsByHour: Call<seq<HourBucket>>, heartByHour: Call<seq<HourBucket>>,
    caloriesByHour: Call<seq<HourBucket>>, distanceByHour: Call<seq<HourBucket>>,
    activeByHour: Call<seq<HourBucket>>)

  /** One `dailyMap` pass over the grouped buckets of one field. */
  datatype Stage = Stage(field: Field, rule: BucketRule, buckets: seq<Bucket>)

  /** The passes run one after another. */
  function ApplyStages(m: DayMap, st: seq<Stage>): DayMap
  {
    if |st| == 0 then m
    else
      var s := st[|st| - 1];
      AssignBuckets(ApplyStages(m, st[..|st| - 1]), s.field, s.rule, s.buckets)
  }

  /** The grouped daily passes, in source order: steps, heart rate, calories,
      distance, then sleep and exercise in minutes. */
  function GroupedStages(d: HealthConnectData): seq<Stage>
  {
    [Stage(Steps, OrZero, ListOrEmpty(d.stepsByDay)), Stage(AverageHeartRate, OrZero, ListOrEmpty(d.heartByDay)),
     Stage(Calories, OrZero, ListOrEmpty(d.caloriesByDay)), Stage(DistanceKm, OrZero, ListOrEmpty(d.distanceByDay)),
     Stage(SleepMinutes, MinutesOrZero, ListOrEmpty(d.sleepByDay)), Stage(ActiveMinutes, MinutesOrZero, ListOrEmpty(d.activeByDay))]
  }

  function GroupedDays(d: HealthConnectData): DayMap
  {
    ApplyStages(map[], GroupedStages(d))
  }

  /** The readings-based fields folded over the grouped series: blood
      pressure, then the rest. */
  function ReadingDays(d: HealthConnectData, m: DayMap): DayMap
  {
    AfterPressure(d, BucketPressureRecords(ListOrEmpty(d.pressure), m))
  }

  /** The passes after blood pressure: the four instant vitals, then weight. */
  function AfterPressure(d: HealthConnectData, m: DayMap): DayMap
  {
    var m2 := BucketInstantRecords(ListOrEmpty(d.glucose), m, BloodGlucoseMgPerDl);
    var m3 := BucketInstantRecords(ListOrEmpty(d.temperature), m2, BodyTemperatureC);
    var m4 := BucketInstantRecords(ListOrEmpty(d.oxygen), m3, OxygenSaturationPercent);
    var m5 := BucketInstantRecords(ListOrEmpty(d.respiratory), m4, RespiratoryRate);
    AssignBuckets(m5, WeightKg, KeepWhenMissing, ListOrEmpty(d.weightByDay))
  }

  /** The complete `dailyMap` of the range sync. */
  function DailyMap(d: HealthConnectData): DayMap
  {
    ReadingDays(d, GroupedDays(d))
  }

  /** The window totals: every one of the thirteen summary fields is set. */
  function HealthConnectSummary(d: HealthConnectData, weightAccess: bool, daily: seq<DailyMetrics>): (s: Summary)
    ensures s.platform == Android
    ensures forall f :: f in s.fields <==> RowField(f)
    ensures forall f :: RowField(f) ==> Get(s.fields, f) == Some(SummaryValue(d, weightAccess, daily, f))
  {
    Summary(Android, map f | RowField(f) :: SummaryValue(d, weightAccess, daily, f))
  }

  /** One field of the window totals: a missing total reads as 0, weight
      counts only with weight access, blood pressure is averaged over the
      records and the instant vitals over the days of the filled series. */
  function SummaryValue(d: HealthConnectData, weightAccess: bool, daily: seq<DailyMetrics>, f: Field): (r: real)
    // a window total the platform returned is reported as is; one whose call
    // threw or came back without a value reads 0
    ensures f == Steps ==> r == (if d.steps.Returned? && d.steps.result.Some? then d.steps.result.value else 0.0)
    ensures f == AverageHeartRate ==> r == (if d.heart.Returned? && d.heart.result.Some? then d.heart.result.value else 0.0)
    ensures f == Calories ==> r == (if d.calories.Returned? && d.calories.result.Some? then d.calories.result.value else 0.0)
    ensures f == DistanceKm ==> r == (if d.distance.Returned? && d.distance.result.Some? then d.distance.result.value else 0.0)
    // durations arrive in seconds and are reported in rounded minutes
    ensures f == SleepMinutes ==>
      r == (if d.sleep.Returned? && d.sleep.result.Some? then Round(d.sleep.result.value / 60.0) as real else 0.0)
    ensures f == ActiveMinutes ==>
      r == (if d.active.Returned? && d.active.result.Some? then Round(d.active.result.value / 60.0) as real else 0.0)
    // weight is reported only with weight access
    ensures f == WeightKg ==>
      r == (if weightAccess && d.weight.Returned? && d.weight.result.Some? then d.weight.result.value else 0.0)
    // blood pressure is the mean reading over the window's records, 0 without records
    ensures f == BloodPressureSystolic ==>
      r == (if d.pressure.Returned? && |d.pressure.result| > 0 then Mean(ReadingsOf(d.pressure.result, SystolicKind)) else 0.0)
    ensures f == BloodPressureDiastolic ==>
      r == (if d.pressure.Returned? && |d.pressure.result| > 0 then Mean(ReadingsOf(d.pressure.result, DiastolicKind)) else 0.0)
    // an instant vital is the mean over the days that have it, 0 when none does
    ensures InstantField(f) ==> r == MeanOfPresent(FieldValues(daily, f)).GetOr(0.0)
  {
    if f == Steps then TotalSummary(d.steps)
    else if f == AverageHeartRate then TotalSummary(d.heart)
    else if f == Calories then TotalSummary(d.calories)
    else if f == DistanceKm then TotalSummary(d.distance)
    else if f == SleepMinutes then MinutesSummary(d.sleep)
    else if f == ActiveMinutes then MinutesSummary(d.active)
    else if f == WeightKg then (if weightAccess then TotalSummary(d.weight) else 0.0)
    else if f == BloodPressureSystolic then PressureSummary(ListOrEmpty(d.pressure), SystolicKind)
    else if f == BloodPressureDiastolic then PressureSummary(ListOrEmpty(d.pressure), DiastolicKind)
    else InstantSummary(daily, f)
  }

  /** `agg?.FIELD ?? 0` for a window aggregate. */
  function TotalSummary(c: Call<Option<real>>): (r: real)
    ensures r == if c.Returned? && c.result.Some? then c.result.value else 0.0
  {
    ValueOrNone(c).GetOr(0.0)
  }

  /** A duration aggregate in seconds, reported as `Math.round(total / 60)`, or 0. */
  function MinutesSummary(c: Call<Option<real>>): (r: real)
    ensures r == if c.Returned? && c.result.Some? then Round(c.result.value / 60.0) as real else 0.0
  {
    Converted(MinutesOrZero, ValueOrNone(c), None).value
  }

  /** `averageFromDaily(daily, f) ?? 0`. */
  function InstantSummary(daily: seq<DailyMetrics>, f: Field): (r: real)
    ensures r == if exists i :: 0 <= i < |daily| && f in daily[i].fields then Mean(Present(FieldValues(daily, f))) else 0.0
    ensures r == MeanOfPresent(FieldValues(daily, f)).GetOr(0.0)
  {
    AverageFromDaily(daily, f).GetOr(0.0)
  }

  /** `averageBP(bpRecords, kind) ?? 0`. */
  function PressureSummary(rs: seq<PressureRecord>, kind: PressureKind): (r: real)
    ensures r == if |rs| > 0 then Mean(ReadingsOf(rs, kind)) else 0.0
  {
    assert ReadingsOf(rs, kind) == seq(|rs|, i requires 0 <= i < |rs| => Reading(rs[i], kind));
    AveragePressure(rs, kind).GetOr(0.0)
  }

  /** The mean reading of `f` on day `k`, missing for a day without readings. */
  function DayMean(d: HealthConnectData, f: Field, k: int): Option<real>
  {
    var xs := Readings(InstantRecords(d, f), k);
    if |xs| > 0 then Some(Mean(xs)) else None
  }

  /** The mean reading of `f` on each calendar day of the window. */
  function WindowDayMeans(d: HealthConnectData, f: Field, w: Window): (r: seq<Option<real>>)
    ensures |r| == CursorSteps(w.start, w.end)
    ensures forall i :: 0 <= i < |r| ==> r[i] == DayMean(d, f, w.start.day + i)
  {
    seq(CursorSteps(w.start, w.end), i => DayMean(d, f, w.start.day + i))
  }

  /** Filling the gaps keeps a point field's column: each filled day shows
      what the map held for it, and a zero-filled day has none. */
  lemma FilledColumn(d: HealthConnectData, f: Field, w: Window, m: DayMap)
    requires InstantField(f)
    requires forall k :: Get(EntryAt(m, k), f) == DayMean(d, f, k)
    ensures FieldValues(FillMissingDays(w.start, w.end, m), f) == WindowDayMeans(d, f, w)
  {
    var daily := FillMissingDays(w.start, w.end, m);
    var means := WindowDayMeans(d, f, w);
    forall i | 0 <= i < |daily| ensures FieldValues(daily, f)[i] == means[i] {
      FilledDay(m, f, daily[i]);
    }
  }

  /** A filled day shows a point field as the map held it. */
  lemma FilledDay(m: DayMap, f: Field, row: DailyMetrics)
    requires InstantField(f)
    requires row.date in m ==> row.fields == m[row.date]
    requires row.date !in m ==> row == ZeroDay(row.date)
    ensures Get(row.fields, f) == Get(EntryAt(m, row.date), f)
  {
    if row.date !in m {
      assert !Cumulative(f);
    }
  }

  /** In the range sync's map, an instant vital is the day's mean reading. */
  lemma DailyInstantMeans(d: HealthConnectData, f: Field)
    requires InstantField(f)
    ensures forall k :: Get(EntryAt(DailyMap(d), k), f) == DayMean(d, f, k)
  {
    forall k ensures Get(EntryAt(DailyMap(d), k), f) == DayMean(d, f, k) {
      DailyInstantField(d, k, f);
    }
  }

  /** The summary's instant vital, traced back to the readings: the mean,
      over the window's days that have readings, of each day's mean reading;
      0 when no day of the window has one. */
  lemma SummaryInstantFromReadings(sdkAvailable: bool, alreadyGranted: seq<Permissions.Permission>,
                                   dialogReply: seq<Permissions.Permission>, w: Window, d: HealthConnectData, f: Field)
    requires InstantField(f)
    requires Permissions.EnsureHealthConnectPermissions(sdkAvailable, alreadyGranted, dialogReply).result.granted
    ensures SyncHealthConnectRange(sdkAvailable, alreadyGranted, dialogReply, w, d).Resolved?
    ensures Get(SyncHealthConnectRange(sdkAvailable, alreadyGranted, dialogReply, w, d).result.summary.fields, f)
            == Some(MeanOfPresent(WindowDayMeans(d, f, w)).GetOr(0.0))
  {
    var perm := Permissions.EnsureHealthConnectPermissions(sdkAvailable, alreadyGranted, dialogReply).result;
    var o := SyncHealthConnectRange(sdkAvailable, alreadyGranted, dialogReply, w, d);
    var daily := FillMissingDays(w.start, w.end, DailyMap(d));
    assert o.result.daily == daily;
    assert Get(o.result.summary.fields, f) == Some(SummaryValue(d, Permissions.HasWeightAccess(perm), daily, f));
    SummaryInstantIsColumnMean(d, Permissions.HasWeightAccess(perm), daily, f);
    DailyInstantMeans(d, f);
    FilledColumn(d, f, w, DailyMap(d));
  }

  /** An instant vital of the summary is `averageFromDaily(daily, f) ?? 0`. */
  lemma SummaryInstantIsColumnMean(d: HealthConnectData, weightAccess: bool, daily: seq<DailyMetrics>, f: Field)
    requires InstantField(f)
    ensures SummaryValue(d, weightAccess, daily, f) == MeanOfPresent(FieldValues(daily, f)).GetOr(0.0)
  {
  }

  /** The hourly projection: steps, heart rate, calories, distance, exercise. */
  function HealthConnectHourly(d: HealthConnectData): (r: seq<HourlyMetric>)
    ensures |r| == |ListOrEmpty(d.stepsByHour)| + |ListOrEmpty(d.heartByHour)| + |ListOrEmpty(d.caloriesByHour)|
                 + |ListOrEmpty(d.distanceByHour)| + |ListOrEmpty(d.activeByHour)|
    ensures forall i :: 0 <= i < |r| ==> r[i].source == "health_connect" && 0 <= r[i].hour < 24
  {
    HourlyOf(ListOrEmpty(d.stepsByHour), StepsHourly) + HourlyOf(ListOrEmpty(d.heartByHour), HeartRateHourly)
      + HourlyOf(ListOrEmpty(d.caloriesByHour), CaloriesHourly) + HourlyOf(ListOrEmpty(d.distanceByHour), DistanceHourly)
      + HourlyOf(ListOrEmpty(d.activeByHour), ActiveHourly)
  }

  const PermissionNotGranted: string :=
    "Health Connect permission not granted. Please approve the permission dialog."

  /** `syncHealthConnectRange(start, end, true)`: negotiate permissions, reject
      when not granted, else bucket the window's data per day, fill the gaps
      and total the window. */
  function SyncHealthConnectRange(sdkAvailable: bool, alreadyGranted: seq<Permissions.Permission>,
                                  dialogReply: seq<Permissions.Permission>, w: Window, d: HealthConnectData): (o: RangeOutcome)
    ensures var perm := Permissions.EnsureHealthConnectPermissions(sdkAvailable, alreadyGranted, dialogReply).result;
      && (!perm.granted <==> o == Rejected(PermissionNotGranted))
      && (perm.granted ==>
            && o.Resolved? && o.result.platform == Android
            && o.result.daily == FillMissingDays(w.start, w.end, DailyMap(d))
            && o.result.summary == HealthConnectSummary(d, Permissions.HasWeightAccess(perm), o.result.daily)
            && o.result.hourly == HealthConnectHourly(d))
  {
    var perm := Permissions.EnsureHealthConnectPermissions(sdkAvailable, alreadyGranted, dialogReply).result;
    if !perm.granted then Rejected(PermissionNotGranted)
    else
      var daily := FillMissingDays(w.start, w.end, DailyMap(d));
      Resolved(RangeResult(Android, HealthConnectSummary(d, Permissions.HasWeightAccess(perm), daily), daily,
                           HealthConnectHourly(d)))
  }

  // ---------------------------------------------------------------------
  // What the range sync's daily map holds

  /** The six fields filled from grouped daily buckets, with their buckets and rules. */
  predicate GroupedField(f: Field)
  {
    f in {Steps, AverageHeartRate, Calories, DistanceKm, SleepMinutes, ActiveMinutes}
  }

  function GroupedBuckets(d: HealthConnectData, f: Field): seq<Bucket>
  {
    match f
    case Steps => ListOrEmpty(d.stepsByDay)
    case AverageHeartRate => ListOrEmpty(d.heartByDay)
    case Calories => ListOrEmpty(d.caloriesByDay)
    case DistanceKm => ListOrEmpty(d.distanceByDay)
    case SleepMinutes => ListOrEmpty(d.sleepByDay)
    case ActiveMinutes => ListOrEmpty(d.activeByDay)
    case _ => []
  }

  function GroupedRule(f: Field): BucketRule
  {
    if f in {SleepMinutes, ActiveMinutes} then MinutesOrZero else OrZero
  }

  /** The instant records behind each instant vital. */
  function InstantRecords(d: HealthConnectData, f: Field): seq<InstantRecord>
  {
    match f
    case BloodGlucoseMgPerDl => ListOrEmpty(d.glucose)
    case BodyTemperatureC => ListOrEmpty(d.temperature)
    case OxygenSaturationPercent => ListOrEmpty(d.oxygen)
    case RespiratoryRate => ListOrEmpty(d.respiratory)
    case _ => []
  }

  /** The last pass over field `f`, if any. */
  function StageOf(st: seq<Stage>, f: Field): (r: Option<Stage>)
    ensures r.Some? ==> r.value.field == f
  {
    if |st| == 0 then None
    else if st[|st| - 1].field == f then Some(st[|st| - 1])
    else StageOf(st[..|st| - 1], f)
  }

  /** Every pass writes its own field. */
  predicate DistinctFields(st: seq<Stage>)
  {
    forall i, j :: 0 <= i < j < |st| ==> st[i].field != st[j].field
  }

  lemma {:induction false} StageOfAbsent(st: seq<Stage>, f: Field)
    requires forall i :: 0 <= i < |st| ==> st[i].field != f
    ensures StageOf(st, f).None?
    decreases |st|
  {
    if |st| > 0 {
      StageOfAbsent(st[..|st| - 1], f);
    }
  }

  /** Field `f` of day `k` after a run of passes over distinct fields: the
      last bucket of the pass over `f` on that day, converted; untouched when
      no pass is over `f` or that pass has no bucket on the day. */
  lemma {:induction false} ApplyStagesAt(m: DayMap, st: seq<Stage>, k: int, f: Field)
    requires DistinctFields(st)
    requires forall i :: 0 <= i < |st| ==> st[i].rule != KeepWhenMissing
    ensures StagesAgree(m, st, k, f)
    decreases |st|
  {
    if |st| > 0 {
      var init := st[..|st| - 1];
      assert forall i :: 0 <= i < |init| ==> init[i] == st[i];
      ApplyStagesAt(m, init, k, f);
      if st[|st| - 1].field == f {
        StagesHit(m, st, k, f);
      } else {
        StagesMiss(m, st, k, f);
      }
    }
  }

  /** What `ApplyStagesAt` promises of field `f` of day `k`. */
  predicate StagesAgree(m: DayMap, st: seq<Stage>, k: int, f: Field)
  {
    var v := Get(EntryAt(ApplyStages(m, st), k), f);
    match StageOf(st, f)
    case None => v == Get(EntryAt(m, k), f)
    case Some(s) =>
      var vs := DayValues(s.buckets, k);
      && (|vs| > 0 ==> v == Converted(s.rule, vs[|vs| - 1], None))
      && (|vs| == 0 ==> v == Get(EntryAt(m, k), f))
  }

  /** The last pass is the one over `f`. */
  lemma StagesHit(m: DayMap, st: seq<Stage>, k: int, f: Field)
    requires |st| > 0 && st[|st| - 1].field == f && st[|st| - 1].rule != KeepWhenMissing
    requires forall i :: 0 <= i < |st| - 1 ==> st[i].field != f
    requires StagesAgree(m, st[..|st| - 1], k, f)
    ensures StagesAgree(m, st, k, f)
  {
    var init, s := st[..|st| - 1], st[|st| - 1];
    var prev := ApplyStages(m, init);
    assert ApplyStages(m, st) == AssignBuckets(prev, f, s.rule, s.buckets);
    StageOfAbsent(init, f);
    AssignBucketsDays(prev, f, s.rule, s.buckets, k);
    if |DayValues(s.buckets, k)| > 0 {
      AssignBucketsLastWins(prev, f, s.rule, s.buckets, k);
    }
  }

  /** The last pass is over another field. */
  lemma StagesMiss(m: DayMap, st: seq<Stage>, k: int, f: Field)
    requires |st| > 0 && st[|st| - 1].field != f
    requires StagesAgree(m, st[..|st| - 1], k, f)
    ensures StagesAgree(m, st, k, f)
  {
    var init, s := st[..|st| - 1], st[|st| - 1];
    var prev := ApplyStages(m, init);
    assert ApplyStages(m, st) == AssignBuckets(prev, s.field, s.rule, s.buckets);
    AssignBucketsFrame(prev, s.field, s.rule, s.buckets, k, f);
  }

  /** Before the readings are folded in, a grouped field of a day holds its
      last bucket's converted aggregate, and is absent when no bucket starts
      on that day; the other fields are all absent. */
  lemma GroupedDaysAt(d: HealthConnectData, k: int, f: Field)
    ensures var vs := DayValues(GroupedBuckets(d, f), k);
      var v := Get(EntryAt(GroupedDays(d), k), f);
      && (GroupedField(f) && |vs| > 0 ==> v == Converted(GroupedRule(f), vs[|vs| - 1], None))
      && (!GroupedField(f) || |vs| == 0 ==> v.None?)
  {
    ApplyStagesAt(map[], GroupedStages(d), k, f);
    GroupedStageOf(d, f);
  }

  /** The pass over a grouped field is the one with its buckets and rule. */
  lemma GroupedStageOf(d: HealthConnectData, f: Field)
    ensures StageOf(GroupedStages(d), f) == if GroupedField(f) then Some(Stage(f, GroupedRule(f), GroupedBuckets(d, f))) else None
  {
    var st := GroupedStages(d);
    assert DistinctFields(st);
    if f == Steps { StageOfAt(st, 0); }
    else if f == AverageHeartRate { StageOfAt(st, 1); }
    else if f == Calories { StageOfAt(st, 2); }
    else if f == DistanceKm { StageOfAt(st, 3); }
    else if f == SleepMinutes { StageOfAt(st, 4); }
    else if f == ActiveMinutes { StageOfAt(st, 5); }
    else { StageOfAbsent(st, f); }
  }

  /** Among passes over distinct fields, the pass over `st[i].field` is `st[i]`. */
  lemma {:induction false} StageOfAt(st: seq<Stage>, i: int)
    requires DistinctFields(st) && 0 <= i < |st|
    ensures StageOf(st, st[i].field) == Some(st[i])
    decreases |st|
  {
    if i < |st| - 1 {
      var init := st[..|st| - 1];
      assert init[i] == st[i];
      assert DistinctFields(init) by {
        assert forall j :: 0 <= j < |init| ==> init[j] == st[j];
      }
      StageOfAt(init, i);
    }
  }

  /** One instant pass seen from field `g` of day `k`. */
  lemma InstantStage(rs: seq<InstantRecord>, m: DayMap, f: Field, k: int, g: Field)
    requires InstantField(f)
    ensures g != f ==> Get(EntryAt(BucketInstantRecords(rs, m, f), k), g) == Get(EntryAt(m, k), g)
    ensures g == f && |Readings(rs, k)| > 0 ==> Get(EntryAt(BucketInstantRecords(rs, m, f), k), g) == Some(Mean(Readings(rs, k)))
    ensures g == f && |Readings(rs, k)| == 0 ==> Get(EntryAt(BucketInstantRecords(rs, m, f), k), g) == Get(EntryAt(m, k), g)
  {
  }

  /** The readings passes leave the grouped fields alone. */
  lemma ReadingDaysFrame(d: HealthConnectData, m: DayMap, k: int, g: Field)
    requires GroupedField(g)
    ensures Get(EntryAt(ReadingDays(d, m), k), g) == Get(EntryAt(m, k), g)
  {
    var m1 := BucketPressureRecords(ListOrEmpty(d.pressure), m);
    BucketPressureRecordsFrame(ListOrEmpty(d.pressure), m, k);
    NotInstant(g);
    AfterPressureFrame(d, m1, k, g);
  }

  /** Buckets assign rather than add: in the synced daily map a grouped field
      of a day is the converted aggregate of the last bucket that starts on
      it, and absent when none does. */
  lemma DailyGroupedField(d: HealthConnectData, k: int, f: Field)
    requires GroupedField(f)
    ensures var vs := DayValues(GroupedBuckets(d, f), k);
      var v := Get(EntryAt(DailyMap(d), k), f);
      && (|vs| > 0 ==> v == Converted(GroupedRule(f), vs[|vs| - 1], None))
      && (|vs| == 0 ==> v.None?)
  {
    GroupedDaysAt(d, k, f);
    ReadingDaysFrame(d, GroupedDays(d), k, f);
  }

  /** In the synced daily map an instant vital of a day is the mean of that
      day's readings, and absent when the day has none. */
  lemma DailyInstantField(d: HealthConnectData, k: int, f: Field)
    requires InstantField(f)
    ensures var xs := Readings(InstantRecords(d, f), k);
      var v := Get(EntryAt(DailyMap(d), k), f);
      && (|xs| > 0 ==> v == Some(Mean(xs)))
      && (|xs| == 0 ==> v.None?)
  {
    var m1 := BucketPressureRecords(ListOrEmpty(d.pressure), GroupedDays(d));
    assert DailyMap(d) == AfterPressure(d, m1);
    InstantAbsentBefore(d, k, f);
    AfterPressureInstant(d, m1, k, f);
  }

  /** Neither the grouped passes nor blood pressure write an instant vital. */
  lemma InstantAbsentBefore(d: HealthConnectData, k: int, f: Field)
    requires InstantField(f)
    ensures Get(EntryAt(BucketPressureRecords(ListOrEmpty(d.pressure), GroupedDays(d)), k), f).None?
  {
    GroupedDaysAt(d, k, f);
    BucketPressureRecordsFrame(ListOrEmpty(d.pressure), GroupedDays(d), k);
  }

  /** The passes after blood pressure, seen from an instant vital that is
      still absent: exactly its own pass writes it. */
  lemma AfterPressureInstant(d: HealthConnectData, m1: DayMap, k: int, f: Field)
    requires InstantField(f) && Get(EntryAt(m1, k), f).None?
    ensures var xs := Readings(InstantRecords(d, f), k);
      Get(EntryAt(AfterPressure(d, m1), k), f) == if |xs| > 0 then Some(Mean(xs)) else None
  {
    var m2 := BucketInstantRecords(ListOrEmpty(d.glucose), m1, BloodGlucoseMgPerDl);
    var m3 := BucketInstantRecords(ListOrEmpty(d.temperature), m2, BodyTemperatureC);
    var m4 := BucketInstantRecords(ListOrEmpty(d.oxygen), m3, OxygenSaturationPercent);
    var m5 := BucketInstantRecords(ListOrEmpty(d.respiratory), m4, RespiratoryRate);
    var xs := Readings(InstantRecords(d, f), k);
    var target := if |xs| > 0 then Some(Mean(xs)) else None;
    assert Get(EntryAt(m2, k), f) == if f == BloodGlucoseMgPerDl then target else None by {
      InstantStage(ListOrEmpty(d.glucose), m1, BloodGlucoseMgPerDl, k, f);
    }
    assert Get(EntryAt(m3, k), f) == if f in {BloodGlucoseMgPerDl, BodyTemperatureC} then target else None by {
      InstantStage(ListOrEmpty(d.temperature), m2, BodyTemperatureC, k, f);
    }
    assert Get(EntryAt(m4, k), f) == if f == RespiratoryRate then None else target by {
      InstantStage(ListOrEmpty(d.oxygen), m3, OxygenSaturationPercent, k, f);
    }
    assert Get(EntryAt(m5, k), f) == target by {
      InstantStage(ListOrEmpty(d.respiratory), m4, RespiratoryRate, k, f);
    }
    AssignBucketsFrame(m5, WeightKg, KeepWhenMissing, ListOrEmpty(d.weightByDay), k, f);
  }

  /** In the synced daily map a day's weight is the last weight aggregate
      present among its buckets, and absent when there is none. */
  lemma DailyWeight(d: HealthConnectData, k: int)
    ensures Get(EntryAt(DailyMap(d), k), WeightKg) == LastPresent(DayValues(ListOrEmpty(d.weightByDay), k))
  {
    var m1 := BucketPressureRecords(ListOrEmpty(d.pressure), GroupedDays(d));
    assert DailyMap(d) == AfterPressure(d, m1);
    NoWeightBeforeWeights(d, k);
    AfterPressureWeight(d, m1, k);
    OrElseNeutral(LastPresent(DayValues(ListOrEmpty(d.weightByDay), k)));
  }

  /** Before the weight pass, no day has a weight. */
  lemma NoWeightBeforeWeights(d: HealthConnectData, k: int)
    ensures Get(EntryAt(BucketPressureRecords(ListOrEmpty(d.pressure), GroupedDays(d)), k), WeightKg).None?
  {
    var m := GroupedDays(d);
    GroupedDaysAt(d, k, WeightKg);
    BucketPressureRecordsFrame(ListOrEmpty(d.pressure), m, k);
  }

  /** The weight pass over whatever the earlier passes left. */
  lemma AfterPressureWeight(d: HealthConnectData, m: DayMap, k: int)
    ensures Get(EntryAt(AfterPressure(d, m), k), WeightKg)
         == OrElse(LastPresent(DayValues(ListOrEmpty(d.weightByDay), k)), Get(EntryAt(m, k), WeightKg))
  {
    var m2 := BucketInstantRecords(ListOrEmpty(d.glucose), m, BloodGlucoseMgPerDl);
    var m3 := BucketInstantRecords(ListOrEmpty(d.temperature), m2, BodyTemperatureC);
    var m4 := BucketInstantRecords(ListOrEmpty(d.oxygen), m3, OxygenSaturationPercent);
    var m5 := BucketInstantRecords(ListOrEmpty(d.respiratory), m4, RespiratoryRate);
    InstantStage(ListOrEmpty(d.glucose), m, BloodGlucoseMgPerDl, k, WeightKg);
    InstantStage(ListOrEmpty(d.temperature), m2, BodyTemperatureC, k, WeightKg);
    InstantStage(ListOrEmpty(d.oxygen), m3, OxygenSaturationPercent, k, WeightKg);
    InstantStage(ListOrEmpty(d.respiratory), m4, RespiratoryRate, k, WeightKg);
    AssignBucketsKeep(m5, WeightKg, ListOrEmpty(d.weightByDay), k);
  }

  /** In the synced daily map a day with blood-pressure records shows the
      last of them and the range over all of them. */
  lemma DailyPressure(d: HealthConnectData, k: int, kind: PressureKind)
    requires |PressuresOn(ListOrEmpty(d.pressure), k)| > 0
    ensures var ps := PressuresOn(ListOrEmpty(d.pressure), k);
      var e := EntryAt(DailyMap(d), k);
      && Get(e, BloodPressureSystolic) == Some(ps[|ps| - 1].systolic)
      && Get(e, BloodPressureDiastolic) == Some(ps[|ps| - 1].diastolic)
      && Get(e, LowField(kind)) == Some(SeqMin(ReadingsOf(ps, kind)))
      && Get(e, HighField(kind)) == Some(SeqMax(ReadingsOf(ps, kind)))
  {
    var m1 := BucketPressureRecords(ListOrEmpty(d.pressure), GroupedDays(d));
    assert DailyMap(d) == AfterPressure(d, m1);
    PressureDaysAt(d, k, kind);
    PressureAfterPressure(d, m1, k, BloodPressureSystolic);
    PressureAfterPressure(d, m1, k, BloodPressureDiastolic);
    PressureAfterPressure(d, m1, k, LowField(kind));
    PressureAfterPressure(d, m1, k, HighField(kind));
  }

  /** The blood-pressure pass over the grouped days, seen from a day with records. */
  lemma PressureDaysAt(d: HealthConnectData, k: int, kind: PressureKind)
    requires |PressuresOn(ListOrEmpty(d.pressure), k)| > 0
    ensures var ps := PressuresOn(ListOrEmpty(d.pressure), k);
      var e := EntryAt(BucketPressureRecords(ListOrEmpty(d.pressure), GroupedDays(d)), k);
      && Get(e, BloodPressureSystolic) == Some(ps[|ps| - 1].systolic)
      && Get(e, BloodPressureDiastolic) == Some(ps[|ps| - 1].diastolic)
      && Get(e, LowField(kind)) == Some(SeqMin(ReadingsOf(ps, kind)))
      && Get(e, HighField(kind)) == Some(SeqMax(ReadingsOf(ps, kind)))
  {
    var m := GroupedDays(d);
    assert NoPressureRange(EntryAt(m, k)) by {
      GroupedDaysAt(d, k, MinSystolic);
      GroupedDaysAt(d, k, MaxSystolic);
      GroupedDaysAt(d, k, MinDiastolic);
      GroupedDaysAt(d, k, MaxDiastolic);
    }
    BucketPressureRecordsLatest(ListOrEmpty(d.pressure), m, k);
    BucketPressureRecordsLow(ListOrEmpty(d.pressure), m, k, kind);
    BucketPressureRecordsHigh(ListOrEmpty(d.pressure), m, k, kind);
  }

  /** The grouped and the blood-pressure fields are neither instant vitals nor weight. */
  lemma NotInstant(g: Field)
    requires GroupedField(g) || BloodPressureField(g)
    ensures !InstantField(g) && g != WeightKg
  {
  }

  lemma PressureAfterPressure(d: HealthConnectData, m: DayMap, k: int, g: Field)
    requires BloodPressureField(g)
    ensures Get(EntryAt(AfterPressure(d, m), k), g) == Get(EntryAt(m, k), g)
  {
    NotInstant(g);
    AfterPressureFrame(d, m, k, g);
  }

  /** The passes after blood pressure leave alone every field but the
      instant vitals and weight. */
  lemma AfterPressureFrame(d: HealthConnectData, m: DayMap, k: int, g: Field)
    requires !InstantField(g) && g != WeightKg
    ensures Get(EntryAt(AfterPressure(d, m), k), g) == Get(EntryAt(m, k), g)
  {
    var m2 := BucketInstantRecords(ListOrEmpty(d.glucose), m, BloodGlucoseMgPerDl);
    var m3 := BucketInstantRecords(ListOrEmpty(d.temperature), m2, BodyTemperatureC);
    var m4 := BucketInstantRecords(ListOrEmpty(d.oxygen), m3, OxygenSaturationPercent);
    var m5 := BucketInstantRecords(ListOrEmpty(d.respiratory), m4, RespiratoryRate);
    InstantStage(ListOrEmpty(d.glucose), m, BloodGlucoseMgPerDl, k, g);
    InstantStage(ListOrEmpty(d.temperature), m2, BodyTemperatureC, k, g);
    InstantStage(ListOrEmpty(d.oxygen), m3, OxygenSaturationPercent, k, g);
    InstantStage(ListOrEmpty(d.respiratory), m4, RespiratoryRate, k, g);
    AssignBucketsFrame(m5, WeightKg, KeepWhenMissing, ListOrEmpty(d.weightByDay), k, g);
  }
}

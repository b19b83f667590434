/** The HealthKit range sync, first half: every sample list is bucketed into
    `dailyMap` under its sample's key (its hour when grouping hourly, else
    its day), in source order, and each entry's heart-rate sum is then
    finalized into an average. The lists are the SDK results; a failed call
    has already been absorbed into an empty list. */
module Apple {
  import opened Wrappers
  import opened Numeric
  import opened Text
  import opened Vitals
  import opened TimeWindow
  import Ordered
  import opened Grouping

  // ---------------------------------------------------------------------
  // Keys and entries

  /** The key `dateKey` gives a sample: its local hour
      (`YYYY-MM-DDTHH:00:00`) when grouping hourly, else its day. */
  datatype Period = DayPeriod(day: int) | HourPeriod(day: int, hour: int)

  const MS_PER_HOUR: int := 3_600_000

  function PeriodOf(hourly: bool, t: Instant): (p: Period)
    ensures p.day == t.day
    ensures hourly ==> p.HourPeriod? && 0 <= p.hour < 24 && p.hour * MS_PER_HOUR <= t.ms < (p.hour + 1) * MS_PER_HOUR
    ensures !hourly ==> p.DayPeriod?
  {
    if hourly then HourPeriod(t.day, t.ms / MS_PER_HOUR) else DayPeriod(t.day)
  }

  /** A `dailyMap` entry: its metrics and the `hrCount` kept beside them
      until finalization deletes it. */
  datatype Slot = Slot(fields: Metrics, hrCount: nat)

  /** `{ date: key }`. */
  const Fresh: Slot := Slot(map[], 0)

  type Table = Ordered.OMap<Period, Slot>

  // ---------------------------------------------------------------------
  // Samples

  /** A quantity sample: steps, energy, distance, exercise time, and the
      point vitals (glucose, temperature, oxygen saturation, respiratory rate). */
  datatype Sample = Sample(start: Instant, value: Option<real>)

  datatype HeartSample = HeartSample(start: Instant, value: real)

  /** A sleep sample: its interval and its stage label, when it has one. */
  datatype SleepSample = SleepSample(start: Instant, end: Instant, stage: Option<string>)

  datatype PressureSample = PressureSample(start: Instant, systolic: real, diastolic: real)

  function SampleKey(hourly: bool): Sample -> Period { (s: Sample) => PeriodOf(hourly, s.start) }
  function HeartKey(hourly: bool): HeartSample -> Period { (s: HeartSample) => PeriodOf(hourly, s.start) }
  function SleepKey(hourly: bool): SleepSample -> Period { (s: SleepSample) => PeriodOf(hourly, s.start) }
  function PressureKey(hourly: bool): PressureSample -> Period { (s: PressureSample) => PeriodOf(hourly, s.start) }

  // ---------------------------------------------------------------------
  // The per-entry rules

  /** Distance samples arrive in meters and are stored in kilometers. */
  datatype Scale = AsIs | MetersToKm

  function Scaled(u: Scale, v: real): real
  {
    match u
    case AsIs => v
    case MetersToKm => v / 1000.0
  }

  /** `entry.f = (entry.f ?? 0) + (s.value ?? 0)`, scaled. */
  function AddSample(sl: Slot, s: Sample, f: Field, u: Scale): (r: Slot)
    ensures Get(r.fields, f) == Some(GetOrZero(sl.fields, f) + Scaled(u, s.value.GetOr(0.0)))
    ensures forall g :: g != f ==> Get(r.fields, g) == Get(sl.fields, g)
    ensures r.hrCount == sl.hrCount
  {
    Slot(AddTo(sl.fields, f, Scaled(u, s.value.GetOr(0.0))), sl.hrCount)
  }

  function AddFn(f: Field, u: Scale): (Slot, Sample) -> Slot
  {
    (sl, s) => AddSample(sl, s, f, u)
  }

  /** The three fields the heart-rate rule writes. */
  predicate HeartField(f: Field)
  {
    f in {AverageHeartRate, MinHeartRate, MaxHeartRate}
  }

  /** One heart-rate sample. A falsy running sum (missing, or exactly 0)
      restarts the entry: sum and count go to 0 and the extremes to this
      sample. Then the sample is added to the sum, the count goes up and the
      extremes widen. (The extremes are present whenever the sum is truthy,
      since only this rule writes either.) */
  function HeartStep(sl: Slot, s: HeartSample): (r: Slot)
    ensures forall g :: !HeartField(g) ==> Get(r.fields, g) == Get(sl.fields, g)
    ensures GetOrZero(sl.fields, AverageHeartRate) == 0.0 ==>
      && Get(r.fields, AverageHeartRate) == Some(s.value) && r.hrCount == 1
      && Get(r.fields, MinHeartRate) == Some(s.value) && Get(r.fields, MaxHeartRate) == Some(s.value)
    ensures GetOrZero(sl.fields, AverageHeartRate) != 0.0 ==>
      && Get(r.fields, AverageHeartRate) == Some(GetOrZero(sl.fields, AverageHeartRate) + s.value)
      && r.hrCount == sl.hrCount + 1
      && Get(r.fields, MinHeartRate) == Some(if MinHeartRate in sl.fields then Min(sl.fields[MinHeartRate], s.value) else s.value)
      && Get(r.fields, MaxHeartRate) == Some(if MaxHeartRate in sl.fields then Max(sl.fields[MaxHeartRate], s.value) else s.value)
  {
    var restart := GetOrZero(sl.fields, AverageHeartRate) == 0.0;
    var base := if restart
      then Slot(sl.fields[AverageHeartRate := 0.0][MinHeartRate := s.value][MaxHeartRate := s.value], 0)
      else sl;
    var b := base.fields;
    var lo := if MinHeartRate in b then Min(b[MinHeartRate], s.value) else s.value;
    var hi := if MaxHeartRate in b then Max(b[MaxHeartRate], s.value) else s.value;
    Slot(b[AverageHeartRate := GetOrZero(b, AverageHeartRate) + s.value][MinHeartRate := lo][MaxHeartRate := hi],
         base.hrCount + 1)
  }

  /** `Math.round((endMs - startMs) / 1000 / 60)`. */
  function SleepMinutesOf(s: SleepSample): int
  {
    Round((Millis(s.end) - Millis(s.start)) as real / 60000.0)
  }

  /** The stage bucket of a sleep label, matched in this order on the
      upper-cased label: AWAKE, REM, then CORE / ASLEEP / LIGHT, then DEEP.
      A missing or empty label, or one matching none, adds to no stage. */
  function Classify(stage: Option<string>): (r: Option<Field>)
    ensures r.Some? ==> SleepStage(r.value)
    ensures (stage.None? || stage.value == "") ==> r.None?
    // first match wins: AWAKE over REM over CORE / ASLEEP / LIGHT over DEEP
    ensures stage.Some? && stage.value != "" ==>
      var n := Upper(stage.value);
      && (r == Some(SleepAwakeMinutes) <==> Contains(n, "AWAKE"))
      && (r == Some(SleepRemMinutes) <==> !Contains(n, "AWAKE") && Contains(n, "REM"))
      && (r == Some(SleepCoreMinutes) <==>
            !Contains(n, "AWAKE") && !Contains(n, "REM") &&
            (Contains(n, "CORE") || Contains(n, "ASLEEP") || Contains(n, "LIGHT")))
      && (r == Some(SleepDeepMinutes) <==>
            !Contains(n, "AWAKE") && !Contains(n, "REM") &&
            !Contains(n, "CORE") && !Contains(n, "ASLEEP") && !Contains(n, "LIGHT") && Contains(n, "DEEP"))
  {
    if stage.None? || stage.value == "" then None
    else
      var n := Upper(stage.value);
      if Contains(n, "AWAKE") then Some(SleepAwakeMinutes)
      else if Contains(n, "REM") then Some(SleepRemMinutes)
      else if Contains(n, "CORE") || Contains(n, "ASLEEP") || Contains(n, "LIGHT") then Some(SleepCoreMinutes)
      else if Contains(n, "DEEP") then Some(SleepDeepMinutes)
      else None
  }

  /** The sleep fields: the total and the four stages. */
  predicate SleepField(f: Field)
  {
    f == SleepMinutes || SleepStage(f)
  }

  /** One sleep sample: its minutes go to the total and to its stage. */
  function SleepStep(sl: Slot, s: SleepSample): (r: Slot)
    ensures Get(r.fields, SleepMinutes) == Some(GetOrZero(sl.fields, SleepMinutes) + SleepMinutesOf(s) as real)
    ensures forall g :: SleepStage(g) && Classify(s.stage) == Some(g) ==>
      Get(r.fields, g) == Some(GetOrZero(sl.fields, g) + SleepMinutesOf(s) as real)
    ensures forall g :: g != SleepMinutes && Classify(s.stage) != Some(g) ==> Get(r.fields, g) == Get(sl.fields, g)
    ensures forall g :: !SleepField(g) ==> Get(r.fields, g) == Get(sl.fields, g)
    ensures r.hrCount == sl.hrCount
  {
    var mins := SleepMinutesOf(s) as real;
    var e := AddTo(sl.fields, SleepMinutes, mins);
    match Classify(s.stage)
    case None => Slot(e, sl.hrCount)
    case Some(f) => Slot(AddTo(e, f, mins), sl.hrCount)
  }

  /** One blood-pressure sample (the same rule as on Android). */
  function PressureStep(sl: Slot, s: PressureSample): (r: Slot)
    ensures forall g :: !BloodPressureField(g) ==> Get(r.fields, g) == Get(sl.fields, g)
    ensures r.hrCount == sl.hrCount
  {
    Slot(WithBloodPressure(sl.fields, s.systolic, s.diastolic), sl.hrCount)
  }

  /** `entry.f = s.value`: the latest sample wins, a missing value included. */
  function LatestSample(sl: Slot, s: Sample, f: Field): (r: Slot)
    ensures Get(r.fields, f) == s.value
    ensures forall g :: g != f ==> Get(r.fields, g) == Get(sl.fields, g)
    ensures r.hrCount == sl.hrCount
  {
    Slot(Put(sl.fields, f, s.value), sl.hrCount)
  }

  function LatestFn(f: Field): (Slot, Sample) -> Slot
  {
    (sl, s) => LatestSample(sl, s, f)
  }

  // ---------------------------------------------------------------------
  // The fold

  /** The sample lists one range sync works on. */
  datatype AppleData = AppleData(
    steps: seq<Sample>, heartRates: seq<HeartSample>, calories: seq<Sample>, distances: seq<Sample>,
    sleeps: seq<SleepSample>, activeMinutes: seq<Sample>, weight: Option<real>,
    pressure: seq<PressureSample>, glucose: seq<Sample>, temperature: seq<Sample>,
    oxygen: seq<Sample>, respiratory: seq<Sample>)

  /** One list together with the rule that folds it into `dailyMap`. */
  datatype Batch =
    | Summed(field: Field, scale: Scale, samples: seq<Sample>)
    | Hearts(hearts: seq<HeartSample>)
    | Sleeps(sleeps: seq<SleepSample>)
    | Pressures(pressures: seq<PressureSample>)
    | Latest(field: Field, samples: seq<Sample>)

  /** The eleven lists, in the order the source folds them. */
  function Batches(d: AppleData): (bs: seq<Batch>)
    ensures |bs| == 11
  {
    [ Summed(Steps, AsIs, d.steps), Hearts(d.heartRates), Summed(Calories, AsIs, d.calories),
      Summed(DistanceKm, MetersToKm, d.distances), Sleeps(d.sleeps), Summed(ActiveMinutes, AsIs, d.activeMinutes),
      Pressures(d.pressure), Latest(BloodGlucoseMgPerDl, d.glucose), Latest(BodyTemperatureC, d.temperature),
      Latest(OxygenSaturationPercent, d.oxygen), Latest(RespiratoryRate, d.respiratory) ]
  }

  /** One list folded into the whole table. */
  function Pass(b: Batch, hourly: bool, t: Table): (r: Table)
    requires Ordered.Valid(t)
    ensures Ordered.Valid(r)
  {
    match b
    case Summed(f, u, xs) => Group(t, xs, SampleKey(hourly), Fresh, AddFn(f, u))
    case Hearts(xs) => Group(t, xs, HeartKey(hourly), Fresh, HeartStep)
    case Sleeps(xs) => Group(t, xs, SleepKey(hourly), Fresh, SleepStep)
    case Pressures(xs) => Group(t, xs, PressureKey(hourly), Fresh, PressureStep)
    case Latest(f, xs) => Group(t, xs, SampleKey(hourly), Fresh, LatestFn(f))
  }

  /** The table after folding the lists `bs`, one after another. */
  function Folded(bs: seq<Batch>, hourly: bool): (r: Table)
    ensures Ordered.Valid(r)
  {
    if |bs| == 0 then Ordered.Empty() else Pass(bs[|bs| - 1], hourly, Folded(bs[..|bs| - 1], hourly))
  }

  /** One list seen from one entry: its rule folded over the samples keyed `p`. */
  function PassAt(b: Batch, hourly: bool, p: Period, sl: Slot): Slot
  {
    match b
    case Summed(f, u, xs) => Run(sl, Only(xs, SampleKey(hourly), p), AddFn(f, u))
    case Hearts(xs) => Run(sl, Only(xs, HeartKey(hourly), p), HeartStep)
    case Sleeps(xs) => Run(sl, Only(xs, SleepKey(hourly), p), SleepStep)
    case Pressures(xs) => Run(sl, Only(xs, PressureKey(hourly), p), PressureStep)
    case Latest(f, xs) => Run(sl, Only(xs, SampleKey(hourly), p), LatestFn(f))
  }

  /** Whether a list has a sample keyed `p`. */
  predicate Hits(b: Batch, hourly: bool, p: Period)
  {
    match b
    case Summed(_, _, xs) => |Only(xs, SampleKey(hourly), p)| > 0
    case Hearts(xs) => |Only(xs, HeartKey(hourly), p)| > 0
    case Sleeps(xs) => |Only(xs, SleepKey(hourly), p)| > 0
    case Pressures(xs) => |Only(xs, PressureKey(hourly), p)| > 0
    case Latest(_, xs) => |Only(xs, SampleKey(hourly), p)| > 0
  }

  /** The entry of `p` after the lists `bs`, computed entry-wise from `sl`. */
  function SlotAfter(sl: Slot, bs: seq<Batch>, hourly: bool, p: Period): Slot
  {
    if |bs| == 0 then sl else PassAt(bs[|bs| - 1], hourly, p, SlotAfter(sl, bs[..|bs| - 1], hourly, p))
  }

  /** Some list of `bs` has a sample keyed `p`. */
  predicate HitsAny(bs: seq<Batch>, hourly: bool, p: Period)
  {
    |bs| > 0 && (Hits(bs[|bs| - 1], hourly, p) || HitsAny(bs[..|bs| - 1], hourly, p))
  }

  lemma PassIsPerKey(b: Batch, hourly: bool, t: Table, p: Period)
    requires Ordered.Valid(t)
    ensures p in Pass(b, hourly, t).entries <==> p in t.entries || Hits(b, hourly, p)
    ensures Ordered.Lookup(Pass(b, hourly, t), p, Fresh) == PassAt(b, hourly, p, Ordered.Lookup(t, p, Fresh))
  {
    match b
    case Summed(f, u, xs) => GroupAt(t, xs, SampleKey(hourly), Fresh, AddFn(f, u), p);
    case Hearts(xs) => GroupAt(t, xs, HeartKey(hourly), Fresh, HeartStep, p);
    case Sleeps(xs) => GroupAt(t, xs, SleepKey(hourly), Fresh, SleepStep, p);
    case Pressures(xs) => GroupAt(t, xs, PressureKey(hourly), Fresh, PressureStep, p);
    case Latest(f, xs) => GroupAt(t, xs, SampleKey(hourly), Fresh, LatestFn(f), p);
  }

  /** Bucketing the lists one after another is, per key, folding each rule
      over that key's samples; a key is present once some list has a sample
      under it. */
  lemma {:induction false} FoldedAt(bs: seq<Batch>, hourly: bool, p: Period)
    ensures p in Folded(bs, hourly).entries <==> HitsAny(bs, hourly, p)
    ensures Ordered.Lookup(Folded(bs, hourly), p, Fresh) == SlotAfter(Fresh, bs, hourly, p)
    decreases |bs|
  {
    if |bs| > 0 {
      FoldedAt(bs[..|bs| - 1], hourly, p);
      PassIsPerKey(bs[|bs| - 1], hourly, Folded(bs[..|bs| - 1], hourly), p);
    }
  }

  // ---------------------------------------------------------------------
  // Folding one list into one entry

  /** The scaled amounts of a sample list, a missing value counting as 0. */
  function Amounts(xs: seq<Sample>, u: Scale): (r: seq<real>)
    ensures |r| == |xs|
    ensures forall i :: 0 <= i < |xs| ==> r[i] == Scaled(u, xs[i].value.GetOr(0.0))
  {
    if |xs| == 0 then [] else Amounts(xs[..|xs| - 1], u) + [Scaled(u, xs[|xs| - 1].value.GetOr(0.0))]
  }

  /** A summed list adds the total of its amounts to the entry's field. */
  lemma {:induction false} AddRun(sl: Slot, xs: seq<Sample>, f: Field, u: Scale)
    ensures AddRunAgrees(sl, xs, f, u)
    decreases |xs|
  {
    if |xs| > 0 {
      AddRun(sl, xs[..|xs| - 1], f, u);
      AddRunStep(sl, xs, f, u);
    }
  }

  /** What `AddRun` promises of a summed run. */
  predicate AddRunAgrees(sl: Slot, xs: seq<Sample>, f: Field, u: Scale)
  {
    var r := Run(sl, xs, AddFn(f, u));
    && r.hrCount == sl.hrCount
    && (forall g :: g != f ==> Get(r.fields, g) == Get(sl.fields, g))
    && Get(r.fields, f) == if |xs| == 0 then Get(sl.fields, f) else Some(GetOrZero(sl.fields, f) + Sum(Amounts(xs, u)))
  }

  lemma AddRunStep(sl: Slot, xs: seq<Sample>, f: Field, u: Scale)
    requires |xs| > 0 && AddRunAgrees(sl, xs[..|xs| - 1], f, u)
    ensures AddRunAgrees(sl, xs, f, u)
  {
    var init, last := xs[..|xs| - 1], xs[|xs| - 1];
    var before := Run(sl, init, AddFn(f, u));
    assert Run(sl, xs, AddFn(f, u)) == AddSample(before, last, f, u);
    assert Amounts(xs, u) == Amounts(init, u) + [Scaled(u, last.value.GetOr(0.0))];
    SumSnoc(Amounts(init, u), Scaled(u, last.value.GetOr(0.0)));
  }

  /** A latest-value list leaves the last sample's value, missing or not. */
  lemma {:induction false} LatestRun(sl: Slot, xs: seq<Sample>, f: Field)
    ensures var r := Run(sl, xs, LatestFn(f));
      && r.hrCount == sl.hrCount
      && (forall g :: g != f ==> Get(r.fields, g) == Get(sl.fields, g))
      && Get(r.fields, f) == if |xs| == 0 then Get(sl.fields, f) else xs[|xs| - 1].value
    decreases |xs|
  {
    if |xs| > 0 {
      LatestRun(sl, xs[..|xs| - 1], f);
    }
  }

  function HeartValues(xs: seq<HeartSample>): (r: seq<real>)
    ensures |r| == |xs|
    ensures forall i :: 0 <= i < |xs| ==> r[i] == xs[i].value
  {
    if |xs| == 0 then [] else HeartValues(xs[..|xs| - 1]) + [xs[|xs| - 1].value]
  }

  /** Heart-rate samples leave the entry's other fields alone. */
  lemma {:induction false} HeartRunFrame(sl: Slot, xs: seq<HeartSample>, g: Field)
    requires !HeartField(g)
    ensures Get(Run(sl, xs, HeartStep).fields, g) == Get(sl.fields, g)
    decreases |xs|
  {
    if |xs| > 0 {
      HeartRunFrame(sl, xs[..|xs| - 1], g);
    }
  }

  /** Positive heart rates folded into an entry with no running sum: the
      sum, count, minimum and maximum of the samples. */
  lemma {:induction false} HeartRun(sl: Slot, xs: seq<HeartSample>)
    requires GetOrZero(sl.fields, AverageHeartRate) == 0.0
    requires forall i :: 0 <= i < |xs| ==> xs[i].value > 0.0
    requires |xs| > 0
    ensures var r := Run(sl, xs, HeartStep);
      && Get(r.fields, AverageHeartRate) == Some(Sum(HeartValues(xs)))
      && Sum(HeartValues(xs)) > 0.0
      && r.hrCount == |xs|
    decreases |xs|
  {
    var init := xs[..|xs| - 1];
    var x := xs[|xs| - 1];
    var vs := HeartValues(init);
    assert HeartValues(xs) == vs + [x.value];
    var prev := Run(sl, init, HeartStep);
    assert Run(sl, xs, HeartStep) == HeartStep(prev, x);
    if |init| > 0 {
      HeartRun(sl, init);
      assert Sum(vs + [x.value]) == Sum(vs) + x.value by {
        assert (vs + [x.value])[..|vs|] == vs;
      }
    } else {
      assert prev == sl;
      assert Sum([x.value]) == x.value by { assert [x.value][..0] == []; }
    }
  }

  /** ... and the minimum and maximum of the samples. */
  lemma {:induction false} HeartRunLow(sl: Slot, xs: seq<HeartSample>)
    requires GetOrZero(sl.fields, AverageHeartRate) == 0.0
    requires forall i :: 0 <= i < |xs| ==> xs[i].value > 0.0
    requires |xs| > 0
    ensures Get(Run(sl, xs, HeartStep).fields, MinHeartRate) == Some(SeqMin(HeartValues(xs)))
    decreases |xs|
  {
    var init := xs[..|xs| - 1];
    var x := xs[|xs| - 1];
    var vs := HeartValues(init);
    assert HeartValues(xs) == vs + [x.value];
    var prev := Run(sl, init, HeartStep);
    assert Run(sl, xs, HeartStep) == HeartStep(prev, x);
    if |init| > 0 {
      HeartRun(sl, init);
      HeartRunLow(sl, init);
      SeqMinSnoc(vs, x.value);
    } else {
      assert prev == sl;
      assert SeqMin([x.value]) == x.value;
    }
  }

  lemma {:induction false} HeartRunHigh(sl: Slot, xs: seq<HeartSample>)
    requires GetOrZero(sl.fields, AverageHeartRate) == 0.0
    requires forall i :: 0 <= i < |xs| ==> xs[i].value > 0.0
    requires |xs| > 0
    ensures Get(Run(sl, xs, HeartStep).fields, MaxHeartRate) == Some(SeqMax(HeartValues(xs)))
    decreases |xs|
  {
    var init := xs[..|xs| - 1];
    var x := xs[|xs| - 1];
    var vs := HeartValues(init);
    assert HeartValues(xs) == vs + [x.value];
    var prev := Run(sl, init, HeartStep);
    assert Run(sl, xs, HeartStep) == HeartStep(prev, x);
    if |init| > 0 {
      HeartRun(sl, init);
      HeartRunHigh(sl, init);
      SeqMaxSnoc(vs, x.value);
    } else {
      assert prev == sl;
      assert SeqMax([x.value]) == x.value;
    }
  }

  /** The total minutes of a list of sleep samples. */
  function Minutes(xs: seq<SleepSample>): real
  {
    if |xs| == 0 then 0.0 else Minutes(xs[..|xs| - 1]) + SleepMinutesOf(xs[|xs| - 1]) as real
  }

  /** The stage a sleep sample counts towards. */
  function StageKey(): SleepSample -> Option<Field>
  {
    (s: SleepSample) => Classify(s.stage)
  }

  /** Sleep samples add their minutes to the total and to their stage. */
  lemma {:induction false} SleepRunTotal(sl: Slot, xs: seq<SleepSample>)
    ensures var r := Run(sl, xs, SleepStep);
      && r.hrCount == sl.hrCount
      && (forall g :: !SleepField(g) ==> Get(r.fields, g) == Get(sl.fields, g))
      && Get(r.fields, SleepMinutes) == if |xs| == 0 then Get(sl.fields, SleepMinutes)
           else Some(GetOrZero(sl.fields, SleepMinutes) + Minutes(xs))
    decreases |xs|
  {
    if |xs| > 0 {
      var init := xs[..|xs| - 1];
      SleepRunTotal(sl, init);
    }
  }

  lemma OnlyStageSnoc(xs: seq<SleepSample>, g: Field)
    requires |xs| > 0
    ensures var init := Only(xs[..|xs| - 1], StageKey(), Some(g));
      Only(xs, StageKey(), Some(g)) == if Classify(xs[|xs| - 1].stage) == Some(g) then init + [xs[|xs| - 1]] else init
  {
    assert StageKey()(xs[|xs| - 1]) == Classify(xs[|xs| - 1].stage);
  }

  lemma MinutesSnoc(xs: seq<SleepSample>, x: SleepSample)
    ensures Minutes(xs + [x]) == Minutes(xs) + SleepMinutesOf(x) as real
  {
    assert (xs + [x])[..|xs|] == xs;
  }

  /** Sleep samples add their minutes to their stage: the stage's running
      total grows by the minutes of the samples classified as that stage, and
      the stage field is present once one such sample has been seen. */
  lemma {:induction false} SleepRunStage(sl: Slot, xs: seq<SleepSample>, g: Field)
    requires SleepStage(g)
    ensures var r := Run(sl, xs, SleepStep);
      GetOrZero(r.fields, g) == GetOrZero(sl.fields, g) + Minutes(Only(xs, StageKey(), Some(g)))
    decreases |xs|
  {
    if |xs| > 0 {
      var init := xs[..|xs| - 1];
      var x := xs[|xs| - 1];
      assert Run(sl, xs, SleepStep) == SleepStep(Run(sl, init, SleepStep), x);
      SleepRunStage(sl, init, g);
      OnlyStageSnoc(xs, g);
      if Classify(x.stage) == Some(g) {
        MinutesSnoc(Only(init, StageKey(), Some(g)), x);
      }
    }
  }

  lemma {:induction false} SleepRunStagePresent(sl: Slot, xs: seq<SleepSample>, g: Field)
    requires SleepStage(g)
    ensures var r := Run(sl, xs, SleepStep);
      g in r.fields <==> g in sl.fields || |Only(xs, StageKey(), Some(g))| > 0
    decreases |xs|
  {
    if |xs| > 0 {
      var init := xs[..|xs| - 1];
      assert Run(sl, xs, SleepStep) == SleepStep(Run(sl, init, SleepStep), xs[|xs| - 1]);
      SleepRunStagePresent(sl, init, g);
      OnlyStageSnoc(xs, g);
    }
  }

  function PressureValues(xs: seq<PressureSample>, kind: PressureKind): (r: seq<real>)
    ensures |r| == |xs|
    ensures forall i :: 0 <= i < |xs| ==> r[i] == PressureValue(xs[i], kind)
  {
    if |xs| == 0 then [] else PressureValues(xs[..|xs| - 1], kind) + [PressureValue(xs[|xs| - 1], kind)]
  }

  function PressureValue(s: PressureSample, kind: PressureKind): real
  {
    match kind
    case SystolicKind => s.systolic
    case DiastolicKind => s.diastolic
  }

  /** Blood-pressure samples folded into an entry with no range yet: the last
      reading is displayed and the range spans all readings. */
  lemma {:induction false} PressureRun(sl: Slot, xs: seq<PressureSample>, kind: PressureKind)
    requires NoPressureRange(sl.fields)
    requires |xs| > 0
    ensures var r := Run(sl, xs, PressureStep);
      && Get(r.fields, BloodPressureSystolic) == Some(xs[|xs| - 1].systolic)
      && Get(r.fields, BloodPressureDiastolic) == Some(xs[|xs| - 1].diastolic)
      && Get(r.fields, LowField(kind)) == Some(SeqMin(PressureValues(xs, kind)))
      && Get(r.fields, HighField(kind)) == Some(SeqMax(PressureValues(xs, kind)))
    decreases |xs|
  {
    var init := xs[..|xs| - 1];
    var x := xs[|xs| - 1];
    var v := PressureValue(x, kind);
    assert PressureValues(xs, kind) == PressureValues(init, kind) + [v];
    if |init| > 0 {
      PressureRun(sl, init, kind);
      SeqMinSnoc(PressureValues(init, kind), v);
      SeqMaxSnoc(PressureValues(init, kind), v);
    } else {
      assert PressureValues(xs, kind) == [v];
      assert SeqMin([v]) == v && SeqMax([v]) == v;
    }
  }

  lemma {:induction false} PressureRunFrame(sl: Slot, xs: seq<PressureSample>, g: Field)
    requires !BloodPressureField(g)
    ensures Get(Run(sl, xs, PressureStep).fields, g) == Get(sl.fields, g)
    ensures Run(sl, xs, PressureStep).hrCount == sl.hrCount
    decreases |xs|
  {
    if |xs| > 0 {
      PressureRunFrame(sl, xs[..|xs| - 1], g);
    }
  }

  // ---------------------------------------------------------------------
  // Which list writes which field

  /** The fields a list's rule writes. */
  predicate Writes(b: Batch, g: Field)
  {
    match b
    case Summed(f, _, _) => g == f
    case Hearts(_) => HeartField(g)
    case Sleeps(_) => SleepField(g)
    case Pressures(_) => BloodPressureField(g)
    case Latest(f, _) => g == f
  }

  /** The position in `Batches` of the one list that writes `g`, or -1 for
      weight, which no list writes. */
  function Writer(g: Field): (k: int)
    ensures -1 <= k < 11
  {
    if g == Steps then 0
    else if HeartField(g) then 1
    else if g == Calories then 2
    else if g == DistanceKm then 3
    else if SleepField(g) then 4
    else if g == ActiveMinutes then 5
    else if BloodPressureField(g) then 6
    else if g == BloodGlucoseMgPerDl then 7
    else if g == BodyTemperatureC then 8
    else if g == OxygenSaturationPercent then 9
    else if g == RespiratoryRate then 10
    else -1
  }

  /** Every field is written by at most one of the eleven lists. */
  lemma WriterIsSole(d: AppleData, g: Field)
    ensures forall i :: 0 <= i < 11 ==> (Writes(Batches(d)[i], g) <==> i == Writer(g))
  {
    forall i | 0 <= i < 11
      ensures Writes(Batches(d)[i], g) <==> i == Writer(g)
    {
      if i < 6 { WritesEarly(d, i, g); } else { WritesLate(d, i, g); }
    }
  }

  /** The first six lists: steps, heart rate, calories, distance, sleep, exercise. */
  lemma WritesEarly(d: AppleData, i: int, g: Field)
    requires 0 <= i < 6
    ensures Writes(Batches(d)[i], g) <==> i == Writer(g)
  {
    var bs := Batches(d);
    if i == 0 { assert bs[i] == Summed(Steps, AsIs, d.steps); }
    else if i == 1 { assert bs[i] == Hearts(d.heartRates); }
    else if i == 2 { assert bs[i] == Summed(Calories, AsIs, d.calories); }
    else if i == 3 { assert bs[i] == Summed(DistanceKm, MetersToKm, d.distances); }
    else if i == 4 { assert bs[i] == Sleeps(d.sleeps); }
    else { assert bs[i] == Summed(ActiveMinutes, AsIs, d.activeMinutes); }
  }

  /** The last five lists: blood pressure and the four latest-value vitals. */
  lemma WritesLate(d: AppleData, i: int, g: Field)
    requires 6 <= i < 11
    ensures Writes(Batches(d)[i], g) <==> i == Writer(g)
  {
    var bs := Batches(d);
    if i == 6 { assert bs[i] == Pressures(d.pressure); }
    else if i == 7 { assert bs[i] == Latest(BloodGlucoseMgPerDl, d.glucose); }
    else if i == 8 { assert bs[i] == Latest(BodyTemperatureC, d.temperature); }
    else if i == 9 { assert bs[i] == Latest(OxygenSaturationPercent, d.oxygen); }
    else { assert bs[i] == Latest(RespiratoryRate, d.respiratory); }
  }

  /** A list leaves alone every field it does not write, and only the
      heart-rate list moves the sample count. */
  lemma PassAtFrame(b: Batch, hourly: bool, p: Period, sl: Slot, g: Field)
    requires !Writes(b, g)
    ensures Get(PassAt(b, hourly, p, sl).fields, g) == Get(sl.fields, g)
  {
    match b
    case Summed(f, u, xs) => AddRun(sl, Only(xs, SampleKey(hourly), p), f, u);
    case Hearts(xs) => HeartRunFrame(sl, Only(xs, HeartKey(hourly), p), g);
    case Sleeps(xs) => SleepRunTotal(sl, Only(xs, SleepKey(hourly), p));
    case Pressures(xs) => PressureRunFrame(sl, Only(xs, PressureKey(hourly), p), g);
    case Latest(f, xs) => LatestRun(sl, Only(xs, SampleKey(hourly), p), f);
  }

  lemma PassAtCount(b: Batch, hourly: bool, p: Period, sl: Slot)
    requires !b.Hearts?
    ensures PassAt(b, hourly, p, sl).hrCount == sl.hrCount
  {
    match b
    case Summed(f, u, xs) => AddRun(sl, Only(xs, SampleKey(hourly), p), f, u);
    case Sleeps(xs) => SleepRunTotal(sl, Only(xs, SleepKey(hourly), p));
    case Pressures(xs) => PressureRunFrame(sl, Only(xs, PressureKey(hourly), p), Steps);
    case Latest(f, xs) => LatestRun(sl, Only(xs, SampleKey(hourly), p), f);
  }

  /** Lists that do not write a field leave it as it was. */
  lemma {:induction false} SlotAfterFrame(sl: Slot, bs: seq<Batch>, hourly: bool, p: Period, g: Field)
    requires forall i :: 0 <= i < |bs| ==> !Writes(bs[i], g)
    ensures Get(SlotAfter(sl, bs, hourly, p).fields, g) == Get(sl.fields, g)
    decreases |bs|
  {
    if |bs| > 0 {
      SlotAfterFrame(sl, bs[..|bs| - 1], hourly, p, g);
      PassAtFrame(bs[|bs| - 1], hourly, p, SlotAfter(sl, bs[..|bs| - 1], hourly, p), g);
    }
  }

  lemma {:induction false} SlotAfterCount(sl: Slot, bs: seq<Batch>, hourly: bool, p: Period)
    requires forall i :: 0 <= i < |bs| ==> !bs[i].Hearts?
    ensures SlotAfter(sl, bs, hourly, p).hrCount == sl.hrCount
    decreases |bs|
  {
    if |bs| > 0 {
      SlotAfterCount(sl, bs[..|bs| - 1], hourly, p);
      PassAtCount(bs[|bs| - 1], hourly, p, SlotAfter(sl, bs[..|bs| - 1], hourly, p));
    }
  }

  /** Folding two runs of lists is folding their concatenation. */
  lemma {:induction false} SlotAfterAppend(sl: Slot, bs: seq<Batch>, cs: seq<Batch>, hourly: bool, p: Period)
    ensures SlotAfter(sl, bs + cs, hourly, p) == SlotAfter(SlotAfter(sl, bs, hourly, p), cs, hourly, p)
    decreases |cs|
  {
    if |cs| == 0 {
      assert bs + cs == bs;
    } else {
      assert (bs + cs)[..|bs + cs| - 1] == bs + cs[..|cs| - 1];
      SlotAfterAppend(sl, bs, cs[..|cs| - 1], hourly, p);
    }
  }

  /** A field written by exactly one list takes the value that list gives
      it, starting from the field being absent. */
  lemma SoleWriter(bs: seq<Batch>, k: int, hourly: bool, p: Period, g: Field)
    requires 0 <= k < |bs|
    requires forall i :: 0 <= i < |bs| && i != k ==> !Writes(bs[i], g)
    ensures var before := SlotAfter(Fresh, bs[..k], hourly, p);
      && Get(before.fields, g).None?
      && Get(SlotAfter(Fresh, bs, hourly, p).fields, g) == Get(PassAt(bs[k], hourly, p, before).fields, g)
  {
    var pre := bs[..k];
    var post := bs[k + 1..];
    assert bs == pre + [bs[k]] + post;
    SlotAfterFrame(Fresh, pre, hourly, p, g);
    SlotAfterAppend(Fresh, pre + [bs[k]], post, hourly, p);
    assert (pre + [bs[k]])[..k] == pre;
    var mid := SlotAfter(Fresh, pre + [bs[k]], hourly, p);
    assert mid == PassAt(bs[k], hourly, p, SlotAfter(Fresh, pre, hourly, p));
    assert forall i :: 0 <= i < |post| ==> post[i] == bs[k + 1 + i];
    SlotAfterFrame(mid, post, hourly, p, g);
  }

  // ---------------------------------------------------------------------
  // Finalization

  /** `if (hrCount > 0 && averageHeartRate != null) averageHeartRate =
      Math.round(averageHeartRate / hrCount)`, then `hrCount` is dropped. */
  function FinalizeSlot(sl: Slot): (m: Metrics)
    ensures forall g :: g != AverageHeartRate ==> Get(m, g) == Get(sl.fields, g)
    ensures sl.hrCount > 0 && AverageHeartRate in sl.fields ==>
      Get(m, AverageHeartRate) == Some(Round(sl.fields[AverageHeartRate] / sl.hrCount as real) as real)
    ensures sl.hrCount == 0 || AverageHeartRate !in sl.fields ==> Get(m, AverageHeartRate) == Get(sl.fields, AverageHeartRate)
  {
    if sl.hrCount > 0 && AverageHeartRate in sl.fields then
      sl.fields[AverageHeartRate := Round(sl.fields[AverageHeartRate] / sl.hrCount as real) as real]
    else sl.fields
  }

  /** `dailyMap` once every list is folded in and the averages are finalized. */
  function DailyMap(hourly: bool, d: AppleData): (r: Ordered.OMap<Period, Metrics>)
    ensures Ordered.Valid(r)
  {
    Ordered.MapValues(Folded(Batches(d), hourly), FinalizeSlot)
  }

  /** The finalized entry of `p`, computed entry-wise. */
  function EntryOf(hourly: bool, d: AppleData, p: Period): Metrics
  {
    FinalizeSlot(SlotAfter(Fresh, Batches(d), hourly, p))
  }

  /** The table and the entry-wise reading agree on every key. */
  lemma DailyMapAt(hourly: bool, d: AppleData, p: Period)
    ensures p in DailyMap(hourly, d).entries <==> HitsAny(Batches(d), hourly, p)
    ensures p in DailyMap(hourly, d).entries ==> DailyMap(hourly, d).entries[p] == EntryOf(hourly, d, p)
  {
    FoldedAt(Batches(d), hourly, p);
  }

  // ---------------------------------------------------------------------
  // What one entry of `dailyMap` holds

  /** A field written by one list only: it is absent until that list and
      keeps the value that list leaves. */
  lemma EntryField(hourly: bool, d: AppleData, p: Period, g: Field)
    requires Writer(g) >= 0
    ensures var bs := Batches(d);
      var before := SlotAfter(Fresh, bs[..Writer(g)], hourly, p);
      && Get(before.fields, g).None?
      && Get(SlotAfter(Fresh, bs, hourly, p).fields, g) == Get(PassAt(bs[Writer(g)], hourly, p, before).fields, g)
  {
    WriterIsSole(d, g);
    SoleWriter(Batches(d), Writer(g), hourly, p, g);
  }

  /** The sum of a list's amounts, or missing for an empty list. */
  function Total(xs: seq<Sample>, u: Scale): Option<real>
  {
    if |xs| == 0 then None else Some(Sum(Amounts(xs, u)))
  }

  /** Steps, calories, distance (meters to kilometers) and exercise minutes
      are the totals of the period's samples, missing values counting as 0;
      a period without such samples has no value. */
  lemma SummedField(hourly: bool, d: AppleData, p: Period, g: Field)
    requires g == Steps || g == Calories || g == DistanceKm || g == ActiveMinutes
    ensures var b := Batches(d)[Writer(g)];
      && b.Summed? && b.field == g
      && Get(EntryOf(hourly, d, p), g) == Total(Only(b.samples, SampleKey(hourly), p), b.scale)
  {
    var bs := Batches(d);
    if g == Steps { assert bs[Writer(g)] == Summed(g, AsIs, d.steps); }
    else if g == Calories { assert bs[Writer(g)] == Summed(g, AsIs, d.calories); }
    else if g == DistanceKm { assert bs[Writer(g)] == Summed(g, MetersToKm, d.distances); }
    else { assert bs[Writer(g)] == Summed(g, AsIs, d.activeMinutes); }
    SummedAt(hourly, d, p, g);
  }

  lemma SummedAt(hourly: bool, d: AppleData, p: Period, g: Field)
    requires Writer(g) >= 0 && g != AverageHeartRate
    requires Batches(d)[Writer(g)].Summed? && Batches(d)[Writer(g)].field == g
    ensures var b := Batches(d)[Writer(g)];
      Get(EntryOf(hourly, d, p), g) == Total(Only(b.samples, SampleKey(hourly), p), b.scale)
  {
    var bs := Batches(d);
    var b := bs[Writer(g)];
    EntryField(hourly, d, p, g);
    var before := SlotAfter(Fresh, bs[..Writer(g)], hourly, p);
    var xs := Only(b.samples, SampleKey(hourly), p);
    AddRun(before, xs, g, b.scale);
    assert PassAt(b, hourly, p, before) == Run(before, xs, AddFn(g, b.scale));
  }

  /** The value of the last sample of a list, or missing for an empty list. */
  function LastValue(xs: seq<Sample>): Option<real>
  {
    if |xs| == 0 then None else xs[|xs| - 1].value
  }

  /** Glucose, temperature, oxygen saturation and respiratory rate hold the
      period's last sample, whose value may itself be missing. */
  lemma LatestField(hourly: bool, d: AppleData, p: Period, g: Field)
    requires g == BloodGlucoseMgPerDl || g == BodyTemperatureC || g == OxygenSaturationPercent || g == RespiratoryRate
    ensures var b := Batches(d)[Writer(g)];
      && b.Latest? && b.field == g
      && Get(EntryOf(hourly, d, p), g) == LastValue(Only(b.samples, SampleKey(hourly), p))
  {
    var bs := Batches(d);
    if g == BloodGlucoseMgPerDl { assert bs[Writer(g)] == Latest(g, d.glucose); }
    else if g == BodyTemperatureC { assert bs[Writer(g)] == Latest(g, d.temperature); }
    else if g == OxygenSaturationPercent { assert bs[Writer(g)] == Latest(g, d.oxygen); }
    else { assert bs[Writer(g)] == Latest(g, d.respiratory); }
    LatestAt(hourly, d, p, g);
  }

  lemma LatestAt(hourly: bool, d: AppleData, p: Period, g: Field)
    requires Writer(g) >= 0 && g != AverageHeartRate
    requires Batches(d)[Writer(g)].Latest? && Batches(d)[Writer(g)].field == g
    ensures var b := Batches(d)[Writer(g)];
      Get(EntryOf(hourly, d, p), g) == LastValue(Only(b.samples, SampleKey(hourly), p))
  {
    var bs := Batches(d);
    var b := bs[Writer(g)];
    EntryField(hourly, d, p, g);
    var before := SlotAfter(Fresh, bs[..Writer(g)], hourly, p);
    var xs := Only(b.samples, SampleKey(hourly), p);
    LatestRun(before, xs, g);
    assert PassAt(b, hourly, p, before) == Run(before, xs, LatestFn(g));
  }

  /** No list writes weight: the entries never carry one. */
  lemma EntryWeight(hourly: bool, d: AppleData, p: Period)
    ensures Get(EntryOf(hourly, d, p), WeightKg).None?
  {
    WriterIsSole(d, WeightKg);
    SlotAfterFrame(Fresh, Batches(d), hourly, p, WeightKg);
  }

  /** Only the heart-rate list moves the sample count. */
  lemma HeartCount(hourly: bool, d: AppleData, p: Period)
    ensures var bs := Batches(d);
      SlotAfter(Fresh, bs, hourly, p).hrCount
        == PassAt(bs[1], hourly, p, SlotAfter(Fresh, bs[..1], hourly, p)).hrCount
  {
    var bs := Batches(d);
    assert bs == bs[..2] + bs[2..];
    SlotAfterAppend(Fresh, bs[..2], bs[2..], hourly, p);
    assert bs[..2][..1] == bs[..1];
    var post := bs[2..];
    forall i | 0 <= i < |post|
      ensures !post[i].Hearts?
    {
      assert i == 0 || i == 1 || i == 2 || i == 3 || i == 4 || i == 5 || i == 6 || i == 7 || i == 8;
    }
    SlotAfterCount(SlotAfter(Fresh, bs[..2], hourly, p), post, hourly, p);
  }

  /** The heart-rate list, seen from one entry. */
  lemma HeartPass(hourly: bool, d: AppleData, p: Period, g: Field)
    requires HeartField(g)
    ensures var bs := Batches(d);
      var before := SlotAfter(Fresh, bs[..1], hourly, p);
      var run := Run(before, Only(d.heartRates, HeartKey(hourly), p), HeartStep);
      && Get(before.fields, g).None?
      && Get(SlotAfter(Fresh, bs, hourly, p).fields, g) == Get(run.fields, g)
      && SlotAfter(Fresh, bs, hourly, p).hrCount == run.hrCount
  {
    var bs := Batches(d);
    assert Writer(g) == 1 && bs[1] == Hearts(d.heartRates);
    var before := SlotAfter(Fresh, bs[..1], hourly, p);
    assert PassAt(bs[1], hourly, p, before) == Run(before, Only(d.heartRates, HeartKey(hourly), p), HeartStep);
    EntryField(hourly, d, p, g);
    HeartCount(hourly, d, p);
  }

  /** A period without heart-rate samples has no average, minimum or maximum. */
  lemma EntryHeartAbsent(hourly: bool, d: AppleData, p: Period)
    requires |Only(d.heartRates, HeartKey(hourly), p)| == 0
    ensures var e := EntryOf(hourly, d, p);
      Get(e, AverageHeartRate).None? && Get(e, MinHeartRate).None? && Get(e, MaxHeartRate).None?
  {
    HeartPass(hourly, d, p, AverageHeartRate);
    HeartPass(hourly, d, p, MinHeartRate);
    HeartPass(hourly, d, p, MaxHeartRate);
  }

  /** With positive readings, a period's average heart rate is the rounded
      mean of its samples. */
  lemma EntryHeartAverage(hourly: bool, d: AppleData, p: Period)
    requires forall x :: x in d.heartRates ==> x.value > 0.0
    requires |Only(d.heartRates, HeartKey(hourly), p)| > 0
    ensures var xs := Only(d.heartRates, HeartKey(hourly), p);
      Get(EntryOf(hourly, d, p), AverageHeartRate) == Some(Round(Mean(HeartValues(xs))) as real)
  {
    var xs := Only(d.heartRates, HeartKey(hourly), p);
    var before := SlotAfter(Fresh, Batches(d)[..1], hourly, p);
    HeartPass(hourly, d, p, AverageHeartRate);
    HeartRun(before, xs);
  }

  /** ... and its minimum and maximum are those of the samples. */
  lemma EntryHeartRange(hourly: bool, d: AppleData, p: Period)
    requires forall x :: x in d.heartRates ==> x.value > 0.0
    requires |Only(d.heartRates, HeartKey(hourly), p)| > 0
    ensures var xs := Only(d.heartRates, HeartKey(hourly), p);
      && Get(EntryOf(hourly, d, p), MinHeartRate) == Some(SeqMin(HeartValues(xs)))
      && Get(EntryOf(hourly, d, p), MaxHeartRate) == Some(SeqMax(HeartValues(xs)))
  {
    var xs := Only(d.heartRates, HeartKey(hourly), p);
    var before := SlotAfter(Fresh, Batches(d)[..1], hourly, p);
    HeartPass(hourly, d, p, AverageHeartRate);
    HeartPass(hourly, d, p, MinHeartRate);
    HeartPass(hourly, d, p, MaxHeartRate);
    HeartRunLow(before, xs);
    HeartRunHigh(before, xs);
  }

  /** The sleep list, seen from one entry. */
  lemma SleepPass(hourly: bool, d: AppleData, p: Period, g: Field)
    requires SleepField(g)
    ensures var bs := Batches(d);
      var before := SlotAfter(Fresh, bs[..4], hourly, p);
      && Get(before.fields, g).None?
      && Get(EntryOf(hourly, d, p), g) == Get(Run(before, Only(d.sleeps, SleepKey(hourly), p), SleepStep).fields, g)
  {
    var bs := Batches(d);
    assert Writer(g) == 4 && g != AverageHeartRate && bs[4] == Sleeps(d.sleeps);
    var before := SlotAfter(Fresh, bs[..4], hourly, p);
    assert PassAt(bs[4], hourly, p, before) == Run(before, Only(d.sleeps, SleepKey(hourly), p), SleepStep);
    EntryField(hourly, d, p, g);
  }

  /** A period's sleep minutes are the total of its sleep samples' rounded
      durations; a period without sleep samples has none. */
  lemma EntrySleepTotal(hourly: bool, d: AppleData, p: Period)
    ensures var xs := Only(d.sleeps, SleepKey(hourly), p);
      Get(EntryOf(hourly, d, p), SleepMinutes) == if |xs| == 0 then None else Some(Minutes(xs))
  {
    SleepPass(hourly, d, p, SleepMinutes);
    SleepRunTotal(SlotAfter(Fresh, Batches(d)[..4], hourly, p), Only(d.sleeps, SleepKey(hourly), p));
  }

  /** Each stage field totals the minutes of the period's samples classified
      as that stage, and is present exactly when there is one. */
  lemma EntrySleepStage(hourly: bool, d: AppleData, p: Period, g: Field)
    requires SleepStage(g)
    ensures var mine := Only(Only(d.sleeps, SleepKey(hourly), p), StageKey(), Some(g));
      && GetOrZero(EntryOf(hourly, d, p), g) == Minutes(mine)
      && (g in EntryOf(hourly, d, p) <==> |mine| > 0)
  {
    var before := SlotAfter(Fresh, Batches(d)[..4], hourly, p);
    SleepPass(hourly, d, p, g);
    SleepRunStage(before, Only(d.sleeps, SleepKey(hourly), p), g);
    SleepRunStagePresent(before, Only(d.sleeps, SleepKey(hourly), p), g);
  }

  /** The blood-pressure list, seen from one entry. */
  lemma PressurePass(hourly: bool, d: AppleData, p: Period, g: Field)
    requires BloodPressureField(g)
    ensures var bs := Batches(d);
      var before := SlotAfter(Fresh, bs[..6], hourly, p);
      && Get(before.fields, g).None?
      && Get(EntryOf(hourly, d, p), g) == Get(Run(before, Only(d.pressure, PressureKey(hourly), p), PressureStep).fields, g)
  {
    var bs := Batches(d);
    assert Writer(g) == 6 && g != AverageHeartRate && bs[6] == Pressures(d.pressure);
    var before := SlotAfter(Fresh, bs[..6], hourly, p);
    assert PassAt(bs[6], hourly, p, before) == Run(before, Only(d.pressure, PressureKey(hourly), p), PressureStep);
    EntryField(hourly, d, p, g);
  }

  /** A period's displayed blood pressure is its last reading, and the
      range of each kind spans all of its readings. */
  lemma EntryPressure(hourly: bool, d: AppleData, p: Period, kind: PressureKind)
    requires |Only(d.pressure, PressureKey(hourly), p)| > 0
    ensures var xs := Only(d.pressure, PressureKey(hourly), p);
      var e := EntryOf(hourly, d, p);
      && Get(e, BloodPressureSystolic) == Some(xs[|xs| - 1].systolic)
      && Get(e, BloodPressureDiastolic) == Some(xs[|xs| - 1].diastolic)
      && Get(e, LowField(kind)) == Some(SeqMin(PressureValues(xs, kind)))
      && Get(e, HighField(kind)) == Some(SeqMax(PressureValues(xs, kind)))
  {
    var before := SlotAfter(Fresh, Batches(d)[..6], hourly, p);
    PressurePass(hourly, d, p, MinSystolic);
    PressurePass(hourly, d, p, MaxSystolic);
    PressurePass(hourly, d, p, MinDiastolic);
    PressurePass(hourly, d, p, MaxDiastolic);
    PressurePass(hourly, d, p, BloodPressureSystolic);
    PressurePass(hourly, d, p, BloodPressureDiastolic);
    PressureRun(before, Only(d.pressure, PressureKey(hourly), p), kind);
  }

  /** A period without blood-pressure readings has none of the six fields. */
  lemma EntryPressureAbsent(hourly: bool, d: AppleData, p: Period, g: Field)
    requires |Only(d.pressure, PressureKey(hourly), p)| == 0
    requires BloodPressureField(g)
    ensures Get(EntryOf(hourly, d, p), g).None?
  {
    PressurePass(hourly, d, p, g);
  }

  /** The minutes of the samples classified as stage `g`. */
  function StageMinutes(xs: seq<SleepSample>, g: Field): real
  {
    Minutes(Only(xs, StageKey(), Some(g)))
  }

  /** Each sample adds to at most one stage, so with non-negative durations
      the four stages together never exceed the total. */
  lemma {:induction false} StagesWithinTotal(xs: seq<SleepSample>)
    requires forall x :: x in xs ==> SleepMinutesOf(x) >= 0
    ensures StageMinutes(xs, SleepAwakeMinutes) + StageMinutes(xs, SleepRemMinutes)
          + StageMinutes(xs, SleepCoreMinutes) + StageMinutes(xs, SleepDeepMinutes) <= Minutes(xs)
    decreases |xs|
  {
    if |xs| > 0 {
      var init := xs[..|xs| - 1];
      assert forall x :: x in init ==> x in xs;
      StagesWithinTotal(init);
      OnlyStageSnoc(xs, SleepAwakeMinutes);
      OnlyStageSnoc(xs, SleepRemMinutes);
      OnlyStageSnoc(xs, SleepCoreMinutes);
      OnlyStageSnoc(xs, SleepDeepMinutes);
      var x := xs[|xs| - 1];
      MinutesSnoc(Only(init, StageKey(), Some(SleepAwakeMinutes)), x);
      MinutesSnoc(Only(init, StageKey(), Some(SleepRemMinutes)), x);
      MinutesSnoc(Only(init, StageKey(), Some(SleepCoreMinutes)), x);
      MinutesSnoc(Only(init, StageKey(), Some(SleepDeepMinutes)), x);
    }
  }

  /** The bound needs the durations: the minutes are not guarded against an
      end before the start, so an in-bed sample of minus one day next to ten
      awake minutes leaves the awake stage above the (negative) total. */
  lemma StagesMayExceedTotal()
    ensures var inBed := SleepSample(Instant(1, 0), Instant(0, 0), Some("INBED"));
      var awake := SleepSample(Instant(0, 0), Instant(0, 600000), Some("AWAKE"));
      StageMinutes([inBed, awake], SleepAwakeMinutes) == 10.0
      && Minutes([inBed, awake]) == -1430.0
  {
    var inBed := SleepSample(Instant(1, 0), Instant(0, 0), Some("INBED"));
    var awake := SleepSample(Instant(0, 0), Instant(0, 600000), Some("AWAKE"));
    var xs := [inBed, awake];
    ExampleMinutes(inBed, awake);
    ClassifyInBed();
    ExampleLabels();
    ExampleStages(inBed, awake);
    assert Only(xs, StageKey(), Some(SleepAwakeMinutes)) == [awake];
    MinutesSnoc([], awake);
    MinutesSnoc([inBed], awake);
    MinutesSnoc([], inBed);
    assert [inBed] + [awake] == xs;
    assert [] + [awake] == [awake];
    assert [] + [inBed] == [inBed];
  }

  lemma ExampleMinutes(inBed: SleepSample, awake: SleepSample)
    requires inBed == SleepSample(Instant(1, 0), Instant(0, 0), Some("INBED"))
    requires awake == SleepSample(Instant(0, 0), Instant(0, 600000), Some("AWAKE"))
    ensures SleepMinutesOf(inBed) == -1440 && SleepMinutesOf(awake) == 10
  {
    assert Millis(inBed.end) - Millis(inBed.start) == -86400000;
    assert Millis(awake.end) - Millis(awake.start) == 600000;
  }

  lemma ExampleLabels()
    ensures Classify(Some("AWAKE")) == Some(SleepAwakeMinutes)
  {
    UpperOfUpper("AWAKE");
    Leading("AWAKE", "AWAKE");
    ClassifyAwakeWins("AWAKE");
  }

  /** An unclassified sample followed by an awake one leaves only the latter
      in the awake stage. */
  lemma ExampleStages(inBed: SleepSample, awake: SleepSample)
    requires Classify(inBed.stage) == None
    requires Classify(awake.stage) == Some(SleepAwakeMinutes)
    ensures Only([inBed, awake], StageKey(), Some(SleepAwakeMinutes)) == [awake]
  {
    var xs := [inBed, awake];
    OnlyStageSnoc(xs, SleepAwakeMinutes);
    OnlyStageSnoc(xs[..1], SleepAwakeMinutes);
    assert xs[..1] == [inBed];
    assert xs[..1][..0] == [];
  }

  /** In one entry: the stage fields, missing ones as 0, add up to at most
      the sleep minutes. */
  lemma EntryStagesWithinTotal(hourly: bool, d: AppleData, p: Period)
    requires forall x :: x in d.sleeps ==> SleepMinutesOf(x) >= 0
    ensures var e := EntryOf(hourly, d, p);
      GetOrZero(e, SleepAwakeMinutes) + GetOrZero(e, SleepRemMinutes)
        + GetOrZero(e, SleepCoreMinutes) + GetOrZero(e, SleepDeepMinutes) <= GetOrZero(e, SleepMinutes)
  {
    var xs := Only(d.sleeps, SleepKey(hourly), p);
    EntrySleepTotal(hourly, d, p);
    EntrySleepStage(hourly, d, p, SleepAwakeMinutes);
    EntrySleepStage(hourly, d, p, SleepRemMinutes);
    EntrySleepStage(hourly, d, p, SleepCoreMinutes);
    EntrySleepStage(hourly, d, p, SleepDeepMinutes);
    StagesWithinTotal(xs);
    if |xs| == 0 {
      assert Minutes(xs) == 0.0;
    }
  }

  /** The keyword is at the start of the label. */
  lemma Leading(s: string, p: string)
    requires |p| <= |s| && s[..|p|] == p
    ensures Contains(s, p)
  {
  }

  /** The stage keywords in the order they are tried, with their stage. */
  const StageKeywords: seq<(string, Field)> := [
    ("AWAKE", SleepAwakeMinutes), ("REM", SleepRemMinutes), ("CORE", SleepCoreMinutes),
    ("ASLEEP", SleepCoreMinutes), ("LIGHT", SleepCoreMinutes), ("DEEP", SleepDeepMinutes)]

  /** The stage of the first keyword in `kws` that occurs in `n`. */
  function FirstMatch(n: string, kws: seq<(string, Field)>): Option<Field>
  {
    if |kws| == 0 then None
    else if Contains(n, kws[0].0) then Some(kws[0].1)
    else FirstMatch(n, kws[1..])
  }

  /** Classifying a label is looking its upper case up in the keyword list
      and taking the first keyword that occurs. */
  lemma ClassifyIsFirstMatch(name: string)
    requires name != ""
    ensures Classify(Some(name)) == FirstMatch(Upper(name), StageKeywords)
  {
    var n := Upper(name);
    var k := StageKeywords;
    assert k[1..][1..][1..][1..][1..][1..] == [];
    assert FirstMatch(n, k[1..][1..][1..][1..][1..]) == if Contains(n, "DEEP") then Some(SleepDeepMinutes) else None;
    assert FirstMatch(n, k[1..][1..][1..][1..]) ==
      if Contains(n, "LIGHT") then Some(SleepCoreMinutes) else FirstMatch(n, k[1..][1..][1..][1..][1..]);
    assert FirstMatch(n, k[1..][1..][1..]) ==
      if Contains(n, "ASLEEP") then Some(SleepCoreMinutes) else FirstMatch(n, k[1..][1..][1..][1..]);
    assert FirstMatch(n, k[1..][1..]) ==
      if Contains(n, "CORE") then Some(SleepCoreMinutes) else FirstMatch(n, k[1..][1..][1..]);
  }

  /** A label containing LIGHT is core sleep unless it also names AWAKE or
      REM, whatever else it contains. */
  lemma ClassifyLightIsCore(name: string)
    requires Contains(Upper(name), "LIGHT")
    requires !Contains(Upper(name), "AWAKE") && !Contains(Upper(name), "REM")
    ensures Classify(Some(name)) == Some(SleepCoreMinutes)
  {
  }

  /** A label containing AWAKE is awake time, whatever else it contains. */
  lemma ClassifyAwakeWins(name: string)
    requires Contains(Upper(name), "AWAKE")
    ensures Classify(Some(name)) == Some(SleepAwakeMinutes)
  {
  }

  /** Lower-case labels match too: "light" counts as core sleep. */
  lemma ClassifyLight()
    ensures Classify(Some("light")) == Some(SleepCoreMinutes)
  {
    var n := Upper("light");
    assert n == "LIGHT";
    MissingLetter(n, "AWAKE", 0);
    MissingLetter(n, "REM", 0);
    MissingLetter(n, "CORE", 0);
    MissingLetter(n, "ASLEEP", 0);
    Leading(n, "LIGHT");
  }

  /** "REM" counts as REM sleep. */
  lemma ClassifyRemExample()
    ensures Classify(Some("REM")) == Some(SleepRemMinutes)
  {
    var n := "REM";
    UpperOfUpper(n);
    MissingLetter(n, "AWAKE", 1);
    Leading(n, "REM");
  }

  /** Labels are matched without regard to case. */
  lemma ClassifyIgnoresCase(s: string)
    ensures Classify(Some(s)) == Classify(Some(Upper(s)))
  {
    UpperIdempotent(s);
  }

  /** Time in bed matches no keyword and adds to no stage. */
  lemma ClassifyInBed()
    ensures Classify(Some("INBED")) == None
  {
    var n := Upper("INBED");
    assert n == "INBED";
    MissingLetter(n, "AWAKE", 0);
    MissingLetter(n, "REM", 0);
    MissingLetter(n, "CORE", 0);
    MissingLetter(n, "ASLEEP", 0);
    MissingLetter(n, "LIGHT", 0);
    MissingLetter(n, "DEEP", 3);
  }

  /** Samples of 60, 70 and 80 bpm in one entry: average 70. */
  lemma HeartExampleAverage(t: Instant)
    ensures Get(FinalizeSlot(Run(Fresh, [HeartSample(t, 60.0), HeartSample(t, 70.0), HeartSample(t, 80.0)], HeartStep)), AverageHeartRate) == Some(70.0)
  {
    var xs := [HeartSample(t, 60.0), HeartSample(t, 70.0), HeartSample(t, 80.0)];
    var vs := HeartValues(xs);
    assert vs == [60.0, 70.0, 80.0];
    HeartRun(Fresh, xs);
    assert vs[..2] == [60.0, 70.0] && vs[..2][..1] == [60.0] && vs[..2][..1][..0] == [];
    assert Sum(vs[..2][..1]) == 60.0;
    assert Sum(vs[..2]) == 130.0;
    assert Sum(vs) == 210.0;
    assert Round(210.0 / 3.0) == 70;
  }

  /** The same samples: minimum 60, maximum 80. */
  lemma HeartExampleRange(t: Instant)
    ensures var e := FinalizeSlot(Run(Fresh, [HeartSample(t, 60.0), HeartSample(t, 70.0), HeartSample(t, 80.0)], HeartStep));
      Get(e, MinHeartRate) == Some(60.0) && Get(e, MaxHeartRate) == Some(80.0)
  {
    var xs := [HeartSample(t, 60.0), HeartSample(t, 70.0), HeartSample(t, 80.0)];
    var vs := HeartValues(xs);
    assert vs == [60.0, 70.0, 80.0];
    HeartRunLow(Fresh, xs);
    HeartRunHigh(Fresh, xs);
    assert SeqMin(vs) == 60.0 by { assert vs[0] == 60.0; }
    assert SeqMax(vs) == 80.0 by { assert vs[2] == 80.0; }
  }

  /** A falsy running sum restarts the entry: after a 0 bpm sample, an 80 bpm
      sample discards it, so the average is 80 rather than 40. */
  lemma HeartRestartExample(t: Instant)
    ensures Get(FinalizeSlot(Run(Fresh, [HeartSample(t, 0.0), HeartSample(t, 80.0)], HeartStep)), AverageHeartRate) == Some(80.0)
  {
    var xs := [HeartSample(t, 0.0), HeartSample(t, 80.0)];
    assert xs[..1] == [HeartSample(t, 0.0)] && xs[..1][..0] == [];
    assert Run(Fresh, xs[..1][..0], HeartStep) == Fresh;
    var first := HeartStep(Fresh, xs[0]);
    assert Run(Fresh, xs[..1], HeartStep) == first;
    assert Run(Fresh, xs, HeartStep) == HeartStep(first, xs[1]);
    assert Get(first.fields, AverageHeartRate) == Some(0.0);
    var second := HeartStep(first, xs[1]);
    assert Get(second.fields, AverageHeartRate) == Some(80.0) && second.hrCount == 1;
    assert Round(80.0 / 1.0) == 80;
  }
}

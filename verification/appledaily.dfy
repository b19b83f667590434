/** The HealthKit range sync, second half: the finalized `dailyMap` becomes
    the sorted day rows (rolled up from the hours when grouping hourly), the
    intraday points and the window summary. */
module AppleDaily {
  import opened Wrappers
  import opened Numeric
  import opened Vitals
  import opened Apple
  import opened Grouping
  import Ordered
  import opened Sorting

  // ---------------------------------------------------------------------
  // Rolling the hours of a day up into the day

  /** How the rollup merges an hour's value of a field into its day. */
  datatype RollRule =
    | AddUp       // `(t.f ?? 0) + (e.f ?? 0)`
    | AddPresent  // added only when the hour has one; counted in `hrCount`
    | Lowest      // `Math.min` of the present values
    | Highest     // `Math.max` of the present values
    | KeepFirst   // `t.f ?? e.f`

  function RollRuleOf(g: Field): RollRule
  {
    if Cumulative(g) || SleepStage(g) then AddUp
    else if g == AverageHeartRate then AddPresent
    else if g == MinHeartRate then Lowest
    else if g == MaxHeartRate then Highest
    else KeepFirst
  }

  /** The day's value of `g` after merging the hour `e` into the day so far `t`. */
  function Rolled(t: Metrics, e: Metrics, g: Field): Option<real>
  {
    match RollRuleOf(g)
    case AddUp => Some(GetOrZero(t, g) + GetOrZero(e, g))
    case AddPresent => if g in e then Some(GetOrZero(t, g) + e[g]) else Get(t, g)
    case Lowest => if g in e then Some(if g in t then Min(t[g], e[g]) else e[g]) else Get(t, g)
    case Highest => if g in e then Some(if g in t then Max(t[g], e[g]) else e[g]) else Get(t, g)
    case KeepFirst => OrElse(Get(t, g), Get(e, g))
  }

  function Merge(t: Metrics, e: Metrics): Metrics
  {
    map g | g in AllFields && Rolled(t, e, g).Some? :: Rolled(t, e, g).value
  }

  /** Every field of the merged record follows its rule. */
  lemma MergeAt(t: Metrics, e: Metrics, g: Field)
    ensures Get(Merge(t, e), g) == Rolled(t, e, g)
  {
    AllFieldsComplete(g);
  }

  /** One hour entry merged into its day's running record. */
  function RollStep(sl: Slot, item: (Period, Metrics)): (r: Slot)
    ensures r.hrCount == if AverageHeartRate in item.1 then sl.hrCount + 1 else sl.hrCount
  {
    Slot(Merge(sl.fields, item.1), if AverageHeartRate in item.1 then sl.hrCount + 1 else sl.hrCount)
  }

  /** The step read per rule. */
  lemma StepAddUp(sl: Slot, item: (Period, Metrics), g: Field)
    requires Cumulative(g) || SleepStage(g)
    ensures Get(RollStep(sl, item).fields, g) == Some(GetOrZero(sl.fields, g) + GetOrZero(item.1, g))
  {
    MergeAt(sl.fields, item.1, g);
  }

  lemma StepAddPresent(sl: Slot, item: (Period, Metrics))
    ensures GetOrZero(RollStep(sl, item).fields, AverageHeartRate) ==
      GetOrZero(sl.fields, AverageHeartRate) + GetOrZero(item.1, AverageHeartRate)
  {
    MergeAt(sl.fields, item.1, AverageHeartRate);
  }

  lemma StepPresence(sl: Slot, item: (Period, Metrics), g: Field)
    requires HeartField(g)
    ensures g in RollStep(sl, item).fields <==> g in sl.fields || g in item.1
  {
    MergeAt(sl.fields, item.1, g);
  }

  lemma StepLowest(sl: Slot, item: (Period, Metrics))
    requires MinHeartRate in sl.fields || MinHeartRate in item.1
    ensures RollStep(sl, item).fields[MinHeartRate] ==
      if MinHeartRate !in item.1 then sl.fields[MinHeartRate]
      else if MinHeartRate in sl.fields then Min(sl.fields[MinHeartRate], item.1[MinHeartRate])
      else item.1[MinHeartRate]
  {
    MergeAt(sl.fields, item.1, MinHeartRate);
  }

  lemma StepHighest(sl: Slot, item: (Period, Metrics))
    requires MaxHeartRate in sl.fields || MaxHeartRate in item.1
    ensures RollStep(sl, item).fields[MaxHeartRate] ==
      if MaxHeartRate !in item.1 then sl.fields[MaxHeartRate]
      else if MaxHeartRate in sl.fields then Max(sl.fields[MaxHeartRate], item.1[MaxHeartRate])
      else item.1[MaxHeartRate]
  {
    MergeAt(sl.fields, item.1, MaxHeartRate);
  }

  lemma StepKeepFirst(sl: Slot, item: (Period, Metrics), g: Field)
    requires RollRuleOf(g) == KeepFirst
    ensures Get(RollStep(sl, item).fields, g) == OrElse(Get(sl.fields, g), Get(item.1, g))
  {
    MergeAt(sl.fields, item.1, g);
  }

  /** `entry.date.slice(0, 10)`: the day of an hour key. */
  function DayOf(item: (Period, Metrics)): int
  {
    item.0.day
  }

  /** `dailyRollup`: the hourly `dailyMap` grouped by day. */
  function Rollup(d: AppleData): (r: Ordered.OMap<int, Slot>)
    ensures Ordered.Valid(r)
  {
    Group(Ordered.Empty(), Ordered.Items(DailyMap(true, d)), DayOf, Fresh, RollStep)
  }

  /** The finalized hour entries of day `k`, in `dailyMap` order. */
  function HoursOf(d: AppleData, k: int): seq<(Period, Metrics)>
  {
    Only(Ordered.Items(DailyMap(true, d)), DayOf, k)
  }

  /** The values of `g` across a run of entries, missing ones as `None`. */
  function HourColumn(xs: seq<(Period, Metrics)>, g: Field): (r: seq<Option<real>>)
    ensures |r| == |xs|
    ensures forall i :: 0 <= i < |xs| ==> r[i] == Get(xs[i].1, g)
  {
    if |xs| == 0 then [] else HourColumn(xs[..|xs| - 1], g) + [Get(xs[|xs| - 1].1, g)]
  }

  /** A day is in the rollup once one of its hours is, and its record is
      the hours merged in order. */
  lemma RollupAt(d: AppleData, k: int)
    ensures k in Rollup(d).entries <==> |HoursOf(d, k)| > 0
    ensures Ordered.Lookup(Rollup(d), k, Fresh) == Run(Fresh, HoursOf(d, k), RollStep)
  {
    GroupAt(Ordered.Empty(), Ordered.Items(DailyMap(true, d)), DayOf, Fresh, RollStep, k);
  }

  /** The running total of `g` over a run of entries, a missing value
      counting as 0. */
  function HourTotal(xs: seq<(Period, Metrics)>, g: Field): real
  {
    if |xs| == 0 then 0.0 else HourTotal(xs[..|xs| - 1], g) + GetOrZero(xs[|xs| - 1].1, g)
  }

  /** That total is the sum of the values present. */
  lemma {:induction false} HourTotalIsSum(xs: seq<(Period, Metrics)>, g: Field)
    ensures HourTotal(xs, g) == Sum(Present(HourColumn(xs, g)))
    decreases |xs|
  {
    if |xs| > 0 {
      HourTotalIsSum(xs[..|xs| - 1], g);
      ColumnSum(xs, g);
    }
  }

  lemma {:induction false} RollTotal(xs: seq<(Period, Metrics)>, g: Field)
    requires Cumulative(g) || SleepStage(g)
    ensures GetOrZero(Run(Fresh, xs, RollStep).fields, g) == HourTotal(xs, g)
    decreases |xs|
  {
    if |xs| > 0 {
      var prev := Run(Fresh, xs[..|xs| - 1], RollStep);
      assert Run(Fresh, xs, RollStep) == RollStep(prev, xs[|xs| - 1]);
      StepAddUp(prev, xs[|xs| - 1], g);
      RollTotal(xs[..|xs| - 1], g);
    }
  }

  /** The additive fields of a day are the sums of its hours' values. */
  lemma RollAddUp(xs: seq<(Period, Metrics)>, g: Field)
    requires Cumulative(g) || SleepStage(g)
    ensures GetOrZero(Run(Fresh, xs, RollStep).fields, g) == Sum(Present(HourColumn(xs, g)))
  {
    RollTotal(xs, g);
    HourTotalIsSum(xs, g);
  }

  /** ... and are present once the day has an hour, even when no hour has
      a value (`(t.f ?? 0) + (e.f ?? 0)` writes a 0). */
  lemma RollAddUpPresent(xs: seq<(Period, Metrics)>, g: Field)
    requires Cumulative(g) || SleepStage(g)
    requires |xs| > 0
    ensures g in Run(Fresh, xs, RollStep).fields
  {
    var prev := Run(Fresh, xs[..|xs| - 1], RollStep);
    assert Run(Fresh, xs, RollStep) == RollStep(prev, xs[|xs| - 1]);
    StepAddUp(prev, xs[|xs| - 1], g);
  }

  /** One more hour adds its value, or nothing, to the column's sum. */
  lemma ColumnSum(xs: seq<(Period, Metrics)>, g: Field)
    requires |xs| > 0
    ensures Sum(Present(HourColumn(xs, g)))
         == Sum(Present(HourColumn(xs[..|xs| - 1], g))) + GetOrZero(xs[|xs| - 1].1, g)
  {
    assert HourColumn(xs, g) == HourColumn(xs[..|xs| - 1], g) + [Get(xs[|xs| - 1].1, g)];
    PresentSumAppend(HourColumn(xs[..|xs| - 1], g), Get(xs[|xs| - 1].1, g));
  }

  /** The heart-rate sum, the `hrCount`, and the min and max are present
      exactly when some hour has a value. */
  lemma {:induction false} RollPresence(xs: seq<(Period, Metrics)>, g: Field)
    requires HeartField(g)
    ensures g in Run(Fresh, xs, RollStep).fields <==> |Present(HourColumn(xs, g))| > 0
    decreases |xs|
  {
    if |xs| > 0 {
      var init := xs[..|xs| - 1];
      var x := xs[|xs| - 1];
      var prev := Run(Fresh, init, RollStep);
      assert Run(Fresh, xs, RollStep) == RollStep(prev, x);
      StepPresence(prev, x, g);
      RollPresence(init, g);
      assert HourColumn(xs, g) == HourColumn(init, g) + [Get(x.1, g)];
      PresentAppend(HourColumn(init, g), Get(x.1, g));
    }
  }

  /** The day's heart-rate sum adds the hours that have an average, and
      `hrCount` counts them. */
  lemma {:induction false} RollAverageSum(xs: seq<(Period, Metrics)>)
    ensures GetOrZero(Run(Fresh, xs, RollStep).fields, AverageHeartRate) == Sum(Present(HourColumn(xs, AverageHeartRate)))
    ensures Run(Fresh, xs, RollStep).hrCount == |Present(HourColumn(xs, AverageHeartRate))|
    decreases |xs|
  {
    if |xs| > 0 {
      var init := xs[..|xs| - 1];
      var x := xs[|xs| - 1];
      var prev := Run(Fresh, init, RollStep);
      assert Run(Fresh, xs, RollStep) == RollStep(prev, x);
      StepAddPresent(prev, x);
      RollAverageSum(init);
      assert HourColumn(xs, AverageHeartRate) == HourColumn(init, AverageHeartRate) + [Get(x.1, AverageHeartRate)];
      PresentSumAppend(HourColumn(init, AverageHeartRate), Get(x.1, AverageHeartRate));
    }
  }

  /** The day's minimum heart rate is the least of its hours' minima. */
  lemma {:induction false} RollLowest(xs: seq<(Period, Metrics)>)
    requires |Present(HourColumn(xs, MinHeartRate))| > 0
    ensures Get(Run(Fresh, xs, RollStep).fields, MinHeartRate) == Some(SeqMin(Present(HourColumn(xs, MinHeartRate))))
    decreases |xs|
  {
    var init := xs[..|xs| - 1];
    var x := xs[|xs| - 1];
    var prev := Run(Fresh, init, RollStep);
    assert Run(Fresh, xs, RollStep) == RollStep(prev, x);
    var vs := Present(HourColumn(init, MinHeartRate));
    assert HourColumn(xs, MinHeartRate) == HourColumn(init, MinHeartRate) + [Get(x.1, MinHeartRate)];
    PresentAppend(HourColumn(init, MinHeartRate), Get(x.1, MinHeartRate));
    RollPresence(init, MinHeartRate);
    StepPresence(prev, x, MinHeartRate);
    StepLowest(prev, x);
    if |vs| > 0 {
      RollLowest(init);
      if MinHeartRate in x.1 {
        SeqMinSnoc(vs, x.1[MinHeartRate]);
      }
    }
  }

  /** The day's maximum heart rate is the greatest of its hours' maxima. */
  lemma {:induction false} RollHighest(xs: seq<(Period, Metrics)>)
    requires |Present(HourColumn(xs, MaxHeartRate))| > 0
    ensures Get(Run(Fresh, xs, RollStep).fields, MaxHeartRate) == Some(SeqMax(Present(HourColumn(xs, MaxHeartRate))))
    decreases |xs|
  {
    var init := xs[..|xs| - 1];
    var x := xs[|xs| - 1];
    var prev := Run(Fresh, init, RollStep);
    assert Run(Fresh, xs, RollStep) == RollStep(prev, x);
    var vs := Present(HourColumn(init, MaxHeartRate));
    assert HourColumn(xs, MaxHeartRate) == HourColumn(init, MaxHeartRate) + [Get(x.1, MaxHeartRate)];
    PresentAppend(HourColumn(init, MaxHeartRate), Get(x.1, MaxHeartRate));
    RollPresence(init, MaxHeartRate);
    StepPresence(prev, x, MaxHeartRate);
    StepHighest(prev, x);
    if |vs| > 0 {
      RollHighest(init);
      if MaxHeartRate in x.1 {
        SeqMaxSnoc(vs, x.1[MaxHeartRate]);
      }
    }
  }

  /** Weight, blood pressure and the point vitals keep the first hour's value. */
  lemma {:induction false} RollKeepFirst(xs: seq<(Period, Metrics)>, g: Field)
    requires RollRuleOf(g) == KeepFirst
    ensures Get(Run(Fresh, xs, RollStep).fields, g) == FirstPresent(HourColumn(xs, g))
    decreases |xs|
  {
    if |xs| > 0 {
      var init := xs[..|xs| - 1];
      RollKeepFirst(init, g);
      FirstPresentSnoc(HourColumn(init, g), Get(xs[|xs| - 1].1, g));
    }
  }

  // ---------------------------------------------------------------------
  // What one rolled-up day holds

  /** A day's record once its heart-rate sum is averaged over `hrCount`. */
  function DayRecord(d: AppleData, k: int): Metrics
  {
    FinalizeSlot(Ordered.Lookup(Rollup(d), k, Fresh))
  }

  lemma AddUpNotHeart(g: Field)
    requires Cumulative(g) || SleepStage(g)
    ensures g != AverageHeartRate
  {
  }

  /** Steps, calories, distance, sleep, the stages and exercise minutes of a
      day are the sums over its hours. */
  lemma DayTotal(d: AppleData, k: int, g: Field)
    requires Cumulative(g) || SleepStage(g)
    requires k in Rollup(d).entries
    ensures Get(DayRecord(d, k), g) == Some(Sum(Present(HourColumn(HoursOf(d, k), g))))
  {
    var hs := HoursOf(d, k);
    RollupAt(d, k);
    var sl := Run(Fresh, hs, RollStep);
    RollAddUp(hs, g);
    RollAddUpPresent(hs, g);
    AddUpNotHeart(g);
    assert Get(FinalizeSlot(sl), g) == Get(sl.fields, g);
  }

  /** A day's average heart rate is the rounded mean of its hours' averages;
      a day without one has none. */
  lemma DayHeartRate(d: AppleData, k: int)
    ensures var vs := Present(HourColumn(HoursOf(d, k), AverageHeartRate));
      && (|vs| == 0 ==> Get(DayRecord(d, k), AverageHeartRate).None?)
      && (|vs| > 0 ==> Get(DayRecord(d, k), AverageHeartRate) == Some(Round(Mean(vs)) as real))
  {
    RollupAt(d, k);
    RollPresence(HoursOf(d, k), AverageHeartRate);
    RollAverageSum(HoursOf(d, k));
  }

  /** A day's heart-rate range spans its hours' ranges. */
  lemma DayHeartRange(d: AppleData, k: int)
    ensures var lows := Present(HourColumn(HoursOf(d, k), MinHeartRate));
      var highs := Present(HourColumn(HoursOf(d, k), MaxHeartRate));
      && (|lows| == 0 ==> Get(DayRecord(d, k), MinHeartRate).None?)
      && (|lows| > 0 ==> Get(DayRecord(d, k), MinHeartRate) == Some(SeqMin(lows)))
      && (|highs| == 0 ==> Get(DayRecord(d, k), MaxHeartRate).None?)
      && (|highs| > 0 ==> Get(DayRecord(d, k), MaxHeartRate) == Some(SeqMax(highs)))
  {
    var hs := HoursOf(d, k);
    RollupAt(d, k);
    RollPresence(hs, MinHeartRate);
    RollPresence(hs, MaxHeartRate);
    if |Present(HourColumn(hs, MinHeartRate))| > 0 {
      RollLowest(hs);
    }
    if |Present(HourColumn(hs, MaxHeartRate))| > 0 {
      RollHighest(hs);
    }
  }

  /** Weight, blood pressure and the point vitals of a day are its first
      hour's value that is present. */
  lemma DayFirst(d: AppleData, k: int, g: Field)
    requires RollRuleOf(g) == KeepFirst
    ensures Get(DayRecord(d, k), g) == FirstPresent(HourColumn(HoursOf(d, k), g))
  {
    RollupAt(d, k);
    RollKeepFirst(HoursOf(d, k), g);
  }

  // ---------------------------------------------------------------------
  // The day rows

  /** Some list has a sample keyed `p` only if `p` has the shape the
      grouping gives: an hour when grouping hourly, a day otherwise. */
  lemma {:induction false} HitsShape(bs: seq<Batch>, hourly: bool, p: Period)
    requires HitsAny(bs, hourly, p)
    ensures p.HourPeriod? == hourly
    ensures p.HourPeriod? ==> 0 <= p.hour < 24
    decreases |bs|
  {
    var b := bs[|bs| - 1];
    if Hits(b, hourly, p) {
      match b
      case Summed(_, _, xs) => assert SampleKey(hourly)(Only(xs, SampleKey(hourly), p)[0]) == p;
      case Hearts(xs) => assert HeartKey(hourly)(Only(xs, HeartKey(hourly), p)[0]) == p;
      case Sleeps(xs) => assert SleepKey(hourly)(Only(xs, SleepKey(hourly), p)[0]) == p;
      case Pressures(xs) => assert PressureKey(hourly)(Only(xs, PressureKey(hourly), p)[0]) == p;
      case Latest(_, xs) => assert SampleKey(hourly)(Only(xs, SampleKey(hourly), p)[0]) == p;
    } else {
      HitsShape(bs[..|bs| - 1], hourly, p);
    }
  }

  lemma KeyShape(hourly: bool, d: AppleData, p: Period)
    requires p in DailyMap(hourly, d).entries
    ensures p.HourPeriod? == hourly
    ensures p.HourPeriod? ==> 0 <= p.hour < 24
  {
    DailyMapAt(hourly, d, p);
    HitsShape(Batches(d), hourly, p);
  }

  /** One row per rolled-up day, in rollup order. */
  function RolledRows(d: AppleData): (r: seq<DailyMetrics>)
    ensures |r| == |Rollup(d).keys|
    ensures forall i :: 0 <= i < |r| ==> r[i] == DailyMetrics(Rollup(d).keys[i], DayRecord(d, Rollup(d).keys[i]))
  {
    var t := Rollup(d);
    seq(|t.keys|, i requires 0 <= i < |t.keys| => DailyMetrics(t.keys[i], DayRecord(d, t.keys[i])))
  }

  /** One row per `dailyMap` entry, dated by its day. */
  function PlainRows(d: AppleData): (r: seq<DailyMetrics>)
    ensures |r| == |DailyMap(false, d).keys|
    ensures forall i :: 0 <= i < |r| ==>
      r[i] == DailyMetrics(DailyMap(false, d).keys[i].day, DailyMap(false, d).entries[DailyMap(false, d).keys[i]])
  {
    var t := DailyMap(false, d);
    seq(|t.keys|, i requires 0 <= i < |t.keys| && t.keys[i] in t.entries => DailyMetrics(t.keys[i].day, t.entries[t.keys[i]]))
  }

  /** `daily`: the day rows sorted by date. */
  function Daily(hourly: bool, d: AppleData): seq<DailyMetrics>
  {
    SortByDate(if hourly then RolledRows(d) else PlainRows(d))
  }

  /** Grouping hourly, the rows are exactly the rolled-up days, one per
      date, in date order. */
  lemma DailyRolled(d: AppleData)
    ensures forall row :: row in Daily(true, d) <==> row.date in Rollup(d).entries && row.fields == DayRecord(d, row.date)
    ensures forall i, j :: 0 <= i < j < |Daily(true, d)| ==> Daily(true, d)[i].date < Daily(true, d)[j].date
  {
    var t := Rollup(d);
    var rows := RolledRows(d);
    assert multiset(Daily(true, d)) == multiset(rows);
    forall row ensures row in Daily(true, d) <==> row.date in t.entries && row.fields == DayRecord(d, row.date) {
      assert row in Daily(true, d) <==> row in multiset(rows);
      if row.date in t.entries {
        var i :| 0 <= i < |t.keys| && t.keys[i] == row.date;
        assert row.fields == DayRecord(d, row.date) ==> rows[i] == row;
      }
    }
    assert DistinctDates(rows) by {
      forall i, j | 0 <= i < j < |rows| ensures rows[i].date != rows[j].date {
        assert rows[i].date == t.keys[i] && rows[j].date == t.keys[j];
      }
    }
    SortedStrictly(rows);
  }

  /** Grouping by day, the rows are exactly the `dailyMap` entries, one per
      date, in date order. */
  lemma DailyPlain(d: AppleData)
    ensures forall row :: row in Daily(false, d) <==>
      DayPeriod(row.date) in DailyMap(false, d).entries && row.fields == DailyMap(false, d).entries[DayPeriod(row.date)]
    ensures forall i, j :: 0 <= i < j < |Daily(false, d)| ==> Daily(false, d)[i].date < Daily(false, d)[j].date
  {
    var t := DailyMap(false, d);
    var rows := PlainRows(d);
    assert multiset(Daily(false, d)) == multiset(rows);
    PlainKeysAreDays(d);
    forall row ensures row in Daily(false, d) <==>
      DayPeriod(row.date) in t.entries && row.fields == t.entries[DayPeriod(row.date)] {
      assert row in Daily(false, d) <==> row in multiset(rows);
      if DayPeriod(row.date) in t.entries {
        var i :| 0 <= i < |t.keys| && t.keys[i] == DayPeriod(row.date);
        assert row.fields == t.entries[DayPeriod(row.date)] ==> rows[i] == row;
      }
    }
    PlainRowsDistinct(d);
    SortedStrictly(rows);
  }

  lemma PlainKeysAreDays(d: AppleData)
    ensures forall i :: 0 <= i < |DailyMap(false, d).keys| ==>
      DailyMap(false, d).keys[i] == DayPeriod(DailyMap(false, d).keys[i].day)
  {
    var t := DailyMap(false, d);
    forall i | 0 <= i < |t.keys| ensures t.keys[i] == DayPeriod(t.keys[i].day) {
      KeyShape(false, d, t.keys[i]);
    }
  }

  lemma PlainRowsDistinct(d: AppleData)
    ensures DistinctDates(PlainRows(d))
  {
    var t := DailyMap(false, d);
    var rows := PlainRows(d);
    PlainKeysAreDays(d);
    forall i, j | 0 <= i < j < |rows| ensures rows[i].date != rows[j].date {
      assert t.keys[i] != t.keys[j];
    }
  }

  // ---------------------------------------------------------------------
  // The window summary

  /** How the summary reducer folds a day row's value of a field in. */
  datatype SummaryRule =
    | Totalled          // `(acc.f ?? 0) + (entry.f ?? 0)`
    | FirstOf           // `acc.f ?? entry.f`
    | WeightOrFallback  // `acc.f ?? entry.f ?? weightInKg`
    | NotSummarized     // not written; `...acc` carries what the seed had

  function SummaryRuleOf(g: Field): SummaryRule
  {
    if Cumulative(g) then Totalled
    else if g == WeightKg then WeightOrFallback
    else if RowField(g) then FirstOf
    else NotSummarized
  }

  function Summarized(acc: Metrics, row: Metrics, fallback: Option<real>, g: Field): Option<real>
  {
    match SummaryRuleOf(g)
    case Totalled => Some(GetOrZero(acc, g) + GetOrZero(row, g))
    case FirstOf => OrElse(Get(acc, g), Get(row, g))
    case WeightOrFallback => OrElse(OrElse(Get(acc, g), Get(row, g)), fallback)
    case NotSummarized => Get(acc, g)
  }

  function SummaryMerge(acc: Metrics, row: Metrics, fallback: Option<real>): Metrics
  {
    map g | g in AllFields && Summarized(acc, row, fallback, g).Some? :: Summarized(acc, row, fallback, g).value
  }

  lemma SummaryMergeAt(acc: Metrics, row: Metrics, fallback: Option<real>, g: Field)
    ensures Get(SummaryMerge(acc, row, fallback), g) == Summarized(acc, row, fallback, g)
  {
    AllFieldsComplete(g);
  }

  /** The reducer, with the converted weight it falls back on. */
  function SummaryStep(fallback: Option<real>): (Metrics, DailyMetrics) -> Metrics
  {
    (acc, row: DailyMetrics) => SummaryMerge(acc, row.fields, fallback)
  }

  /** `weight?.value ? weight.value * 0.453592 : undefined`: pounds to
      kilograms, a missing or zero reading giving none. */
  function WeightInKg(pounds: Option<real>): (r: Option<real>)
    ensures r.Some? <==> pounds.Some? && pounds.value != 0.0
    ensures r.Some? ==> r.value == pounds.value * 0.453592
  {
    if pounds.Some? && pounds.value != 0.0 then Some(pounds.value * 0.453592) else None
  }

  /** `daily.reduce(..., { platform: 'ios' })`. */
  function AppleSummaryFields(rows: seq<DailyMetrics>, fallback: Option<real>): Metrics
  {
    Run(map[], rows, SummaryStep(fallback))
  }

  /** The values of `g` across the day rows. */
  function RowColumn(rows: seq<DailyMetrics>, g: Field): (r: seq<Option<real>>)
    ensures |r| == |rows|
    ensures forall i :: 0 <= i < |rows| ==> r[i] == Get(rows[i].fields, g)
  {
    if |rows| == 0 then [] else RowColumn(rows[..|rows| - 1], g) + [Get(rows[|rows| - 1].fields, g)]
  }

  function RowTotal(rows: seq<DailyMetrics>, g: Field): real
  {
    if |rows| == 0 then 0.0 else RowTotal(rows[..|rows| - 1], g) + GetOrZero(rows[|rows| - 1].fields, g)
  }

  lemma {:induction false} RowTotalIsSum(rows: seq<DailyMetrics>, g: Field)
    ensures RowTotal(rows, g) == Sum(Present(RowColumn(rows, g)))
    decreases |rows|
  {
    if |rows| > 0 {
      var init := rows[..|rows| - 1];
      RowTotalIsSum(init, g);
      assert RowColumn(rows, g) == RowColumn(init, g) + [Get(rows[|rows| - 1].fields, g)];
      PresentSumAppend(RowColumn(init, g), Get(rows[|rows| - 1].fields, g));
    }
  }

  lemma {:induction false} SummaryRunTotal(rows: seq<DailyMetrics>, fallback: Option<real>, g: Field)
    requires Cumulative(g)
    ensures GetOrZero(AppleSummaryFields(rows, fallback), g) == RowTotal(rows, g)
    ensures |rows| > 0 ==> g in AppleSummaryFields(rows, fallback)
    decreases |rows|
  {
    if |rows| > 0 {
      var init := rows[..|rows| - 1];
      var acc := AppleSummaryFields(init, fallback);
      assert AppleSummaryFields(rows, fallback) == SummaryMerge(acc, rows[|rows| - 1].fields, fallback);
      SummaryMergeAt(acc, rows[|rows| - 1].fields, fallback, g);
      SummaryRunTotal(init, fallback, g);
    }
  }

  /** Steps, calories, distance, sleep and exercise minutes of the summary
      are the totals over the days, and are present once there is a day. */
  lemma SummaryTotal(rows: seq<DailyMetrics>, fallback: Option<real>, g: Field)
    requires Cumulative(g)
    ensures |rows| == 0 ==> Get(AppleSummaryFields(rows, fallback), g).None?
    ensures |rows| > 0 ==> Get(AppleSummaryFields(rows, fallback), g) == Some(Sum(Present(RowColumn(rows, g))))
  {
    SummaryRunTotal(rows, fallback, g);
    RowTotalIsSum(rows, g);
  }

  /** Heart rate, blood pressure and the point vitals of the summary are
      the first day's value that is present. */
  lemma {:induction false} SummaryFirst(rows: seq<DailyMetrics>, fallback: Option<real>, g: Field)
    requires SummaryRuleOf(g) == FirstOf
    ensures Get(AppleSummaryFields(rows, fallback), g) == FirstPresent(RowColumn(rows, g))
    decreases |rows|
  {
    if |rows| > 0 {
      var init := rows[..|rows| - 1];
      var acc := AppleSummaryFields(init, fallback);
      assert AppleSummaryFields(rows, fallback) == SummaryMerge(acc, rows[|rows| - 1].fields, fallback);
      SummaryMergeAt(acc, rows[|rows| - 1].fields, fallback, g);
      SummaryFirst(init, fallback, g);
      assert RowColumn(rows, g) == RowColumn(init, g) + [Get(rows[|rows| - 1].fields, g)];
      FirstPresentSnoc(RowColumn(init, g), Get(rows[|rows| - 1].fields, g));
    }
  }

  /** The breakdown fields (stages, ranges) are not part of the summary. */
  lemma {:induction false} SummaryOmits(rows: seq<DailyMetrics>, fallback: Option<real>, g: Field)
    requires !RowField(g)
    ensures g !in AppleSummaryFields(rows, fallback)
    decreases |rows|
  {
    if |rows| > 0 {
      var init := rows[..|rows| - 1];
      var acc := AppleSummaryFields(init, fallback);
      assert AppleSummaryFields(rows, fallback) == SummaryMerge(acc, rows[|rows| - 1].fields, fallback);
      SummaryMergeAt(acc, rows[|rows| - 1].fields, fallback, g);
      SummaryOmits(init, fallback, g);
    }
  }

  /** With a converted weight, the summary weight is fixed by the first day:
      its own weight, else the converted one; later days cannot change it. */
  lemma {:induction false} SummaryWeightFallback(rows: seq<DailyMetrics>, fallback: Option<real>)
    requires fallback.Some? && |rows| > 0
    ensures Get(AppleSummaryFields(rows, fallback), WeightKg) == OrElse(Get(rows[0].fields, WeightKg), fallback)
    decreases |rows|
  {
    var init := rows[..|rows| - 1];
    var acc := AppleSummaryFields(init, fallback);
    assert AppleSummaryFields(rows, fallback) == SummaryMerge(acc, rows[|rows| - 1].fields, fallback);
    SummaryMergeAt(acc, rows[|rows| - 1].fields, fallback, WeightKg);
    if |init| > 0 {
      SummaryWeightFallback(init, fallback);
    } else {
      assert acc == map[];
    }
  }

  /** Without one, the summary weight is the first day's weight that is present. */
  lemma {:induction false} SummaryWeightFirst(rows: seq<DailyMetrics>)
    ensures Get(AppleSummaryFields(rows, None), WeightKg) == FirstPresent(RowColumn(rows, WeightKg))
    decreases |rows|
  {
    if |rows| > 0 {
      var init := rows[..|rows| - 1];
      var acc := AppleSummaryFields(init, None);
      assert AppleSummaryFields(rows, None) == SummaryMerge(acc, rows[|rows| - 1].fields, None);
      SummaryMergeAt(acc, rows[|rows| - 1].fields, None, WeightKg);
      SummaryWeightFirst(init);
      assert RowColumn(rows, WeightKg) == RowColumn(init, WeightKg) + [Get(rows[|rows| - 1].fields, WeightKg)];
      FirstPresentSnoc(RowColumn(init, WeightKg), Get(rows[|rows| - 1].fields, WeightKg));
    }
  }

  /** The summary of a list of day rows, field by field: totals are sums
      over the rows, point fields the first present value, and nothing
      outside the thirteen metric fields. */
  lemma SummaryOfRows(rows: seq<DailyMetrics>, fallback: Option<real>)
    ensures forall g :: Cumulative(g) ==>
      Get(AppleSummaryFields(rows, fallback), g) == (if |rows| == 0 then None else Some(Sum(Present(RowColumn(rows, g)))))
    ensures forall g :: SummaryRuleOf(g) == FirstOf ==>
      Get(AppleSummaryFields(rows, fallback), g) == FirstPresent(RowColumn(rows, g))
    ensures forall g :: !RowField(g) ==> g !in AppleSummaryFields(rows, fallback)
  {
    forall g | Cumulative(g) ensures
      Get(AppleSummaryFields(rows, fallback), g) == (if |rows| == 0 then None else Some(Sum(Present(RowColumn(rows, g))))) {
      SummaryTotal(rows, fallback, g);
    }
    forall g | SummaryRuleOf(g) == FirstOf
      ensures Get(AppleSummaryFields(rows, fallback), g) == FirstPresent(RowColumn(rows, g)) {
      SummaryFirst(rows, fallback, g);
    }
    forall g | !RowField(g) ensures g !in AppleSummaryFields(rows, fallback) {
      SummaryOmits(rows, fallback, g);
    }
  }

  // ---------------------------------------------------------------------
  // Weight in the rows and in the summary

  /** No day row carries a weight: no list writes one into `dailyMap`, and
      the rollup only keeps the hours' (missing) weights. */
  lemma DailyNoWeight(hourly: bool, d: AppleData)
    ensures forall i :: 0 <= i < |Daily(hourly, d)| ==> WeightKg !in Daily(hourly, d)[i].fields
  {
    if hourly {
      RolledNoWeight(d);
    } else {
      PlainNoWeight(d);
    }
  }

  lemma WeightKeptFirst()
    ensures RollRuleOf(WeightKg) == KeepFirst
  {
  }

  lemma RolledNoWeight(d: AppleData)
    ensures forall i :: 0 <= i < |Daily(true, d)| ==> WeightKg !in Daily(true, d)[i].fields
  {
    DailyRolled(d);
    forall i | 0 <= i < |Daily(true, d)| ensures WeightKg !in Daily(true, d)[i].fields {
      var row := Daily(true, d)[i];
      assert row in Daily(true, d);
      DayNoWeight(d, row.date);
    }
  }

  lemma DayNoWeight(d: AppleData, k: int)
    ensures WeightKg !in DayRecord(d, k)
  {
    WeightKeptFirst();
    HoursNoWeight(d, k);
    DayFirst(d, k, WeightKg);
  }

  lemma PlainNoWeight(d: AppleData)
    ensures forall i :: 0 <= i < |Daily(false, d)| ==> WeightKg !in Daily(false, d)[i].fields
  {
    DailyPlain(d);
    forall i | 0 <= i < |Daily(false, d)| ensures WeightKg !in Daily(false, d)[i].fields {
      var row := Daily(false, d)[i];
      assert row in Daily(false, d);
      EntryNoWeight(false, d, DayPeriod(row.date));
    }
  }

  lemma EntryNoWeight(hourly: bool, d: AppleData, p: Period)
    requires p in DailyMap(hourly, d).entries
    ensures WeightKg !in DailyMap(hourly, d).entries[p]
  {
    DailyMapAt(hourly, d, p);
    EntryWeight(hourly, d, p);
  }

  lemma HoursNoWeight(d: AppleData, k: int)
    ensures FirstPresent(HourColumn(HoursOf(d, k), WeightKg)).None?
  {
    var t := DailyMap(true, d);
    var items := Ordered.Items(t);
    var hs := HoursOf(d, k);
    forall i | 0 <= i < |hs| ensures HourColumn(hs, WeightKg)[i].None? {
      assert hs[i] in items;
      var j :| 0 <= j < |items| && items[j] == hs[i];
      EntryNoWeight(true, d, t.keys[j]);
    }
  }

  /** The summary weight is the converted latest weight whenever there is a
      day row, and missing otherwise. */
  lemma SummaryWeight(hourly: bool, d: AppleData)
    ensures var rows := Daily(hourly, d);
      Get(AppleSummaryFields(rows, WeightInKg(d.weight)), WeightKg) == if |rows| > 0 then WeightInKg(d.weight) else None
  {
    var rows := Daily(hourly, d);
    var fallback := WeightInKg(d.weight);
    DailyNoWeight(hourly, d);
    if |rows| > 0 && fallback.Some? {
      SummaryWeightFallback(rows, fallback);
    } else if fallback.None? {
      SummaryWeightFirst(rows);
    }
  }

  // ---------------------------------------------------------------------
  // The intraday projection

  /** One intraday series: the field it reads, its name and its unit. */
  datatype Series = Series(field: Field, metricType: string, unit: string)

  /** The series, in the order each entry's points are pushed. */
  const HourlySeries: seq<Series> := [
    Series(Steps, "steps", "count"),
    Series(AverageHeartRate, "heart_rate", "bpm"),
    Series(Calories, "calories", "kcal"),
    Series(DistanceKm, "distance", "km"),
    Series(SleepMinutes, "sleep_minutes", "min"),
    Series(ActiveMinutes, "active_minutes", "min"),
    Series(BloodPressureSystolic, "bp_systolic", "mmHg"),
    Series(BloodPressureDiastolic, "bp_diastolic", "mmHg"),
    Series(BloodGlucoseMgPerDl, "blood_glucose", "mg/dL"),
    Series(BodyTemperatureC, "body_temp", "C"),
    Series(OxygenSaturationPercent, "oxygen_sat", "%"),
    Series(RespiratoryRate, "respiratory_rate", "breaths/min")]

  const APPLE_SOURCE: string := "apple_health"

  /** `Number(key.slice(11, 13))`: the hour of an hour key; a day key has
      nothing there, which `Number` reads as 0. */
  function HourOf(p: Period): int
  {
    match p
    case HourPeriod(_, h) => h
    case DayPeriod(_) => 0
  }

  function Point(p: Period, m: Metrics, s: Series): HourlyMetric
    requires s.field in m
  {
    HourlyMetric(p.day, HourOf(p), s.metricType, m[s.field], s.unit, APPLE_SOURCE)
  }

  /** `pushIfNumber` for each series: a point for every field the entry has. */
  function EntryPoints(p: Period, m: Metrics, ss: seq<Series>): (r: seq<HourlyMetric>)
  {
    if |ss| == 0 then []
    else (if ss[0].field in m then [Point(p, m, ss[0])] else []) + EntryPoints(p, m, ss[1..])
  }

  /** The points of every entry, entry after entry. */
  function Points(items: seq<(Period, Metrics)>): seq<HourlyMetric>
  {
    if |items| == 0 then [] else EntryPoints(items[0].0, items[0].1, HourlySeries) + Points(items[1..])
  }

  function HourlyPoints(d: AppleData): seq<HourlyMetric>
  {
    Points(Ordered.Items(DailyMap(true, d)))
  }

  /** An entry yields exactly one point per series whose field it has. */
  lemma {:induction false} EntryPointsAre(p: Period, m: Metrics, ss: seq<Series>)
    ensures forall x :: x in EntryPoints(p, m, ss) <==>
      exists j :: 0 <= j < |ss| && ss[j].field in m && x == Point(p, m, ss[j])
    decreases |ss|
  {
    if |ss| > 0 {
      EntryPointsAre(p, m, ss[1..]);
      forall x ensures x in EntryPoints(p, m, ss) <==>
        exists j :: 0 <= j < |ss| && ss[j].field in m && x == Point(p, m, ss[j]) {
        if x in EntryPoints(p, m, ss[1..]) {
          var j :| 0 <= j < |ss[1..]| && ss[1..][j].field in m && x == Point(p, m, ss[1..][j]);
          assert ss[j + 1] == ss[1..][j];
        }
        if exists j :: 0 <= j < |ss| && ss[j].field in m && x == Point(p, m, ss[j]) {
          var j :| 0 <= j < |ss| && ss[j].field in m && x == Point(p, m, ss[j]);
          if j > 0 {
            assert ss[1..][j - 1] == ss[j];
          }
        }
      }
    }
  }

  /** The projection holds exactly the points of the entries. */
  lemma {:induction false} PointsAre(items: seq<(Period, Metrics)>)
    ensures forall x :: x in Points(items) <==>
      exists i, j :: 0 <= i < |items| && 0 <= j < |HourlySeries| && HourlySeries[j].field in items[i].1 &&
        x == Point(items[i].0, items[i].1, HourlySeries[j])
    decreases |items|
  {
    if |items| > 0 {
      PointsAre(items[1..]);
      EntryPointsAre(items[0].0, items[0].1, HourlySeries);
      forall x ensures x in Points(items) <==>
        exists i, j :: 0 <= i < |items| && 0 <= j < |HourlySeries| && HourlySeries[j].field in items[i].1 &&
          x == Point(items[i].0, items[i].1, HourlySeries[j]) {
        if x in Points(items[1..]) {
          var i, j :| 0 <= i < |items[1..]| && 0 <= j < |HourlySeries| && HourlySeries[j].field in items[1..][i].1 &&
            x == Point(items[1..][i].0, items[1..][i].1, HourlySeries[j]);
          assert items[i + 1] == items[1..][i];
        }
        if exists i, j :: 0 <= i < |items| && 0 <= j < |HourlySeries| && HourlySeries[j].field in items[i].1 &&
             x == Point(items[i].0, items[i].1, HourlySeries[j]) {
          var i, j :| 0 <= i < |items| && 0 <= j < |HourlySeries| && HourlySeries[j].field in items[i].1 &&
            x == Point(items[i].0, items[i].1, HourlySeries[j]);
          if i > 0 {
            assert items[1..][i - 1] == items[i];
          }
        }
      }
    }
  }

  /** Every point of the projection is an hour of the day of one
      `dailyMap` entry, and every present series of every entry has its
      point. */
  lemma HourlyPointsAre(d: AppleData)
    ensures var t := DailyMap(true, d);
      forall x :: x in HourlyPoints(d) <==>
        exists i, j :: 0 <= i < |t.keys| && 0 <= j < |HourlySeries| && HourlySeries[j].field in t.entries[t.keys[i]] &&
          x == Point(t.keys[i], t.entries[t.keys[i]], HourlySeries[j])
  {
    PointsAre(Ordered.Items(DailyMap(true, d)));
  }

  /** Each point carries the hour of its key and the HealthKit source tag. */
  lemma HourlyPointsShape(d: AppleData)
    ensures forall x :: x in HourlyPoints(d) ==> 0 <= x.hour < 24 && x.source == APPLE_SOURCE
  {
    var t := DailyMap(true, d);
    var items := Ordered.Items(t);
    PointsAre(items);
    forall x | x in HourlyPoints(d) ensures 0 <= x.hour < 24 && x.source == APPLE_SOURCE {
      var i, j :| 0 <= i < |items| && 0 <= j < |HourlySeries| && HourlySeries[j].field in items[i].1 &&
        x == Point(items[i].0, items[i].1, HourlySeries[j]);
      KeyShape(true, d, t.keys[i]);
    }
  }

  // ---------------------------------------------------------------------
  // The range result

  /** The day rows of the range result: one per date, strictly ascending,
      none with a weight; hourly, the rolled-up days, otherwise the day entries. */
  lemma RangeRows(hourly: bool, d: AppleData)
    ensures forall i, j :: 0 <= i < j < |Daily(hourly, d)| ==> Daily(hourly, d)[i].date < Daily(hourly, d)[j].date
    ensures forall i :: 0 <= i < |Daily(hourly, d)| ==> WeightKg !in Daily(hourly, d)[i].fields
    ensures hourly ==> forall row :: row in Daily(hourly, d) <==>
      row.date in Rollup(d).entries && row.fields == DayRecord(d, row.date)
    ensures !hourly ==> forall row :: row in Daily(hourly, d) <==>
      DayPeriod(row.date) in DailyMap(false, d).entries && row.fields == DailyMap(false, d).entries[DayPeriod(row.date)]
  {
    DailyNoWeight(hourly, d);
    if hourly {
      DailyRolled(d);
    } else {
      DailyPlain(d);
    }
  }

  /** The summary of the range result, field by field. */
  lemma RangeSummary(hourly: bool, d: AppleData)
    ensures forall g :: Cumulative(g) ==>
      Get(AppleSummaryFields(Daily(hourly, d), WeightInKg(d.weight)), g) ==
      (if |Daily(hourly, d)| == 0 then None else Some(Sum(Present(RowColumn(Daily(hourly, d), g)))))
    ensures forall g :: SummaryRuleOf(g) == FirstOf ==>
      Get(AppleSummaryFields(Daily(hourly, d), WeightInKg(d.weight)), g) == FirstPresent(RowColumn(Daily(hourly, d), g))
    ensures Get(AppleSummaryFields(Daily(hourly, d), WeightInKg(d.weight)), WeightKg) ==
      if |Daily(hourly, d)| > 0 then WeightInKg(d.weight) else None
    ensures forall g :: !RowField(g) ==> g !in AppleSummaryFields(Daily(hourly, d), WeightInKg(d.weight))
  {
    SummaryWeight(hourly, d);
    SummaryOfRows(Daily(hourly, d), WeightInKg(d.weight));
  }

  /** `syncAppleHealthRange(start, end, hourly)`, given the lists the SDK
      returned for the window (the sleep sessions for display are not
      modelled). Every read whose getter reports an error to its callback is
      an empty list; a getter that throws synchronously is not modelled, so
      the model never rejects. */
  function AppleRange(hourly: bool, d: AppleData): (r: RangeResult)
    ensures r.platform == Ios && r.summary.platform == Ios
    ensures r.daily == Daily(hourly, d)
    ensures r.summary.fields == AppleSummaryFields(r.daily, WeightInKg(d.weight))
    // the rows: one per date, strictly ascending, none with a weight;
    // hourly, they are the rolled-up days, otherwise the day entries
    ensures forall i, j :: 0 <= i < j < |r.daily| ==> r.daily[i].date < r.daily[j].date
    ensures forall i :: 0 <= i < |r.daily| ==> WeightKg !in r.daily[i].fields
    ensures hourly ==> forall row :: row in r.daily <==> row.date in Rollup(d).entries && row.fields == DayRecord(d, row.date)
    ensures !hourly ==> forall row :: row in r.daily <==>
      DayPeriod(row.date) in DailyMap(false, d).entries && row.fields == DailyMap(false, d).entries[DayPeriod(row.date)]
    // the summary: totals are sums over the rows, point fields the first
    // present value, the weight the converted latest weight once there is a
    // row, and no breakdown field
    ensures forall g :: Cumulative(g) ==>
      Get(r.summary.fields, g) == (if |r.daily| == 0 then None else Some(Sum(Present(RowColumn(r.daily, g)))))
    ensures forall g :: SummaryRuleOf(g) == FirstOf ==> Get(r.summary.fields, g) == FirstPresent(RowColumn(r.daily, g))
    ensures Get(r.summary.fields, WeightKg) == if |r.daily| > 0 then WeightInKg(d.weight) else None
    ensures forall g :: !RowField(g) ==> g !in r.summary.fields
    // the intraday points, in hourly mode only
    ensures hourly ==> r.hourly == HourlyPoints(d)
    ensures hourly ==> forall x :: x in r.hourly ==> 0 <= x.hour < 24 && x.source == APPLE_SOURCE
    ensures !hourly ==> r.hourly == []
  {
    var daily := Daily(hourly, d);
    RangeRows(hourly, d);
    RangeSummary(hourly, d);
    HourlyPointsShape(d);
    RangeResult(Ios, Summary(Ios, AppleSummaryFields(daily, WeightInKg(d.weight))), daily,
                if hourly then HourlyPoints(d) else [])
  }
}

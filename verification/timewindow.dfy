/** The time-window utility: resolves a named range to a
    [start-of-day, end-of-day] window, and derives today's day key.
    Instants are a calendar-day index plus milliseconds into that day. */
module TimeWindow {
  import opened Wrappers
  import Text

  const MS_PER_DAY: int := 86_400_000
  /** The last millisecond of a day, 23:59:59.999. */
  const LAST_MS: int := MS_PER_DAY - 1

  type MsOfDay = x: int | 0 <= x < MS_PER_DAY

  /** A point in time: a calendar day and the milliseconds elapsed in it. */
  datatype Instant = Instant(day: int, ms: MsOfDay)

  /** Milliseconds since day 0 began (`getTime`, up to an offset). */
  function Millis(t: Instant): int
  {
    t.day * MS_PER_DAY + t.ms
  }

  predicate NotAfter(a: Instant, b: Instant)
  {
    a.day < b.day || (a.day == b.day && a.ms <= b.ms)
  }

  /** Instants are ordered as their millisecond clocks are. */
  lemma NotAfterIsMillisOrder(a: Instant, b: Instant)
    ensures NotAfter(a, b) <==> Millis(a) <= Millis(b)
  {
    if a.day < b.day {
      assert Millis(a) < (a.day + 1) * MS_PER_DAY <= b.day * MS_PER_DAY;
    } else if a.day > b.day {
      assert Millis(b) < (b.day + 1) * MS_PER_DAY <= a.day * MS_PER_DAY;
    }
  }

  /** `setHours(0, 0, 0, 0)`. */
  function StartOfDay(t: Instant): (r: Instant)
    ensures r.day == t.day && r.ms == 0
    ensures NotAfter(r, t)
  {
    Instant(t.day, 0)
  }

  /** `setHours(23, 59, 59, 999)`. */
  function EndOfDay(t: Instant): (r: Instant)
    ensures r.day == t.day && r.ms == LAST_MS
    ensures NotAfter(t, r)
  {
    Instant(t.day, LAST_MS)
  }

  /** `setDate(getDate() + n)`: the same time of day, `n` days later. */
  function AddDays(t: Instant, n: int): (r: Instant)
    ensures r.day == t.day + n && r.ms == t.ms
  {
    Instant(t.day + n, t.ms)
  }

  datatype RangeKey = Today | Last7Days | Last30Days | Custom

  datatype Window = Window(start: Instant, end: Instant)

  /** Number of calendar days the window touches, first and last included. */
  function CalendarDays(w: Window): int
  {
    w.end.day - w.start.day + 1
  }

  /** A custom bound as the source reads it: absent or empty text is ignored
      (`customStart ? new Date(customStart) : null`), and text that `parse`
      (the `Date` constructor) rejects is ignored too (`isNaN(getTime())`). */
  function ParsedBound(bound: Option<string>, parse: string -> Option<Instant>): (r: Option<Instant>)
    ensures bound.None? ==> r.None?
    ensures bound.Some? && bound.value == "" ==> r.None?
    ensures bound.Some? && bound.value != "" ==> r == parse(bound.value)
  {
    match bound
    case None => None
    case Some(s) => if s == "" then None else parse(s)
  }

  /** `computeRange(rangeKey, customStart, customEnd)` evaluated at instant `now`. */
  function ComputeRange(key: RangeKey, now: Instant, customStart: Option<string>,
                        customEnd: Option<string>, parse: string -> Option<Instant>): (w: Window)
    // today is the unmodified default
    ensures key == Today ==> w == Window(StartOfDay(now), EndOfDay(now))
    // the trailing windows end today and reach back 6 (29) whole days
    ensures key == Last7Days ==> w == Window(Instant(now.day - 6, 0), EndOfDay(now)) && CalendarDays(w) == 7
    ensures key == Last30Days ==> w == Window(Instant(now.day - 29, 0), EndOfDay(now)) && CalendarDays(w) == 30
    // every named range is a proper window starting at midnight and ending at 23:59:59.999
    ensures key != Custom ==> Millis(w.start) < Millis(w.end) && w.start.ms == 0 && w.end.ms == LAST_MS
    // custom bounds are replaced independently, each only when supplied and valid
    ensures key == Custom ==>
      var s := ParsedBound(customStart, parse);
      w.start == (if s.Some? then StartOfDay(s.value) else StartOfDay(now))
    ensures key == Custom ==>
      var e := ParsedBound(customEnd, parse);
      w.end == (if e.Some? then EndOfDay(e.value) else EndOfDay(now))
  {
    var end := EndOfDay(now);
    var start := StartOfDay(now);
    match key
    case Today => Window(start, end)
    case Last7Days => Window(AddDays(start, -6), end)
    case Last30Days => Window(AddDays(start, -29), end)
    case Custom =>
      var s := ParsedBound(customStart, parse);
      var e := ParsedBound(customEnd, parse);
      Window(if s.Some? then StartOfDay(s.value) else start,
             if e.Some? then EndOfDay(e.value) else end)
  }

  /** A custom window is not checked for order: a valid start after a valid
      end is kept as given. */
  lemma CustomWindowMayBeReversed()
    ensures var parse := (s: string) => if s == "late" then Some(Instant(10, 0)) else Some(Instant(3, 0));
            var w := ComputeRange(Custom, Instant(5, 0), Some("late"), Some("early"), parse);
            Millis(w.end) < Millis(w.start)
  {
  }

  /** `todayKey()`: the first ten characters of the ISO timestamp of now. */
  function TodayKey(nowIso: string): (k: string)
    requires |nowIso| >= 10
    ensures |k| == 10 && Text.StartsWith(nowIso, k)
  {
    nowIso[..10]
  }

  /** The key of an ISO timestamp is exactly its calendar date's `YYYY-MM-DD`. */
  lemma TodayKeyIsDateKey(d: Text.CivilDate, t: Text.ClockTime)
    requires Text.ValidDate(d) && Text.ValidTime(t)
    ensures TodayKey(Text.IsoTimestamp(d, t)) == Text.DateKey(d)
    ensures Text.ParseDateKey(TodayKey(Text.IsoTimestamp(d, t))) == d
  {
    var iso := Text.IsoTimestamp(d, t);
    assert iso[..10] == Text.DateKey(d);
    Text.DateKeyRoundTrip(d);
  }
}

/** String helpers: the ASCII part of `toUpperCase`, `includes`, and the
    fixed-width ISO-8601 rendering whose first ten characters serve as a
    calendar-day key. */
module Text {

  /** Upper-case of one character; only the ASCII letters change. */
  function UpperChar(c: char): char
  {
    if 'a' <= c <= 'z' then (c as int - 32) as char else c
  }

  /** `String(s).toUpperCase()`, restricted to ASCII letters. */
  function Upper(s: string): (r: string)
    ensures |r| == |s|
    ensures forall i :: 0 <= i < |s| ==> r[i] == UpperChar(s[i])
  {
    if |s| == 0 then "" else [UpperChar(s[0])] + Upper(s[1..])
  }

  lemma {:induction false} UpperIdempotent(s: string)
    ensures Upper(Upper(s)) == Upper(s)
  {
    var u := Upper(s);
    assert forall i :: 0 <= i < |s| ==> Upper(u)[i] == u[i];
  }

  /** A label with no lower-case letter is its own upper case. */
  lemma UpperOfUpper(s: string)
    requires forall i :: 0 <= i < |s| ==> !('a' <= s[i] <= 'z')
    ensures Upper(s) == s
  {
    assert forall i :: 0 <= i < |s| ==> Upper(s)[i] == s[i];
  }

  /** `s.startsWith(p)`. */
  predicate StartsWith(s: string, p: string)
  {
    |p| <= |s| && s[..|p|] == p
  }

  /** `s.includes(p)`: `p` occurs somewhere in `s`. */
  predicate Contains(s: string, p: string)
    decreases |s|
  {
    StartsWith(s, p) || (|s| > 0 && Contains(s[1..], p))
  }

  /** `p` occurs in `s` starting at position `i`. */
  predicate OccursAt(s: string, p: string, i: int)
  {
    0 <= i <= |s| - |p| && s[i..i + |p|] == p
  }

  /** `Contains` agrees with the positional reading of `includes`. */
  lemma {:induction false} ContainsAt(s: string, p: string)
    ensures Contains(s, p) <==> exists i :: OccursAt(s, p, i)
    decreases |s|
  {
    if |s| > 0 {
      ContainsAt(s[1..], p);
      if Contains(s[1..], p) {
        var i :| OccursAt(s[1..], p, i);
        assert s[i + 1..i + 1 + |p|] == s[1..][i..i + |p|];
        assert OccursAt(s, p, i + 1);
      }
      if StartsWith(s, p) {
        assert OccursAt(s, p, 0);
      }
      if exists i :: OccursAt(s, p, i) {
        var i :| OccursAt(s, p, i);
        if i > 0 {
          assert s[1..][i - 1..i - 1 + |p|] == s[i..i + |p|];
          assert OccursAt(s[1..], p, i - 1);
        }
      }
    } else {
      if exists i :: OccursAt(s, p, i) {
        var i :| OccursAt(s, p, i);
        assert s[..|p|] == p;
      }
      if Contains(s, p) {
        assert OccursAt(s, p, 0);
      }
    }
  }

  /** A label lacking one letter of a keyword does not contain it. */
  lemma {:induction false} MissingLetter(s: string, p: string, k: nat)
    requires k < |p|
    requires forall i :: 0 <= i < |s| ==> s[i] != p[k]
    ensures !Contains(s, p)
    decreases |s|
  {
    if |s| > 0 {
      if |p| <= |s| {
        assert s[..|p|][k] == s[k];
      }
      MissingLetter(s[1..], p, k);
    }
  }

  function Pow10(n: nat): (r: nat)
    ensures r >= 1
  {
    if n == 0 then 1 else 10 * Pow10(n - 1)
  }

  function Digit(n: int): char
    requires 0 <= n < 10
  {
    ('0' as int + n) as char
  }

  predicate IsDigit(c: char) { '0' <= c <= '9' }

  /** `String(n).padStart(width, '0')` for a number that fits in `width` digits. */
  function PadDigits(n: nat, width: nat): (r: string)
    requires n < Pow10(width)
    ensures |r| == width
    ensures forall i :: 0 <= i < |r| ==> IsDigit(r[i])
  {
    if width == 0 then "" else PadDigits(n / 10, width - 1) + [Digit(n % 10)]
  }

  /** Reads a run of decimal digits back into a number (`Number(s)`). */
  function ParseDigits(s: string): nat
  {
    if |s| == 0 then 0
    else 10 * ParseDigits(s[..|s| - 1]) + (if IsDigit(s[|s| - 1]) then s[|s| - 1] as int - '0' as int else 0)
  }

  /** Padding loses nothing: the padded digits read back as the number. */
  lemma {:induction false} PadDigitsRoundTrip(n: nat, width: nat)
    requires n < Pow10(width)
    ensures ParseDigits(PadDigits(n, width)) == n
  {
    if width > 0 {
      var s := PadDigits(n, width);
      assert s[..|s| - 1] == PadDigits(n / 10, width - 1);
      PadDigitsRoundTrip(n / 10, width - 1);
    }
  }

  /** A calendar date as `toISOString` prints it. */
  datatype CivilDate = CivilDate(year: nat, month: nat, day: nat)

  predicate ValidDate(d: CivilDate)
  {
    d.year < 10000 && 1 <= d.month <= 12 && 1 <= d.day <= 31
  }

  /** A time of day as `toISOString` prints it. */
  datatype ClockTime = ClockTime(hour: nat, minute: nat, second: nat, milli: nat)

  predicate ValidTime(t: ClockTime)
  {
    t.hour < 24 && t.minute < 60 && t.second < 60 && t.milli < 1000
  }

  /** The `YYYY-MM-DD` day key. */
  function DateKey(d: CivilDate): (r: string)
    requires ValidDate(d)
    ensures |r| == 10
  {
    PadDigits(d.year, 4) + "-" + PadDigits(d.month, 2) + "-" + PadDigits(d.day, 2)
  }

  /** `Date.prototype.toISOString`: `YYYY-MM-DDTHH:mm:ss.sssZ`. */
  function IsoTimestamp(d: CivilDate, t: ClockTime): (r: string)
    requires ValidDate(d) && ValidTime(t)
    ensures |r| == 24
  {
    DateKey(d) + "T" + PadDigits(t.hour, 2) + ":" + PadDigits(t.minute, 2) + ":"
      + PadDigits(t.second, 2) + "." + PadDigits(t.milli, 3) + "Z"
  }

  /** The date a day key names, read back from its digit groups. */
  function ParseDateKey(k: string): CivilDate
    requires |k| >= 10
  {
    CivilDate(ParseDigits(k[0..4]), ParseDigits(k[5..7]), ParseDigits(k[8..10]))
  }

  /** Day keys identify their date: distinct dates get distinct keys. */
  lemma DateKeyRoundTrip(d: CivilDate)
    requires ValidDate(d)
    ensures ParseDateKey(DateKey(d)) == d
  {
    var k := DateKey(d);
    assert k[0..4] == PadDigits(d.year, 4);
    assert k[5..7] == PadDigits(d.month, 2);
    assert k[8..10] == PadDigits(d.day, 2);
    PadDigitsRoundTrip(d.year, 4);
    PadDigitsRoundTrip(d.month, 2);
    PadDigitsRoundTrip(d.day, 2);
  }
}

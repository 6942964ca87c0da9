/** The calendar arithmetic behind the one-day widening of the fetch window:
    `datetime.fromisoformat(...)`, `- timedelta(days=1)` and
    `strftime("%Y-%m-%d")`, restricted to the calendar-date part of an ISO
    8601 timestamp (bank2mqtt/client.py:342-354). */
module IsoDate {

  import opened Common
  import opened Text

  /** A proleptic Gregorian date as Python's `datetime.date` holds it. */
  datatype Date = Date(year: int, month: int, day: int)

  predicate IsLeap(y: int)
  {
    y % 4 == 0 && (y % 100 != 0 || y % 400 == 0)
  }

  function DaysInMonth(y: int, m: int): (n: int)
    requires 1 <= m <= 12
    ensures 28 <= n <= 31
  {
    if m == 2 then (if IsLeap(y) then 29 else 28)
    else if m == 4 || m == 6 || m == 9 || m == 11 then 30
    else 31
  }

  /** Python's `MINYEAR` is 1 and `MAXYEAR` is 9999. */
  predicate ValidDate(d: Date)
  {
    1 <= d.year <= 9999 && 1 <= d.month <= 12 && 1 <= d.day <= DaysInMonth(d.year, d.month)
  }

  /** Chronological order. */
  predicate Before(a: Date, b: Date)
  {
    a.year < b.year
    || (a.year == b.year && a.month < b.month)
    || (a.year == b.year && a.month == b.month && a.day < b.day)
  }

  const MinDate := Date(1, 1, 1)

  /** Subtracting one day; `date.min - timedelta(days=1)` raises `OverflowError`. */
  function PrevDay(d: Date): (r: Option<Date>)
    requires ValidDate(d)
    ensures r.None? <==> d == MinDate
    ensures r.Some? ==> ValidDate(r.value) && Before(r.value, d)
  {
    if d.day > 1 then Some(Date(d.year, d.month, d.day - 1))
    else if d.month > 1 then Some(Date(d.year, d.month - 1, DaysInMonth(d.year, d.month - 1)))
    else if d.year > 1 then Some(Date(d.year - 1, 12, 31))
    else None
  }

  /** Adding one day, the inverse used to show that `PrevDay` loses nothing. */
  function NextDay(d: Date): Date
    requires ValidDate(d)
  {
    if d.day < DaysInMonth(d.year, d.month) then Date(d.year, d.month, d.day + 1)
    else if d.month < 12 then Date(d.year, d.month + 1, 1)
    else Date(d.year + 1, 1, 1)
  }

  /** The widened date is exactly the day before: stepping forward again
      returns the stored date, so no day is skipped. */
  lemma PrevDayThenNextDay(d: Date)
    requires ValidDate(d) && d != MinDate
    ensures PrevDay(d).Some? && NextDay(PrevDay(d).value) == d
  {
  }

  /** `strftime("%Y-%m-%d")` */
  function Format(d: Date): (s: string)
    requires ValidDate(d)
    ensures |s| == 10
  {
    Digits(d.year, 4) + "-" + Digits(d.month, 2) + "-" + Digits(d.day, 2)
  }

  /** `datetime.fromisoformat(s)` on the extended calendar date `YYYY-MM-DD`
      that starts the string; whatever follows is taken as the separator
      (any single character) and time part, and is not checked. A string
      that does not start with a valid `YYYY-MM-DD` is a `ValueError` (`None`). */
  function ParseIso(s: string): (r: Option<Date>)
    ensures r.Some? ==> ValidDate(r.value)
    ensures r.Some? ==> |s| >= 10 && s[4] == '-' && s[7] == '-'
  {
    if |s| < 10 || s[4] != '-' || s[7] != '-' then None
    else match (ParseNat(s[..4]), ParseNat(s[5..7]), ParseNat(s[8..10]))
      case (Some(y), Some(m), Some(dd)) =>
        var d := Date(y, m, dd);
        if 1 <= m <= 12 && ValidDate(d) then Some(d) else None
      case _ => None
  }

  /** Formatting then parsing gives the date back. */
  lemma ParseFormat(d: Date)
    requires ValidDate(d)
    ensures ParseIso(Format(d)) == Some(d)
  {
    var s := Format(d);
    assert s[..4] == Digits(d.year, 4);
    assert s[5..7] == Digits(d.month, 2);
    assert s[8..10] == Digits(d.day, 2);
    ParseDigits(d.year, 4);
    ParseDigits(d.month, 2);
    ParseDigits(d.day, 2);
  }

  /** Parsing then formatting gives back the calendar-date part of the
      string read: `fromisoformat` accepts exactly the strings that start
      with a formatted valid date. */
  lemma ParseIsoFormat(s: string)
    requires ParseIso(s).Some?
    ensures Format(ParseIso(s).value) == s[..10]
  {
    var d := ParseIso(s).value;
    DigitsOfParse(s[..4]);
    DigitsOfParse(s[5..7]);
    DigitsOfParse(s[8..10]);
    assert s[..10] == s[..4] + "-" + s[5..7] + "-" + s[8..10];
  }

  /** The converse: a formatted valid date followed by anything (a time part,
      an offset) parses to that date. */
  lemma ParseIsoPrefix(d: Date, rest: string)
    requires ValidDate(d)
    ensures ParseIso(Format(d) + rest) == Some(d)
  {
    var s := Format(d) + rest;
    assert s[..4] == Digits(d.year, 4);
    assert s[5..7] == Digits(d.month, 2);
    assert s[8..10] == Digits(d.day, 2);
    ParseDigits(d.year, 4);
    ParseDigits(d.month, 2);
    ParseDigits(d.day, 2);
  }

  /** `s.replace("Z", "+00:00")` */
  function ReplaceZ(s: string): (r: string)
    ensures forall i :: 0 <= i < |r| ==> r[i] != 'Z'
    ensures |s| <= |r|
  {
    if s == [] then []
    else (if s[0] == 'Z' then "+00:00" else [s[0]]) + ReplaceZ(s[1..])
  }

  /** A string without `Z` is left as it is. */
  lemma {:induction false} ReplaceZIdentity(s: string)
    requires forall i :: 0 <= i < |s| ==> s[i] != 'Z'
    ensures ReplaceZ(s) == s
  {
    if s != [] {
      ReplaceZIdentity(s[1..]);
    }
  }

  /** Replacing works character by character: it distributes over
      concatenation, so each `Z` becomes `+00:00` where it stands. */
  lemma {:induction false} ReplaceZAppend(a: string, b: string)
    ensures ReplaceZ(a + b) == ReplaceZ(a) + ReplaceZ(b)
  {
    if a == [] {
      assert a + b == b;
    } else {
      assert (a + b)[0] == a[0] && (a + b)[1..] == a[1..] + b;
      ReplaceZAppend(a[1..], b);
    }
  }

  /** Why widening happens or not, as `stream_new_transactions` decides it. */
  datatype Widening = Unchanged | MinDateParam(minDate: string) | Overflow

  /** The `min_date` parameter computed from a stored last-transaction date:
      one day before it, formatted `YYYY-MM-DD`; an unparseable date leaves the
      parameters as they are; the first representable day overflows. */
  function Widen(stored: string): (w: Widening)
    ensures w.MinDateParam? ==> |w.minDate| == 10
    ensures w.MinDateParam? <==> ParseIso(ReplaceZ(stored)).Some? && ParseIso(ReplaceZ(stored)).value != MinDate
    ensures w.Overflow? <==> ParseIso(ReplaceZ(stored)) == Some(MinDate)
    ensures w.MinDateParam? ==>
      var p := ParseIso(w.minDate);
      p.Some? && NextDay(p.value) == ParseIso(ReplaceZ(stored)).value
  {
    match ParseIso(ReplaceZ(stored))
    case None => Unchanged
    case Some(d) =>
      match PrevDay(d)
      case None => Overflow
      case Some(p) =>
        ParseFormat(p);
        PrevDayThenNextDay(d);
        MinDateParam(Format(p))
  }

  /** A stored timestamp `YYYY-MM-DD…` (a time part, a `Z` or an offset may
      follow) widens to the formatted day before its date, and overflows on
      the first representable day. */
  lemma WidenStoredDate(d: Date, rest: string)
    requires ValidDate(d)
    ensures d != MinDate ==> Widen(Format(d) + rest) == MinDateParam(Format(PrevDay(d).value))
    ensures d == MinDate ==> Widen(Format(d) + rest) == Overflow
  {
    ReplaceZAppend(Format(d), rest);
    ReplaceZIdentity(Format(d));
    ParseIsoPrefix(d, ReplaceZ(rest));
  }
}

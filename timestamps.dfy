/**
 * Local calendar dates and date-times as the application writes them,
 * "YYYY-MM-DD" and "YYYY-MM-DDTHH:MM:SS", together with the calendar
 * arithmetic of `Date.prototype.setDate` and the order of `Date` instants.
 */
module Timestamps {
  import opened Js

  datatype Date = Date(year: int, month: int, day: int)

  /** A slot's time of day, "HH:MM". */
  datatype Time = Time(hour: int, minute: int)

  /** A local date-time, "YYYY-MM-DDTHH:MM:SS". */
  datatype Stamp = Stamp(date: Date, hour: int, minute: int, second: int)

  predicate IsLeapYear(y: int) {
    y % 4 == 0 && (y % 100 != 0 || y % 400 == 0)
  }

  function DaysInMonth(y: int, m: int): (n: int)
    requires 1 <= m <= 12
    ensures 28 <= n <= 31
  {
    if m == 2 then (if IsLeapYear(y) then 29 else 28)
    else if m == 4 || m == 6 || m == 9 || m == 11 then 30
    else 31
  }

  /** A day of the proleptic Gregorian calendar. */
  predicate ValidDate(d: Date) {
    1 <= d.month <= 12 && 1 <= d.day <= DaysInMonth(d.year, d.month)
  }

  /** Lexicographic order of dates, which is their order in time. */
  predicate DateBefore(a: Date, b: Date) {
    a.year < b.year
    || (a.year == b.year && a.month < b.month)
    || (a.year == b.year && a.month == b.month && a.day < b.day)
  }

  // ---------------------------------------------------------------------------
  // Calendar arithmetic

  /** The following calendar day, rolling over month and year ends. */
  function NextDay(d: Date): (r: Date)
    requires ValidDate(d)
    ensures ValidDate(r) && DateBefore(d, r)
  {
    if d.day < DaysInMonth(d.year, d.month) then d.(day := d.day + 1)
    else if d.month < 12 then Date(d.year, d.month + 1, 1)
    else Date(d.year + 1, 1, 1)
  }

  /** The preceding calendar day, rolling back over month and year starts. */
  function PrevDay(d: Date): (r: Date)
    requires ValidDate(d)
    ensures ValidDate(r) && DateBefore(r, d)
  {
    if d.day > 1 then d.(day := d.day - 1)
    else if d.month > 1 then Date(d.year, d.month - 1, DaysInMonth(d.year, d.month - 1))
    else Date(d.year - 1, 12, 31)
  }

  /** Stepping forward a day and back again, or back and forward, returns to the same day. */
  lemma PrevNextInverse(d: Date)
    requires ValidDate(d)
    ensures PrevDay(NextDay(d)) == d
    ensures NextDay(PrevDay(d)) == d
  {
  }

  /** `d` moved by `n` calendar days: forward for positive `n`, backward for negative `n`. */
  function AddDays(d: Date, n: int): (r: Date)
    requires ValidDate(d)
    ensures ValidDate(r)
    decreases if n < 0 then -n else n
  {
    if n == 0 then d
    else if n > 0 then AddDays(NextDay(d), n - 1)
    else AddDays(PrevDay(d), n + 1)
  }

  lemma {:induction false} AddDaysAfterNext(d: Date, m: int)
    requires ValidDate(d)
    ensures AddDays(NextDay(d), m) == AddDays(d, m + 1)
  {
    if m + 1 <= 0 {
      PrevNextInverse(d);
    }
  }

  lemma {:induction false} AddDaysAfterPrev(d: Date, m: int)
    requires ValidDate(d)
    ensures AddDays(PrevDay(d), m) == AddDays(d, m - 1)
  {
    if m - 1 >= 0 {
      PrevNextInverse(d);
    }
  }

  /** Moving by `a` days and then by `b` days is moving by `a + b` days. */
  lemma {:induction false} AddDaysAdditive(d: Date, a: int, b: int)
    requires ValidDate(d)
    ensures AddDays(AddDays(d, a), b) == AddDays(d, a + b)
    decreases if a < 0 then -a else a
  {
    if a > 0 {
      AddDaysAdditive(NextDay(d), a - 1, b);
      AddDaysAfterNext(d, a - 1 + b);
    } else if a < 0 {
      AddDaysAdditive(PrevDay(d), a + 1, b);
      AddDaysAfterPrev(d, a + 1 + b);
    }
  }

  /** Moving forward `n` days and back `n` days returns to the starting day. */
  lemma AddDaysInverse(d: Date, n: int)
    requires ValidDate(d)
    ensures AddDays(AddDays(d, n), -n) == d
  {
    AddDaysAdditive(d, n, -n);
  }

  /** Moving forward by a positive number of days lands on a later date. */
  lemma {:induction false} AddDaysForward(d: Date, n: int)
    requires ValidDate(d) && n > 0
    ensures DateBefore(d, AddDays(d, n))
    decreases n
  {
    if n > 1 {
      AddDaysForward(NextDay(d), n - 1);
    }
  }

  // ---------------------------------------------------------------------------
  // Order of instants

  /** Fields in the ranges a `Date` accepts without normalising them. */
  predicate ValidStamp(s: Stamp) {
    && 0 <= s.date.year <= 9999
    && ValidDate(s.date)
    && 0 <= s.hour <= 23 && 0 <= s.minute <= 59 && 0 <= s.second <= 59
  }

  /** Lexicographic order of the fields of two date-times. */
  predicate StampBefore(a: Stamp, b: Stamp) {
    DateBefore(a.date, b.date)
    || (a.date == b.date && a.hour < b.hour)
    || (a.date == b.date && a.hour == b.hour && a.minute < b.minute)
    || (a.date == b.date && a.hour == b.hour && a.minute == b.minute && a.second < b.second)
  }

  /**
   * A number that orders date-times as their instants are ordered: each
   * field's weight exceeds what all the smaller fields can add up to.
   */
  function Ordinal(s: Stamp): int {
    s.date.year * 37440000 + s.date.month * 2880000 + s.date.day * 90000
      + s.hour * 3600 + s.minute * 60 + s.second
  }

  /** The instant `new Date(null)` reads as: the start of 1970. */
  const Epoch := Stamp(Date(1970, 1, 1), 0, 0, 0)

  /** `new Date(t)` for a nullable timestamp, as an ordinal. */
  function InstantOf(t: Option<Stamp>): int {
    if t.Some? then Ordinal(t.value) else Ordinal(Epoch)
  }

  /** The part of the ordinal below the day. */
  lemma TimeOfDayBound(s: Stamp)
    requires ValidStamp(s)
    ensures 0 <= s.hour * 3600 + s.minute * 60 + s.second < 90000
  {
  }

  /** On valid date-times the ordinal follows the lexicographic order of the fields. */
  lemma OrdinalOrder(a: Stamp, b: Stamp)
    requires ValidStamp(a) && ValidStamp(b)
    ensures StampBefore(a, b) ==> Ordinal(a) < Ordinal(b)
    ensures Ordinal(a) == Ordinal(b) ==> a == b
  {
    TimeOfDayBound(a);
    TimeOfDayBound(b);
    var ta := a.hour * 3600 + a.minute * 60 + a.second;
    var tb := b.hour * 3600 + b.minute * 60 + b.second;
    var da := a.date.year * 37440000 + a.date.month * 2880000 + a.date.day * 90000;
    var db := b.date.year * 37440000 + b.date.month * 2880000 + b.date.day * 90000;
    assert Ordinal(a) == da + ta && Ordinal(b) == db + tb;
    if DateBefore(a.date, b.date) {
      assert da + 90000 <= db;
    } else if DateBefore(b.date, a.date) {
      assert db + 90000 <= da;
    } else {
      assert a.date == b.date;
    }
  }

  // ---------------------------------------------------------------------------
  // Text

  /** `String(n).padStart(2, '0')` for `0 <= n < 100`. */
  function Pad2(n: nat): (r: string)
    requires n < 100
    ensures |r| == 2
  {
    [DigitChar(n / 10), DigitChar(n % 10)]
  }

  function Pad4(n: nat): (r: string)
    requires n < 10000
    ensures |r| == 4
  {
    Pad2(n / 100) + Pad2(n % 100)
  }

  function DateText(d: Date): (r: string)
    requires 0 <= d.year < 10000 && 0 <= d.month < 100 && 0 <= d.day < 100
    ensures |r| == 10
  {
    Pad4(d.year) + "-" + Pad2(d.month) + "-" + Pad2(d.day)
  }

  /** The time text of a calendar slot, "HH:MM". */
  function TimeText(t: Time): (r: string)
    requires 0 <= t.hour < 100 && 0 <= t.minute < 100
    ensures |r| == 5
  {
    Pad2(t.hour) + ":" + Pad2(t.minute)
  }

  predicate InTextRange(s: Stamp) {
    && 0 <= s.date.year < 10000 && 0 <= s.date.month < 100 && 0 <= s.date.day < 100
    && 0 <= s.hour < 100 && 0 <= s.minute < 100 && 0 <= s.second < 100
  }

  /** "YYYY-MM-DDTHH:MM:SS" */
  function StampText(s: Stamp): (r: string)
    requires InTextRange(s)
    ensures |r| == 19
  {
    DateText(s.date) + "T" + Pad2(s.hour) + ":" + Pad2(s.minute) + ":" + Pad2(s.second)
  }

  predicate IsDigit(c: char) {
    '0' <= c <= '9'
  }

  /** The number written by the two digits at `s[i]` and `s[i + 1]`. */
  function Number2(s: string, i: nat): int
    requires i + 2 <= |s|
  {
    DigitValue(s[i]) * 10 + DigitValue(s[i + 1])
  }

  /**
   * Reads "YYYY-MM-DDTHH:MM:SS" back into its fields; any other shape,
   * and any field a `Date` would reject or normalise, gives `None`.
   */
  function ParseStamp(s: string): (r: Option<Stamp>)
    ensures r.Some? ==> ValidStamp(r.value)
  {
    if |s| != 19 then None
    else if !(s[4] == '-' && s[7] == '-' && s[10] == 'T' && s[13] == ':' && s[16] == ':') then None
    else if !(forall k | k in {0, 1, 2, 3, 5, 6, 8, 9, 11, 12, 14, 15, 17, 18} :: IsDigit(s[k])) then None
    else
      var st := Stamp(Date(Number2(s, 0) * 100 + Number2(s, 2), Number2(s, 5), Number2(s, 8)),
                      Number2(s, 11), Number2(s, 14), Number2(s, 17));
      if ValidStamp(st) then Some(st) else None
  }

  lemma Pad2Digits(n: nat)
    requires n < 100
    ensures IsDigit(Pad2(n)[0]) && IsDigit(Pad2(n)[1]) && Number2(Pad2(n), 0) == n
  {
  }

  /** Writing a valid date-time as text and reading it back gives the same date-time. */
  lemma ParseStampText(st: Stamp)
    requires ValidStamp(st)
    ensures InTextRange(st) && ParseStamp(StampText(st)) == Some(st)
  {
    var t := StampText(st);
    var y := st.date.year;
    Pad2Digits(y / 100);
    Pad2Digits(y % 100);
    Pad2Digits(st.date.month);
    Pad2Digits(st.date.day);
    Pad2Digits(st.hour);
    Pad2Digits(st.minute);
    Pad2Digits(st.second);
    assert t[0..2] == Pad2(y / 100);
    assert t[2..4] == Pad2(y % 100);
    assert t[5..7] == Pad2(st.date.month);
    assert t[8..10] == Pad2(st.date.day);
    assert t[11..13] == Pad2(st.hour);
    assert t[14..16] == Pad2(st.minute);
    assert t[17..19] == Pad2(st.second);
    assert Number2(t, 0) * 100 + Number2(t, 2) == y;
  }
}

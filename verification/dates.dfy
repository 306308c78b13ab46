/** Calendar dates and their fixed-width text (section 4.1.2.2 of ISO 8601:2004). */
module Dates {
  import opened Text

  datatype CalendarDate = CalendarDate(year: int, month: int, day: int)

  predicate Leap(year: int) {
    year % 4 == 0 && (year % 100 != 0 || year % 400 == 0)
  }

  function DaysInMonth(year: int, month: int): int {
    if month == 2 then (if Leap(year) then 29 else 28)
    else if month in {4, 6, 9, 11} then 30
    else 31
  }

  /** The dates that `datetime.date` can hold. */
  predicate OnCalendar(d: CalendarDate) {
    1 <= d.year <= 9999 && 1 <= d.month <= 12 && 1 <= d.day <= DaysInMonth(d.year, d.month)
  }

  type Date = d: CalendarDate | OnCalendar(d) witness CalendarDate(1, 1, 1)

  predicate DateLe(a: Date, b: Date) {
    || a.year < b.year
    || (a.year == b.year && (a.month < b.month || (a.month == b.month && a.day <= b.day)))
  }

  predicate DateLt(a: Date, b: Date) {
    !DateLe(b, a)
  }

  /** `date.isoformat()`. */
  function DateText(d: Date): (s: string)
    ensures |s| == 10
  {
    assert Pow10(2) == 100 && Pow10(4) == 10000;
    Padded(d.year, 4) + ("-" + (Padded(d.month, 2) + ("-" + Padded(d.day, 2))))
  }

  /** `date.fromisoformat` on the extended calendar form; None for any other text. */
  function ReadDate(s: string): Option<Date> {
    if |s| == 10 && AllDigits(s[..4]) && s[4] == '-' && AllDigits(s[5..7]) && s[7] == '-' && AllDigits(s[8..]) then
      var d := CalendarDate(ReadDigits(s[..4]), ReadDigits(s[5..7]), ReadDigits(s[8..]));
      if OnCalendar(d) then Some(d) else None
    else None
  }

  lemma DateTextRoundTrip(d: Date)
    ensures ReadDate(DateText(d)) == Some(d)
  {
    assert Pow10(2) == 100 && Pow10(4) == 10000;
    var s := DateText(d);
    assert s[..4] == Padded(d.year, 4) && s[5..7] == Padded(d.month, 2) && s[8..] == Padded(d.day, 2);
  }

  /** Date texts sort as text exactly as the dates sort in the calendar. */
  lemma DateTextOrder(a: Date, b: Date)
    ensures TextLe(DateText(a), DateText(b)) <==> DateLe(a, b)
  {
    assert Pow10(2) == 100 && Pow10(4) == 10000;
    var ya, yb := Padded(a.year, 4), Padded(b.year, 4);
    var ma, mb := Padded(a.month, 2), Padded(b.month, 2);
    var da, db := Padded(a.day, 2), Padded(b.day, 2);
    FixedWidthOrder(ya, yb);
    if ya != yb {
      TextLeHead(ya, yb, "-" + (ma + ("-" + da)), "-" + (mb + ("-" + db)));
    } else {
      TextLePrefix(ya, "-" + (ma + ("-" + da)), "-" + (mb + ("-" + db)));
      TextLePrefix("-", ma + ("-" + da), mb + ("-" + db));
      FixedWidthOrder(ma, mb);
      if ma != mb {
        TextLeHead(ma, mb, "-" + da, "-" + db);
      } else {
        TextLePrefix(ma, "-" + da, "-" + db);
        TextLePrefix("-", da, db);
        FixedWidthOrder(da, db);
      }
    }
  }

  lemma DateTextInjective(a: Date, b: Date)
    requires DateText(a) == DateText(b)
    ensures a == b
  {
    DateTextRoundTrip(a);
    DateTextRoundTrip(b);
  }

  /** Only the text of a date reads as that date. */
  lemma ReadDateExact(s: string, d: Date)
    ensures ReadDate(s) == Some(d) <==> s == DateText(d)
  {
    DateTextRoundTrip(d);
    if ReadDate(s) == Some(d) {
      assert Pow10(2) == 100 && Pow10(4) == 10000;
      FixedWidthOrder(s[..4], Padded(d.year, 4));
      FixedWidthOrder(s[5..7], Padded(d.month, 2));
      FixedWidthOrder(s[8..], Padded(d.day, 2));
      assert s == s[..4] + ([s[4]] + (s[5..7] + ([s[7]] + s[8..])));
    }
  }

  const MONTHS: seq<int> := [31, 28, 31, 30, 31, 30, 31, 31, 30, 31, 30, 31]

  /** The days of each month; February has one more in leap years, of which a century is one only when 400
      divides it. */
  lemma CalendarDays(year: int, month: int, day: int)
    ensures OnCalendar(CalendarDate(year, month, day)) <==> (
              && 1 <= year <= 9999 && 1 <= month <= 12 && day >= 1
              && (day <= MONTHS[month - 1]
                  || (month == 2 && day == 29 && (year % 400 == 0 || (year % 4 == 0 && year % 100 > 0)))))
  {
    hide Leap;
    LeapMeans(year);
    if 1 <= month <= 12 { MonthMeans(month); }
  }

  lemma MonthMeans(month: int)
    requires 1 <= month <= 12
    ensures MONTHS[month - 1] == if month == 2 then 28 else if month in {4, 6, 9, 11} then 30 else 31
  {}

  lemma LeapMeans(year: int)
    ensures Leap(year) <==> year % 400 == 0 || (year % 4 == 0 && year % 100 > 0)
  {
    if year % 400 == 0 { FourHundred(year / 400); }
  }

  lemma FourHundred(q: int)
    ensures (400 * q) % 4 == 0
  {}
}

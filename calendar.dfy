/**
 * Calendar values of the analytics.  Timestamps reach the model already
 * parsed: `new Date(s)` together with `getFullYear`, `getHours` and the short
 * English month name of `toLocaleString` is a trusted parser that yields a
 * year, a month 1..12 and an hour 0..23 of the local time zone.
 */
module Calendar {
  import opened Text

  type Month = m: int | 1 <= m <= 12 witness 1
  type Hour = h: int | 0 <= h < 24 witness 0

  /** A parsed `time` or `publishedAt` value. */
  datatype Timestamp = Timestamp(year: nat, month: Month, hour: Hour)

  /** The month-year bucket of a timestamp. */
  datatype CalendarMonth = CalendarMonth(year: nat, month: Month)

  function MonthOf(t: Timestamp): CalendarMonth {
    CalendarMonth(t.year, t.month)
  }

  /** The short month names, `toLocaleString('default', { month: 'short' })`, and the `months` table of the sorts. */
  const MonthNames: seq<string> :=
    ["Jan", "Feb", "Mar", "Apr", "May", "Jun", "Jul", "Aug", "Sep", "Oct", "Nov", "Dec"]

  /** The bucket name `"Jan 2024"`: short month name, a space, the year. */
  function Label(m: CalendarMonth): string {
    MonthNames[m.month - 1] + " " + NatToString(m.year)
  }

  /** `months.indexOf(name)`. */
  function MonthIndex(name: string): (i: int)
    ensures -1 <= i < 12
    ensures i >= 0 ==> MonthNames[i] == name
    ensures i == -1 ==> name !in MonthNames
  {
    if name == "Jan" then 0 else if name == "Feb" then 1 else if name == "Mar" then 2
    else if name == "Apr" then 3 else if name == "May" then 4 else if name == "Jun" then 5
    else if name == "Jul" then 6 else if name == "Aug" then 7 else if name == "Sep" then 8
    else if name == "Oct" then 9 else if name == "Nov" then 10 else if name == "Dec" then 11
    else -1
  }

  /** `parseInt` of the second space-separated field of a bucket name. */
  function YearField(parts: seq<string>): nat {
    if |parts| < 2 then 0 else DecimalValue(LeadingDigits(parts[1]))
  }

  /**
   * The comparator of both chronological sorts: split each name at spaces,
   * compare the parsed years, and on equal years the positions of the month
   * names in `months`.
   */
  function CompareMonthNames(a: string, b: string): int {
    var pa, pb := Split(a, ' '), Split(b, ' ');
    var yearDiff := YearField(pa) - YearField(pb);
    if yearDiff != 0 then yearDiff else MonthIndex(pa[0]) - MonthIndex(pb[0])
  }

  /** Months counted from January of year 0: the order the comparator induces on bucket names. */
  function Chronological(m: CalendarMonth): int {
    m.year * 12 + (m.month - 1)
  }

  lemma {:induction false} SplitAtFirstSpace(x: string, y: string)
    requires ' ' !in x && ' ' !in y
    ensures Split(x + " " + y, ' ') == [x, y]
  {
    var s := x + " " + y;
    assert s[..|x|] == x && s[|x|] == ' ';
    assert IndexOf(s, ' ') == |x|;
    assert s[|x| + 1..] == y;
  }

  lemma LabelFields(m: CalendarMonth)
    ensures Split(Label(m), ' ') == [MonthNames[m.month - 1], NatToString(m.year)]
  {
    var digits := NatToString(m.year);
    assert !IsDigit(' ');
    SplitAtFirstSpace(MonthNames[m.month - 1], digits);
  }

  lemma YearOfLabel(m: CalendarMonth)
    ensures YearField(Split(Label(m), ' ')) == m.year
  {
    LabelFields(m);
    LeadingDigitsOfDigits(NatToString(m.year));
    DecimalRoundTrip(m.year);
  }

  lemma MonthOfLabel(m: CalendarMonth)
    ensures MonthIndex(Split(Label(m), ' ')[0]) == m.month - 1
  {
    LabelFields(m);
    MonthIndexOfName(m.month - 1);
  }

  /** `indexOf` finds every month name at its own position. */
  lemma MonthIndexOfName(i: int)
    requires 0 <= i < 12
    ensures MonthIndex(MonthNames[i]) == i
  {
    if i < 6 {
      if i == 0 { } else if i == 1 { } else if i == 2 { }
      else if i == 3 { } else if i == 4 { } else { }
    } else {
      if i == 6 { } else if i == 7 { } else if i == 8 { }
      else if i == 9 { } else if i == 10 { } else { }
    }
  }

  /**
   * On bucket names the comparator orders by year, then by calendar month, never
   * by string order, and it calls two names equal only for the same month.
   */
  lemma CompareLabels(a: CalendarMonth, b: CalendarMonth)
    ensures CompareMonthNames(Label(a), Label(b)) < 0 <==> Chronological(a) < Chronological(b)
    ensures CompareMonthNames(Label(a), Label(b)) == 0 <==> a == b
  {
    YearOfLabel(a);
    YearOfLabel(b);
    MonthOfLabel(a);
    MonthOfLabel(b);
  }
}

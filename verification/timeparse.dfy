/** The subset of Python's `strptime` and `strftime` the analyzer uses:
    the syslog stamp `"%Y %b %d %H:%M:%S"` (with the year supplied by the
    caller) and the file-name date `"%Y-%m-%d"`. Each numeric directive
    takes one or two ASCII digits in its range, `%d` also a space and one
    digit, `%Y` exactly four digits and `%b` an English month abbreviation
    in any letter case; the assembled value must then be a valid
    `datetime`. */
module TimeParse {
  import opened Wrappers
  import opened Calendar
  import Text

  /** The timestamp capture of the log patterns, `\w+\s+\d+\s+\d+:\d+:\d+`,
      delivered as its five tokens: month word, day, hour, minute, second. */
  datatype Stamp = Stamp(month: string, day: string, hour: string, minute: string, second: string)

  predicate IsDigit(c: char) {
    '0' <= c <= '9'
  }

  function DigitValue(c: char): int
    requires IsDigit(c)
  {
    c as int - '0' as int
  }

  function Digit(n: int): (c: char)
    requires 0 <= n <= 9
    ensures IsDigit(c) && DigitValue(c) == n
  {
    ('0' as int + n) as char
  }

  function InRange(n: int, lo: int, hi: int): Option<int> {
    if lo <= n <= hi then Some(n) else None
  }

  /** A numeric directive such as `%m`, `%H`, `%M` or `%S`: one or two
      ASCII digits whose value lies in [lo, hi]. */
  function Number(s: string, lo: int, hi: int): (r: Option<int>)
    ensures r.Some? ==> lo <= r.value <= hi && 1 <= |s| <= 2
  {
    if |s| == 1 && IsDigit(s[0]) then InRange(DigitValue(s[0]), lo, hi)
    else if |s| == 2 && IsDigit(s[0]) && IsDigit(s[1]) then InRange(10 * DigitValue(s[0]) + DigitValue(s[1]), lo, hi)
    else None
  }

  /** `%d`: a day number from 1 to 31, also accepted as a space and one digit. */
  function DayNumber(s: string): (r: Option<int>)
    ensures r.Some? ==> 1 <= r.value <= 31
  {
    if |s| == 2 && s[0] == ' ' && '1' <= s[1] <= '9' then Some(DigitValue(s[1]))
    else Number(s, 1, 31)
  }

  /** `%Y`: exactly four ASCII digits. */
  function YearNumber(s: string): (r: Option<int>)
    ensures r.Some? ==> 0 <= r.value <= 9999
  {
    if |s| == 4 && IsDigit(s[0]) && IsDigit(s[1]) && IsDigit(s[2]) && IsDigit(s[3]) then
      Some(1000 * DigitValue(s[0]) + 100 * DigitValue(s[1]) + 10 * DigitValue(s[2]) + DigitValue(s[3]))
    else None
  }

  /** The `%b` names of the C locale, in lower case. */
  const MonthAbbreviations: seq<string> :=
    ["jan", "feb", "mar", "apr", "may", "jun", "jul", "aug", "sep", "oct", "nov", "dec"]

  /** A word of lower-case ASCII letters. */
  predicate LowerWord(a: string) {
    forall k :: 0 <= k < |a| ==> 'a' <= a[k] <= 'z'
  }

  /** `a` with its first letter in upper case. */
  function Capitalized(a: string): string {
    if |a| > 0 && 'a' <= a[0] <= 'z' then [(a[0] as int - 32) as char] + a[1..] else a
  }

  /** Month `m` as `strftime("%b")` writes it: `"Jan"`, `"Feb"`, ... */
  function MonthTitle(m: int): string
    requires 1 <= m <= 12
  {
    Capitalized(MonthAbbreviations[m - 1])
  }

  /** `%b`: the month whose abbreviation equals `tok` ignoring letter case. */
  function MonthNumber(tok: string): (r: Option<int>)
    ensures r.Some? ==> 1 <= r.value <= 12 && Text.Lower(tok) == MonthAbbreviations[r.value - 1]
    ensures r.None? ==> forall i :: 0 <= i < 12 ==> Text.Lower(tok) != MonthAbbreviations[i]
  {
    FindMonth(Text.Lower(tok), 0)
  }

  function FindMonth(name: string, i: nat): (r: Option<int>)
    requires i <= 12
    ensures r.Some? ==> i < r.value <= 12 && name == MonthAbbreviations[r.value - 1]
    ensures r.None? ==> forall k :: i <= k < 12 ==> name != MonthAbbreviations[k]
    decreases 12 - i
  {
    if i == 12 then None
    else if name == MonthAbbreviations[i] then Some(i + 1)
    else FindMonth(name, i + 1)
  }

  /** `strptime(f"{year} {stamp}", "%Y %b %d %H:%M:%S")`. `%S` admits 60
      and 61, which the `datetime` constructor then refuses; `str(year)`
      fits `%Y` only when it has four digits. */
  function ParseLogStamp(year: int, st: Stamp): (r: Option<DateTime>)
    ensures r.Some? ==> Valid(r.value) && r.value.year == year && r.value.micro == 0
  {
    if !(1000 <= year <= 9999) then None
    else
      match (MonthNumber(st.month), DayNumber(st.day), Number(st.hour, 0, 23),
             Number(st.minute, 0, 59), Number(st.second, 0, 61))
      case (Some(mo), Some(d), Some(h), Some(mi), Some(se)) =>
        var t := DateTime(year, mo, d, h, mi, se, 0);
        if Valid(t) then Some(t) else None
      case _ => None
  }

  function TwoDigits(n: int): string
    requires 0 <= n <= 99
  {
    [Digit(n / 10), Digit(n % 10)]
  }

  function FourDigits(n: int): string
    requires 0 <= n <= 9999
  {
    [Digit(n / 1000), Digit(n / 100 % 10), Digit(n / 10 % 10), Digit(n % 10)]
  }

  /** The day of a syslog stamp: space-padded to two columns, as section
      4.1.2 of RFC 3164 writes it (`"Jan  5"`), so the capture's day token
      is the number without padding. */
  function DayDigits(d: int): string
    requires 1 <= d <= 31
  {
    if d < 10 then [Digit(d)] else TwoDigits(d)
  }

  /** The stamp dnsmasq writes for `t` (`"Jan  5 10:00:00"`, month name,
      space-padded day, zero-padded clock), as the capture splits it. */
  function FormatLogStamp(t: DateTime): Stamp
    requires Valid(t)
  {
    Stamp(MonthTitle(t.month), DayDigits(t.day), TwoDigits(t.hour),
          TwoDigits(t.minute), TwoDigits(t.second))
  }

  /** The same stamp with a zero-padded day (`"Jan 05 10:00:00"`), as
      `strftime("%b %d %H:%M:%S")` writes it. */
  function FormatPaddedStamp(t: DateTime): Stamp
    requires Valid(t)
  {
    FormatLogStamp(t).(day := TwoDigits(t.day))
  }

  lemma TwoDigitsRoundTrip(n: int, lo: int, hi: int)
    requires 0 <= lo <= n <= hi <= 99
    ensures Number(TwoDigits(n), lo, hi) == Some(n)
  {
  }

  /** `%d` reads back an unpadded day and a zero-padded one alike. */
  lemma DayDigitsRoundTrip(d: int)
    requires 1 <= d <= 31
    ensures DayNumber(DayDigits(d)) == Some(d)
    ensures DayNumber(TwoDigits(d)) == Some(d)
  {
    TwoDigitsRoundTrip(d, 1, 31);
  }

  lemma MonthTitleRecognised(m: int)
    requires 1 <= m <= 12
    ensures MonthNumber(MonthTitle(m)) == Some(m)
  {
    AbbreviationsAreWords(m);
    CapitalizedLowers(MonthAbbreviations[m - 1]);
    AbbreviationsDistinct(m);
    FindMonthFinds(MonthAbbreviations[m - 1], 0, m);
  }

  /** `FindMonth` from `i` reaches the first abbreviation equal to `name`. */
  lemma {:induction false} FindMonthFinds(name: string, i: nat, m: int)
    requires i < m <= 12 && name == MonthAbbreviations[m - 1]
    requires forall k :: i <= k < m - 1 ==> MonthAbbreviations[k] != name
    ensures FindMonth(name, i) == Some(m)
    decreases m - i
  {
    if i < m - 1 {
      FindMonthFinds(name, i + 1, m);
    }
  }

  lemma AbbreviationsAreWords(m: int)
    requires 1 <= m <= 12
    ensures LowerWord(MonthAbbreviations[m - 1])
  {
  }

  /** Lower-casing a capitalised word gives the word back. */
  lemma CapitalizedLowers(a: string)
    requires LowerWord(a)
    ensures Text.Lower(Capitalized(a)) == a
  {
    var t := Capitalized(a);
    assert |Text.Lower(t)| == |a|;
    forall k | 0 <= k < |a|
      ensures Text.Lower(t)[k] == a[k]
    {
      if k > 0 {
        assert t[k] == a[k];
      }
    }
  }

  lemma AbbreviationsDistinct(m: int)
    requires 1 <= m <= 12
    ensures forall k :: 0 <= k < 12 && k != m - 1 ==> MonthAbbreviations[k] != MonthAbbreviations[m - 1]
  {
  }

  /** Reading back a stamp written in the current year gives the instant
      that was written, to the second, whether its day is space-padded or
      zero-padded. */
  lemma LogStampRoundTrip(t: DateTime)
    requires Valid(t) && t.micro == 0 && t.year >= 1000
    ensures ParseLogStamp(t.year, FormatLogStamp(t)) == Some(t)
    ensures ParseLogStamp(t.year, FormatPaddedStamp(t)) == Some(t)
  {
    MonthTitleRecognised(t.month);
    DayDigitsRoundTrip(t.day);
    TwoDigitsRoundTrip(t.hour, 0, 23);
    TwoDigitsRoundTrip(t.minute, 0, 59);
    TwoDigitsRoundTrip(t.second, 0, 61);
  }

  /** Position of the first `-` in `s`, or `|s|` when there is none. */
  function DashAt(s: string): (p: nat)
    ensures p <= |s|
    ensures p < |s| ==> s[p] == '-'
    ensures forall k :: 0 <= k < p ==> s[k] != '-'
  {
    if |s| == 0 || s[0] == '-' then 0 else 1 + DashAt(s[1..])
  }

  /** `strptime(s, "%Y-%m-%d")`: midnight of the named date. */
  function ParseIsoDate(s: string): (r: Option<DateTime>)
    ensures r.Some? ==> Valid(r.value) && r.value == Midnight(r.value)
  {
    if |s| < 5 || s[4] != '-' then None
    else
      var rest := s[5..];
      var p := DashAt(rest);
      if p == |rest| then None
      else
        match (YearNumber(s[..4]), Number(rest[..p], 1, 12), DayNumber(rest[p + 1..]))
        case (Some(y), Some(m), Some(d)) =>
          var t := DateTime(y, m, d, 0, 0, 0, 0);
          if Valid(t) then Some(t) else None
        case _ => None
  }

  /** `strftime("%Y-%m-%d")`, as the analyzer names its daily data files. */
  function FormatIsoDate(t: DateTime): string
    requires Valid(t)
  {
    FourDigits(t.year) + "-" + TwoDigits(t.month) + "-" + TwoDigits(t.day)
  }

  lemma FourDigitsRoundTrip(n: int)
    requires 0 <= n <= 9999
    ensures YearNumber(FourDigits(n)) == Some(n)
  {
    var a, b, c, d := n / 1000, n / 100 % 10, n / 10 % 10, n % 10;
    assert n / 100 == 10 * a + b;
    assert n / 10 == 10 * (n / 100) + c;
    assert n == 10 * (n / 10) + d;
  }

  /** Reading back a written date gives midnight of that date. */
  lemma IsoDateRoundTrip(t: DateTime)
    requires Valid(t) && t.year >= 1000
    ensures ParseIsoDate(FormatIsoDate(t)) == Some(Midnight(t))
  {
    var s := FormatIsoDate(t);
    var rest := s[5..];
    assert rest == TwoDigits(t.month) + "-" + TwoDigits(t.day);
    assert rest[0] != '-' && rest[1] != '-' && rest[2] == '-';
    assert DashAt(rest) == 2;
    assert s[..4] == FourDigits(t.year);
    FourDigitsRoundTrip(t.year);
    TwoDigitsRoundTrip(t.month, 1, 12);
    assert rest[3..] == TwoDigits(t.day);
    TwoDigitsRoundTrip(t.day, 1, 31);
  }
}

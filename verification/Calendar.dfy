/**
 Civil dates, day numbers and `YYYY-MM-DD` strings.

 A day number counts days from 1970-01-01, as Day(t) does in section 21.4.1 of ECMA-262; the year and month of a
 day are found as that section defines them. Strings cover the years 0000 to 9999, for which `toISOString` prints
 four digits.
 */
module Calendar {
  import opened Wrappers
  import opened Text

  datatype Civil = Civil(year: int, month: int, day: int)

  predicate Leap(y: int) {
    y % 4 == 0 && (y % 100 != 0 || y % 400 == 0)
  }

  function YearLength(y: int): int {
    if Leap(y) then 366 else 365
  }

  function MonthLength(y: int, m: int): int {
    if m == 2 then (if Leap(y) then 29 else 28)
    else if m == 4 || m == 6 || m == 9 || m == 11 then 30
    else 31
  }

  predicate Real(c: Civil) {
    1 <= c.month <= 12 && 1 <= c.day <= MonthLength(c.year, c.month)
  }

  /** DayFromYear of ECMA-262: the day number of January 1st. */
  function DayFromYear(y: int): int {
    365 * (y - 1970) + (y - 1969) / 4 - (y - 1901) / 100 + (y - 1601) / 400
  }

  /** Days of year `y` before month `m`. */
  function DaysBefore(y: int, m: int): int
    requires 1 <= m <= 13
  {
    var leap := if Leap(y) then 1 else 0;
    if m == 1 then 0 else if m == 2 then 31
    else if m == 3 then 59 + leap else if m == 4 then 90 + leap else if m == 5 then 120 + leap
    else if m == 6 then 151 + leap else if m == 7 then 181 + leap else if m == 8 then 212 + leap
    else if m == 9 then 243 + leap else if m == 10 then 273 + leap else if m == 11 then 304 + leap
    else if m == 12 then 334 + leap else 365 + leap
  }

  function ToDay(c: Civil): int
    requires Real(c)
  {
    DayFromYear(c.year) + DaysBefore(c.year, c.month) + c.day - 1
  }

  lemma FourthYear(y: int)
    ensures (y - 1968) / 4 - (y - 1969) / 4 == if y % 4 == 0 then 1 else 0
  {
  }

  lemma HundredthYear(y: int)
    ensures (y - 1900) / 100 - (y - 1901) / 100 == if y % 100 == 0 then 1 else 0
  {
  }

  lemma FourHundredthYear(y: int)
    ensures (y - 1600) / 400 - (y - 1601) / 400 == if y % 400 == 0 then 1 else 0
    ensures y % 400 == 0 ==> y % 100 == 0
  {
  }

  lemma YearStep(y: int)
    ensures DayFromYear(y + 1) == DayFromYear(y) + YearLength(y)
  {
    FourthYear(y);
    HundredthYear(y);
    FourHundredthYear(y);
    assert y % 100 == 0 ==> y % 4 == 0;
  }

  lemma {:induction false} YearsOrdered(y: int, z: int)
    requires y < z
    ensures DayFromYear(y + 1) <= DayFromYear(z)
    decreases z - y
  {
    if y + 1 < z {
      YearStep(y + 1);
      YearsOrdered(y + 1, z);
    }
  }

  /** A year of the average length points to the right year, or to a neighbour of it. */
  lemma YearGuess(n: int)
    ensures var guess := 1970 + n * 400 / 146097; DayFromYear(guess - 1) <= n < DayFromYear(guess + 2)
  {
  }

  /** YearFromTime of ECMA-262: the largest year that has begun by day `n`. */
  function YearOf(n: int): (y: int)
    ensures DayFromYear(y) <= n < DayFromYear(y + 1)
  {
    hide DayFromYear;
    var guess := 1970 + n * 400 / 146097;
    YearGuess(n);
    if n < DayFromYear(guess) then guess - 1
    else if n < DayFromYear(guess + 1) then guess
    else guess + 1
  }

  /** The month containing day `offset` of a year. */
  function MonthOf(y: int, offset: int): (m: int)
    requires 0 <= offset < YearLength(y)
    ensures 1 <= m <= 12
    ensures DaysBefore(y, m) <= offset < DaysBefore(y, m + 1)
  {
    if offset < DaysBefore(y, 2) then 1 else if offset < DaysBefore(y, 3) then 2
    else if offset < DaysBefore(y, 4) then 3 else if offset < DaysBefore(y, 5) then 4
    else if offset < DaysBefore(y, 6) then 5 else if offset < DaysBefore(y, 7) then 6
    else if offset < DaysBefore(y, 8) then 7 else if offset < DaysBefore(y, 9) then 8
    else if offset < DaysBefore(y, 10) then 9 else if offset < DaysBefore(y, 11) then 10
    else if offset < DaysBefore(y, 12) then 11 else 12
  }

  function FromDay(n: int): (c: Civil)
    ensures Real(c) && ToDay(c) == n
  {
    hide YearOf, DayFromYear, DaysBefore, MonthOf, Leap;
    var y := YearOf(n);
    YearStep(y);
    var offset := n - DayFromYear(y);
    var m := MonthOf(y, offset);
    MonthStep(y, m);
    Civil(y, m, offset - DaysBefore(y, m) + 1)
  }

  predicate Earlier(a: Civil, b: Civil) {
    a.year < b.year || (a.year == b.year && (a.month < b.month || (a.month == b.month && a.day < b.day)))
  }

  lemma MonthStep(y: int, m: int)
    requires 1 <= m <= 12
    ensures DaysBefore(y, m + 1) == DaysBefore(y, m) + MonthLength(y, m)
  {
  }

  lemma {:induction false} MonthsOrdered(y: int, m: int, k: int)
    requires 1 <= m < k <= 13
    ensures DaysBefore(y, m) + MonthLength(y, m) <= DaysBefore(y, k)
    decreases k - m
  {
    MonthStep(y, m);
    if m + 1 < k {
      MonthsOrdered(y, m + 1, k);
    }
  }

  lemma WithinYear(c: Civil)
    requires Real(c)
    ensures DayFromYear(c.year) <= ToDay(c) < DayFromYear(c.year + 1)
  {
    YearStep(c.year);
    MonthsOrdered(c.year, c.month, 13);
  }

  lemma EarlierIsLess(a: Civil, b: Civil)
    requires Real(a) && Real(b) && Earlier(a, b)
    ensures ToDay(a) < ToDay(b)
  {
    hide DayFromYear;
    if a.year < b.year {
      WithinYear(a);
      WithinYear(b);
      YearsOrdered(a.year, b.year);
    } else if a.month < b.month {
      MonthsOrdered(a.year, a.month, b.month);
    }
  }

  /** Calendar order is day-number order. */
  lemma CivilOrder(a: Civil, b: Civil)
    requires Real(a) && Real(b)
    ensures Earlier(a, b) <==> ToDay(a) < ToDay(b)
    ensures a == b <==> ToDay(a) == ToDay(b)
  {
    if Earlier(a, b) {
      EarlierIsLess(a, b);
    } else if a != b {
      EarlierIsLess(b, a);
    }
  }

  /** A day number determines its civil date, and conversely. */
  lemma CivilRoundTrip(c: Civil)
    requires Real(c)
    ensures FromDay(ToDay(c)) == c
  {
    CivilOrder(c, FromDay(ToDay(c)));
  }

  /** The day after: the next of the month, else the first of the next month, else January 1st. */
  function Tomorrow(c: Civil): (t: Civil)
    requires Real(c)
    ensures Real(t)
  {
    if c.day < MonthLength(c.year, c.month) then Civil(c.year, c.month, c.day + 1)
    else if c.month < 12 then Civil(c.year, c.month + 1, 1)
    else Civil(c.year + 1, 1, 1)
  }

  lemma TomorrowIsNext(c: Civil)
    requires Real(c)
    ensures ToDay(Tomorrow(c)) == ToDay(c) + 1
  {
    MonthStep(c.year, c.month);
    if c.day == MonthLength(c.year, c.month) && c.month == 12 {
      YearStep(c.year);
    }
  }

  /** Stepping the day number steps the date, across month ends and leap days. */
  lemma NextDay(n: int)
    ensures FromDay(n + 1) == Tomorrow(FromDay(n))
  {
    hide DayFromYear, DaysBefore, MonthLength, ToDay, FromDay, Tomorrow;
    TomorrowIsNext(FromDay(n));
    CivilRoundTrip(Tomorrow(FromDay(n)));
  }

  /** The day number of a month's first day. */
  function FirstOf(y: int, m: int): int
    requires 1 <= m <= 12
  {
    ToDay(Civil(y, m, 1))
  }

  lemma OffsetInMonth(c: Civil)
    requires Real(c)
    ensures ToDay(c) == FirstOf(c.year, c.month) + c.day - 1
  {
  }

  // ---- strings ----

  /** The days of time values, section 21.4.1.1 of ECMA-262; beyond them a date is not valid. */
  predicate TimeRange(n: int) {
    -100_000_000 <= n <= 100_000_000
  }

  /** The days of the years 0000 to 9999. */
  predicate Printable(n: int) {
    -719528 <= n < 2932897
  }

  /** These are the days whose year prints as four digits. */
  lemma PrintableRange(n: int)
    ensures Printable(n) <==> 0 <= FromDay(n).year <= 9999
  {
    var c := FromDay(n);
    YearStep(c.year);
    if c.year < 0 {
      YearsOrdered(c.year, 0);
    } else if c.year > 9999 {
      YearsOrdered(9999, c.year);
    } else {
      if c.year > 0 { YearsOrdered(0, c.year); }
      if c.year < 9999 { YearsOrdered(c.year, 9999); }
      YearsOrdered(c.year, 10000);
    }
  }

  lemma YearRange(n: int)
    requires TimeRange(n)
    ensures -999999 <= FromDay(n).year <= 999999
  {
    var y := FromDay(n).year;
    WithinYear(FromDay(n));
    if y > 999999 {
      YearsOrdered(999999, y);
    } else if y < -999999 {
      YearsOrdered(y, -999999);
    }
  }

  function Print(c: Civil): (s: string)
    requires 0 <= c.year <= 9999 && Real(c)
    ensures |s| == 10
  {
    Padded(c.year, 4) + "-" + Padded(c.month, 2) + "-" + Padded(c.day, 2)
  }

  /** A year of six digits and a sign, as `toISOString` writes the years that do not have four digits. */
  function SignedYear(y: int): (s: string)
    ensures |s| == 7
  {
    if y < 0 then "-" + Padded(-y, 6) else "+" + Padded(y, 6)
  }

  /** `toISOString().slice(0, 10)` of an instant of day `n`: the date, or the year and month of a far one. */
  function IsoDate(n: int): (s: string)
    requires TimeRange(n)
    ensures |s| == 10
  {
    PrintableRange(n);
    var c := FromDay(n);
    if Printable(n) then Print(c) else SignedYear(c.year) + "-" + Padded(c.month, 2)
  }

  /** A date of the form `YYYY-MM-DD` that is in the calendar. */
  predicate RealDate(s: string) {
    && |s| == 10 && s[4] == '-' && s[7] == '-'
    && AllDigits(s[..4]) && AllDigits(s[5..7]) && AllDigits(s[8..])
    && Real(Civil(Value(s[..4]), Value(s[5..7]), Value(s[8..])))
  }

  function DayOf(s: string): int
    requires RealDate(s)
  {
    ToDay(Civil(Value(s[..4]), Value(s[5..7]), Value(s[8..])))
  }

  /** The length of the year a string begins with: four digits, or a sign and six; 0 if there is none. */
  function YearLengthOf(s: string): (k: nat)
    ensures k <= |s|
  {
    if |s| >= 4 && AllDigits(s[..4]) then 4
    else if |s| >= 7 && (s[0] == '+' || s[0] == '-') && AllDigits(s[1..7]) && s[..7] != "-000000" then 7
    else 0
  }

  function YearIn(s: string): int
    requires YearLengthOf(s) > 0
  {
    if YearLengthOf(s) == 4 then Value(s[..4])
    else if s[0] == '-' then 0 - Value(s[1..7]) else Value(s[1..7])
  }

  /** A month or a day: `-` and two digits. */
  predicate IsField(s: string) {
    |s| == 3 && s[0] == '-' && AllDigits(s[1..])
  }

  /** The day number of a year, a month and a day from 1 to 31, which runs on into the next month if need be. */
  function MakeDay(y: int, m: int, d: int): Option<int> {
    if 1 <= m <= 12 && 1 <= d <= 31 && TimeRange(FirstOf(y, m) + d - 1) then Some(FirstOf(y, m) + d - 1) else None
  }

  /**
   The day at whose start `new Date(s + 'T00:00:00Z')` lies, or None for a date that is not valid. The forms are those
   of section 21.4.1.32 of ECMA-262: `YYYY`, `YYYY-MM` and `YYYY-MM-DD`, the year with four digits or with a sign and
   six.
   */
  function ParseIso(s: string): (n: Option<int>)
  {
    var k := YearLengthOf(s);
    if k == 0 then None
    else
      var rest := s[k..];
      if rest == "" then MakeDay(YearIn(s), 1, 1)
      else if IsField(rest) then MakeDay(YearIn(s), Value(rest[1..]), 1)
      else if |rest| == 6 && IsField(rest[..3]) && IsField(rest[3..]) then
        MakeDay(YearIn(s), Value(rest[..3][1..]), Value(rest[3..][1..]))
      else None
  }

  lemma PowersOfTen()
    ensures Pow10(4) == 10000 && Pow10(2) == 100 && Pow10(6) == 1000000
  {
    assert Pow10(1) == 10 * Pow10(0);
    assert Pow10(2) == 10 * Pow10(1);
    assert Pow10(3) == 10 * Pow10(2);
    assert Pow10(4) == 10 * Pow10(3);
    assert Pow10(5) == 10 * Pow10(4);
    assert Pow10(6) == 10 * Pow10(5);
  }

  /** What a string of ten characters reads as. */
  lemma ParseTen(s: string)
    requires |s| == 10 && s[4] == '-' && s[7] == '-'
    requires AllDigits(s[..4]) && AllDigits(s[5..7]) && AllDigits(s[8..])
    ensures ParseIso(s) == MakeDay(Value(s[..4]), Value(s[5..7]), Value(s[8..]))
  {
    hide MakeDay, Value;
    var rest := s[4..];
    assert rest[..3][1..] == s[5..7] && rest[3..][1..] == s[8..];
    assert rest[..3][0] == '-' && rest[3..][0] == '-';
    assert !IsField(rest);
  }

  /** What a date with a signed year and no day reads as. */
  lemma ParseSigned(s: string)
    requires |s| == 10 && YearLengthOf(s) == 7 && IsField(s[7..])
    ensures ParseIso(s) == MakeDay(YearIn(s), Value(s[8..]), 1)
  {
    hide MakeDay, Value;
    assert s[7..][1..] == s[8..];
  }

  lemma RealDay(c: Civil)
    requires Real(c)
    ensures FirstOf(c.year, c.month) + c.day - 1 == ToDay(c)
    ensures 0 <= c.year <= 9999 ==> Printable(ToDay(c)) && MakeDay(c.year, c.month, c.day) == Some(ToDay(c))
  {
    OffsetInMonth(c);
    hide ToDay, FirstOf, FromDay;
    CivilRoundTrip(c);
    PrintableRange(ToDay(c));
  }

  /** A real date reads as its day, and is what that day prints as. */
  lemma RealDateIsPrinted(s: string)
    requires RealDate(s)
    ensures ParseIso(s) == Some(DayOf(s)) && Printable(DayOf(s)) && IsoDate(DayOf(s)) == s
  {
    hide DayFromYear, DaysBefore, MonthLength, ToDay, FromDay, Value, Padded, MakeDay, ParseIso, FirstOf;
    PowersOfTen();
    var c := Civil(Value(s[..4]), Value(s[5..7]), Value(s[8..]));
    PaddedOfValue(s[..4]);
    PaddedOfValue(s[5..7]);
    PaddedOfValue(s[8..]);
    ParseTen(s);
    RealDay(c);
    CivilRoundTrip(c);
    assert s == s[..4] + "-" + s[5..7] + "-" + s[8..];
  }

  /** Every day with a four-digit year prints as a real date. */
  lemma PrintedIsReal(n: int)
    requires Printable(n)
    ensures RealDate(IsoDate(n)) && DayOf(IsoDate(n)) == n
  {
    hide ToDay, FromDay, Value, Padded, MonthLength;
    var c, s := FromDay(n), IsoDate(n);
    PrintableRange(n);
    PowersOfTen();
    MonthLengths(c.year, c.month);
    ValueOfPadded(c.year, 4);
    ValueOfPadded(c.month, 2);
    ValueOfPadded(c.day, 2);
    assert s[..4] == Padded(c.year, 4) && s[5..7] == Padded(c.month, 2) && s[8..] == Padded(c.day, 2);
    assert s[4] == '-' && s[7] == '-';
  }

  lemma MonthLengths(y: int, m: int)
    ensures 28 <= MonthLength(y, m) <= 31
  {
  }

  /** Printing a day with a four-digit year and reading it back is the identity. */
  lemma PrintThenParse(n: int)
    requires Printable(n)
    ensures ParseIso(IsoDate(n)) == Some(n)
  {
    hide ParseIso, IsoDate, RealDate, DayOf;
    PrintedIsReal(n);
    RealDateIsPrinted(IsoDate(n));
  }

  /** A year and month with a signed year reads as the first of the month, and prints as it was. */
  lemma FarMonth(y: int, m: int)
    requires -999999 <= y <= 999999 && 1 <= m <= 12
    ensures var s := SignedYear(y) + "-" + Padded(m, 2);
            && YearLengthOf(s) == 7 && YearIn(s) == y && IsField(s[7..]) && Value(s[8..]) == m
            && ParseIso(s) == MakeDay(y, m, 1)
  {
    hide MakeDay, Value, Padded;
    var s := SignedYear(y) + "-" + Padded(m, 2);
    var digits := Padded(if y < 0 then -y else y, 6);
    PowersOfTen();
    ValueOfPadded(if y < 0 then -y else y, 6);
    ValueOfPadded(m, 2);
    assert s[1..7] == digits && s[8..] == Padded(m, 2) && s[..7] == [s[0]] + digits;
    assert s[7..] == "-" + Padded(m, 2) && s[7..][1..] == s[8..];
    if s[..7] == "-000000" {
      assert digits == "-000000"[1..] == "000000";
      ZeroYear();
    }
    assert !IsDigit(s[..4][0]);
    ParseSigned(s);
  }

  lemma ZeroYear()
    ensures AllDigits("000000") && Value("000000") == 0
  {
    ValueOfFour('0', '0', '0', '0');
    assert "000000"[..5] == "00000" && "00000"[..4] == "0000";
    assert Value("00000") == 10 * Value("0000") && Value("000000") == 10 * Value("00000");
  }

  /** Reading what a day prints as gives it back if and only if its year has four digits or it is the first of a month. */
  lemma PrintThenParseIff(n: int)
    requires TimeRange(n)
    ensures ParseIso(IsoDate(n)) == Some(n) <==> Printable(n) || FromDay(n).day == 1
  {
    hide ParseIso, Print, FromDay, ToDay;
    var c := FromDay(n);
    if Printable(n) {
      PrintThenParse(n);
    } else {
      YearRange(n);
      FarMonth(c.year, c.month);
      OffsetInMonth(c);
    }
  }

  /** A signed year outside 0 to 9999, and a month. */
  predicate IsFarMonth(s: string) {
    |s| == 10 && YearLengthOf(s) == 7 && IsField(s[7..]) && !(0 <= YearIn(s) <= 9999)
  }

  /** A string that reads as a day is what that day prints as if and only if it is a real date, or a far month. */
  lemma ParseThenPrint(s: string)
    requires ParseIso(s).Some?
    ensures TimeRange(ParseIso(s).value)
    ensures IsoDate(ParseIso(s).value) == s <==> RealDate(s) || IsFarMonth(s)
  {
    var n := ParseIso(s).value;
    hide ParseIso, FromDay, ToDay, FirstOf, Value, Padded;
    if RealDate(s) {
      RealDateIsPrinted(s);
    } else if IsFarMonth(s) {
      FarMonthIsPrinted(s);
    } else if IsoDate(n) == s {
      hide RealDate, DayOf, Print;
      if Printable(n) {
        PrintedIsReal(n);
      } else {
        YearRange(n);
        PrintableRange(n);
        FarMonth(FromDay(n).year, FromDay(n).month);
      }
    }
  }

  lemma FarMonthText(s: string)
    requires IsFarMonth(s)
    ensures s == SignedYear(YearIn(s)) + "-" + Padded(Value(s[8..]), 2)
  {
    hide Value, Padded;
    PaddedOfValue(s[1..7]);
    assert s[7..][1..] == s[8..];
    PaddedOfValue(s[8..]);
    assert s == [s[0]] + s[1..7] + "-" + s[8..] && s[..7] == [s[0]] + s[1..7];
    if s[0] == '-' { NonzeroDigits(s[1..7]); }
  }

  lemma FarMonthIsPrinted(s: string)
    requires IsFarMonth(s) && ParseIso(s).Some?
    ensures TimeRange(ParseIso(s).value) && IsoDate(ParseIso(s).value) == s
  {
    hide FromDay, ToDay, FirstOf, Value, Padded, ParseIso, Real, MonthLength, SignedYear, YearIn, Print;
    ParseSigned(s);
    FarMonthText(s);
    var c := Civil(YearIn(s), Value(s[8..]), 1);
    RealFirst(c);
    PrintableRange(ToDay(c));
  }

  lemma RealFirst(c: Civil)
    requires 1 <= c.month <= 12 && c.day == 1
    ensures Real(c) && FirstOf(c.year, c.month) == ToDay(c) && FromDay(ToDay(c)) == c
  {
    CivilRoundTrip(c);
  }

  lemma NonzeroDigits(d: string)
    requires |d| == 6 && AllDigits(d) && d != "000000"
    ensures Value(d) > 0
  {
    if Value(d) == 0 { ZeroDigits(d); }
  }

  lemma ZeroDigits(d: string)
    requires |d| == 6 && AllDigits(d) && Value(d) == 0
    ensures d == "000000"
  {
    ZeroYear();
    PaddedOfValue(d);
    PaddedOfValue("000000");
  }

  lemma DashedOrder(y: string, m: string, d: string, y': string, m': string, d': string)
    requires |y| == |y'| && |m| == |m'|
    ensures Less(y + "-" + m + "-" + d, y' + "-" + m' + "-" + d')
            <==> Less(y, y') || (y == y' && (Less(m, m') || (m == m' && Less(d, d'))))
  {
    LessBySegments(y, y', "-", m + "-" + d, m' + "-" + d');
    LessBySegments(m, m', "-", d, d');
    assert y + "-" + m + "-" + d == y + "-" + (m + "-" + d);
    assert y' + "-" + m' + "-" + d' == y' + "-" + (m' + "-" + d');
  }

  lemma PrintOrder(a: Civil, b: Civil)
    requires Real(a) && Real(b) && 0 <= a.year <= 9999 && 0 <= b.year <= 9999
    ensures Less(Print(a), Print(b)) <==> Earlier(a, b)
  {
    PowersOfTen();
    PaddedOrder(a.year, b.year, 4);
    PaddedOrder(a.month, b.month, 2);
    PaddedOrder(a.day, b.day, 2);
    DashedOrder(Padded(a.year, 4), Padded(a.month, 2), Padded(a.day, 2),
                Padded(b.year, 4), Padded(b.month, 2), Padded(b.day, 2));
  }

  /** On dates, string order is day-number order. */
  lemma DateOrder(m: int, n: int)
    requires Printable(m) && Printable(n)
    ensures Less(IsoDate(m), IsoDate(n)) <==> m < n
    ensures IsoDate(m) == IsoDate(n) <==> m == n
  {
    hide FromDay, ParseIso;
    PrintableRange(m);
    PrintableRange(n);
    CivilOrder(FromDay(m), FromDay(n));
    PrintOrder(FromDay(m), FromDay(n));
    PrintThenParse(m);
    PrintThenParse(n);
  }

  /** `addDays`. None where the source fails: `toISOString` throws for a date that is not valid. */
  function AddDays(date: string, days: int): (r: Option<string>) {
    hide ParseIso, FromDay;
    match ParseIso(date)
    case None => None
    case Some(n) => if TimeRange(n + days) then Some(IsoDate(n + days)) else None
  }

  /**
   `addDays` on strings is addition on the days they denote if and only if the sum has a four-digit year or is the
   first of a month.
   */
  lemma AddDaysIsAddition(date: string, days: int)
    requires ParseIso(date).Some?
    ensures var sum := ParseIso(date).value + days;
            AddDays(date, days).Some? && ParseIso(AddDays(date, days).value) == Some(sum)
            <==> TimeRange(sum) && (Printable(sum) || FromDay(sum).day == 1)
  {
    hide ParseIso, IsoDate, FromDay, Printable;
    var sum := ParseIso(date).value + days;
    if TimeRange(sum) { PrintThenParseIff(sum); }
  }

  lemma MakeDayWithinYear(y: int, m: int, d: int)
    requires MakeDay(y, m, d).Some?
    ensures DayFromYear(y) <= MakeDay(y, m, d).value < DayFromYear(y + 1)
  {
    YearStep(y);
    MonthsOrdered(y, m, 13);
    hide DayFromYear;
    assert DaysBefore(y, m) >= 0 && DaysBefore(y, m) + 30 < YearLength(y);
  }

  lemma ParsedWithinYear(s: string)
    requires ParseIso(s).Some?
    ensures YearLengthOf(s) > 0 && DayFromYear(YearIn(s)) <= ParseIso(s).value < DayFromYear(YearIn(s) + 1)
  {
    hide MakeDay, DayFromYear, Value;
    var rest := s[YearLengthOf(s)..];
    if rest == "" {
      MakeDayWithinYear(YearIn(s), 1, 1);
    } else if IsField(rest) {
      MakeDayWithinYear(YearIn(s), Value(rest[1..]), 1);
    } else {
      MakeDayWithinYear(YearIn(s), Value(rest[..3][1..]), Value(rest[3..][1..]));
    }
  }

  /** The first character tells a day before the year 0, and one after the year 9999 begins with a plus. */
  lemma SignTells(s: string)
    requires ParseIso(s).Some?
    ensures s != "" && (s[0] == '-' <==> ParseIso(s).value < -719528)
    ensures s[0] != '-' && !Printable(ParseIso(s).value) ==> s[0] == '+'
  {
    ParsedWithinYear(s);
    YearInSign(s);
    var y := YearIn(s);
    assert DayFromYear(0) == -719528 && DayFromYear(10000) == 2932897;
    if y < -1 { YearsOrdered(y, -1); YearStep(-1); }
    if y > 0 { YearsOrdered(0, y); YearStep(0); }
    if 0 <= y < 9999 { YearsOrdered(y, 9999); YearsOrdered(9999, 10000); }
    hide ParseIso, DayFromYear, YearIn, YearLengthOf;
  }

  lemma YearInSign(s: string)
    requires YearLengthOf(s) > 0
    ensures s != "" && (s[0] == '-' <==> YearIn(s) < 0)
    ensures s[0] != '-' && s[0] != '+' ==> YearIn(s) <= 9999
  {
    PowersOfTen();
    if YearLengthOf(s) == 4 {
      PaddedOfValue(s[..4]);
      assert IsDigit(s[..4][0]);
    } else if Value(s[1..7]) == 0 {
      ZeroDigits(s[1..7]);
      assert s[..7] == [s[0]] + s[1..7];
    }
  }

  /** Strings that are read although they are no calendar dates: a year, a month, and a day that rolls over. */
  lemma LenientReading()
    ensures ParseIso("2026") == Some(ToDay(Civil(2026, 1, 1)))
    ensures ParseIso("2026-01") == Some(ToDay(Civil(2026, 1, 1)))
    ensures ParseIso("2026-02-31") == Some(ToDay(Civil(2026, 3, 3)))
  {
    var y, m, t, d := "2026", "01", "02", "31";
    SmallValues();
    assert "2026"[..4] == y && "2026"[4..] == "" && "2026-01"[..4] == y && "2026-01"[4..] == "-01" && "-01"[1..] == m;
    assert "2026-02-31"[..4] == y && "2026-02-31"[5..7] == t && "2026-02-31"[8..] == d;
    ParseTen("2026-02-31");
  }

  lemma SmallValues()
    ensures AllDigits("2026") && AllDigits("01") && AllDigits("02") && AllDigits("31")
    ensures Value("2026") == 2026 && Value("01") == 1 && Value("02") == 2 && Value("31") == 31
  {
    ValueOfFour('2', '0', '2', '6');
    ValueOfTwo('0', '1');
    ValueOfTwo('0', '2');
    ValueOfTwo('3', '1');
  }

  // ---- weekdays ----

  /** `getUTCDay`: 0 is Sunday. */
  function WeekDay(n: int): (w: int)
    ensures 0 <= w < 7
  {
    (n + 4) % 7
  }

  /** January 1st 1970 was a Thursday, and each day has the weekday after the one before. */
  lemma WeekDaysFollow(n: int)
    ensures WeekDay(ToDay(Civil(1970, 1, 1))) == 4
    ensures WeekDay(n + 1) == (WeekDay(n) + 1) % 7
  {
  }

  /** The days before a year, by its centuries and leap years. */
  lemma DayFromYearIs(y: int)
    ensures DayFromYear(y) == 365 * (y - 1970) + y / 4 - y / 100 + y / 400 - 477 - if Leap(y) then 1 else 0
  {
    FourthYear(y);
    HundredthYear(y);
    FourHundredthYear(y);
    YearShifts(y);
    CenturiesAreFourths(y);
  }

  lemma YearShifts(y: int)
    ensures (y - 1968) / 4 == y / 4 - 492 && (y - 1900) / 100 == y / 100 - 19 && (y - 1600) / 400 == y / 400 - 4
  {
  }

  lemma CenturiesAreFourths(y: int)
    ensures y % 100 == 0 ==> y % 4 == 0
  {
  }

  /** Leap days up to and including a year. */
  function LeapDays(y: int): int {
    y / 4 - y / 100 + y / 400
  }

  lemma LeapDaysStep(y: int)
    ensures LeapDays(y) == LeapDays(y - 1) + if Leap(y) then 1 else 0
  {
    FourthYear(y);
    HundredthYear(y);
    FourHundredthYear(y);
    YearShifts(y);
    YearShifts(y - 1);
    CenturiesAreFourths(y);
  }

  /**
   Zeller's congruence: the weekday of a date of the Gregorian calendar, from its year, month and day alone. January and
   February count as months 13 and 14 of the year before.
   */
  lemma Zeller(c: Civil)
    requires Real(c)
    ensures var y, m := if c.month <= 2 then c.year - 1 else c.year, if c.month <= 2 then c.month + 12 else c.month;
            WeekDay(ToDay(c)) == (c.day + 13 * (m + 1) / 5 + y + y / 4 - y / 100 + y / 400 + 6) % 7
  {
    var y, m := if c.month <= 2 then c.year - 1 else c.year, if c.month <= 2 then c.month + 12 else c.month;
    DayFromYearIs(c.year);
    LeapDaysStep(c.year);
    ZellerMonths(c);
    hide DayFromYear, DaysBefore, Leap, MonthLength;
    var z := c.day + 13 * (m + 1) / 5 + y + LeapDays(y) + 6;
    var k := if c.month <= 2 then 52 * y + 4 * c.month - 102747 else 52 * y + 4 * c.month - 102795;
    assert ToDay(c) + 4 == z + 7 * k;
    SevenTimes(z, k);
  }

  lemma SevenTimes(z: int, k: int)
    ensures (z + 7 * k) % 7 == z % 7
  {
  }

  /** The part of the congruence that depends on the month. */
  lemma ZellerMonths(c: Civil)
    requires Real(c)
    ensures c.month <= 2 ==> DaysBefore(c.year, c.month) == 13 * (c.month + 13) / 5 + 28 * c.month - 64
    ensures c.month > 2 ==>
              DaysBefore(c.year, c.month) == 13 * (c.month + 1) / 5 + 28 * c.month - 35 + if Leap(c.year) then 1 else 0
  {
  }

  /** The days of the month of `n`, up to and including `n`, that fall on weekday `w`. */
  function SameWeekDays(n: int, w: int): set<int> {
    set m | n - FromDay(n).day < m <= n && WeekDay(m) == w
  }

  /** Day `n` is the `k`-th of its weekday in its month, by counting. */
  ghost predicate IsNth(n: int, k: int) {
    |SameWeekDays(n, WeekDay(n))| == k
  }

  /** Weekdays repeat after seven days and not before. */
  lemma WeekDayRepeats(n: int)
    ensures WeekDay(n - 7) == WeekDay(n) && forall m :: n - 7 < m < n ==> WeekDay(m) != WeekDay(n)
  {
  }

  lemma {:induction false} CountBackwards(n: int, len: nat, w: int)
    requires WeekDay(n) == w
    ensures |set m | n - len < m <= n && WeekDay(m) == w| == (len + 6) / 7
    decreases len
  {
    WeekDayRepeats(n);
    hide WeekDay;
    var s := set m | n - len < m <= n && WeekDay(m) == w;
    if len == 0 {
      assert s == {};
    } else if len <= 7 {
      assert s == {n};
    } else {
      var t := set m | (n - 7) - (len - 7) < m <= n - 7 && WeekDay(m) == w;
      CountBackwards(n - 7, len - 7, w);
      assert s == t + {n} && n !in t;
      assert (len + 6) / 7 == (len - 7 + 6) / 7 + 1;
    }
  }

  /** `Math.ceil(day / 7)` counts the weekday within the month. */
  lemma CeilCountsWeekDays(n: int, k: int)
    ensures IsNth(n, k) <==> (FromDay(n).day + 6) / 7 == k
  {
    hide FromDay, WeekDay, ToDay;
    CountBackwards(n, FromDay(n).day, WeekDay(n));
  }

  /** The days of a month that are the `k`-th `w` of it. */
  ghost predicate NthInMonth(n: int, y: int, m: int, w: int, k: int) {
    FromDay(n).year == y && FromDay(n).month == m && WeekDay(n) == w && IsNth(n, k)
  }

  function NthDay(y: int, m: int, w: int, k: int): int
    requires 1 <= m <= 12
  {
    FirstOf(y, m) + (w - WeekDay(FirstOf(y, m))) % 7 + 7 * (k - 1)
  }

  /** The days of a month are consecutive. */
  lemma InMonth(n: int, y: int, m: int)
    requires 1 <= m <= 12
    ensures FromDay(n).year == y && FromDay(n).month == m <==> FirstOf(y, m) <= n < FirstOf(y, m) + MonthLength(y, m)
    ensures FromDay(n).year == y && FromDay(n).month == m ==> FromDay(n).day == n - FirstOf(y, m) + 1
  {
    hide DayFromYear, DaysBefore, MonthLength, ToDay, FromDay, FirstOf;
    var first, c := FirstOf(y, m), FromDay(n);
    if c.year == y && c.month == m {
      OffsetInMonth(c);
    }
    if first <= n < first + MonthLength(y, m) {
      var d := Civil(y, m, n - first + 1);
      OffsetInMonth(d);
      CivilRoundTrip(d);
    }
  }

  lemma WeekDayFrom(first: int, d: int, w: int)
    requires 0 <= w < 7
    ensures WeekDay(first + d) == w <==> d % 7 == (w - WeekDay(first)) % 7
  {
  }

  lemma WeekAndDay(d: nat, r: nat, k: int)
    requires r < 7
    ensures d % 7 == r && (d + 7) / 7 == k <==> d == r + 7 * (k - 1)
  {
  }

  lemma NthArithmetic(n: int, first: int, len: int, w: int, k: int)
    requires 28 <= len <= 31 && 0 <= w < 7
    ensures var nth := first + (w - WeekDay(first)) % 7 + 7 * (k - 1);
            && (first <= n < first + len && WeekDay(n) == w && (n - first + 7) / 7 == k
                <==> n == nth && 1 <= k <= 5 && n < first + len)
            && (1 <= k <= 4 ==> nth < first + len)
  {
    hide WeekDay;
    var r := (w - WeekDay(first)) % 7;
    if first <= n {
      WeekDayFrom(first, n - first, w);
      WeekAndDay(n - first, r, k);
    }
  }

  /** A month has exactly one `k`-th `w` for `k` in 1..4, at most one for 5, and none for any other `k`. */
  lemma NthIsUnique(n: int, y: int, m: int, w: int, k: int)
    requires 1 <= m <= 12 && 0 <= w < 7
    ensures NthInMonth(n, y, m, w, k) <==>
            n == NthDay(y, m, w, k) && 1 <= k <= 5 && n < FirstOf(y, m) + MonthLength(y, m)
    ensures 1 <= k <= 4 ==> NthDay(y, m, w, k) < FirstOf(y, m) + MonthLength(y, m)
  {
    hide FromDay, FirstOf, IsNth;
    CeilCountsWeekDays(n, k);
    InMonth(n, y, m);
    NthArithmetic(n, FirstOf(y, m), MonthLength(y, m), w, k);
  }
}

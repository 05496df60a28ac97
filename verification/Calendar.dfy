/** The date-time text of playlists (routes.rs, unix_rfc3339): a closed form for the Gregorian date of a second,
    proved against counting days one year and one month at a time. */
module Calendar {

  datatype DateTime = DateTime(year: int, month: int, day: int, hour: int, minute: int, second: int)

  // ---- Counting days ----

  predicate Leap(year: int) {
    year % 4 == 0 && (year % 100 != 0 || year % 400 == 0)
  }

  function MonthLength(year: int, month: int): int {
    if month == 2 then (if Leap(year) then 29 else 28)
    else if month == 4 || month == 6 || month == 9 || month == 11 then 30
    else 31
  }

  function YearLength(year: int): int {
    if Leap(year) then 366 else 365
  }

  /** Days from 1970-01-01 to the first of January of a year, counted year by year. */
  function DaysToYear(year: int): int
    decreases if year >= 1970 then year - 1970 else 1970 - year
  {
    if year == 1970 then 0
    else if year > 1970 then DaysToYear(year - 1) + YearLength(year - 1)
    else DaysToYear(year + 1) - YearLength(year)
  }

  /** Days from the first of January to the first of a month, counted month by month. */
  function DaysToMonth(year: int, month: int): int
    decreases month
  {
    if month <= 1 then 0 else DaysToMonth(year, month - 1) + MonthLength(year, month - 1)
  }

  function DayNumber(year: int, month: int, day: int): int {
    DaysToYear(year) + DaysToMonth(year, month) + day - 1
  }

  predicate ValidDate(year: int, month: int, day: int) {
    1 <= month <= 12 && 1 <= day <= MonthLength(year, month)
  }

  predicate Valid(t: DateTime) {
    ValidDate(t.year, t.month, t.day) && 0 <= t.hour < 24 && 0 <= t.minute < 60 && 0 <= t.second < 60
  }

  /** The second a date-time stands for. */
  function Seconds(t: DateTime): int {
    86_400 * DayNumber(t.year, t.month, t.day) + 3_600 * t.hour + 60 * t.minute + t.second
  }

  // ---- The closed form ----

  /** Division as the source's integers do it: toward zero. */
  function Truncated(a: int, b: int): int
    requires b > 0
  {
    if a >= 0 then a / b else -((-a) / b)
  }

  /** The year of a 400-year era, from March to February. */
  function YearOfEra(dayOfEra: int): int {
    (dayOfEra - dayOfEra / 1_460 + dayOfEra / 36_524 - dayOfEra / 146_096) / 365
  }

  /** The first day of a year of the era. */
  function EraYearStart(year: int): int {
    365 * year + year / 4 - year / 100
  }

  /** Month, counted from March, and day of a day of a March year. */
  function MarchDay(dayOfYear: int): (int, int) {
    var m := (5 * dayOfYear + 2) / 153;
    (m, dayOfYear - (153 * m + 2) / 5 + 1)
  }

  function Era(z: int): int {
    Truncated(if z >= 0 then z else z - 146_096, 146_097)
  }

  function CivilDate(days: int): (int, int, int) {
    var z := days + 719_468;
    var era := Era(z);
    var dayOfEra := z - era * 146_097;
    var yearOfEra := YearOfEra(dayOfEra);
    var (monthPrime, day) := MarchDay(dayOfEra - EraYearStart(yearOfEra));
    var month := monthPrime + if monthPrime < 10 then 3 else -9;
    (yearOfEra + era * 400 + (if month <= 2 then 1 else 0), month, day)
  }

  function Civil(unix: int): DateTime {
    var (year, month, day) := CivilDate(unix / 86_400);
    var seconds := unix % 86_400;
    DateTime(year, month, day, seconds / 3_600, seconds % 3_600 / 60, seconds % 60)
  }

  // ---- Counting, in closed form ----

  function LeapsTo(year: int): int {
    (year - 1) / 4 - (year - 1) / 100 + (year - 1) / 400
  }

  lemma FourthStep(n: int)
    ensures n / 4 == (n - 1) / 4 + if n % 4 == 0 then 1 else 0
  {
  }

  lemma HundredthStep(n: int)
    ensures n / 100 == (n - 1) / 100 + if n % 100 == 0 then 1 else 0
  {
  }

  lemma FourHundredthStep(n: int)
    ensures n / 400 == (n - 1) / 400 + if n % 400 == 0 then 1 else 0
  {
  }

  lemma MultipleOfFour(k: int)
    ensures (4 * k) % 4 == 0
  {
  }

  lemma MultipleOfHundred(k: int)
    ensures (100 * k) % 100 == 0
  {
  }

  lemma CenturiesAreFourths(n: int)
    ensures n % 100 == 0 ==> n % 4 == 0
    ensures n % 400 == 0 ==> n % 100 == 0
  {
    var (century, era) := (n / 100, n / 400);
    MultipleOfFour(25 * century);
    MultipleOfHundred(4 * era);
    assert n % 100 == 0 ==> n == 4 * (25 * century);
    assert n % 400 == 0 ==> n == 100 * (4 * era);
  }

  lemma LeapsStep(year: int)
    ensures LeapsTo(year + 1) == LeapsTo(year) + if Leap(year) then 1 else 0
  {
    FourthStep(year);
    HundredthStep(year);
    FourHundredthStep(year);
    CenturiesAreFourths(year);
  }

  lemma {:induction false} DaysToYearClosed(year: int)
    ensures DaysToYear(year) == 365 * (year - 1970) + LeapsTo(year) - LeapsTo(1970)
    decreases if year >= 1970 then year - 1970 else 1970 - year
  {
    if year > 1970 {
      DaysToYearClosed(year - 1);
      LeapsStep(year - 1);
    } else if year < 1970 {
      DaysToYearClosed(year + 1);
      LeapsStep(year);
    }
  }

  /** From March on, the months before are those of (153 m + 2) / 5, and January and February. */
  lemma DaysToMonthClosed(year: int, month: int)
    requires 1 <= month <= 12
    ensures month <= 2 ==> DaysToMonth(year, month) == 31 * (month - 1)
    ensures month > 2 ==> DaysToMonth(year, month) == (153 * (month - 3) + 2) / 5 + YearLength(year) - 306
  {
    if month > 1 {
      DaysToMonthClosed(year, month - 1);
    }
  }

  // ---- The era ----

  lemma EraIsFloor(z: int)
    ensures Era(z) == z / 146_097
  {
  }

  /** A century of 25 four-year groups of 1461 days: day e lies in year y of it. The shift s, of at most 72 days,
      is what the formula is off by in later centuries. */
  lemma YearOfCentury(s: nat, e: nat)
    requires s <= 72 && e < 36_524
    ensures var y := (e - (s + e) / 1_460) / 365;
            0 <= y < 100 && 365 * y + y / 4 <= e && (y < 99 ==> e < 365 * (y + 1) + (y + 1) / 4)
  {
    var f, g := e / 1_461, e % 1_461;
    var late := if f + g + s >= 1_460 then 1 else 0;
    assert e == 1_461 * f + g && f <= 24;
    assert s + e == 1_460 * (f + late) + (f + g + s - 1_460 * late);
    assert (s + e) / 1_460 == f + late;
    var h := (g - late) / 365;
    assert h == if g / 365 <= 3 then g / 365 else 3;
    assert e - (s + e) / 1_460 == 365 * (4 * f) + (g - late);
    assert (e - (s + e) / 1_460) / 365 == 4 * f + h;
    assert (4 * f + h) / 4 == f;
    if h < 3 {
      assert (4 * f + h + 1) / 4 == f;
    } else {
      assert (4 * f + h + 1) / 4 == f + 1;
    }
  }

  /** The closed form finds the year a day of the era lies in. */
  lemma YearOfEraBounds(dayOfEra: int)
    requires 0 <= dayOfEra < 146_097
    ensures var y := YearOfEra(dayOfEra);
            0 <= y < 400 && EraYearStart(y) <= dayOfEra
            && (y < 399 ==> dayOfEra < EraYearStart(y + 1))
  {
    hide YearOfEra, EraYearStart;
    if dayOfEra == 146_096 {
      LastDayOfEra();
    } else {
      var c, e := dayOfEra / 36_524, dayOfEra % 36_524;
      assert dayOfEra == 36_524 * c + e && 0 <= c <= 3;
      YearOfCentury(24 * c, e);
      YearInEra(c, e, (e - (24 * c + e) / 1_460) / 365);
    }
  }

  lemma LastDayOfEra()
    ensures YearOfEra(146_096) == 399 && EraYearStart(399) <= 146_096
  {
  }

  lemma YearInEra(c: nat, e: nat, y: nat)
    requires c <= 3 && e < 36_524 && y == (e - (24 * c + e) / 1_460) / 365 && y < 100
    ensures YearOfEra(36_524 * c + e) == 100 * c + y
    ensures EraYearStart(100 * c + y) == 36_524 * c + 365 * y + y / 4
    ensures y < 99 ==> EraYearStart(100 * c + y + 1) == 36_524 * c + 365 * (y + 1) + (y + 1) / 4
    ensures y == 99 && c < 3 ==> EraYearStart(100 * c + y + 1) == 36_524 * (c + 1)
  {
    var d := 36_524 * c + e;
    assert d / 1_460 == 25 * c + (24 * c + e) / 1_460;
    assert d / 36_524 == c && d / 146_096 == 0;
    assert d - d / 1_460 + c == 365 * (100 * c) + (e - (24 * c + e) / 1_460);
    assert (100 * c + y) / 4 == 25 * c + y / 4 && (100 * c + y) / 100 == c;
    if y < 99 {
      assert (100 * c + y + 1) / 4 == 25 * c + (y + 1) / 4 && (100 * c + y + 1) / 100 == c;
    } else {
      assert (100 * c + y + 1) / 4 == 25 * (c + 1) && (100 * c + y + 1) / 100 == c + 1;
    }
  }

  // ---- Days within a year of the era, and the date ----

  /** The months from March on, by the day of the year. */
  lemma MonthOfYear(dayOfYear: int)
    requires 0 <= dayOfYear < 366
    ensures var m := (5 * dayOfYear + 2) / 153;
            0 <= m < 12 && (153 * m + 2) / 5 <= dayOfYear && (m < 11 ==> dayOfYear < (153 * (m + 1) + 2) / 5)
  {
  }

  /** Month m of a March year has the length of the calendar's month. */
  lemma MonthLengths(year: int, m: int)
    requires 0 <= m < 11
    ensures (153 * (m + 1) + 2) / 5 - (153 * m + 2) / 5 == MonthLength(year, if m < 10 then m + 3 else m - 9)
  {
    if m < 5 {
    } else {
    }
  }

  lemma NextYear(year: int)
    ensures DaysToYear(year + 1) == DaysToYear(year) + YearLength(year)
  {
  }

  lemma LeapsInEra(era: int, y: int)
    requires 0 <= y < 400
    ensures LeapsTo(400 * era + y + 1) == 97 * era + y / 4 - y / 100
  {
    assert (400 * era + y) / 4 == 100 * era + y / 4;
    assert (400 * era + y) / 100 == 4 * era + y / 100;
    assert (400 * era + y) / 400 == era;
  }

  /** Year y of era e begins on the first of March of the calendar's year 400 e + y. */
  lemma EraYearBegins(era: int, y: int)
    requires 0 <= y < 400
    ensures 146_097 * era + EraYearStart(y) + 306 - 719_468 == DaysToYear(400 * era + y + 1)
    ensures 146_097 * era + EraYearStart(y) - 719_468 == DaysToYear(400 * era + y) + DaysToMonth(400 * era + y, 3)
  {
    var year := 400 * era + y;
    assert LeapsTo(1970) == 477;
    LeapsInEra(era, y);
    hide LeapsTo, YearLength, Leap, DaysToYear, DaysToMonth;
    DaysToYearClosed(year + 1);
    NextYear(year);
    DaysToMonthClosed(year, 3);
  }

  /** and ends with the February of the next one. */
  lemma EraYearEnds(era: int, y: int)
    requires 0 <= y < 400
    ensures (if y < 399 then EraYearStart(y + 1) else 146_097) - EraYearStart(y)
            == 337 + MonthLength(400 * era + y + 1, 2)
  {
    var year := 400 * era + y;
    LeapsInEra(era, y);
    if y < 399 {
      LeapsInEra(era, y + 1);
    } else {
      LeapsInEra(era + 1, 0);
    }
    LeapsStep(year + 1);
    hide LeapsTo, Leap;
  }

  lemma MarchDate(year: int, dayOfYear: int)
    requires 0 <= dayOfYear < 337 + MonthLength(year + 1, 2)
    ensures var (m, day) := MarchDay(dayOfYear);
            && 0 <= m < 12
            && (m < 10 ==>
                  && ValidDate(year, m + 3, day)
                  && DaysToMonth(year, m + 3) + day - 1 == DaysToMonth(year, 3) + dayOfYear)
            && (m >= 10 ==>
                  && ValidDate(year + 1, m - 9, day)
                  && DaysToMonth(year + 1, m - 9) + day - 1 == dayOfYear - 306)
  {
    MonthOfYear(dayOfYear);
    var (m, day) := MarchDay(dayOfYear);
    if m < 11 {
      MonthLengths(if m < 10 then year else year + 1, m);
    }
    DaysToMonthClosed(year, 3);
    if m < 10 {
      DaysToMonthClosed(year, m + 3);
    } else {
      DaysToMonthClosed(year + 1, m - 9);
    }
    hide DaysToMonth, Leap;
  }

  /** The date of a day: valid, and that many days from the epoch. */
  lemma CivilDateCounts(days: int)
    ensures var (year, month, day) := CivilDate(days);
            ValidDate(year, month, day) && DayNumber(year, month, day) == days
  {
    hide CivilDate, DaysToYear, YearOfEra;
    var z := days + 719_468;
    var era := z / 146_097;
    EraIsFloor(z);
    var dayOfEra := z - era * 146_097;
    var y := YearOfEra(dayOfEra);
    YearOfEraBounds(dayOfEra);
    EraYearBegins(era, y);
    EraYearEnds(era, y);
    var dayOfYear := dayOfEra - EraYearStart(y);
    var m := (5 * dayOfYear + 2) / 153;
    assert 0 <= dayOfYear < 337 + MonthLength(400 * era + y + 1, 2);
    MonthOfYear(dayOfYear);
    CivilDateIs(days, era, y, dayOfYear);
    hide EraYearStart;
    MarchDate(400 * era + y, dayOfYear);
  }

  lemma CivilDateIs(days: int, era: int, y: int, dayOfYear: int)
    requires era == (days + 719_468) / 146_097
    requires y == YearOfEra(days + 719_468 - era * 146_097)
    requires dayOfYear == days + 719_468 - era * 146_097 - EraYearStart(y) && 0 <= dayOfYear < 366
    ensures var (m, day) := MarchDay(dayOfYear);
            CivilDate(days) == (400 * era + y + (if m < 10 then 0 else 1), m + (if m < 10 then 3 else -9), day)
  {
    EraIsFloor(days + 719_468);
    MonthOfYear(dayOfYear);
    hide YearOfEra, Era;
  }

  // ---- The date-time of a second ----

  /** Every second has valid fields that count back to it. */
  lemma CivilCounts(unix: int)
    ensures Valid(Civil(unix)) && Seconds(Civil(unix)) == unix
  {
    hide CivilDate, DayNumber, ValidDate;
    CivilDateCounts(unix / 86_400);
    TimeOfDay(unix % 86_400);
    assert unix == 86_400 * (unix / 86_400) + unix % 86_400;
    hide *;
    CivilIs(unix);
    SecondsIs(Civil(unix));
  }

  lemma CivilIs(unix: int)
    ensures var (t, (year, month, day), s) := (Civil(unix), CivilDate(unix / 86_400), unix % 86_400);
            t == DateTime(year, month, day, s / 3_600, s % 3_600 / 60, s % 60)
  {
  }

  lemma SecondsIs(t: DateTime)
    ensures Seconds(t) == 86_400 * DayNumber(t.year, t.month, t.day) + (3_600 * t.hour + 60 * t.minute + t.second)
    ensures Valid(t) == (ValidDate(t.year, t.month, t.day) && 0 <= t.hour < 24 && 0 <= t.minute < 60 &&
                         0 <= t.second < 60)
  {
  }

  lemma TimeOfDay(s: int)
    requires 0 <= s < 86_400
    ensures 3_600 * (s / 3_600) + 60 * (s % 3_600 / 60) + s % 60 == s
    ensures 0 <= s / 3_600 < 24 && 0 <= s % 3_600 / 60 < 60 && 0 <= s % 60 < 60
  {
    var rest := s % 3_600;
    assert s == 3_600 * (s / 3_600) + rest;
    assert s % 60 == rest % 60;
  }

  lemma TimeFields(h: int, m: int, sec: int)
    requires 0 <= h < 24 && 0 <= m < 60 && 0 <= sec < 60
    ensures var s := 3_600 * h + 60 * m + sec;
            0 <= s < 86_400 && s / 3_600 == h && s % 3_600 / 60 == m && s % 60 == sec
  {
    var s := 3_600 * h + 60 * m + sec;
    assert s % 3_600 == 60 * m + sec;
    assert (60 * m + sec) / 60 == m;
    assert s % 60 == sec;
  }

  lemma DayAndTime(days: int, s: int)
    requires 0 <= s < 86_400
    ensures (86_400 * days + s) / 86_400 == days && (86_400 * days + s) % 86_400 == s
  {
  }

  lemma MonthStarts(year: int, month: int, later: int)
    requires 1 <= month < later <= 12
    ensures DaysToMonth(year, month) + MonthLength(year, month) <= DaysToMonth(year, later)
  {
    if month + 1 < later {
      MonthStarts(year, month, later - 1);
    }
  }

  lemma MonthEnds(year: int, month: int)
    requires 1 <= month <= 12
    ensures 0 <= DaysToMonth(year, month) && DaysToMonth(year, month) + MonthLength(year, month) <= YearLength(year)
  {
    DaysToMonthClosed(year, month);
  }

  lemma {:induction false} YearStarts(year: int, later: int)
    requires year < later
    ensures DaysToYear(year) + YearLength(year) <= DaysToYear(later)
    decreases later - year
  {
    NextYear(later - 1);
    if year + 1 < later {
      YearStarts(year, later - 1);
    }
  }

  /** Calendar order of dates. */
  predicate Earlier(y: int, m: int, d: int, y': int, m': int, d': int) {
    y < y' || (y == y' && (m < m' || (m == m' && d < d')))
  }

  lemma EarlierCounts(y: int, m: int, d: int, y': int, m': int, d': int)
    requires ValidDate(y, m, d) && ValidDate(y', m', d') && Earlier(y, m, d, y', m', d')
    ensures DayNumber(y, m, d) < DayNumber(y', m', d')
  {
    MonthEnds(y, m);
    MonthEnds(y', m');
    hide DaysToYear, DaysToMonth, MonthLength, YearLength;
    if y < y' {
      YearStarts(y, y');
    } else if m < m' {
      MonthStarts(y, m, m');
    }
  }

  /** A day number belongs to one date only. */
  lemma DateUnique(y: int, m: int, d: int, y': int, m': int, d': int)
    requires ValidDate(y, m, d) && ValidDate(y', m', d') && DayNumber(y, m, d) == DayNumber(y', m', d')
    ensures y == y' && m == m' && d == d'
  {
    hide ValidDate, DayNumber;
    if Earlier(y, m, d, y', m', d') {
      EarlierCounts(y, m, d, y', m', d');
    } else if Earlier(y', m', d', y, m, d) {
      EarlierCounts(y', m', d', y, m, d);
    }
  }

  /** The closed form is the inverse of counting, both ways. */
  lemma CivilInverse(t: DateTime)
    requires Valid(t)
    ensures Civil(Seconds(t)) == t
  {
    hide *;
    var days := DayNumber(t.year, t.month, t.day);
    SecondsIs(t);
    TimeFields(t.hour, t.minute, t.second);
    DayAndTime(days, 3_600 * t.hour + 60 * t.minute + t.second);
    CivilIs(Seconds(t));
    CivilDateCounts(days);
    var (y, m, d) := CivilDate(days);
    DateUnique(t.year, t.month, t.day, y, m, d);
  }

  /** The calendar's next date. */
  function NextDate(year: int, month: int, day: int): (int, int, int) {
    if day < MonthLength(year, month) then (year, month, day + 1)
    else if month < 12 then (year, month + 1, 1)
    else (year + 1, 1, 1)
  }

  lemma NextDateCounts(year: int, month: int, day: int)
    requires ValidDate(year, month, day)
    ensures var (y, m, d) := NextDate(year, month, day);
            ValidDate(y, m, d) && DayNumber(y, m, d) == DayNumber(year, month, day) + 1
  {
    NextYear(year);
    if month == 12 {
      DaysToMonthClosed(year, 12);
    }
  }

  /** A day later it is the same time on the next date. */
  lemma NextDay(unix: int)
    ensures var (t, u) := (Civil(unix), Civil(unix + 86_400));
            && (u.year, u.month, u.day) == NextDate(t.year, t.month, t.day)
            && u.hour == t.hour && u.minute == t.minute && u.second == t.second
  {
    var (t, u) := (Civil(unix), Civil(unix + 86_400));
    CivilDateCounts(unix / 86_400);
    CivilDateCounts(unix / 86_400 + 1);
    assert (unix + 86_400) / 86_400 == unix / 86_400 + 1 && (unix + 86_400) % 86_400 == unix % 86_400;
    NextDateCounts(t.year, t.month, t.day);
    var (y, m, d) := NextDate(t.year, t.month, t.day);
    hide CivilDate, DayNumber, ValidDate, NextDate;
    DateUnique(y, m, d, u.year, u.month, u.day);
  }

  // ---- The text ----

  function Digit(n: int): char
    requires 0 <= n < 10
  {
    '0' + n as char
  }

  /** Decimal digits, without sign. */
  function Digits(n: nat): (s: string)
    ensures s != "" && forall i :: 0 <= i < |s| ==> '0' <= s[i] <= '9'
  {
    if n < 10 then [Digit(n)] else Digits(n / 10) + [Digit(n % 10)]
  }

  function Zeros(n: int): (s: string)
    ensures |s| == if n > 0 then n else 0
    ensures forall i :: 0 <= i < |s| ==> s[i] == '0'
  {
    if n <= 0 then "" else Zeros(n - 1) + "0"
  }

  /** The formatting `{n:0width}`: a sign counts towards the width and comes first. */
  function Padded(n: int, width: nat): string {
    if n < 0 then "-" + Zeros(width - 1 - |Digits(-n)|) + Digits(-n) else Zeros(width - |Digits(n)|) + Digits(n)
  }

  function Text(t: DateTime): string {
    Padded(t.year, 4) + "-" + Padded(t.month, 2) + "-" + Padded(t.day, 2) + "T"
    + Padded(t.hour, 2) + ":" + Padded(t.minute, 2) + ":" + Padded(t.second, 2) + "Z"
  }

  function UnixRfc3339(unix: int): string {
    Text(Civil(unix))
  }

  // ---- RFC 3339 ----

  predicate IsDigit(c: char) {
    '0' <= c <= '9'
  }

  function Number(s: string): nat
    requires forall i :: 0 <= i < |s| ==> IsDigit(s[i])
  {
    if s == "" then 0
    else
      assert IsDigit(s[|s| - 1]);
      10 * Number(s[..|s| - 1]) + (s[|s| - 1] as int - '0' as int)
  }

  predicate AllDigits(s: string) {
    forall i :: 0 <= i < |s| ==> IsDigit(s[i])
  }

  /** The grammar of section 5.6 of RFC 3339 for a time in UTC without fractions: YYYY-MM-DDThh:mm:ssZ. */
  predicate Grammatical(s: string) {
    && |s| == 20 && AllDigits(s[0..4]) && s[4] == '-' && AllDigits(s[5..7]) && s[7] == '-' && AllDigits(s[8..10])
    && s[10] == 'T' && AllDigits(s[11..13]) && s[13] == ':' && AllDigits(s[14..16]) && s[16] == ':'
    && AllDigits(s[17..19])
    && s[19] == 'Z'
  }

  function Parsed(s: string): DateTime
    requires Grammatical(s)
  {
    DateTime(Number(s[0..4]), Number(s[5..7]), Number(s[8..10]), Number(s[11..13]), Number(s[14..16]),
             Number(s[17..19]))
  }

  /** Grammar, and the field restrictions of section 5.7 with the leap years of appendix C. */
  predicate IsRfc3339(s: string) {
    Grammatical(s) && Valid(Parsed(s))
  }

  lemma {:induction false} DigitsNumber(n: nat)
    ensures Number(Digits(n)) == n
  {
    if n >= 10 {
      DigitsNumber(n / 10);
      assert Digits(n)[..|Digits(n)| - 1] == Digits(n / 10);
    } else {
      assert [Digit(n)][..0] == "";
    }
  }

  lemma {:induction false} ZerosNumber(k: int, s: string)
    requires AllDigits(s)
    ensures AllDigits(Zeros(k) + s) && Number(Zeros(k) + s) == Number(s)
    decreases |s|
  {
    if s == "" {
      assert Zeros(k) + s == Zeros(k);
      OnlyZeros(k);
    } else {
      assert (Zeros(k) + s)[..|Zeros(k) + s| - 1] == Zeros(k) + s[..|s| - 1];
      ZerosNumber(k, s[..|s| - 1]);
    }
  }

  lemma {:induction false} OnlyZeros(k: int)
    ensures Number(Zeros(k)) == 0
  {
    if k > 0 {
      OnlyZeros(k - 1);
      assert Zeros(k)[..|Zeros(k)| - 1] == Zeros(k - 1);
    }
  }

  lemma {:induction false} DigitsLength(n: nat, width: nat)
    requires width > 0
    ensures |Digits(n)| <= width <==> n < Pow10(width)
    decreases width
  {
    if n >= 10 {
      if width > 1 {
        DigitsLength(n / 10, width - 1);
      } else {
        assert Pow10(1) == 10;
      }
    } else {
      Pow10AtLeast(width);
    }
  }

  function Pow10(n: nat): nat {
    if n == 0 then 1 else 10 * Pow10(n - 1)
  }

  lemma Pow10AtLeast(n: nat)
    requires n > 0
    ensures Pow10(n) >= 10
  {
    if n > 1 {
      Pow10AtLeast(n - 1);
    }
  }

  /** A number that fits the width is written with exactly that many digits, and reads back. */
  lemma PaddedNumber(n: nat, width: nat)
    requires width > 0 && n < Pow10(width)
    ensures |Padded(n, width)| == width && AllDigits(Padded(n, width)) && Number(Padded(n, width)) == n
  {
    DigitsLength(n, width);
    ZerosNumber(width - |Digits(n)|, Digits(n));
    DigitsNumber(n);
  }

  lemma TwoDigits(n: nat)
    requires n < 100
    ensures |Padded(n, 2)| == 2 && AllDigits(Padded(n, 2)) && Number(Padded(n, 2)) == n
  {
    assert Pow10(2) == 100;
    PaddedNumber(n, 2);
  }

  lemma FourDigits(year: int)
    ensures 0 <= year <= 9999 ==>
              |Padded(year, 4)| == 4 && AllDigits(Padded(year, 4)) && Number(Padded(year, 4)) == year
    ensures year > 9999 ==> |Padded(year, 4)| > 4
    ensures year < 0 ==> Padded(year, 4)[0] == '-'
  {
    assert Pow10(4) == 10000 by { assert Pow10(2) == 100; }
    if 0 <= year <= 9999 {
      PaddedNumber(year, 4);
    } else if year > 9999 {
      DigitsLength(year, 4);
    }
  }

  function Layout(y: string, mo: string, d: string, h: string, mi: string, sec: string): string {
    y + "-" + mo + "-" + d + "T" + h + ":" + mi + ":" + sec + "Z"
  }

  lemma LayoutParts(y: string, mo: string, d: string, h: string, mi: string, sec: string)
    requires |y| == 4 && |mo| == 2 && |d| == 2 && |h| == 2 && |mi| == 2 && |sec| == 2
    ensures var s := Layout(y, mo, d, h, mi, sec);
            && |s| == 20 && s[4] == '-' && s[7] == '-' && s[10] == 'T' && s[13] == ':' && s[16] == ':' && s[19] == 'Z'
            && s[0..4] == y && s[5..7] == mo && s[8..10] == d && s[11..13] == h && s[14..16] == mi && s[17..19] == sec
  {
    var a := y + "-" + mo + "-" + d;
    assert |a| == 10 && a[0..4] == y && a[4] == '-' && a[5..7] == mo && a[7] == '-' && a[8..10] == d;
    var b := "T" + h + ":" + mi + ":" + sec + "Z";
    assert |b| == 10 && b[0] == 'T' && b[1..3] == h && b[3] == ':' && b[4..6] == mi && b[6] == ':' && b[7..9] == sec &&
           b[9] == 'Z';
    var s := Layout(y, mo, d, h, mi, sec);
    assert s == a + b;
    hide Layout;
    assert s[..10] == a && s[10..] == b;
    SliceOf(s, 10);
  }

  lemma SliceOf(s: string, k: nat)
    requires k <= |s|
    ensures forall i, j :: 0 <= i <= j <= k ==> s[i..j] == s[..k][i..j]
    ensures forall i, j :: k <= i <= j <= |s| ==> s[i..j] == s[k..][i - k..j - k]
    ensures forall i :: 0 <= i < k ==> s[i] == s[..k][i]
    ensures forall i :: k <= i < |s| ==> s[i] == s[k..][i - k]
  {
  }

  lemma TextIsLayout(t: DateTime)
    ensures Text(t) == Layout(Padded(t.year, 4), Padded(t.month, 2), Padded(t.day, 2), Padded(t.hour, 2),
                              Padded(t.minute, 2), Padded(t.second, 2))
  {
    hide Padded;
  }

  lemma FieldDigits(t: DateTime)
    requires Valid(t)
    ensures 0 <= t.month < 100 && 0 <= t.day < 100 && 0 <= t.hour < 100 && 0 <= t.minute < 100 && 0 <= t.second < 100
  {
  }

  /** The text of a valid date-time of the years 0 to 9999 is an RFC 3339 date-time, and parses back to it. */
  lemma TextParses(t: DateTime)
    requires Valid(t) && 0 <= t.year <= 9999
    ensures IsRfc3339(Text(t)) && Parsed(Text(t)) == t
  {
    hide Padded, Number, AllDigits, Text, Layout, Valid;
    FieldDigits(t);
    FourDigits(t.year);
    TwoDigits(t.month);
    TwoDigits(t.day);
    TwoDigits(t.hour);
    TwoDigits(t.minute);
    TwoDigits(t.second);
    TextIsLayout(t);
    LayoutParts(Padded(t.year, 4), Padded(t.month, 2), Padded(t.day, 2), Padded(t.hour, 2), Padded(t.minute, 2),
                Padded(t.second, 2));
  }

  lemma LongLayout(y: string, mo: string, d: string, h: string, mi: string, sec: string)
    requires |mo| == 2 && |d| == 2 && |h| == 2 && |mi| == 2 && |sec| == 2
    ensures |Layout(y, mo, d, h, mi, sec)| == |y| + 16
    ensures y != "" ==> Layout(y, mo, d, h, mi, sec)[0] == y[0]
  {
  }

  /** Outside those years the text is no RFC 3339 date-time: it is too long, or starts with a sign. */
  lemma OtherYears(t: DateTime)
    requires Valid(t) && !(0 <= t.year <= 9999)
    ensures !IsRfc3339(Text(t))
  {
    hide Padded, Number, Text, Layout, Valid;
    FieldDigits(t);
    FourDigits(t.year);
    TwoDigits(t.month);
    TwoDigits(t.day);
    TwoDigits(t.hour);
    TwoDigits(t.minute);
    TwoDigits(t.second);
    TextIsLayout(t);
    LongLayout(Padded(t.year, 4), Padded(t.month, 2), Padded(t.day, 2), Padded(t.hour, 2), Padded(t.minute, 2),
               Padded(t.second, 2));
    var s := Text(t);
    if t.year < 0 && |s| == 20 {
      assert s[0..4][0] == '-';
      assert !AllDigits(s[0..4]);
    }
  }

  lemma YearSpan(t: DateTime)
    requires Valid(t)
    ensures 86_400 * DaysToYear(t.year) <= Seconds(t) < 86_400 * (DaysToYear(t.year) + YearLength(t.year))
  {
    MonthEnds(t.year, t.month);
    TimeFields(t.hour, t.minute, t.second);
    hide DaysToYear, DaysToMonth, YearLength, MonthLength;
  }

  lemma YearsOrder(year: int, bound: int)
    ensures year < bound ==> DaysToYear(year) + YearLength(year) <= DaysToYear(bound)
    ensures year >= bound ==> DaysToYear(year) >= DaysToYear(bound)
  {
    if year < bound {
      YearStarts(year, bound);
    } else if bound < year {
      YearStarts(bound, year);
    }
  }

  lemma YearBounds()
    ensures DaysToYear(0) == -719_528 && DaysToYear(10_000) == 2_932_897
  {
    hide DaysToYear;
    DaysToYearClosed(0);
    DaysToYearClosed(10_000);
  }

  /** The seconds of the years 0 to 9999. */
  lemma YearRange(unix: int)
    ensures 0 <= Civil(unix).year <= 9999 <==> -62_167_219_200 <= unix < 253_402_300_800
  {
    hide *;
    CivilCounts(unix);
    YearSpan(Civil(unix));
    YearBounds();
    YearsOrder(Civil(unix).year, 0);
    YearsOrder(Civil(unix).year, 10_000);
  }

  /** The text of a second is a valid RFC 3339 date-time exactly for the years 0 to 9999, and then stands for it. */
  lemma TextIsRfc3339(unix: int)
    ensures IsRfc3339(UnixRfc3339(unix)) <==> -62_167_219_200 <= unix < 253_402_300_800
    ensures IsRfc3339(UnixRfc3339(unix)) ==> Seconds(Parsed(UnixRfc3339(unix))) == unix
  {
    hide Text, Civil, Valid, IsRfc3339, Parsed, Seconds;
    CivilCounts(unix);
    YearRange(unix);
    if 0 <= Civil(unix).year <= 9999 {
      TextParses(Civil(unix));
    } else {
      OtherYears(Civil(unix));
    }
  }

  /** A year before 0 is written with its sign and at least three digits. */
  lemma NegativeYear(year: nat)
    requires year > 0
    ensures var s := Padded(0 - year, 4);
            && |s| >= 4 && s[0] == '-' && AllDigits(s[1..]) && Number(s[1..]) == year && (|s| == 4 <==> year < 1000)
  {
    DigitsNumber(year);
    ZerosNumber(3 - |Digits(year)|, Digits(year));
    DigitsLength(year, 3);
    assert Pow10(3) == 1000 by { assert Pow10(2) == 100; }
    SignFirst(year);
    hide Padded, Digits, Zeros, Number, AllDigits;
  }

  lemma SignFirst(year: nat)
    requires year > 0
    ensures var digits := Zeros(3 - |Digits(year)|) + Digits(year);
            && Padded(0 - year, 4) == "-" + digits && Padded(0 - year, 4)[1..] == digits
            && |digits| == if |Digits(year)| < 3 then 3 else |Digits(year)|
  {
    hide Digits, Zeros;
    assert "-" + Zeros(3 - |Digits(year)|) + Digits(year) == "-" + (Zeros(3 - |Digits(year)|) + Digits(year));
  }

  /** A year after 9999 is written with the digits it has. */
  lemma LongYear(year: nat)
    requires year > 9999
    ensures var s := Padded(year, 4); |s| > 4 && AllDigits(s) && Number(s) == year && s[0] != '0'
  {
    DigitsNumber(year);
    FourDigits(year);
    FirstDigit(year);
    assert Padded(year, 4) == Digits(year);
    hide Padded, Digits, Number;
  }

  lemma {:induction false} FirstDigit(n: nat)
    requires n > 0
    ensures Digits(n)[0] != '0'
  {
    if n >= 10 {
      FirstDigit(n / 10);
    }
  }

  /** The first second past that range. */
  lemma YearTenThousand()
    ensures UnixRfc3339(253_402_300_800) == "10000-01-01T00:00:00Z" && !IsRfc3339("10000-01-01T00:00:00Z")
  {
    hide *;
    TextIsRfc3339(253_402_300_800);
    var t := DateTime(10_000, 1, 1, 0, 0, 0);
    FirstOfTenThousand(t);
    CivilInverse(t);
    TextIs(253_402_300_800);
    TextOf(t);
    TenThousandDigits();
  }

  lemma FirstOfTenThousand(t: DateTime)
    requires t == DateTime(10_000, 1, 1, 0, 0, 0)
    ensures Valid(t) && Seconds(t) == 253_402_300_800
  {
    hide DaysToYear;
    YearBounds();
  }

  lemma TextOf(t: DateTime)
    ensures Text(t) == Padded(t.year, 4) + "-" + Padded(t.month, 2) + "-" + Padded(t.day, 2) + "T"
                       + Padded(t.hour, 2) + ":" + Padded(t.minute, 2) + ":" + Padded(t.second, 2) + "Z"
  {
  }

  lemma TextIs(unix: int)
    ensures UnixRfc3339(unix) == Text(Civil(unix))
  {
  }

  lemma TenThousandDigits()
    ensures Padded(10_000, 4) == "10000" && Padded(1, 2) == "01" && Padded(0, 2) == "00"
  {
    assert Digits(1) == "1" && Digits(0) == "0" && Zeros(1) == "0" && Zeros(-1) == "";
    assert Digits(10) == "10";
    assert Digits(100) == "100";
    assert Digits(1_000) == "1000";
    assert Digits(10_000) == "10000";
  }
}

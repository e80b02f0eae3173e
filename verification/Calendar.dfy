/** Day numbers of calendar dates. */
module Calendar {

  /** Integer division of the source: towards zero. */
  function Quotient(a: int, b: int): int
    requires b > 0
  {
    if a >= 0 then a / b else -((-a) / b)
  }

  /** The closed formula: years start in March, eras of 400 years have 146097 days, and day 0 is the
      first of January 1970. */
  function DaysFromCivil(y: int, m: int, d: int): int {
    var yAdj := y - if m <= 2 then 1 else 0;
    var era := Quotient(if yAdj >= 0 then yAdj else yAdj - 399, 400);
    var yoe := yAdj - era * 400;
    var doy := (153 * (if m > 2 then m - 3 else m + 9) + 2) / 5 + d - 1;
    var doe := yoe * 365 + yoe / 4 - yoe / 100 + doy;
    era * 146097 + doe - 719468
  }

  // ---------------------------------------------------------------------------------------------
  // The proleptic Gregorian calendar by counting
  // ---------------------------------------------------------------------------------------------

  predicate Leap(y: int) {
    y % 4 == 0 && (y % 100 != 0 || y % 400 == 0)
  }

  function MonthLength(y: int, m: int): (n: nat) {
    if m == 2 then (if Leap(y) then 29 else 28)
    else if m == 4 || m == 6 || m == 9 || m == 11 then 30
    else 31
  }

  function YearLength(y: int): nat {
    if Leap(y) then 366 else 365
  }

  /** Days of the year before month `m`. */
  function BeforeMonth(y: int, m: nat): nat
    requires 1 <= m <= 13
  {
    if m == 1 then 0 else BeforeMonth(y, m - 1) + MonthLength(y, m - 1)
  }

  /** Days from the start of 1970 to the start of year `y`, counted year by year in either direction. */
  function YearStart(y: int): int
    decreases if y >= 1970 then y - 1970 else 1970 - y
  {
    if y == 1970 then 0
    else if y > 1970 then YearStart(y - 1) + YearLength(y - 1)
    else YearStart(y + 1) - YearLength(y)
  }

  datatype Date = Date(year: int, month: int, day: int)

  predicate Exists(t: Date) {
    1 <= t.month <= 12 && 1 <= t.day <= MonthLength(t.year, t.month)
  }

  function Count(t: Date): int
    requires Exists(t)
  {
    YearStart(t.year) + BeforeMonth(t.year, t.month) + t.day - 1
  }

  function NextDay(t: Date): (r: Date)
    requires Exists(t)
    ensures Exists(r)
  {
    if t.day < MonthLength(t.year, t.month) then t.(day := t.day + 1)
    else if t.month < 12 then Date(t.year, t.month + 1, 1)
    else Date(t.year + 1, 1, 1)
  }

  // ---------------------------------------------------------------------------------------------
  // Agreement
  // ---------------------------------------------------------------------------------------------

  /** Days of the March-based years before year `y`. */
  function MarchDays(y: int): int {
    365 * y + y / 4 - y / 100 + y / 400
  }

  lemma EraIs(y: int)
    ensures Quotient(if y >= 0 then y else y - 399, 400) == y / 400
  {
  }

  lemma QuotientsInEra(era: int, yoe: int)
    requires 0 <= yoe < 400
    ensures (era * 400 + yoe) / 4 == era * 100 + yoe / 4
    ensures (era * 400 + yoe) / 100 == era * 4 + yoe / 100
    ensures (era * 400 + yoe) / 400 == era
  {
  }

  /** The formula, with its year part written without eras. */
  lemma FormulaParts(y: int, m: int, d: int)
    ensures var yAdj := y - if m <= 2 then 1 else 0;
            DaysFromCivil(y, m, d) == MarchDays(yAdj) + (153 * (if m > 2 then m - 3 else m + 9) + 2) / 5 + d - 1 - 719468
  {
    var yAdj := y - if m <= 2 then 1 else 0;
    EraIs(yAdj);
    QuotientsInEra(yAdj / 400, yAdj % 400);
  }

  lemma MarchYear(y: int)
    ensures MarchDays(y) - MarchDays(y - 1) == YearLength(y)
  {
    assert y / 4 - (y - 1) / 4 == if y % 4 == 0 then 1 else 0;
    assert y / 100 - (y - 1) / 100 == if y % 100 == 0 then 1 else 0;
    assert y / 400 - (y - 1) / 400 == if y % 400 == 0 then 1 else 0;
    assert y % 100 == 0 ==> y % 4 == 0 by { HundredsByFour(y); }
    assert y % 400 == 0 ==> y % 100 == 0 by { ErasByHundred(y); }
  }

  lemma HundredsByFour(y: int)
    ensures y % 100 == 0 ==> y % 4 == 0
  {
  }

  lemma ErasByHundred(y: int)
    ensures y % 400 == 0 ==> y % 100 == 0
  {
  }

  lemma {:induction false} YearStarts(y: int)
    ensures YearStart(y) == MarchDays(y - 1) + 306 - 719468
    decreases if y >= 1970 then y - 1970 else 1970 - y
  {
    hide MarchDays, YearLength;
    if y == 1970 {
      MarchOf1969();
    } else if y > 1970 {
      YearStarts(y - 1);
      MarchYear(y - 1);
    } else {
      YearStarts(y + 1);
      MarchYear(y);
    }
  }

  lemma MarchOf1969()
    ensures MarchDays(1969) == 719162
  {
  }

  lemma MonthStarts(y: int, m: nat)
    requires 1 <= m <= 12
    ensures m <= 2 ==> BeforeMonth(y, m) == (153 * (m + 9) + 2) / 5 - 306
    ensures m > 2 ==> BeforeMonth(y, m) == (153 * (m - 3) + 2) / 5 + 59 + if Leap(y) then 1 else 0
  {
    hide Leap;
    assert BeforeMonth(y, 1) == 0;
    assert BeforeMonth(y, 2) == 31;
    assert BeforeMonth(y, 3) == 59 + if Leap(y) then 1 else 0;
    assert BeforeMonth(y, 4) == BeforeMonth(y, 3) + 31;
    assert BeforeMonth(y, 5) == BeforeMonth(y, 3) + 61;
    assert BeforeMonth(y, 6) == BeforeMonth(y, 3) + 92;
    assert BeforeMonth(y, 7) == BeforeMonth(y, 3) + 122;
    assert BeforeMonth(y, 8) == BeforeMonth(y, 3) + 153;
    assert BeforeMonth(y, 9) == BeforeMonth(y, 3) + 184;
    assert BeforeMonth(y, 10) == BeforeMonth(y, 3) + 214;
    assert BeforeMonth(y, 11) == BeforeMonth(y, 3) + 245;
    assert BeforeMonth(y, 12) == BeforeMonth(y, 3) + 275;
  }

  /** For every date of every year the formula counts the days since 1 January 1970. */
  lemma FormulaCounts(t: Date)
    requires Exists(t)
    ensures DaysFromCivil(t.year, t.month, t.day) == Count(t)
  {
    hide DaysFromCivil, MarchDays, YearStart, BeforeMonth, Leap;
    FormulaParts(t.year, t.month, t.day);
    YearStarts(t.year);
    MonthStarts(t.year, t.month);
    MarchYear(t.year);
  }

  /** Consecutive dates have consecutive numbers, across months, leap years, centuries and eras. */
  lemma ConsecutiveDays(t: Date)
    requires Exists(t)
    ensures var n := NextDay(t);
            DaysFromCivil(n.year, n.month, n.day) == DaysFromCivil(t.year, t.month, t.day) + 1
  {
    hide DaysFromCivil, Leap, YearStart;
    FormulaCounts(t);
    FormulaCounts(NextDay(t));
    if t.day == MonthLength(t.year, t.month) && t.month == 12 {
      WholeYear(t.year);
      YearFollows(t.year);
    }
  }

  lemma YearFollows(y: int)
    ensures YearStart(y + 1) == YearStart(y) + YearLength(y)
  {
  }

  lemma WholeYear(y: int)
    ensures BeforeMonth(y, 12) + 31 == YearLength(y)
  {
    MonthStarts(y, 12);
  }

  predicate Earlier(a: Date, b: Date) {
    a.year < b.year || (a.year == b.year && (a.month < b.month || (a.month == b.month && a.day < b.day)))
  }

  lemma {:induction false} MonthsGrow(y: int, m: nat, n: nat)
    requires 1 <= m < n <= 13
    ensures BeforeMonth(y, m) + MonthLength(y, m) <= BeforeMonth(y, n)
    decreases n
  {
    hide Leap;
    if m + 1 < n {
      MonthsGrow(y, m, n - 1);
    }
  }

  lemma {:induction false} YearsGrow(y: int, z: int)
    requires y < z
    ensures YearStart(y) + YearLength(y) <= YearStart(z)
    decreases z - y
  {
    hide YearStart, Leap;
    YearFollows(y);
    if y + 1 < z {
      YearsGrow(y + 1, z);
    }
  }

  /** Earlier dates have smaller numbers, so different dates have different numbers. */
  lemma NumbersOrdered(a: Date, b: Date)
    requires Exists(a) && Exists(b)
    ensures Earlier(a, b) <==> DaysFromCivil(a.year, a.month, a.day) < DaysFromCivil(b.year, b.month, b.day)
  {
    hide DaysFromCivil, YearStart, BeforeMonth, Leap, YearLength;
    FormulaCounts(a);
    FormulaCounts(b);
    if Earlier(a, b) {
      OrderedOneWay(a, b);
    } else if a != b {
      OrderedOneWay(b, a);
    }
  }

  lemma OrderedOneWay(a: Date, b: Date)
    requires Exists(a) && Exists(b) && Earlier(a, b)
    ensures Count(a) < Count(b)
  {
    hide YearStart, BeforeMonth, Leap, YearLength;
    MonthsToEnd(a);
    if a.year < b.year {
      YearsGrow(a.year, b.year);
    } else if a.month < b.month {
      MonthsGrow(a.year, a.month, b.month);
    }
  }

  lemma MonthsToEnd(a: Date)
    requires Exists(a)
    ensures BeforeMonth(a.year, a.month) + MonthLength(a.year, a.month) <= YearLength(a.year)
  {
    hide Leap;
    MonthsGrow(a.year, a.month, 13);
    WholeYear(a.year);
  }

  /** The reader of dates accepts days 1 to 31 for every month; a day past the end of its month counts
      on into the next one. */
  lemma DayPastMonthEnd(y: int, m: int, d: int)
    requires 1 <= m <= 12 && MonthLength(y, m) < d <= 31
    ensures var over := d - MonthLength(y, m);
            m < 12 && DaysFromCivil(y, m, d) == DaysFromCivil(y, m + 1, over)
  {
    hide DaysFromCivil, MarchDays, Leap;
    FormulaCounts(Date(y, m, 1));
    FormulaCounts(Date(y, m + 1, 1));
    FormulaParts(y, m, d);
    FormulaParts(y, m, 1);
    FormulaParts(y, m + 1, d - MonthLength(y, m));
    FormulaParts(y, m + 1, 1);
  }

  const PICK_DAY_AT_EPOCH: int := 732

  /** The internal day number of a date: day 0 is 31 December 1967. */
  lemma PickEpoch()
    ensures DaysFromCivil(1967, 12, 31) + PICK_DAY_AT_EPOCH == 0
  {
  }
}

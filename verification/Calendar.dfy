// The Gregorian months as ECMA-262 numbers them (section 21.4.1): the formula for the first
// day of a year and the table of month lengths make a grid of months.
module Calendar {
  import opened MonthGrid

  predicate IsLeap(y: int) {
    y % 4 == 0 && (y % 100 != 0 || y % 400 == 0)
  }

  /** The number of the first day of a year, counted from 1 January 1970. */
  function DayFromYear(y: int): int {
    365 * (y - 1970) + (y - 1969) / 4 - (y - 1901) / 100 + (y - 1601) / 400
  }

  function DaysBefore(m: int, leap: bool): int {
    (if m == 0 then 0 else if m == 1 then 31 else if m == 2 then 59 else if m == 3 then 90
     else if m == 4 then 120 else if m == 5 then 151 else if m == 6 then 181 else if m == 7 then 212
     else if m == 8 then 243 else if m == 9 then 273 else if m == 10 then 304 else 334)
    + if m >= 2 && leap then 1 else 0
  }

  // Months are numbered through: 12 * year + month.

  function MonthLength(n: int): int {
    var m := n % 12;
    if m == 1 then (if IsLeap(n / 12) then 29 else 28)
    else if m == 3 || m == 5 || m == 8 || m == 10 then 30
    else 31
  }

  function MonthStart(n: int): int {
    DayFromYear(n / 12) + DaysBefore(n % 12, IsLeap(n / 12))
  }

  lemma FourStep(y: int)
    ensures (y - 1968) / 4 == (y - 1969) / 4 + if y % 4 == 0 then 1 else 0
  {}

  lemma CenturyStep(y: int)
    ensures (y - 1900) / 100 == (y - 1901) / 100 + if y % 100 == 0 then 1 else 0
  {}

  lemma FourCenturiesStep(y: int)
    ensures (y - 1600) / 400 == (y - 1601) / 400 + if y % 400 == 0 then 1 else 0
  {}

  lemma LeapRule(y: int)
    ensures (if IsLeap(y) then 1 else 0)
         == (if y % 4 == 0 then 1 else 0) - (if y % 100 == 0 then 1 else 0) + (if y % 400 == 0 then 1 else 0)
  {
    if y % 100 == 0 { HundredsAreFours(y / 100); }
    if y % 400 == 0 { FourHundredsAreHundreds(y / 400); }
  }

  lemma HundredsAreFours(n: int)
    ensures (100 * n) % 4 == 0
  {
    assert 100 * n == 4 * (25 * n);
  }

  lemma FourHundredsAreHundreds(n: int)
    ensures (400 * n) % 100 == 0
  {
    assert 400 * n == 100 * (4 * n);
  }

  lemma YearStep(y: int)
    ensures DayFromYear(y + 1) == DayFromYear(y) + if IsLeap(y) then 366 else 365
  {
    FourStep(y);
    CenturyStep(y);
    FourCenturiesStep(y);
    LeapRule(y);
    assert DayFromYear(y + 1) == 365 * (y - 1970) + 365 + (y - 1968) / 4 - (y - 1900) / 100 + (y - 1600) / 400;
  }

  /** The formula for month starts and the table of month lengths agree, across years too. */
  lemma MonthStep(n: int)
    ensures MonthStart(n + 1) == MonthStart(n) + MonthLength(n)
  {
    var y, m := n / 12, n % 12;
    if m == 11 {
      YearStep(y);
      assert (n + 1) / 12 == y + 1 && (n + 1) % 12 == 0;
    } else {
      assert (n + 1) / 12 == y && (n + 1) % 12 == m + 1;
    }
  }

  function Gregorian(): Grid {
    Grid((n: int) => MonthStart(n), (n: int) => MonthLength(n))
  }

  lemma GregorianIsValid()
    ensures Gregorian().Valid()
  {
    forall n: int ensures Gregorian().Cell(n) { MonthStep(n); }
  }

  /** The first days of January to April 2023. */
  ghost predicate Starts2023(g: Grid) {
    && g.start(12 * 2023) == 19358 && g.start(12 * 2023 + 1) == 19389
    && g.start(12 * 2023 + 2) == 19417 && g.start(12 * 2023 + 3) == 19448
  }

  lemma MonthStartIn2023(m: int)
    requires 0 <= m < 12
    ensures MonthStart(12 * 2023 + m) == 19358 + DaysBefore(m, false)
  {}

  lemma GregorianStarts2023()
    ensures Starts2023(Gregorian())
  {
    MonthStartIn2023(0);
    MonthStartIn2023(1);
    MonthStartIn2023(2);
    MonthStartIn2023(3);
  }

  /** 31 January 2023: one month leads to 3 March, two single months to 3 April, two at once to
      31 March. */
  lemma OverflowExample(g: Grid)
    requires g.Valid() && Starts2023(g)
    ensures DayPlusMonths(g, 19388, 1) == 19419
    ensures DayPlusMonths(g, DayPlusMonths(g, 19388, 1), 1) == 19450
    ensures DayPlusMonths(g, 19388, 2) == 19447
  {
    MonthOfUnique(g, 19388, 12 * 2023);
    MonthOfUnique(g, 19419, 12 * 2023 + 2);
  }
}

// Adding months to a date the way Date.prototype.setMonth does in UTC: MakeDay keeps the day
// of the month and lets it run over (section 21.4.1 of ECMA-262). Dates lie on consecutive
// months of 28 to 31 days, numbered through as 12 * year + month; nothing here depends on
// more of the Gregorian tables than that.
module MonthGrid {
  /** The first day of each month, and its length. */
  datatype Grid = Grid(start: int -> int, length: int -> int) {
    predicate Cell(n: int) {
      start(n + 1) == start(n) + length(n) && 28 <= length(n) <= 31
    }

    ghost predicate Valid() {
      forall n: int :: Cell(n)
    }
  }

  lemma {:induction false} Monotone(g: Grid, a: int, b: int)
    requires g.Valid() && a <= b
    ensures g.start(a) + 28 * (b - a) <= g.start(b) <= g.start(a) + 31 * (b - a)
    decreases b - a
  {
    if a < b {
      assert g.Cell(b - 1);
      Monotone(g, a, b - 1);
    }
  }

  function MonthUp(g: Grid, day: int, n: int): (r: int)
    requires g.Valid() && g.start(n) <= day
    ensures g.start(r) <= day < g.start(r + 1)
    decreases day - g.start(n)
  {
    assert g.Cell(n);
    if day < g.start(n + 1) then n else MonthUp(g, day, n + 1)
  }

  function MonthDown(g: Grid, day: int, n: int): (r: int)
    requires g.Valid() && day < g.start(n + 1)
    ensures g.start(r) <= day < g.start(r + 1)
    decreases g.start(n + 1) - day
  {
    assert g.Cell(n);
    if g.start(n) <= day then n else MonthDown(g, day, n - 1)
  }

  /** The month a day lies in. */
  function MonthOf(g: Grid, day: int): (r: int)
    requires g.Valid()
    ensures g.start(r) <= day < g.start(r + 1)
  {
    if g.start(0) <= day then MonthUp(g, day, 0) else MonthDown(g, day, -1)
  }

  /** A day lies in one month only. */
  lemma MonthOfUnique(g: Grid, day: int, n: int)
    requires g.Valid() && g.start(n) <= day < g.start(n + 1)
    ensures MonthOf(g, day) == n
  {
    var r := MonthOf(g, day);
    if r < n { Monotone(g, r + 1, n); }
    if n < r { Monotone(g, n + 1, r); }
  }

  /** 1 for the first of the month. */
  function DayOfMonth(g: Grid, day: int): (d: int)
    requires g.Valid()
    ensures 1 <= d <= 31
  {
    assert g.Cell(MonthOf(g, day));
    day - g.start(MonthOf(g, day)) + 1
  }

  /** The same day of the month k months on, running over where the month is too short. */
  function DayPlusMonths(g: Grid, day: int, k: int): int
    requires g.Valid()
  {
    g.start(MonthOf(g, day) + k) + DayOfMonth(g, day) - 1
  }

  /** The total length of k months from the n-th on. */
  function Lengths(g: Grid, n: int, k: nat): int {
    if k == 0 then 0 else Lengths(g, n, k - 1) + g.length(n + k - 1)
  }

  lemma {:induction false} LengthsAreStarts(g: Grid, n: int, k: nat)
    requires g.Valid()
    ensures g.start(n + k) == g.start(n) + Lengths(g, n, k)
    ensures 28 * k <= Lengths(g, n, k) <= 31 * k
  {
    if k > 0 {
      LengthsAreStarts(g, n, k - 1);
      assert g.Cell(n + k - 1);
    }
  }

  lemma PlusMonthsExactly(g: Grid, day: int, k: nat)
    requires g.Valid()
    ensures DayPlusMonths(g, day, k) == day + Lengths(g, MonthOf(g, day), k)
    ensures day + 28 * k <= DayPlusMonths(g, day, k) <= day + 31 * k
  {
    LengthsAreStarts(g, MonthOf(g, day), k);
  }

  /** Where a day lands: in the intended month, or in the next when its number is too high. */
  lemma Landing(g: Grid, day: int, k: int)
    requires g.Valid()
    ensures var n, d, day' := MonthOf(g, day) + k, DayOfMonth(g, day), DayPlusMonths(g, day, k);
      if d <= g.length(n) then MonthOf(g, day') == n && DayOfMonth(g, day') == d
      else MonthOf(g, day') == n + 1 && DayOfMonth(g, day') == d - g.length(n)
  {
    var n, d, day' := MonthOf(g, day) + k, DayOfMonth(g, day), DayPlusMonths(g, day, k);
    assert g.Cell(n) && g.Cell(n + 1);
    if d <= g.length(n) { MonthOfUnique(g, day', n); } else { MonthOfUnique(g, day', n + 1); }
  }

  /** Two additions make one exactly when the day exists in the month in between, or that month
      and the last one are equally long. */
  lemma ComposeExactly(g: Grid, day: int, j: int, k: int)
    requires g.Valid()
    ensures var between, last := MonthOf(g, day) + j, MonthOf(g, day) + j + k;
      DayPlusMonths(g, DayPlusMonths(g, day, j), k) == DayPlusMonths(g, day, j + k)
      <==> DayOfMonth(g, day) <= g.length(between) || g.length(last) == g.length(between)
  {
    var last := MonthOf(g, day) + j + k;
    Landing(g, day, j);
    assert g.Cell(last);
    assert MonthOf(g, day) + (j + k) == last;
    if DayOfMonth(g, day) > g.length(MonthOf(g, day) + j) {
      assert MonthOf(g, DayPlusMonths(g, day, j)) + k == last + 1;
    }
  }

  // ----------------------------------------------------------- with a time of day

  const MS_PER_DAY := 86400000

  /** date.setMonth(date.getMonth() + k) on a time value in milliseconds. */
  function TimePlusMonths(g: Grid, t: int, k: int): int
    requires g.Valid()
  {
    DayPlusMonths(g, t / MS_PER_DAY, k) * MS_PER_DAY + t % MS_PER_DAY
  }

  /** Extending by k months adds the lengths of the k months that start with the current one:
      between 28 and 31 days each, so an expiry never moves earlier. */
  lemma TimePlusMonthsExactly(g: Grid, t: int, k: nat)
    requires g.Valid()
    ensures TimePlusMonths(g, t, k) == t + MS_PER_DAY * Lengths(g, MonthOf(g, t / MS_PER_DAY), k)
    ensures t + MS_PER_DAY * (28 * k) <= TimePlusMonths(g, t, k) <= t + MS_PER_DAY * (31 * k)
  {
    PlusMonthsExactly(g, t / MS_PER_DAY, k);
  }

  lemma SplitTime(day: int, ms: int)
    requires 0 <= ms < MS_PER_DAY
    ensures (day * MS_PER_DAY + ms) / MS_PER_DAY == day && (day * MS_PER_DAY + ms) % MS_PER_DAY == ms
  {}

  /** Extending twice is extending once by the sum exactly when the day exists in the month in
      between, or that month and the last one are equally long. */
  lemma TimeComposeExactly(g: Grid, t: int, j: int, k: int)
    requires g.Valid()
    ensures var day := t / MS_PER_DAY;
      var between, last := MonthOf(g, day) + j, MonthOf(g, day) + j + k;
      TimePlusMonths(g, TimePlusMonths(g, t, j), k) == TimePlusMonths(g, t, j + k)
      <==> DayOfMonth(g, day) <= g.length(between) || g.length(last) == g.length(between)
  {
    ComposeExactly(g, t / MS_PER_DAY, j, k);
    SplitTime(DayPlusMonths(g, t / MS_PER_DAY, j), t % MS_PER_DAY);
  }

  /** In particular always for the first 28 days of a month. */
  lemma TimeComposeUpTo28(g: Grid, t: int, j: int, k: int)
    requires g.Valid() && DayOfMonth(g, t / MS_PER_DAY) <= 28
    ensures TimePlusMonths(g, TimePlusMonths(g, t, j), k) == TimePlusMonths(g, t, j + k)
  {
    TimeComposeExactly(g, t, j, k);
    assert g.Cell(MonthOf(g, t / MS_PER_DAY) + j);
  }
}

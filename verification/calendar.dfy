/**
  Billing cycles: the keys and windows of calendar months in Ulaanbaatar time (UTC+8), over the day
  arithmetic that section 21.4.1 of ECMA-262 prescribes for dates. Times are milliseconds since 1970.
*/
module Calendar {
  import D = Decimal
  import opened Options

  const HOUR: int := 3_600_000
  const DAY: int := 86_400_000

  // ------------------------------------------------------- days, years, months

  predicate Leap(y: int) {
    y % 4 == 0 && (y % 100 != 0 || y % 400 == 0)
  }

  /** The day number of the first day of year `y`. */
  function DayFromYear(y: int): int {
    365 * (y - 1970) + (y - 1969) / 4 - (y - 1901) / 100 + (y - 1601) / 400
  }

  /** The days of a year before its month `m`; 12 stands for its end. */
  function DaysBefore(m: nat, leap: bool): int
    requires m <= 12
  {
    var feb := if leap then 1 else 0;
    if m == 0 then 0
    else if m == 1 then 31
    else [59, 90, 120, 151, 181, 212, 243, 273, 304, 334, 365][m - 2] + feb
  }

  /** The day number of the first day of a month; month `n` is month `n % 12` of year `n / 12`. */
  function FirstDay(n: int): int {
    DayFromYear(n / 12) + DaysBefore(n % 12, Leap(n / 12))
  }

  lemma NextQuotient(x: int, d: int)
    requires d > 0
    ensures (x + 1) / d == x / d + if (x + 1) % d == 0 then 1 else 0
  {
    var q, r := x / d, x % d;
    assert x == d * q + r;
    if r == d - 1 {
      assert x + 1 == d * (q + 1);
      QuotientOf(x + 1, d, q + 1, 0);
    } else {
      QuotientOf(x + 1, d, q, r + 1);
    }
  }

  lemma QuotientOf(x: int, d: int, q: int, r: int)
    requires d > 0 && x == d * q + r && 0 <= r < d
    ensures x / d == q && x % d == r
  {
    var e := x / d - q;
    assert d * e == r - x % d;
    Multiples(d, e);
  }

  lemma Multiples(d: int, e: int)
    requires d > 0
    ensures e >= 1 ==> d * e >= d
    ensures e <= -1 ==> d * e <= -d
  {
  }

  lemma YearLength(y: int)
    ensures DayFromYear(y + 1) == DayFromYear(y) + if Leap(y) then 366 else 365
  {
    NextQuotient(y - 1969, 4);
    NextQuotient(y - 1901, 100);
    NextQuotient(y - 1601, 400);
  }

  lemma MonthLength(n: int)
    ensures 28 <= FirstDay(n + 1) - FirstDay(n) <= 31
  {
    NextQuotient(n, 12);
    if n % 12 == 11 { YearLength(n / 12); }
  }

  lemma {:induction false} MonthsInOrder(i: int, j: int)
    requires i <= j
    ensures FirstDay(i) + (j - i) <= FirstDay(j)
    decreases j - i
  {
    if i < j {
      MonthsInOrder(i, j - 1);
      MonthLength(j - 1);
    }
  }

  lemma {:induction false} YearsFromEpoch(k: int)
    ensures k >= 0 ==> DayFromYear(1970 + k) <= 366 * k
    ensures k <= 0 ==> DayFromYear(1970 + k) <= 365 * k
    decreases if k >= 0 then k else -k
  {
    if k > 0 {
      YearsFromEpoch(k - 1);
      YearLength(1970 + k - 1);
    } else if k < 0 {
      YearsFromEpoch(k + 1);
      YearLength(1970 + k);
    }
  }

  /** The year from `y` on that contains the day. */
  function YearFrom(day: int, y: int): (r: int)
    requires DayFromYear(y) <= day
    ensures 0 <= day - DayFromYear(r) < DaysBefore(12, Leap(r))
    decreases day - DayFromYear(y)
  {
    YearLength(y);
    if DayFromYear(y + 1) <= day then YearFrom(day, y + 1) else y
  }

  /** YearFromTime: the largest year that starts on or before the day. */
  function YearFromDay(day: int): (r: int)
    ensures 0 <= day - DayFromYear(r) < DaysBefore(12, Leap(r))
  {
    var k := if day >= 0 then day / 366 else day / 365;
    YearsFromEpoch(k);
    YearFrom(day, 1970 + k)
  }

  function MonthFrom(rest: int, leap: bool, m: nat): (r: nat)
    requires m <= 11 && DaysBefore(m, leap) <= rest < DaysBefore(12, leap)
    ensures r <= 11 && DaysBefore(r, leap) <= rest < DaysBefore(r + 1, leap)
    decreases 11 - m
  {
    if rest < DaysBefore(m + 1, leap) then m else MonthFrom(rest, leap, m + 1)
  }

  lemma FirstDayIn(y: int, m: nat)
    requires m <= 12
    ensures FirstDay(12 * y + m) == DayFromYear(y) + DaysBefore(m, Leap(y))
  {
    YearLength(y);
    if m < 12 { QuotientOf(12 * y + m, 12, y, m); } else { QuotientOf(12 * y + m, 12, y + 1, 0); }
  }

  /** MonthFromTime: the month, counted from 0, whose days contain the day. */
  function MonthFromDay(day: int): (r: nat)
    ensures r <= 11
    ensures var y := YearFromDay(day); DaysBefore(r, Leap(y)) <= day - DayFromYear(y) < DaysBefore(r + 1, Leap(y))
  {
    var y := YearFromDay(day);
    MonthFrom(day - DayFromYear(y), Leap(y), 0)
  }

  lemma MonthOfDay(day: int)
    ensures var n := 12 * YearFromDay(day) + MonthFromDay(day); FirstDay(n) <= day < FirstDay(n + 1)
  {
    var y, m := YearFromDay(day), MonthFromDay(day);
    hide FirstDay, DayFromYear, DaysBefore, Leap, YearFromDay, MonthFromDay;
    FirstDayIn(y, m);
    FirstDayIn(y, m + 1);
  }

  // ------------------------------------------------------------------- cycles

  datatype Cycle = Cycle(year: int, month: int)

  function Index(c: Cycle): int {
    12 * c.year + c.month - 1
  }

  /** `Date.UTC`: years 0 to 99 mean 1900 to 1999; the month may lie outside the year. */
  function DateUtc(year: int, month: int, date: int, hours: int): int {
    var full := if 0 <= year <= 99 then 1900 + year else year;
    (FirstDay(12 * full + month) + date - 1) * DAY + hours * HOUR
  }

  function MonthOf(t: int): (c: Cycle)
    ensures 1 <= c.month <= 12
  {
    var day := t / DAY;
    Cycle(YearFromDay(day), MonthFromDay(day) + 1)
  }

  function CycleKey(t: int): Cycle {
    MonthOf(t + 8 * HOUR)
  }

  function Start(c: Cycle): int {
    DateUtc(c.year, c.month - 1, 1, -8)
  }

  function End(c: Cycle): int {
    DateUtc(c.year, c.month, 1, -8)
  }

  function PreviousCycle(now: int): (c: Cycle)
    ensures 1 <= c.month <= 12
  {
    var ub := MonthOf(now + 8 * HOUR);
    MonthOf(DateUtc(ub.year, ub.month - 1 - 1, 15, 0))
  }

  /** The key of a calendar month, outside the years that `Date.UTC` moves to the twentieth century. */
  predicate Proper(c: Cycle) {
    1 <= c.month <= 12 && !(0 <= c.year <= 99)
  }

  lemma DayOfTime(t: int, d: int)
    ensures d * DAY <= t <==> d <= t / DAY
  {
  }

  /** The month of a time is the only one whose days contain it. */
  lemma MonthIndex(t: int, n: int)
    ensures Index(MonthOf(t)) == n <==> FirstDay(n) * DAY <= t < FirstDay(n + 1) * DAY
  {
    hide FirstDay, YearFromDay, MonthFromDay;
    var day, k := t / DAY, Index(MonthOf(t));
    MonthOfDay(day);
    assert FirstDay(k) <= day < FirstDay(k + 1);
    DayOfTime(t, FirstDay(n));
    DayOfTime(t, FirstDay(n + 1));
    if n < k { MonthsInOrder(n + 1, k); }
    if n > k { MonthsInOrder(k + 1, n); }
  }

  lemma SameIndex(c: Cycle, d: Cycle)
    requires 1 <= c.month <= 12 && 1 <= d.month <= 12
    ensures Index(c) == Index(d) <==> c == d
  {
  }

  /** A month's key is given to exactly the times in its window. */
  lemma CycleWindow(t: int, c: Cycle)
    requires Proper(c)
    ensures CycleKey(t) == c <==> Start(c) <= t < End(c)
  {
    hide FirstDay, YearFromDay, MonthFromDay;
    MonthIndex(t + 8 * HOUR, Index(c));
    SameIndex(CycleKey(t), c);
  }

  lemma StartBeforeEnd(c: Cycle)
    ensures Start(c) < End(c)
  {
    hide FirstDay;
    var full := if 0 <= c.year <= 99 then 1900 + c.year else c.year;
    MonthsInOrder(12 * full + c.month - 1, 12 * full + c.month);
  }

  /** The key and the window agree at all times exactly for the proper keys. */
  lemma CycleWindowExactly(c: Cycle)
    ensures (forall t :: CycleKey(t) == c <==> Start(c) <= t < End(c)) <==> Proper(c)
  {
    hide FirstDay, YearFromDay, MonthFromDay;
    if Proper(c) {
      forall t ensures CycleKey(t) == c <==> Start(c) <= t < End(c) { CycleWindow(t, c); }
    } else {
      StartBeforeEnd(c);
      var t := Start(c);
      if CycleKey(t) == c {
        MonthIndex(t + 8 * HOUR, Index(c.(year := 1900 + c.year)));
        assert false;
      }
      assert !(CycleKey(t) == c <==> Start(c) <= t < End(c));
    }
  }

  function Next(c: Cycle): Cycle {
    if c.month == 12 then Cycle(c.year + 1, 1) else Cycle(c.year, c.month + 1)
  }

  /** Consecutive cycles abut, across every month and year end: no gap and no overlap. */
  lemma CyclesAbut(c: Cycle)
    requires Proper(c) && Proper(Next(c))
    ensures End(c) == Start(Next(c))
  {
  }

  lemma MidMonth(year: int, month: int)
    requires !(0 <= year <= 99)
    ensures Index(MonthOf(DateUtc(year, month, 15, 0))) == 12 * year + month
  {
    MonthLength(12 * year + month);
    hide FirstDay, YearFromDay, MonthFromDay;
    MonthIndex(DateUtc(year, month, 15, 0), 12 * year + month);
  }

  lemma PreviousKey(now: int)
    requires Proper(CycleKey(now))
    ensures Next(PreviousCycle(now)) == CycleKey(now)
  {
    hide FirstDay, YearFromDay, MonthFromDay, DateUtc;
    var c := CycleKey(now);
    MidMonth(c.year, c.month - 1 - 1);
    SameIndex(Next(PreviousCycle(now)), c);
  }

  /**
    The sweep's cycle is the immediate predecessor of the current one, and it ended exactly where the
    current one began, so it has always ended.
  */
  lemma PreviousIsPredecessor(now: int)
    requires Proper(CycleKey(now))
    ensures Next(PreviousCycle(now)) == CycleKey(now)
    ensures Proper(PreviousCycle(now)) ==> End(PreviousCycle(now)) == Start(CycleKey(now)) <= now
  {
    hide Start, End, CycleKey, PreviousCycle;
    PreviousKey(now);
    CycleWindow(now, CycleKey(now));
    if Proper(PreviousCycle(now)) { CyclesAbut(PreviousCycle(now)); }
  }

  /** The month a key's window really is: `Date.UTC` moves the years 0 to 99 and carries months beyond 12. */
  function WindowMonth(c: Cycle): int {
    12 * (if 0 <= c.year <= 99 then 1900 + c.year else c.year) + c.month - 1
  }

  predicate InWindow(t: int, c: Cycle) {
    Start(c) <= t < End(c)
  }

  /** The windows of two keys overlap exactly when they are the same month, and then they are equal. */
  lemma WindowsExactly(c: Cycle, d: Cycle)
    ensures (exists t :: InWindow(t, c) && InWindow(t, d)) <==> WindowMonth(c) == WindowMonth(d)
    ensures Start(c) == Start(d) && End(c) == End(d) <==> WindowMonth(c) == WindowMonth(d)
  {
    hide FirstDay;
    var m, n := WindowMonth(c), WindowMonth(d);
    StartBeforeEnd(c);
    if m < n { MonthsInOrder(m + 1, n); }
    if n < m { MonthsInOrder(n + 1, m); }
    if m == n { assert InWindow(Start(c), c) && InWindow(Start(c), d); }
  }

  /** `monthStart`: the start of the UTC month, where the mid-month estimate counts from. */
  function MonthStart(now: int): int {
    DateUtc(MonthOf(now).year, MonthOf(now).month - 1, 1, 0)
  }

  lemma MonthStartAt(now: int)
    requires Proper(MonthOf(now))
    ensures MonthStart(now) <= now
    ensures MonthStart(now) == Start(MonthOf(now)) + 8 * HOUR < End(MonthOf(now))
  {
    var m := MonthOf(now);
    MonthLength(Index(m));
    hide FirstDay, YearFromDay, MonthFromDay;
    MonthIndex(now, Index(m));
  }

  /** The estimate's window starts eight hours into a cycle, so it is never a cycle's window. */
  lemma MonthStartInside(now: int, c: Cycle)
    requires Proper(MonthOf(now)) && Proper(c)
    ensures MonthStart(now) <= now
    ensures Start(MonthOf(now)) < MonthStart(now) < End(MonthOf(now))
    ensures Start(c) != MonthStart(now)
  {
    MonthStartAt(now);
    StartBeforeEnd(c);
    hide Start, End, MonthStart, MonthOf, CycleKey;
    CycleWindow(Start(c), c);
    CycleWindow(Start(c), MonthOf(now));
  }

  /** The windows of August 2026 and of a leap February, in milliseconds since 1970. */
  lemma KnownWindows()
    ensures Start(Cycle(1970, 1)) == -8 * HOUR
    ensures Start(Cycle(2026, 8)) == 1_785_513_600_000 && End(Cycle(2026, 8)) == 1_788_192_000_000
    ensures Start(Cycle(2028, 2)) == 1_832_947_200_000 && End(Cycle(2028, 2)) == 1_835_452_800_000
  {
    hide FirstDay;
    FirstDayIn(1970, 0);
    FirstDayIn(2026, 7);
    FirstDayIn(2026, 8);
    FirstDayIn(2028, 1);
    FirstDayIn(2028, 2);
  }

  // ------------------------------------------------------------- keys as text

  /** `${year}-${month}` with the month padded to two digits; the year is not padded. */
  function KeyText(c: Cycle): string
    requires c.month >= 0
  {
    (if c.year >= 0 then D.Text(c.year) else "-" + D.Text(-c.year)) + "-" + D.Pad(2, D.Text(c.month))
  }

  /** The pattern `closeMonth` accepts: four digits, a hyphen, two digits. */
  predicate Accepted(key: string) {
    |key| == 7 && D.AllDigits(key[..4]) && key[4] == '-' && D.AllDigits(key[5..])
  }

  function Parse(key: string): Option<Cycle> {
    if Accepted(key) then Some(Cycle(D.Value(key[..4]), D.Value(key[5..]))) else None
  }

  lemma DigitFirst(key: string)
    requires Accepted(key)
    ensures D.IsDigit(key[0])
  {
    assert key[0] == key[..4][0];
  }

  /** A month's key is accepted exactly for the years 1000 to 9999, and it is read back unchanged. */
  lemma KeyAccepted(c: Cycle)
    requires 1 <= c.month <= 12
    ensures Accepted(KeyText(c)) <==> 1000 <= c.year <= 9999
    ensures Accepted(KeyText(c)) ==> Parse(KeyText(c)) == Some(c)
  {
    var month := D.Pad(2, D.Text(c.month));
    D.ValueOfPad(2, c.month);
    D.TextLength(c.month);
    assert |month| == 2;
    if c.year < 0 {
      assert KeyText(c)[0] == '-';
      if Accepted(KeyText(c)) { DigitFirst(KeyText(c)); }
    } else {
      var year := D.Text(c.year);
      D.TextLength(c.year);
      D.ValueOfText(c.year);
      assert KeyText(c) == year + "-" + month;
      if |year| == 4 {
        assert KeyText(c)[..4] == year && KeyText(c)[5..] == month;
      }
    }
  }

  /** The sweep's key is accepted exactly for the years 1000 to 9999, and its window has then always ended. */
  lemma SweepNeverRefused(now: int)
    requires Proper(CycleKey(now))
    ensures var p := PreviousCycle(now);
      && (Accepted(KeyText(p)) <==> 1000 <= p.year <= 9999)
      && (Accepted(KeyText(p)) ==> Parse(KeyText(p)) == Some(p) && End(p) <= now)
  {
    hide FirstDay, YearFromDay, MonthFromDay, CycleKey, KeyText, Accepted, Parse;
    KeyAccepted(PreviousCycle(now));
    PreviousIsPredecessor(now);
  }
}

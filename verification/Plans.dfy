/** The default installment plan (app/services/payments/plans.py:34-63): equal whole parts,
    the first carrying the remainder, due month by month. */
module Plans {

  // ------------------------------------------------------------------ dates

  datatype RawDate = RawDate(year: nat, month: nat, day: nat)

  predicate Leap(year: nat) {
    year % 4 == 0 && (year % 100 != 0 || year % 400 == 0)
  }

  function DaysIn(year: nat, month: nat): (n: nat)
    ensures 28 <= n <= 31
  {
    if month == 2 then (if Leap(year) then 29 else 28)
    else if month == 4 || month == 6 || month == 9 || month == 11 then 30
    else 31
  }

  predicate OnCalendar(d: RawDate) {
    1 <= d.month <= 12 && 1 <= d.day <= DaysIn(d.year, d.month)
  }

  type Date = d: RawDate | OnCalendar(d) witness RawDate(2000, 1, 1)

  function Month(d: Date): nat {
    d.year * 12 + (d.month - 1)
  }

  predicate Before(a: Date, b: Date) {
    Month(a) < Month(b) || (Month(a) == Month(b) && a.day < b.day)
  }

  /** Any two dates are in order, and only a date itself is neither before nor after it. */
  lemma BeforeIsTotal(a: Date, b: Date)
    ensures Before(a, b) || Before(b, a) || a == b
    ensures !(Before(a, b) && Before(b, a)) && !Before(a, a)
  {
  }

  lemma BeforeIsTransitive(a: Date, b: Date, c: Date)
    ensures Before(a, b) && Before(b, c) ==> Before(a, c)
    ensures !Before(b, a) && !Before(c, b) ==> !Before(c, a)
  {
  }

  function AddMonths(day: Date, months: nat): Date {
    var month := day.month - 1 + months;
    var y, m := day.year + month / 12, month % 12 + 1;
    RawDate(y, m, if day.day < DaysIn(y, m) then day.day else DaysIn(y, m))
  }

  /** That many months on, on the same day of the month or, in a shorter one, its last. */
  lemma AddMonthsIsClamped(day: Date, months: nat)
    ensures Month(AddMonths(day, months)) == Month(day) + months
    ensures var r := AddMonths(day, months);
            r.day == day.day || (r.day < day.day && r.day == DaysIn(r.year, r.month))
  {
  }

  /** From the last day of a January: the month ends of the Gregorian calendar. */
  lemma MonthEnds(year: nat, n: nat)
    requires n < 12
    ensures OnCalendar(RawDate(year, 1, 31))
    ensures var d := AddMonths(RawDate(year, 1, 31), n);
            && d.year == year && d.month == n + 1
            && (n == 1 ==> d.day == if year % 400 == 0 || (year % 4 == 0 && year % 100 != 0) then 29 else 28)
            && (n == 3 || n == 5 || n == 8 || n == 10 ==> d.day == 30)
            && (n == 0 || n == 2 || n == 4 || n == 6 || n == 7 || n == 9 || n == 11 ==> d.day == 31)
  {
    hide Leap;
    Quotients(n);
    LeapYears(year);
  }

  lemma LeapYears(year: nat)
    ensures Leap(year) <==> year % 400 == 0 || (year % 4 == 0 && year % 100 != 0)
  {
    if year % 400 == 0 {
      assert year == 4 * (100 * (year / 400));
    }
  }

  lemma Quotients(n: nat)
    requires n < 12
    ensures n / 12 == 0 && n % 12 == n
  {
  }

  /** Clamping to month ends never makes two due dates meet or change places. */
  lemma DueDatesIncrease(first: Date, every: nat, i: nat, j: nat)
    requires every >= 1 && i < j
    ensures Before(AddMonths(first, i * every), AddMonths(first, j * every))
  {
    hide AddMonths, Month;
    Multiples(every, i, j);
    AddMonthsIsClamped(first, i * every);
    AddMonthsIsClamped(first, j * every);
  }

  lemma Multiples(every: nat, i: nat, j: nat)
    requires every >= 1 && i < j
    ensures i * every < j * every
  {
  }

  // ------------------------------------------------------------------ split

  function SumSeq(s: seq<real>): real {
    if s == [] then 0.0 else s[0] + SumSeq(s[1..])
  }

  function Times(part: real, n: nat): seq<real> {
    seq(n, i => part)
  }

  function Part(total: real, count: nat): real
    requires count > 0
  {
    (total / count as real).Floor as real
  }

  /** Quantizing downwards is rounding towards zero: the floor of an amount that is not
      negative, which is all create_default_plan splits. */
  function Split(total: real, count: nat): seq<real>
    requires total >= 0.0 && count > 0
  {
    [total - Part(total, count) * (count - 1) as real] + Times(Part(total, count), count - 1)
  }

  lemma {:induction false} SumTimes(part: real, n: nat)
    ensures SumSeq(Times(part, n)) == part * n as real
    decreases n
  {
    if n > 0 {
      assert Times(part, n)[1..] == Times(part, n - 1);
      SumTimes(part, n - 1);
    }
  }

  lemma PartIsClose(total: real, count: nat)
    requires count > 0
    ensures 0.0 <= total - Part(total, count) * count as real < count as real
  {
    FloorTimes(total / count as real, Part(total, count), count as real, total);
  }

  lemma FloorTimes(q: real, part: real, c: real, total: real)
    requires c > 0.0 && q * c == total && part <= q < part + 1.0
    ensures 0.0 <= total - part * c < c
  {
    var low, high := q - part, part + 1.0 - q;
    Between(low, high, low * c, high * c, part * c, c, total);
  }

  lemma Between(low: real, high: real, y: real, z: real, x: real, c: real, total: real)
    requires low >= 0.0 && high > 0.0 && c > 0.0 && y == low * c && z == high * c
    requires y == total - x && z == x + c - total
    ensures 0.0 <= total - x < c
  {
  }

  /** The parts add up to the price; every later one is the same whole amount, and the first
      exceeds it by less than one unit a part. */
  lemma SplitAddsUp(total: real, count: nat)
    requires total >= 0.0 && count > 0
    ensures |Split(total, count)| == count && SumSeq(Split(total, count)) == total
    ensures forall i :: 0 < i < count ==> Split(total, count)[i] == Part(total, count)
    ensures Part(total, count) == Part(total, count).Floor as real && Part(total, count) >= 0.0
    ensures 0.0 <= Split(total, count)[0] - Part(total, count) < count as real
  {
    var part, parts := Part(total, count), Split(total, count);
    assert parts[1..] == Times(part, count - 1);
    SumTimes(part, count - 1);
    PartIsClose(total, count);
    assert (count - 1) as real == count as real - 1.0;
    assert part * (count - 1) as real == part * count as real - part;
    assert parts[0] == total - (part * count as real - part);
    assert parts[0] - part == total - part * count as real;
    NotNegative(total, count);
  }

  lemma NotNegative(total: real, count: nat)
    requires total >= 0.0 && count > 0
    ensures Part(total, count) >= 0.0
  {
  }
}

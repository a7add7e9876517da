/** The current week as the window header shows it, and the classification of day cells
    that lie earlier in the week than today. Dates are proleptic Gregorian ordinals as
    Python's `date.toordinal` numbers them: 1 is Monday 0001-01-01. */
module WeekContext {
  import opened Wrappers

  /** `date.min` and `date.max` (9999-12-31, a Friday) as ordinals. */
  const MinOrdinal := 1
  const MaxOrdinal := 3652059

  predicate IsDate(o: int) {
    MinOrdinal <= o <= MaxOrdinal
  }

  /** `date.weekday()`: Monday is 0 and Sunday is 6. */
  function Weekday(o: int): (w: int)
    ensures 0 <= w < 7
    ensures w == 0 <==> o % 7 == 1
  {
    (o + 6) % 7
  }

  /** The Monday that starts the last week containing any valid date. */
  const LastMonday := MaxOrdinal - Weekday(MaxOrdinal)

  /** Bounds of the week shown in the header, and today's day index. */
  datatype Week = Week(monday: int, sunday: int, todayIndex: int)

  /** Adding days past `date.max` raises an overflow error. */
  datatype WeekError = DateOverflow

  /** `monday = today - weekday(today)` and `sunday = monday + 6`. The only failure is the
      Sunday of the very last week lying past `date.max`. */
  function ComputeWeek(d: int): (r: Result<Week, WeekError>)
    requires IsDate(d)
    ensures r.Failure? <==> d >= LastMonday
    ensures r.Success? ==>
      var w := r.value;
      && Weekday(w.monday) == 0
      && w.sunday == w.monday + 6
      && w.monday <= d <= w.sunday
      && w.todayIndex == Weekday(d) == d - w.monday
      && IsDate(w.monday) && IsDate(w.sunday)
  {
    var monday := d - Weekday(d);
    if monday + 6 > MaxOrdinal then
      Failure(DateOverflow)
    else
      Success(Week(monday, monday + 6, Weekday(d)))
  }

  /** A date has exactly one Monday within the six days up to it, so the computed bounds are
      the only Monday-to-Sunday span that contains the date. */
  lemma MondayIsUnique(d: int, m: int)
    requires Weekday(m) == 0
    requires m <= d <= m + 6
    ensures m == d - Weekday(d)
    ensures Weekday(d) == d - m
  {
  }

  /** A day index before today's names a date earlier in the week than today. */
  lemma EarlierIndexIsEarlierDate(d: int, day: int)
    requires IsDate(d) && d < LastMonday
    requires 0 <= day < 7
    ensures ComputeWeek(d).Success?
    ensures day < ComputeWeek(d).value.todayIndex <==> ComputeWeek(d).value.monday + day < d
    ensures IsDate(ComputeWeek(d).value.monday + day)
  {
  }

  /** A cell is drawn as a past, not-done day when its day index is before today's and its
      flag is 0. */
  predicate PastUnmarked(day: int, today: int, flag: int) {
    day < today && flag == 0
  }

  /** The classification of the seven cells of one row. */
  function RowClasses(days: seq<int>, today: int): (c: seq<bool>)
    requires |days| >= 7
    ensures |c| == 7
    ensures forall d :: 0 <= d < 7 ==> (c[d] <==> d < today && days[d] == 0)
    ensures forall d :: 0 <= d < 7 && days[d] == 1 ==> !c[d]
    ensures forall d :: 0 <= d < 7 && d >= today ==> !c[d]
    ensures today <= 0 ==> forall d :: 0 <= d < 7 ==> !c[d]
  {
    seq(7, d requires 0 <= d < 7 => PastUnmarked(d, today, days[d]))
  }

  /** The classification counts at most `today` cells, one per elapsed day of the week. */
  lemma PastUnmarkedAtMostElapsed(days: seq<int>, today: int)
    requires |days| >= 7 && 0 <= today < 7
    ensures CountTrue(RowClasses(days, today)) <= today
  {
    var c := RowClasses(days, today);
    CountTrueBound(c, today);
  }

  function CountTrue(c: seq<bool>): nat {
    if c == [] then 0 else (if c[0] then 1 else 0) + CountTrue(c[1..])
  }

  lemma {:induction false} CountTrueBound(c: seq<bool>, n: int)
    requires 0 <= n <= |c|
    requires forall d :: n <= d < |c| ==> !c[d]
    ensures CountTrue(c) <= n
    decreases |c|
  {
    if c != [] {
      if n == 0 {
        CountTrueBound(c[1..], 0);
      } else {
        CountTrueBound(c[1..], n - 1);
      }
    }
  }

  /** A Wednesday (2026-10-07) lies in the week starting two days earlier, with index 2. */
  lemma WednesdayWeek()
    ensures ComputeWeek(739896) == Success(Week(739894, 739900, 2))
  {
  }
}

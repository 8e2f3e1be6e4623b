/** The month popover's grid. */
module Calendar {
  import opened Base
  import opened Dates

  /** The grid itself: blanks, the month's days in order, blanks. */
  function Grid(d: Date): (cells: seq<Option<Date>>)
    ensures |cells| == FromMonday(Ymd(d.year, d.month, 1)) + DaysIn(d.year, d.month) + Trailing(d)
  {
    Blanks(FromMonday(Ymd(d.year, d.month, 1))) + MonthDays(d, DaysIn(d.year, d.month)) + Blanks(Trailing(d))
  }

  function Blanks(n: nat): (cells: seq<Option<Date>>)
    ensures |cells| == n && forall i :: 0 <= i < n ==> cells[i] == None
  {
    if n == 0 then [] else Blanks(n - 1) + [None]
  }

  function MonthDays(d: Date, n: nat): (cells: seq<Option<Date>>)
    requires n <= DaysIn(d.year, d.month)
    ensures |cells| == n && forall i :: 0 <= i < n ==> cells[i] == Some(Ymd(d.year, d.month, i + 1))
  {
    if n == 0 then [] else MonthDays(d, n - 1) + [Some(Ymd(d.year, d.month, n))]
  }

  /** What so many cells are short of whole weeks. */
  function Missing(n: nat): (m: nat)
    ensures m < 7 && (n + m) % 7 == 0
  {
    if n % 7 == 0 then 0 else 7 - n % 7
  }

  function Trailing(d: Date): (n: nat)
    ensures n < 7
  {
    Missing(FromMonday(Ymd(d.year, d.month, 1)) + DaysIn(d.year, d.month))
  }

  lemma FromMondayInMonth(d: Date, k: nat)
    requires 1 <= k <= DaysIn(d.year, d.month)
    ensures FromMonday(Ymd(d.year, d.month, k)) == (FromMonday(Ymd(d.year, d.month, 1)) + k - 1) % 7
  {
    WeekdaySteps(DayNumber(Ymd(d.year, d.month, 1)), k - 1);
  }

  lemma WeekdaySteps(n: int, k: nat)
    ensures Weekday(n + k) == (Weekday(n) + k) % 7
  {}

  method MonthGrid(anyDay: Date) returns (cells: seq<Option<Date>>)
    ensures cells == Grid(anyDay)
  {
    MonthBoundsAre(anyDay);
    var (first, last) := MonthBounds(anyDay);
    var lead := FromMonday(first);
    cells := Blanks(lead);
    var day := first;
    ghost var n := 0;
    while NotAfter(day, last)
      invariant n <= last.day
      invariant day == if n < last.day then Ymd(anyDay.year, anyDay.month, n + 1) else Next(last)
      invariant cells == Blanks(lead) + MonthDays(anyDay, n)
      decreases last.day - n
    {
      cells := cells + [Some(day)];
      day := Plus(day, 1);
      n := n + 1;
    }
    assert n == last.day;
    ghost var whole := cells;
    ghost var pad := 0;
    assert cells == whole + Blanks(pad);
    while |cells| % 7 != 0
      invariant pad <= Missing(|whole|)
      invariant cells == whole + Blanks(pad)
      decreases Missing(|whole|) - pad
    {
      PaddingNeeded(|whole|, pad);
      cells := cells + [None];
      pad := pad + 1;
    }
    PaddingEnough(|whole|, pad);
  }

  lemma PaddingNeeded(n: nat, pad: nat)
    requires pad <= Missing(n) && (n + pad) % 7 != 0
    ensures pad < Missing(n)
  {}

  lemma PaddingEnough(n: nat, pad: nat)
    requires pad <= Missing(n) && (n + pad) % 7 == 0
    ensures pad == Missing(n)
  {}

  /** Whole weeks, at most six blanks at either end, and every day under its own weekday. */
  lemma GridIsACalendar(d: Date)
    ensures |Grid(d)| % 7 == 0
    ensures forall i :: 0 <= i < |Grid(d)| && Grid(d)[i].Some? ==> FromMonday(Grid(d)[i].value) == i % 7
    ensures forall i :: 0 <= i < |Grid(d)| && Grid(d)[i].None? ==> i < 6 || i >= |Grid(d)| - 6
  {
    WholeWeeks(d);
    forall i | 0 <= i < |Grid(d)| && Grid(d)[i].Some? ensures FromMonday(Grid(d)[i].value) == i % 7 {
      UnderItsWeekday(d, i);
    }
    forall i | 0 <= i < |Grid(d)| && Grid(d)[i].None? ensures i < 6 || i >= |Grid(d)| - 6 {
      BlankIsOutside(d, i);
    }
  }

  lemma WholeWeeks(d: Date)
    ensures |Grid(d)| % 7 == 0
  {}

  lemma BlankIsOutside(d: Date, i: nat)
    requires i < |Grid(d)| && Grid(d)[i].None?
    ensures i < 6 || i >= |Grid(d)| - 6
  {}

  lemma UnderItsWeekday(d: Date, i: nat)
    requires i < |Grid(d)| && Grid(d)[i].Some?
    ensures FromMonday(Grid(d)[i].value) == i % 7
  {
    var k := CellHolds(d, i);
    FromMondayInMonth(d, k);
  }

  lemma CellHolds(d: Date, i: nat) returns (k: nat)
    requires i < |Grid(d)| && Grid(d)[i].Some?
    ensures 1 <= k <= DaysIn(d.year, d.month) && Grid(d)[i] == Some(Ymd(d.year, d.month, k))
    ensures i == FromMonday(Ymd(d.year, d.month, 1)) + k - 1
  {
    k := i - FromMonday(Ymd(d.year, d.month, 1)) + 1;
  }

  /** Each day of the month once, in order, and no other day. */
  lemma GridHoldsTheMonth(d: Date, e: Date)
    ensures Some(e) in Grid(d) <==> e.year == d.year && e.month == d.month
    ensures forall i, j :: 0 <= i < j < |Grid(d)| && Grid(d)[i].Some? && Grid(d)[j].Some? ==>
              Before(Grid(d)[i].value, Grid(d)[j].value)
  {
    var lead, n := FromMonday(Ymd(d.year, d.month, 1)), DaysIn(d.year, d.month);
    forall i | 0 <= i < |Grid(d)| && Grid(d)[i].Some?
      ensures lead <= i < lead + n && Grid(d)[i] == Some(Ymd(d.year, d.month, i - lead + 1))
    {}
    if e.year == d.year && e.month == d.month {
      assert Grid(d)[lead + e.day - 1] == Some(e);
    }
  }
}

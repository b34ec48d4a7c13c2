/** The month grid: the padding days from the previous and next months that
    fill a seven-column grid around the selected month, and the trash target
    that deletes items by picture name, with an undo stack. Days are day
    numbers on the line of `Dates`; day 0 is a Thursday. */
module CalendarGrid {
  import opened Seqs
  import opened Dates
  import opened FoodItems

  /** The grid has one column per weekday, Sunday first. */
  const Columns: int := 7

  /** The calendar facts the grid reads for the selected month: the day
      number of its first day, that day's weekday (1 is Sunday, 7 is
      Saturday), its length, and the length of the month before it. */
  datatype MonthGeometry = MonthGeometry(start: Day, firstWeekday: int, daysInMonth: int, daysInPreviousMonth: int)

  /** The weekday of day `d`, 1 for Sunday to 7 for Saturday. */
  function WeekdayOf(d: Day): (w: int)
    ensures 1 <= w <= Columns
  {
    (d + 4) % Columns + 1
  }

  /** Adding to a number and adding to its remainder leave the same
      remainder. */
  lemma ModAdd(a: int, b: int)
    ensures (a % Columns + b) % Columns == (a + b) % Columns
  {
    var q := a / Columns;
    assert a == Columns * q + a % Columns;
    assert a + b == Columns * q + (a % Columns + b);
  }

  /** A Gregorian month: 28 to 31 days after a month of 28 to 31 days, with
      the weekday of its first day read off the day line. */
  ghost predicate Valid(g: MonthGeometry)
  {
    && 28 <= g.daysInMonth <= 31
    && 28 <= g.daysInPreviousMonth <= 31
    && g.firstWeekday == WeekdayOf(g.start)
  }

  /** The weekday of the month's last day. */
  function LastWeekday(g: MonthGeometry): (w: int)
    requires Valid(g)
    ensures 1 <= w <= Columns
    ensures w == WeekdayOf(g.start + g.daysInMonth - 1)
  {
    ModAdd(g.start + 4, g.daysInMonth - 1);
    (g.firstWeekday - 1 + g.daysInMonth - 1) % Columns + 1
  }

  /** Swift's closed range `lo...hi` traps unless `lo <= hi`. */
  predicate ClosedRangeOk(lo: int, hi: int)
  {
    lo <= hi
  }

  /** The first day-of-month the previous-month loop asks for. */
  function PreviousStartDay(g: MonthGeometry): int
  {
    g.daysInPreviousMonth - (g.firstWeekday - 1) + 1
  }

  /** The last day-of-month the next-month loop asks for. */
  function NextDaysToShow(g: MonthGeometry): int
    requires Valid(g)
  {
    Columns - LastWeekday(g)
  }

  // ---- The three cell lists, as the grid is meant to show them ----

  /** The padding before the 1st: the last `firstWeekday - 1` days of the
      previous month. */
  function LeadingDays(g: MonthGeometry): (r: seq<Day>)
    requires Valid(g)
    ensures |r| == g.firstWeekday - 1
  {
    seq(g.firstWeekday - 1, k requires 0 <= k < g.firstWeekday - 1 => g.start - (g.firstWeekday - 1) + k)
  }

  /** The days of the selected month, the 1st first. */
  function MonthDays(g: MonthGeometry): (r: seq<Day>)
    requires Valid(g)
    ensures |r| == g.daysInMonth
  {
    seq(g.daysInMonth, k requires 0 <= k < g.daysInMonth => g.start + k)
  }

  /** The padding after the last day: the first days of the next month up to
      the end of the week, none when the month ends on a Saturday. */
  function TrailingDays(g: MonthGeometry): (r: seq<Day>)
    requires Valid(g)
    ensures |r| == (Columns - LastWeekday(g)) % Columns
  {
    seq((Columns - LastWeekday(g)) % Columns, k requires 0 <= k < (Columns - LastWeekday(g)) % Columns => g.start + g.daysInMonth + k)
  }

  /** All the cells, in grid order. */
  function GridCells(g: MonthGeometry): seq<Day>
    requires Valid(g)
  {
    LeadingDays(g) + MonthDays(g) + TrailingDays(g)
  }

  /** The leading cells are the final days of the previous month, in order,
      ending on its last day. */
  lemma LeadingDaysInPreviousMonth(g: MonthGeometry)
    requires Valid(g)
    ensures forall k :: 0 <= k < |LeadingDays(g)| ==>
      g.start - g.daysInPreviousMonth <= LeadingDays(g)[k] < g.start
    ensures |LeadingDays(g)| > 0 ==> LeadingDays(g)[|LeadingDays(g)| - 1] == g.start - 1
  {
  }

  /** The trailing cells are the first days of the next month, from its 1st. */
  lemma TrailingDaysInNextMonth(g: MonthGeometry)
    requires Valid(g)
    ensures forall k :: 0 <= k < |TrailingDays(g)| ==> TrailingDays(g)[k] == g.start + g.daysInMonth + k
    ensures |TrailingDays(g)| < Columns
  {
  }

  /** The grid has a whole number of rows. */
  lemma GridLengthWholeWeeks(g: MonthGeometry)
    requires Valid(g)
    ensures |GridCells(g)| % Columns == 0
  {
    var n := g.firstWeekday - 1 + g.daysInMonth - 1;
    assert LastWeekday(g) == n % Columns + 1;
    assert (Columns - LastWeekday(g)) % Columns == Columns - 1 - n % Columns;
    assert |GridCells(g)| == n + Columns - n % Columns;
    assert n == Columns * (n / Columns) + n % Columns;
    assert |GridCells(g)| == Columns * (n / Columns + 1);
  }

  /** The cells are consecutive days, starting `firstWeekday - 1` days
      before the 1st. */
  lemma GridCellsConsecutive(g: MonthGeometry)
    requires Valid(g)
    ensures forall i :: 0 <= i < |GridCells(g)| ==> GridCells(g)[i] == g.start - (g.firstWeekday - 1) + i
  {
    var cells := GridCells(g);
    forall i | 0 <= i < |cells|
      ensures cells[i] == g.start - (g.firstWeekday - 1) + i
    {
      if i < |LeadingDays(g)| {
        assert cells[i] == LeadingDays(g)[i];
      } else if i < |LeadingDays(g)| + |MonthDays(g)| {
        assert cells[i] == MonthDays(g)[i - |LeadingDays(g)|];
      } else {
        assert cells[i] == TrailingDays(g)[i - |LeadingDays(g)| - |MonthDays(g)|];
      }
    }
  }

  /** The grid is a run of consecutive days that fills whole weeks: each day
      sits in the column of its weekday, so the grid starts on a Sunday,
      ends on a Saturday, and has the 1st of the month under its own
      weekday. */
  lemma GridIsWholeWeeks(g: MonthGeometry)
    requires Valid(g)
    ensures |GridCells(g)| % Columns == 0
    ensures forall i :: 0 <= i < |GridCells(g)| ==> GridCells(g)[i] == g.start - (g.firstWeekday - 1) + i
    ensures forall i :: 0 <= i < |GridCells(g)| ==> WeekdayOf(GridCells(g)[i]) == i % Columns + 1
    ensures GridCells(g)[g.firstWeekday - 1] == g.start
  {
    GridLengthWholeWeeks(g);
    GridCellsConsecutive(g);
    var first := g.start - (g.firstWeekday - 1);
    ModAdd(g.start + 4, -(g.firstWeekday - 1));
    assert (first + 4) % Columns == 0;
    forall i | 0 <= i < |GridCells(g)|
      ensures WeekdayOf(GridCells(g)[i]) == i % Columns + 1
    {
      ModAdd(first + 4, i);
    }
  }

  // ---- The loops as written ----

  /** `generatePreviousMonthDates()`: loops over the day-of-month range
      `startDay...totalDaysPreviousMonth` and turns each into a date of the
      previous month. The range traps when the month starts on a Sunday. */
  method GeneratePreviousMonthDates(g: MonthGeometry) returns (dates: seq<Day>)
    requires Valid(g)
    requires ClosedRangeOk(PreviousStartDay(g), g.daysInPreviousMonth)
    ensures dates == LeadingDays(g)
  {
    dates := [];
    var previousMonth := g.start - g.daysInPreviousMonth;
    var startDay := PreviousStartDay(g);
    for day := startDay to g.daysInPreviousMonth + 1
      invariant |dates| == day - startDay
      invariant forall k :: 0 <= k < |dates| ==> dates[k] == previousMonth + startDay - 1 + k
    {
      dates := dates + [previousMonth + day - 1];
    }
  }

  /** `generateDates()`: one date per day of the month's range. */
  method GenerateDates(g: MonthGeometry) returns (dates: seq<Day>)
    requires Valid(g)
    ensures dates == MonthDays(g)
  {
    dates := [];
    for day := 1 to g.daysInMonth + 1
      invariant |dates| == day - 1
      invariant forall k :: 0 <= k < |dates| ==> dates[k] == g.start + k
    {
      dates := dates + [g.start + day - 1];
    }
  }

  /** `generateNextMonthDates()`: loops over `1...daysToShow`. The range
      traps when the month ends on a Saturday. */
  method GenerateNextMonthDates(g: MonthGeometry) returns (dates: seq<Day>)
    requires Valid(g)
    requires ClosedRangeOk(1, NextDaysToShow(g))
    ensures dates == TrailingDays(g)
  {
    dates := [];
    var nextMonth := g.start + g.daysInMonth;
    for day := 1 to NextDaysToShow(g) + 1
      invariant |dates| == day - 1
      invariant forall k :: 0 <= k < |dates| ==> dates[k] == nextMonth + k
    {
      dates := dates + [nextMonth + day - 1];
    }
  }

  /** The previous-month range is well formed exactly when the month does
      not start on a Sunday. */
  lemma PreviousRangeTrapsOnSunday(g: MonthGeometry)
    requires Valid(g)
    ensures ClosedRangeOk(PreviousStartDay(g), g.daysInPreviousMonth) <==> g.firstWeekday != 1
  {
  }

  /** The next-month range is well formed exactly when the month does not
      end on a Saturday. */
  lemma NextRangeTrapsOnSaturday(g: MonthGeometry)
    requires Valid(g)
    ensures ClosedRangeOk(1, NextDaysToShow(g)) <==> LastWeekday(g) != Columns
  {
  }

  /** December 2024 starts on a Sunday: its previous-month range is
      `31...30`. */
  lemma December2024Traps()
    ensures Valid(MonthGeometry(20058, 1, 31, 30))
    ensures PreviousStartDay(MonthGeometry(20058, 1, 31, 30)) == 31
    ensures !ClosedRangeOk(PreviousStartDay(MonthGeometry(20058, 1, 31, 30)), 30)
  {
  }

  /** November 2024 ends on a Saturday: its next-month range is `1...0`. */
  lemma November2024Traps()
    ensures Valid(MonthGeometry(20028, 6, 30, 31))
    ensures LastWeekday(MonthGeometry(20028, 6, 30, 31)) == Columns
    ensures !ClosedRangeOk(1, NextDaysToShow(MonthGeometry(20028, 6, 30, 31)))
  {
  }

  // ---- Drop to delete, and undo ----

  /** Items whose picture is `imageName`. */
  function HasImage(imageName: string): FoodItem -> bool
  {
    (x: FoodItem) => x.imageName == imageName
  }

  /** The two lists the drop target and the undo button work on. */
  datatype Lists = Lists(foodItems: seq<FoodItem>, deletedItems: seq<FoodItem>)

  /** The body of the drop handler once a picture name has arrived: when
      some item has that picture, the first such item is pushed on the undo
      stack and every item with that picture is removed. */
  function Drop(s: Lists, imageName: string): (r: Lists)
    ensures |r.foodItems| <= |s.foodItems|
    ensures r.deletedItems == s.deletedItems ==> r == s
    ensures r.deletedItems != s.deletedItems ==>
      && |r.deletedItems| == |s.deletedItems| + 1
      && r.deletedItems[..|s.deletedItems|] == s.deletedItems
      && r.deletedItems[|s.deletedItems|] in s.foodItems
      && r.deletedItems[|s.deletedItems|].imageName == imageName
      && |r.foodItems| < |s.foodItems|
  {
    var i := FirstIndex(s.foodItems, HasImage(imageName));
    if i == -1 then s
    else
      var keep := (x: FoodItem) => x.imageName != imageName;
      FilterShorter(s.foodItems, keep, i);
      Lists(Filter(s.foodItems, keep), s.deletedItems + [s.foodItems[i]])
  }

  /** `undoDelete()`: pops the most recent deletion and appends it to the
      items. */
  function Undo(s: Lists): (r: Lists)
    ensures |r.foodItems| + |r.deletedItems| == |s.foodItems| + |s.deletedItems|
    ensures |s.foodItems| <= |r.foodItems| && r.foodItems[..|s.foodItems|] == s.foodItems
    ensures r.deletedItems <= s.deletedItems
    ensures s.deletedItems != [] ==> |r.deletedItems| == |s.deletedItems| - 1
    ensures multiset(r.foodItems) + multiset(r.deletedItems) == multiset(s.foodItems) + multiset(s.deletedItems)
  {
    if s.deletedItems == [] then s
    else
      var n := |s.deletedItems| - 1;
      assert s.deletedItems == s.deletedItems[..n] + [s.deletedItems[n]];
      Lists(s.foodItems + [s.deletedItems[n]], s.deletedItems[..n])
  }

  /** A drop of a picture that no item has changes nothing. A drop of one that
      some item has pushes exactly the first such item, removes every item
      with that picture, and keeps the other items in their order. */
  lemma DropMeaning(s: Lists, imageName: string)
    ensures (forall x :: x in s.foodItems ==> x.imageName != imageName) ==> Drop(s, imageName) == s
    ensures (exists x :: x in s.foodItems && x.imageName == imageName) ==>
      && |Drop(s, imageName).deletedItems| == |s.deletedItems| + 1
      && Drop(s, imageName).deletedItems[..|s.deletedItems|] == s.deletedItems
      && (exists i :: 0 <= i < |s.foodItems| && Drop(s, imageName).deletedItems[|s.deletedItems|] == s.foodItems[i]
            && s.foodItems[i].imageName == imageName
            && forall j :: 0 <= j < i ==> s.foodItems[j].imageName != imageName)
      && (forall x :: x in Drop(s, imageName).foodItems <==> x in s.foodItems && x.imageName != imageName)
      && IsSubsequence(Drop(s, imageName).foodItems, s.foodItems)
  {
    var keep := (x: FoodItem) => x.imageName != imageName;
    FilterMembers(s.foodItems, keep);
    FilterIsSubsequence(s.foodItems, keep);
    if exists x :: x in s.foodItems && x.imageName == imageName {
      var x :| x in s.foodItems && x.imageName == imageName;
      var j :| 0 <= j < |s.foodItems| && s.foodItems[j] == x;
      assert HasImage(imageName)(s.foodItems[j]);
      var i := FirstIndex(s.foodItems, HasImage(imageName));
      assert Drop(s, imageName).deletedItems[..|s.deletedItems|] == s.deletedItems;
      assert Drop(s, imageName).deletedItems[|s.deletedItems|] == s.foodItems[i];
    }
  }

  /** A drop keeps every copy of each item without the picture and no copy
      of an item with it. */
  lemma DropKeepsCopies(s: Lists, imageName: string)
    ensures forall x :: multiset(Drop(s, imageName).foodItems)[x] ==
                          if x.imageName != imageName then multiset(s.foodItems)[x] else 0
  {
    var keep := (x: FoodItem) => x.imageName != imageName;
    forall x
      ensures multiset(Drop(s, imageName).foodItems)[x] == if keep(x) then multiset(s.foodItems)[x] else 0
    {
      if FirstIndex(s.foodItems, HasImage(imageName)) == -1 {
        assert !HasImage(imageName)(x) || x !in s.foodItems;
      } else {
        FilterMultiplicity(s.foodItems, keep, x);
      }
    }
  }

  /** Undo pops in last-in, first-out order and is a no-op on an empty
      stack; nothing is lost or duplicated between the two lists. */
  lemma UndoMeaning(s: Lists)
    ensures s.deletedItems == [] ==> Undo(s) == s
    ensures s.deletedItems != [] ==>
      && Undo(s).deletedItems + [s.deletedItems[|s.deletedItems| - 1]] == s.deletedItems
      && Undo(s).foodItems == s.foodItems + [s.deletedItems[|s.deletedItems| - 1]]
    ensures multiset(Undo(s).foodItems) + multiset(Undo(s).deletedItems) ==
            multiset(s.foodItems) + multiset(s.deletedItems)
  {
    if s.deletedItems != [] {
      var n := |s.deletedItems| - 1;
      assert s.deletedItems == s.deletedItems[..n] + [s.deletedItems[n]];
    }
  }

  /** Dropping the picture of exactly one item and then undoing gives the
      undo stack back and the same items, with the restored one moved to the
      end of the list. */
  lemma DropThenUndo(s: Lists, imageName: string, i: int)
    requires 0 <= i < |s.foodItems| && s.foodItems[i].imageName == imageName
    requires forall j :: 0 <= j < |s.foodItems| && j != i ==> s.foodItems[j].imageName != imageName
    ensures Undo(Drop(s, imageName)).deletedItems == s.deletedItems
    ensures Undo(Drop(s, imageName)).foodItems == s.foodItems[..i] + s.foodItems[i + 1..] + [s.foodItems[i]]
    ensures multiset(Undo(Drop(s, imageName)).foodItems) == multiset(s.foodItems)
  {
    var keep := (x: FoodItem) => x.imageName != imageName;
    assert HasImage(imageName)(s.foodItems[i]);
    assert FirstIndex(s.foodItems, HasImage(imageName)) == i;
    FilterSkipsOne(s.foodItems, keep, i);
    var d := Drop(s, imageName);
    assert d.deletedItems == s.deletedItems + [s.foodItems[i]];
    assert d.deletedItems[..|d.deletedItems| - 1] == s.deletedItems;
    assert s.foodItems == s.foodItems[..i] + [s.foodItems[i]] + s.foodItems[i + 1..];
  }

  /** Filtering out the one element that fails the predicate removes just
      that position. */
  lemma {:induction false} FilterSkipsOne(s: seq<FoodItem>, p: FoodItem -> bool, i: int)
    requires 0 <= i < |s| && !p(s[i])
    requires forall j :: 0 <= j < |s| && j != i ==> p(s[j])
    ensures Filter(s, p) == s[..i] + s[i + 1..]
    decreases |s|
  {
    if i == 0 {
      FilterAll(s[1..], p);
    } else {
      FilterSkipsOne(s[1..], p, i - 1);
      assert s[..i] == [s[0]] + s[1..][..i - 1];
      assert s[i + 1..] == s[1..][i..];
    }
  }

  /** The calendar screen's state behind the grid: the shared item list and
      the undo stack of deleted items. */
  class CalendarGridView {
    var foodItems: seq<FoodItem>
    var deletedItems: seq<FoodItem>

    constructor (items: seq<FoodItem>)
      ensures foodItems == items && deletedItems == []
    {
      foodItems := items;
      deletedItems := [];
    }

    /** The main-queue body of `handleDrop(providers:)`. */
    method HandleDrop(imageName: string)
      modifies this
      ensures Lists(foodItems, deletedItems) == Drop(Lists(old(foodItems), old(deletedItems)), imageName)
    {
      var i := FirstIndex(foodItems, HasImage(imageName));
      if i != -1 {
        var itemToDelete := foodItems[i];
        deletedItems := deletedItems + [itemToDelete];
        foodItems := Filter(foodItems, (x: FoodItem) => x.imageName != imageName);
      }
    }

    /** `undoDelete()`. */
    method UndoDelete()
      modifies this
      ensures Lists(foodItems, deletedItems) == Undo(Lists(old(foodItems), old(deletedItems)))
    {
      if |deletedItems| > 0 {
        var lastItem := deletedItems[|deletedItems| - 1];
        deletedItems := deletedItems[..|deletedItems| - 1];
        foodItems := foodItems + [lastItem];
      }
    }
  }
}

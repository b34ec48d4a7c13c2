/** The statistics screen: how many items expire soon after a given date, and
    how many expire on each of the five days that follow it. */
module Statistics {
  import opened Seqs
  import opened Dates
  import opened FoodItems
  import opened CalendarDateCell

  /** The "Expiring Soon" window ends this many days after the start day. */
  const ExpiringSoonDays: int := 3

  /** The day columns and bars cover the days `start + 1` to `start + ChartDays`. */
  const ChartDays: int := 5

  /** At most this many pictures are shown in a day column. */
  const ColumnIcons: int := 3

  /** Items whose expiry lies on day `d`. */
  function OnDay(d: Day): FoodItem -> bool
  {
    (x: FoodItem) => DayOf(x.date) == d
  }

  /** Items whose expiry lies on one of the days `lo` to `hi`, both included. */
  function InDays(lo: Day, hi: Day): FoodItem -> bool
  {
    (x: FoodItem) => lo <= DayOf(x.date) <= hi
  }

  /** `itemsExpiringSoon(from:)`: compares start-of-day instants against the
      start of the given day and the instant three days later. */
  function ItemsExpiringSoon(foodItems: seq<FoodItem>, specifiedDate: Instant): (r: seq<FoodItem>)
    ensures forall x :: x in r <==>
      x in foodItems && DayOf(specifiedDate) <= DayOf(x.date) <= DayOf(specifiedDate) + ExpiringSoonDays
    ensures r == Filter(foodItems, InDays(DayOf(specifiedDate), DayOf(specifiedDate) + ExpiringSoonDays))
  {
    var startOfSpecifiedDate := StartOfDay(specifiedDate);
    var threeDaysAfter := AddDays(startOfSpecifiedDate, ExpiringSoonDays);
    var soon := (item: FoodItem) =>
      StartOfDay(item.date) >= startOfSpecifiedDate && StartOfDay(item.date) <= threeDaysAfter;
    forall item: FoodItem
      ensures soon(item) == InDays(DayOf(specifiedDate), DayOf(specifiedDate) + ExpiringSoonDays)(item)
    {
      StartOfDayShiftedOrder(item.date, specifiedDate, 0);
      StartOfDayShiftedOrder(item.date, specifiedDate, ExpiringSoonDays);
    }
    FilterExtensional(foodItems, soon, InDays(DayOf(specifiedDate), DayOf(specifiedDate) + ExpiringSoonDays));
    FilterMembers(foodItems, soon);
    Filter(foodItems, soon)
  }

  /** The expiring items keep their order in `foodItems`. */
  lemma ItemsExpiringSoonKeepsOrder(foodItems: seq<FoodItem>, specifiedDate: Instant)
    ensures IsSubsequence(ItemsExpiringSoon(foodItems, specifiedDate), foodItems)
  {
    FilterIsSubsequence(foodItems, InDays(DayOf(specifiedDate), DayOf(specifiedDate) + ExpiringSoonDays));
  }

  /** The items of the day `offset` days after the start of `start`: the
      filter behind one day column and one bar. */
  function DayItems(foodItems: seq<FoodItem>, start: Instant, offset: int): (r: seq<FoodItem>)
    ensures r == Filter(foodItems, OnDay(DayOf(start) + offset))
  {
    var target := AddDays(StartOfDay(start), offset);
    FilterExtensional(foodItems, (x: FoodItem) => SameDay(x.date, target), OnDay(DayOf(start) + offset));
    ItemsForDate(foodItems, target)
  }

  /** `barChartDataForExpiringSoon(from:)`, with the counts kept as integers. */
  function BarChartData(foodItems: seq<FoodItem>, start: Instant): (r: seq<nat>)
    ensures |r| == ChartDays
    ensures forall k :: 0 <= k < ChartDays ==> r[k] == |DayItems(foodItems, start, k + 1)|
  {
    seq(ChartDays, k requires 0 <= k < ChartDays => |DayItems(foodItems, start, k + 1)|)
  }

  /** What one `DayExpiringColumn` shows: its offset, the pictures of the
      first few items of the day, and the number of items of the day. */
  datatype DayColumn = DayColumn(dayOffset: int, shown: seq<FoodItem>, count: nat)

  function MakeColumn(dayOffset: int, items: seq<FoodItem>): (c: DayColumn)
    ensures c.dayOffset == dayOffset && c.count == |items|
    ensures c.shown <= items
    ensures |c.shown| == if |items| < ColumnIcons then |items| else ColumnIcons
  {
    DayColumn(dayOffset, if |items| <= ColumnIcons then items else items[..ColumnIcons], |items|)
  }

  /** The five columns under "Expiring Soon by Day", for the offsets 1 to 5. */
  function DayColumns(foodItems: seq<FoodItem>, start: Instant): (r: seq<DayColumn>)
    ensures |r| == ChartDays
    ensures forall k :: 0 <= k < ChartDays ==> r[k].dayOffset == k + 1
  {
    seq(ChartDays, k requires 0 <= k < ChartDays => MakeColumn(k + 1, DayItems(foodItems, start, k + 1)))
  }

  /** Column `k` shows the first items of its day, at most three, and
      reports the same count as the bar of its day. */
  lemma ColumnMatchesBar(foodItems: seq<FoodItem>, start: Instant, k: int)
    requires 0 <= k < ChartDays
    ensures DayColumns(foodItems, start)[k].shown <= DayItems(foodItems, start, k + 1)
    ensures DayColumns(foodItems, start)[k].count == BarChartData(foodItems, start)[k]
    ensures |DayColumns(foodItems, start)[k].shown| ==
      if BarChartData(foodItems, start)[k] < ColumnIcons then BarChartData(foodItems, start)[k] else ColumnIcons
  {
    var column := DayColumns(foodItems, start)[k];
    assert column == MakeColumn(k + 1, DayItems(foodItems, start, k + 1));
  }

  /** A window of days splits into its first day and the rest. */
  lemma WindowSplit(foodItems: seq<FoodItem>, lo: Day, hi: Day)
    requires lo <= hi
    ensures |Filter(foodItems, InDays(lo, hi))| ==
            |Filter(foodItems, OnDay(lo))| + |Filter(foodItems, InDays(lo + 1, hi))|
  {
    FilterDisjointCount(foodItems, OnDay(lo), InDays(lo + 1, hi), InDays(lo, hi));
  }

  /** A window of one day is that day. */
  lemma WindowSingle(foodItems: seq<FoodItem>, d: Day)
    ensures Filter(foodItems, InDays(d, d)) == Filter(foodItems, OnDay(d))
  {
    FilterExtensional(foodItems, InDays(d, d), OnDay(d));
  }

  /** Bar `k` counts the items of day `start + k + 1`. */
  lemma BarIsDayCount(foodItems: seq<FoodItem>, start: Instant, k: int)
    requires 0 <= k < ChartDays
    ensures BarChartData(foodItems, start)[k] == |Filter(foodItems, OnDay(DayOf(start) + k + 1))|
  {
  }

  /** A window of four days counts the items of each of its days. */
  lemma FourDayWindow(foodItems: seq<FoodItem>, d: Day)
    ensures |Filter(foodItems, InDays(d, d + 3))| ==
            |Filter(foodItems, OnDay(d))| + |Filter(foodItems, OnDay(d + 1))| +
            |Filter(foodItems, OnDay(d + 2))| + |Filter(foodItems, OnDay(d + 3))|
  {
    WindowSplit(foodItems, d, d + 3);
    WindowSplit(foodItems, d + 1, d + 3);
    WindowSplit(foodItems, d + 2, d + 3);
    WindowSingle(foodItems, d + 3);
  }

  /** The "Expiring Soon" card counts the items of the start day plus those
      of the first three bars. */
  lemma ExpiringSoonIsDayPlusThreeBars(foodItems: seq<FoodItem>, start: Instant)
    ensures |ItemsExpiringSoon(foodItems, start)| ==
            |DayItems(foodItems, start, 0)| + BarChartData(foodItems, start)[0] +
            BarChartData(foodItems, start)[1] + BarChartData(foodItems, start)[2]
  {
    var d := DayOf(start);
    FourDayWindow(foodItems, d);
    BarIsDayCount(foodItems, start, 0);
    BarIsDayCount(foodItems, start, 1);
    BarIsDayCount(foodItems, start, 2);
  }

  /** A window of five days counts the items of each of its days. */
  lemma FiveDayWindow(foodItems: seq<FoodItem>, d: Day)
    ensures |Filter(foodItems, InDays(d, d + 4))| ==
            |Filter(foodItems, OnDay(d))| + |Filter(foodItems, OnDay(d + 1))| +
            |Filter(foodItems, OnDay(d + 2))| + |Filter(foodItems, OnDay(d + 3))| +
            |Filter(foodItems, OnDay(d + 4))|
  {
    WindowSplit(foodItems, d, d + 4);
    FourDayWindow(foodItems, d + 1);
  }

  /** The five bars together count the items of the five days after the
      start day. */
  lemma BarChartTotalIsWindow(foodItems: seq<FoodItem>, start: Instant)
    ensures BarChartData(foodItems, start)[0] + BarChartData(foodItems, start)[1] +
            BarChartData(foodItems, start)[2] + BarChartData(foodItems, start)[3] +
            BarChartData(foodItems, start)[4] == |Filter(foodItems, InDays(DayOf(start) + 1, DayOf(start) + ChartDays))|
  {
    var d := DayOf(start);
    FiveDayWindow(foodItems, d + 1);
    BarIsDayCount(foodItems, start, 0);
    BarIsDayCount(foodItems, start, 1);
    BarIsDayCount(foodItems, start, 2);
    BarIsDayCount(foodItems, start, 3);
    BarIsDayCount(foodItems, start, 4);
  }

  /** The five bars never count more items than there are: the days are
      disjoint. */
  lemma BarChartTotalBounded(foodItems: seq<FoodItem>, start: Instant)
    ensures BarChartData(foodItems, start)[0] + BarChartData(foodItems, start)[1] +
            BarChartData(foodItems, start)[2] + BarChartData(foodItems, start)[3] +
            BarChartData(foodItems, start)[4] <= |foodItems|
  {
    BarChartTotalIsWindow(foodItems, start);
    var window := Filter(foodItems, InDays(DayOf(start) + 1, DayOf(start) + ChartDays));
    assert |window| <= |foodItems|;
  }
}

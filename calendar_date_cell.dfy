/** One day cell of the month grid, which shows the items that expire on
    that day. */
module CalendarDateCell {
  import opened Seqs
  import opened Dates
  import opened FoodItems

  /** `itemsForDate(date:)`: the items whose expiry instant lies on the same
      calendar day as `date`. */
  function ItemsForDate(foodItems: seq<FoodItem>, date: Instant): (r: seq<FoodItem>)
    ensures forall x :: x in r <==> x in foodItems && SameDay(x.date, date)
  {
    FilterMembers(foodItems, (x: FoodItem) => SameDay(x.date, date));
    Filter(foodItems, (x: FoodItem) => SameDay(x.date, date))
  }

  /** The cell lists its items in their order in `foodItems`, every copy of
      each: nothing is reordered, merged or dropped. */
  lemma ItemsForDateKeepsOrder(foodItems: seq<FoodItem>, date: Instant)
    ensures IsSubsequence(ItemsForDate(foodItems, date), foodItems)
    ensures forall x ::
              multiset(ItemsForDate(foodItems, date))[x] == if SameDay(x.date, date) then multiset(foodItems)[x] else 0
  {
    var onDay := (x: FoodItem) => SameDay(x.date, date);
    FilterIsSubsequence(foodItems, onDay);
    forall x ensures multiset(Filter(foodItems, onDay))[x] == if onDay(x) then multiset(foodItems)[x] else 0 {
      FilterMultiplicity(foodItems, onDay, x);
    }
  }
}

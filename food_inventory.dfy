/** The inventory list: items shown soonest-expiring first, a warning on the
    rows that expire within two days, and swipe-to-delete whose offsets point
    into the sorted list while the removal happens in the unsorted one. */
module FoodInventory {
  import opened Seqs
  import opened Dates
  import opened FoodItems
  import opened FullInventoryCard
  import opened Statistics

  ghost predicate SortedByDate(s: seq<FoodItem>)
  {
    forall i, j :: 0 <= i < j < |s| ==> s[i].date <= s[j].date
  }

  /** Puts `x` in front of the first element that does not expire before it. */
  function InsertByDate(x: FoodItem, s: seq<FoodItem>): (r: seq<FoodItem>)
    ensures |r| == |s| + 1
    decreases |s|
  {
    if s == [] || x.date <= s[0].date then [x] + s
    else [s[0]] + InsertByDate(x, s[1..])
  }

  /** Inserting into a sorted list keeps it sorted and adds exactly `x`. */
  lemma {:induction false} InsertByDateSorts(x: FoodItem, s: seq<FoodItem>)
    requires SortedByDate(s)
    ensures SortedByDate(InsertByDate(x, s))
    ensures multiset(InsertByDate(x, s)) == multiset(s) + multiset{x}
    decreases |s|
  {
    if s == [] || x.date <= s[0].date {
      ConsSorted(x, s);
    } else {
      var rest := InsertByDate(x, s[1..]);
      assert s == [s[0]] + s[1..];
      InsertByDateSorts(x, s[1..]);
      forall i | 0 <= i < |rest|
        ensures s[0].date <= rest[i].date
      {
        assert rest[i] in multiset(rest);
        if rest[i] != x {
          assert rest[i] in s[1..];
        }
      }
      ConsSorted(s[0], rest);
    }
  }

  /** An item that expires no later than every element of a sorted list can
      go in front of it. */
  lemma ConsSorted(x: FoodItem, s: seq<FoodItem>)
    requires SortedByDate(s)
    requires forall i :: 0 <= i < |s| ==> x.date <= s[i].date
    ensures SortedByDate([x] + s)
  {
    var r := [x] + s;
    forall i, j | 0 <= i < j < |r|
      ensures r[i].date <= r[j].date
    {
      assert r[j] == s[j - 1];
      if i > 0 {
        assert r[i] == s[i - 1];
      }
    }
  }

  /** `sortedFoodItems()`: `foodItems.sorted { $0.date < $1.date }`, as an
      insertion sort that keeps items with equal dates in their list order. */
  function SortByDate(items: seq<FoodItem>): (r: seq<FoodItem>)
    ensures |r| == |items|
    decreases |items|
  {
    if items == [] then []
    else InsertByDate(items[0], SortByDate(items[1..]))
  }

  /** The sorted list is in date order and holds exactly the same items. */
  lemma {:induction false} SortByDateSorts(items: seq<FoodItem>)
    ensures SortedByDate(SortByDate(items))
    ensures multiset(SortByDate(items)) == multiset(items)
    decreases |items|
  {
    if items != [] {
      assert items == [items[0]] + items[1..];
      SortByDateSorts(items[1..]);
      InsertByDateSorts(items[0], SortByDate(items[1..]));
    }
  }

  /** `InventoryRow.isExpiringSoon(date:)`: the start of the item's day lies
      between the start of today and two days later. */
  predicate IsExpiringSoon(now: Instant, date: Instant)
    ensures IsExpiringSoon(now, date) <==> DayOf(now) <= DayOf(date) <= DayOf(now) + 2
  {
    var startOfToday := StartOfDay(now);
    var startOfDate := StartOfDay(date);
    var twoDaysFromNow := AddDays(startOfToday, 2);
    StartOfDayShiftedOrder(date, now, 0);
    StartOfDayShiftedOrder(date, now, 2);
    startOfDate <= twoDaysFromNow && startOfDate >= startOfToday
  }

  /** The row's warning triangle and the detail card agree: a row is flagged
      exactly when its card shows a ring (not the expired notice) in red. */
  lemma WarningIffRedRing(now: Instant, date: Instant)
    ensures IsExpiringSoon(now, date) <==>
      ExpiryDisplayFor(now, date).DaysLeftRing? && RingColorFor(ExpiryDisplayFor(now, date).daysLeft) == Red
  {
  }

  /** Every row flagged in the list on a given day is counted on the
      statistics card for that day, whose window is one day longer. */
  lemma FlaggedRowsAreExpiringSoon(foodItems: seq<FoodItem>, now: Instant)
    ensures forall x :: x in foodItems && IsExpiringSoon(now, x.date) ==> x in ItemsExpiringSoon(foodItems, now)
  {
  }

  // ---- Deletion by offsets into the sorted list ----

  /** An `IndexSet`, which hands out its offsets in ascending order. */
  predicate IsIndexSet(offsets: seq<nat>)
  {
    forall i, j :: 0 <= i < j < |offsets| ==> offsets[i] < offsets[j]
  }

  /** `sortedItems[index]` for each offset, in the order the loop visits them. */
  function Selected(sortedItems: seq<FoodItem>, offsets: seq<nat>): (r: seq<FoodItem>)
    requires forall k :: 0 <= k < |offsets| ==> offsets[k] < |sortedItems|
    ensures |r| == |offsets|
    ensures forall k :: 0 <= k < |offsets| ==> r[k] == sortedItems[offsets[k]]
  {
    seq(|offsets|, k requires 0 <= k < |offsets| => sortedItems[offsets[k]])
  }

  /** Items that carry the id `id`. */
  function HasId(id: Id): FoodItem -> bool
  {
    (x: FoodItem) => x.id == id
  }

  /** One step of the loop: remove the first item with that id, if any. */
  function RemoveFirstWithId(items: seq<FoodItem>, id: Id): (r: seq<FoodItem>)
    ensures |r| == |items| || |r| == |items| - 1
    ensures |r| == |items| ==> r == items
  {
    var i := FirstIndex(items, HasId(id));
    if i == -1 then items else items[..i] + items[i + 1..]
  }

  /** The whole loop: one removal per target, in order. */
  function RemoveEachById(items: seq<FoodItem>, targets: seq<FoodItem>): (r: seq<FoodItem>)
    ensures |items| - |targets| <= |r| <= |items|
    decreases |targets|
  {
    if targets == [] then items
    else RemoveFirstWithId(RemoveEachById(items, targets[..|targets| - 1]), targets[|targets| - 1].id)
  }

  /** One more turn of the loop is one more removal. */
  lemma RemoveEachStep(items: seq<FoodItem>, targets: seq<FoodItem>, n: int)
    requires 0 <= n < |targets|
    ensures RemoveEachById(items, targets[..n + 1]) == RemoveFirstWithId(RemoveEachById(items, targets[..n]), targets[n].id)
  {
    assert targets[..n + 1][..n] == targets[..n];
  }

  function IdsOf(items: seq<FoodItem>): set<Id>
  {
    set x | x in items :: x.id
  }

  /** The list screen's model: the shared list of items. */
  class FoodInventoryView {
    var foodItems: seq<FoodItem>

    constructor (items: seq<FoodItem>)
      ensures foodItems == items
    {
      foodItems := items;
    }

    /** `deleteItems(at:)`: looks every offset up in one sorted snapshot taken
        before the loop, and removes the matching item, found by id, from the
        unsorted list. An offset past the end traps. */
    method DeleteItems(offsets: seq<nat>)
      requires IsIndexSet(offsets)
      requires forall k :: 0 <= k < |offsets| ==> offsets[k] < |foodItems|
      modifies this
      ensures foodItems == RemoveEachById(old(foodItems), Selected(SortByDate(old(foodItems)), offsets))
    {
      var sortedItems := SortByDate(foodItems);
      ghost var targets := Selected(sortedItems, offsets);
      var n := 0;
      while n < |offsets|
        invariant 0 <= n <= |offsets|
        invariant foodItems == RemoveEachById(old(foodItems), targets[..n])
      {
        var itemToDelete := sortedItems[offsets[n]];
        var originalIndex := FirstIndex(foodItems, HasId(itemToDelete.id));
        RemoveEachStep(old(foodItems), targets, n);
        if originalIndex != -1 {
          foodItems := foodItems[..originalIndex] + foodItems[originalIndex + 1..];
        }
        n := n + 1;
      }
      assert targets[..n] == targets;
    }
  }

  // ---- What a deletion removes ----

  /** Items whose id is not in `ids`. */
  function WithoutIds(ids: set<Id>): FoodItem -> bool
  {
    (x: FoodItem) => x.id !in ids
  }

  lemma UniqueIdsCons(a: FoodItem, t: seq<FoodItem>)
    ensures UniqueIds([a] + t) <==> (forall y :: y in t ==> y.id != a.id) && UniqueIds(t)
  {
    var s := [a] + t;
    if (forall y :: y in t ==> y.id != a.id) && UniqueIds(t) {
      forall i, j | 0 <= i < j < |s|
        ensures s[i].id != s[j].id
      {
        assert s[j] == t[j - 1];
        if i > 0 {
          assert s[i] == t[i - 1];
        }
      }
    }
    if UniqueIds(s) {
      forall y | y in t
        ensures y.id != a.id
      {
        var j :| 0 <= j < |t| && t[j] == y;
        assert s[0] == a && s[j + 1] == y;
      }
      forall i, j | 0 <= i < j < |t|
        ensures t[i].id != t[j].id
      {
        assert s[i + 1] == t[i] && s[j + 1] == t[j];
      }
    }
  }

  /** In a list with unique ids, the id determines the item. */
  lemma SameIdSameItem(items: seq<FoodItem>, x: FoodItem, y: FoodItem)
    requires UniqueIds(items)
    requires x in items && y in items && x.id == y.id
    ensures x == y
  {
    var i :| 0 <= i < |items| && items[i] == x;
    var j :| 0 <= j < |items| && items[j] == y;
    assert i == j;
  }

  lemma {:induction false} InsertKeepsIdsUnique(x: FoodItem, s: seq<FoodItem>)
    requires SortedByDate(s) && UniqueIds(s)
    requires forall y :: y in s ==> y.id != x.id
    ensures UniqueIds(InsertByDate(x, s))
    decreases |s|
  {
    if s == [] || x.date <= s[0].date {
      UniqueIdsCons(x, s);
    } else {
      assert s == [s[0]] + s[1..];
      UniqueIdsCons(s[0], s[1..]);
      InsertKeepsIdsUnique(x, s[1..]);
      InsertByDateSorts(x, s[1..]);
      var rest := InsertByDate(x, s[1..]);
      forall y | y in rest
        ensures y.id != s[0].id
      {
        assert y in multiset(rest);
        if y != x {
          assert y in s[1..];
        }
      }
      UniqueIdsCons(s[0], rest);
    }
  }

  /** Sorting keeps the ids of a list unique. */
  lemma {:induction false} SortKeepsIdsUnique(items: seq<FoodItem>)
    requires UniqueIds(items)
    ensures UniqueIds(SortByDate(items))
    decreases |items|
  {
    if items != [] {
      assert items == [items[0]] + items[1..];
      UniqueIdsCons(items[0], items[1..]);
      SortKeepsIdsUnique(items[1..]);
      SortByDateSorts(items[1..]);
      var sorted := SortByDate(items[1..]);
      forall y | y in sorted
        ensures y.id != items[0].id
      {
        assert y in multiset(sorted);
      }
      InsertKeepsIdsUnique(items[0], sorted);
    }
  }

  /** Filtering keeps the ids of a list unique. */
  lemma {:induction false} FilterKeepsIdsUnique(items: seq<FoodItem>, p: FoodItem -> bool)
    requires UniqueIds(items)
    ensures UniqueIds(Filter(items, p))
    decreases |items|
  {
    if items != [] {
      assert items == [items[0]] + items[1..];
      UniqueIdsCons(items[0], items[1..]);
      FilterKeepsIdsUnique(items[1..], p);
      if p(items[0]) {
        FilterMembers(items[1..], p);
        UniqueIdsCons(items[0], Filter(items[1..], p));
      }
    }
  }

  /** An item with another id in front is kept, and the removal happens in
      the rest of the list. */
  lemma RemoveFirstPastHead(items: seq<FoodItem>, id: Id)
    requires items != [] && items[0].id != id
    ensures RemoveFirstWithId(items, id) == [items[0]] + RemoveFirstWithId(items[1..], id)
  {
    var tail := items[1..];
    var k := FirstIndex(tail, HasId(id));
    if k == -1 {
      assert FirstIndex(items, HasId(id)) == -1;
    } else {
      assert FirstIndex(items, HasId(id)) == k + 1;
      assert items[..k + 1] == [items[0]] + tail[..k];
      assert items[k + 2..] == tail[k + 1..];
    }
  }

  /** With unique ids, removing the first item with an id removes every item
      with that id. */
  lemma {:induction false} RemoveFirstIsFilter(items: seq<FoodItem>, id: Id)
    requires UniqueIds(items)
    ensures RemoveFirstWithId(items, id) == Filter(items, WithoutIds({id}))
    decreases |items|
  {
    if items != [] {
      var tail := items[1..];
      assert items == [items[0]] + tail;
      UniqueIdsCons(items[0], tail);
      if items[0].id == id {
        assert HasId(id)(items[0]);
        FilterAll(tail, WithoutIds({id}));
      } else {
        RemoveFirstPastHead(items, id);
        RemoveFirstIsFilter(tail, id);
        assert Filter(items, WithoutIds({id})) == [items[0]] + Filter(tail, WithoutIds({id}));
      }
    }
  }

  /** With unique ids, the deletion loop keeps exactly the items whose id was
      not selected. */
  lemma {:induction false} RemoveEachIsFilter(items: seq<FoodItem>, targets: seq<FoodItem>)
    requires UniqueIds(items)
    ensures RemoveEachById(items, targets) == Filter(items, WithoutIds(IdsOf(targets)))
    decreases |targets|
  {
    if targets == [] {
      FilterAll(items, WithoutIds(IdsOf(targets)));
    } else {
      var front := targets[..|targets| - 1];
      var last := targets[|targets| - 1];
      assert targets == front + [last];
      assert IdsOf(targets) == IdsOf(front) + {last.id};
      RemoveEachIsFilter(items, front);
      FilterKeepsIdsUnique(items, WithoutIds(IdsOf(front)));
      RemoveFirstIsFilter(Filter(items, WithoutIds(IdsOf(front))), last.id);
      FilterFilter(items, WithoutIds(IdsOf(front)), WithoutIds({last.id}), WithoutIds(IdsOf(targets)));
    }
  }

  /** Removing a set of ids that all occur in a list with unique ids shrinks
      it by the size of the set. */
  lemma {:induction false} WithoutIdsCount(items: seq<FoodItem>, ids: set<Id>)
    requires UniqueIds(items)
    requires ids <= IdsOf(items)
    ensures |Filter(items, WithoutIds(ids))| == |items| - |ids|
    decreases |items|
  {
    if items == [] {
      assert ids == {};
    } else {
      var a := items[0];
      var tail := items[1..];
      assert items == [a] + tail;
      UniqueIdsCons(a, tail);
      if a.id in ids {
        var others := ids - {a.id};
        assert others <= IdsOf(tail) by {
          forall d | d in others
            ensures d in IdsOf(tail)
          {
            var y :| y in items && y.id == d;
            assert y != a;
          }
        }
        WithoutIdsCount(tail, others);
        FilterExtensional(tail, WithoutIds(ids), WithoutIds(others));
      } else {
        assert ids <= IdsOf(tail) by {
          forall d | d in ids
            ensures d in IdsOf(tail)
          {
            var y :| y in items && y.id == d;
            assert y != a;
          }
        }
        WithoutIdsCount(tail, ids);
      }
    }
  }

  /** A list with unique ids carries as many ids as it has items. */
  lemma {:induction false} IdsOfUniqueCount(items: seq<FoodItem>)
    requires UniqueIds(items)
    ensures |IdsOf(items)| == |items|
    decreases |items|
  {
    if items != [] {
      assert items == [items[0]] + items[1..];
      UniqueIdsCons(items[0], items[1..]);
      IdsOfUniqueCount(items[1..]);
      assert IdsOf(items) == IdsOf(items[1..]) + {items[0].id};
    }
  }

  /** The items picked at distinct offsets of a list with unique ids have
      unique ids and all come from that list. */
  lemma SelectedUnique(sortedItems: seq<FoodItem>, offsets: seq<nat>)
    requires UniqueIds(sortedItems)
    requires IsIndexSet(offsets)
    requires forall k :: 0 <= k < |offsets| ==> offsets[k] < |sortedItems|
    ensures UniqueIds(Selected(sortedItems, offsets))
  {
  }

  /** `deleteItems(at:)` on a list with unique ids removes exactly the items
      at the chosen rows of the sorted list: every other item stays, in its
      original order, and the list shrinks by the number of rows. */
  lemma DeleteRemovesExactlySelected(items: seq<FoodItem>, offsets: seq<nat>)
    requires UniqueIds(items)
    requires IsIndexSet(offsets)
    requires forall k :: 0 <= k < |offsets| ==> offsets[k] < |items|
    ensures forall x :: x in RemoveEachById(items, Selected(SortByDate(items), offsets)) <==>
      x in items && x !in Selected(SortByDate(items), offsets)
    ensures |RemoveEachById(items, Selected(SortByDate(items), offsets))| == |items| - |offsets|
    ensures IsSubsequence(RemoveEachById(items, Selected(SortByDate(items), offsets)), items)
  {
    var sorted := SortByDate(items);
    var targets := Selected(sorted, offsets);
    var keep := WithoutIds(IdsOf(targets));
    SortKeepsIdsUnique(items);
    SortByDateSorts(items);
    SelectedUnique(sorted, offsets);
    IdsOfUniqueCount(targets);
    forall y | y in targets
      ensures y in items
    {
      assert y in multiset(sorted);
    }
    assert IdsOf(targets) <= IdsOf(items);
    RemoveEachIsFilter(items, targets);
    WithoutIdsCount(items, IdsOf(targets));
    FilterIsSubsequence(items, keep);
    FilterMembers(items, keep);
    forall x
      ensures x in Filter(items, keep) <==> x in items && x !in targets
    {
      if x in items && x.id in IdsOf(targets) {
        var y :| y in targets && y.id == x.id;
        SameIdSameItem(items, x, y);
      }
    }
  }
}

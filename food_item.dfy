/** The `FoodItem` record: an identity, a display name, the name of its
    picture and its expiry instant. Items are values; lists of them are
    matched by `id`. */
module FoodItems {
  import opened Dates

  /** A `UUID`, abstracted to a natural number. */
  type Id = nat

  datatype FoodItem = FoodItem(id: Id, name: string, imageName: string, date: Instant)

  /** `Identifiable` identity: no two positions of the list hold the same id. */
  ghost predicate UniqueIds(items: seq<FoodItem>)
  {
    forall i, j :: 0 <= i < j < |items| ==> items[i].id != items[j].id
  }

  /** An id that no item of `items` carries: `UUID()` is modelled by a value
      strictly above every id in use. */
  function FreshId(items: seq<FoodItem>): (r: Id)
    ensures forall i :: 0 <= i < |items| ==> items[i].id < r
    decreases |items|
  {
    if items == [] then 0
    else
      var rest := FreshId(items[1..]);
      if items[0].id < rest then rest else items[0].id + 1
  }

  /** `FoodItem(name:imageName:date:)`: the new item gets an id that is not
      among the existing ones, so it differs from each of them. */
  function NewFoodItem(existing: seq<FoodItem>, name: string, imageName: string, date: Instant): (r: FoodItem)
    ensures r.name == name && r.imageName == imageName && r.date == date
    ensures forall x :: x in existing ==> x.id != r.id && x != r
  {
    FoodItem(FreshId(existing), name, imageName, date)
  }

  /** Adding a freshly created item keeps the ids of a list unique. */
  lemma AddNewKeepsIdsUnique(items: seq<FoodItem>, name: string, imageName: string, date: Instant)
    requires UniqueIds(items)
    ensures UniqueIds(items + [NewFoodItem(items, name, imageName, date)])
  {
    var s := items + [NewFoodItem(items, name, imageName, date)];
    forall i, j | 0 <= i < j < |s| ensures s[i].id != s[j].id {
      if j == |items| {
        assert s[i] in items;
      }
    }
  }

  /** Equality compares every field: two items that differ only in id are
      different values. */
  lemma DistinctIdsDistinctItems(a: FoodItem, b: FoodItem)
    requires a.name == b.name && a.imageName == b.imageName && a.date == b.date
    ensures a == b <==> a.id == b.id
  {
  }
}

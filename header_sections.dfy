/** The header of the calendar screen: the search box with the list under
    it, and the rotating storage tip. */
module HeaderSections {
  import opened Seqs
  import opened Text
  import opened FoodItems

  /** The five tips the header cycles through. */
  const QuickTips: seq<string> := [
    "Store apples separately from bananas to prevent them from ripening too quickly.",
    "Carrots should be stored in a perforated plastic bag in the refrigerator to stay crisp.",
    "Store chicken in the coldest part of the refrigerator and cook it within 1-2 days of purchase.",
    "Keep milk on the middle shelf of the refrigerator to maintain a consistent temperature.",
    "Potatoes should be stored in a cool, dark place to prevent sprouting."
  ]

  /** Items whose name contains `query`, ignoring case. */
  function NameMatches(query: string): FoodItem -> bool
  {
    (x: FoodItem) => ContainsIgnoringCase(x.name, query)
  }

  /** What the search shows for `query`: everything for an empty query,
      otherwise the items whose name contains the query in any case. */
  function SearchResult(foodItems: seq<FoodItem>, query: string): (r: seq<FoodItem>)
    ensures query == [] ==> r == foodItems
    ensures query != [] ==>
      forall x :: x in r <==> x in foodItems && ContainsIgnoringCase(x.name, query)
  {
    if query == [] then foodItems
    else
      FilterMembers(foodItems, NameMatches(query));
      Filter(foodItems, NameMatches(query))
  }

  /** The search keeps the list order and every copy of a matching item. */
  lemma SearchResultKeepsOrder(foodItems: seq<FoodItem>, query: string)
    ensures IsSubsequence(SearchResult(foodItems, query), foodItems)
    ensures query != [] ==> forall x ::
              multiset(SearchResult(foodItems, query))[x] == if ContainsIgnoringCase(x.name, query) then multiset(foodItems)[x] else 0
  {
    if query == [] {
      SubsequenceRefl(foodItems);
    } else {
      FilterIsSubsequence(foodItems, NameMatches(query));
      forall x
        ensures multiset(Filter(foodItems, NameMatches(query)))[x] == if NameMatches(query)(x) then multiset(foodItems)[x] else 0
      {
        FilterMultiplicity(foodItems, NameMatches(query), x);
      }
    }
  }

  /** Typing the query in another case shows the same items. */
  lemma SearchIgnoresQueryCase(foodItems: seq<FoodItem>, query: string)
    ensures SearchResult(foodItems, query) == SearchResult(foodItems, Lower(query))
  {
    if query != [] {
      forall x | x in foodItems
        ensures NameMatches(query)(x) == NameMatches(Lower(query))(x)
      {
        QueryCaseIrrelevant(x.name, query);
      }
      FilterExtensional(foodItems, NameMatches(query), NameMatches(Lower(query)));
    }
  }

  /** The index after one tick of the tip timer. */
  function NextTip(i: nat): (j: nat)
    ensures j < |QuickTips|
    ensures i + 1 < |QuickTips| ==> j == i + 1
    ensures i + 1 == |QuickTips| ==> j == 0
  {
    (i + 1) % |QuickTips|
  }

  /** The index after `n` ticks. */
  function AdvanceTips(i: nat, n: nat): nat
  {
    if n == 0 then i else NextTip(AdvanceTips(i, n - 1))
  }

  /** From a valid index, `n` ticks move the index `n` places round the tips. */
  lemma {:induction false} AdvanceTipsIsModular(i: nat, n: nat)
    requires i < |QuickTips|
    ensures AdvanceTips(i, n) == (i + n) % |QuickTips|
  {
    if n > 0 {
      AdvanceTipsIsModular(i, n - 1);
    }
  }

  /** The number of ticks that lead from index `i` to index `j`. */
  function TicksBetween(i: nat, j: nat): nat
  {
    (j - i + |QuickTips|) % |QuickTips|
  }

  /** Moving `(j - i) mod n` places on from `i` reaches `j`. */
  lemma ModularDistance(i: int, j: int, n: int)
    requires 0 <= i < n && 0 <= j < n
    ensures 0 <= (j - i + n) % n < n
    ensures (i + (j - i + n) % n) % n == j
  {
    if j >= i {
      assert (j - i + n) % n == j - i;
    } else {
      assert (j - i + n) % n == j - i + n;
      assert (i + (j - i + n)) % n == (j + n) % n;
    }
  }

  /** After one tick per tip the same tip is shown again, and on the way
      every tip is shown. */
  lemma TipsCycle(i: nat)
    requires i < |QuickTips|
    ensures AdvanceTips(i, |QuickTips|) == i
    ensures forall j :: 0 <= j < |QuickTips| ==>
      TicksBetween(i, j) < |QuickTips| && AdvanceTips(i, TicksBetween(i, j)) == j
  {
    AdvanceTipsIsModular(i, |QuickTips|);
    forall j | 0 <= j < |QuickTips|
      ensures TicksBetween(i, j) < |QuickTips| && AdvanceTips(i, TicksBetween(i, j)) == j
    {
      AdvanceTipsIsModular(i, TicksBetween(i, j));
      ModularDistance(i, j, |QuickTips|);
    }
  }

  /** The header's state: the search text, the shared item list, the list the
      search last produced, and the index of the tip on show. */
  class Header {
    var searchQuery: string
    var foodItems: seq<FoodItem>
    var filteredItems: seq<FoodItem>
    var currentTipIndex: nat

    /** The header appears with the first tip and runs `filterItems()` once. */
    constructor (query: string, items: seq<FoodItem>)
      ensures searchQuery == query && foodItems == items
      ensures filteredItems == SearchResult(items, query)
      ensures currentTipIndex == 0
    {
      searchQuery := query;
      foodItems := items;
      currentTipIndex := 0;
      filteredItems := SearchResult(items, query);
    }

    /** `itemsToShow`: the whole list when nothing is typed, otherwise the
        stored search result. Whenever the stored result is current, this is
        what the search promises. */
    function ItemsToShow(): (r: seq<FoodItem>)
      reads this
      ensures searchQuery == [] ==> r == foodItems
      ensures searchQuery != [] ==> r == filteredItems
      ensures filteredItems == SearchResult(foodItems, searchQuery) ==> r == SearchResult(foodItems, searchQuery)
    {
      if searchQuery == [] then foodItems else filteredItems
    }

    /** `filterItems()`: recomputes the stored result and nothing else. */
    method FilterItems()
      modifies this
      ensures filteredItems == SearchResult(foodItems, searchQuery)
      ensures foodItems == old(foodItems) && searchQuery == old(searchQuery)
      ensures currentTipIndex == old(currentTipIndex)
      ensures ItemsToShow() == SearchResult(foodItems, searchQuery)
    {
      if |searchQuery| == 0 {
        filteredItems := foodItems;
      } else {
        filteredItems := Filter(foodItems, NameMatches(searchQuery));
      }
    }

    /** Typing in the search field, with its `onChange` hook. */
    method SetSearchQuery(query: string)
      modifies this
      ensures searchQuery == query && foodItems == old(foodItems)
      ensures filteredItems == SearchResult(foodItems, query)
      ensures currentTipIndex == old(currentTipIndex)
      ensures ItemsToShow() == SearchResult(foodItems, query)
    {
      searchQuery := query;
      FilterItems();
    }

    /** The body of the tip timer's callback. */
    method AdvanceTip()
      modifies this
      ensures currentTipIndex == NextTip(old(currentTipIndex))
      ensures currentTipIndex < |QuickTips|
      ensures searchQuery == old(searchQuery) && foodItems == old(foodItems)
      ensures filteredItems == old(filteredItems)
    {
      currentTipIndex := (currentTipIndex + 1) % |QuickTips|;
    }
  }
}

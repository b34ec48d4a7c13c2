/** The detail card of one inventory item: how many days it has left, the
    ring or the "expired" notice, the ring's colour and fill, and a storage
    suggestion picked by the item's name. */
module FullInventoryCard {
  import opened Dates
  import opened Text

  /** The ring is drawn against a ten-day scale. */
  const RingMaxDays: int := 10

  /** `daysUntilExpiry(for:)`: the whole days from the start of today to the
      start of the expiry day. */
  function DaysUntilExpiry(now: Instant, expiry: Instant): (days: int)
    ensures DayOf(now) + days == DayOf(expiry)
    ensures days == 0 <==> SameDay(now, expiry)
    ensures days < 0 <==> DayOf(expiry) < DayOf(now)
  {
    (StartOfDay(expiry) - StartOfDay(now)) / SecondsPerDay
  }

  /** What the card shows under the expiry date. */
  datatype ExpiryDisplay = DaysLeftRing(daysLeft: int, maxDays: int) | ExpiredNotice

  /** The ring for an item that expires today or later, the notice for one
      whose expiry day is already over. */
  function ExpiryDisplayFor(now: Instant, expiry: Instant): (d: ExpiryDisplay)
    ensures d.ExpiredNotice? <==> DayOf(expiry) < DayOf(now)
    ensures d.DaysLeftRing? ==>
      d.maxDays == RingMaxDays && d.daysLeft >= 0 && DayOf(now) + d.daysLeft == DayOf(expiry)
  {
    var days := DaysUntilExpiry(now, expiry);
    if days >= 0 then DaysLeftRing(days, RingMaxDays) else ExpiredNotice
  }

  datatype RingColor = Red | Orange | Green

  /** `LargeDaysLeftRing.ringColor()`. A negative count falls to the default
      case and is green. */
  function RingColorFor(daysLeft: int): (c: RingColor)
    ensures c == Red <==> 0 <= daysLeft <= 2
    ensures c == Orange <==> 3 <= daysLeft <= 5
    ensures c == Green <==> daysLeft < 0 || 5 < daysLeft
  {
    if 0 <= daysLeft <= 2 then Red
    else if 3 <= daysLeft <= 5 then Orange
    else Green
  }

  /** How pressing a colour is: green, then orange, then red. */
  function Urgency(c: RingColor): nat
  {
    match c
    case Green => 0
    case Orange => 1
    case Red => 2
  }

  /** On the ring, which only ever shows a count of zero or more, more days
      left never make the colour more pressing. */
  lemma RingColorMonotone(a: int, b: int)
    requires 0 <= a <= b
    ensures Urgency(RingColorFor(b)) <= Urgency(RingColorFor(a))
  {
  }

  /** `LargeDaysLeftRing.fraction`: the share of the ring that is filled. */
  function Fraction(daysLeft: int, maxDays: int): (f: real)
    ensures 0.0 <= f <= 1.0
    ensures maxDays <= 0 ==> f == 0.0
    ensures 0 < maxDays && 0 <= daysLeft <= maxDays ==> f * maxDays as real == daysLeft as real
    ensures 0 < maxDays && maxDays <= daysLeft ==> f == 1.0
    ensures 0 < maxDays && daysLeft <= 0 ==> f == 0.0
  {
    if maxDays <= 0 then 0.0
    else
      var ratio := daysLeft as real / maxDays as real;
      RatioBounds(daysLeft, maxDays);
      if ratio > 1.0 then 1.0 else if ratio < 0.0 then 0.0 else ratio
  }

  /** How `daysLeft / maxDays` compares with 0 and 1 on a positive scale. */
  lemma RatioBounds(daysLeft: int, maxDays: int)
    requires maxDays > 0
    ensures daysLeft as real / maxDays as real * maxDays as real == daysLeft as real
    ensures daysLeft as real / maxDays as real > 1.0 <==> daysLeft > maxDays
    ensures daysLeft as real / maxDays as real == 1.0 <==> daysLeft == maxDays
    ensures daysLeft as real / maxDays as real < 0.0 <==> daysLeft < 0
  {
    var m := maxDays as real;
    var ratio := daysLeft as real / m;
    assert ratio * m == daysLeft as real;
    if ratio > 1.0 {
      PositiveProduct(ratio - 1.0, m);
      assert (ratio - 1.0) * m == ratio * m - m;
    } else if ratio < 1.0 {
      PositiveProduct(1.0 - ratio, m);
      assert (1.0 - ratio) * m == m - ratio * m;
    }
    if ratio < 0.0 {
      PositiveProduct(-ratio, m);
      assert (-ratio) * m == -(ratio * m);
    }
  }

  lemma PositiveProduct(a: real, b: real)
    requires a > 0.0 && b > 0.0
    ensures a * b > 0.0
  {
  }

  /** More days left never show a smaller filled share. */
  lemma FractionMonotone(a: int, b: int, maxDays: int)
    requires a <= b
    ensures Fraction(a, maxDays) <= Fraction(b, maxDays)
  {
    if maxDays > 0 {
      var m := maxDays as real;
      assert a as real / m <= b as real / m by {
        assert a as real <= b as real;
      }
    }
  }

  /** The five names with their own storage suggestion, lowercased. */
  const KnownFoods: seq<string> := ["apple", "chicken", "milk", "carrot", "banana"]

  /** The suggestions for the known names, in the same order. */
  const FoodTips: seq<string> := [
    "Store apples separately from bananas to prevent over-ripening. Keep them in a cool place.",
    "Keep chicken in the coldest part of your fridge and use within 1-2 days of purchase.",
    "Store milk on the middle shelf to maintain a consistent temperature.",
    "Keep carrots in a perforated plastic bag in the fridge to retain moisture.",
    "Bananas can be stored at room temperature until they reach desired ripeness."
  ]

  const DefaultTip: string := "Keep in a cool, dry place or refrigerator depending on the item."

  /** `storageTips(for:)`: switches on the lowercased name. */
  function StorageTips(name: string): (tip: string)
    ensures forall i :: 0 <= i < |KnownFoods| && Lower(name) == KnownFoods[i] ==> tip == FoodTips[i]
    ensures Lower(name) !in KnownFoods ==> tip == DefaultTip
  {
    var key := Lower(name);
    if key == "apple" then FoodTips[0]
    else if key == "chicken" then FoodTips[1]
    else if key == "milk" then FoodTips[2]
    else if key == "carrot" then FoodTips[3]
    else if key == "banana" then FoodTips[4]
    else DefaultTip
  }

  /** The default text is given exactly for names outside the five. */
  lemma DefaultTipIffUnknown(name: string)
    ensures StorageTips(name) == DefaultTip <==> Lower(name) !in KnownFoods
  {
    if Lower(name) in KnownFoods {
      var i :| 0 <= i < |KnownFoods| && KnownFoods[i] == Lower(name);
      assert |FoodTips[i]| != |DefaultTip|;
    }
  }

  /** The suggestion depends on the name only up to case: "Apple", "APPLE"
      and "apple" get the same text. */
  lemma StorageTipsIgnoresCase(name: string)
    ensures StorageTips(name) == StorageTips(Lower(name))
  {
    LowerIdempotent(name);
  }
}

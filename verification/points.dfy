/**
 * The points engine of api.go: `calculatePoints` and its rule helpers.  The
 * score of a receipt is the sum of seven independent rule contributions.
 */
module Points {
  import opened Receipts
  import Text
  import TimeParse
  import Sums

  /** A whole number of dollars, in cents. */
  function Dollars(dollars: int): Cents {
    100 * dollars
  }

  /** `count` times `unit`, in cents. */
  function Times(count: int, unit: Cents): Cents {
    count * unit
  }

  /** Rule 2 test `isWholeNumber`: the total is a whole number of dollars. */
  predicate IsWholeNumber(amount: Cents)
    ensures IsWholeNumber(amount) <==> exists dollars :: Dollars(dollars) == amount
  {
    var dollars := amount / 100;
    assert amount % 100 == 0 ==> Dollars(dollars) == amount;
    amount % 100 == 0
  }

  /**
   * `isMultipleOf(value, factor)`, both in cents: `math.Mod(value, factor)` is
   * zero, so the value is a whole number of factors.  A zero factor makes
   * `math.Mod` NaN, which is never zero.
   */
  predicate IsMultipleOf(value: Cents, factor: Cents)
    ensures factor == 0 ==> !IsMultipleOf(value, factor)
    ensures IsMultipleOf(value, factor) <==> factor != 0 && exists count :: Times(count, factor) == value
  {
    if factor == 0 then false
    else
      var count := value / factor;
      assert value % factor == 0 ==> Times(count, factor) == value;
      MultipleRemainder(factor);
      value % factor == 0
  }

  /** Every whole number of factors leaves no remainder. */
  lemma MultipleRemainder(factor: Cents)
    requires factor != 0
    ensures forall count :: Times(count, factor) % factor == 0
  {
    forall count ensures Times(count, factor) % factor == 0 {
      var v := Times(count, factor);
      var q := v / factor;
      var extra := count - q;
      assert v % factor == factor * extra;
      ProductMagnitude(factor, extra);
    }
  }

  /** A non-zero multiple of `factor` is at least as large as `factor` in magnitude. */
  lemma ProductMagnitude(factor: int, k: int)
    requires factor != 0
    ensures k == 0 || Abs(factor * k) >= Abs(factor)
  {
  }

  /** The magnitude of an integer. */
  function Abs(x: int): nat {
    if x < 0 then -x else x
  }

  /** `math.Ceil(price * 0.2)` for a price in cents: the least whole number of points at least price/500. */
  function CeilFifthOfPrice(price: Cents): (p: int)
    ensures 500 * (p - 1) < price <= 500 * p
    ensures price >= 0 ==> p >= 0
  {
    (price + 499) / 500
  }

  /** The description test of rule 5: its trimmed length in bytes is a multiple of 3. */
  predicate DescriptionQualifies(description: string) {
    Text.ByteLength(Text.TrimSpace(description)) % 3 == 0
  }

  /** `pointsFromItem`: rule 5 for one item. */
  function PointsFromItem(item: Item): (p: int)
    ensures !DescriptionQualifies(item.description) ==> p == 0
    ensures DescriptionQualifies(item.description) ==> 500 * (p - 1) < item.price <= 500 * p
    ensures item.price >= 0 ==> p >= 0
  {
    if DescriptionQualifies(item.description) then CeilFifthOfPrice(item.price) else 0
  }

  /** Rule 5 over the whole item list. */
  function ItemsPoints(items: seq<Item>): int {
    Sums.SumBy(PointsFromItem, items)
  }

  /** Rule 1: one point per ASCII letter or digit of the retailer name. */
  function RetailerPoints(retailerName: string): nat {
    Text.CountAlphaNumericChars(retailerName)
  }

  /** Rule 2: 50 points for a round-dollar total. */
  function RoundTotalPoints(total: Cents): nat {
    if IsWholeNumber(total) then 50 else 0
  }

  /** Rule 3: 25 points for a total that is a multiple of 0.25. */
  function QuarterTotalPoints(total: Cents): nat {
    if IsMultipleOf(total, 25) then 25 else 0
  }

  /** Rule 4: 5 points for every two items. */
  function ItemPairPoints(items: seq<Item>): nat {
    (|items| / 2) * 5
  }

  /**
   * `isOddDay`: the purchase date parses and its day of the month is odd, so
   * the date is a well-formed, existing `YYYY-MM-DD` date ending in an odd digit.
   */
  predicate IsOddDay(date: string)
    ensures IsOddDay(date) <==>
              TimeParse.DateShape(date) && TimeParse.ValidDate(TimeParse.DateFields(date))
              && TimeParse.DigitValue(date[9]) % 2 == 1
  {
    match TimeParse.ParseDate(date)
    case Some(d) =>
      assert d.day == 10 * TimeParse.DigitValue(date[8]) + TimeParse.DigitValue(date[9]);
      d.day % 2 == 1
    case None => false
  }

  /** Rule 6: 6 points for an odd purchase day. */
  function OddDayPoints(date: string): nat {
    if IsOddDay(date) then 6 else 0
  }

  /** Rule 7: 10 points for a purchase strictly between 14:00 and 16:00. */
  function AfternoonPoints(time: string): nat {
    if TimeParse.IsBetween(time, "14:00", "16:00") then 10 else 0
  }

  /**
   * The score of a receipt: the sum of the seven rule contributions.  Besides
   * the item points, the rules add at most one point per retailer character,
   * 75 for the total, 5 per pair of items and 16 for the date and time.
   */
  function Score(r: Receipt): (p: int)
    ensures ItemsPoints(r.items) <= p
    ensures p - ItemsPoints(r.items) <= |r.retailerName| + 75 + 5 * (|r.items| / 2) + 16
  {
    RetailerPoints(r.retailerName)
    + RoundTotalPoints(r.total)
    + QuarterTotalPoints(r.total)
    + ItemPairPoints(r.items)
    + ItemsPoints(r.items)
    + OddDayPoints(r.purchaseDate)
    + AfternoonPoints(r.purchaseTime)
  }

  /**
   * A receipt whose prices are all non-negative scores at least its item
   * points, and so never below zero; every other rule adds a natural number.
   */
  lemma ScoreNonNegative(r: Receipt)
    requires NonNegativePrices(r.items)
    ensures Score(r) >= ItemsPoints(r.items) >= 0
  {
    forall i | 0 <= i < |r.items| ensures PointsFromItem(r.items[i]) >= 0 {
      assert r.items[i].price >= 0;
    }
    Sums.SumByNonNegative(PointsFromItem, r.items);
  }

  /** The loop of rule 5: the points of every item, added up in list order. */
  method SumItemPoints(items: seq<Item>) returns (sum: int)
    ensures sum == ItemsPoints(items)
  {
    sum := 0;
    var i := 0;
    while i < |items|
      invariant 0 <= i <= |items|
      invariant sum == ItemsPoints(items[..i])
    {
      Sums.SumByPrefixStep(PointsFromItem, items, i);
      sum := sum + PointsFromItem(items[i]);
      i := i + 1;
    }
    assert items[..i] == items;
  }

  /**
   * `calculatePoints`, accumulating the rules in the source's order; the
   * result is exactly the sum of the seven rule contributions.
   */
  method CalculatePoints(receipt: Receipt) returns (points: int)
    ensures points == Score(receipt)
  {
    points := 0;
    points := points + Text.CountAlphaNumericChars(receipt.retailerName);
    if IsWholeNumber(receipt.total) {
      points := points + 50;
    }
    if IsMultipleOf(receipt.total, 25) {
      points := points + 25;
    }
    points := points + (|receipt.items| / 2) * 5;
    var itemPoints := SumItemPoints(receipt.items);
    points := points + itemPoints;
    assert points == RetailerPoints(receipt.retailerName) + RoundTotalPoints(receipt.total)
                     + QuarterTotalPoints(receipt.total) + ItemPairPoints(receipt.items)
                     + ItemsPoints(receipt.items);
    ghost var beforeDate := points;
    if IsOddDay(receipt.purchaseDate) {
      points := points + 6;
    }
    assert points == beforeDate + OddDayPoints(receipt.purchaseDate);
    ghost var beforeTime := points;
    if TimeParse.IsBetween(receipt.purchaseTime, "14:00", "16:00") {
      points := points + 10;
    }
    assert points == beforeTime + AfternoonPoints(receipt.purchaseTime);
  }

  /** The score does not depend on the order of the items. */
  lemma ScoreItemOrder(r: Receipt, items: seq<Item>)
    requires multiset(items) == multiset(r.items)
    ensures Score(r.(items := items)) == Score(r)
  {
    Sums.SumByPermutation(PointsFromItem, items, r.items);
    assert |items| == |multiset(items)| == |r.items|;
  }

  /** Rules 2 and 3 together give 0, 25 or 75 points: a round total is also a quarter multiple. */
  lemma TotalBonuses(total: Cents)
    ensures RoundTotalPoints(total) + QuarterTotalPoints(total) == 75 <==> total % 100 == 0
    ensures RoundTotalPoints(total) + QuarterTotalPoints(total) == 25 <==> total % 25 == 0 && total % 100 != 0
    ensures RoundTotalPoints(total) + QuarterTotalPoints(total) == 0 <==> total % 25 != 0
  {
    if total % 100 == 0 {
      assert total == 25 * (4 * (total / 100));
    }
  }

  /** Rule 4 counts complete pairs of items. */
  lemma ItemPairPointsCount(items: seq<Item>)
    ensures ItemPairPoints(items) % 5 == 0
    ensures 2 * ItemPairPoints(items) <= 5 * |items| < 2 * ItemPairPoints(items) + 10
  {
  }

  /**
   * Rule 6 reads the date layout: 6 points exactly when the date is a
   * well-formed, existing `YYYY-MM-DD` date whose last digit is odd.
   */
  lemma OddDayRule(date: string)
    ensures OddDayPoints(date) == 6 <==>
              TimeParse.DateShape(date) && TimeParse.ValidDate(TimeParse.DateFields(date))
              && TimeParse.DigitValue(date[9]) % 2 == 1
    ensures OddDayPoints(date) == 0 || OddDayPoints(date) == 6
  {
    if TimeParse.DateShape(date) {
      var d := TimeParse.DateFields(date);
      assert d.day == 10 * TimeParse.DigitValue(date[8]) + TimeParse.DigitValue(date[9]);
      assert d.day % 2 == TimeParse.DigitValue(date[9]) % 2;
    }
  }

  /**
   * Rule 7: 10 points exactly when the time parses to a reading strictly
   * between 14:00 (minute 840) and 16:00 (minute 960).  A time that does not
   * parse compares as Go's zero `Time`, which is after 14:00 but not before
   * 16:00, so it earns nothing.
   */
  lemma AfternoonWindow(time: string)
    ensures AfternoonPoints(time) == 10 <==>
              TimeParse.ParseClock(time).Some?
              && 840 < 60 * TimeParse.ParseClock(time).value.hour + TimeParse.ParseClock(time).value.minute < 960
    ensures AfternoonPoints(time) == 0 || AfternoonPoints(time) == 10
  {
    TimeParse.ParseFormatClock(TimeParse.Clock(14, 0));
    TimeParse.ParseFormatClock(TimeParse.Clock(16, 0));
    assert TimeParse.FormatClock(TimeParse.Clock(14, 0)) == "14:00";
    assert TimeParse.FormatClock(TimeParse.Clock(16, 0)) == "16:00";
    assert TimeParse.ClockInstant("14:00") == 840;
    assert TimeParse.ClockInstant("16:00") == 960;
  }
}

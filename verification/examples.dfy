/**
 * Worked examples of the seven rules on typical receipt values, including the
 * boundary cases of each rule.
 */
module ScoringExamples {
  import opened Receipts
  import opened Points
  import Text
  import TimeParse

  /** "M&M " has two counting characters; the literal is cut into short pieces so each step stays small. */
  lemma CountMAmpM()
    ensures Text.CountAlphaNumericChars("M&M ") == 2
  {
    assert "M&M "[1..] == "&M ";
    assert "&M "[1..] == "M ";
    assert "M "[1..] == " ";
    assert Text.CountAlphaNumericChars("M ") == 1;
    assert Text.CountAlphaNumericChars("&M ") == 1;
  }

  /** A string of letters and digits counts in full. */
  lemma CountWord(w: string)
    requires forall i :: 0 <= i < |w| ==> Text.IsAlphaNumeric(w[i])
    ensures Text.CountAlphaNumericChars(w) == |w|
    ensures Text.CountAlphaNumericChars(w + " ") == |w|
  {
    Text.CountAlphaNumericAppend(w, " ");
  }

  /** "M&M Corner " has eight counting characters: the count is additive over the two pieces. */
  lemma CountMAmpMCorner()
    ensures Text.CountAlphaNumericChars("M&M " + "Corner ") == 8
  {
    CountMAmpM();
    var corner := "Corner";
    assert forall i :: 0 <= i < |corner| ==> Text.IsAlphaNumeric(corner[i]);
    CountWord(corner);
    assert corner + " " == "Corner ";
    Text.CountAlphaNumericAppend("M&M ", "Corner ");
  }

  /** Every character of "Market" counts. */
  lemma CountMarket()
    ensures Text.CountAlphaNumericChars("Market") == 6
  {
    var market := "Market";
    assert forall i :: 0 <= i < |market| ==> Text.IsAlphaNumeric(market[i]);
  }

  /** Rule 1: every character of "Target" counts. */
  lemma RetailerTarget()
    ensures RetailerPoints("Target") == 6
  {
    var target := "Target";
    assert forall i :: 0 <= i < |target| ==> Text.IsAlphaNumeric(target[i]);
  }

  /** The three pieces of "M&M Corner Market" together have fourteen counting characters. */
  lemma CountCornerMarketPieces()
    ensures Text.CountAlphaNumericChars("M&M " + "Corner " + "Market") == 14
  {
    CountMAmpMCorner();
    CountMarket();
    Text.CountAlphaNumericAppend("M&M " + "Corner ", "Market");
  }

  /** The three pieces join up to the retailer name. */
  lemma CornerMarketPieces()
    ensures "M&M " + "Corner " + "Market" == "M&M Corner Market"
  {
  }

  /** Rule 1: the "&" and the spaces of "M&M Corner Market" do not count. */
  lemma RetailerCornerMarket()
    ensures RetailerPoints("M&M Corner Market") == 14
  {
    CountCornerMarketPieces();
    CornerMarketPieces();
  }

  /** Rules 2 and 3: 35.00 earns both, 35.10 neither, 35.25 only rule 3. */
  lemma TotalExamples()
    ensures RoundTotalPoints(3500) + QuarterTotalPoints(3500) == 75
    ensures RoundTotalPoints(3510) + QuarterTotalPoints(3510) == 0
    ensures RoundTotalPoints(3525) == 0 && QuarterTotalPoints(3525) == 25
  {
  }

  /** Rule 4: four and five items both earn 10, one item earns nothing. */
  lemma PairExamples(a: Item, b: Item, c: Item, d: Item, e: Item)
    ensures ItemPairPoints([a, b, c, d]) == 10
    ensures ItemPairPoints([a, b, c, d, e]) == 10
    ensures ItemPairPoints([a]) == 0
  {
  }

  /** An ASCII description with no padding keeps its length through trimming. */
  lemma UnpaddedLength(description: string)
    requires description == [] || (!Text.IsSpace(description[0]) && !Text.IsSpace(description[|description| - 1]))
    requires forall i :: 0 <= i < |description| ==> description[i] as int < 0x80
    ensures Text.ByteLength(Text.TrimSpace(description)) == |description|
  {
    Text.TrimSpacePadding([], description, []);
    assert [] + description + [] == description;
  }

  /** Rule 5: "Gatorade" has 8 bytes, so it earns nothing at any price. */
  lemma ItemGatorade(price: Cents)
    ensures PointsFromItem(Item("Gatorade", price)) == 0
  {
    var gatorade := "Gatorade";
    assert forall i :: 0 <= i < |gatorade| ==> gatorade[i] as int < 0x80;
    UnpaddedLength(gatorade);
  }

  /** Rule 5: a blank description trims to length 0, so 6.00 earns ceil(1.2) = 2. */
  lemma ItemBlank()
    ensures PointsFromItem(Item("   ", 600)) == 2
  {
    var blank := "   ";
    assert forall i :: 0 <= i < |blank| ==> Text.IsSpace(blank[i]);
  }

  /** Rule 6 on a well-formed date with an odd day. */
  lemma DateOddDay()
    ensures OddDayPoints("2022-01-01") == 6
  {
    TimeParse.ParseFormatDate(TimeParse.Date(2022, 1, 1));
    assert TimeParse.FormatDate(TimeParse.Date(2022, 1, 1)) == "2022-01-01";
  }

  /** Rule 6 on a well-formed date with an even day. */
  lemma DateEvenDay()
    ensures OddDayPoints("2022-01-02") == 0
  {
    TimeParse.ParseFormatDate(TimeParse.Date(2022, 1, 2));
    assert TimeParse.FormatDate(TimeParse.Date(2022, 1, 2)) == "2022-01-02";
  }

  /** Rule 6: February 29 exists only in a leap year; a one-digit month is malformed. */
  lemma DateUnparsable()
    ensures OddDayPoints("2022-02-29") == 0
    ensures OddDayPoints("2022-1-01") == 0
  {
    assert TimeParse.DateShape("2022-02-29");
    assert TimeParse.DateFields("2022-02-29") == TimeParse.Date(2022, 2, 29);
  }

  /** Rule 7: 14:33 is inside the window; both bounds and 2:30 (02:30) are not. */
  lemma TimeExamples()
    ensures AfternoonPoints("14:33") == 10
    ensures AfternoonPoints("14:00") == 0 && AfternoonPoints("16:00") == 0
    ensures AfternoonPoints("2:30") == 0
  {
    AfternoonWindow("14:33");
    AfternoonWindow("14:00");
    AfternoonWindow("16:00");
    AfternoonWindow("2:30");
  }

  /** Rule 7: a time that does not parse earns nothing. */
  lemma TimeUnparsable()
    ensures AfternoonPoints("noon") == 0
    ensures AfternoonPoints("15:60") == 0
  {
    AfternoonWindow("noon");
    AfternoonWindow("15:60");
  }

  /**
   * Rule 5 on negative prices: the ceiling rounds towards zero, so a price down
   * to -4.99 scores 0 and only a qualifying item at -5.00 or less scores below 0.
   */
  lemma NegativePriceExamples()
    ensures CeilFifthOfPrice(-100) == 0
    ensures CeilFifthOfPrice(-499) == 0
    ensures CeilFifthOfPrice(-500) == -1
    ensures PointsFromItem(Item("", -500)) == -1
  {
    assert Text.TrimSpace("") == "";
  }
}

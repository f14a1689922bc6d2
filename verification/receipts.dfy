/**
 * The receipt data model of types.go.  Money amounts, which the program keeps
 * as float64 decoded from two-decimal strings, are kept here as exact integer
 * cents: "35.25" is 3525.
 */
module Receipts {

  /** An amount of money in cents (may be negative, as a decoded float may be). */
  type Cents = int

  datatype Item = Item(description: string, price: Cents)

  datatype Receipt = Receipt(
    retailerName: string,
    purchaseDate: string,
    purchaseTime: string,
    total: Cents,
    items: seq<Item>)

  /** Every item of the list has a price of zero or more. */
  predicate NonNegativePrices(items: seq<Item>) {
    forall i :: 0 <= i < |items| ==> items[i].price >= 0
  }
}

/**
 * Concrete cases of the pricing rule and of settlement. Base prices are in
 * cents; effective prices and sale prices in hundredths of a cent, so
 * 100.00 is 10000 cents and 80.00 is 800000.
 */
module Scenarios {
  import opened Tables
  import opened Pricing
  import opened Settlement

  /** Product 1 costs 100.00 with 5 in stock; product 2 costs 5.00 with 10 in stock. */
  const Catalog: map<int, Product> := map[1 := Product(1, 1, 10000, 5), 2 := Product(1, 1, 500, 10)]

  /** One promotion of 20% valid now: 100.00 becomes 80.00. */
  lemma OnePromotionApplies()
    ensures EffectivePrice(Catalog, [Promotion(7, "Spring", 20, 0, 100)], {(7, 1)}, 1, 50) == 800000
  {
  }

  /** Overlapping promotions of 10% and 30%: the larger wins, 100.00 becomes 70.00. */
  lemma LargestDiscountWins()
    ensures var promos := [Promotion(7, "Spring", 10, 0, 100), Promotion(8, "Flash", 30, 40, 60)];
      EffectivePrice(Catalog, promos, {(7, 1), (8, 1)}, 1, 50) == 700000
      && FindApplicablePromotion(promos, {(7, 1), (8, 1)}, 1, 50) == Some(promos[1])
  {
  }

  /** A window holds both its ends; a promotion that starts later, or is not linked, does not apply. */
  lemma WindowBounds()
    ensures EffectivePrice(Catalog, [Promotion(7, "Spring", 20, 0, 100)], {(7, 1)}, 1, 100) == 800000
    ensures EffectivePrice(Catalog, [Promotion(7, "Spring", 20, 0, 100)], {(7, 1)}, 1, 0) == 800000
    ensures EffectivePrice(Catalog, [Promotion(7, "Spring", 20, 60, 100)], {(7, 1)}, 1, 50) == 1000000
    ensures EffectivePrice(Catalog, [Promotion(7, "Spring", 20, 0, 100)], {(7, 2)}, 1, 50) == 1000000
  {
  }

  /** Buying all 5 of product 1 and 3 of product 2 succeeds, leaves 0 of product 1 and records two sales. */
  lemma ExactStockSucceeds()
    ensures var r := Settle(Catalog, [], {}, 42, [CartLine(1, 5), CartLine(2, 3)], 50);
      r.Settled? && r.stock[1].quantity == 0 && r.stock[2].quantity == 7 && |r.sales| == 2
      && r.sales[0] == Sale(1, 42, 1000000, 5, None, 50)
  {
  }

  /** Asking 3 of a product with 2 left fails naming the product, the 2 left and the 3 asked. */
  lemma ShortfallFails()
    ensures Settle(Catalog[1 := Product(1, 1, 10000, 2)], [], {}, 42, [CartLine(1, 3)], 50)
         == Failed(InsufficientStock(1, 2, 3))
  {
  }

  /** Two lines of 3 against a stock of 5: the second sees the 2 the first left and fails. */
  lemma DuplicateLinesAreCumulative()
    ensures Settle(Catalog, [], {}, 42, [CartLine(1, 3), CartLine(1, 3)], 50)
         == Failed(InsufficientStock(1, 2, 3))
  {
  }

  /**
   * Two clock readings one second apart across the end of a promotion: the
   * sale records promotion 7 but charges the full base price; the row is
   * stamped at the insert's own reading.
   */
  lemma TwoClockReadsBreakPricing()
    ensures var s := SaleAsWritten(Catalog, [Promotion(7, "Spring", 20, 0, 100)], {(7, 1)}, 42, CartLine(1, 1), 100, 101, 101);
      s.appliedPromotion == Some(7) && s.salePrice == 1000000
      && !PricedByRecordedPromotion(s, Catalog, [Promotion(7, "Spring", 20, 0, 100)], {(7, 1)})
  {
  }
}

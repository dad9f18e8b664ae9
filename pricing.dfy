/**
 * The pricing rule: the effective unit price of a product at an instant is
 * its base price reduced by the largest discount among the promotions that
 * are linked to it and whose validity window contains the instant.
 *
 * Two definitions of the rule exist side by side: the one that selects the
 * best promotion row (`FindApplicablePromotion`, `EffectivePrice`) and the
 * earlier one that only asks for the maximal discount
 * (`MaxDiscountForProduct`, `DiscountedPriceByMaxDiscount`). They agree.
 */
module Pricing {
  import opened Tables

  /** Promotion `p` is linked to the product and its window holds `t` (SQL BETWEEN, inclusive). */
  predicate Applies(p: Promotion, links: set<Link>, productId: int, t: int)
  {
    (p.id, productId) in links && p.validFrom <= t <= p.validTo
  }

  /** Discounts respect the table's CHECK constraint 0 <= discount_percent < 100. */
  predicate DiscountsInRange(promos: seq<Promotion>)
  {
    forall p :: p in promos ==> 0 <= p.discount < 100
  }

  /**
   * `base` cents reduced by `d` percent, in hundredths of a cent:
   * exactly 100 * base * (1 - d/100), with no rounding.
   */
  function DiscountedPrice(base: int, d: int): (r: int)
    ensures d == 0 ==> r == 100 * base
    ensures base > 0 && 0 <= d < 100 ==> 0 < r <= 100 * base
    ensures base > 0 && 0 < d < 100 ==> r < 100 * base
  {
    base * (100 - d)
  }

  /** A larger discount never gives a higher price. */
  lemma DiscountedPriceAntitone(base: int, d1: int, d2: int)
    requires base >= 0 && d1 <= d2
    ensures DiscountedPrice(base, d2) <= DiscountedPrice(base, d1)
  {
    assert DiscountedPrice(base, d1) - DiscountedPrice(base, d2) == base * (d2 - d1);
  }

  /**
   * The row `SELECT ... ORDER BY discount_percent DESC LIMIT 1` returns:
   * an applicable promotion with the largest discount, or none. SQL leaves
   * the order of equal discounts open; this definition takes the earliest row.
   */
  function FindApplicablePromotion(promos: seq<Promotion>, links: set<Link>, productId: int, t: int): (r: Option<Promotion>)
    ensures r.Some? ==> r.value in promos && Applies(r.value, links, productId, t)
    ensures r.Some? ==> forall q :: q in promos && Applies(q, links, productId, t) ==> q.discount <= r.value.discount
    ensures r.None? <==> forall q :: q in promos ==> !Applies(q, links, productId, t)
  {
    if promos == [] then None
    else
      var rest := FindApplicablePromotion(promos[1..], links, productId, t);
      if Applies(promos[0], links, productId, t) && (rest.None? || rest.value.discount <= promos[0].discount)
      then Some(promos[0])
      else rest
  }

  /** SQL `MAX(discount_percent)` over the applicable promotions; NULL (None) when there are none. */
  function MaxApplicableDiscount(promos: seq<Promotion>, links: set<Link>, productId: int, t: int): (m: Option<int>)
    ensures m.None? <==> forall q :: q in promos ==> !Applies(q, links, productId, t)
    ensures m.Some? ==> exists q :: q in promos && Applies(q, links, productId, t) && q.discount == m.value
    ensures m.Some? ==> forall q :: q in promos && Applies(q, links, productId, t) ==> q.discount <= m.value
  {
    if promos == [] then None
    else
      var rest := MaxApplicableDiscount(promos[1..], links, productId, t);
      if !Applies(promos[0], links, productId, t) then rest
      else if rest.None? || rest.value < promos[0].discount then Some(promos[0].discount)
      else rest
  }

  /** The largest applicable discount, 0 when no promotion applies. */
  function MaxDiscountForProduct(promos: seq<Promotion>, links: set<Link>, productId: int, t: int): (d: int)
    ensures DiscountsInRange(promos) ==> 0 <= d < 100
    ensures (forall q :: q in promos ==> !Applies(q, links, productId, t)) ==> d == 0
  {
    match MaxApplicableDiscount(promos, links, productId, t)
    case None => 0
    case Some(m) => m
  }

  /**
   * The effective unit price, in hundredths of a cent, of an existing
   * product at instant `t`. It applies the largest applicable discount,
   * so it never exceeds the base price and stays positive.
   */
  function EffectivePrice(products: map<int, Product>, promos: seq<Promotion>, links: set<Link>, productId: int, t: int): (r: int)
    requires productId in products
    ensures r == DiscountedPrice(products[productId].price, MaxDiscountForProduct(promos, links, productId, t))
    ensures products[productId].price > 0 && DiscountsInRange(promos) ==> 0 < r <= 100 * products[productId].price
  {
    var promo := FindApplicablePromotion(promos, links, productId, t);
    if promo.Some? then DiscountedPrice(products[productId].price, promo.value.discount)
    else products[productId].price * 100
  }

  /**
   * The earlier definition of the same price: base reduced by the maximal
   * discount. It is rebound by the later one, and gives the same value.
   */
  function DiscountedPriceByMaxDiscount(products: map<int, Product>, promos: seq<Promotion>, links: set<Link>, productId: int, t: int): (r: int)
    requires productId in products
    ensures r == EffectivePrice(products, promos, links, productId, t)
  {
    DiscountedPrice(products[productId].price, MaxDiscountForProduct(promos, links, productId, t))
  }

  /** Whichever maximal applicable promotion a tie-break picks, the price is the same. */
  lemma {:induction false} TieBreakIrrelevant(products: map<int, Product>, promos: seq<Promotion>, links: set<Link>, productId: int, t: int, q: Promotion)
    requires productId in products
    requires q in promos && Applies(q, links, productId, t)
    requires forall p :: p in promos && Applies(p, links, productId, t) ==> p.discount <= q.discount
    ensures EffectivePrice(products, promos, links, productId, t) == DiscountedPrice(products[productId].price, q.discount)
  {
    var best := FindApplicablePromotion(promos, links, productId, t);
    assert best.Some? && best.value.discount == q.discount;
  }

  /** The effective price is at most the price under any single applicable promotion. */
  lemma {:induction false} EffectivePriceIsBest(products: map<int, Product>, promos: seq<Promotion>, links: set<Link>, productId: int, t: int, q: Promotion)
    requires productId in products && products[productId].price >= 0
    requires q in promos && Applies(q, links, productId, t)
    ensures EffectivePrice(products, promos, links, productId, t) <= DiscountedPrice(products[productId].price, q.discount)
  {
    var best := FindApplicablePromotion(promos, links, productId, t);
    DiscountedPriceAntitone(products[productId].price, q.discount, best.value.discount);
  }
}

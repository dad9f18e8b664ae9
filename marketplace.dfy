/**
 * The store and the shopping cart as objects whose fields change in place.
 *
 * `Database` holds the tables the core reads and writes; its methods are
 * the table maintenance of the catalog dialogs. `ShoppingCart` holds one
 * buyer's lines; its `Checkout` settles them in one transaction.
 */
module Marketplace {
  import opened Tables
  import opened Pricing
  import opened Validation
  import opened Settlement
  import opened Store

  /**
   * The links after the promotion dialog: with a promotion selected the
   * (promotion, product) pair is present (once, the pair being the key)
   * and nothing else changes; with "no promotion" every pair of the product
   * is gone and every other pair is kept.
   */
  function AssignPromotion(links: set<Link>, productId: int, selected: Option<int>): (r: set<Link>)
    ensures selected.Some? ==> (selected.value, productId) in r && r - {(selected.value, productId)} == links - {(selected.value, productId)}
    ensures selected.None? ==> forall l :: l in r <==> l in links && l.1 != productId
  {
    match selected
    case None => set l | l in links && l.1 != productId
    case Some(id) => links + {(id, productId)}
  }

  /** Removing a product's promotions brings its price back to the base price. */
  lemma {:induction false} NoPromotionMeansBasePrice(products: map<int, Product>, promos: seq<Promotion>, links: set<Link>, productId: int, t: int)
    requires productId in products
    ensures EffectivePrice(products, promos, AssignPromotion(links, productId, None), productId, t) == 100 * products[productId].price
  {
    var after := AssignPromotion(links, productId, None);
    assert forall q :: q in promos ==> !Applies(q, after, productId, t);
  }

  /** Changing one product's links changes no other product's selected promotion. */
  lemma {:induction false} AssignPromotionKeepsOthers(promos: seq<Promotion>, links: set<Link>, productId: int, selected: Option<int>, other: int, t: int)
    requires other != productId
    ensures FindApplicablePromotion(promos, AssignPromotion(links, productId, selected), other, t)
         == FindApplicablePromotion(promos, links, other, t)
  {
    if promos != [] {
      AssignPromotionKeepsOthers(promos[1..], links, productId, selected, other, t);
      var after := AssignPromotion(links, productId, selected);
      assert Applies(promos[0], after, other, t) == Applies(promos[0], links, other, t);
    }
  }

  class Database {
    var products: map<int, Product>
    var promotions: seq<Promotion>
    var links: set<Link>
    var sales: seq<Sale>
    var categories: map<string, int>
    var nextProductId: int
    var nextPromotionId: int
    var nextCategoryId: int

    /** The store's invariant: well-formed product, promotion and category tables. */
    ghost predicate Valid()
      reads this
    {
      ProductsValid() && PromotionsValid() && CategoriesValid()
    }

    ghost predicate ProductsValid()
      reads this`products, this`nextProductId, this`categories
    {
      ProductsWellFormed(products, nextProductId, categories)
    }

    ghost predicate PromotionsValid()
      reads this`promotions, this`nextPromotionId
    {
      PromotionsWellFormed(promotions, nextPromotionId)
    }

    ghost predicate CategoriesValid()
      reads this`categories, this`nextCategoryId
    {
      CategoriesWellFormed(categories, nextCategoryId)
    }

    /** An empty store; AUTOINCREMENT ids start at 1. */
    constructor ()
      ensures Valid()
      ensures products == map[] && promotions == [] && links == {} && sales == [] && categories == map[]
    {
      products, promotions, links, sales, categories := map[], [], {}, [], map[];
      nextProductId, nextPromotionId, nextCategoryId := 1, 1, 1;
    }

    /**
     * Promotion creation at the current instant `now`. The discount comes
     * from a spin box limited to 0..99. The name is stored trimmed.
     */
    method CreatePromotion(name: string, discount: int, start: int, end: int, now: int) returns (r: Option<PromotionError>)
      requires Valid() && 0 <= discount <= 99
      modifies this`promotions, this`nextPromotionId
      ensures Valid()
      ensures r == CheckPromotion(name, start, end, now)
      ensures r.None? ==> promotions == old(promotions) + [Promotion(old(nextPromotionId), Strip(name), discount, start, end)]
      ensures r.None? ==> nextPromotionId == old(nextPromotionId) + 1
      ensures r.Some? ==> promotions == old(promotions) && nextPromotionId == old(nextPromotionId)
    {
      r := CheckPromotion(name, start, end, now);
      if r.None? {
        var trimmed := Strip(name);
        assert trimmed != [] && !IsWhitespace(trimmed[0]);
        var row := Promotion(nextPromotionId, trimmed, discount, start, end);
        AppendPromotionWellFormed(promotions, nextPromotionId, row);
        promotions, nextPromotionId := promotions + [row], nextPromotionId + 1;
      }
    }

    /** Applying the promotion dialog's choice for `productId`. */
    method ApplyPromotion(productId: int, selected: Option<int>)
      requires Valid()
      modifies this`links
      ensures Valid()
      ensures links == AssignPromotion(old(links), productId, selected)
    {
      match selected {
        case None =>
          links := set l | l in links && l.1 != productId;
        case Some(id) =>
          links := links + {(id, productId)};
      }
    }

    /** The id of the category called `name`, inserting it first when there is none. */
    method GetOrCreateCategory(name: string) returns (id: int)
      requires Valid()
      modifies this`categories, this`nextCategoryId
      ensures Valid()
      ensures name in categories && categories[name] == id
      ensures old(categories).Values <= categories.Values
      ensures name in old(categories) ==>
        categories == old(categories) && nextCategoryId == old(nextCategoryId)
      ensures name !in old(categories) ==>
        && id == old(nextCategoryId) && id !in old(categories).Values
        && categories == old(categories)[name := id] && nextCategoryId == id + 1
    {
      if name in categories {
        id := categories[name];
      } else {
        id := nextCategoryId;
        InsertCategoryWellFormed(categories, id, name);
        MoreCategoriesWellFormed(products, nextProductId, categories, categories[name := id]);
        categories, nextCategoryId := categories[name := id], id + 1;
      }
    }

    /** The new-product form: validated, then inserted under a fresh id in the named (trimmed) category. */
    method AddProduct(price: Option<int>, quantity: Option<int>, categoryName: string, sellerId: int) returns (r: Option<InputError>)
      requires Valid()
      modifies this`products, this`nextProductId, this`categories, this`nextCategoryId
      ensures Valid()
      ensures r == ValidateInput(price, quantity)
      ensures r.Some? ==>
        && products == old(products) && nextProductId == old(nextProductId)
        && categories == old(categories) && nextCategoryId == old(nextCategoryId)
      ensures r.None? ==>
        && Strip(categoryName) in categories
        && products == old(products)[old(nextProductId) := Product(categories[Strip(categoryName)], sellerId, price.value, quantity.value)]
        && old(nextProductId) !in old(products)
        && nextProductId == old(nextProductId) + 1
      ensures r.None? && Strip(categoryName) in old(categories) ==>
        categories == old(categories) && nextCategoryId == old(nextCategoryId)
      ensures r.None? && Strip(categoryName) !in old(categories) ==>
        && categories == old(categories)[Strip(categoryName) := old(nextCategoryId)]
        && nextCategoryId == old(nextCategoryId) + 1
    {
      r := ValidateInput(price, quantity);
      if r.None? {
        var categoryId := GetOrCreateCategory(Strip(categoryName));
        var row := Product(categoryId, sellerId, price.value, quantity.value);
        PutProductWellFormed(products, nextProductId, nextProductId + 1, categories, nextProductId, row);
        products := products[nextProductId := row];
        nextProductId := nextProductId + 1;
      }
    }

    /** The edit-product form: validated, then the row's category, price and quantity are overwritten; a missing row is not updated. */
    method SaveChanges(productId: int, price: Option<int>, quantity: Option<int>, categoryName: string) returns (r: Option<InputError>)
      requires Valid()
      modifies this`products, this`categories, this`nextCategoryId
      ensures Valid()
      ensures r == ValidateInput(price, quantity)
      ensures r.Some? ==>
        products == old(products) && categories == old(categories) && nextCategoryId == old(nextCategoryId)
      ensures r.None? ==> Strip(categoryName) in categories
      ensures r.None? && Strip(categoryName) in old(categories) ==>
        categories == old(categories) && nextCategoryId == old(nextCategoryId)
      ensures r.None? && Strip(categoryName) !in old(categories) ==>
        && categories == old(categories)[Strip(categoryName) := old(nextCategoryId)]
        && nextCategoryId == old(nextCategoryId) + 1
      ensures r.None? && productId in old(products) ==>
        products == old(products)[productId :=
             old(products)[productId].(categoryId := categories[Strip(categoryName)], price := price.value, quantity := quantity.value)]
      ensures r.None? && productId !in old(products) ==> products == old(products)
    {
      r := ValidateInput(price, quantity);
      if r.None? {
        var categoryId := GetOrCreateCategory(Strip(categoryName));
        if productId in products {
          var row := products[productId].(categoryId := categoryId, price := price.value, quantity := quantity.value);
          PutProductWellFormed(products, nextProductId, nextProductId, categories, productId, row);
          products := products[productId := row];
        }
      }
    }
  }

  class ShoppingCart {
    const userId: int
    var items: seq<CartLine>

    /** Every line asks for a positive quantity. */
    ghost predicate Valid()
      reads this
    {
      forall l :: l in items ==> l.quantity > 0
    }

    constructor (userId: int)
      ensures Valid() && this.userId == userId && items == []
    {
      this.userId := userId;
      items := [];
    }

    /** Appends one line; the quantity comes from a spin box limited to 1..stock. */
    method AddItem(productId: int, quantity: int)
      requires Valid() && quantity > 0
      modifies this`items
      ensures Valid()
      ensures items == old(items) + [CartLine(productId, quantity)]
    {
      items := items + [CartLine(productId, quantity)];
    }

    /** Drops every line for `productId`. */
    method RemoveItem(productId: int)
      requires Valid()
      modifies this`items
      ensures Valid()
      ensures items == Without(old(items), productId)
    {
      items := Without(items, productId);
    }

    method ClearCart()
      modifies this`items
      ensures Valid() && items == []
    {
      items := [];
    }

    /** The current price of a product, through the pricing rule at instant `t`. */
    method GetProductPrice(db: Database, productId: int, t: int) returns (price: int)
      requires productId in db.products
      ensures price == EffectivePrice(db.products, db.promotions, db.links, productId, t)
      ensures price == DiscountedPrice(db.products[productId].price, MaxDiscountForProduct(db.promotions, db.links, productId, t))
    {
      price := EffectivePrice(db.products, db.promotions, db.links, productId, t);
    }

    /** The cart's total at instant `t`, accumulated line by line. */
    method GetTotalAmount(db: Database, t: int) returns (total: int)
      requires InCatalog(items, db.products)
      ensures total == CartTotal(db.products, db.promotions, db.links, items, t)
    {
      total := 0;
      var i := 0;
      while i < |items|
        invariant 0 <= i <= |items|
        invariant InCatalog(items[..i], db.products)
        invariant total == CartTotal(db.products, db.promotions, db.links, items[..i], t)
      {
        var line := items[i];
        assert line in items;
        var price := GetProductPrice(db, line.productId, t);
        CartTotalStep(db.products, db.promotions, db.links, items, i, t);
        total := total + price * line.quantity;
        i := i + 1;
      }
      assert items[..i] == items;
    }

    /**
     * The body of the checkout transaction: the lines are settled in order
     * against a working copy of the stock, each re-read after the earlier
     * lines' decrements, and the new sale rows are collected. Nothing is
     * written to the store. A line that asks for more than the stock left
     * raises, which discards the working copies.
     */
    method Transact(db: Database, t: int) returns (s: Settlement)
      requires InCatalog(items, db.products)
      ensures s == Settle(db.products, db.promotions, db.links, userId, items, t)
    {
      var stock := db.products;       // the transaction's view of `products`
      var recorded: seq<Sale> := [];  // the transaction's new `sales` rows
      var i := 0;
      while i < |items|
        invariant 0 <= i <= |items|
        invariant SamePrices(stock, db.products) && InCatalog(items[i..], stock)
        invariant Settle(db.products, db.promotions, db.links, userId, items, t)
               == Extend(recorded, Settle(stock, db.promotions, db.links, userId, items[i..], t))
      {
        var line := items[i];
        SettleStep(stock, db.promotions, db.links, userId, items, i, t);
        var available := stock[line.productId].quantity;
        if available < line.quantity {
          return Failed(InsufficientStock(line.productId, available, line.quantity));
        }
        var promo := FindApplicablePromotion(db.promotions, db.links, line.productId, t);
        var promoId := if promo.Some? then Some(promo.value.id) else None;
        var price := GetProductPrice(db, line.productId, t);
        var sale := Sale(line.productId, userId, price, line.quantity, promoId, t);
        SaleForSamePrices(stock, db.products, db.promotions, db.links, userId, line, t);
        assert sale == SaleFor(stock, db.promotions, db.links, userId, line, t);
        ExtendExtend(recorded, [sale], Settle(Decrement(stock, line), db.promotions, db.links, userId, items[i + 1..], t));
        recorded := recorded + [sale];
        stock := Decrement(stock, line);
        i := i + 1;
      }
      assert items[i..] == [];
      s := Settled(stock, recorded);
    }

    /**
     * Settles the cart at instant `t`: either every line's sale is recorded
     * and its stock decremented, and the cart is cleared after the commit,
     * or, on a shortfall, the store and the cart stay as they were.
     */
    method Checkout(db: Database, t: int) returns (r: Option<CheckoutError>)
      requires Valid() && db.Valid() && InCatalog(items, db.products)
      modifies this`items, db`products, db`sales
      ensures Valid() && db.Valid()
      ensures var s := Settle(old(db.products), db.promotions, db.links, userId, old(items), t);
        if s.Settled? then
          r.None? && db.products == s.stock && db.sales == old(db.sales) + s.sales && items == []
        else
          r == Some(s.error) && db.products == old(db.products) && db.sales == old(db.sales) && items == old(items)
    {
      var s := Transact(db, t);
      if s.Failed? {
        return Some(s.error);
      }
      SettlePreservesCatalog(db.products, db.promotions, db.links, userId, items, t);
      db.products := s.stock;           // commit
      db.sales := db.sales + s.sales;
      items := [];                      // clear_cart, after the commit
      r := None;
    }
  }
}

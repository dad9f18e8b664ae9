/**
 * What a shopping cart means: the lines it holds, their total at an
 * instant, and what settling them against the catalog produces.
 *
 * `Settle` processes the lines in cart order against a working copy of
 * the catalog, exactly as the uncommitted transaction of a checkout sees
 * it: each line re-reads the stock left by the lines before it, so two
 * lines for one product are checked cumulatively. A line whose quantity
 * exceeds that stock stops the whole settlement.
 */
module Settlement {
  import opened Tables
  import opened Pricing

  // ---------------------------------------------------------------------
  // Quantities and the cart filter
  // ---------------------------------------------------------------------

  /** The total quantity the lines ask for `productId`. */
  function QtyFor(lines: seq<CartLine>, productId: int): int
  {
    if lines == [] then 0
    else (if lines[0].productId == productId then lines[0].quantity else 0) + QtyFor(lines[1..], productId)
  }

  /** Some line asks for `productId`. */
  predicate Mentions(lines: seq<CartLine>, productId: int)
  {
    exists l :: l in lines && l.productId == productId
  }

  lemma {:induction false} QtyForAppend(a: seq<CartLine>, b: seq<CartLine>, productId: int)
    ensures QtyFor(a + b, productId) == QtyFor(a, productId) + QtyFor(b, productId)
  {
    if a == [] {
      assert a + b == b;
    } else {
      assert (a + b)[1..] == a[1..] + b;
      QtyForAppend(a[1..], b, productId);
    }
  }

  lemma {:induction false} QtyForUnmentioned(lines: seq<CartLine>, productId: int)
    requires !Mentions(lines, productId)
    ensures QtyFor(lines, productId) == 0
  {
    if lines != [] {
      assert lines[0] in lines;
      assert !Mentions(lines[1..], productId) by {
        forall l | l in lines[1..] ensures l.productId != productId {
          assert l in lines;
        }
      }
      QtyForUnmentioned(lines[1..], productId);
    }
  }

  /**
   * The cart after dropping every line for `productId`. Every other
   * product keeps all its lines; nothing is added.
   */
  function Without(lines: seq<CartLine>, productId: int): (r: seq<CartLine>)
    ensures forall l :: l in r ==> l in lines && l.productId != productId
    ensures !Mentions(r, productId) && QtyFor(r, productId) == 0
    ensures forall q :: q != productId ==> QtyFor(r, q) == QtyFor(lines, q)
    ensures !Mentions(lines, productId) ==> r == lines
  {
    if lines == [] then []
    else
      var rest := Without(lines[1..], productId);
      assert forall l :: l in lines[1..] ==> l in lines;
      if lines[0].productId == productId then rest else [lines[0]] + rest
  }

  /** Filtering distributes over concatenation, so the kept lines stay in their order. */
  lemma {:induction false} WithoutAppend(a: seq<CartLine>, b: seq<CartLine>, productId: int)
    ensures Without(a + b, productId) == Without(a, productId) + Without(b, productId)
  {
    if a == [] {
      assert a + b == b;
    } else {
      assert (a + b)[1..] == a[1..] + b;
      WithoutAppend(a[1..], b, productId);
    }
  }

  /** Removing a product twice is removing it once. */
  lemma WithoutIdempotent(lines: seq<CartLine>, productId: int)
    ensures Without(Without(lines, productId), productId) == Without(lines, productId)
  {
  }

  /** Removing two products in either order gives the same cart. */
  lemma {:induction false} WithoutCommutes(lines: seq<CartLine>, p: int, q: int)
    ensures Without(Without(lines, p), q) == Without(Without(lines, q), p)
  {
    if lines != [] {
      WithoutCommutes(lines[1..], p, q);
      var h := [lines[0]];
      assert lines == h + lines[1..];
      WithoutAppend(h, lines[1..], p);
      WithoutAppend(h, lines[1..], q);
      WithoutAppend(Without(h, p), Without(lines[1..], p), q);
      WithoutAppend(Without(h, q), Without(lines[1..], q), p);
    }
  }

  // ---------------------------------------------------------------------
  // The cart total
  // ---------------------------------------------------------------------

  /** The amount one line costs at instant `t`, in hundredths of a cent. */
  function LineAmount(products: map<int, Product>, promos: seq<Promotion>, links: set<Link>, line: CartLine, t: int): int
    requires line.productId in products
  {
    EffectivePrice(products, promos, links, line.productId, t) * line.quantity
  }

  /** The sum over the lines of effective price times quantity. */
  function CartTotal(products: map<int, Product>, promos: seq<Promotion>, links: set<Link>, lines: seq<CartLine>, t: int): (r: int)
    requires InCatalog(lines, products)
    ensures lines == [] ==> r == 0
  {
    if lines == [] then 0
    else
      assert forall l :: l in lines[..|lines| - 1] ==> l in lines;
      CartTotal(products, promos, links, lines[..|lines| - 1], t) + LineAmount(products, promos, links, lines[|lines| - 1], t)
  }

  lemma {:induction false} CartTotalAppend(products: map<int, Product>, promos: seq<Promotion>, links: set<Link>, a: seq<CartLine>, b: seq<CartLine>, t: int)
    requires InCatalog(a + b, products)
    ensures InCatalog(a, products) && InCatalog(b, products)
    ensures CartTotal(products, promos, links, a + b, t)
         == CartTotal(products, promos, links, a, t) + CartTotal(products, promos, links, b, t)
  {
    assert forall l :: l in a ==> l in a + b;
    assert forall l :: l in b ==> l in a + b;
    if b == [] {
      assert a + b == a;
    } else {
      var b' := b[..|b| - 1];
      assert (a + b)[..|a + b| - 1] == a + b';
      assert forall l :: l in a + b' ==> l in a + b;
      CartTotalAppend(products, promos, links, a, b', t);
    }
  }

  /** One more line of the cart adds that line's amount to the running total. */
  lemma {:induction false} CartTotalStep(products: map<int, Product>, promos: seq<Promotion>, links: set<Link>, lines: seq<CartLine>, i: int, t: int)
    requires InCatalog(lines, products) && 0 <= i < |lines|
    ensures InCatalog(lines[..i], products) && InCatalog(lines[..i + 1], products)
    ensures CartTotal(products, promos, links, lines[..i + 1], t)
         == CartTotal(products, promos, links, lines[..i], t) + LineAmount(products, promos, links, lines[i], t)
  {
    assert forall l :: l in lines[..i + 1] ==> l in lines;
    assert forall l :: l in lines[..i] ==> l in lines;
    assert lines[..i + 1][..i] == lines[..i];
  }

  lemma MulPositive(a: int, b: int)
    requires a > 0 && b > 0
    ensures a * b > 0
  {
  }

  /** Under positive base prices, in-range discounts and positive quantities, a total is positive unless the cart is empty. */
  lemma {:induction false} CartTotalPositive(products: map<int, Product>, promos: seq<Promotion>, links: set<Link>, lines: seq<CartLine>, t: int)
    requires InCatalog(lines, products) && DiscountsInRange(promos)
    requires forall pid :: pid in products ==> products[pid].price > 0
    requires forall l :: l in lines ==> l.quantity > 0
    ensures lines == [] ==> CartTotal(products, promos, links, lines, t) == 0
    ensures lines != [] ==> CartTotal(products, promos, links, lines, t) > 0
  {
    if lines != [] {
      var init := lines[..|lines| - 1];
      var last := lines[|lines| - 1];
      assert forall l :: l in init ==> l in lines;
      CartTotalPositive(products, promos, links, init, t);
      var price := EffectivePrice(products, promos, links, last.productId, t);
      MulPositive(price, last.quantity);
      assert LineAmount(products, promos, links, last, t) > 0;
    }
  }

  /** The arithmetic step of `CartTotalWithout`: the last line either goes with the product removed or stays in the cart. */
  lemma Regroup(total: int, totalInit: int, amount: int, wTotal: int, wInit: int, wLast: int, price: int, q: int, qInit: int, qLast: int)
    requires total == totalInit + amount && totalInit == wInit + price * qInit && wTotal == wInit + wLast
    requires (wLast == 0 && amount == price * qLast) || (wLast == amount && qLast == 0)
    requires q == qInit + qLast
    ensures total == wTotal + price * q
  {
    assert price * (qInit + qLast) == price * qInit + price * qLast;
  }

  /** Removing a product from a one-line cart. */
  lemma WithoutSingle(line: CartLine, productId: int)
    ensures line.productId == productId ==> Without([line], productId) == [] && QtyFor([line], productId) == line.quantity
    ensures line.productId != productId ==> Without([line], productId) == [line] && QtyFor([line], productId) == 0
  {
    assert [line][1..] == [];
  }

  lemma {:induction false} CartTotalSingle(products: map<int, Product>, promos: seq<Promotion>, links: set<Link>, line: CartLine, t: int)
    requires line.productId in products
    ensures InCatalog([line], products)
    ensures CartTotal(products, promos, links, [line], t) == LineAmount(products, promos, links, line, t)
  {
    assert [line][..0] == [];
  }

  /** Removing a product takes exactly its price times its requested quantity off the total. */
  lemma {:induction false} CartTotalWithout(products: map<int, Product>, promos: seq<Promotion>, links: set<Link>, lines: seq<CartLine>, productId: int, t: int)
    requires InCatalog(lines, products) && productId in products
    ensures InCatalog(Without(lines, productId), products)
    ensures CartTotal(products, promos, links, lines, t)
         == CartTotal(products, promos, links, Without(lines, productId), t)
          + EffectivePrice(products, promos, links, productId, t) * QtyFor(lines, productId)
  {
    if lines == [] {
      assert Without(lines, productId) == [] && QtyFor(lines, productId) == 0;
    } else {
      var init := lines[..|lines| - 1];
      var last := lines[|lines| - 1];
      assert lines == init + [last];
      assert forall l :: l in init ==> l in lines;
      assert last in lines;
      var price := EffectivePrice(products, promos, links, productId, t);
      CartTotalWithout(products, promos, links, init, productId, t);
      WithoutAppend(init, [last], productId);
      QtyForAppend(init, [last], productId);
      WithoutSingle(last, productId);
      CartTotalSingle(products, promos, links, last, t);
      var wInit := Without(init, productId);
      var wLast := Without([last], productId);
      CartTotalAppend(products, promos, links, wInit, wLast, t);
      var amount := LineAmount(products, promos, links, last, t);
      assert Without(lines, productId) == wInit + wLast;
      Regroup(CartTotal(products, promos, links, lines, t), CartTotal(products, promos, links, init, t), amount,
              CartTotal(products, promos, links, Without(lines, productId), t), CartTotal(products, promos, links, wInit, t),
              CartTotal(products, promos, links, wLast, t), price,
              QtyFor(lines, productId), QtyFor(init, productId), QtyFor([last], productId));
    }
  }

  // ---------------------------------------------------------------------
  // Settlement
  // ---------------------------------------------------------------------

  /** The failure of a checkout: a line asks for more than the stock left for it. */
  datatype CheckoutError = InsufficientStock(productId: int, available: int, requested: int)

  /** The effect of settling a cart: the new catalog and the sales, in line order, or the error. */
  datatype Settlement = Settled(stock: map<int, Product>, sales: seq<Sale>) | Failed(error: CheckoutError)

  /** Two catalogs with the same products at the same base prices. */
  predicate SamePrices(a: map<int, Product>, b: map<int, Product>)
  {
    a.Keys == b.Keys && forall pid :: pid in a ==> a[pid].price == b[pid].price
  }

  /**
   * I1: the sale's unit price is the base price reduced by the discount of
   * the promotion it records, that promotion being a maximal one applicable
   * to the product at the sale's instant; with no promotion recorded, none
   * applied and the price is the base price.
   */
  predicate PricedByRecordedPromotion(s: Sale, products: map<int, Product>, promos: seq<Promotion>, links: set<Link>)
    requires s.productId in products
  {
    var base := products[s.productId].price;
    match s.appliedPromotion
    case Some(id) =>
      exists p :: p in promos && p.id == id && Applies(p, links, s.productId, s.saleDate)
        && (forall q :: q in promos && Applies(q, links, s.productId, s.saleDate) ==> q.discount <= p.discount)
        && s.salePrice == DiscountedPrice(base, p.discount)
    case None =>
      (forall q :: q in promos ==> !Applies(q, links, s.productId, s.saleDate))
        && s.salePrice == 100 * base
  }

  /** The sale a checkout records for one line at instant `t`. */
  function SaleFor(products: map<int, Product>, promos: seq<Promotion>, links: set<Link>, buyer: int, line: CartLine, t: int): (s: Sale)
    requires line.productId in products
    ensures s.productId == line.productId && s.buyerId == buyer && s.soldQuantity == line.quantity && s.saleDate == t
    ensures PricedByRecordedPromotion(s, products, promos, links)
  {
    var promo := FindApplicablePromotion(promos, links, line.productId, t);
    Sale(line.productId, buyer, EffectivePrice(products, promos, links, line.productId, t), line.quantity,
         if promo.Some? then Some(promo.value.id) else None, t)
  }

  /**
   * The sale as the checkout loop builds it: the promotion id comes from a
   * lookup at the clock reading `tPromo`, the price from a second lookup at
   * a later reading `tPrice`, and the row is stamped by the column default
   * at a third reading `tDate`, taken when the row is inserted.
   */
  function SaleAsWritten(products: map<int, Product>, promos: seq<Promotion>, links: set<Link>, buyer: int, line: CartLine, tPromo: int, tPrice: int, tDate: int): (s: Sale)
    requires line.productId in products
    ensures tPromo == tPrice == tDate ==> s == SaleFor(products, promos, links, buyer, line, tPrice)
  {
    var promo := FindApplicablePromotion(promos, links, line.productId, tPromo);
    Sale(line.productId, buyer, EffectivePrice(products, promos, links, line.productId, tPrice), line.quantity,
         if promo.Some? then Some(promo.value.id) else None, tDate)
  }

  /** A sale depends on the catalog only through the product's base price. */
  lemma SaleForSamePrices(a: map<int, Product>, b: map<int, Product>, promos: seq<Promotion>, links: set<Link>, buyer: int, line: CartLine, t: int)
    requires SamePrices(a, b) && line.productId in a
    ensures SaleFor(a, promos, links, buyer, line, t) == SaleFor(b, promos, links, buyer, line, t)
  {
  }

  /** `recorded` followed by the sales of `r`. */
  function Extend(recorded: seq<Sale>, r: Settlement): Settlement
  {
    match r
    case Settled(stock, sales) => Settled(stock, recorded + sales)
    case Failed(e) => r
  }

  /** Settles `lines` in order against `stock` at instant `t` for `buyer`. */
  function Settle(stock: map<int, Product>, promos: seq<Promotion>, links: set<Link>, buyer: int, lines: seq<CartLine>, t: int): (r: Settlement)
    requires InCatalog(lines, stock)
    ensures r.Settled? ==> r.stock.Keys == stock.Keys
  {
    if lines == [] then Settled(stock, [])
    else
      var line := lines[0];
      var available := stock[line.productId].quantity;
      if available < line.quantity then Failed(InsufficientStock(line.productId, available, line.quantity))
      else
        var sale := SaleFor(stock, promos, links, buyer, line, t);
        var stock' := Decrement(stock, line);
        assert forall l :: l in lines[1..] ==> l in lines;
        Extend([sale], Settle(stock', promos, links, buyer, lines[1..], t))
  }

  /** The catalog after line `line` takes its quantity out of stock. */
  function Decrement(stock: map<int, Product>, line: CartLine): (r: map<int, Product>)
    requires line.productId in stock
    ensures r.Keys == stock.Keys
    ensures r[line.productId] == stock[line.productId].(quantity := stock[line.productId].quantity - line.quantity)
    ensures forall pid :: pid in stock && pid != line.productId ==> r[pid] == stock[pid]
  {
    stock[line.productId := stock[line.productId].(quantity := stock[line.productId].quantity - line.quantity)]
  }

  /** One step of settlement from line `i` on: fail on a shortfall, else record the sale and go on with the decremented stock. */
  lemma {:induction false} SettleStep(stock: map<int, Product>, promos: seq<Promotion>, links: set<Link>, buyer: int, lines: seq<CartLine>, i: int, t: int)
    requires 0 <= i < |lines| && InCatalog(lines[i..], stock)
    ensures lines[i] in lines[i..] && lines[i].productId in stock
    ensures InCatalog(lines[i + 1..], Decrement(stock, lines[i]))
    ensures var line := lines[i];
      Settle(stock, promos, links, buyer, lines[i..], t)
      == if stock[line.productId].quantity < line.quantity
         then Failed(InsufficientStock(line.productId, stock[line.productId].quantity, line.quantity))
         else Extend([SaleFor(stock, promos, links, buyer, line, t)], Settle(Decrement(stock, line), promos, links, buyer, lines[i + 1..], t))
  {
    assert lines[i..][0] == lines[i] && lines[i..][1..] == lines[i + 1..];
    assert forall l :: l in lines[i + 1..] ==> l in lines[i..];
  }

  /** A settlement that succeeds took its first line out of stock and settled the rest against what was left. */
  lemma {:induction false} SettleUnfold(stock: map<int, Product>, promos: seq<Promotion>, links: set<Link>, buyer: int, lines: seq<CartLine>, t: int)
    requires lines != [] && InCatalog(lines, stock)
    requires Settle(stock, promos, links, buyer, lines, t).Settled?
    ensures lines[0].productId in stock && lines[0].quantity <= stock[lines[0].productId].quantity
    ensures InCatalog(lines[1..], Decrement(stock, lines[0]))
    ensures Settle(Decrement(stock, lines[0]), promos, links, buyer, lines[1..], t).Settled?
    ensures Settle(stock, promos, links, buyer, lines, t)
         == Extend([SaleFor(stock, promos, links, buyer, lines[0], t)], Settle(Decrement(stock, lines[0]), promos, links, buyer, lines[1..], t))
  {
    SettleStep(stock, promos, links, buyer, lines, 0, t);
    assert lines[0..] == lines;
  }

  lemma ExtendExtend(a: seq<Sale>, b: seq<Sale>, r: Settlement)
    ensures Extend(a, Extend(b, r)) == Extend(a + b, r)
  {
  }

  /** On success every product's stock drops by the quantity its lines asked for; nothing else about it changes. */
  lemma {:induction false} SettleStock(stock: map<int, Product>, promos: seq<Promotion>, links: set<Link>, buyer: int, lines: seq<CartLine>, t: int)
    requires InCatalog(lines, stock)
    requires Settle(stock, promos, links, buyer, lines, t).Settled?
    ensures var r := Settle(stock, promos, links, buyer, lines, t);
      forall pid :: pid in stock ==>
        r.stock[pid] == stock[pid].(quantity := stock[pid].quantity - QtyFor(lines, pid))
  {
    if lines != [] {
      var line := lines[0];
      var available := stock[line.productId].quantity;
      var stock' := Decrement(stock, line);
      assert forall l :: l in lines[1..] ==> l in lines;
      SettleStock(stock', promos, links, buyer, lines[1..], t);
    }
  }

  /** On success, every product some line asked for is left with a non-negative stock. */
  lemma {:induction false} SettleLeavesNoNegativeStock(stock: map<int, Product>, promos: seq<Promotion>, links: set<Link>, buyer: int, lines: seq<CartLine>, t: int)
    requires InCatalog(lines, stock)
    requires Settle(stock, promos, links, buyer, lines, t).Settled?
    ensures var r := Settle(stock, promos, links, buyer, lines, t);
      forall pid :: pid in stock && Mentions(lines, pid) ==> r.stock[pid].quantity >= 0
  {
    if lines != [] {
      var line := lines[0];
      var rest := lines[1..];
      var stock' := Decrement(stock, line);
      SettleUnfold(stock, promos, links, buyer, lines, t);
      SettleLeavesNoNegativeStock(stock', promos, links, buyer, rest, t);
      SettleStock(stock', promos, links, buyer, rest, t);
      var r' := Settle(stock', promos, links, buyer, rest, t);
      forall pid | pid in stock && Mentions(lines, pid) ensures r'.stock[pid].quantity >= 0 {
        if !Mentions(rest, pid) {
          QtyForUnmentioned(rest, pid);
          var l :| l in lines && l.productId == pid;
          if l != line {
            assert l in rest;
          }
        }
      }
    }
  }

  /** The catalog invariant of the store: base prices are positive and stock is never negative. */
  predicate CatalogValid(products: map<int, Product>)
  {
    forall pid :: pid in products ==> products[pid].price > 0 && products[pid].quantity >= 0
  }

  /** Two catalogs with the same rows except possibly for the stock. */
  predicate SameExceptQuantity(a: map<int, Product>, b: map<int, Product>)
  {
    a.Keys == b.Keys && forall pid :: pid in a ==> a[pid] == b[pid].(quantity := a[pid].quantity)
  }

  /** Settling keeps the catalog invariant and every column but the stock. */
  lemma {:induction false} SettlePreservesCatalog(stock: map<int, Product>, promos: seq<Promotion>, links: set<Link>, buyer: int, lines: seq<CartLine>, t: int)
    requires InCatalog(lines, stock) && CatalogValid(stock)
    requires Settle(stock, promos, links, buyer, lines, t).Settled?
    ensures var r := Settle(stock, promos, links, buyer, lines, t);
      CatalogValid(r.stock) && SameExceptQuantity(r.stock, stock) && SamePrices(r.stock, stock)
  {
    SettleStock(stock, promos, links, buyer, lines, t);
    SettleLeavesNoNegativeStock(stock, promos, links, buyer, lines, t);
    var r := Settle(stock, promos, links, buyer, lines, t);
    forall pid | pid in r.stock ensures r.stock[pid].quantity >= 0 {
      if !Mentions(lines, pid) {
        QtyForUnmentioned(lines, pid);
      }
    }
  }

  /** On success there is one sale per line, in cart order, each the sale of that line priced against the original catalog. */
  lemma {:induction false} SettleSales(stock: map<int, Product>, promos: seq<Promotion>, links: set<Link>, buyer: int, lines: seq<CartLine>, t: int)
    requires InCatalog(lines, stock)
    requires Settle(stock, promos, links, buyer, lines, t).Settled?
    ensures var r := Settle(stock, promos, links, buyer, lines, t);
      |r.sales| == |lines| &&
      forall i :: 0 <= i < |lines| ==> r.sales[i] == SaleFor(stock, promos, links, buyer, lines[i], t)
  {
    if lines != [] {
      var rest := lines[1..];
      var stock' := Decrement(stock, lines[0]);
      SettleUnfold(stock, promos, links, buyer, lines, t);
      SettleSales(stock', promos, links, buyer, rest, t);
      var r' := Settle(stock', promos, links, buyer, rest, t);
      var sales := [SaleFor(stock, promos, links, buyer, lines[0], t)] + r'.sales;
      assert Settle(stock, promos, links, buyer, lines, t).sales == sales;
      forall i | 1 <= i < |lines| ensures sales[i] == SaleFor(stock, promos, links, buyer, lines[i], t) {
        assert lines[i] == rest[i - 1] && sales[i] == r'.sales[i - 1];
        SaleForSamePrices(stock', stock, promos, links, buyer, lines[i], t);
      }
    }
  }

  /** Every sale of a successful settlement is priced by the promotion it records (I1). */
  lemma {:induction false} SettledSalesPriced(stock: map<int, Product>, promos: seq<Promotion>, links: set<Link>, buyer: int, lines: seq<CartLine>, t: int)
    requires InCatalog(lines, stock)
    requires Settle(stock, promos, links, buyer, lines, t).Settled?
    ensures var r := Settle(stock, promos, links, buyer, lines, t);
      forall s :: s in r.sales ==>
        s.productId in stock && s.buyerId == buyer && s.saleDate == t && PricedByRecordedPromotion(s, stock, promos, links)
  {
    SettleSales(stock, promos, links, buyer, lines, t);
  }

  /** The quantity the sales record as sold for `productId`. */
  function SoldFor(sales: seq<Sale>, productId: int): int
  {
    if sales == [] then 0
    else (if sales[0].productId == productId then sales[0].soldQuantity else 0) + SoldFor(sales[1..], productId)
  }

  /** Conservation: on success each product's stock drops by exactly the quantity the new sales record for it. */
  lemma {:induction false} SettleConservesStock(stock: map<int, Product>, promos: seq<Promotion>, links: set<Link>, buyer: int, lines: seq<CartLine>, t: int)
    requires InCatalog(lines, stock)
    requires Settle(stock, promos, links, buyer, lines, t).Settled?
    ensures var r := Settle(stock, promos, links, buyer, lines, t);
      forall pid :: pid in stock ==> stock[pid].quantity - r.stock[pid].quantity == SoldFor(r.sales, pid)
  {
    SettleStock(stock, promos, links, buyer, lines, t);
    SoldForLines(stock, promos, links, buyer, lines, t);
  }

  lemma {:induction false} SoldForLines(stock: map<int, Product>, promos: seq<Promotion>, links: set<Link>, buyer: int, lines: seq<CartLine>, t: int)
    requires InCatalog(lines, stock)
    requires Settle(stock, promos, links, buyer, lines, t).Settled?
    ensures var r := Settle(stock, promos, links, buyer, lines, t);
      forall pid :: SoldFor(r.sales, pid) == QtyFor(lines, pid)
  {
    if lines != [] {
      var line := lines[0];
      var available := stock[line.productId].quantity;
      var stock' := Decrement(stock, line);
      var rest := lines[1..];
      assert forall l :: l in rest ==> l in lines;
      SoldForLines(stock', promos, links, buyer, rest, t);
      var r := Settle(stock, promos, links, buyer, lines, t);
      assert r.sales[1..] == Settle(stock', promos, links, buyer, rest, t).sales;
    }
  }

  /**
   * Line `k` fits: its quantity is at most the stock left for its product
   * after the lines before it.
   */
  predicate LineFits(stock: map<int, Product>, lines: seq<CartLine>, k: int)
    requires 0 <= k < |lines| && InCatalog(lines, stock)
  {
    var pid := lines[k].productId;
    assert lines[k] in lines;
    lines[k].quantity <= stock[pid].quantity - QtyFor(lines[..k], pid)
  }

  lemma {:induction false} LineFitsShift(stock: map<int, Product>, lines: seq<CartLine>, k: int)
    requires 0 <= k < |lines| - 1 && InCatalog(lines, stock)
    ensures var line := lines[0];
      var stock' := stock[line.productId := stock[line.productId].(quantity := stock[line.productId].quantity - line.quantity)];
      InCatalog(lines[1..], stock') &&
      (LineFits(stock', lines[1..], k) <==> LineFits(stock, lines, k + 1))
  {
    assert forall l :: l in lines[1..] ==> l in lines;
    assert lines[..k + 1] == [lines[0]] + lines[1..][..k];
    assert ([lines[0]] + lines[1..][..k])[1..] == lines[1..][..k];
  }

  /** Every line fits the stock its earlier lines leave. */
  predicate AllFit(stock: map<int, Product>, lines: seq<CartLine>)
    requires InCatalog(lines, stock)
  {
    forall k :: 0 <= k < |lines| ==> LineFits(stock, lines, k)
  }

  lemma {:induction false} AllFitShift(stock: map<int, Product>, lines: seq<CartLine>)
    requires |lines| > 0 && InCatalog(lines, stock) && LineFits(stock, lines, 0)
    ensures var line := lines[0];
      var stock' := stock[line.productId := stock[line.productId].(quantity := stock[line.productId].quantity - line.quantity)];
      InCatalog(lines[1..], stock') &&
      (AllFit(stock', lines[1..]) <==> AllFit(stock, lines))
  {
    var line := lines[0];
    var stock' := stock[line.productId := stock[line.productId].(quantity := stock[line.productId].quantity - line.quantity)];
    var rest := lines[1..];
    assert forall l :: l in rest ==> l in lines;
    forall k | 0 <= k < |rest| ensures LineFits(stock', rest, k) <==> LineFits(stock, lines, k + 1) {
      LineFitsShift(stock, lines, k);
    }
    if AllFit(stock', rest) {
      forall k | 0 <= k < |lines| ensures LineFits(stock, lines, k) {
        if k > 0 { assert LineFits(stock', rest, k - 1); }
      }
    }
  }

  /** A checkout succeeds exactly when every line fits the stock its earlier lines leave. */
  lemma {:induction false} SettleSucceedsIff(stock: map<int, Product>, promos: seq<Promotion>, links: set<Link>, buyer: int, lines: seq<CartLine>, t: int)
    requires InCatalog(lines, stock)
    ensures Settle(stock, promos, links, buyer, lines, t).Settled? <==> AllFit(stock, lines)
  {
    if lines != [] {
      var line := lines[0];
      var available := stock[line.productId].quantity;
      assert LineFits(stock, lines, 0) <==> line.quantity <= available by {
        assert lines[..0] == [];
      }
      if available >= line.quantity {
        var stock' := Decrement(stock, line);
        var rest := lines[1..];
        assert forall l :: l in rest ==> l in lines;
        SettleSucceedsIff(stock', promos, links, buyer, rest, t);
        AllFitShift(stock, lines);
      }
    }
  }

  /** Line `k` is the first line that does not fit. */
  predicate FirstShortfall(stock: map<int, Product>, lines: seq<CartLine>, k: int)
    requires 0 <= k < |lines| && InCatalog(lines, stock)
  {
    !LineFits(stock, lines, k) && forall j :: 0 <= j < k ==> LineFits(stock, lines, j)
  }

  /** The error naming line `k`: its product, the stock left for it, the quantity asked. */
  function ShortfallError(stock: map<int, Product>, lines: seq<CartLine>, k: int): CheckoutError
    requires 0 <= k < |lines| && InCatalog(lines, stock)
  {
    var pid := lines[k].productId;
    assert lines[k] in lines;
    InsufficientStock(pid, stock[pid].quantity - QtyFor(lines[..k], pid), lines[k].quantity)
  }

  lemma {:induction false} FirstShortfallShift(stock: map<int, Product>, lines: seq<CartLine>, k: int)
    requires 0 <= k < |lines| - 1 && InCatalog(lines, stock) && LineFits(stock, lines, 0)
    ensures var line := lines[0];
      var stock' := stock[line.productId := stock[line.productId].(quantity := stock[line.productId].quantity - line.quantity)];
      InCatalog(lines[1..], stock') &&
      (FirstShortfall(stock', lines[1..], k) ==> FirstShortfall(stock, lines, k + 1)) &&
      ShortfallError(stock', lines[1..], k) == ShortfallError(stock, lines, k + 1)
  {
    var line := lines[0];
    var stock' := stock[line.productId := stock[line.productId].(quantity := stock[line.productId].quantity - line.quantity)];
    var rest := lines[1..];
    assert forall l :: l in rest ==> l in lines;
    LineFitsShift(stock, lines, k);
    if FirstShortfall(stock', rest, k) {
      forall j | 0 <= j < k + 1 ensures LineFits(stock, lines, j) {
        if j > 0 { LineFitsShift(stock, lines, j - 1); }
      }
    }
    assert lines[..k + 1] == [lines[0]] + rest[..k];
    assert ([lines[0]] + rest[..k])[1..] == rest[..k];
    assert rest[k] == lines[k + 1];
  }

  /**
   * A failed checkout reports the first line that does not fit: its
   * product, the stock left for it and the quantity it asked for.
   */
  lemma {:induction false} SettleFailureNamesFirstShortfall(stock: map<int, Product>, promos: seq<Promotion>, links: set<Link>, buyer: int, lines: seq<CartLine>, t: int)
    requires InCatalog(lines, stock)
    requires Settle(stock, promos, links, buyer, lines, t).Failed?
    ensures exists k :: (0 <= k < |lines| && FirstShortfall(stock, lines, k)
      && Settle(stock, promos, links, buyer, lines, t).error == ShortfallError(stock, lines, k))
  {
    var line := lines[0];
    var available := stock[line.productId].quantity;
    assert lines[..0] == [];
    if available >= line.quantity {
      var stock' := Decrement(stock, line);
      var rest := lines[1..];
      assert forall l :: l in rest ==> l in lines;
      SettleFailureNamesFirstShortfall(stock', promos, links, buyer, rest, t);
      var k :| 0 <= k < |rest| && FirstShortfall(stock', rest, k)
        && Settle(stock', promos, links, buyer, rest, t).error == ShortfallError(stock', rest, k);
      FirstShortfallShift(stock, lines, k);
      assert Settle(stock, promos, links, buyer, lines, t).error == Settle(stock', promos, links, buyer, rest, t).error;
    } else {
      assert FirstShortfall(stock, lines, 0);
      assert Settle(stock, promos, links, buyer, lines, t).error == ShortfallError(stock, lines, 0);
    }
  }
}

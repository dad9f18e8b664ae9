/**
 * Rows of the marketplace's relational store, held in memory.
 *
 * Instants are integers ordered like the stored "yyyy-MM-dd HH:mm:ss"
 * strings, whose lexical order is their chronological order. Base prices
 * are integer cents.
 */
module Tables {

  datatype Option<T> = None | Some(value: T)

  /** A row of `products`: category, seller, base price in cents, stock. */
  datatype Product = Product(categoryId: int, sellerId: int, price: int, quantity: int)

  /** A row of `promotions`: a discount percentage valid over [validFrom, validTo]. */
  datatype Promotion = Promotion(id: int, name: string, discount: int, validFrom: int, validTo: int)

  /** A row of `promotion_items`: (promotion_id, product_id), the pair being the primary key. */
  type Link = (int, int)

  /**
   * A row of `sales`. `salePrice` is the unit price charged, in hundredths
   * of a cent, so that a discounted price is represented exactly.
   */
  datatype Sale = Sale(
    productId: int,
    buyerId: int,
    salePrice: int,
    soldQuantity: int,
    appliedPromotion: Option<int>,
    saleDate: int)

  /** One entry of a shopping cart: a product and the quantity asked for. */
  datatype CartLine = CartLine(productId: int, quantity: int)

  /** Every line of a cart names a product of the catalog. */
  predicate InCatalog(lines: seq<CartLine>, products: map<int, Product>)
  {
    forall l :: l in lines ==> l.productId in products
  }
}

/**
 * The well-formedness of the store's tables as predicates on their values,
 * with the facts the table updates need about them.
 */
module Store {
  import opened Tables
  import opened Validation
  import opened Settlement

  /** Promotion rows have distinct ids below `nextId`, ordered windows, in-range discounts and non-blank names. */
  predicate PromotionsWellFormed(promos: seq<Promotion>, nextId: int)
  {
    && (forall i :: 0 <= i < |promos| ==> promos[i].id < nextId)
    && (forall i :: 0 <= i < |promos| ==> promos[i].validFrom <= promos[i].validTo)
    && (forall i :: 0 <= i < |promos| ==> 0 <= promos[i].discount < 100 && promos[i].name != [] && !IsWhitespace(promos[i].name[0]))
    && (forall i, j :: 0 <= i < j < |promos| ==> promos[i].id != promos[j].id)
  }

  lemma {:induction false} AppendPromotionWellFormed(promos: seq<Promotion>, nextId: int, row: Promotion)
    requires PromotionsWellFormed(promos, nextId)
    requires row.id == nextId && row.validFrom <= row.validTo && 0 <= row.discount < 100
    requires row.name != [] && !IsWhitespace(row.name[0])
    ensures PromotionsWellFormed(promos + [row], nextId + 1)
  {
    var ps := promos + [row];
    assert forall i :: 0 <= i < |promos| ==> ps[i] == promos[i];
  }

  /** Product rows satisfy the catalog invariant, have ids below `nextId` and name an existing category. */
  predicate ProductsWellFormed(products: map<int, Product>, nextId: int, categories: map<string, int>)
  {
    && CatalogValid(products)
    && (forall pid :: pid in products ==> pid < nextId && products[pid].categoryId in categories.Values)
  }

  lemma PutProductWellFormed(products: map<int, Product>, nextId: int, nextId': int, categories: map<string, int>, pid: int, row: Product)
    requires ProductsWellFormed(products, nextId, categories)
    requires nextId <= nextId' && pid < nextId'
    requires row.price > 0 && row.quantity >= 0 && row.categoryId in categories.Values
    ensures ProductsWellFormed(products[pid := row], nextId', categories)
  {
  }

  /** A product row stays well formed when categories are only added. */
  lemma MoreCategoriesWellFormed(products: map<int, Product>, nextId: int, categories: map<string, int>, categories': map<string, int>)
    requires ProductsWellFormed(products, nextId, categories) && categories.Values <= categories'.Values
    ensures ProductsWellFormed(products, nextId, categories')
  {
  }

  /** Category names map to distinct ids below `nextId`. */
  predicate CategoriesWellFormed(categories: map<string, int>, nextId: int)
  {
    && (forall n :: n in categories ==> categories[n] < nextId)
    && (forall n, m :: n in categories && m in categories && n != m ==> categories[n] != categories[m])
  }

  /** Inserting a new name under the next id keeps the category table well formed and every existing id. */
  lemma {:induction false} InsertCategoryWellFormed(categories: map<string, int>, nextId: int, name: string)
    requires CategoriesWellFormed(categories, nextId) && name !in categories
    ensures CategoriesWellFormed(categories[name := nextId], nextId + 1)
    ensures nextId !in categories.Values
    ensures categories.Values + {nextId} == categories[name := nextId].Values
  {
    var after := categories[name := nextId];
    forall v | v in categories.Values ensures v in after.Values {
      var n :| n in categories && categories[n] == v;
      assert n != name && after[n] == v;
    }
    assert name in after && after[name] == nextId;
  }
}

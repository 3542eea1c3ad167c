/**
 * The product record and its low-stock rule (the `Product` model).
 * Prices are integer cents; `deleted` is the soft-delete marker (`deleted_at` set).
 */
module Inventory {
  import opened Wrappers

  /** The shipped global threshold: `LOW_STOCK_THRESHOLD` when unset in the environment. */
  const DEFAULT_LOW_STOCK_THRESHOLD: int := 5

  datatype Product = Product(
    name: string,
    price: int,
    stock: int,
    lowStockThreshold: Option<int>,
    deleted: bool)

  /**
   * The product's own threshold when it has one, else the configured global one
   * (passed in, since the source reads it from configuration).
   */
  function LowStockThreshold(p: Product, globalThreshold: int): (t: int)
    ensures p.lowStockThreshold.Some? ==> t == p.lowStockThreshold.value
    ensures p.lowStockThreshold.None? ==> t == globalThreshold
  {
    p.lowStockThreshold.GetOr(globalThreshold)
  }

  /** Low on stock: strictly fewer units than the effective threshold. */
  function IsLowStock(p: Product, globalThreshold: int): (low: bool)
    ensures low <==> match p.lowStockThreshold
                     case Some(t) => p.stock < t
                     case None => p.stock < globalThreshold
  {
    p.stock < LowStockThreshold(p, globalThreshold)
  }

  /** Stock at or above the threshold is not low; strictly below it is. */
  lemma LowStockBoundary(p: Product, globalThreshold: int)
    ensures p.stock == LowStockThreshold(p, globalThreshold) ==> !IsLowStock(p, globalThreshold)
    ensures p.stock > LowStockThreshold(p, globalThreshold) ==> !IsLowStock(p, globalThreshold)
    ensures p.stock < LowStockThreshold(p, globalThreshold) ==> IsLowStock(p, globalThreshold)
  {
  }

  /** Selling more keeps a low product low; the rule looks at nothing but stock and threshold. */
  lemma LowStockMonotone(p: Product, fewer: int, globalThreshold: int)
    requires fewer <= p.stock
    ensures IsLowStock(p, globalThreshold) ==> IsLowStock(p.(stock := fewer), globalThreshold)
  {
  }

  /** The unit-test scenarios of the `Product` model, with the global threshold configured to 10. */
  lemma ProductTestScenarios()
    ensures LowStockThreshold(Product("Test", 10, 5, None, false), 10) == 10
    ensures LowStockThreshold(Product("Test", 10, 5, Some(3), false), 10) == 3
    ensures IsLowStock(Product("Test", 10, 3, Some(5), false), DEFAULT_LOW_STOCK_THRESHOLD)
    ensures !IsLowStock(Product("Test", 10, 5, Some(5), false), DEFAULT_LOW_STOCK_THRESHOLD)
    ensures !IsLowStock(Product("Test", 10, 10, Some(5), false), DEFAULT_LOW_STOCK_THRESHOLD)
  {
  }
}

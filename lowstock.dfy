/**
 * The low-stock alert of components/LowStockWarning.tsx: the entries of the
 * stock view below a fixed threshold, and whether the alert is shown at all.
 */
module LowStock {
  import opened Types
  import opened Sequences

  const LowStockThreshold: int := 5

  /** The entries whose quantity is strictly below the threshold, in stock order. */
  function LowStockItems(stock: seq<StockItem>): (r: seq<StockItem>)
    ensures forall i :: 0 <= i < |r| ==> r[i].quantity < LowStockThreshold
  {
    Filter(stock, (item: StockItem) => item.quantity < LowStockThreshold)
  }

  /**
   * The alert renders nothing when the list of low entries is empty, so it is
   * shown exactly when some entry is below the threshold.
   */
  predicate ShowsWarning(stock: seq<StockItem>): (r: bool)
    ensures r <==> exists i :: 0 <= i < |stock| && stock[i].quantity < LowStockThreshold
  {
    SomeLowIffListed(stock);
    |LowStockItems(stock)| != 0
  }

  /** An entry is listed exactly when it is in the stock view with quantity below 5. */
  lemma LowStockMembership(stock: seq<StockItem>, item: StockItem)
    ensures item in LowStockItems(stock) <==> item in stock && item.quantity < LowStockThreshold
  {
    FilterMembership(stock, (e: StockItem) => e.quantity < LowStockThreshold, item);
  }

  /** Each low entry is listed as often as it occurs, and in the order of the stock view. */
  lemma LowStockKeepsOrder(stock: seq<StockItem>)
    ensures IsSubsequence(LowStockItems(stock), stock)
    ensures forall item :: multiset(LowStockItems(stock))[item] ==
                             if item.quantity < LowStockThreshold then multiset(stock)[item] else 0
  {
    var keep := (item: StockItem) => item.quantity < LowStockThreshold;
    FilterIsSubsequence(stock, keep);
    forall item
      ensures multiset(LowStockItems(stock))[item] ==
              if item.quantity < LowStockThreshold then multiset(stock)[item] else 0
    {
      FilterCount(stock, keep, item);
    }
  }

  /** Sold-out and oversold entries (quantity 0 or below) are always reported. */
  lemma NonPositiveIsLow(stock: seq<StockItem>, i: nat)
    requires i < |stock| && stock[i].quantity <= 0
    ensures stock[i] in LowStockItems(stock)
  {
    LowStockMembership(stock, stock[i]);
  }

  /** The list of low entries is empty exactly when no entry is below the threshold. */
  lemma SomeLowIffListed(stock: seq<StockItem>)
    ensures |LowStockItems(stock)| != 0 <==> exists i :: 0 <= i < |stock| && stock[i].quantity < LowStockThreshold
  {
    var low := LowStockItems(stock);
    if |low| != 0 {
      LowStockMembership(stock, low[0]);
      var i :| 0 <= i < |stock| && stock[i] == low[0];
    }
    if exists i :: 0 <= i < |stock| && stock[i].quantity < LowStockThreshold {
      var i :| 0 <= i < |stock| && stock[i].quantity < LowStockThreshold;
      LowStockMembership(stock, stock[i]);
    }
  }
}

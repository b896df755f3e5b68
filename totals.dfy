/**
 * The four dashboard totals of App.tsx (121-148), each a `reduce` over the
 * stock view or the sales ledger, and what they amount to in terms of the
 * ledgers themselves.
 */
module Totals {
  import opened Wrappers
  import opened Types
  import opened StockDeriver

  /** Sum of quantity times average cost over the stock view; never negative while no entry is. */
  function TotalStockValue(stock: seq<StockItem>): (r: real)
    ensures (forall i :: 0 <= i < |stock| ==> stock[i].quantity >= 0 && stock[i].avgPurchasePrice >= 0.0) ==> r >= 0.0
  {
    if stock == [] then 0.0
    else TotalStockValue(stock[..|stock| - 1]) + ItemValue(stock[|stock| - 1])
  }

  /** What one stock entry is worth: its quantity at its average cost. */
  function ItemValue(item: StockItem): (r: real)
    ensures item.quantity >= 0 && item.avgPurchasePrice >= 0.0 ==> r >= 0.0
  {
    ProductSign(item.quantity as real, item.avgPurchasePrice);
    item.quantity as real * item.avgPurchasePrice
  }

  /** Sum of the quantities of the stock view; it bounds every entry's quantity while none is negative. */
  function TotalItemsInStock(stock: seq<StockItem>): (r: int)
    ensures (forall i :: 0 <= i < |stock| ==> stock[i].quantity >= 0) ==>
      r >= 0 && forall i :: 0 <= i < |stock| ==> stock[i].quantity <= r
  {
    if stock == [] then 0
    else TotalItemsInStock(stock[..|stock| - 1]) + stock[|stock| - 1].quantity
  }

  /** The first stock entry whose three part fields equal `part` (structural match, as `find` does). */
  function FindByPart(stock: seq<StockItem>, part: Part): (r: Option<StockItem>)
    ensures r.None? <==> forall i :: 0 <= i < |stock| ==> stock[i].Identity() != part
    ensures r.Some? ==> exists i :: 0 <= i < |stock| && stock[i] == r.value && r.value.Identity() == part
                                    && forall j :: 0 <= j < i ==> stock[j].Identity() != part
  {
    if stock == [] then None
    else if stock[0].Identity() == part then Some(stock[0])
    else
      var r := FindByPart(stock[1..], part);
      assert forall i :: 1 <= i < |stock| ==> stock[i] == stock[1..][i - 1];
      r
  }

  /**
   * Revenue minus average cost of goods, over the sales that find a stock
   * entry. Sales that find none add nothing, and while no sale is priced below
   * the average cost of the entry it finds the profit is not negative.
   */
  function TotalProfit(sales: seq<Sale>, stock: seq<StockItem>): (r: real)
    ensures (forall i :: 0 <= i < |sales| ==> FindByPart(stock, sales[i].Identity()).None?) ==> r == 0.0
    ensures (forall i :: 0 <= i < |sales| ==> NotBelowCost(sales[i], stock)) ==> r >= 0.0
  {
    if sales == [] then 0.0
    else
      var sale := sales[|sales| - 1];
      TotalProfit(sales[..|sales| - 1], stock) + ProfitOfOne(sale, FindByPart(stock, sale.Identity()))
  }

  /** A sale of no negative quantity, priced at least at the average cost of the entry it finds, if any. */
  predicate NotBelowCost(sale: Sale, stock: seq<StockItem>)
  {
    && sale.quantity >= 0
    && var found := FindByPart(stock, sale.Identity());
       found.Some? ==> sale.salePrice >= found.value.avgPurchasePrice
  }

  /** What one sale adds to the profit: nothing when no stock entry was found for it. */
  function ProfitOfOne(sale: Sale, found: Option<StockItem>): (r: real)
    ensures found.None? ==> r == 0.0
    ensures sale.quantity >= 0 && (found.Some? ==> sale.salePrice >= found.value.avgPurchasePrice) ==> r >= 0.0
  {
    match found
    case Some(item) => Margin(sale, item.avgPurchasePrice)
    case None => 0.0
  }

  /** Revenue of a sale minus its units at the given unit cost. */
  function Margin(sale: Sale, unitCost: real): (r: real)
    ensures r == (sale.salePrice - unitCost) * sale.quantity as real
  {
    var costOfGoods := unitCost * sale.quantity as real;
    var revenue := sale.salePrice * sale.quantity as real;
    revenue - costOfGoods
  }

  /** Sum of quantity times sale price over every sale; never negative while no sale is. */
  function TotalSalesValue(sales: seq<Sale>): (r: real)
    ensures (forall i :: 0 <= i < |sales| ==> sales[i].quantity >= 0 && sales[i].salePrice >= 0.0) ==> r >= 0.0
  {
    if sales == [] then 0.0
    else TotalSalesValue(sales[..|sales| - 1]) + SaleValue(sales[|sales| - 1])
  }

  /** What one sale brought in: its quantity at its sale price. */
  function SaleValue(sale: Sale): (r: real)
    ensures sale.quantity >= 0 && sale.salePrice >= 0.0 ==> r >= 0.0
  {
    ProductSign(sale.quantity as real, sale.salePrice);
    sale.quantity as real * sale.salePrice
  }

  // ----- Ledger-side sums the totals are compared with -----

  /** Units bought over all purchases. */
  function TotalBought(ps: seq<Purchase>): int
  {
    if ps == [] then 0 else TotalBought(ps[..|ps| - 1]) + ps[|ps| - 1].quantity
  }

  /** Cost of all purchases. */
  function TotalCost(ps: seq<Purchase>): real
  {
    if ps == [] then 0.0 else TotalCost(ps[..|ps| - 1]) + Cost(ps[|ps| - 1])
  }

  /** Units sold by the sales whose key is one of `ks`. */
  function SoldUnder(ss: seq<Sale>, ks: seq<string>): int
  {
    if ss == [] then 0
    else SoldUnder(ss[..|ss| - 1], ks) + (if ss[|ss| - 1].Key() in ks then ss[|ss| - 1].quantity else 0)
  }

  /** Revenue minus average cost, key by key, over the sales whose key has a purchase. */
  function ProfitByKey(ss: seq<Sale>, ps: seq<Purchase>): real
  {
    if ss == [] then 0.0
    else
      var s := ss[|ss| - 1];
      ProfitByKey(ss[..|ss| - 1], ps) + KeyedProfitOfOne(s, ps)
  }

  /** What one sale earns when matched by key: revenue minus the key's average cost, if the key was bought. */
  function KeyedProfitOfOne(s: Sale, ps: seq<Purchase>): real
  {
    if s.Key() in KeysOf(ps) then Margin(s, AvgCost(ps, s.Key())) else 0.0
  }

  function SumBoughtOver(ks: seq<string>, ps: seq<Purchase>): int
  {
    if ks == [] then 0 else SumBoughtOver(ks[..|ks| - 1], ps) + PurchasedQty(ps, ks[|ks| - 1])
  }

  function SumCostOver(ks: seq<string>, ps: seq<Purchase>): real
  {
    if ks == [] then 0.0 else SumCostOver(ks[..|ks| - 1], ps) + PurchasedCost(ps, ks[|ks| - 1])
  }

  function SumSoldOver(ks: seq<string>, ss: seq<Sale>): int
  {
    if ks == [] then 0 else SumSoldOver(ks[..|ks| - 1], ss) + SoldQty(ss, ks[|ks| - 1])
  }

  // ----- Sums over distinct keys -----

  /** Over distinct keys, one more purchase adds to the sums exactly when its key is listed. */
  lemma {:induction false} SumsOverKeysPurchaseStep(ks: seq<string>, ps: seq<Purchase>, p: Purchase)
    requires Distinct(ks)
    ensures SumBoughtOver(ks, ps + [p]) == SumBoughtOver(ks, ps) + (if p.Key() in ks then p.quantity else 0)
    ensures SumCostOver(ks, ps + [p]) == SumCostOver(ks, ps) + (if p.Key() in ks then Cost(p) else 0.0)
  {
    assert (ps + [p])[..|ps|] == ps;
    if ks != [] {
      var init := ks[..|ks| - 1];
      assert ks == init + [ks[|ks| - 1]];
      SumsOverKeysPurchaseStep(init, ps, p);
    }
  }

  /** Over distinct keys, one more sale adds to the sum exactly when its key is listed. */
  lemma {:induction false} SumSoldOverSaleStep(ks: seq<string>, ss: seq<Sale>, s: Sale)
    requires Distinct(ks)
    ensures SumSoldOver(ks, ss + [s]) == SumSoldOver(ks, ss) + (if s.Key() in ks then s.quantity else 0)
  {
    assert (ss + [s])[..|ss|] == ss;
    if ks != [] {
      var init := ks[..|ks| - 1];
      assert ks == init + [ks[|ks| - 1]];
      SumSoldOverSaleStep(init, ss, s);
    }
  }

  /** Summed key by key, the purchases give back all units bought and their whole cost. */
  lemma {:induction false} KeysCoverPurchases(ps: seq<Purchase>)
    ensures SumBoughtOver(KeysOf(ps), ps) == TotalBought(ps)
    ensures SumCostOver(KeysOf(ps), ps) == TotalCost(ps)
  {
    if ps != [] {
      var p, init := ps[|ps| - 1], ps[..|ps| - 1];
      assert ps == init + [p];
      KeysCoverPurchases(init);
      PurchaseStepKeys(init, p);
      SumsOverKeysPurchaseStep(KeysOf(init), init, p);
      if p.Key() !in KeysOf(init) {
        AbsentKeyBoughtNothing(init, p.Key());
        assert (init + [p])[..|init|] == init;
      }
    }
  }

  /** Summed key by key over distinct keys, the sales give back the units sold under those keys. */
  lemma {:induction false} KeysCoverSales(ks: seq<string>, ss: seq<Sale>)
    requires Distinct(ks)
    ensures SumSoldOver(ks, ss) == SoldUnder(ss, ks)
  {
    if ss != [] {
      var s, init := ss[|ss| - 1], ss[..|ss| - 1];
      assert ss == init + [s];
      KeysCoverSales(ks, init);
      SumSoldOverSaleStep(ks, init, s);
    } else {
      SoldNothing(ks);
    }
  }

  lemma {:induction false} SoldNothing(ks: seq<string>)
    ensures SumSoldOver(ks, []) == 0
  {
    if ks != [] {
      SoldNothing(ks[..|ks| - 1]);
    }
  }

  /** The units in the entries of `ks` are the units bought under `ks` minus those sold under them. */
  lemma {:induction false} EntriesItems(ps: seq<Purchase>, ss: seq<Sale>, ks: seq<string>)
    requires forall k :: k in ks ==> k in KeysOf(ps)
    ensures TotalItemsInStock(Entries(ps, ss, ks)) == SumBoughtOver(ks, ps) - SumSoldOver(ks, ss)
  {
    if ks != [] {
      var init := ks[..|ks| - 1];
      assert forall k :: k in init ==> k in ks;
      EntriesItems(ps, ss, init);
      var e := Entries(ps, ss, ks);
      assert e[..|e| - 1] == Entries(ps, ss, init);
      ItemOfKey(ps, ss, ks[|ks| - 1]);
    }
  }

  /**
   * totalItemsInStock equals the units bought over all purchases minus the
   * units sold by the sales whose key matches some purchase; orphan sales do
   * not count.
   */
  lemma TotalItemsMatchesLedgers(ps: seq<Purchase>, ss: seq<Sale>)
    ensures TotalItemsInStock(Stock(ps, ss)) == TotalBought(ps) - SoldUnder(ss, KeysOf(ps))
  {
    EntriesItems(ps, ss, KeysOf(ps));
    KeysCoverPurchases(ps);
    KeysCoverSales(KeysOf(ps), ss);
  }

  /** With positive quantities, every listed key has bought a positive number of units. */
  lemma {:induction false} ListedKeyBoughtSomething(ps: seq<Purchase>, k: string)
    requires forall i :: 0 <= i < |ps| ==> ps[i].quantity > 0
    requires k in KeysOf(ps)
    ensures PurchasedQty(ps, k) > 0
  {
    var init := ps[..|ps| - 1];
    assert forall i :: 0 <= i < |init| ==> init[i] == ps[i];
    if k in KeysOf(init) {
      ListedKeyBoughtSomething(init, k);
    } else {
      AbsentKeyBoughtNothing(init, k);
    }
  }

  /** Without sales, the value of the entries of `ks` is what was paid for those keys. */
  lemma {:induction false} EntriesValue(ps: seq<Purchase>, ks: seq<string>)
    requires forall k :: k in ks ==> k in KeysOf(ps) && PurchasedQty(ps, k) > 0
    ensures TotalStockValue(Entries(ps, [], ks)) == SumCostOver(ks, ps)
  {
    if ks != [] {
      var init, k := ks[..|ks| - 1], ks[|ks| - 1];
      assert forall x :: x in init ==> x in ks;
      EntriesValue(ps, init);
      var last := ToStockItem(Accumulated(ps, [], k));
      assert Entries(ps, [], ks) == Entries(ps, [], init) + [last];
      StockValueSnoc(Entries(ps, [], init), last);
      EntryValue(ps, k);
    }
  }

  /** Appending an entry adds its worth to the total. */
  lemma StockValueSnoc(stock: seq<StockItem>, item: StockItem)
    ensures TotalStockValue(stock + [item]) == TotalStockValue(stock) + ItemValue(item)
  {
    assert (stock + [item])[..|stock|] == stock;
  }

  /** The read-out of a key that bought something, without sales, is worth what was paid for it. */
  lemma EntryValue(ps: seq<Purchase>, k: string)
    requires k in KeysOf(ps) && PurchasedQty(ps, k) > 0
    ensures ItemValue(ToStockItem(Accumulated(ps, [], k))) == PurchasedCost(ps, k)
  {
    ItemOfKey(ps, [], k);
    UnitsTimesAverage(ToStockItem(Accumulated(ps, [], k)), ps, k);
  }

  /** Units bought times their average cost gives back what was paid. */
  lemma UnitsTimesAverage(item: StockItem, ps: seq<Purchase>, k: string)
    requires item.quantity == PurchasedQty(ps, k) > 0
    requires item.avgPurchasePrice == AvgCost(ps, k)
    ensures ItemValue(item) == PurchasedCost(ps, k)
  {
    var n, c := item.quantity as real, PurchasedCost(ps, k);
    assert item.avgPurchasePrice == c / n;
  }

  /**
   * With positive purchase quantities and no sales, totalStockValue is the
   * total paid for all purchases: averaging per key loses nothing.
   */
  lemma StockValueWithoutSales(ps: seq<Purchase>)
    requires forall i :: 0 <= i < |ps| ==> ps[i].quantity > 0
    ensures TotalStockValue(Stock(ps, [])) == TotalCost(ps)
  {
    forall k | k in KeysOf(ps)
      ensures PurchasedQty(ps, k) > 0
    {
      ListedKeyBoughtSomething(ps, k);
    }
    EntriesValue(ps, KeysOf(ps));
    KeysCoverPurchases(ps);
  }

  // ----- Profit -----

  /**
   * Finding a sale's part in the stock view: a found entry carries the part's
   * key and that key's average cost. When no field anywhere contains the
   * separator, the part is found exactly when its key has a purchase.
   */
  lemma FindInStock(ps: seq<Purchase>, ss: seq<Sale>, part: Part)
    ensures FindByPart(Stock(ps, ss), part).Some? ==>
      && PartKey(part) in KeysOf(ps)
      && FindByPart(Stock(ps, ss), part).value.avgPurchasePrice == AvgCost(ps, PartKey(part))
    ensures NoSeparator(part) && (forall i :: 0 <= i < |ps| ==> NoSeparator(ps[i].Identity())) ==>
      (FindByPart(Stock(ps, ss), part).Some? <==> PartKey(part) in KeysOf(ps))
  {
    var stock := Stock(ps, ss);
    var keys := KeysOf(ps);
    if FindByPart(stock, part).Some? {
      var i :| 0 <= i < |stock| && stock[i] == FindByPart(stock, part).value && stock[i].Identity() == part;
      assert stock[i].Key() == keys[i];
    }
    if NoSeparator(part) && (forall i :: 0 <= i < |ps| ==> NoSeparator(ps[i].Identity())) && PartKey(part) in keys {
      var i :| 0 <= i < |keys| && keys[i] == PartKey(part);
      FirstWithKeyIsEarliest(ps, keys[i]);
      assert NoSeparator(stock[i].Identity());
      KeyAgreesWithPart(stock[i].Identity(), part);
    }
  }

  /**
   * When no part field contains the separator, totalProfit, which matches
   * sales to stock by the part triple, agrees with matching by stock key: each
   * sale whose key has a purchase earns its revenue minus that key's average
   * cost, and every other sale earns nothing.
   */
  lemma {:induction false} ProfitAgreesWithStockKeys(ps: seq<Purchase>, ss: seq<Sale>, sold: seq<Sale>)
    requires forall i :: 0 <= i < |ps| ==> NoSeparator(ps[i].Identity())
    requires forall i :: 0 <= i < |ss| ==> NoSeparator(ss[i].Identity())
    ensures TotalProfit(ss, Stock(ps, sold)) == ProfitByKey(ss, ps)
  {
    if ss != [] {
      var s, init := ss[|ss| - 1], ss[..|ss| - 1];
      assert forall i :: 0 <= i < |init| ==> init[i] == ss[i];
      ProfitAgreesWithStockKeys(ps, init, sold);
      OneSaleAgrees(ps, sold, s);
    }
  }

  /** Without separators, one sale earns the same whether matched by part or by key. */
  lemma OneSaleAgrees(ps: seq<Purchase>, sold: seq<Sale>, s: Sale)
    requires forall i :: 0 <= i < |ps| ==> NoSeparator(ps[i].Identity())
    requires NoSeparator(s.Identity())
    ensures ProfitOfOne(s, FindByPart(Stock(ps, sold), s.Identity())) == KeyedProfitOfOne(s, ps)
  {
    FindInStock(ps, sold, s.Identity());
    var found := FindByPart(Stock(ps, sold), s.Identity());
    assert PartKey(s.Identity()) == s.Key();
    if found.Some? {
      assert s.Key() in KeysOf(ps);
      assert found.value.avgPurchasePrice == AvgCost(ps, s.Key());
    } else {
      assert s.Key() !in KeysOf(ps);
    }
  }

  /** A sale whose part no purchase has leaves totalProfit unchanged. */
  lemma OrphanSaleEarnsNothing(ps: seq<Purchase>, ss: seq<Sale>, sold: seq<Sale>, s: Sale)
    requires forall i :: 0 <= i < |ps| ==> ps[i].Identity() != s.Identity()
    ensures TotalProfit(ss + [s], Stock(ps, sold)) == TotalProfit(ss, Stock(ps, sold))
  {
    var stock := Stock(ps, sold);
    assert (ss + [s])[..|ss|] == ss;
    if FindByPart(stock, s.Identity()).Some? {
      var i :| 0 <= i < |stock| && stock[i].Identity() == s.Identity();
      FirstWithKeyIsEarliest(ps, KeysOf(ps)[i]);
      assert false;
    }
  }

  /** totalSalesValue adds up over concatenated ledgers. */
  lemma {:induction false} SalesValueConcat(a: seq<Sale>, b: seq<Sale>)
    ensures TotalSalesValue(a + b) == TotalSalesValue(a) + TotalSalesValue(b)
  {
    if b != [] {
      var init := b[..|b| - 1];
      assert (a + b)[..|a + b| - 1] == a + init;
      assert (a + b)[|a + b| - 1] == b[|b| - 1];
      SalesValueConcat(a, init);
    } else {
      assert a + b == a;
    }
  }
}

/**
 * Worked cases of the stock view and the dashboard totals on small ledgers.
 */
module Scenarios {
  import opened Wrappers
  import opened Types
  import opened Sequences
  import opened StockDeriver
  import opened Totals
  import opened App

  const ItemA: Part := Part("Brake pad", "Activa", "BP-01")

  function Bought(id: string, part: Part, quantity: int, price: real): Purchase
  {
    Purchase(id, part.itemName, part.modelName, part.partNumber, quantity, price, 0)
  }

  function Sold(id: string, part: Part, quantity: int, price: real): Sale
  {
    Sale(id, part.itemName, part.modelName, part.partNumber, quantity, price, 0)
  }

  /** One purchase of 10 units at 100: one entry of 10 units at 100, worth 1000. */
  lemma SinglePurchase()
    ensures Stock([Bought("p1", ItemA, 10, 100.0)], []) == [StockItem("Brake pad", "Activa", "BP-01", 10, 100.0)]
    ensures TotalStockValue(Stock([Bought("p1", ItemA, 10, 100.0)], [])) == 1000.0
  {
    var p := Bought("p1", ItemA, 10, 100.0);
    var ps := [p];
    assert ps[..0] == [];
    assert KeysOf(ps) == [p.Key()];
    assert PurchasedQty(ps, p.Key()) == 10;
    assert PurchasedCost(ps, p.Key()) == 1000.0;
    assert AvgCost(ps, p.Key()) == 100.0;
    assert FirstWithKey(ps, p.Key()) == Some(p);
    var st := Stock(ps, []);
    assert st[0].Identity() == ItemA;
    assert st == [StockItem("Brake pad", "Activa", "BP-01", 10, 100.0)];
    assert st[..0] == [];
  }

  /** Ten units at 100 and ten at 200 of the same part: twenty units at an average of 150. */
  lemma TwoPurchasesAverage()
    ensures Stock([Bought("p1", ItemA, 10, 100.0), Bought("p2", ItemA, 10, 200.0)], [])
            == [StockItem("Brake pad", "Activa", "BP-01", 20, 150.0)]
  {
    var p1, p2 := Bought("p1", ItemA, 10, 100.0), Bought("p2", ItemA, 10, 200.0);
    var ps := [p1, p2];
    var k := p1.Key();
    assert p2.Key() == k;
    assert ps[..1] == [p1] && [p1][..0] == [];
    assert KeysOf([p1]) == [k];
    assert KeysOf(ps) == [k];
    assert PurchasedQty([p1], k) == 10 && PurchasedCost([p1], k) == 1000.0;
    assert PurchasedQty(ps, k) == 20 && PurchasedCost(ps, k) == 3000.0;
    assert AvgCost(ps, k) == 150.0;
    assert FirstWithKey([p1], k) == Some(p1);
    assert FirstWithKey(ps, k) == Some(p1);
    var st := Stock(ps, []);
    assert st[0].Identity() == ItemA;
  }

  /** Ten bought at 100, four sold at 150: six left at 100, a profit of 200. */
  lemma SaleAgainstStock()
    ensures Stock([Bought("p1", ItemA, 10, 100.0)], [Sold("s1", ItemA, 4, 150.0)])
            == [StockItem("Brake pad", "Activa", "BP-01", 6, 100.0)]
    ensures TotalProfit([Sold("s1", ItemA, 4, 150.0)],
                        Stock([Bought("p1", ItemA, 10, 100.0)], [Sold("s1", ItemA, 4, 150.0)])) == 200.0
  {
    var p, s := Bought("p1", ItemA, 10, 100.0), Sold("s1", ItemA, 4, 150.0);
    var ps, ss := [p], [s];
    var k := p.Key();
    assert s.Key() == k;
    assert ps[..0] == [] && ss[..0] == [];
    assert KeysOf(ps) == [k];
    assert PurchasedCost(ps, k) == PurchasedCost(ps[..0], k) + Cost(p);
    assert PurchasedQty(ps, k) == 10 && PurchasedCost(ps, k) == 1000.0;
    assert AvgCost(ps, k) == 100.0;
    assert SoldQty(ss, k) == 4;
    assert FirstWithKey(ps, k) == Some(p);
    var st := Stock(ps, ss);
    assert st[0].Identity() == ItemA;
    assert st == [StockItem("Brake pad", "Activa", "BP-01", 6, 100.0)];
    assert FindByPart(st, s.Identity()) == Some(st[0]);
    assert Margin(s, 100.0) == 200.0;
    assert TotalProfit(ss, st) == TotalProfit([], st) + ProfitOfOne(s, Some(st[0]));
  }

  /** A sale with no purchase of its part: no entry appears and the sale earns nothing. */
  lemma OrphanSale()
    ensures Stock([], [Sold("s1", Part("Chain", "Shine", "CH-9"), 1, 50.0)]) == []
    ensures TotalProfit([Sold("s1", Part("Chain", "Shine", "CH-9"), 1, 50.0)],
                        Stock([], [Sold("s1", Part("Chain", "Shine", "CH-9"), 1, 50.0)])) == 0.0
  {
    var ss := [Sold("s1", Part("Chain", "Shine", "CH-9"), 1, 50.0)];
    assert ss[..0] == [];
  }

  /**
   * Two parts whose fields differ only in where a '|' falls share one stock
   * entry, so the second part's purchase is merged into the first's. Its sale
   * lowers the merged quantity, yet finds no entry with its own fields and so
   * adds nothing to the profit.
   */
  lemma SeparatorMergesParts()
    ensures var ps := [Bought("p1", Part("a|b", "c", "d"), 3, 10.0), Bought("p2", Part("a", "b|c", "d"), 5, 20.0)];
            var ss := [Sold("s1", Part("a", "b|c", "d"), 2, 30.0)];
            && |Stock(ps, ss)| == 1
            && Stock(ps, ss)[0].Identity() == Part("a|b", "c", "d")
            && Stock(ps, ss)[0].quantity == 6
            && TotalProfit(ss, Stock(ps, ss)) == 0.0
  {
    var p1, p2 := Bought("p1", Part("a|b", "c", "d"), 3, 10.0), Bought("p2", Part("a", "b|c", "d"), 5, 20.0);
    var s := Sold("s1", Part("a", "b|c", "d"), 2, 30.0);
    var ps, ss := [p1, p2], [s];
    KeyCollision();
    var k := p1.Key();
    assert p1.Identity() == Part("a|b", "c", "d") && p2.Identity() == Part("a", "b|c", "d");
    assert p2.Key() == k && s.Key() == k;
    assert ps[..1] == [p1] && [p1][..0] == [] && ss[..0] == [];
    assert KeysOf([p1]) == [k];
    assert KeysOf(ps) == [k];
    assert PurchasedQty([p1], k) == 3;
    assert PurchasedQty(ps, k) == 8;
    assert SoldQty(ss, k) == 2;
    assert FirstWithKey([p1], k) == Some(p1);
    assert FirstWithKey(ps, k) == Some(p1);
    var st := Stock(ps, ss);
    assert st[0].Identity() == Part("a|b", "c", "d");
    assert "a|b" != "a";
    assert st[1..] == [];
    assert FindByPart(st, s.Identity()) == None;
    assert TotalProfit(ss, st) == TotalProfit([], st) + ProfitOfOne(s, None);
  }

  /** Deleting one purchase by id takes its units out of the view and leaves the other record. */
  lemma DeleteOnePurchase()
    ensures var ps := [Bought("p1", ItemA, 10, 100.0), Bought("p2", ItemA, 4, 100.0)];
            WithoutPurchase(ps, "p2") == [ps[0]]
            && Stock(WithoutPurchase(ps, "p2"), []) == [StockItem("Brake pad", "Activa", "BP-01", 10, 100.0)]
  {
    var ps := [Bought("p1", ItemA, 10, 100.0), Bought("p2", ItemA, 4, 100.0)];
    var keep := (q: Purchase) => q.id != "p2";
    assert "p1" != "p2";
    assert ps[1..] == [ps[1]] && ps[1..][1..] == [];
    assert Filter(ps[1..][1..], keep) == [];
    assert Filter(ps[1..], keep) == [];
    assert Filter(ps, keep) == [ps[0]];
    SinglePurchase();
  }
}

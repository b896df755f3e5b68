/**
 * The stock deriver of App.tsx: two ledgers folded into one stock entry per
 * distinct purchase key.
 *
 * `Stock` is the reference definition, key by key: the keys in order of first
 * appearance among the purchases, and for each key the units bought, their
 * cost, the units sold and the first purchase's part fields. `DeriveStock` is
 * the source's algorithm (a map filled by two passes, then read out in
 * insertion order) and is proved equal to it.
 *
 * Every fold here recurses on the LAST element, so that a prefix `s[..i]` is
 * exactly what a left-to-right loop has seen after `i` steps.
 */
module StockDeriver {
  import opened Wrappers
  import opened Types

  /** Units bought under key `k`. */
  function PurchasedQty(ps: seq<Purchase>, k: string): int
  {
    if ps == [] then 0
    else PurchasedQty(ps[..|ps| - 1], k) + (if ps[|ps| - 1].Key() == k then ps[|ps| - 1].quantity else 0)
  }

  /** What one purchase record cost: unit price times units. */
  function Cost(p: Purchase): real
  {
    p.purchasePrice * p.quantity as real
  }

  /** Total cost of the units bought under key `k`. */
  function PurchasedCost(ps: seq<Purchase>, k: string): real
  {
    if ps == [] then 0.0
    else PurchasedCost(ps[..|ps| - 1], k) + (if ps[|ps| - 1].Key() == k then Cost(ps[|ps| - 1]) else 0.0)
  }

  /** Units sold under key `k`. */
  function SoldQty(ss: seq<Sale>, k: string): int
  {
    if ss == [] then 0
    else SoldQty(ss[..|ss| - 1], k) + (if ss[|ss| - 1].Key() == k then ss[|ss| - 1].quantity else 0)
  }

  /** The weighted-average unit cost of key `k`, 0 when no unit was bought. */
  function AvgCost(ps: seq<Purchase>, k: string): real
  {
    if PurchasedQty(ps, k) > 0 then PurchasedCost(ps, k) / PurchasedQty(ps, k) as real else 0.0
  }

  predicate Distinct(ks: seq<string>)
  {
    forall i, j :: 0 <= i < j < |ks| ==> ks[i] != ks[j]
  }

  /** The distinct purchase keys, in order of first appearance (a JS Map's insertion order). */
  function KeysOf(ps: seq<Purchase>): (ks: seq<string>)
    ensures Distinct(ks)
  {
    if ps == [] then []
    else
      var init := ps[..|ps| - 1];
      assert ps == init + [ps[|ps| - 1]];
      var ks := KeysOf(init);
      if ps[|ps| - 1].Key() in ks then ks else ks + [ps[|ps| - 1].Key()]
  }

  /** The earliest purchase filed under key `k`, if any. */
  function FirstWithKey(ps: seq<Purchase>, k: string): (r: Option<Purchase>)
    ensures r.Some? <==> k in KeysOf(ps)
    ensures r.Some? ==> r.value.Key() == k
  {
    if ps == [] then None
    else
      var init := ps[..|ps| - 1];
      assert ps == init + [ps[|ps| - 1]];
      match FirstWithKey(init, k)
      case Some(p) => Some(p)
      case None => if ps[|ps| - 1].Key() == k then Some(ps[|ps| - 1]) else None
  }

  /** A key is listed exactly when some purchase carries it. */
  lemma {:induction false} KeysOfListsPurchaseKeys(ps: seq<Purchase>, k: string)
    ensures k in KeysOf(ps) <==> exists i :: 0 <= i < |ps| && ps[i].Key() == k
  {
    if ps != [] {
      var init := ps[..|ps| - 1];
      KeysOfListsPurchaseKeys(init, k);
      if k in KeysOf(init) {
        var i :| 0 <= i < |init| && init[i].Key() == k;
        assert ps[i] == init[i];
      }
      if exists i :: 0 <= i < |ps| && ps[i].Key() == k {
        var i :| 0 <= i < |ps| && ps[i].Key() == k;
        if i < |init| {
          assert init[i] == ps[i];
        }
      }
    }
  }

  /** The purchase found for a key is the earliest one that carries it. */
  lemma {:induction false} FirstWithKeyIsEarliest(ps: seq<Purchase>, k: string)
    requires k in KeysOf(ps)
    ensures exists i :: 0 <= i < |ps| && ps[i] == FirstWithKey(ps, k).value
                        && forall j :: 0 <= j < i ==> ps[j].Key() != k
  {
    var init := ps[..|ps| - 1];
    KeysOfListsPurchaseKeys(init, k);
    if k in KeysOf(init) {
      FirstWithKeyIsEarliest(init, k);
      var i :| 0 <= i < |init| && init[i] == FirstWithKey(init, k).value
               && forall j :: 0 <= j < i ==> init[j].Key() != k;
      assert ps[i] == init[i];
      assert forall j :: 0 <= j < i ==> ps[j] == init[j];
    } else {
      assert forall j :: 0 <= j < |init| ==> ps[j] == init[j];
    }
  }

  /**
   * Keys are listed in order of first appearance: a key listed before another
   * is carried by some purchase that comes before every purchase of the other.
   */
  lemma {:induction false} KeysInFirstAppearanceOrder(ps: seq<Purchase>, a: nat, b: nat)
    requires a < b < |KeysOf(ps)|
    ensures exists i :: 0 <= i < |ps| && ps[i].Key() == KeysOf(ps)[a]
                        && forall j :: 0 <= j <= i ==> ps[j].Key() != KeysOf(ps)[b]
  {
    var init := ps[..|ps| - 1];
    var ks := KeysOf(init);
    assert forall j :: 0 <= j < |init| ==> ps[j] == init[j];
    if b < |ks| {
      KeysInFirstAppearanceOrder(init, a, b);
      var i :| 0 <= i < |init| && init[i].Key() == ks[a] && forall j :: 0 <= j <= i ==> init[j].Key() != ks[b];
      assert ps[i] == init[i];
    } else {
      KeysOfListsPurchaseKeys(init, ks[a]);
      KeysOfListsPurchaseKeys(init, ps[|ps| - 1].Key());
      var i :| 0 <= i < |init| && init[i].Key() == ks[a];
      assert ps[i] == init[i];
    }
  }

  /** The value the source keeps per key in its map while folding the ledgers. */
  datatype StockAccumulator = StockAccumulator(
    quantity: int,
    totalCost: real,
    purchaseCount: int,
    itemName: string,
    modelName: string,
    partNumber: string)

  /** What the map holds for key `k` once `ps` and `ss` have been folded in. */
  function Accumulated(ps: seq<Purchase>, ss: seq<Sale>, k: string): StockAccumulator
    requires k in KeysOf(ps)
  {
    var first := FirstWithKey(ps, k).value;
    StockAccumulator(
      PurchasedQty(ps, k) - SoldQty(ss, k), PurchasedCost(ps, k), PurchasedQty(ps, k),
      first.itemName, first.modelName, first.partNumber)
  }

  /** The read-out of one map value as a stock item; the average is guarded against zero units. */
  function ToStockItem(acc: StockAccumulator): (r: StockItem)
    ensures r.quantity == acc.quantity
    ensures r.Identity() == Part(acc.itemName, acc.modelName, acc.partNumber)
    ensures acc.purchaseCount > 0 ==> r.avgPurchasePrice * acc.purchaseCount as real == acc.totalCost
    ensures acc.purchaseCount <= 0 ==> r.avgPurchasePrice == 0.0
  {
    StockItem(acc.itemName, acc.modelName, acc.partNumber, acc.quantity,
              if acc.purchaseCount > 0 then acc.totalCost / acc.purchaseCount as real else 0.0)
  }

  /** The stock items of the keys `ks`, in the order of `ks`. */
  function Entries(ps: seq<Purchase>, ss: seq<Sale>, ks: seq<string>): (r: seq<StockItem>)
    requires forall k :: k in ks ==> k in KeysOf(ps)
    ensures |r| == |ks|
    ensures forall i :: 0 <= i < |ks| ==> r[i] == ToStockItem(Accumulated(ps, ss, ks[i]))
  {
    if ks == [] then []
    else Entries(ps, ss, ks[..|ks| - 1]) + [ToStockItem(Accumulated(ps, ss, ks[|ks| - 1]))]
  }

  /**
   * The stock view: one entry per distinct purchase key, in order of first
   * appearance; its quantity is what was bought minus what was sold under that
   * key, its price the weighted-average cost, its part the first purchase's.
   */
  function Stock(ps: seq<Purchase>, ss: seq<Sale>): (r: seq<StockItem>)
    ensures |r| == |KeysOf(ps)|
    ensures forall i :: 0 <= i < |r| ==>
      && r[i].Key() == KeysOf(ps)[i]
      && r[i].quantity == PurchasedQty(ps, KeysOf(ps)[i]) - SoldQty(ss, KeysOf(ps)[i])
      && r[i].avgPurchasePrice == AvgCost(ps, KeysOf(ps)[i])
      && r[i].Identity() == FirstWithKey(ps, KeysOf(ps)[i]).value.Identity()
  {
    EntriesShape(ps, ss, KeysOf(ps));
    Entries(ps, ss, KeysOf(ps))
  }

  /** What the read-out of key `k` holds, stated field by field. */
  lemma ItemOfKey(ps: seq<Purchase>, ss: seq<Sale>, k: string)
    requires k in KeysOf(ps)
    ensures var e := ToStockItem(Accumulated(ps, ss, k));
      && e.Key() == k
      && e.quantity == PurchasedQty(ps, k) - SoldQty(ss, k)
      && e.avgPurchasePrice == AvgCost(ps, k)
      && e.Identity() == FirstWithKey(ps, k).value.Identity()
  {
  }

  lemma EntriesShape(ps: seq<Purchase>, ss: seq<Sale>, ks: seq<string>)
    requires forall k :: k in ks ==> k in KeysOf(ps)
    ensures forall i :: 0 <= i < |ks| ==>
      var e := Entries(ps, ss, ks)[i];
      && e.Key() == ks[i]
      && e.quantity == PurchasedQty(ps, ks[i]) - SoldQty(ss, ks[i])
      && e.avgPurchasePrice == AvgCost(ps, ks[i])
      && e.Identity() == FirstWithKey(ps, ks[i]).value.Identity()
  {
    forall i | 0 <= i < |ks| {
      ItemOfKey(ps, ss, ks[i]);
    }
  }

  /** A key that no purchase carries has bought nothing. */
  lemma {:induction false} AbsentKeyBoughtNothing(ps: seq<Purchase>, k: string)
    requires k !in KeysOf(ps)
    ensures PurchasedQty(ps, k) == 0 && PurchasedCost(ps, k) == 0.0
  {
    if ps != [] {
      var init := ps[..|ps| - 1];
      assert ps == init + [ps[|ps| - 1]];
      AbsentKeyBoughtNothing(init, k);
    }
  }

  /** One more purchase appends its key when the key is new, and only then. */
  lemma PurchaseStepKeys(ps: seq<Purchase>, p: Purchase)
    ensures KeysOf(ps + [p]) == if p.Key() in KeysOf(ps) then KeysOf(ps) else KeysOf(ps) + [p.Key()]
  {
    assert (ps + [p])[..|ps|] == ps;
  }

  /** One more purchase moves only the tally of its own key, starting from zero for a new key. */
  lemma PurchaseStepTally(ps: seq<Purchase>, p: Purchase, k: string)
    requires k in KeysOf(ps + [p])
    ensures k != p.Key() ==> k in KeysOf(ps) && Accumulated(ps + [p], [], k) == Accumulated(ps, [], k)
    ensures k == p.Key() ==>
      var base := if k in KeysOf(ps) then Accumulated(ps, [], k)
                  else StockAccumulator(0, 0.0, 0, p.itemName, p.modelName, p.partNumber);
      Accumulated(ps + [p], [], k) ==
        base.(quantity := base.quantity + p.quantity,
              totalCost := base.totalCost + Cost(p),
              purchaseCount := base.purchaseCount + p.quantity)
  {
    var qs := ps + [p];
    assert qs[..|ps|] == ps && qs[|qs| - 1] == p;
    PurchaseStepKeys(ps, p);
    assert SoldQty([], k) == 0;
    if k != p.Key() {
      assert PurchasedQty(qs, k) == PurchasedQty(ps, k);
      assert PurchasedCost(qs, k) == PurchasedCost(ps, k);
      assert FirstWithKey(qs, k) == FirstWithKey(ps, k);
    } else if k in KeysOf(ps) {
      assert PurchasedQty(qs, k) == PurchasedQty(ps, k) + p.quantity;
      assert PurchasedCost(qs, k) == PurchasedCost(ps, k) + Cost(p);
      assert FirstWithKey(qs, k) == FirstWithKey(ps, k);
    } else {
      AbsentKeyBoughtNothing(ps, k);
      assert PurchasedQty(qs, k) == p.quantity;
      assert PurchasedCost(qs, k) == Cost(p);
      assert FirstWithKey(qs, k) == Some(p);
    }
  }

  /** One more sale: only the quantity of a key it matches goes down. */
  lemma SaleStep(ps: seq<Purchase>, ss: seq<Sale>, s: Sale)
    ensures forall k :: k in KeysOf(ps) ==>
      Accumulated(ps, ss + [s], k) ==
        if k == s.Key() then Accumulated(ps, ss, k).(quantity := Accumulated(ps, ss, k).quantity - s.quantity)
        else Accumulated(ps, ss, k)
  {
    assert (ss + [s])[..|ss|] == ss;
  }

  /** The map `m`, whose keys were inserted in the order `order`, holds the fold of `ps` and `ss`. */
  ghost predicate Holds(m: map<string, StockAccumulator>, order: seq<string>, ps: seq<Purchase>, ss: seq<Sale>)
  {
    && order == KeysOf(ps)
    && (forall k :: k in m <==> k in order)
    && (forall k :: k in m ==> m[k] == Accumulated(ps, ss, k))
  }

  /** Folding in one more purchase the way the source does keeps the map in step with the ledger. */
  lemma PurchaseKeepsFold(m: map<string, StockAccumulator>, order: seq<string>, ps: seq<Purchase>,
                          p: Purchase, item: StockAccumulator)
    requires Holds(m, order, ps, [])
    requires item == (
      var base := if p.Key() in m then m[p.Key()]
                  else StockAccumulator(0, 0.0, 0, p.itemName, p.modelName, p.partNumber);
      base.(quantity := base.quantity + p.quantity,
            totalCost := base.totalCost + Cost(p),
            purchaseCount := base.purchaseCount + p.quantity))
    ensures Holds(m[p.Key() := item], if p.Key() in m then order else order + [p.Key()], ps + [p], [])
  {
    PurchaseStepKeys(ps, p);
    var m' := m[p.Key() := item];
    var order' := if p.Key() in m then order else order + [p.Key()];
    assert order' == KeysOf(ps + [p]);
    assert forall k :: k in m' <==> k in order';
    forall k | k in m'
      ensures m'[k] == Accumulated(ps + [p], [], k)
    {
      PurchaseStepTally(ps, p, k);
      if k != p.Key() {
        assert k in m && m'[k] == m[k];
      } else if k in m {
        assert m'[k] == item && m[k] == Accumulated(ps, [], k);
      }
    }
  }

  /** Subtracting one more sale the way the source does keeps the map in step with the ledger. */
  lemma SaleKeepsFold(m: map<string, StockAccumulator>, order: seq<string>, ps: seq<Purchase>,
                      ss: seq<Sale>, s: Sale)
    requires Holds(m, order, ps, ss)
    ensures var m' := if s.Key() in m then m[s.Key() := m[s.Key()].(quantity := m[s.Key()].quantity - s.quantity)] else m;
      Holds(m', order, ps, ss + [s])
  {
    SaleStep(ps, ss, s);
  }

  /** Reading out the next key of the map extends the entries by that key's item. */
  lemma ReadOutStep(m: map<string, StockAccumulator>, order: seq<string>, ps: seq<Purchase>,
                    ss: seq<Sale>, n: nat)
    requires Holds(m, order, ps, ss)
    requires n < |order|
    ensures Entries(ps, ss, order[..n]) + [ToStockItem(m[order[n]])] == Entries(ps, ss, order[..n + 1])
  {
    assert order[..n + 1][..n] == order[..n];
  }

  /** First pass (App.tsx:37-51): every purchase is added into the entry of its key. */
  method FoldPurchases(purchases: seq<Purchase>) returns (stockMap: map<string, StockAccumulator>, order: seq<string>)
    ensures Holds(stockMap, order, purchases, [])
  {
    stockMap, order := map[], [];  // `order` is the map's insertion order
    for i := 0 to |purchases|
      invariant Holds(stockMap, order, purchases[..i], [])
    {
      var p := purchases[i];
      assert purchases[..i + 1] == purchases[..i] + [p];
      var key := p.Key();
      var item := if key in stockMap then stockMap[key]
                  else StockAccumulator(0, 0.0, 0, p.itemName, p.modelName, p.partNumber);
      item := item.(quantity := item.quantity + p.quantity,
                    totalCost := item.totalCost + p.purchasePrice * p.quantity as real,
                    purchaseCount := item.purchaseCount + p.quantity);
      assert item.totalCost == (if key in stockMap then stockMap[key].totalCost else 0.0) + Cost(p);
      PurchaseKeepsFold(stockMap, order, purchases[..i], p, item);
      if key !in stockMap {
        order := order + [key];
      }
      stockMap := stockMap[key := item];
    }
    assert purchases[..|purchases|] == purchases;
  }

  /** Second pass (App.tsx:53-59): a sale lowers the quantity of its key's entry, if there is one. */
  method SubtractSales(folded: map<string, StockAccumulator>, ghost order: seq<string>,
                       ghost purchases: seq<Purchase>, sales: seq<Sale>)
    returns (stockMap: map<string, StockAccumulator>)
    requires Holds(folded, order, purchases, [])
    ensures Holds(stockMap, order, purchases, sales)
  {
    stockMap := folded;
    for j := 0 to |sales|
      invariant Holds(stockMap, order, purchases, sales[..j])
    {
      var s := sales[j];
      assert sales[..j + 1] == sales[..j] + [s];
      SaleKeepsFold(stockMap, order, purchases, sales[..j], s);
      var key := s.Key();
      if key in stockMap {
        var item := stockMap[key];
        stockMap := stockMap[key := item.(quantity := item.quantity - s.quantity)];
      }
    }
    assert sales[..|sales|] == sales;
  }

  /** Read-out (App.tsx:61-67): the map's values in insertion order, each turned into a stock item. */
  method ReadOut(stockMap: map<string, StockAccumulator>, order: seq<string>,
                 ghost purchases: seq<Purchase>, ghost sales: seq<Sale>)
    returns (stock: seq<StockItem>)
    requires Holds(stockMap, order, purchases, sales)
    ensures stock == Entries(purchases, sales, order)
  {
    stock := [];
    for n := 0 to |order|
      invariant stock == Entries(purchases, sales, order[..n])
    {
      ReadOutStep(stockMap, order, purchases, sales, n);
      stock := stock + [ToStockItem(stockMap[order[n]])];
    }
    assert order[..|order|] == order;
  }

  /** The source's derivation (App.tsx:27-68): two passes over a map, then its read-out. */
  method DeriveStock(purchases: seq<Purchase>, sales: seq<Sale>) returns (stock: seq<StockItem>)
    ensures stock == Stock(purchases, sales)
  {
    var stockMap, order := FoldPurchases(purchases);
    stockMap := SubtractSales(stockMap, order, purchases, sales);
    stock := ReadOut(stockMap, order, purchases, sales);
  }

  // ----- Properties of the stock view -----

  /**
   * Recording one more sale lowers the quantity of the entry with the sale's
   * key by the sale's quantity and changes nothing else; a sale whose key has
   * no purchase (an orphan sale) leaves the whole view unchanged.
   */
  lemma AppendSale(ps: seq<Purchase>, ss: seq<Sale>, s: Sale)
    ensures |Stock(ps, ss + [s])| == |Stock(ps, ss)|
    ensures forall i :: 0 <= i < |Stock(ps, ss)| ==>
      Stock(ps, ss + [s])[i] ==
        if Stock(ps, ss)[i].Key() == s.Key()
        then Stock(ps, ss)[i].(quantity := Stock(ps, ss)[i].quantity - s.quantity)
        else Stock(ps, ss)[i]
    ensures s.Key() !in KeysOf(ps) ==> Stock(ps, ss + [s]) == Stock(ps, ss)
  {
  }

  /** Tallies of a concatenation are the sums of the tallies of its parts. */
  lemma {:induction false} TalliesConcat(a: seq<Purchase>, b: seq<Purchase>, k: string)
    ensures PurchasedQty(a + b, k) == PurchasedQty(a, k) + PurchasedQty(b, k)
    ensures PurchasedCost(a + b, k) == PurchasedCost(a, k) + PurchasedCost(b, k)
  {
    if b != [] {
      var init := b[..|b| - 1];
      assert (a + b)[..|a + b| - 1] == a + init;
      assert (a + b)[|a + b| - 1] == b[|b| - 1];
      TalliesConcat(a, init, k);
    } else {
      assert a + b == a;
    }
  }

  /** Units bought and their cost depend only on which purchases there are, not on their order. */
  lemma {:induction false} PermutationKeepsTallies(ps: seq<Purchase>, qs: seq<Purchase>, k: string)
    requires multiset(ps) == multiset(qs)
    ensures PurchasedQty(ps, k) == PurchasedQty(qs, k)
    ensures PurchasedCost(ps, k) == PurchasedCost(qs, k)
    decreases |ps|
  {
    if ps == [] {
      assert |qs| == |multiset(qs)| == 0;
    } else {
      var p, init := ps[|ps| - 1], ps[..|ps| - 1];
      assert ps == init + [p];
      assert p in multiset(qs);
      var j :| 0 <= j < |qs| && qs[j] == p;
      var front, back := qs[..j], qs[j + 1..];
      RemoveMatchingLast(ps, qs, j);
      PermutationKeepsTallies(init, front + back, k);
      TalliesConcat(front, back, k);
      TalliesConcat(front, [p], k);
      TalliesConcat(front + [p], back, k);
      TalliesConcat(init, [p], k);
      assert PurchasedQty([p], k) == if p.Key() == k then p.quantity else 0;
      assert PurchasedCost([p], k) == if p.Key() == k then Cost(p) else 0.0;
    }
  }

  /** Taking the last element out of one side and a copy of it out of the other keeps two permutations permutations. */
  lemma RemoveMatchingLast<T>(ps: seq<T>, qs: seq<T>, j: nat)
    requires multiset(ps) == multiset(qs) && ps != [] && j < |qs| && qs[j] == ps[|ps| - 1]
    ensures qs == qs[..j] + [qs[j]] + qs[j + 1..]
    ensures multiset(ps[..|ps| - 1]) == multiset(qs[..j] + qs[j + 1..])
  {
    var p, init, front, back := ps[|ps| - 1], ps[..|ps| - 1], qs[..j], qs[j + 1..];
    assert ps == init + [p];
    assert qs == front + [p] + back;
    assert multiset(ps) == multiset(init) + multiset{p};
    assert multiset(qs) == multiset(front + back) + multiset{p};
    assert multiset(init) == multiset(ps) - multiset{p};
    assert multiset(front + back) == multiset(qs) - multiset{p};
  }

  /** Reordering the purchases changes neither the set of stock keys nor any average cost. */
  lemma AveragePermutationInvariant(ps: seq<Purchase>, qs: seq<Purchase>, k: string)
    requires multiset(ps) == multiset(qs)
    ensures k in KeysOf(ps) <==> k in KeysOf(qs)
    ensures AvgCost(ps, k) == AvgCost(qs, k)
  {
    PermutationKeepsTallies(ps, qs, k);
    KeysOfListsPurchaseKeys(ps, k);
    KeysOfListsPurchaseKeys(qs, k);
    if exists i :: 0 <= i < |ps| && ps[i].Key() == k {
      var i :| 0 <= i < |ps| && ps[i].Key() == k;
      assert ps[i] in multiset(qs);
      var j :| 0 <= j < |qs| && qs[j] == ps[i];
    }
    if exists j :: 0 <= j < |qs| && qs[j].Key() == k {
      var j :| 0 <= j < |qs| && qs[j].Key() == k;
      assert qs[j] in multiset(ps);
      var i :| 0 <= i < |ps| && ps[i] == qs[j];
    }
  }

  /** `cost` lies between `units` priced at `lo` and `units` priced at `hi`. */
  predicate CostBetween(lo: real, hi: real, units: real, cost: real)
  {
    lo * units <= cost <= hi * units
  }

  /** Every unit bought under `k` cost between `lo` and `hi`, so the total lies between the two bounds. */
  lemma {:induction false} CostWithinPriceRange(ps: seq<Purchase>, k: string, lo: real, hi: real)
    requires forall i :: 0 <= i < |ps| && ps[i].Key() == k ==>
      lo <= ps[i].purchasePrice <= hi && ps[i].quantity >= 0
    ensures CostBetween(lo, hi, PurchasedQty(ps, k) as real, PurchasedCost(ps, k))
  {
    if ps != [] {
      var p, init := ps[|ps| - 1], ps[..|ps| - 1];
      assert forall i :: 0 <= i < |init| ==> init[i] == ps[i];
      CostWithinPriceRange(init, k, lo, hi);
      var n, c := PurchasedQty(init, k) as real, PurchasedCost(init, k);
      if p.Key() == k {
        BoundStep(lo, hi, n, c, p.quantity as real, p.purchasePrice, PurchasedQty(ps, k) as real, PurchasedCost(ps, k));
      } else {
        BoundStep(lo, hi, n, c, 0.0, lo, PurchasedQty(ps, k) as real, PurchasedCost(ps, k));
      }
    } else {
      BoundStep(lo, hi, 0.0, 0.0, 0.0, lo, PurchasedQty(ps, k) as real, PurchasedCost(ps, k));
    }
  }

  /** Adding `q` units at a price within the bounds (any price, for no units) keeps the cost within them. */
  lemma BoundStep(lo: real, hi: real, n: real, c: real, q: real, price: real, n': real, c': real)
    requires CostBetween(lo, hi, n, c)
    requires q >= 0.0 && (q > 0.0 ==> lo <= price <= hi)
    requires n' == n + q && c' == c + price * q
    ensures CostBetween(lo, hi, n', c')
  {
    assert lo * n' == lo * n + lo * q;
    assert hi * n' == hi * n + hi * q;
    if q > 0.0 {
      ProductSign(price - lo, q);
      ProductSign(hi - price, q);
    } else {
      assert q == 0.0 && c' == c + price * 0.0;
    }
  }

  /** The product of two non-negative reals is non-negative. */
  lemma ProductSign(a: real, b: real)
    ensures a >= 0.0 && b >= 0.0 ==> a * b >= 0.0
  {
  }

  /**
   * The weighted average lies within the range of unit prices paid for the key,
   * whenever at least one unit was bought.
   */
  lemma AverageWithinPriceRange(ps: seq<Purchase>, k: string, lo: real, hi: real)
    requires forall i :: 0 <= i < |ps| && ps[i].Key() == k ==>
      lo <= ps[i].purchasePrice <= hi && ps[i].quantity >= 0
    requires PurchasedQty(ps, k) > 0
    ensures lo <= AvgCost(ps, k) <= hi
  {
    CostWithinPriceRange(ps, k, lo, hi);
    QuotientBetween(PurchasedCost(ps, k), PurchasedQty(ps, k) as real, lo, hi, AvgCost(ps, k));
  }

  lemma QuotientBetween(c: real, n: real, lo: real, hi: real, a: real)
    requires n > 0.0 && CostBetween(lo, hi, n, c) && a == c / n
    ensures lo <= a <= hi
  {
    assert a * n == c;
    assert (a - lo) * n >= 0.0;
    assert (hi - a) * n >= 0.0;
  }
}

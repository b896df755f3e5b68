/**
 * The records of the ledger (types.ts): purchases and sales as they are
 * persisted, and the derived stock item. Money is an exact `real`,
 * quantities are integers, and a date is an ordered day number.
 */
module Types {

  /** Part identity: the triple that names a stock-keeping unit. */
  datatype Part = Part(itemName: string, modelName: string, partNumber: string)

  /** The character that joins the three fields of a stock key. */
  const Separator: char := '|'

  /** The stock key `itemName|modelName|partNumber` that groups and selects stock. */
  function PartKey(p: Part): string
  {
    p.itemName + [Separator] + p.modelName + [Separator] + p.partNumber
  }

  /** No field of the part contains the separator, so its key can be split back. */
  predicate NoSeparator(p: Part)
  {
    Separator !in p.itemName && Separator !in p.modelName && Separator !in p.partNumber
  }

  datatype Purchase = Purchase(
    id: string,
    itemName: string,
    modelName: string,
    partNumber: string,
    quantity: int,
    purchasePrice: real,
    date: int)
  {
    function Identity(): Part { Part(itemName, modelName, partNumber) }
    function Key(): string { PartKey(Identity()) }
  }

  datatype Sale = Sale(
    id: string,
    itemName: string,
    modelName: string,
    partNumber: string,
    quantity: int,
    salePrice: real,
    date: int)
  {
    function Identity(): Part { Part(itemName, modelName, partNumber) }
    function Key(): string { PartKey(Identity()) }
  }

  datatype StockItem = StockItem(
    itemName: string,
    modelName: string,
    partNumber: string,
    quantity: int,
    avgPurchasePrice: real)
  {
    function Identity(): Part { Part(itemName, modelName, partNumber) }
    function Key(): string { PartKey(Identity()) }
  }

  /** Two separator-free strings followed by a separator split at the same place. */
  lemma {:induction false} SplitAtSeparator(a: string, r: string, b: string, t: string)
    requires Separator !in a && Separator !in b
    requires a + [Separator] + r == b + [Separator] + t
    ensures a == b && r == t
  {
    var u := a + [Separator] + r;
    var v := b + [Separator] + t;
    assert u[|a|] == Separator;
    assert v[|b|] == Separator;
    assert |a| == |b|;
    assert a == u[..|a|] == v[..|b|] == b;
    assert r == u[|a| + 1..] == v[|b| + 1..] == t;
  }

  /**
   * The string key identifies a part exactly when no field contains the
   * separator: then key equality and structural triple equality coincide.
   */
  lemma {:induction false} KeyAgreesWithPart(x: Part, y: Part)
    requires NoSeparator(x) && NoSeparator(y)
    ensures PartKey(x) == PartKey(y) <==> x == y
  {
    if PartKey(x) == PartKey(y) {
      var xr := x.modelName + [Separator] + x.partNumber;
      var yr := y.modelName + [Separator] + y.partNumber;
      assert PartKey(x) == x.itemName + [Separator] + xr;
      assert PartKey(y) == y.itemName + [Separator] + yr;
      SplitAtSeparator(x.itemName, xr, y.itemName, yr);
      SplitAtSeparator(x.modelName, x.partNumber, y.modelName, y.partNumber);
    }
  }

  /** With a separator inside a field, two different parts share one key. */
  lemma KeyCollision()
    ensures Part("a|b", "c", "d") != Part("a", "b|c", "d")
    ensures PartKey(Part("a|b", "c", "d")) == PartKey(Part("a", "b|c", "d"))
  {
  }
}

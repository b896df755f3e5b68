/**
 * The sell form of components/SellForm.tsx: which stock can be sold, which
 * entry the selected key picks, the last price the part was sold at, the
 * form's effects, and the checks made before a sale is emitted.
 */
module SellForm {
  import opened Wrappers
  import opened Types
  import opened Sequences
  import opened StockDeriver
  import opened Totals

  const SelectItemError: string := "Please select an item."

  // ----- Decimal rendering of a count, as a template literal renders it -----

  function DigitChar(d: nat): (c: char)
    requires d < 10
    ensures '0' <= c <= '9' && c as int - '0' as int == d
  {
    "0123456789"[d]
  }

  /** The decimal digits of `n`, most significant first, without leading zeros. */
  function NatToString(n: nat): (s: string)
    ensures |s| >= 1 && (|s| > 1 ==> s[0] != '0')
    ensures forall i :: 0 <= i < |s| ==> '0' <= s[i] <= '9'
  {
    if n < 10 then [DigitChar(n)] else NatToString(n / 10) + [DigitChar(n % 10)]
  }

  /** The number a string of decimal digits denotes. */
  function DigitsValue(s: string): int
  {
    if s == [] then 0 else 10 * DigitsValue(s[..|s| - 1]) + (s[|s| - 1] as int - '0' as int)
  }

  /** Rendering a count and reading the digits back gives the count. */
  lemma {:induction false} NatToStringRoundTrip(n: nat)
    ensures DigitsValue(NatToString(n)) == n
  {
    if n >= 10 {
      NatToStringRoundTrip(n / 10);
      var s := NatToString(n);
      assert s[..|s| - 1] == NatToString(n / 10);
    }
  }

  /** The number an optionally signed string of decimal digits denotes. */
  function IntValue(s: string): int
  {
    if |s| > 0 && s[0] == '-' then -DigitsValue(s[1..]) else DigitsValue(s)
  }

  /** The decimal rendering of a possibly negative count; it reads back as that count. */
  function IntToString(i: int): (s: string)
    ensures |s| >= 1
    ensures forall k :: 0 <= k < |s| ==> '0' <= s[k] <= '9' || (k == 0 && s[k] == '-')
    ensures IntValue(s) == i
  {
    if i < 0 then
      NatToStringRoundTrip(-i);
      assert ("-" + NatToString(-i))[1..] == NatToString(-i);
      "-" + NatToString(-i)
    else
      NatToStringRoundTrip(i);
      NatToString(i)
  }

  /** The message shown when more is asked than the selected entry has; the count reads back from it. */
  function OnlyInStockMessage(inStock: int): (r: string)
    ensures |r| > 21 && r[..5] == "Only " && r[|r| - 16..] == " items in stock."
    ensures IntValue(r[5..|r| - 16]) == inStock
  {
    var n := IntToString(inStock);
    PartsOfMessage("Only ", n, " items in stock.", "", "");
    "Only " + n + " items in stock."
  }

  /**
   * The message of the submit-time check; both counts read back from it, the
   * first ending where ", only " begins.
   */
  function CannotSellMessage(quantity: int, inStock: int): (r: string)
    ensures |r| > 30 && r[..12] == "Cannot sell " && r[|r| - 10..] == " in stock."
    ensures exists n ::
              && 12 < n <= |r| - 18 && r[n..n + 7] == ", only "
              && IntValue(r[12..n]) == quantity && IntValue(r[n + 7..|r| - 10]) == inStock
  {
    var q, s := IntToString(quantity), IntToString(inStock);
    CannotSellParts(q, s);
    "Cannot sell " + q + ", only " + s + " in stock."
  }

  /** Where the two counts sit in the submit-time message. */
  lemma CannotSellParts(q: string, s: string)
    requires |q| >= 1 && |s| >= 1
    ensures var r := "Cannot sell " + q + ", only " + s + " in stock.";
      && |r| > 30 && r[..12] == "Cannot sell " && r[|r| - 10..] == " in stock."
      && r[12..12 + |q|] == q && r[12 + |q|..12 + |q| + 7] == ", only " && r[12 + |q| + 7..|r| - 10] == s
  {
    PartsOfMessage("Cannot sell ", q, ", only ", s, " in stock.");
  }

  /** Each part of a text assembled from five parts is found again at its place. */
  lemma PartsOfMessage(a: string, x: string, b: string, y: string, c: string)
    ensures var r := a + x + b + y + c;
      && |r| == |a| + |x| + |b| + |y| + |c|
      && r[..|a|] == a
      && r[|a|..|a| + |x|] == x
      && r[|a| + |x|..|a| + |x| + |b|] == b
      && r[|a| + |x| + |b|..|r| - |c|] == y
      && r[|r| - |c|..] == c
  {
    var r := a + x + b + y + c;
    assert r == a + (x + (b + (y + c)));
  }

  // ----- Derived values -----

  /** `availableStock`: the entries that still have units, in stock order. */
  function AvailableStock(stock: seq<StockItem>): (r: seq<StockItem>)
    ensures forall i :: 0 <= i < |r| ==> r[i].quantity > 0
    ensures IsSubsequence(r, stock)
    ensures forall item :: multiset(r)[item] == if item.quantity > 0 then multiset(stock)[item] else 0
  {
    var keep := (item: StockItem) => item.quantity > 0;
    FilterIsSubsequence(stock, keep);
    assert forall item :: multiset(Filter(stock, keep))[item] == if item.quantity > 0 then multiset(stock)[item] else 0 by {
      forall item
        ensures multiset(Filter(stock, keep))[item] == if item.quantity > 0 then multiset(stock)[item] else 0
      {
        FilterCount(stock, keep, item);
      }
    }
    Filter(stock, keep)
  }

  /** The first entry whose stock key equals `key`. */
  function FindByKey(items: seq<StockItem>, key: string): (r: Option<StockItem>)
    ensures r.None? <==> forall i :: 0 <= i < |items| ==> items[i].Key() != key
    ensures r.Some? ==> exists i :: 0 <= i < |items| && items[i] == r.value && r.value.Key() == key
                                    && forall j :: 0 <= j < i ==> items[j].Key() != key
  {
    if items == [] then None
    else if items[0].Key() == key then Some(items[0])
    else
      var r := FindByKey(items[1..], key);
      assert forall i :: 1 <= i < |items| ==> items[i] == items[1..][i - 1];
      r
  }

  /**
   * `selectedStockItem`: the first available entry the selected key names. A
   * key selects something exactly when some entry with that key still has
   * units, and what it selects is such an entry; a key whose entries all
   * dropped to zero or below selects nothing.
   */
  function SelectedItem(stock: seq<StockItem>, key: string): (r: Option<StockItem>)
    ensures r.Some? <==> exists i :: 0 <= i < |stock| && stock[i].Key() == key && stock[i].quantity > 0
    ensures r.Some? ==> r.value in stock && r.value.Key() == key && r.value.quantity > 0
  {
    SelectionIsAvailable(stock, key);
    FindByKey(AvailableStock(stock), key)
  }

  /** Availability is exactly a positive quantity. */
  lemma AvailableStockExactly(stock: seq<StockItem>, item: StockItem)
    ensures item in AvailableStock(stock) <==> item in stock && item.quantity > 0
  {
    FilterMembership(stock, (e: StockItem) => e.quantity > 0, item);
  }

  /** What the key lookup over the available entries finds, stated for `SelectedItem`. */
  lemma SelectionIsAvailable(stock: seq<StockItem>, key: string)
    ensures FindByKey(AvailableStock(stock), key).Some? <==>
      exists i :: 0 <= i < |stock| && stock[i].Key() == key && stock[i].quantity > 0
    ensures FindByKey(AvailableStock(stock), key).Some? ==>
      var item := FindByKey(AvailableStock(stock), key).value;
      item in stock && item.Key() == key && item.quantity > 0
  {
    var available := AvailableStock(stock);
    if exists i :: 0 <= i < |stock| && stock[i].Key() == key && stock[i].quantity > 0 {
      var i :| 0 <= i < |stock| && stock[i].Key() == key && stock[i].quantity > 0;
      AvailableStockExactly(stock, stock[i]);
      var j :| 0 <= j < |available| && available[j] == stock[i];
    }
    if FindByKey(available, key).Some? {
      var item := FindByKey(available, key).value;
      var j :| 0 <= j < |available| && available[j] == item && item.Key() == key;
      AvailableStockExactly(stock, item);
    }
  }

  /**
   * The most recent sale of `part`: the greatest date wins, and among sales on
   * that date the earliest recorded (the descending sort is stable).
   */
  function LatestSale(sales: seq<Sale>, part: Part): (r: Option<Sale>)
    ensures r.None? <==> forall i :: 0 <= i < |sales| ==> sales[i].Identity() != part
    ensures r.Some? ==> exists i :: 0 <= i < |sales| && sales[i] == r.value && r.value.Identity() == part
                                    && forall j :: 0 <= j < i && sales[j].Identity() == part ==> sales[j].date < r.value.date
    ensures r.Some? ==> forall j :: 0 <= j < |sales| && sales[j].Identity() == part ==> sales[j].date <= r.value.date
  {
    if sales == [] then None
    else
      var init, s := sales[..|sales| - 1], sales[|sales| - 1];
      var r := LatestSale(init, part);
      assert forall j :: 0 <= j < |init| ==> sales[j] == init[j];
      if s.Identity() == part && (r.None? || s.date > r.value.date) then Some(s) else r
  }

  /**
   * `lastSalePrice`: nothing without a selection or without a sale of the
   * selected part; otherwise the price of a sale of that part with the
   * greatest date.
   */
  function LastSalePrice(stock: seq<StockItem>, key: string, sales: seq<Sale>): (r: Option<real>)
    ensures r.None? <==>
      SelectedItem(stock, key).None? ||
      forall i :: 0 <= i < |sales| ==> sales[i].Identity() != SelectedItem(stock, key).value.Identity()
    ensures r.Some? ==>
      var part := SelectedItem(stock, key).value.Identity();
      exists i :: 0 <= i < |sales| && sales[i].Identity() == part && sales[i].salePrice == r.value
                  && forall j :: 0 <= j < |sales| && sales[j].Identity() == part ==> sales[j].date <= sales[i].date
  {
    match SelectedItem(stock, key)
    case None => None
    case Some(item) =>
      match LatestSale(sales, item.Identity())
      case None => None
      case Some(s) => Some(s.salePrice)
  }

  // ----- Submitting -----

  /** The outcome of `handleSubmit`: a sale handed to the app, or an error shown in the form. */
  datatype Submission = Emit(sale: Sale) | Refuse(error: string)

  /**
   * `handleSubmit` on the current stock view and form fields. A sale is
   * emitted exactly when a key selects an entry and the quantity does not
   * exceed that entry's units; it copies the entry's part fields and takes
   * quantity, price and date from the form.
   */
  function Submitted(stock: seq<StockItem>, key: string, quantity: int, salePrice: real, date: int, id: string)
    : (r: Submission)
    ensures r.Emit? <==> SelectedItem(stock, key).Some? && quantity <= SelectedItem(stock, key).value.quantity
    ensures SelectedItem(stock, key).None? ==> r == Refuse(SelectItemError)
    ensures SelectedItem(stock, key).Some? && quantity > SelectedItem(stock, key).value.quantity ==>
      r == Refuse(CannotSellMessage(quantity, SelectedItem(stock, key).value.quantity))
    ensures r.Emit? ==>
      && r.sale.Identity() == SelectedItem(stock, key).value.Identity()
      && r.sale.Key() == key
      && r.sale.id == id && r.sale.quantity == quantity && r.sale.salePrice == salePrice && r.sale.date == date
  {
    match SelectedItem(stock, key)
    case None => Refuse(SelectItemError)
    case Some(item) =>
      if quantity > item.quantity then Refuse(CannotSellMessage(quantity, item.quantity))
      else Emit(Sale(id, item.itemName, item.modelName, item.partNumber, quantity, salePrice, date))
  }

  /**
   * A sale the form emits against the derived stock is never an orphan: its
   * key has purchases and its part finds a stock entry (so it counts towards
   * the profit), and recording it leaves that entry with zero or more units.
   */
  lemma SaleFromFormKeepsStock(ps: seq<Purchase>, ss: seq<Sale>, key: string, quantity: int,
                               salePrice: real, date: int, id: string)
    requires Submitted(Stock(ps, ss), key, quantity, salePrice, date, id).Emit?
    ensures var s := Submitted(Stock(ps, ss), key, quantity, salePrice, date, id).sale;
      && s.Key() in KeysOf(ps)
      && PurchasedQty(ps, s.Key()) - SoldQty(ss + [s], s.Key()) >= 0
      && FindByPart(Stock(ps, ss + [s]), s.Identity()).Some?
  {
    var before := Stock(ps, ss);
    var s := Submitted(before, key, quantity, salePrice, date, id).sale;
    SelectionIsAvailable(before, key);
    var item := SelectedItem(before, key).value;
    var i :| 0 <= i < |before| && before[i] == item;
    assert before[i].Key() == KeysOf(ps)[i];
    AppendSale(ps, ss, s);
    var after := Stock(ps, ss + [s]);
    assert after[i] == before[i].(quantity := before[i].quantity - s.quantity);
    assert after[i].Identity() == s.Identity();
  }

  /** The form's own state: the selected key, the three inputs and the error line. */
  class SellFormState {
    var selectedKey: string
    var quantity: int
    var salePrice: real
    var date: int
    var error: string

    constructor (today: int)
      ensures selectedKey == "" && quantity == 1 && salePrice == 0.0 && date == today && error == ""
    {
      selectedKey, quantity, salePrice, date, error := "", 1, 0.0, today, "";
    }

    /**
     * The open/close effect: closing resets the form; opening with no
     * selection picks the first available entry.
     */
    method OnOpenChange(isOpen: bool, stock: seq<StockItem>, today: int)
      modifies this
      ensures !isOpen ==> selectedKey == "" && quantity == 1 && salePrice == 0.0 && date == today && error == ""
      ensures isOpen ==>
        && selectedKey == (if |AvailableStock(stock)| > 0 && old(selectedKey) == ""
                           then AvailableStock(stock)[0].Key() else old(selectedKey))
        && quantity == old(quantity) && salePrice == old(salePrice) && date == old(date) && error == old(error)
      ensures isOpen && |AvailableStock(stock)| > 0 && old(selectedKey) == "" ==>
        SelectedItem(stock, selectedKey) == Some(AvailableStock(stock)[0])
    {
      var availableStock := AvailableStock(stock);
      if !isOpen {
        selectedKey := "";
        quantity := 1;
        salePrice := 0.0;
        date := today;
        error := "";
      } else if |availableStock| > 0 && selectedKey == "" {
        var firstItem := availableStock[0];
        selectedKey := firstItem.Key();
      }
    }

    /** The error effect: an error shows exactly when the quantity exceeds the selected entry's units. */
    method SyncError(stock: seq<StockItem>)
      modifies this`error
      ensures var selected := SelectedItem(stock, selectedKey);
        && (error != "" <==> selected.Some? && quantity > selected.value.quantity)
        && (error != "" ==> error == OnlyInStockMessage(selected.value.quantity))
    {
      var selected := SelectedItem(stock, selectedKey);
      if selected.Some? && quantity > selected.value.quantity {
        error := OnlyInStockMessage(selected.value.quantity);
      } else {
        error := "";
      }
    }

    /** The price effect: selecting an entry proposes its average cost as the sale price. */
    method SyncSalePrice(stock: seq<StockItem>)
      modifies this`salePrice
      ensures var selected := SelectedItem(stock, selectedKey);
        salePrice == if selected.Some? then selected.value.avgPurchasePrice else old(salePrice)
    {
      var selected := SelectedItem(stock, selectedKey);
      if selected.Some? {
        salePrice := selected.value.avgPurchasePrice;
      }
    }

    /** `handleSubmit`: either a sale is handed back for the app to append, or the error is set. */
    method Submit(stock: seq<StockItem>, id: string) returns (saved: Option<Sale>)
      modifies this`error
      ensures match Submitted(stock, selectedKey, quantity, salePrice, date, id)
        case Emit(sale) => saved == Some(sale) && error == old(error)
        case Refuse(message) => saved.None? && error == message
    {
      var selected := SelectedItem(stock, selectedKey);
      if selected.None? {
        error := SelectItemError;
        return None;
      }
      var item := selected.value;
      if quantity > item.quantity {
        error := CannotSellMessage(quantity, item.quantity);
        return None;
      }
      saved := Some(Sale(id, item.itemName, item.modelName, item.partNumber, quantity, salePrice, date));
    }
  }
}

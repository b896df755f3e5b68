/**
 * The ledger handlers of App.tsx: saving a purchase (replace by id or
 * append), deleting purchases by id, appending a sale, and the wiring of the
 * delete-password gate to the purchase ledger and the stored password.
 */
module App {
  import opened Wrappers
  import opened Types
  import opened Sequences
  import opened StockDeriver
  import opened ConfirmDelete

  /** `findIndex` on ids: the first position holding `id`. */
  function IndexOfId(ps: seq<Purchase>, id: string): (r: Option<nat>)
    ensures r.None? <==> forall i :: 0 <= i < |ps| ==> ps[i].id != id
    ensures r.Some? ==> r.value < |ps| && ps[r.value].id == id
    ensures r.Some? ==> forall j :: 0 <= j < r.value ==> ps[j].id != id
  {
    if ps == [] then None
    else if ps[0].id == id then Some(0)
    else
      var rest := IndexOfId(ps[1..], id);
      assert forall i :: 1 <= i < |ps| ==> ps[i] == ps[1..][i - 1];
      match rest
      case None => None
      case Some(i) => Some(i + 1)
  }

  /**
   * The ledger after `handleSavePurchase`: a purchase whose id already occurs
   * takes the place of the first record with that id; otherwise it is appended.
   */
  function WithPurchaseSaved(prev: seq<Purchase>, purchase: Purchase): (r: seq<Purchase>)
    ensures (forall i :: 0 <= i < |prev| ==> prev[i].id != purchase.id) ==> r == prev + [purchase]
    ensures forall i :: 0 <= i < |prev| && prev[i].id == purchase.id && FirstWithId(prev, i) ==>
      |r| == |prev| && r[i] == purchase && forall j :: 0 <= j < |prev| && j != i ==> r[j] == prev[j]
  {
    match IndexOfId(prev, purchase.id)
    case Some(i) => prev[i := purchase]
    case None => prev + [purchase]
  }

  /** No record before position `i` has the id of the record at `i`. */
  predicate FirstWithId(ps: seq<Purchase>, i: nat)
    requires i < |ps|
  {
    forall j :: 0 <= j < i ==> ps[j].id != ps[i].id
  }

  /** Every record without that id occurs in `r` as often as in `prev`; none with it occurs at all. */
  ghost predicate CountsKeptExcept(r: seq<Purchase>, prev: seq<Purchase>, id: string)
  {
    forall q :: multiset(r)[q] == if q.id != id then multiset(prev)[q] else 0
  }

  /**
   * The ledger after `handleDeletePurchase`: every record with that id removed,
   * the other records kept in their relative order, each as often as it occurred.
   */
  function WithoutPurchase(prev: seq<Purchase>, id: string): (r: seq<Purchase>)
    ensures |r| <= |prev|
    ensures forall i :: 0 <= i < |r| ==> r[i].id != id
    ensures IsSubsequence(r, prev)
    ensures CountsKeptExcept(r, prev, id)
  {
    var keep := (q: Purchase) => q.id != id;
    FilterIsSubsequence(prev, keep);
    assert forall q :: multiset(Filter(prev, keep))[q] == if q.id != id then multiset(prev)[q] else 0 by {
      forall q
        ensures multiset(Filter(prev, keep))[q] == if q.id != id then multiset(prev)[q] else 0
      {
        FilterCount(prev, keep, q);
      }
    }
    Filter(prev, keep)
  }

  /** Ids are unique in the ledger; the forms keep them so, but nothing checks it. */
  predicate UniqueIds(ps: seq<Purchase>)
  {
    forall i, j :: 0 <= i < j < |ps| ==> ps[i].id != ps[j].id
  }

  /** Saving the same record twice is the same as saving it once. */
  lemma SaveIsIdempotent(prev: seq<Purchase>, purchase: Purchase)
    ensures WithPurchaseSaved(WithPurchaseSaved(prev, purchase), purchase) == WithPurchaseSaved(prev, purchase)
  {
    var once := WithPurchaseSaved(prev, purchase);
    match IndexOfId(prev, purchase.id)
    case Some(i) =>
      assert once == prev[i := purchase];
      assert forall j :: 0 <= j < i ==> once[j] == prev[j];
      assert once[i].id == purchase.id;
      var v := IndexOfId(once, purchase.id).value;
      assert v <= i && v >= i;
    case None =>
      assert once == prev + [purchase];
      assert forall j :: 0 <= j < |prev| ==> once[j] == prev[j];
      assert once[|prev|].id == purchase.id;
      var v := IndexOfId(once, purchase.id).value;
      assert v <= |prev| && v >= |prev|;
  }

  /** Saving keeps ids unique: an edit replaces the one record with its id, a new id is appended. */
  lemma SaveKeepsIdsUnique(prev: seq<Purchase>, purchase: Purchase)
    requires UniqueIds(prev)
    ensures UniqueIds(WithPurchaseSaved(prev, purchase))
  {
  }

  /** Deleting an id that does not occur leaves the ledger unchanged. */
  lemma DeleteAbsentIsNoop(prev: seq<Purchase>, id: string)
    requires forall i :: 0 <= i < |prev| ==> prev[i].id != id
    ensures WithoutPurchase(prev, id) == prev
  {
    FilterKeepsAll(prev, (q: Purchase) => q.id != id);
  }

  /** When no other record shares the id at position `i`, deleting that id removes exactly that record. */
  lemma DeleteUniqueRemovesOne(prev: seq<Purchase>, i: nat)
    requires i < |prev| && forall j :: 0 <= j < |prev| && j != i ==> prev[j].id != prev[i].id
    ensures WithoutPurchase(prev, prev[i].id) == prev[..i] + prev[i + 1..]
  {
    var id := prev[i].id;
    var before, after := prev[..i], prev[i + 1..];
    assert forall j :: 0 <= j < |before| ==> before[j].id != id by {
      forall j | 0 <= j < |before| ensures before[j].id != id {
        assert before[j] == prev[j];
      }
    }
    assert forall j :: 0 <= j < |after| ==> after[j].id != id by {
      forall j | 0 <= j < |after| ensures after[j].id != id {
        assert after[j] == prev[i + 1 + j];
      }
    }
    assert prev == before + ([prev[i]] + after);
    DeleteBetween(before, prev[i], after);
  }

  /** Deleting the id of a record that no record around it shares removes just that record. */
  lemma DeleteBetween(before: seq<Purchase>, p: Purchase, after: seq<Purchase>)
    requires forall j :: 0 <= j < |before| ==> before[j].id != p.id
    requires forall j :: 0 <= j < |after| ==> after[j].id != p.id
    ensures WithoutPurchase(before + ([p] + after), p.id) == before + after
  {
    var id := p.id;
    DeleteConcat([p], after, id);
    DeleteOnly(p);
    DeleteAbsentIsNoop(after, id);
    assert WithoutPurchase([p] + after, id) == after;
    DeleteConcat(before, [p] + after, id);
    DeleteAbsentIsNoop(before, id);
  }

  /** Deleting distributes over concatenated ledgers. */
  lemma DeleteConcat(a: seq<Purchase>, b: seq<Purchase>, id: string)
    ensures WithoutPurchase(a + b, id) == WithoutPurchase(a, id) + WithoutPurchase(b, id)
  {
    FilterConcat(a, b, (q: Purchase) => q.id != id);
  }

  /** A ledger of one record loses it when its id is deleted. */
  lemma DeleteOnly(p: Purchase)
    ensures WithoutPurchase([p], p.id) == []
  {
    assert [p][1..] == [];
  }

  /** Saving a new purchase and then deleting its id gives back the ledger before the save. */
  lemma SaveThenDeleteRestores(prev: seq<Purchase>, purchase: Purchase)
    requires forall i :: 0 <= i < |prev| ==> prev[i].id != purchase.id
    ensures WithoutPurchase(WithPurchaseSaved(prev, purchase), purchase.id) == prev
  {
    var keep := (q: Purchase) => q.id != purchase.id;
    FilterConcat(prev, [purchase], keep);
    FilterKeepsAll(prev, keep);
    assert Filter([purchase], keep) == [];
  }

  /**
   * What a save does to the stock of key `k`: an appended purchase adds its
   * units and cost; an edit takes away those of the record it replaces and
   * adds its own.
   */
  lemma SaveAdjustsTallies(prev: seq<Purchase>, purchase: Purchase, k: string)
    ensures var after := WithPurchaseSaved(prev, purchase);
      match IndexOfId(prev, purchase.id)
      case None =>
        && PurchasedQty(after, k) == PurchasedQty(prev, k) + PurchasedQty([purchase], k)
        && PurchasedCost(after, k) == PurchasedCost(prev, k) + PurchasedCost([purchase], k)
      case Some(i) =>
        && PurchasedQty(after, k) == PurchasedQty(prev, k) - PurchasedQty([prev[i]], k) + PurchasedQty([purchase], k)
        && PurchasedCost(after, k) == PurchasedCost(prev, k) - PurchasedCost([prev[i]], k) + PurchasedCost([purchase], k)
  {
    match IndexOfId(prev, purchase.id)
    case None =>
      TalliesConcat(prev, [purchase], k);
    case Some(i) =>
      var before, after := prev[..i], prev[i + 1..];
      assert prev == before + [prev[i]] + after;
      assert WithPurchaseSaved(prev, purchase) == before + [purchase] + after;
      TalliesConcat(before + [prev[i]], after, k);
      TalliesConcat(before, [prev[i]], k);
      TalliesConcat(before + [purchase], after, k);
      TalliesConcat(before, [purchase], k);
  }

  /** When no other record shares its id, deleting a record takes its units and cost out of its key's stock. */
  lemma DeleteAdjustsTallies(prev: seq<Purchase>, i: nat, k: string)
    requires i < |prev| && forall j :: 0 <= j < |prev| && j != i ==> prev[j].id != prev[i].id
    ensures PurchasedQty(WithoutPurchase(prev, prev[i].id), k) == PurchasedQty(prev, k) - PurchasedQty([prev[i]], k)
    ensures PurchasedCost(WithoutPurchase(prev, prev[i].id), k) == PurchasedCost(prev, k) - PurchasedCost([prev[i]], k)
  {
    var before, after := prev[..i], prev[i + 1..];
    DeleteUniqueRemovesOne(prev, i);
    assert prev == before + [prev[i]] + after;
    TalliesWithout(before, prev[i], after, k);
  }

  /** Taking one record out of a ledger takes its units and cost out of every key's tallies. */
  lemma TalliesWithout(before: seq<Purchase>, x: Purchase, after: seq<Purchase>, k: string)
    ensures PurchasedQty(before + after, k) == PurchasedQty(before + [x] + after, k) - PurchasedQty([x], k)
    ensures PurchasedCost(before + after, k) == PurchasedCost(before + [x] + after, k) - PurchasedCost([x], k)
  {
    TalliesConcat(before, after, k);
    TalliesConcat(before + [x], after, k);
    TalliesConcat(before, [x], k);
  }

  /** The persisted state of the app: both ledgers and the stored delete password. */
  class AppState {
    var purchases: seq<Purchase>
    var sales: seq<Sale>
    var deletePassword: string

    constructor ()
      ensures purchases == [] && sales == [] && deletePassword == ""
    {
      purchases, sales, deletePassword := [], [], "";
    }

    /** The stock view of the current ledgers. */
    function CurrentStock(): (r: seq<StockItem>)
      reads this
      ensures |r| == |KeysOf(purchases)|
    {
      Stock(purchases, sales)
    }

    /** `handleSavePurchase`: copy the ledger, overwrite the first record with the id, or append. */
    method SavePurchase(purchase: Purchase)
      modifies this
      ensures purchases == WithPurchaseSaved(old(purchases), purchase)
      ensures sales == old(sales) && deletePassword == old(deletePassword)
    {
      var existingIndex := IndexOfId(purchases, purchase.id);
      if existingIndex.Some? {
        var updated := purchases;
        updated := updated[existingIndex.value := purchase];
        purchases := updated;
      } else {
        purchases := purchases + [purchase];
      }
    }

    /** `handleDeletePurchase`: keep the records whose id differs. */
    method DeletePurchase(id: string)
      modifies this
      ensures purchases == WithoutPurchase(old(purchases), id)
      ensures sales == old(sales) && deletePassword == old(deletePassword)
    {
      purchases := WithoutPurchase(purchases, id);
    }

    /** `handleSaveSale`: every sale is appended, exactly once. */
    method SaveSale(sale: Sale)
      modifies this
      ensures sales == old(sales) + [sale]
      ensures purchases == old(purchases) && deletePassword == old(deletePassword)
    {
      sales := sales + [sale];
    }

    /**
     * The confirm button of the delete modal as the app wires it: a password
     * set in the modal is stored, and an accepted confirmation deletes the
     * pending purchase id, unless that id is missing or empty.
     */
    method ConfirmDeletion(gate: DeleteGate, purchaseToDelete: Option<string>)
      modifies this, gate`error
      ensures var v := Judge(old(deletePassword), gate.password, gate.newPassword, gate.confirmNewPassword);
        && deletePassword == (if v.Accepted? && v.save.Some? then v.save.value else old(deletePassword))
        && purchases == (if v.Accepted? && purchaseToDelete.Some? && purchaseToDelete.value != ""
                         then WithoutPurchase(old(purchases), purchaseToDelete.value)
                         else old(purchases))
        && sales == old(sales)
        && (v.Rejected? ==> gate.error == v.error)
        && (v.Accepted? ==> gate.error == old(gate.error))
    {
      var saved, confirmed := gate.HandleConfirm(deletePassword);
      if saved.Some? {
        deletePassword := saved.value;
      }
      if confirmed && purchaseToDelete.Some? && purchaseToDelete.value != "" {
        DeletePurchase(purchaseToDelete.value);
      }
    }
  }
}

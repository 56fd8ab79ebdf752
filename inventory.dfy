// The inventory ledger: inventory items, each with a denormalised copy of
// its product, a stock quantity, a storage location and an append-only list
// of stock transactions. Every operation is a function of the collection it
// is given, because the screens that call it hand it the collection they
// rendered with; module InventoryContext holds the live collection.
module Inventory {
  import opened Common

  datatype TxType = In | Out | Adjustment | Other(name: string)

  /** The product fields an inventory item keeps a copy of. */
  datatype ProductRef = ProductRef(id: int, name: string, sku: string, category: string, price: real)

  datatype Location = Location(warehouse: string, section: string, shelf: string)

  /** `quantity` is a magnitude for in and out, the new stock for an adjustment. */
  datatype Transaction = Transaction(
    id: int, txType: TxType, quantity: int, date: string, reason: string, performedBy: string)

  datatype InventoryItem = InventoryItem(
    id: int,
    product: ProductRef,
    quantity: int,
    location: Location,
    lastUpdated: string,
    createdAt: string,
    transactions: seq<Transaction>)

  /** What a caller asks addTransaction to record. */
  datatype TxRequest = TxRequest(txType: TxType, quantity: int, reason: string)

  /** addTransaction's answer: null, `{error}`, or the updated item. */
  datatype TxOutcome = NotFound | Rejected(error: string) | Recorded(item: InventoryItem)

  /** A product as the ledger reads it when it seeds an item. */
  datatype Product = Product(
    id: int, name: string, sku: string, category: string, price: real, stockQuantity: Option<int>)

  const NotEnoughStock := "Not enough stock available"
  const CurrentUser := "Current User"
  const SystemUser := "System"
  const InitialStockReason := "Initial stock from product creation"
  const DefaultLocation := Location("Main Warehouse", "A", "1")

  function Ids(items: seq<InventoryItem>): seq<int>
  {
    seq(|items|, i requires 0 <= i < |items| => items[i].id)
  }

  function TxIds(txs: seq<Transaction>): seq<int>
  {
    seq(|txs|, i requires 0 <= i < |txs| => txs[i].id)
  }

  predicate StrictlyIncreasing(ids: seq<int>)
  {
    forall i, j :: 0 <= i < j < |ids| ==> ids[i] < ids[j]
  }

  /** getInventoryById: the first item whose id equals parseInt(inventoryId). */
  function GetInventoryById(items: seq<InventoryItem>, inventoryId: IdArg): (r: Option<InventoryItem>)
    ensures r.None? <==> forall i :: 0 <= i < |items| ==> !MatchesParsed(items[i].id, inventoryId)
    ensures r.Some? ==> exists k :: 0 <= k < |items| && items[k] == r.value &&
                                    MatchesParsed(items[k].id, inventoryId) &&
                                    forall i :: 0 <= i < k ==> !MatchesParsed(items[i].id, inventoryId)
  {
    Find(items, (item: InventoryItem) => MatchesParsed(item.id, inventoryId))
  }

  /** The effect of one transaction on a stock quantity, before any check. */
  function Apply(current: int, txType: TxType, amount: int): int
  {
    match txType
    case In => current + amount
    case Out => current - amount
    case Adjustment => amount
    case Other(_) => current
  }

  /** The stock a request leaves, or None when an out would overdraw. */
  function NextQuantity(current: int, req: TxRequest): Option<int>
  {
    var q := Apply(current, req.txType, req.quantity);
    if req.txType == Out && q < 0 then None else Some(q)
  }

  /** What a recorded transaction does to its item: the stock follows the
      type's rule, one entry with an id above all earlier ones is appended,
      and nothing else but the timestamp changes. */
  ghost predicate LedgerStep(before: InventoryItem, req: TxRequest, now: string, after: InventoryItem)
  {
    var n := |before.transactions|;
    && after.id == before.id
    && after.product == before.product
    && after.location == before.location
    && after.createdAt == before.createdAt
    && after.lastUpdated == now
    && (req.txType == In ==> after.quantity == before.quantity + req.quantity)
    && (req.txType == Out ==> after.quantity == before.quantity - req.quantity >= 0)
    && (req.txType == Adjustment ==> after.quantity == req.quantity)
    && (req.txType.Other? ==> after.quantity == before.quantity)
    && |after.transactions| == n + 1
    && after.transactions[..n] == before.transactions
    && after.transactions[n].txType == req.txType
    && after.transactions[n].quantity == req.quantity
    && after.transactions[n].reason == req.reason
    && after.transactions[n].date == now
    && after.transactions[n].performedBy == CurrentUser
    && (forall i :: 0 <= i < n ==> before.transactions[i].id < after.transactions[n].id)
    && (n == 0 ==> after.transactions[n].id == 1)
    && (n > 0 ==> after.transactions[n].id - 1 in TxIds(before.transactions))
  }

  /** addTransaction(inventoryId, transaction): record a stock movement. */
  function AddTransaction(items: seq<InventoryItem>, inventoryId: IdArg, req: TxRequest, now: string)
    : (r: (TxOutcome, seq<InventoryItem>))
    ensures r.0.NotFound? <==> GetInventoryById(items, inventoryId).None?
    ensures r.0.NotFound? ==> r.1 == items
    ensures r.0.Rejected? <==>
      GetInventoryById(items, inventoryId).Some? && req.txType == Out &&
      req.quantity > GetInventoryById(items, inventoryId).value.quantity
    ensures r.0.Rejected? ==> r.0.error == NotEnoughStock && r.1 == items
    ensures r.0.Recorded? ==> LedgerStep(GetInventoryById(items, inventoryId).value, req, now, r.0.item)
    ensures r.0.Recorded? && GetInventoryById(items, inventoryId).value.quantity >= 0 && req.quantity >= 0
      ==> r.0.item.quantity >= 0
    ensures |r.1| == |items| && Ids(r.1) == Ids(items)
    ensures forall i :: 0 <= i < |items| ==>
      r.1[i] == if r.0.Recorded? && StrictlyEquals(items[i].id, inventoryId) then r.0.item else items[i]
  {
    match GetInventoryById(items, inventoryId)
    case None => (NotFound, items)
    case Some(item) =>
      match NextQuantity(item.quantity, req)
      case None => (Rejected(NotEnoughStock), items)
      case Some(q) =>
        assert forall i :: 0 <= i < |item.transactions| ==> TxIds(item.transactions)[i] == item.transactions[i].id;
        var tx := Transaction(NextId(TxIds(item.transactions)), req.txType, req.quantity, now, req.reason, CurrentUser);
        var updated := item.(quantity := q, lastUpdated := now, transactions := item.transactions + [tx]);
        (Recorded(updated),
         seq(|items|, i requires 0 <= i < |items| =>
           if StrictlyEquals(items[i].id, inventoryId) then updated else items[i]))
  }

  /** updateInventory(updatedInventory): stamp the record and put it in place
      of every item with its id. */
  function UpdateInventory(items: seq<InventoryItem>, updated: InventoryItem, now: string)
    : (r: (InventoryItem, seq<InventoryItem>))
    ensures r.0 == updated.(lastUpdated := now)
    ensures |r.1| == |items| && Ids(r.1) == Ids(items)
    ensures forall i :: 0 <= i < |items| ==>
      r.1[i] == if items[i].id == updated.id then r.0 else items[i]
  {
    var stamped := updated.(lastUpdated := now);
    (stamped, seq(|items|, i requires 0 <= i < |items| => if items[i].id == updated.id then stamped else items[i]))
  }

  /** `product.stockQuantity || 0`. */
  function StartingStock(product: Product): int
  {
    match product.stockQuantity
    case Some(n) => n
    case None => 0
  }

  /** addInventoryItem(product): a new item for a product, seeded with one
      synthetic stock-in entry. */
  function AddInventoryItem(items: seq<InventoryItem>, product: Product, now: string)
    : (r: (InventoryItem, seq<InventoryItem>))
    ensures r.1 == items + [r.0]
    ensures forall i :: 0 <= i < |items| ==> items[i].id < r.0.id
    ensures |items| == 0 ==> r.0.id == 1
    ensures |items| > 0 ==> r.0.id - 1 in Ids(items)
    ensures r.0.product == ProductRef(product.id, product.name, product.sku, product.category, product.price)
    ensures r.0.quantity == StartingStock(product)
    ensures r.0.location == DefaultLocation
    ensures r.0.createdAt == now && r.0.lastUpdated == now
    ensures r.0.transactions == [Transaction(1, In, r.0.quantity, now, InitialStockReason, SystemUser)]
  {
    var ids := Ids(items);
    assert forall i :: 0 <= i < |items| ==> items[i].id == ids[i];
    var stock := StartingStock(product);
    var item := InventoryItem(
      NextId(ids),
      ProductRef(product.id, product.name, product.sku, product.category, product.price),
      stock,
      DefaultLocation,
      now,
      now,
      [Transaction(1, In, stock, now, InitialStockReason, SystemUser)]);
    (item, items + [item])
  }

  // ---------------------------------------------------------------------
  // The stock an item's ledger accounts for.

  /** The stock left by replaying a ledger from zero. */
  function LedgerQuantity(txs: seq<Transaction>): int
  {
    if |txs| == 0 then 0
    else
      var last := txs[|txs| - 1];
      Apply(LedgerQuantity(txs[..|txs| - 1]), last.txType, last.quantity)
  }

  /** The item's stock is what its ledger accounts for. */
  ghost predicate Balanced(item: InventoryItem)
  {
    item.quantity == LedgerQuantity(item.transactions)
  }

  /** A new item's stock is accounted for by its seed entry. */
  lemma AddInventoryItemBalanced(items: seq<InventoryItem>, product: Product, now: string)
    ensures Balanced(AddInventoryItem(items, product, now).0)
  {
    var item := AddInventoryItem(items, product, now).0;
    assert item.transactions[..0] == [];
  }

  /** Recording a transaction keeps stock and ledger in agreement. */
  lemma {:induction false} AddTransactionKeepsBalance(
    items: seq<InventoryItem>, inventoryId: IdArg, req: TxRequest, now: string)
    requires GetInventoryById(items, inventoryId).Some?
    requires Balanced(GetInventoryById(items, inventoryId).value)
    requires AddTransaction(items, inventoryId, req, now).0.Recorded?
    ensures Balanced(AddTransaction(items, inventoryId, req, now).0.item)
  {
    var before := GetInventoryById(items, inventoryId).value;
    var after := AddTransaction(items, inventoryId, req, now).0.item;
    var n := |before.transactions|;
    assert after.transactions[..n] == before.transactions;
    assert LedgerQuantity(after.transactions) == Apply(LedgerQuantity(before.transactions), req.txType, req.quantity);
  }

  /** The new entry's id is exactly one above the largest earlier entry id,
      or 1 for an empty ledger. */
  lemma {:induction false} AddTransactionEntryIdIsNext(
    items: seq<InventoryItem>, inventoryId: IdArg, req: TxRequest, now: string)
    requires AddTransaction(items, inventoryId, req, now).0.Recorded?
    ensures var before := GetInventoryById(items, inventoryId).value.transactions;
            var after := AddTransaction(items, inventoryId, req, now).0.item.transactions;
            |after| == |before| + 1 && after[|before|].id == NextId(TxIds(before))
  {
    var before := GetInventoryById(items, inventoryId).value.transactions;
    var after := AddTransaction(items, inventoryId, req, now).0.item.transactions;
    var n := |before|;
    if n > 0 {
      forall i | 0 <= i < n ensures TxIds(before)[i] < after[n].id {
        assert TxIds(before)[i] == before[i].id;
      }
      NextIdIs(TxIds(before), after[n].id);
    }
  }

  /** Recording a transaction keeps the item's entry ids strictly increasing. */
  lemma {:induction false} AddTransactionKeepsIdsIncreasing(
    items: seq<InventoryItem>, inventoryId: IdArg, req: TxRequest, now: string)
    requires GetInventoryById(items, inventoryId).Some?
    requires StrictlyIncreasing(TxIds(GetInventoryById(items, inventoryId).value.transactions))
    requires AddTransaction(items, inventoryId, req, now).0.Recorded?
    ensures StrictlyIncreasing(TxIds(AddTransaction(items, inventoryId, req, now).0.item.transactions))
  {
    var before := GetInventoryById(items, inventoryId).value.transactions;
    var after := AddTransaction(items, inventoryId, req, now).0.item.transactions;
    var n := |before|;
    forall i, j | 0 <= i < j < |after| ensures TxIds(after)[i] < TxIds(after)[j] {
      assert after[i] == before[i];
      if j < n {
        assert after[j] == before[j];
        assert TxIds(before)[i] < TxIds(before)[j];
      }
    }
  }

  /** Entry ids numbered 1..n stay numbered 1..n+1. */
  lemma {:induction false} AddTransactionKeepsIdsConsecutive(
    items: seq<InventoryItem>, inventoryId: IdArg, req: TxRequest, now: string)
    requires GetInventoryById(items, inventoryId).Some?
    requires var txs := GetInventoryById(items, inventoryId).value.transactions;
             forall i :: 0 <= i < |txs| ==> txs[i].id == i + 1
    requires AddTransaction(items, inventoryId, req, now).0.Recorded?
    ensures var txs := AddTransaction(items, inventoryId, req, now).0.item.transactions;
            forall i :: 0 <= i < |txs| ==> txs[i].id == i + 1
  {
    var before := GetInventoryById(items, inventoryId).value.transactions;
    var after := AddTransaction(items, inventoryId, req, now).0.item.transactions;
    var n := |before|;
    if n > 0 {
      assert TxIds(before)[n - 1] == n;
      NextIdIs(TxIds(before), n + 1);
    }
    forall i | 0 <= i < |after| ensures after[i].id == i + 1 {
      if i < n {
        assert after[i] == before[i];
      }
    }
  }

  // ---------------------------------------------------------------------
  // Collection-level facts.

  /** updateInventory with an id no item has leaves the collection as it was. */
  lemma UpdateInventoryNoMatch(items: seq<InventoryItem>, updated: InventoryItem, now: string)
    requires forall i :: 0 <= i < |items| ==> items[i].id != updated.id
    ensures UpdateInventory(items, updated, now).1 == items
  {
  }

  /** After updateInventory, looking the id up finds the stamped record. */
  lemma {:induction false} UpdateInventoryThenGet(items: seq<InventoryItem>, updated: InventoryItem, now: string)
    requires updated.id in Ids(items)
    ensures GetInventoryById(UpdateInventory(items, updated, now).1, IntArg(updated.id)) ==
            Some(updated.(lastUpdated := now))
  {
    var next := UpdateInventory(items, updated, now).1;
    var k :| 0 <= k < |items| && Ids(items)[k] == updated.id;
    assert MatchesParsed(next[k].id, IntArg(updated.id));
  }

  /** After a recorded transaction, looking the id up finds the updated item. */
  lemma {:induction false} AddTransactionThenGet(items: seq<InventoryItem>, id: int, req: TxRequest, now: string)
    requires AddTransaction(items, IntArg(id), req, now).0.Recorded?
    ensures GetInventoryById(AddTransaction(items, IntArg(id), req, now).1, IntArg(id)) ==
            Some(AddTransaction(items, IntArg(id), req, now).0.item)
  {
    var r := AddTransaction(items, IntArg(id), req, now);
    var k :| 0 <= k < |items| && items[k] == GetInventoryById(items, IntArg(id)).value &&
             MatchesParsed(items[k].id, IntArg(id));
    assert MatchesParsed(r.1[k].id, IntArg(id));
  }

  /** Every store operation on inventory keeps the item ids distinct. */
  lemma AddInventoryItemKeepsIdsDistinct(items: seq<InventoryItem>, product: Product, now: string)
    requires Distinct(Ids(items))
    ensures Distinct(Ids(AddInventoryItem(items, product, now).1))
  {
    var r := AddInventoryItem(items, product, now);
    assert forall i :: 0 <= i < |items| ==> Ids(r.1)[i] == Ids(items)[i];
  }

  /** A string id argument finds an item through parseInt, but the item is
      written back only where its id is `===` the argument, so the stored
      collection does not change although the updated item is returned. */
  lemma AddTransactionTextIdWritesNothing(items: seq<InventoryItem>, parsed: Option<int>, req: TxRequest, now: string)
    ensures AddTransaction(items, OtherArg(parsed), req, now).1 == items
  {
  }
}

// The live inventory collection and the operations that replace it.
module InventoryContext {
  import opened Common
  import opened Inventory

  class InventoryProvider {
    var inventoryItems: seq<InventoryItem>

    ghost predicate Valid()
      reads this
    {
      Distinct(Ids(inventoryItems))
    }

    constructor (initial: seq<InventoryItem>)
      requires Distinct(Ids(initial))
      ensures Valid() && inventoryItems == initial
    {
      inventoryItems := initial;
    }

    /** addTransaction, stepping the new quantity through the type's branch. */
    method AddTransaction(inventoryId: IdArg, req: TxRequest, now: string) returns (outcome: TxOutcome)
      requires Valid()
      modifies this
      ensures Valid()
      ensures (outcome, inventoryItems) == Inventory.AddTransaction(old(inventoryItems), inventoryId, req, now)
    {
      var found := GetInventoryById(inventoryItems, inventoryId);
      if found.None? {
        return NotFound;
      }
      var item := found.value;
      var newTransaction := Transaction(NextId(TxIds(item.transactions)), req.txType, req.quantity, now, req.reason, CurrentUser);
      var newQuantity := item.quantity;
      if req.txType == In {
        newQuantity := newQuantity + req.quantity;
      } else if req.txType == Out {
        newQuantity := newQuantity - req.quantity;
        if newQuantity < 0 {
          return Rejected(NotEnoughStock);
        }
      } else if req.txType == Adjustment {
        newQuantity := req.quantity;
      }
      var updated := item.(quantity := newQuantity, lastUpdated := now, transactions := item.transactions + [newTransaction]);
      var items := inventoryItems;
      inventoryItems := seq(|items|, i requires 0 <= i < |items| =>
        if StrictlyEquals(items[i].id, inventoryId) then updated else items[i]);
      outcome := Recorded(updated);
      assert Ids(inventoryItems) == Ids(items);
    }

    /** updateInventory: replace the record with the same id. */
    method UpdateInventory(updatedInventory: InventoryItem, now: string) returns (stamped: InventoryItem)
      requires Valid()
      modifies this
      ensures Valid()
      ensures (stamped, inventoryItems) == Inventory.UpdateInventory(old(inventoryItems), updatedInventory, now)
    {
      stamped := updatedInventory.(lastUpdated := now);
      var items := inventoryItems;
      inventoryItems := seq(|items|, i requires 0 <= i < |items| =>
        if items[i].id == updatedInventory.id then stamped else items[i]);
      assert Ids(inventoryItems) == Ids(items);
    }

    /** addInventoryItem: append a seeded item for a product. */
    method AddInventoryItem(product: Product, now: string) returns (item: InventoryItem)
      requires Valid()
      modifies this
      ensures Valid()
      ensures (item, inventoryItems) == Inventory.AddInventoryItem(old(inventoryItems), product, now)
    {
      AddInventoryItemKeepsIdsDistinct(inventoryItems, product, now);
      item := Inventory.AddInventoryItem(inventoryItems, product, now).0;
      inventoryItems := inventoryItems + [item];
    }
  }
}

// The product/inventory coordinator: adding a product also seeds its
// inventory item, and editing a product copies the edited fields into the
// inventory item that refers to it. The product store itself is not part of
// this model; what its add and update return is given to these operations.
module ProductInventory {
  import opened Common
  import opened Inventory
  import opened InventoryContext

  /** A stock value JavaScript treats as true: present and not 0. */
  predicate Truthy(stock: Option<int>)
  {
    stock.Some? && stock.value != 0
  }

  /** The item an edit of `product` leaves: the copied product fields take
      the edited values, the stock takes `stockQuantity || quantity`, and the
      ledger is not touched. */
  function SyncedItem(item: InventoryItem, product: Product): (r: InventoryItem)
    ensures r.product.id == item.product.id
    ensures r.product.name == product.name && r.product.sku == product.sku
    ensures r.product.category == product.category && r.product.price == product.price
    ensures Truthy(product.stockQuantity) ==> r.quantity == product.stockQuantity.value
    ensures !Truthy(product.stockQuantity) ==> r.quantity == item.quantity
    ensures r.id == item.id && r.location == item.location && r.transactions == item.transactions
    ensures r.createdAt == item.createdAt && r.lastUpdated == item.lastUpdated
  {
    item.(
      product := item.product.(name := product.name, sku := product.sku,
                               category := product.category, price := product.price),
      quantity := if Truthy(product.stockQuantity) then product.stockQuantity.value else item.quantity)
  }

  /** A stockQuantity of 0 does not zero the stock. */
  lemma ZeroStockKeepsQuantity(item: InventoryItem, product: Product)
    requires product.stockQuantity == Some(0)
    ensures SyncedItem(item, product).quantity == item.quantity
  {
  }

  /** Copying the same product twice changes nothing more. */
  lemma SyncedItemIdempotent(item: InventoryItem, product: Product)
    ensures SyncedItem(SyncedItem(item, product), product) == SyncedItem(item, product)
  {
  }

  /** A synced stock change leaves the ledger behind: an item whose stock
      agreed with its ledger no longer does once a different truthy stock
      is copied in. */
  lemma SyncBypassesLedger(item: InventoryItem, product: Product)
    requires Balanced(item)
    requires Truthy(product.stockQuantity) && product.stockQuantity.value != item.quantity
    ensures !Balanced(SyncedItem(item, product))
  {
  }

  /** The position of the first inventory item that refers to a product. */
  function ItemIndexForProduct(items: seq<InventoryItem>, productId: int): Option<nat>
  {
    FirstIndex(items, (item: InventoryItem) => item.product.id == productId)
  }

  /** In a store with distinct item ids, writing back a synced item changes
      that one item and no other. */
  lemma {:induction false} SyncTouchesOneItem(items: seq<InventoryItem>, k: nat, product: Product, now: string)
    requires Distinct(Ids(items))
    requires k < |items|
    ensures var next := UpdateInventory(items, SyncedItem(items[k], product), now).1;
            |next| == |items| &&
            next[k] == SyncedItem(items[k], product).(lastUpdated := now) &&
            forall i :: 0 <= i < |items| && i != k ==> next[i] == items[i]
  {
    forall i | 0 <= i < |items| && i != k ensures items[i].id != items[k].id {
      assert Ids(items)[i] == items[i].id && Ids(items)[k] == items[k].id;
    }
  }

  /** addProduct(productData): `created` is what the product store's add
      returned; an inventory item is seeded only when that is a product. */
  method AddProduct(inventory: InventoryProvider, created: Option<Product>, now: string)
    returns (result: Option<Product>)
    requires inventory.Valid()
    modifies inventory
    ensures inventory.Valid()
    ensures result == created
    ensures created.None? ==> inventory.inventoryItems == old(inventory.inventoryItems)
    ensures created.Some? ==>
      inventory.inventoryItems == AddInventoryItem(old(inventory.inventoryItems), created.value, now).1
  {
    if created.Some? {
      var seeded := inventory.AddInventoryItem(created.value, now);
    }
    result := created;
  }

  /** updateProductWithInventory(updatedProduct): `productResult` is what the
      product store's update returned, and is returned unchanged. Then the
      first inventory item that refers to the product, if any, is synced. */
  method UpdateProductWithInventory<R(==)>(
    inventory: InventoryProvider, updatedProduct: Product, productResult: R, now: string)
    returns (result: R)
    requires inventory.Valid()
    modifies inventory
    ensures inventory.Valid()
    ensures result == productResult
    ensures ItemIndexForProduct(old(inventory.inventoryItems), updatedProduct.id).None? ==>
      inventory.inventoryItems == old(inventory.inventoryItems)
    ensures ItemIndexForProduct(old(inventory.inventoryItems), updatedProduct.id).Some? ==>
      var k := ItemIndexForProduct(old(inventory.inventoryItems), updatedProduct.id).value;
      var before := old(inventory.inventoryItems);
      |inventory.inventoryItems| == |before| &&
      inventory.inventoryItems[k] == SyncedItem(before[k], updatedProduct).(lastUpdated := now) &&
      forall i :: 0 <= i < |before| && i != k ==> inventory.inventoryItems[i] == before[i]
  {
    result := productResult;
    var found := ItemIndexForProduct(inventory.inventoryItems, updatedProduct.id);
    if found.Some? {
      var k := found.value;
      SyncTouchesOneItem(inventory.inventoryItems, k, updatedProduct, now);
      var stamped := inventory.UpdateInventory(SyncedItem(inventory.inventoryItems[k], updatedProduct), now);
    }
  }
}

# WholesaleFlow record stores, in Dafny

WholesaleFlow is a small wholesale back office. Its logic lives in a few
in-memory record stores and the pages that call them. This project models:

- the **inventory ledger**: items with a stock quantity, a location and a
  list of stock transactions (`in`, `out`, `adjustment`). It covers
  `addTransaction`, `updateInventory`, `getInventoryById` and
  `addInventoryItem`.
- the **staff store** and the **customer store**: add, lookup, update,
  delete, and the staff active/inactive toggle.
- the **product/inventory coordinator**. When a product is added, it seeds
  that product's inventory item. When a product is edited, it copies the
  edited fields into the item.
- the **role gate** on protected server routes. It answers 401, 403 or
  "next".
- the **bulk update page**: selection, validation, and a loop that calls
  updateInventory for every selected item. As written, only the last of
  those writes is kept.
- the **inventory edit page**: validation, and the adjustment and in/out
  branches of its submit handler.

Each store operation is a function of the collection it is given. It
returns what the store returns and the collection the store keeps
(`Inventory`, `Staff`, `Customers`). A provider class
(`InventoryContext.InventoryProvider`, `StaffContext.StaffProvider`,
`CustomerContext.CustomerProvider`) holds the live collection in a `seq`
field. Its methods replace that field, and their contracts tie the new
contents to the functions.

Store ids are compared with other ids in two ways:

- lookups compare the stored id with `parseInt(argument)`;
- customer delete and the write-back of `addTransaction` compare with
  `===`, with no conversion.

`Common.IdArg` keeps both: a number, or another value together with what
`parseInt` makes of it.

Every store numbers a new record one above the largest id in use, or 1 when
the store is empty. Ids are therefore not always consecutive, and an id is
handed out again once the record with the highest id has been deleted
(`Staff.DeleteMaxThenAddReusesId`, `Customers.DeleteMaxThenAddReusesId`).

The page handlers make several store calls in one event. Each store call
replaces the collection with a copy of the collection that existed when the
page was rendered. Of several such replacements, the last one is what the
store keeps. The pages are modelled with that rule: a handler's result is
the collection named by its last store call. This is the source of the
findings below.

## Model

| member | source | states |
|---|---|---|
| Common.NextId | frontend/src/context/InventoryContext.jsx:178-180 | The new id is above every id in use. It is 1 for an empty store. Otherwise its predecessor is an id in use, so it is exactly max + 1. |
| Common.NextIdIs | frontend/src/context/StaffContext.jsx:85 | Any k that is above every id, and whose predecessor is in use, is the next id: the "max + 1" rule determines the id uniquely. |
| Common.NextIdAfterRemovingMax | frontend/src/context/CustomerContext.jsx:72-74 | Removing every record with the highest id m, while m - 1 stays, makes m the next id again. |
| Inventory.GetInventoryById | frontend/src/context/InventoryContext.jsx:171-173 | Returns nothing exactly when no item's id equals parseInt of the argument. Otherwise it returns the first such item. |
| Inventory.AddTransaction | frontend/src/context/InventoryContext.jsx:108-156 | Unknown id: NotFound, nothing changes. An `out` above the stock: "Not enough stock available", nothing changes. Otherwise: `in` adds, `out` subtracts, `adjustment` sets, any other type keeps the stock. One entry is appended, with the request's type, quantity and reason, the date, "Current User", and an id one above the largest earlier entry id (1 when the ledger is empty). Earlier entries are kept. Non-negative stock with a non-negative amount stays non-negative. The item is written back only where its id is `===` the argument. Every other item, the length and the ids are unchanged. |
| Inventory.UpdateInventory | frontend/src/context/InventoryContext.jsx:159-168 | The returned record is the argument stamped with lastUpdated. It replaces exactly the items with its id. Length, order, ids and all other items are kept. |
| Inventory.AddInventoryItem | frontend/src/context/InventoryContext.jsx:176-218 | Appends one item with an id above all others (1 when the store is empty). It copies the product's id, name, sku, category and price. The stock is `stockQuantity` or 0, at Main Warehouse / A / 1, with both timestamps set. The ledger is one `in` entry with id 1 for the starting stock, by "System". |
| Inventory.AddInventoryItemBalanced | frontend/src/context/InventoryContext.jsx:195-211 | A new item's stock equals what its ledger accounts for. |
| Inventory.AddTransactionKeepsBalance | frontend/src/context/InventoryContext.jsx:129-148 | If an item's stock equals the replay of its ledger, this still holds after any recorded transaction. |
| Inventory.AddTransactionEntryIdIsNext | frontend/src/context/InventoryContext.jsx:113-116 | The ledger grows by one entry, whose id is exactly NextId of the earlier entry ids: max + 1, or 1 when the ledger is empty. |
| Inventory.AddTransactionKeepsIdsIncreasing | frontend/src/context/InventoryContext.jsx:113-127 | Strictly increasing entry ids stay strictly increasing. |
| Inventory.AddTransactionKeepsIdsConsecutive | frontend/src/context/InventoryContext.jsx:113-116 | Entry ids numbered 1..n become 1..n+1. |
| Inventory.UpdateInventoryNoMatch | frontend/src/context/InventoryContext.jsx:163-165 | An update for an id that no item has leaves the collection as it was. |
| Inventory.UpdateInventoryThenGet | frontend/src/context/InventoryContext.jsx:159-173 | After an update, looking up its id finds the stamped record. |
| Inventory.AddTransactionThenGet | frontend/src/context/InventoryContext.jsx:142-155 | After a recorded transaction with a numeric id, looking up the id finds the updated item. |
| Inventory.AddInventoryItemKeepsIdsDistinct | frontend/src/context/InventoryContext.jsx:178-216 | Adding an item keeps the item ids distinct. |
| Inventory.AddTransactionTextIdWritesNothing | frontend/src/context/InventoryContext.jsx:108-155 | Given a non-numeric id, the lookup finds the item through parseInt. But the write-back compares with `===`, so the stored collection does not change. |
| InventoryContext.InventoryProvider.constructor | frontend/src/context/InventoryContext.jsx:9-15 | The provider starts with the given collection, whose ids are distinct. |
| InventoryContext.InventoryProvider.AddTransaction | frontend/src/context/InventoryContext.jsx:108-156 | Steps the new quantity through the type's branch. It returns and keeps exactly what Inventory.AddTransaction gives, and item ids stay distinct. |
| InventoryContext.InventoryProvider.UpdateInventory | frontend/src/context/InventoryContext.jsx:159-168 | Keeps exactly what Inventory.UpdateInventory gives. Item ids stay distinct. |
| InventoryContext.InventoryProvider.AddInventoryItem | frontend/src/context/InventoryContext.jsx:176-218 | Keeps exactly what Inventory.AddInventoryItem gives. Item ids stay distinct. |
| Staff.GetStaffMemberById | frontend/src/context/StaffContext.jsx:77-79 | Returns nothing exactly when no record's id equals parseInt of the argument. Otherwise it returns the first such record. |
| Staff.MergeEmptyPatch | frontend/src/context/StaffContext.jsx:98-102 | A patch that names no field only refreshes updatedAt. |
| Staff.MergeIdempotent | frontend/src/context/StaffContext.jsx:98-102 | Merging the same patch twice gives the same record as merging it once. |
| Staff.AddStaffMember | frontend/src/context/StaffContext.jsx:82-92 | Appends the caller's record with a new id above all others (1 when the store is empty), and sets both timestamps. Any id in the input is ignored. Earlier records are kept. |
| Staff.UpdateStaffMember | frontend/src/context/StaffContext.jsx:95-109 | Merges the patch over exactly the records whose id equals parseInt of the argument, and refreshes their updatedAt. Length, order and all other records are kept. It returns the record as it was before the update. |
| Staff.DeleteStaffMember | frontend/src/context/StaffContext.jsx:112-114 | The records left are exactly those whose id is not parseInt of the argument. |
| Staff.ToggledStatus | frontend/src/context/StaffContext.jsx:122 | `active` becomes `inactive`. Every other status becomes `active`. Both directions are stated. |
| Staff.ToggleStaffStatus | frontend/src/context/StaffContext.jsx:117-131 | Flips the status and refreshes updatedAt of exactly the matching records. Ids and the other records are kept. It returns the record as it was before the flip. |
| Staff.UpdateStaffMemberMissing | frontend/src/context/StaffContext.jsx:96-105 | An update for an id that no record has finds nothing and changes nothing. |
| Staff.UpdateStaffMemberKeepsIds | frontend/src/context/StaffContext.jsx:96-105 | A patch without an id keeps every id in place. |
| Staff.UpdateThenGet | frontend/src/context/StaffContext.jsx:95-108 | After an update, looking up the id finds the merged record, although the update itself returned the old one. |
| Staff.DeleteStaffMemberAppend | frontend/src/context/StaffContext.jsx:113 | Deleting distributes over concatenation, so the records left keep their order. |
| Staff.DeleteStaffMemberOne | frontend/src/context/StaffContext.jsx:113 | A single record is removed exactly when its id is parseInt of the argument. With the previous row, this fixes the result, including order and repeated records. |
| Staff.DeleteStaffMemberNaN | frontend/src/context/StaffContext.jsx:113 | An argument that parses to NaN deletes nothing. |
| Staff.DeleteMaxThenAddReusesId | frontend/src/context/StaffContext.jsx:85-113 | Deleting the highest id m, when m - 1 stays, makes the next add hand out m again. |
| Staff.ToggleTwiceRestores | frontend/src/context/StaffContext.jsx:117-129 | Toggling twice restores every `active` or `inactive` record, except for updatedAt. |
| Staff.AddStaffMemberKeepsIdsDistinct | frontend/src/context/StaffContext.jsx:82-91 | Adding keeps staff ids distinct. |
| StaffContext.StaffProvider.constructor | frontend/src/context/StaffContext.jsx:60-69 | The provider holds the given records. |
| StaffContext.StaffProvider.AddStaffMember | frontend/src/context/StaffContext.jsx:82-92 | Keeps exactly what Staff.AddStaffMember gives. |
| StaffContext.StaffProvider.UpdateStaffMember | frontend/src/context/StaffContext.jsx:95-109 | Keeps exactly what Staff.UpdateStaffMember gives, and returns the lookup on the old collection. |
| StaffContext.StaffProvider.DeleteStaffMember | frontend/src/context/StaffContext.jsx:112-114 | Keeps exactly what Staff.DeleteStaffMember gives. |
| StaffContext.StaffProvider.ToggleStaffStatus | frontend/src/context/StaffContext.jsx:117-131 | Keeps exactly what Staff.ToggleStaffStatus gives. |
| Customers.GetCustomerById | frontend/src/context/CustomerContext.jsx:112-114 | Returns nothing exactly when no customer's id equals parseInt of the argument. Otherwise it returns the first such customer. |
| Customers.AddCustomer | frontend/src/context/CustomerContext.jsx:70-92 | Appends the caller's record with a new id above all others (1 when the store is empty). It forces totalSpent 0, no last purchase, and createdAt = updatedAt. Earlier customers are kept. |
| Customers.UpdateCustomer | frontend/src/context/CustomerContext.jsx:95-104 | The whole stamped record replaces exactly the customers with its id, with no merge. Length, order and ids are kept. |
| Customers.DeleteCustomer | frontend/src/context/CustomerContext.jsx:107-109 | The customers left are exactly those whose id is not `===` the argument. |
| Customers.DeleteCustomerAppend | frontend/src/context/CustomerContext.jsx:107-109 | Deleting distributes over concatenation, so the customers left keep their order. |
| Customers.DeleteCustomerOne | frontend/src/context/CustomerContext.jsx:107-109 | A single customer is removed exactly when its id is `===` the argument. With the previous row, this fixes the result, including order and repeated records. |
| Customers.UpdateCustomerNoMatch | frontend/src/context/CustomerContext.jsx:99-101 | An update for an id that no customer has changes nothing. |
| Customers.GetCustomerByIdParses | frontend/src/context/CustomerContext.jsx:112-114 | A text id finds the same customer as the number it parses to. |
| Customers.DeleteCustomerDoesNotParse | frontend/src/context/CustomerContext.jsx:107-109 | Deleting with a text id removes nothing, although lookup finds the customer with the same argument. |
| Customers.DeleteMaxThenAddReusesId | frontend/src/context/CustomerContext.jsx:72-108 | Deleting the highest id m, when m - 1 stays, makes the next add hand out m again. |
| Customers.AddCustomerKeepsIdsDistinct | frontend/src/context/CustomerContext.jsx:70-91 | Adding keeps customer ids distinct. |
| Customers.DeleteCustomerKeepsIdsDistinct | frontend/src/context/CustomerContext.jsx:107-109 | Deleting keeps customer ids distinct. |
| Customers.DeleteCustomerRemovesOne | frontend/src/context/CustomerContext.jsx:107-109 | With distinct ids, deleting the id of the customer at position k removes exactly that position. Every other customer stays, in order. |
| Customers.DeleteCustomerKeepsOthers | frontend/src/context/CustomerContext.jsx:107-109 | When no id is `===` the argument, delete returns the collection unchanged. |
| CustomerContext.CustomerProvider.constructor | frontend/src/context/CustomerContext.jsx:9-15 | The provider starts with the given customers, whose ids are distinct. |
| CustomerContext.CustomerProvider.AddCustomer | frontend/src/context/CustomerContext.jsx:70-92 | Keeps exactly what Customers.AddCustomer gives. Ids stay distinct. |
| CustomerContext.CustomerProvider.UpdateCustomer | frontend/src/context/CustomerContext.jsx:95-104 | Keeps exactly what Customers.UpdateCustomer gives. Ids stay distinct. |
| CustomerContext.CustomerProvider.DeleteCustomer | frontend/src/context/CustomerContext.jsx:107-109 | Keeps exactly what Customers.DeleteCustomer gives. Ids stay distinct. Because they are distinct, deleting an id in use removes exactly that one customer and keeps the others in order. |
| ProductInventory.SyncedItem | frontend/src/hooks/useProductInventory.js:31-41 | The item's product takes the edited name, sku, category and price, and keeps its id. The stock becomes `stockQuantity` when that is truthy, and otherwise is kept. Id, location, ledger and timestamps are kept. |
| ProductInventory.ZeroStockKeepsQuantity | frontend/src/hooks/useProductInventory.js:40 | A stockQuantity of 0 does not zero the stock. |
| ProductInventory.SyncedItemIdempotent | frontend/src/hooks/useProductInventory.js:31-41 | Syncing the same product twice changes nothing more. |
| ProductInventory.SyncBypassesLedger | frontend/src/hooks/useProductInventory.js:40-42 | A truthy stock that differs from the item's stock makes a balanced item unbalanced, because no ledger entry is appended. |
| ProductInventory.SyncTouchesOneItem | frontend/src/hooks/useProductInventory.js:29-42 | With distinct item ids, writing back the synced item changes that one item and no other. |
| ProductInventory.AddProduct | frontend/src/hooks/useProductInventory.js:11-21 | Returns what the product store returned. It seeds an inventory item through addInventoryItem exactly when that is a product. |
| ProductInventory.UpdateProductWithInventory | frontend/src/hooks/useProductInventory.js:24-46 | Returns the product store's result. If no item refers to the product, inventory is unchanged. Otherwise only the first such item changes, to its synced and stamped copy. |
| RoleAuth.Authorize | backend/middleware/roleAuth.js:2-14 | 401 "Not authenticated" exactly when there is no user. 403 "Access denied. Not authorized." exactly when the user's role is not listed. next exactly when it is listed. So every request gets exactly one of the three. |
| RoleAuth.AuthenticationCheckedFirst | backend/middleware/roleAuth.js:4-10 | A request without a user gets 401 whatever the role list, including an empty one. |
| RoleAuth.MoreRolesNeverReject | backend/middleware/roleAuth.js:8 | Allowing more roles never turns a pass into a rejection. |
| RoleAuth.NoRolesRejectsAll | backend/middleware/roleAuth.js:8-10 | An empty role list lets no request through. |
| InventoryBulkUpdate.ToggleSelection | frontend/src/pages/SimpleInventoryBulkUpdate.jsx:33-39 | After the toggle, the id is selected exactly when it was not selected before. Every other id keeps its membership. An unselected id is appended at the end of the selection. |
| InventoryBulkUpdate.ToggleRemovesInPlace | frontend/src/pages/SimpleInventoryBulkUpdate.jsx:33-36 | In a selection without repeats, deselecting the id at position k cuts out that one position. The other ids keep their order. |
| InventoryBulkUpdate.ToggleTwiceRestores | frontend/src/pages/SimpleInventoryBulkUpdate.jsx:33-39 | Toggling an unselected id twice gives back exactly the same selection. |
| InventoryBulkUpdate.ToggleKeepsDistinct | frontend/src/pages/SimpleInventoryBulkUpdate.jsx:33-39 | A duplicate-free selection stays duplicate-free under toggling. |
| InventoryBulkUpdate.SelectAll | frontend/src/pages/SimpleInventoryBulkUpdate.jsx:41-47 | Checking selects every item id, in collection order. Unchecking clears the selection. |
| InventoryBulkUpdate.SelectAllThenToggle | frontend/src/pages/SimpleInventoryBulkUpdate.jsx:33-47 | With distinct ids, select-all followed by a toggle of one item leaves exactly the other items selected. |
| InventoryBulkUpdate.ValidateForm | frontend/src/pages/SimpleInventoryBulkUpdate.jsx:65-89 | Valid exactly when all four checks pass, and then the message is cleared. Otherwise the first failing check, in the fixed order, gives the message. |
| InventoryBulkUpdate.Changed | frontend/src/pages/SimpleInventoryBulkUpdate.jsx:103-109 | A quantity change alters only the quantity. A location change alters only the location. Id, product, ledger and both timestamps are kept. |
| InventoryBulkUpdate.ItemWithId | frontend/src/pages/SimpleInventoryBulkUpdate.jsx:100 | Finds an item exactly when the id is in use. The item found is the first in the collection with that id, as `find` returns. |
| InventoryBulkUpdate.LastFound | frontend/src/pages/SimpleInventoryBulkUpdate.jsx:99-102 | The result is a selected id in use, and no selected id after it is in use: it is the last selected id that names an item. It is absent exactly when no selected id is in use. |
| InventoryBulkUpdate.ApplySelectedAsWritten | frontend/src/pages/SimpleInventoryBulkUpdate.jsx:99-114 | As written: the store keeps the write for the last selected id that exists. Every item with another id keeps its old record, and nothing changes if no selected id exists. |
| InventoryBulkUpdate.FirstOfTwoSelectedIsLost | frontend/src/pages/SimpleInventoryBulkUpdate.jsx:99-114 | With two items both selected for a new quantity, the first one keeps its old quantity. |
| InventoryBulkUpdate.ApplySelected | frontend/src/pages/SimpleInventoryBulkUpdate.jsx:99-114 | Corrected loop: every item whose id is selected gets the change and a new lastUpdated. Every other item is unchanged. Selected ids without an item are skipped. Length and ids are kept. |
| InventoryBulkUpdate.HandleSubmitAsWritten | frontend/src/pages/SimpleInventoryBulkUpdate.jsx:91-130 | As written. An invalid form writes nothing and shows the message of the first failing check of validateForm. A valid one clears the error and reports the number of selected ids. The store keeps only the write for the last selected id that exists, and every other item is unchanged. |
| InventoryBulkUpdate.HandleSubmit | frontend/src/pages/SimpleInventoryBulkUpdate.jsx:91-130 | Corrected. An invalid form writes nothing and shows the message of the first failing check of validateForm. A valid one applies the change to every selected item, clears the error, and reports the number of selected ids, counting skipped ones. |
| InventoryEdit.ValidateForm | frontend/src/pages/SimpleInventoryEdit.jsx:103-130 | For in/out: a positive transaction quantity and a non-blank reason. For adjustment: a non-negative quantity. Always: a non-blank warehouse. Each failure sets its own key with the source's message (`ValidationErrors` states the whole map). The form is valid exactly when no key was set. |
| InventoryEdit.HandleSubmitAsWritten | frontend/src/pages/SimpleInventoryEdit.jsx:132-202 | As written. An invalid form changes nothing and shows exactly the errors of validateForm. An adjustment keeps what addTransaction wrote, so the item keeps its old location. For in/out, a refused out shows the render's errors plus the new one and changes nothing. A missing item ends in the caught exception. A recorded movement with a new location keeps only the location write, so the item keeps its old quantity and ledger. |
| InventoryEdit.HandleSubmit | frontend/src/pages/SimpleInventoryEdit.jsx:132-202 | Corrected. An invalid form changes nothing and shows exactly the errors of validateForm. The collection keeps its length and ids on every path. An adjustment leaves every record with the item's id with the new quantity, the new location and one more ledger entry ("Direct adjustment"). A recorded in/out leaves it with the transaction applied and the form's location. A refused out changes nothing and shows only its own error. The location is rewritten only when it differs. Success is reported only on paths without an error. Every record with the item's id is replaced by the same new record, and every record with another id is unchanged. |
| InventoryEdit.SubmitAdjustment | frontend/src/pages/SimpleInventoryEdit.jsx:141-156 | Corrected adjustment branch. The length and ids are kept and other ids are untouched. Every record with the id becomes one record: the found item with the new quantity, the new location, a stamp and one "Direct adjustment" ledger entry. |
| InventoryEdit.SubmitMovement | frontend/src/pages/SimpleInventoryEdit.jsx:159-186 | Corrected in/out branch, for a recorded transaction. The length and ids are kept and other ids are untouched. Every record with the id becomes the recorded item with the form's location. |

## Left out

- Browser persistence: loading and saving through localStorage and JSON is not modelled. Each store's contents are plain model state, and the provider constructors take them as given.
- Clocks: every `new Date().toISOString()` is a `now` parameter. The model states only that a timestamp field is set to it. Two clock reads get the same `now`. So `Staff.AddStaffMember` gives createdAt and updatedAt the same value, although the source reads the clock once per field and the two reads can fall in different milliseconds. The page handlers likewise pass one `now` to every store call they make in one submit.
- React scheduling and rendering are not modelled: effects, markup, navigation, the two-second redirect and the loading and submitting flags. Several store calls in one handler are modelled only by the rule that the last collection asked for is the one kept.
- Number parsing: `parseInt`, `isNaN` and `trim` are abstracted. A form number is `Blank`, `NotANumber` or an integer. IsBlank treats as blank exactly the characters that String.prototype.trim removes. Quantities are unbounded integers, with no NaN or floating-point quantities.
- Prices and totalSpent are carried as reals and only copied or set to zero. Floating-point behaviour is not modelled.
- The product store is not part of this model. ProductInventory.AddProduct takes what the store's add returned, and ProductInventory.UpdateProductWithInventory takes what its update returned.
- ProductInventory.SyncedItem: an edited product always carries a name, sku, category and price. The source copies `undefined` into the stored product when the edit object omits one of these fields. The model cannot express a missing field, so it does not capture that case.
- getAllStaffMembers returns the held collection unchanged, and it is not modelled separately.
- The staff loading flag and the staff store's mock seed data are not modelled.
- Staff salary and performance are integers. The source never computes with them.
- Aliasing: updateInventory and updateCustomer set the timestamp on the caller's object. The model returns the stamped record instead and does not track the caller's copy.
- InventoryEdit.HandleSubmitAsWritten: the exception thrown for a missing item on the in/out path is modelled as the outcome `Crashed`. The console output is not modelled.
- The edit page's initial form load (the effect that fills the form from the stored item) is not modelled.

## Findings

| source | as written | input that shows it | evidently intended | confidence | as-written member | corrected member |
|---|---|---|---|---|---|---|
| frontend/src/pages/SimpleInventoryBulkUpdate.jsx:99-114 | each updateInventory call maps over the collection of the render, so only the last write is kept | two existing items, both selected, action "update quantity" to a value different from the first item's stock: the first item keeps its old quantity | every selected item gets the change | high; not executed | InventoryBulkUpdate.ApplySelectedAsWritten | InventoryBulkUpdate.ApplySelected |
| frontend/src/pages/SimpleInventoryEdit.jsx:141-156 | addTransaction's write, built from the render's collection, replaces the updateInventory write | adjustment of an existing item to any valid quantity with a warehouse different from the stored one: the stored location is unchanged | the item has the new quantity, the new location and the adjustment entry | high; not executed | InventoryEdit.HandleSubmitAsWritten | InventoryEdit.HandleSubmit |
| frontend/src/pages/SimpleInventoryEdit.jsx:159-186 | the location write is built from the item before the transaction and replaces the ledger write | "in" of 5 units on an existing item with a new shelf: the stored item keeps its old quantity and has no new entry | the transaction is recorded and the location is changed | high; not executed | InventoryEdit.HandleSubmitAsWritten | InventoryEdit.HandleSubmit |
| frontend/src/pages/SimpleInventoryEdit.jsx:165-169 | a refused out adds its error to the errors of the render, after validation had cleared them | a submit with a blank reason (shows "Reason is required"), then a submit with a reason and an out above the stock: "Reason is required" is shown again | only the stock error is shown | medium; not executed | InventoryEdit.HandleSubmitAsWritten | InventoryEdit.HandleSubmit |

// The bulk update page: the user selects inventory items, picks one action
// (set a quantity or set a location) and submits; the submit handler calls
// updateInventory once per selected item that exists.
//
// updateInventory replaces the collection with a copy of the collection as it
// was when the page rendered, and when several replacements are requested in
// one handler the last one is what the store keeps. ApplySelectedAsWritten
// models that; ApplySelected is the handler with the collection passed on from
// one call to the next, which HandleSubmit uses.
module InventoryBulkUpdate {
  import opened Common
  import opened Inventory

  /** The action drop-down; NoAction is the empty "Select Action" entry. */
  datatype BulkAction = NoAction | UpdateQuantity | UpdateLocation

  /** What one submit does to every selected item. */
  datatype BulkChange = SetQuantity(quantity: int) | SetLocation(location: Location)

  const SelectItemsError := "Please select at least one inventory item"
  const SelectActionError := "Please select an action"
  const QuantityError := "Please enter a valid quantity"
  const LocationError := "Please fill in all location fields"

  // ---------------------------------------------------------------------
  // Selection.

  /** The test the selection filter keeps: every id but itemId. */
  function OtherThan(itemId: int): int -> bool
  {
    (id: int) => id != itemId
  }

  /** handleItemSelection(itemId): a selected id is removed (every copy of
      it), any other id is appended. */
  function ToggleSelection(selected: seq<int>, itemId: int): (r: seq<int>)
    ensures itemId in r <==> itemId !in selected
    ensures forall x :: x != itemId ==> (x in r <==> x in selected)
    ensures itemId !in selected ==> r == selected + [itemId]
  {
    if itemId in selected then Filter(selected, OtherThan(itemId)) else selected + [itemId]
  }

  /** Removing a selected id keeps the other ids in their order: in a
      selection without repeats, the id's one position is cut out. */
  lemma ToggleRemovesInPlace(selected: seq<int>, k: nat)
    requires Distinct(selected)
    requires k < |selected|
    ensures ToggleSelection(selected, selected[k]) == selected[..k] + selected[k + 1..]
  {
    FilterRemovesOne(selected, k, OtherThan(selected[k]));
  }

  /** Toggling an unselected id twice gives the selection back exactly. */
  lemma {:induction false} ToggleTwiceRestores(selected: seq<int>, itemId: int)
    requires itemId !in selected
    ensures ToggleSelection(ToggleSelection(selected, itemId), itemId) == selected
  {
    var keep := OtherThan(itemId);
    FilterAppend(selected, [itemId], keep);
    FilterKeepsAll(selected, keep);
    assert Filter([itemId], keep) == [];
  }

  /** A selection without repeated ids never gains one by toggling. */
  lemma ToggleKeepsDistinct(selected: seq<int>, itemId: int)
    requires Distinct(selected)
    ensures Distinct(ToggleSelection(selected, itemId))
  {
    if itemId in selected {
      var key := (x: int) => x;
      assert DistinctKeys(selected, key);
      FilterKeepsKeysDistinct(selected, OtherThan(itemId), key);
      var r := Filter(selected, OtherThan(itemId));
      assert forall i, j :: 0 <= i < j < |r| ==> key(r[i]) != key(r[j]);
    }
  }

  /** handleSelectAll: checking selects every item's id in collection order,
      unchecking clears the selection. */
  function SelectAll(items: seq<InventoryItem>, checked: bool): (r: seq<int>)
    ensures checked ==> |r| == |items| && forall i :: 0 <= i < |items| ==> r[i] == items[i].id
    ensures !checked ==> |r| == 0
  {
    if checked then Ids(items) else []
  }

  /** With distinct item ids, select-all then toggling one item leaves exactly
      the other items selected. */
  lemma SelectAllThenToggle(items: seq<InventoryItem>, k: nat)
    requires Distinct(Ids(items))
    requires k < |items|
    ensures forall i :: 0 <= i < |items| ==>
      (items[i].id in ToggleSelection(SelectAll(items, true), items[k].id) <==> i != k)
  {
    var all := SelectAll(items, true);
    assert all[k] == items[k].id;
    forall i | 0 <= i < |items| && i != k
      ensures items[i].id != items[k].id && items[i].id in all
    {
      assert all[i] == items[i].id;
      if i < k { assert Ids(items)[i] != Ids(items)[k]; } else { assert Ids(items)[k] != Ids(items)[i]; }
    }
  }

  // ---------------------------------------------------------------------
  // Validation.

  /** `!warehouse || !section || !shelf` fails: all three are non-empty. */
  predicate LocationFilled(location: Location)
  {
    location.warehouse != "" && location.section != "" && location.shelf != ""
  }

  /** The form passes every check of validateForm. */
  predicate FormValid(selected: seq<int>, action: BulkAction, quantity: NumberField, location: Location)
  {
    && |selected| > 0
    && action != NoAction
    && (action == UpdateQuantity ==> quantity.IntValue?)
    && (action == UpdateLocation ==> LocationFilled(location))
  }

  /** `message` is what validateForm shows: the checks run in order and the
      first that fails names the message; a form that passes them all shows
      none. */
  predicate ValidationMessage(selected: seq<int>, action: BulkAction, quantity: NumberField, location: Location,
                              message: string)
  {
    && (|selected| == 0 ==> message == SelectItemsError)
    && (|selected| > 0 && action == NoAction ==> message == SelectActionError)
    && (|selected| > 0 && action == UpdateQuantity && !quantity.IntValue? ==> message == QuantityError)
    && (|selected| > 0 && action == UpdateLocation && !LocationFilled(location) ==> message == LocationError)
    && (FormValid(selected, action, quantity, location) ==> message == "")
  }

  /** validateForm: the form is valid exactly when no check fails. */
  method ValidateForm(selected: seq<int>, action: BulkAction, quantity: NumberField, location: Location)
    returns (valid: bool, errorMessage: string)
    ensures valid <==> FormValid(selected, action, quantity, location)
    ensures valid <==> errorMessage == ""
    ensures ValidationMessage(selected, action, quantity, location, errorMessage)
  {
    if |selected| == 0 {
      return false, SelectItemsError;
    }
    if action == NoAction {
      return false, SelectActionError;
    }
    if action == UpdateQuantity && !quantity.IntValue? {
      return false, QuantityError;
    }
    if action == UpdateLocation && !LocationFilled(location) {
      return false, LocationError;
    }
    return true, "";
  }

  // ---------------------------------------------------------------------
  // Writing the selected items.

  /** The copy of an item the loop hands to updateInventory. */
  function Changed(item: InventoryItem, change: BulkChange): (r: InventoryItem)
    ensures r.id == item.id && r.product == item.product && r.transactions == item.transactions
    ensures r.createdAt == item.createdAt && r.lastUpdated == item.lastUpdated
    ensures change.SetQuantity? ==> r.quantity == change.quantity && r.location == item.location
    ensures change.SetLocation? ==> r.location == change.location && r.quantity == item.quantity
  {
    match change
    case SetQuantity(q) => item.(quantity := q)
    case SetLocation(loc) => item.(location := loc)
  }

  /** `inventoryItems.find(item => item.id === itemId)`. */
  function ItemWithId(items: seq<InventoryItem>, itemId: int): (r: Option<InventoryItem>)
    ensures r.Some? <==> itemId in Ids(items)
    ensures r.Some? ==> r.value.id == itemId
    ensures r.Some? ==>
      exists k :: 0 <= k < |items| && items[k] == r.value && forall i :: 0 <= i < k ==> items[i].id != itemId
  {
    var r := Find(items, (item: InventoryItem) => item.id == itemId);
    assert r.None? ==> forall i :: 0 <= i < |items| ==> Ids(items)[i] != itemId;
    assert itemId in Ids(items) ==> exists i :: 0 <= i < |items| && Ids(items)[i] == itemId;
    assert r.Some? ==> itemId in Ids(items) by {
      if r.Some? {
        var k :| 0 <= k < |items| && items[k] == r.value && items[k].id == itemId;
        assert Ids(items)[k] == itemId;
      }
    }
    r
  }

  /** The last selected id that names an item: the item whose write survives
      when every write starts from the same collection. */
  function LastFound(items: seq<InventoryItem>, selected: seq<int>): (r: Option<int>)
    ensures r.Some? ==> r.value in selected && r.value in Ids(items)
    ensures r.None? <==> forall k :: 0 <= k < |selected| ==> selected[k] !in Ids(items)
    ensures r.Some? ==>
      exists k :: 0 <= k < |selected| && selected[k] == r.value &&
                  forall j :: k < j < |selected| ==> selected[j] !in Ids(items)
    decreases |selected|
  {
    if |selected| == 0 then None
    else if selected[|selected| - 1] in Ids(items) then Some(selected[|selected| - 1])
    else
      var prefix := selected[..|selected| - 1];
      assert forall k :: 0 <= k < |prefix| ==> prefix[k] == selected[k];
      LastFound(items, prefix)
  }

  /** The submit loop as the page runs it: every call of updateInventory maps
      over the collection of the render, so only the last selected item that
      exists is written; every other item keeps its old record. */
  method ApplySelectedAsWritten(snapshot: seq<InventoryItem>, selected: seq<int>, change: BulkChange, now: string)
    returns (committed: seq<InventoryItem>)
    ensures LastFound(snapshot, selected).None? ==> committed == snapshot
    ensures LastFound(snapshot, selected).Some? ==>
      var last := ItemWithId(snapshot, LastFound(snapshot, selected).value).value;
      committed == UpdateInventory(snapshot, Changed(last, change), now).1
    ensures |committed| == |snapshot|
    ensures forall i :: 0 <= i < |snapshot| && LastFound(snapshot, selected) != Some(snapshot[i].id) ==>
      committed[i] == snapshot[i]
  {
    var pending: Option<seq<InventoryItem>> := None;
    for k := 0 to |selected|
      invariant pending.None? <==> LastFound(snapshot, selected[..k]).None?
      invariant pending.Some? ==>
        pending.value == UpdateInventory(snapshot,
          Changed(ItemWithId(snapshot, LastFound(snapshot, selected[..k]).value).value, change), now).1
    {
      assert selected[..k + 1][..k] == selected[..k];
      var inventoryItem := ItemWithId(snapshot, selected[k]);
      if inventoryItem.Some? {
        pending := Some(UpdateInventory(snapshot, Changed(inventoryItem.value, change), now).1);
      }
    }
    assert selected[..|selected|] == selected;
    committed := pending.GetOr(snapshot);
  }

  /** Two items both selected for a new quantity: the first keeps its old
      quantity. */
  lemma FirstOfTwoSelectedIsLost(first: InventoryItem, second: InventoryItem, q: int, now: string)
    requires first.id != second.id
    requires first.quantity != q
    ensures var snapshot := [first, second];
            LastFound(snapshot, [first.id, second.id]) == Some(second.id) &&
            UpdateInventory(snapshot, Changed(second, SetQuantity(q)), now).1[0].quantity != q
  {
    var snapshot := [first, second];
    assert Ids(snapshot)[1] == second.id;
    assert ItemWithId(snapshot, second.id) == Some(second) by {
      assert Ids(snapshot)[0] == first.id;
    }
  }

  /** The submit loop with each updateInventory applied to the collection the
      previous one produced: every selected item gets the change, the rest is
      unchanged. */
  method ApplySelected(items: seq<InventoryItem>, selected: seq<int>, change: BulkChange, now: string)
    returns (committed: seq<InventoryItem>)
    requires Distinct(Ids(items))
    ensures |committed| == |items| && Ids(committed) == Ids(items)
    ensures forall i :: 0 <= i < |items| ==>
      committed[i] == if items[i].id in selected then Changed(items[i], change).(lastUpdated := now) else items[i]
  {
    committed := items;
    for k := 0 to |selected|
      invariant |committed| == |items| && Ids(committed) == Ids(items)
      invariant forall i :: 0 <= i < |items| ==>
        committed[i] == if items[i].id in selected[..k] then Changed(items[i], change).(lastUpdated := now) else items[i]
    {
      assert forall i :: 0 <= i < |items| ==> (items[i].id in selected[..k + 1] <==> items[i].id in selected[..k] || items[i].id == selected[k]);
      var inventoryItem := ItemWithId(committed, selected[k]);
      if inventoryItem.Some? {
        var j :| 0 <= j < |committed| && committed[j] == inventoryItem.value;
        assert Ids(committed)[j] == selected[k];
        forall i | 0 <= i < |items| && items[i].id == selected[k] ensures i == j {
          assert Ids(items)[i] == Ids(items)[j];
        }
        committed := UpdateInventory(committed, Changed(inventoryItem.value, change), now).1;
      } else {
        assert forall i :: 0 <= i < |items| ==> Ids(items)[i] != selected[k];
      }
    }
    assert selected[..|selected|] == selected;
  }

  /** The change the form asks for, once it is valid. */
  function ChangeOf(action: BulkAction, quantity: NumberField, location: Location): BulkChange
    requires action == UpdateQuantity ==> quantity.IntValue?
  {
    if action == UpdateQuantity then SetQuantity(quantity.n) else SetLocation(location)
  }

  /** handleSubmit as the page runs it: the form is checked, then the loop of
      ApplySelectedAsWritten runs, and the success message counts every
      selected id. */
  method HandleSubmitAsWritten(snapshot: seq<InventoryItem>, selected: seq<int>, action: BulkAction,
                               quantity: NumberField, location: Location, now: string)
    returns (committed: seq<InventoryItem>, errorMessage: string, updatedCount: Option<nat>)
    ensures !FormValid(selected, action, quantity, location) ==>
      committed == snapshot && errorMessage != "" && updatedCount.None? &&
      ValidationMessage(selected, action, quantity, location, errorMessage)
    ensures FormValid(selected, action, quantity, location) ==>
      var change := ChangeOf(action, quantity, location);
      && errorMessage == "" && updatedCount == Some(|selected|)
      && (LastFound(snapshot, selected).None? ==> committed == snapshot)
      && (LastFound(snapshot, selected).Some? ==>
            committed == UpdateInventory(snapshot,
              Changed(ItemWithId(snapshot, LastFound(snapshot, selected).value).value, change), now).1)
      && |committed| == |snapshot|
      && forall i :: 0 <= i < |snapshot| && LastFound(snapshot, selected) != Some(snapshot[i].id) ==>
           committed[i] == snapshot[i]
  {
    var valid;
    valid, errorMessage := ValidateForm(selected, action, quantity, location);
    if !valid {
      return snapshot, errorMessage, None;
    }
    committed := ApplySelectedAsWritten(snapshot, selected, ChangeOf(action, quantity, location), now);
    updatedCount := Some(|selected|);
  }

  /** handleSubmit corrected: an invalid form writes nothing and shows the first error;
      a valid one writes every selected item and reports the number of
      selected ids, counting ids that no longer name an item. */
  method HandleSubmit(items: seq<InventoryItem>, selected: seq<int>, action: BulkAction,
                      quantity: NumberField, location: Location, now: string)
    returns (committed: seq<InventoryItem>, errorMessage: string, updatedCount: Option<nat>)
    requires Distinct(Ids(items))
    ensures !FormValid(selected, action, quantity, location) ==>
      committed == items && errorMessage != "" && updatedCount.None? &&
      ValidationMessage(selected, action, quantity, location, errorMessage)
    ensures FormValid(selected, action, quantity, location) ==>
      errorMessage == "" && updatedCount == Some(|selected|) &&
      |committed| == |items| && Ids(committed) == Ids(items) &&
      forall i :: 0 <= i < |items| ==>
        committed[i] == if items[i].id in selected
                        then Changed(items[i], ChangeOf(action, quantity, location)).(lastUpdated := now)
                        else items[i]
  {
    var valid;
    valid, errorMessage := ValidateForm(selected, action, quantity, location);
    if !valid {
      return items, errorMessage, None;
    }
    committed := ApplySelected(items, selected, ChangeOf(action, quantity, location), now);
    updatedCount := Some(|selected|);
  }
}

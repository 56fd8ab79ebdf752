// The inventory edit page: one item, chosen by the route id, is either set to
// a new quantity directly ("adjustment") or moved in or out by a transaction,
// and its location may be changed in the same submit.
//
// Both addTransaction and updateInventory replace the collection with a copy
// of the collection as it was when the page rendered, and the last
// replacement requested in one handler is the one the store keeps.
// HandleSubmitAsWritten models the handler so; HandleSubmit passes the
// collection from one call to the next and reports only the new error.
module InventoryEdit {
  import opened Common
  import opened Inventory

  /** The form as the checks read it: the two number fields are classified
      by trim and parseInt. */
  datatype EditForm = EditForm(
    quantity: NumberField,
    transactionType: TxType,
    transactionQuantity: NumberField,
    transactionReason: string,
    location: Location)

  /** What the user sees after a submit. */
  datatype SubmitOutcome =
    | Invalid(errors: map<string, string>)            // validation failed
    | TransactionFailed(errors: map<string, string>)  // addTransaction refused the out
    | Crashed                                         // an exception was caught; no message
    | Saved                                          // "Inventory updated successfully!"

  const QuantityKey := "quantity"
  const TransactionQuantityKey := "transactionQuantity"
  const TransactionReasonKey := "transactionReason"
  const WarehouseKey := "location.warehouse"

  const TransactionQuantityRequired := "Transaction quantity is required"
  const TransactionQuantityPositive := "Transaction quantity must be a positive number"
  const ReasonRequired := "Reason is required"
  const QuantityRequired := "New quantity is required"
  const QuantityNonNegative := "Quantity must be a non-negative number"
  const WarehouseRequired := "Warehouse is required"

  const DirectAdjustment := "Direct adjustment"

  predicate PositiveNumber(field: NumberField)
  {
    field.IntValue? && field.n > 0
  }

  predicate NonNegativeNumber(field: NumberField)
  {
    field.IntValue? && field.n >= 0
  }

  /** The form passes every check of validateForm. */
  predicate FormValid(form: EditForm)
  {
    && (form.transactionType != Adjustment ==>
          PositiveNumber(form.transactionQuantity) && !IsBlank(form.transactionReason))
    && (form.transactionType == Adjustment ==> NonNegativeNumber(form.quantity))
    && !IsBlank(form.location.warehouse)
  }

  /** `errors` is what validateForm sets for `form`: one entry per failing
      field, keyed by the field's name, with that check's message. */
  predicate ValidationErrors(form: EditForm, errors: map<string, string>)
  {
    && errors.Keys <= {QuantityKey, TransactionQuantityKey, TransactionReasonKey, WarehouseKey}
    && (TransactionQuantityKey in errors <==>
          form.transactionType != Adjustment && !PositiveNumber(form.transactionQuantity))
    && (TransactionQuantityKey in errors ==>
          errors[TransactionQuantityKey] ==
            if form.transactionQuantity.Blank? then TransactionQuantityRequired else TransactionQuantityPositive)
    && (TransactionReasonKey in errors <==>
          form.transactionType != Adjustment && IsBlank(form.transactionReason))
    && (TransactionReasonKey in errors ==> errors[TransactionReasonKey] == ReasonRequired)
    && (QuantityKey in errors <==> form.transactionType == Adjustment && !NonNegativeNumber(form.quantity))
    && (QuantityKey in errors ==>
          errors[QuantityKey] == if form.quantity.Blank? then QuantityRequired else QuantityNonNegative)
    && (WarehouseKey in errors <==> IsBlank(form.location.warehouse))
    && (WarehouseKey in errors ==> errors[WarehouseKey] == WarehouseRequired)
  }

  /** validateForm: the form is valid exactly when no field fails. */
  method ValidateForm(form: EditForm) returns (errors: map<string, string>, valid: bool)
    ensures valid <==> FormValid(form)
    ensures valid <==> |errors| == 0
    ensures ValidationErrors(form, errors)
  {
    errors := map[];
    if form.transactionType != Adjustment {
      if form.transactionQuantity.Blank? {
        errors := errors[TransactionQuantityKey := TransactionQuantityRequired];
      } else if !PositiveNumber(form.transactionQuantity) {
        errors := errors[TransactionQuantityKey := TransactionQuantityPositive];
      }
      if IsBlank(form.transactionReason) {
        errors := errors[TransactionReasonKey := ReasonRequired];
      }
    } else {
      if form.quantity.Blank? {
        errors := errors[QuantityKey := QuantityRequired];
      } else if !NonNegativeNumber(form.quantity) {
        errors := errors[QuantityKey := QuantityNonNegative];
      }
    }
    if IsBlank(form.location.warehouse) {
      errors := errors[WarehouseKey := WarehouseRequired];
    }
    valid := |errors| == 0;
    assert valid <==> errors == map[];
  }

  /** `parseInt(id)` of the route parameter, passed on as a number: NaN when
      the parameter does not parse. */
  function RouteArg(parsedId: Option<int>): IdArg
  {
    match parsedId
    case Some(n) => IntArg(n)
    case None => OtherArg(None)
  }

  /** The transaction a direct adjustment records. */
  function AdjustmentRequest(quantity: int): TxRequest
  {
    TxRequest(Adjustment, quantity, DirectAdjustment)
  }

  /** The transaction an in or out submit records. */
  function MovementRequest(form: EditForm): TxRequest
    requires form.transactionQuantity.IntValue?
  {
    TxRequest(form.transactionType, form.transactionQuantity.n, form.transactionReason)
  }

  /** handleSubmit as the page runs it. `snapshot` is the collection of the
      render and `priorErrors` the errors it shows. An adjustment's location
      is overwritten by the transaction's write, and an in or out that also
      moves the item loses its transaction to the location write. */
  method HandleSubmitAsWritten(snapshot: seq<InventoryItem>, parsedId: Option<int>, form: EditForm,
                               priorErrors: map<string, string>, now: string)
    returns (committed: seq<InventoryItem>, outcome: SubmitOutcome)
    ensures !FormValid(form) ==>
      committed == snapshot && outcome.Invalid? && ValidationErrors(form, outcome.errors)
    // Adjustment: what survives is addTransaction's write, so the found item
    // keeps its old location whatever the form says.
    ensures FormValid(form) && form.transactionType == Adjustment ==>
      outcome == Saved &&
      committed == AddTransaction(snapshot, RouteArg(parsedId), AdjustmentRequest(form.quantity.n), now).1
    ensures FormValid(form) && form.transactionType == Adjustment &&
            GetInventoryById(snapshot, RouteArg(parsedId)).Some? ==>
      var item := GetInventoryById(snapshot, RouteArg(parsedId)).value;
      forall i :: 0 <= i < |committed| ==>
        committed[i].location == if snapshot[i].id == item.id then item.location else snapshot[i].location
    // In or out: a refused out restores the errors of the render plus the
    // new one; a missing item throws after the lookup.
    ensures FormValid(form) && form.transactionType != Adjustment ==>
      var r := AddTransaction(snapshot, RouteArg(parsedId), MovementRequest(form), now);
      && (r.0.Rejected? ==>
            committed == snapshot &&
            outcome == TransactionFailed(priorErrors[TransactionQuantityKey := NotEnoughStock]))
      && (r.0.NotFound? ==> committed == snapshot && outcome == Crashed)
      && (r.0.Recorded? ==> outcome == Saved)
      && (r.0.Recorded? && GetInventoryById(snapshot, RouteArg(parsedId)).value.location == form.location ==>
            committed == r.1)
    // In or out with a new location: the location write wins, so the item
    // keeps its old quantity and its old transactions.
    ensures FormValid(form) && form.transactionType != Adjustment &&
            AddTransaction(snapshot, RouteArg(parsedId), MovementRequest(form), now).0.Recorded? &&
            GetInventoryById(snapshot, RouteArg(parsedId)).value.location != form.location ==>
      var item := GetInventoryById(snapshot, RouteArg(parsedId)).value;
      committed == UpdateInventory(snapshot, item.(location := form.location), now).1 &&
      forall i :: 0 <= i < |committed| && snapshot[i].id == item.id ==>
        committed[i].quantity == item.quantity && committed[i].transactions == item.transactions
  {
    var errors, valid := ValidateForm(form);
    if !valid {
      return snapshot, Invalid(errors);
    }
    var inventoryItem := GetInventoryById(snapshot, RouteArg(parsedId));
    // The collection the last setter asked for, if any.
    var pending: Option<seq<InventoryItem>> := None;
    if form.transactionType == Adjustment {
      var newQuantity := form.quantity.n;
      if inventoryItem.Some? {
        pending := Some(UpdateInventory(snapshot, inventoryItem.value.(quantity := newQuantity, location := form.location), now).1);
      } else {
        // A record without an id matches no item: the copy equals the snapshot.
        pending := Some(snapshot);
      }
      var result := AddTransaction(snapshot, RouteArg(parsedId), AdjustmentRequest(newQuantity), now);
      if result.0.Recorded? {
        pending := Some(result.1);
      }
    } else {
      var result := AddTransaction(snapshot, RouteArg(parsedId), MovementRequest(form), now);
      if result.0.Rejected? {
        return snapshot, TransactionFailed(priorErrors[TransactionQuantityKey := result.0.error]);
      }
      if result.0.Recorded? {
        pending := Some(result.1);
      }
      if inventoryItem.None? {
        // Reading the location of a missing item throws; the handler catches it.
        return pending.GetOr(snapshot), Crashed;
      }
      if inventoryItem.value.location != form.location {
        pending := Some(UpdateInventory(snapshot, inventoryItem.value.(location := form.location), now).1);
      }
    }
    return pending.GetOr(snapshot), Saved;
  }

  /** The adjustment branch, corrected: updateInventory with the new quantity
      and location, then addTransaction on the collection it produced. */
  method SubmitAdjustment(snapshot: seq<InventoryItem>, id: int, quantity: int, location: Location, now: string)
    returns (committed: seq<InventoryItem>)
    requires GetInventoryById(snapshot, IntArg(id)).Some?
    ensures |committed| == |snapshot| && Ids(committed) == Ids(snapshot)
    ensures forall i :: 0 <= i < |snapshot| && snapshot[i].id != id ==> committed[i] == snapshot[i]
    ensures var item := GetInventoryById(snapshot, IntArg(id)).value;
      var adjusted := item.(quantity := quantity, location := location, lastUpdated := now);
      exists after :: GetInventoryById(committed, IntArg(id)) == Some(after) &&
        after.location == location &&
        LedgerStep(adjusted, AdjustmentRequest(quantity), now, after)
    ensures forall i :: 0 <= i < |snapshot| && snapshot[i].id == id ==>
      committed[i] == GetInventoryById(committed, IntArg(id)).value
  {
    var item := GetInventoryById(snapshot, IntArg(id)).value;
    assert item.id in Ids(snapshot) by {
      var k :| 0 <= k < |snapshot| && snapshot[k] == item;
      assert Ids(snapshot)[k] == item.id;
    }
    var adjusted := item.(quantity := quantity, location := location);
    var moved := UpdateInventory(snapshot, adjusted, now).1;
    UpdateInventoryThenGet(snapshot, adjusted, now);
    var result := AddTransaction(moved, IntArg(id), AdjustmentRequest(quantity), now);
    AddTransactionThenGet(moved, id, AdjustmentRequest(quantity), now);
    committed := result.1;
    forall i | 0 <= i < |snapshot| && snapshot[i].id == id ensures committed[i] == result.0.item {
      assert moved[i].id == id;
    }
  }

  /** The in or out branch, corrected: addTransaction, then, when the location
      changed, updateInventory of the recorded item on the collection
      addTransaction produced. */
  method SubmitMovement(snapshot: seq<InventoryItem>, id: int, req: TxRequest, location: Location, now: string)
    returns (committed: seq<InventoryItem>)
    requires AddTransaction(snapshot, IntArg(id), req, now).0.Recorded?
    ensures |committed| == |snapshot| && Ids(committed) == Ids(snapshot)
    ensures forall i :: 0 <= i < |snapshot| && snapshot[i].id != id ==> committed[i] == snapshot[i]
    ensures var recorded := AddTransaction(snapshot, IntArg(id), req, now).0.item;
      && GetInventoryById(committed, IntArg(recorded.id)) == Some(recorded.(location := location))
      && forall i :: 0 <= i < |snapshot| && snapshot[i].id == recorded.id ==>
           committed[i] == recorded.(location := location)
  {
    var result := AddTransaction(snapshot, IntArg(id), req, now);
    AddTransactionThenGet(snapshot, id, req, now);
    var item := GetInventoryById(snapshot, IntArg(id)).value;
    var recorded := result.0.item;
    assert recorded.id == id;
    committed := result.1;
    if item.location != location {
      assert recorded.id in Ids(committed) by {
        var k :| 0 <= k < |snapshot| && snapshot[k] == item;
        assert Ids(committed)[k] == recorded.id;
      }
      UpdateInventoryThenGet(committed, recorded.(location := location), now);
      committed := UpdateInventory(committed, recorded.(location := location), now).1;
    }
  }

  /** handleSubmit with each store call applied to the collection the
      previous one produced, and a refused out reported on its own. */
  method HandleSubmit(snapshot: seq<InventoryItem>, parsedId: Option<int>, form: EditForm, now: string)
    returns (committed: seq<InventoryItem>, outcome: SubmitOutcome)
    ensures !FormValid(form) ==>
      committed == snapshot && outcome.Invalid? && ValidationErrors(form, outcome.errors)
    ensures |committed| == |snapshot| && Ids(committed) == Ids(snapshot)
    ensures GetInventoryById(snapshot, RouteArg(parsedId)).None? && FormValid(form) ==>
      committed == snapshot && outcome == if form.transactionType == Adjustment then Saved else Crashed
    ensures GetInventoryById(snapshot, RouteArg(parsedId)).Some? ==>
      var item := GetInventoryById(snapshot, RouteArg(parsedId)).value;
      forall i :: 0 <= i < |snapshot| && snapshot[i].id != item.id ==> committed[i] == snapshot[i]
    // Adjustment: the item has the new quantity, the new location and one
    // more transaction, wherever its id stands.
    ensures FormValid(form) && form.transactionType == Adjustment &&
            GetInventoryById(snapshot, RouteArg(parsedId)).Some? ==>
      var item := GetInventoryById(snapshot, RouteArg(parsedId)).value;
      var adjusted := item.(quantity := form.quantity.n, location := form.location, lastUpdated := now);
      && outcome == Saved
      && (exists after :: GetInventoryById(committed, IntArg(item.id)) == Some(after) &&
            after.location == form.location &&
            LedgerStep(adjusted, AdjustmentRequest(form.quantity.n), now, after))
      && forall i :: 0 <= i < |snapshot| && snapshot[i].id == item.id ==>
           committed[i] == GetInventoryById(committed, IntArg(item.id)).value
    // In or out: a refused out changes nothing; a recorded one leaves the
    // item with the transaction applied and the new location.
    ensures FormValid(form) && form.transactionType != Adjustment ==>
      var r := AddTransaction(snapshot, RouteArg(parsedId), MovementRequest(form), now);
      && (r.0.Rejected? ==>
            committed == snapshot && outcome == TransactionFailed(map[TransactionQuantityKey := NotEnoughStock]))
      && (r.0.Recorded? ==>
            outcome == Saved &&
            GetInventoryById(committed, IntArg(r.0.item.id)) == Some(r.0.item.(location := form.location)) &&
            LedgerStep(GetInventoryById(snapshot, RouteArg(parsedId)).value, MovementRequest(form), now, r.0.item) &&
            forall i :: 0 <= i < |snapshot| && snapshot[i].id == r.0.item.id ==>
              committed[i] == r.0.item.(location := form.location))
  {
    var errors, valid := ValidateForm(form);
    if !valid {
      return snapshot, Invalid(errors);
    }
    var inventoryItem := GetInventoryById(snapshot, RouteArg(parsedId));
    if inventoryItem.None? {
      return snapshot, if form.transactionType == Adjustment then Saved else Crashed;
    }
    var id := parsedId.value;
    if form.transactionType == Adjustment {
      committed := SubmitAdjustment(snapshot, id, form.quantity.n, form.location, now);
    } else {
      var result := AddTransaction(snapshot, IntArg(id), MovementRequest(form), now);
      if result.0.Rejected? {
        return snapshot, TransactionFailed(map[TransactionQuantityKey := result.0.error]);
      }
      committed := SubmitMovement(snapshot, id, MovementRequest(form), form.location, now);
    }
    outcome := Saved;
  }
}

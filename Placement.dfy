/**
  What one call of `placeOrder` does to the order and mapping tables, as a
  function of the tables before the call: validate the request (422), then,
  inside one transaction, refuse an order number already placed from the web
  (409), else create a table mapping and an order that references it (201).
  A database failure at any step rolls the transaction back (500).

  Row ids come from per-table counters. Like database auto-increment counters,
  they are not restored by a rollback; the rows are.
 */
module Placement {
  import opened Wrappers
  import opened Text
  import opened Areas
  import opened Records
  import opened OrderRequests

  /** Where, if anywhere, the database throws during the transaction: when
      it begins, in the duplicate lookup, in either insert, or at the commit. */
  datatype DbFault = NoDbFault | BeginFails | LookupFails | MappingInsertFails | OrderInsertFails | CommitFails

  /** The two tables the transaction writes, with their id counters. */
  datatype Db = Db(orders: seq<TableOrder>, mappings: seq<TableMapping>, nextOrderId: nat, nextMappingId: nat)

  /** The `data` of a 201 reply; the amount is in cents. */
  datatype PlacedOrder = PlacedOrder(
    orderId: nat,
    orderNumber: string,
    tableNumber: string,
    status: OrderStatus,
    itemsCount: nat,
    totalAmount: nat,
    createdAt: nat)

  datatype Response =
    | Created(data: PlacedOrder)
    | ValidationFailed(errors: seq<Field>)
    | DuplicateOrder
    | ServerError

  /** The HTTP status of each reply. */
  function StatusCode(r: Response): int {
    match r
    case Created(_) => 201
    case ValidationFailed(_) => 422
    case DuplicateOrder => 409
    case ServerError => 500
  }

  datatype Outcome = Outcome(db: Db, response: Response)

  /** The duplicate query's condition: same order number, placed from the web. */
  predicate IsCustomerOrder(o: TableOrder, orderNumber: string) {
    o.orderNumber == orderNumber && o.source == CustomerWebOrder
  }

  /** `TableOrder::where('order_number', n)->where('submission_source',
      'customer_web_order')->first()`: the first matching row, if any. */
  function FindCustomerOrder(orders: seq<TableOrder>, orderNumber: string): (r: Option<nat>)
    ensures r.Some? ==> r.value < |orders| && IsCustomerOrder(orders[r.value], orderNumber)
    ensures r.Some? ==> forall j :: 0 <= j < r.value ==> !IsCustomerOrder(orders[j], orderNumber)
    ensures r.None? <==> forall i :: 0 <= i < |orders| ==> !IsCustomerOrder(orders[i], orderNumber)
  {
    if orders == [] then None
    else if IsCustomerOrder(orders[0], orderNumber) then Some(0)
    else match FindCustomerOrder(orders[1..], orderNumber)
      case Some(i) => Some(i + 1)
      case None => None
  }

  /** True iff a web order with this number is already stored. */
  predicate HasCustomerOrder(orders: seq<TableOrder>, orderNumber: string) {
    exists i :: 0 <= i < |orders| && IsCustomerOrder(orders[i], orderNumber)
  }

  /** The number of stored web orders with this order number. */
  function CountCustomerOrders(orders: seq<TableOrder>, orderNumber: string): nat {
    if orders == [] then 0
    else (if IsCustomerOrder(orders[0], orderNumber) then 1 else 0) + CountCustomerOrders(orders[1..], orderNumber)
  }

  /** `"{orderNumber}_{tableNumber}_" . now()->timestamp`, used both as the
      mapping's submission id and as the order's unique identifier. */
  function SubmissionId(orderNumber: string, tableNumber: string, now: nat): string {
    orderNumber + "_" + tableNumber + "_" + NatToString(now)
  }

  /** A submission id splits back into the order number, the table number and
      the timestamp, in decimal. */
  lemma SubmissionIdReadsBack(orderNumber: string, tableNumber: string, now: nat)
    ensures var r := SubmissionId(orderNumber, tableNumber, now);
      var stamp := r[|orderNumber| + |tableNumber| + 2..];
      && |r| > |orderNumber| + |tableNumber| + 2
      && r == orderNumber + "_" + tableNumber + "_" + stamp && IsDigits(stamp) && DigitsValue(stamp) == now
  {
    NatToStringRoundTrip(now);
    var r := SubmissionId(orderNumber, tableNumber, now);
    assert r[|orderNumber| + |tableNumber| + 2..] == NatToString(now);
  }

  /** The table mapping created for a web order: an active web mapping in
      the table's area, stamped with the submission id and time. */
  function NewMapping(id: nat, orderNumber: string, tableNumber: string, now: nat): (m: TableMapping)
    ensures m.id == id && m.orderNumber == orderNumber && m.tableNumber == tableNumber
    ensures m.source == CustomerWebOrder && m.status == MappingActive && m.area == DetermineArea(tableNumber)
    ensures m.submissionId == SubmissionId(orderNumber, tableNumber, now) && m.submittedAt == now
  {
    TableMapping(id, orderNumber, tableNumber, SubmissionId(orderNumber, tableNumber, now), now,
                 CustomerWebOrder, DetermineArea(tableNumber), MappingActive, 0)
  }

  /** The order created for a web order, referencing mapping `mappingId`: a
      pending walk-in web order, which the duplicate lookup finds by its
      number, carrying the same identifier and area as the mapping made from
      the same submission. */
  function NewOrder(id: nat, orderNumber: string, tableNumber: string, mappingId: nat,
                    items: seq<Item>, notes: Option<string>, total: nat, now: nat): (o: TableOrder)
    ensures o.id == id && IsCustomerOrder(o, orderNumber) && o.mappingId == Some(mappingId)
    ensures o.status == Pending && o.customerName == WalkInCustomer
    ensures var m := NewMapping(mappingId, orderNumber, tableNumber, now);
      o.uniqueIdentifier == m.submissionId && o.area == m.area && o.tableNumber == m.tableNumber
    ensures o.items == items && o.notes == notes && o.totalAmount == total && o.createdAt == now
  {
    TableOrder(id, orderNumber, tableNumber, SubmissionId(orderNumber, tableNumber, now), Some(mappingId),
               WalkInCustomer, Pending, items, notes, total, CustomerWebOrder, DetermineArea(tableNumber), now)
  }

  /** The transaction of `placeOrder`, on the trimmed order number, the
      normalised table number and the validated lines: refuse a stored web
      order with the same number, else append one mapping and one order that
      references it. `fault` is where, if anywhere, the database throws; the
      rows then stay as they were, and each counter keeps any id it gave. */
  function Transaction(db: Db, orderNumber: string, tableNumber: string, items: seq<Item>,
                       notes: Option<string>, total: nat, now: nat, fault: DbFault): (r: Outcome)
    ensures !r.response.ValidationFailed?
  {
    if fault == BeginFails || fault == LookupFails then Outcome(db, ServerError)
    else if FindCustomerOrder(db.orders, orderNumber).Some? then Outcome(db, DuplicateOrder)
    else if fault == MappingInsertFails then Outcome(db, ServerError)
    else if fault == OrderInsertFails then Outcome(db.(nextMappingId := db.nextMappingId + 1), ServerError)
    else if fault == CommitFails then
      Outcome(db.(nextOrderId := db.nextOrderId + 1, nextMappingId := db.nextMappingId + 1), ServerError)
    else
      var mapping := NewMapping(db.nextMappingId, orderNumber, tableNumber, now);
      var order := NewOrder(db.nextOrderId, orderNumber, tableNumber, mapping.id, items, notes, total, now);
      Outcome(Db(db.orders + [order], db.mappings + [mapping], db.nextOrderId + 1, db.nextMappingId + 1),
              Created(PlacedOrder(order.id, orderNumber, tableNumber, Pending, |items|, total, now)))
  }

  /** `placeOrder` on the tables: validation, then the transaction on the
      normalised request. `now` is the clock. */
  function Place(db: Db, req: OrderRequest, now: nat, fault: DbFault): (r: Outcome)
    ensures r.response.ValidationFailed? <==> !Acceptable(req)
    ensures !Acceptable(req) ==> r.db == db
  {
    if !Acceptable(req) then Outcome(db, ValidationFailed(FieldErrors(req)))
    else Transaction(db, Trim(req.orderNumber.value), Normalize(req.tableNumber.value), ToItems(req.items),
                     req.notes, req.totalAmount.value as nat, now, fault)
  }

  /** The ids of the stored mappings. */
  function MappingIds(mappings: seq<TableMapping>): set<nat> {
    set k | 0 <= k < |mappings| :: mappings[k].id
  }

  /** At most one web order per order number. */
  ghost predicate UniqueCustomerOrders(orders: seq<TableOrder>) {
    forall i, j :: 0 <= i < j < |orders| && orders[i].source == CustomerWebOrder && orders[j].source == CustomerWebOrder
      ==> orders[i].orderNumber != orders[j].orderNumber
  }

  /** The invariant of the tables: ids increase in insertion order and stay
      below their counter, web orders are unique per order number, and every
      order's mapping id names a stored mapping. */
  ghost predicate DbValid(db: Db) {
    && (forall i :: 0 <= i < |db.orders| ==> db.orders[i].id < db.nextOrderId)
    && (forall i, j :: 0 <= i < j < |db.orders| ==> db.orders[i].id < db.orders[j].id)
    && (forall i :: 0 <= i < |db.mappings| ==> db.mappings[i].id < db.nextMappingId)
    && (forall i, j :: 0 <= i < j < |db.mappings| ==> db.mappings[i].id < db.mappings[j].id)
    && UniqueCustomerOrders(db.orders)
    && (forall i :: 0 <= i < |db.orders| && db.orders[i].mappingId.Some? ==>
          db.orders[i].mappingId.value in MappingIds(db.mappings))
  }

  /** An invalid request gets a 422 naming exactly the failing fields, and
      nothing is written; a valid one never gets a 422. */
  lemma PlaceRejectsInvalid(db: Db, req: OrderRequest, now: nat, fault: DbFault)
    ensures Place(db, req, now, fault).response.ValidationFailed? <==> !Acceptable(req)
    ensures !Acceptable(req) ==> Place(db, req, now, fault).db == db
    ensures !Acceptable(req) ==> var errors := Place(db, req, now, fault).response.errors;
              errors != [] && forall f :: f in errors <==> Fails(req, f)
  {
    FieldErrorsEmptyIffAcceptable(req);
  }

  /** In the transaction: a stored web order with the same number means a 409
      (unless the query itself fails) and no write. */
  lemma TransactionRejectsDuplicate(db: Db, orderNumber: string, tableNumber: string, items: seq<Item>,
                                    notes: Option<string>, total: nat, now: nat, fault: DbFault)
    requires fault != BeginFails && fault != LookupFails
    ensures var p := Transaction(db, orderNumber, tableNumber, items, notes, total, now, fault);
      && (p.response == DuplicateOrder <==> HasCustomerOrder(db.orders, orderNumber))
      && (p.response == DuplicateOrder ==> p.db == db)
  {
  }

  /** A valid request whose trimmed order number is already stored as a web
      order gets a 409 (unless the query itself fails), and nothing is written. */
  lemma PlaceRejectsDuplicate(db: Db, req: OrderRequest, now: nat, fault: DbFault)
    requires Acceptable(req) && fault != BeginFails && fault != LookupFails
    ensures Place(db, req, now, fault).response == DuplicateOrder <==>
              HasCustomerOrder(db.orders, Trim(req.orderNumber.value))
    ensures Place(db, req, now, fault).response == DuplicateOrder ==> Place(db, req, now, fault).db == db
  {
    TransactionRejectsDuplicate(db, Trim(req.orderNumber.value), Normalize(req.tableNumber.value),
                                ToItems(req.items), req.notes, req.totalAmount.value as nat, now, fault);
  }

  /** In the transaction: a failing step leaves the rows as they were. */
  lemma TransactionRollsBack(db: Db, orderNumber: string, tableNumber: string, items: seq<Item>,
                             notes: Option<string>, total: nat, now: nat, fault: DbFault)
    ensures var p := Transaction(db, orderNumber, tableNumber, items, notes, total, now, fault);
      && (p.response == ServerError ==> p.db.orders == db.orders && p.db.mappings == db.mappings)
      && (p.response == ServerError <==>
            fault == BeginFails || fault == LookupFails ||
            (fault != NoDbFault && !HasCustomerOrder(db.orders, orderNumber)))
  {
  }

  /** Any failing database step leaves the rows as they were and gets a 500;
      it happens exactly when the database throws before the order is in. */
  lemma PlaceRollsBack(db: Db, req: OrderRequest, now: nat, fault: DbFault)
    ensures var p := Place(db, req, now, fault);
              p.response == ServerError ==> p.db.orders == db.orders && p.db.mappings == db.mappings
    ensures Place(db, req, now, fault).response == ServerError <==>
              Acceptable(req) && (fault == BeginFails || fault == LookupFails ||
                (fault != NoDbFault && !HasCustomerOrder(db.orders, Trim(req.orderNumber.value))))
  {
    if Acceptable(req) {
      TransactionRollsBack(db, Trim(req.orderNumber.value), Normalize(req.tableNumber.value),
                           ToItems(req.items), req.notes, req.totalAmount.value as nat, now, fault);
    }
  }

  /** In the transaction: a 201 exactly when nothing fails and the number is
      new; then one mapping and one order referencing it are appended. */
  lemma TransactionCreates(db: Db, orderNumber: string, tableNumber: string, items: seq<Item>,
                           notes: Option<string>, total: nat, now: nat, fault: DbFault)
    ensures var p := Transaction(db, orderNumber, tableNumber, items, notes, total, now, fault);
      p.response.Created? <==> fault == NoDbFault && !HasCustomerOrder(db.orders, orderNumber)
    ensures var p := Transaction(db, orderNumber, tableNumber, items, notes, total, now, fault);
      p.response.Created? ==>
        && |p.db.orders| == |db.orders| + 1 && p.db.orders[..|db.orders|] == db.orders
        && |p.db.mappings| == |db.mappings| + 1 && p.db.mappings[..|db.mappings|] == db.mappings
        && var o := p.db.orders[|db.orders|];
           var m := p.db.mappings[|db.mappings|];
           && o.mappingId == Some(m.id)
           && o.orderNumber == orderNumber && m.orderNumber == orderNumber
           && o.tableNumber == tableNumber && m.tableNumber == tableNumber
           && o.area == DetermineArea(tableNumber) && m.area == o.area
           && o.status == Pending && o.customerName == WalkInCustomer
           && o.source == CustomerWebOrder && m.source == CustomerWebOrder && m.status == MappingActive
           && o.items == items && o.notes == notes && o.totalAmount == total
           && p.response.data == PlacedOrder(o.id, orderNumber, tableNumber, Pending, |items|, total, now)
  {
    var p := Transaction(db, orderNumber, tableNumber, items, notes, total, now, fault);
    if p.response.Created? {
      assert p.db.orders[..|db.orders|] == db.orders;
      assert p.db.mappings[..|db.mappings|] == db.mappings;
    }
  }

  /** A 201 happens exactly for a valid, new order number with no database
      failure; then exactly one mapping and one order are appended, the order
      references the mapping, both carry the normalised table number, the
      trimmed order number and the same area, and the order is a pending
      walk-in web order. The reply counts the submitted lines. */
  lemma PlaceCreates(db: Db, req: OrderRequest, now: nat, fault: DbFault)
    ensures Place(db, req, now, fault).response.Created? <==>
              Acceptable(req) && fault == NoDbFault && !HasCustomerOrder(db.orders, Trim(req.orderNumber.value))
    ensures var p := Place(db, req, now, fault);
      p.response.Created? ==>
        var orderNumber := Trim(req.orderNumber.value);
        var tableNumber := Normalize(req.tableNumber.value);
        && |p.db.orders| == |db.orders| + 1 && p.db.orders[..|db.orders|] == db.orders
        && |p.db.mappings| == |db.mappings| + 1 && p.db.mappings[..|db.mappings|] == db.mappings
        && var o := p.db.orders[|db.orders|];
           var m := p.db.mappings[|db.mappings|];
           && o.mappingId == Some(m.id)
           && o.orderNumber == orderNumber && m.orderNumber == orderNumber
           && o.tableNumber == tableNumber && m.tableNumber == tableNumber
           && o.area == DetermineArea(tableNumber) && m.area == o.area
           && o.status == Pending && o.customerName == WalkInCustomer
           && o.source == CustomerWebOrder && m.source == CustomerWebOrder && m.status == MappingActive
           && o.items == ToItems(req.items) && |o.items| == |req.items|
           && o.notes == req.notes && o.totalAmount == req.totalAmount.value
           && p.response.data == PlacedOrder(o.id, orderNumber, tableNumber, Pending, |req.items|, o.totalAmount, now)
  {
    if Acceptable(req) {
      TransactionCreates(db, Trim(req.orderNumber.value), Normalize(req.tableNumber.value),
                         ToItems(req.items), req.notes, req.totalAmount.value as nat, now, fault);
    }
  }

  lemma {:induction false} CountOfNoMatch(orders: seq<TableOrder>, orderNumber: string)
    requires !HasCustomerOrder(orders, orderNumber)
    ensures CountCustomerOrders(orders, orderNumber) == 0
  {
    if orders != [] {
      assert !HasCustomerOrder(orders[1..], orderNumber) by {
        forall i | 0 <= i < |orders| - 1 ensures !IsCustomerOrder(orders[1..][i], orderNumber) {
          assert orders[1..][i] == orders[i + 1];
        }
      }
      CountOfNoMatch(orders[1..], orderNumber);
    }
  }

  lemma {:induction false} CountAppend(orders: seq<TableOrder>, o: TableOrder, orderNumber: string)
    ensures CountCustomerOrders(orders + [o], orderNumber) ==
              CountCustomerOrders(orders, orderNumber) + (if IsCustomerOrder(o, orderNumber) then 1 else 0)
  {
    if orders != [] {
      assert (orders + [o])[1..] == orders[1..] + [o];
      CountAppend(orders[1..], o, orderNumber);
    }
  }

  /** With web orders unique per number, a stored number is counted exactly once. */
  lemma {:induction false} CountOfUnique(orders: seq<TableOrder>, orderNumber: string)
    requires UniqueCustomerOrders(orders)
    requires HasCustomerOrder(orders, orderNumber)
    ensures CountCustomerOrders(orders, orderNumber) == 1
  {
    if IsCustomerOrder(orders[0], orderNumber) {
      assert !HasCustomerOrder(orders[1..], orderNumber) by {
        forall i | 0 <= i < |orders| - 1 ensures !IsCustomerOrder(orders[1..][i], orderNumber) {
          assert orders[1..][i] == orders[i + 1];
        }
      }
      CountOfNoMatch(orders[1..], orderNumber);
    } else {
      var i :| 0 <= i < |orders| && IsCustomerOrder(orders[i], orderNumber);
      assert IsCustomerOrder(orders[1..][i - 1], orderNumber);
      assert UniqueCustomerOrders(orders[1..]) by {
        forall a, b | 0 <= a < b < |orders| - 1 ensures orders[1..][a] == orders[a + 1] && orders[1..][b] == orders[b + 1] {
        }
      }
      CountOfUnique(orders[1..], orderNumber);
    }
  }

  /** Appending a fresh mapping and a new web order that references it keeps
      the invariant, as long as no web order with that number is stored. */
  lemma AppendPreservesValid(db: Db, order: TableOrder, mapping: TableMapping)
    requires DbValid(db)
    requires order.id == db.nextOrderId && mapping.id == db.nextMappingId
    requires order.mappingId == Some(mapping.id)
    requires !HasCustomerOrder(db.orders, order.orderNumber)
    ensures DbValid(Db(db.orders + [order], db.mappings + [mapping], db.nextOrderId + 1, db.nextMappingId + 1))
  {
    var n := |db.orders|;
    var orders := db.orders + [order];
    var mappings := db.mappings + [mapping];
    assert UniqueCustomerOrders(orders) by {
      forall i, j | 0 <= i < j < |orders| && orders[i].source == CustomerWebOrder && orders[j].source == CustomerWebOrder
        ensures orders[i].orderNumber != orders[j].orderNumber
      {
        if j == n {
          assert !IsCustomerOrder(db.orders[i], order.orderNumber);
        } else {
          assert orders[i] == db.orders[i] && orders[j] == db.orders[j];
        }
      }
    }
    assert MappingIds(db.mappings) <= MappingIds(mappings) by {
      forall x | x in MappingIds(db.mappings) ensures x in MappingIds(mappings) {
        var k :| 0 <= k < |db.mappings| && db.mappings[k].id == x;
        assert mappings[k].id == x;
      }
    }
    assert mappings[|db.mappings|].id in MappingIds(mappings);
  }

  /** The transaction keeps the tables' invariant, whatever its outcome. */
  lemma TransactionPreservesValid(db: Db, orderNumber: string, tableNumber: string, items: seq<Item>,
                                  notes: Option<string>, total: nat, now: nat, fault: DbFault)
    requires DbValid(db)
    ensures DbValid(Transaction(db, orderNumber, tableNumber, items, notes, total, now, fault).db)
  {
    if fault == NoDbFault && FindCustomerOrder(db.orders, orderNumber).None? {
      var mapping := NewMapping(db.nextMappingId, orderNumber, tableNumber, now);
      var order := NewOrder(db.nextOrderId, orderNumber, tableNumber, mapping.id, items, notes, total, now);
      AppendPreservesValid(db, order, mapping);
    }
  }

  /** Every call keeps the tables' invariant, whatever its outcome. */
  lemma PlacePreservesValid(db: Db, req: OrderRequest, now: nat, fault: DbFault)
    requires DbValid(db)
    ensures DbValid(Place(db, req, now, fault).db)
  {
    if Acceptable(req) {
      TransactionPreservesValid(db, Trim(req.orderNumber.value), Normalize(req.tableNumber.value),
                                ToItems(req.items), req.notes, req.totalAmount.value as nat, now, fault);
    }
  }

  /** After a transaction without database failure, exactly one web order
      with the number is stored. */
  lemma TransactionLeavesExactlyOne(db: Db, orderNumber: string, tableNumber: string, items: seq<Item>,
                                    notes: Option<string>, total: nat, now: nat)
    requires DbValid(db)
    ensures CountCustomerOrders(Transaction(db, orderNumber, tableNumber, items, notes, total, now, NoDbFault).db.orders,
                                orderNumber) == 1
  {
    if HasCustomerOrder(db.orders, orderNumber) {
      CountOfUnique(db.orders, orderNumber);
    } else {
      var mapping := NewMapping(db.nextMappingId, orderNumber, tableNumber, now);
      var order := NewOrder(db.nextOrderId, orderNumber, tableNumber, mapping.id, items, notes, total, now);
      assert FindCustomerOrder(db.orders, orderNumber).None?;
      CountOfNoMatch(db.orders, orderNumber);
      CountAppend(db.orders, order, orderNumber);
    }
  }

  /** However often one order number is placed, at most one web order with
      that number is stored: after a call without database failure there is
      exactly one. */
  lemma PlaceLeavesExactlyOne(db: Db, req: OrderRequest, now: nat)
    requires DbValid(db) && Acceptable(req)
    ensures CountCustomerOrders(Place(db, req, now, NoDbFault).db.orders, Trim(req.orderNumber.value)) == 1
  {
    TransactionLeavesExactlyOne(db, Trim(req.orderNumber.value), Normalize(req.tableNumber.value),
                                ToItems(req.items), req.notes, req.totalAmount.value as nat, now);
  }

  /** Placing the same request twice: the second call gets a 409 and writes
      nothing, whatever the clock says. */
  lemma PlaceTwiceIsIdempotent(db: Db, req: OrderRequest, now1: nat, now2: nat)
    requires Place(db, req, now1, NoDbFault).response.Created?
    ensures var first := Place(db, req, now1, NoDbFault);
            var second := Place(first.db, req, now2, NoDbFault);
            second.response == DuplicateOrder && second.db == first.db
  {
    var first := Place(db, req, now1, NoDbFault);
    PlaceCreates(db, req, now1, NoDbFault);
    var n := |db.orders|;
    assert IsCustomerOrder(first.db.orders[n], Trim(req.orderNumber.value));
    PlaceRejectsDuplicate(first.db, req, now2, NoDbFault);
  }
}

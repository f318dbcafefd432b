/**
  The database as `placeOrder` and `sendNotificationToExpoAdmins` change it,
  step by step: a transaction that saves the order and mapping rows when it
  begins and restores them on rollback, row inserts that draw their ids from
  per-table counters, and the notification loop that runs after the commit.

  `PlaceOrder` is proved against `Placement.Place`: the tables it leaves and
  the reply it returns are exactly those of the function, whatever the
  notification step does.
 */
module OrderStore {
  import opened Wrappers
  import opened Text
  import opened Records
  import opened OrderRequests
  import opened Placement
  import opened Summaries
  import opened FanOut

  /** The rows saved when a transaction begins. */
  datatype Savepoint = Savepoint(orders: seq<TableOrder>, mappings: seq<TableMapping>)

  class Store {
    var orders: seq<TableOrder>
    var mappings: seq<TableMapping>
    var notifications: seq<Notification>
    /** The staff accounts; this workflow only reads them. */
    var admins: seq<Admin>
    var nextOrderId: nat
    var nextMappingId: nat
    var nextNotificationId: nat
    /** The open transaction, if any. */
    var savepoint: Option<Savepoint>

    /** The order and mapping tables with their counters. */
    function Tables(): Db
      reads this`orders, this`mappings, this`nextOrderId, this`nextMappingId
    {
      Db(orders, mappings, nextOrderId, nextMappingId)
    }

    /** The order inserted last. */
    function LastOrder(): TableOrder
      requires |orders| > 0
      reads this`orders
    {
      orders[|orders| - 1]
    }

    /** Notification ids increase in insertion order and stay below the counter. */
    ghost predicate NotificationIdsValid()
      reads this`notifications, this`nextNotificationId
    {
      && (forall i :: 0 <= i < |notifications| ==> notifications[i].id < nextNotificationId)
      && (forall i, j :: 0 <= i < j < |notifications| ==> notifications[i].id < notifications[j].id)
    }

    /** The store between requests: valid tables, valid notification ids, no
        open transaction. */
    ghost predicate Valid()
      reads this
    {
      DbValid(Tables()) && NotificationIdsValid() && savepoint.None?
    }

    /** An empty store with the given staff accounts. */
    constructor(staff: seq<Admin>)
      ensures Valid()
      ensures orders == [] && mappings == [] && notifications == [] && admins == staff
    {
      orders := [];
      mappings := [];
      notifications := [];
      admins := staff;
      nextOrderId := 1;
      nextMappingId := 1;
      nextNotificationId := 1;
      savepoint := None;
    }

    /** `DB::beginTransaction()`. */
    method BeginTransaction()
      requires savepoint.None?
      modifies this`savepoint
      ensures savepoint == Some(Savepoint(orders, mappings))
    {
      savepoint := Some(Savepoint(orders, mappings));
    }

    /** `DB::rollBack()`: the rows return to the savepoint; the id counters,
        like auto-increment counters, keep their values. */
    method RollBack()
      requires savepoint.Some?
      modifies this`orders, this`mappings, this`savepoint
      ensures orders == old(savepoint.value.orders) && mappings == old(savepoint.value.mappings)
      ensures savepoint.None?
    {
      orders := savepoint.value.orders;
      mappings := savepoint.value.mappings;
      savepoint := None;
    }

    /** `DB::commit()`: the rows written since the savepoint stay. */
    method Commit()
      requires savepoint.Some?
      modifies this`savepoint
      ensures savepoint.None?
    {
      savepoint := None;
    }

    /** `TableMapping::create([...])` for a web order. */
    method InsertMapping(orderNumber: string, tableNumber: string, now: nat) returns (m: TableMapping)
      modifies this`mappings, this`nextMappingId
      ensures m == NewMapping(old(nextMappingId), orderNumber, tableNumber, now)
      ensures mappings == old(mappings) + [m] && nextMappingId == old(nextMappingId) + 1
    {
      m := NewMapping(nextMappingId, orderNumber, tableNumber, now);
      mappings := mappings + [m];
      nextMappingId := nextMappingId + 1;
    }

    /** `TableOrder::create([...])` for a web order. */
    method InsertOrder(orderNumber: string, tableNumber: string, mappingId: nat,
                       items: seq<Item>, notes: Option<string>, total: nat, now: nat) returns (o: TableOrder)
      modifies this`orders, this`nextOrderId
      ensures o == NewOrder(old(nextOrderId), orderNumber, tableNumber, mappingId, items, notes, total, now)
      ensures orders == old(orders) + [o] && nextOrderId == old(nextOrderId) + 1
    {
      o := NewOrder(nextOrderId, orderNumber, tableNumber, mappingId, items, notes, total, now);
      orders := orders + [o];
      nextOrderId := nextOrderId + 1;
    }

    /** `TableNotification::create([...])` for one recipient. */
    method InsertNotification(admin: Admin, order: TableOrder, tableNumber: string,
                              summary: string, itemsCount: nat) returns (n: Notification)
      requires NotificationIdsValid()
      modifies this`notifications, this`nextNotificationId
      ensures NotificationIdsValid()
      ensures n == NotificationFor(old(nextNotificationId), admin, order, tableNumber, summary, itemsCount)
      ensures notifications == old(notifications) + [n] && nextNotificationId == old(nextNotificationId) + 1
    {
      n := NotificationFor(nextNotificationId, admin, order, tableNumber, summary, itemsCount);
      notifications := notifications + [n];
      nextNotificationId := nextNotificationId + 1;
    }

    /** `sendNotificationToExpoAdmins`: one notification per eligible account,
        in query order, until the fault (if any) stops the loop; the fault is
        swallowed and the notifications already created stay. */
    method NotifyExpoAdmins(order: TableOrder, tableNumber: string, items: seq<Item>, fault: FanOutFault)
      requires NotificationIdsValid()
      modifies this`notifications, this`nextNotificationId
      ensures NotificationIdsValid()
      ensures notifications == old(notifications) + FanOutResult(old(nextNotificationId), admins, order, tableNumber, items, fault)
      ensures nextNotificationId == old(nextNotificationId) + |FanOutResult(old(nextNotificationId), admins, order, tableNumber, items, fault)|
    {
      ghost var all := ExpoNotifications(nextNotificationId, admins, order, tableNumber, items);
      if fault == AdminQueryFails {
        assert all[..Delivered(fault, |all|)] == [];
        assert notifications == old(notifications) + [];
        return;
      }
      var expoAdmins := ExpoAdmins(admins);
      var summary := ItemsSummary(items);
      ghost var before := notifications;
      ghost var firstId := nextNotificationId;
      for i := 0 to |expoAdmins|
        invariant NotificationIdsValid()
        invariant notifications == before + all[..i]
        invariant nextNotificationId == firstId + i
        invariant fault.NotificationInsertFails? ==> fault.at >= i
      {
        if fault == NotificationInsertFails(i) {
          assert Delivered(fault, |all|) == i;
          return;
        }
        var n := InsertNotification(expoAdmins[i], order, tableNumber, summary, |items|);
        assert n == all[i];
        assert all[..i + 1] == all[..i] + [n];
      }
      assert Delivered(fault, |all|) == |all|;
      assert all[..|expoAdmins|] == all;
    }

    /** The transaction of `placeOrder` on the trimmed order number, the
        normalised table number and the validated lines: look for a web order
        with the same number (409), else create the mapping and then the order
        that references it, and commit; a fault rolls back (500). A failure to
        begin leaves no transaction to roll back. The tables
        and the reply are those of `Placement.Transaction`. */
    method Transact(orderNumber: string, tableNumber: string, items: seq<Item>,
                    notes: Option<string>, total: nat, now: nat, dbFault: DbFault) returns (resp: Response)
      requires savepoint.None?
      modifies this`orders, this`mappings, this`nextOrderId, this`nextMappingId, this`savepoint
      ensures savepoint.None?
      ensures var outcome := Transaction(old(Tables()), orderNumber, tableNumber, items, notes, total, now, dbFault);
        Tables() == outcome.db && resp == outcome.response
      ensures resp.Created? ==> |orders| > 0 && resp.data.orderId == orders[|orders| - 1].id
    {
      if dbFault == BeginFails {
        // `DB::rollBack()` in the handler finds no open transaction and does nothing.
        return ServerError;
      }
      BeginTransaction();
      if dbFault == LookupFails {
        RollBack();
        return ServerError;
      }
      if FindCustomerOrder(orders, orderNumber).Some? {
        RollBack();
        return DuplicateOrder;
      }
      resp := WriteRows(orderNumber, tableNumber, items, notes, total, now, dbFault);
    }

    /** The writes of the transaction, once the lookup found no web order with
        the number: the mapping, then the order that references it, then the
        commit; a fault on the way rolls back (500). */
    method WriteRows(orderNumber: string, tableNumber: string, items: seq<Item>,
                     notes: Option<string>, total: nat, now: nat, dbFault: DbFault) returns (resp: Response)
      requires savepoint == Some(Savepoint(orders, mappings))
      requires dbFault != BeginFails && dbFault != LookupFails
      requires FindCustomerOrder(orders, orderNumber).None?
      modifies this`orders, this`mappings, this`nextOrderId, this`nextMappingId, this`savepoint
      ensures savepoint.None?
      ensures var outcome := Transaction(old(Tables()), orderNumber, tableNumber, items, notes, total, now, dbFault);
        Tables() == outcome.db && resp == outcome.response
      ensures resp.Created? ==> |orders| > 0 && resp.data.orderId == orders[|orders| - 1].id
    {
      ghost var db := Tables();
      if dbFault == MappingInsertFails {
        RollBack();
        return ServerError;
      }
      var mapping := InsertMapping(orderNumber, tableNumber, now);
      if dbFault == OrderInsertFails {
        RollBack();
        assert Tables() == db.(nextMappingId := db.nextMappingId + 1);
        return ServerError;
      }
      var order := InsertOrder(orderNumber, tableNumber, mapping.id, items, notes, total, now);
      if dbFault == CommitFails {
        RollBack();
        assert Tables() == db.(nextOrderId := db.nextOrderId + 1, nextMappingId := db.nextMappingId + 1);
        return ServerError;
      }
      Commit();
      resp := Created(PlacedOrder(order.id, orderNumber, tableNumber, order.status, |items|, total, now));
    }

    /** The `try` block of `placeOrder`, on the trimmed order number, the
        normalised table number and the validated lines: the transaction,
        then, once it has committed, the notifications for the new order.
        Whatever the notification step does, the tables and the reply are
        those of `Placement.Transaction`. */
    method PlaceValidated(orderNumber: string, tableNumber: string, items: seq<Item>, notes: Option<string>,
                          total: nat, now: nat, dbFault: DbFault, fanOutFault: FanOutFault) returns (resp: Response)
      requires Valid()
      modifies this`orders, this`mappings, this`nextOrderId, this`nextMappingId, this`savepoint,
               this`notifications, this`nextNotificationId
      ensures Valid()
      ensures Outcome(Tables(), resp) == Transaction(old(Tables()), orderNumber, tableNumber, items, notes, total, now, dbFault)
      ensures admins == old(admins)
      ensures !resp.Created? ==> notifications == old(notifications)
      ensures resp.Created? ==> |orders| > 0
      ensures resp.Created? ==>
                notifications == old(notifications) + FanOutResult(old(nextNotificationId), admins, LastOrder(),
                                                                   LastOrder().tableNumber, LastOrder().items, fanOutFault)
    {
      TransactionPreservesValid(Tables(), orderNumber, tableNumber, items, notes, total, now, dbFault);
      resp := Transact(orderNumber, tableNumber, items, notes, total, now, dbFault);
      ghost var tables := Tables();
      assert DbValid(tables);
      if resp.Created? {
        var order := LastOrder();
        NotifyExpoAdmins(order, order.tableNumber, order.items, fanOutFault);
        assert Tables() == tables;
      }
    }

    /** `placeOrder`: validation (422, nothing written), then the transaction
        and the notifications on the normalised request. The tables and the
        reply are those of `Placement.Place`; only a created order notifies
        anybody. */
    method PlaceOrder(req: OrderRequest, now: nat, dbFault: DbFault, fanOutFault: FanOutFault) returns (resp: Response)
      requires Valid()
      modifies this
      ensures Valid()
      ensures Outcome(Tables(), resp) == Place(old(Tables()), req, now, dbFault)
      ensures admins == old(admins)
      ensures !resp.Created? ==> notifications == old(notifications)
      ensures resp.Created? ==> |orders| > 0
      ensures resp.Created? ==>
                notifications == old(notifications) + FanOutResult(old(nextNotificationId), admins, LastOrder(),
                                                                   LastOrder().tableNumber, LastOrder().items, fanOutFault)
    {
      var errors := FieldErrors(req);
      FieldErrorsEmptyIffAcceptable(req);
      if errors != [] {
        return ValidationFailed(errors);
      }
      var tableNumber := Normalize(req.tableNumber.value);
      var orderNumber := Trim(req.orderNumber.value);
      var items := ToItems(req.items);
      resp := PlaceValidated(orderNumber, tableNumber, items, req.notes, req.totalAmount.value as nat,
                             now, dbFault, fanOutFault);
    }
  }
}

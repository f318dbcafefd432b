/**
  The notifications sent after an order is committed
  (`sendNotificationToExpoAdmins`): one unread, high-priority NEW_ORDER
  notification for every staff account with role expo, status active and
  notifications enabled, in the order the query returns them. Failures are
  caught there, so the caller never sees them; notifications created before a
  failure stay, as no transaction surrounds them.
 */
module FanOut {
  import opened Wrappers
  import opened Text
  import opened Areas
  import opened Records
  import opened Summaries

  /** Where, if anywhere, the database throws during the fan-out: in the
      recipient query, or when creating the notification at position `at`. */
  datatype FanOutFault = NoFanOutFault | AdminQueryFails | NotificationInsertFails(at: nat)

  /** The recipient query's condition. */
  predicate IsExpoRecipient(a: Admin) {
    a.role == Expo && a.status == AdminActive && a.notificationsEnabled
  }

  /** The recipient query: the eligible accounts, in stored order. */
  function ExpoAdmins(admins: seq<Admin>): (r: seq<Admin>)
    ensures |r| <= |admins|
    ensures forall a :: a in r <==> a in admins && IsExpoRecipient(a)
  {
    if admins == [] then []
    else (if IsExpoRecipient(admins[0]) then [admins[0]] else []) + ExpoAdmins(admins[1..])
  }

  /** Stored accounts have distinct ids. */
  predicate DistinctIds(admins: seq<Admin>) {
    forall i, j :: 0 <= i < j < |admins| ==> admins[i].id != admins[j].id
  }

  /** The notification for one recipient: addressed to that admin, unread,
      and located in the table's area. */
  function NotificationFor(id: nat, admin: Admin, order: TableOrder, tableNumber: string,
                           summary: string, itemsCount: nat): (n: Notification)
    ensures n.id == id && n.recipientType == RecipientAdmin && n.recipientId == admin.id && !n.isRead
    ensures n.location == DetermineArea(tableNumber) && n.data.orderId == order.id
  {
    Notification(id, NewOrderNotification,
                 "New Web Order - Table " + tableNumber,
                 "Order #" + order.orderNumber + " - " + summary,
                 order.orderNumber, tableNumber, WalkInCustomer, DetermineArea(tableNumber),
                 HighPriority, RecipientAdmin, admin.id,
                 NotificationData(order.id, itemsCount, order.totalAmount, CustomerWebOrder),
                 false)
  }

  /** Every notification a complete fan-out creates, with consecutive ids
      from `firstId`. */
  function ExpoNotifications(firstId: nat, admins: seq<Admin>, order: TableOrder, tableNumber: string,
                             items: seq<Item>): (r: seq<Notification>)
    ensures |r| == |ExpoAdmins(admins)|
  {
    var recipients := ExpoAdmins(admins);
    var summary := ItemsSummary(items);
    seq(|recipients|, k requires 0 <= k < |recipients| =>
      NotificationFor(firstId + k, recipients[k], order, tableNumber, summary, |items|))
  }

  /** How many of `recipients` notifications are created before the fault. */
  function Delivered(fault: FanOutFault, recipients: nat): (k: nat)
    ensures k <= recipients
    ensures fault == NoFanOutFault ==> k == recipients
  {
    match fault
    case NoFanOutFault => recipients
    case AdminQueryFails => 0
    case NotificationInsertFails(at) => if at < recipients then at else recipients
  }

  /** The notifications a fan-out leaves behind: those created before the
      fault, a prefix of the complete fan-out, and all of it without a fault. */
  function FanOutResult(firstId: nat, admins: seq<Admin>, order: TableOrder, tableNumber: string,
                        items: seq<Item>, fault: FanOutFault): (r: seq<Notification>)
    ensures var all := ExpoNotifications(firstId, admins, order, tableNumber, items);
      |r| <= |all| && r == all[..|r|]
    ensures fault == NoFanOutFault ==> r == ExpoNotifications(firstId, admins, order, tableNumber, items)
    ensures fault == AdminQueryFails ==> r == []
  {
    var all := ExpoNotifications(firstId, admins, order, tableNumber, items);
    all[..Delivered(fault, |all|)]
  }

  lemma {:induction false} ExpoAdminsDistinct(admins: seq<Admin>)
    requires DistinctIds(admins)
    ensures DistinctIds(ExpoAdmins(admins))
  {
    if admins != [] {
      var rest := ExpoAdmins(admins[1..]);
      assert DistinctIds(admins[1..]) by {
        forall i, j | 0 <= i < j < |admins| - 1 ensures admins[1..][i].id != admins[1..][j].id {
          assert admins[1..][i] == admins[i + 1] && admins[1..][j] == admins[j + 1];
        }
      }
      ExpoAdminsDistinct(admins[1..]);
      forall k | 0 <= k < |rest| ensures rest[k].id != admins[0].id {
        assert rest[k] in admins[1..];
        var m :| 0 <= m < |admins| - 1 && admins[1..][m] == rest[k];
        assert admins[m + 1] == rest[k];
      }
    }
  }

  /** The k-th notification of a complete fan-out is addressed to the k-th
      recipient. */
  lemma NotificationRecipients(firstId: nat, admins: seq<Admin>, order: TableOrder, tableNumber: string, items: seq<Item>)
    ensures var r := ExpoNotifications(firstId, admins, order, tableNumber, items);
      var recipients := ExpoAdmins(admins);
      |r| == |recipients| && forall k :: 0 <= k < |r| ==> r[k].recipientId == recipients[k].id
  {
    var r := ExpoNotifications(firstId, admins, order, tableNumber, items);
    var recipients := ExpoAdmins(admins);
    var summary := ItemsSummary(items);
    forall k | 0 <= k < |r| ensures r[k].recipientId == recipients[k].id {
      assert r[k] == NotificationFor(firstId + k, recipients[k], order, tableNumber, summary, |items|);
    }
  }

  /** Exactly one notification per eligible account, addressed to it. */
  lemma FanOutOnePerRecipient(firstId: nat, admins: seq<Admin>, order: TableOrder, tableNumber: string, items: seq<Item>)
    requires DistinctIds(admins)
    ensures var r := ExpoNotifications(firstId, admins, order, tableNumber, items);
      forall a :: a in admins && IsExpoRecipient(a) ==>
        exists k :: 0 <= k < |r| && r[k].recipientId == a.id &&
          forall j :: 0 <= j < |r| && r[j].recipientId == a.id ==> j == k
  {
    var r := ExpoNotifications(firstId, admins, order, tableNumber, items);
    var recipients := ExpoAdmins(admins);
    NotificationRecipients(firstId, admins, order, tableNumber, items);
    ExpoAdminsDistinct(admins);
    forall a | a in admins && IsExpoRecipient(a)
      ensures exists k :: 0 <= k < |r| && r[k].recipientId == a.id &&
                forall j :: 0 <= j < |r| && r[j].recipientId == a.id ==> j == k
    {
      assert a in recipients;
      var k :| 0 <= k < |recipients| && recipients[k] == a;
      forall j | 0 <= j < |r| && r[j].recipientId == a.id ensures j == k {
        assert recipients[j].id == recipients[k].id;
      }
      assert r[k].recipientId == a.id;
    }
  }

  /** No notification goes to an account that is not eligible. */
  lemma FanOutOnlyToRecipients(firstId: nat, admins: seq<Admin>, order: TableOrder, tableNumber: string, items: seq<Item>)
    ensures var r := ExpoNotifications(firstId, admins, order, tableNumber, items);
      forall n :: n in r ==>
        exists a :: a in admins && IsExpoRecipient(a) && a.id == n.recipientId
  {
    var r := ExpoNotifications(firstId, admins, order, tableNumber, items);
    var recipients := ExpoAdmins(admins);
    NotificationRecipients(firstId, admins, order, tableNumber, items);
    forall n | n in r ensures exists a :: a in admins && IsExpoRecipient(a) && a.id == n.recipientId {
      var k :| 0 <= k < |r| && r[k] == n;
      assert recipients[k] in recipients;
      assert recipients[k].id == n.recipientId;
    }
  }

  /** The k-th notification goes to the k-th recipient. It is an unread,
      high-priority NEW_ORDER notification for an admin, about this order,
      with its table and area. Its title names the table, and its message
      carries the order number and the items summary. Its data holds the
      order id, line count, total and web source. */
  lemma FanOutRecordShape(firstId: nat, admins: seq<Admin>, order: TableOrder, tableNumber: string, items: seq<Item>)
    ensures var r := ExpoNotifications(firstId, admins, order, tableNumber, items);
      forall k :: 0 <= k < |r| ==>
        && r[k].id == firstId + k
        && r[k].recipientId == ExpoAdmins(admins)[k].id
        && !r[k].isRead && r[k].kind == NewOrderNotification && r[k].priority == HighPriority
        && r[k].recipientType == RecipientAdmin
        && r[k].title == "New Web Order - Table " + tableNumber
        && r[k].message == "Order #" + order.orderNumber + " - " + ItemsSummary(items)
        && r[k].orderNumber == order.orderNumber && r[k].tableNumber == tableNumber
        && r[k].customerName == WalkInCustomer
        && r[k].location == DetermineArea(tableNumber)
        && r[k].data == NotificationData(order.id, |items|, order.totalAmount, CustomerWebOrder)
  {
  }

  /** With no eligible account the fan-out creates nothing. */
  lemma FanOutToNobody(firstId: nat, admins: seq<Admin>, order: TableOrder, tableNumber: string, items: seq<Item>)
    requires forall a :: a in admins ==> !IsExpoRecipient(a)
    ensures ExpoNotifications(firstId, admins, order, tableNumber, items) == []
  {
    if admins != [] {
      assert admins[0] in admins;
      assert forall a :: a in admins[1..] ==> a in admins;
      FanOutToNobody(firstId, admins[1..], order, tableNumber, items);
    }
  }
}

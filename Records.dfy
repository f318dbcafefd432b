/**
  The persistent records the order-placement workflow reads and writes: table
  orders, table mappings, staff (admin) accounts and table notifications.
  Amounts are integer cents; timestamps are opaque whole seconds.
 */
module Records {
  import opened Wrappers
  import opened Areas

  /** `submission_source` / `source`: who submitted the order. */
  datatype Source = CustomerWebOrder | AdminManual | OtherSource(name: string)

  /** Order status; this workflow only ever creates PENDING orders. */
  datatype OrderStatus = Pending | OtherStatus(name: string)

  /** Table-mapping status; cleared mappings are produced elsewhere. */
  datatype MappingStatus = MappingActive | MappingCleared

  /** One validated order line, kept as submitted. */
  datatype Item = Item(menuItemId: int, name: string, quantity: nat, price: nat, notes: Option<string>)

  datatype TableOrder = TableOrder(
    id: nat,
    orderNumber: string,
    tableNumber: string,
    uniqueIdentifier: string,
    mappingId: Option<nat>,
    customerName: string,
    status: OrderStatus,
    items: seq<Item>,
    notes: Option<string>,
    totalAmount: nat,
    source: Source,
    area: Area,
    createdAt: nat)

  datatype TableMapping = TableMapping(
    id: nat,
    orderNumber: string,
    tableNumber: string,
    submissionId: string,
    submittedAt: nat,
    source: Source,
    area: Area,
    status: MappingStatus,
    updateCount: nat)

  datatype AdminRole = Expo | OtherRole(name: string)
  datatype AdminStatus = AdminActive | AdminInactive

  /** A staff account, as far as the notification query looks at it. */
  datatype Admin = Admin(id: nat, role: AdminRole, status: AdminStatus, notificationsEnabled: bool)

  datatype NotificationType = NewOrderNotification | OtherNotification(name: string)
  datatype Priority = HighPriority | OtherPriority(name: string)
  datatype RecipientType = RecipientAdmin | OtherRecipient(name: string)

  /** The structured `data` payload of a notification. */
  datatype NotificationData = NotificationData(orderId: nat, itemsCount: nat, totalAmount: nat, source: Source)

  datatype Notification = Notification(
    id: nat,
    kind: NotificationType,
    title: string,
    message: string,
    orderNumber: string,
    tableNumber: string,
    customerName: string,
    location: Area,
    priority: Priority,
    recipientType: RecipientType,
    recipientId: nat,
    data: NotificationData,
    isRead: bool)

  /** The customer name given to every anonymous web order. */
  const WalkInCustomer: string := "Walk-in Customer"
}

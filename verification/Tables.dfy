/** The tables of one shop: rows, the statuses they carry, and the database that the services update. */
module Tables {

  type Sku = string
  type OrderId = string
  type Key = string

  datatype Option<+T> = None | Some(value: T)

  datatype Status =
    | Browsing | OrderDraft | OrderConfirmed | AddressCollection | AddressConfirmed | StockReserved
    | AwaitingPayment | PaymentReceived | ReservationExpired | PaymentReconcile | Fulfilled
    | Cancelled | AwaitingSellerApproval | PaymentVerifying

  datatype Approval =
    | NoApproval | SellerApprovalDue | AutoConfirmed | ReconcileRequired
    | Approved | Rejected | ReleasedHardCeiling

  /** One inventory row; money is in cents. */
  datatype Item = Item(
    name: string, category: Option<string>, price: int, imageUrl: Option<string>,
    stock: int, reserved: int, active: bool, version: int)

  datatype OrderLine = OrderLine(sku: Sku, size: Option<string>, qty: int, unitPrice: int, lineTotal: int)

  datatype Order = Order(
    lines: seq<OrderLine>, status: Status, ttl: Option<int>,
    approval: Approval, paymentRef: Option<string>, total: int)

  datatype HoldState = Reserved | Confirmed | Released

  datatype Reservation = Reservation(order: OrderId, sku: Sku, qty: int, state: HoldState, expiresAt: int)

  datatype ClaimState = Pending | Consumed | Archived

  /** A consumed payment reference. Pending, Consumed and Archived stand for PENDING, CONFIRMED and RELEASED. */
  datatype Claim = Claim(key: Key, order: Option<OrderId>, state: ClaimState, consumedAt: int)

  datatype Decision = Undecided | InProgress | UnknownOrder | SentToReconcile | Settled

  datatype Event = Event(order: Option<OrderId>, decision: Decision)

  /** The columns of the seller's sheet that are compared with the last sync. */
  datatype Field = Name | Category | Price | ImageUrl | Stock | Active

  type Inventory = map<Sku, Item>
  type Snapshot = map<Field, string>

  datatype State = State(
    inv: Inventory,
    rows: seq<Reservation>,
    orders: map<OrderId, Order>,
    claims: seq<Claim>,
    events: map<Key, Event>,
    snaps: map<Sku, Snapshot>)

  /** What a service call tells its caller. */
  datatype Reply =
    | Done
    | BadQuantity
    | EmptyKey
    | NoSuchOrder
    | WrongStatus(status: Status)
    | NoLines
    | OutOfStock(sku: Sku, qty: int)
    | Duplicate
    | Received
    | Reconcile(failedSku: Sku, failedQty: int)
    | KeyConflict

  /** Quantities are at least one wherever they are stored. */
  ghost predicate PositiveLines(lines: seq<OrderLine>) {
    forall l | l in lines :: l.qty >= 1
  }

  ghost predicate Positive(s: State) {
    && (forall o | o in s.orders :: PositiveLines(s.orders[o].lines))
    && (forall r | r in s.rows :: r.qty >= 1)
  }

  /** The tables as the services see them. A row's id is its position in its sequence. */
  class Database {
    var inventory: Inventory
    var reservations: seq<Reservation>
    var orders: map<OrderId, Order>
    var claims: seq<Claim>
    var events: map<Key, Event>
    var snapshots: map<Sku, Snapshot>

    ghost function Now(): State
      reads this
    {
      State(inventory, reservations, orders, claims, events, snapshots)
    }

    constructor Empty()
      ensures Now() == State(map[], [], map[], [], map[], map[])
    {
      inventory, reservations, orders := map[], [], map[];
      claims, events, snapshots := [], map[], map[];
    }
  }
}

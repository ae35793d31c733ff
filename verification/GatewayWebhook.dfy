/** The gateway webhook after signature and schema checks: deduplicate, sell the held stock, settle the order. */
module GatewayWebhook {
  import opened Tables
  import opened StockLedger
  import opened Holds
  import opened ReservationService
  import opened PaymentClaims
  import opened Text

  // ---------- The payload ----------

  datatype RawPayload = RawPayload(
    order: OrderId, eventKey: Option<string>, eventId: Option<string>,
    transactionId: Option<string>, paymentRef: Option<string>)

  datatype Payload = Payload(order: OrderId, eventKey: Key, transactionId: Option<string>, paymentRef: Option<string>)

  predicate Given(s: Option<string>) {
    s.Some? && s.value != ""
  }

  /** The first identifier the payload carries; None when validation rejects it. */
  function ResolveEventKey(p: RawPayload): Option<Key> {
    var key :=
      if Given(p.eventKey) then p.eventKey.value
      else if Given(p.eventId) then p.eventId.value
      else if Given(p.transactionId) then "gw_" + p.transactionId.value
      else if Given(p.paymentRef) then "gw_" + p.paymentRef.value
      else if p.order != "" then "evt_" + p.order
      else "";
    if Strip(key) == "" then None else Some(Strip(key))
  }

  function Validate(p: RawPayload): Option<Payload> {
    match ResolveEventKey(p)
    case None => None
    case Some(key) => Some(Payload(p.order, key, p.transactionId, p.paymentRef))
  }

  // ---------- Specification ----------

  function NewRef(p: Payload, before: Option<string>): Option<string> {
    if Given(p.paymentRef) then p.paymentRef
    else if Given(p.transactionId) then p.transactionId
    else before
  }

  /** What the webhook sells: the order's lines, or its held rows when it has no lines. */
  function AsksToSell(orders: map<OrderId, Order>, rows: seq<Reservation>, o: OrderId): seq<Ask>
    requires o in orders
  {
    if orders[o].lines != [] then AsksOf(orders[o].lines) else ActiveAsks(rows, o)
  }

  function Paid(p: Payload, order: Order): Order {
    order.(status := PaymentReceived, ttl := None, approval := AutoConfirmed, paymentRef := NewRef(p, order.paymentRef))
  }

  function Unsettled(p: Payload, order: Order): Order {
    order.(status := PaymentReconcile, ttl := None, approval := ReconcileRequired, paymentRef := NewRef(p, order.paymentRef))
  }

  ghost function Settle(s: State, p: Payload, asks: seq<Ask>): State
    requires p.order in s.orders
  {
    s.(inv := MovedAll(Sell, s.inv, asks),
       rows := Mark(s.rows, p.order, HoldState.Confirmed),
       claims := Confirm(s.claims, p.order),
       orders := s.orders[p.order := Paid(p, s.orders[p.order])],
       events := s.events[p.eventKey := Event(Some(p.order), Settled)])
  }

  ghost function SendToReconcile(s: State, p: Payload): State
    requires p.order in s.orders
  {
    s.(orders := s.orders[p.order := Unsettled(p, s.orders[p.order])],
       events := s.events[p.eventKey := Event(Some(p.order), SentToReconcile)])
  }

  ghost function Webhook(s: State, p: Payload): (State, Reply) {
    if p.eventKey in s.events then (s, Duplicate)
    else if p.order !in s.orders then (s.(events := s.events[p.eventKey := Event(Some(p.order), UnknownOrder)]), NoSuchOrder)
    else
      var asks := AsksToSell(s.orders, s.rows, p.order);
      var k := Served(Sell, s.inv, asks);
      if k < |asks| then (SendToReconcile(s, p), Reconcile(asks[k].sku, asks[k].qty))
      else (Settle(s, p, asks), Received)
  }

  // ---------- Service ----------

  /** Sell line after line under a savepoint that the caller rolls back when `k` stops short. */
  method SellLines(db: Database, asks: seq<Ask>) returns (k: nat)
    modifies db`inventory
    ensures k == Served(Sell, old(db.inventory), asks)
    ensures db.inventory == MovedAll(Sell, old(db.inventory), asks[..k])
  {
    ghost var inventory := db.inventory;
    k := 0;
    while k < |asks|
      invariant k <= |asks|
      invariant forall i | 0 <= i < k :: Hit(Sell, inventory, asks, i)
      invariant db.inventory == MovedAll(Sell, inventory, asks[..k])
    {
      var rowcount := UpdateNext(db, Sell, inventory, asks, k);
      if rowcount == 0 {
        ServedIs(Sell, inventory, asks, k);
        return;
      }
      k := k + 1;
    }
    ServedIs(Sell, inventory, asks, |asks|);
  }

  method ConfirmHolds(db: Database, o: OrderId)
    modifies db`reservations
    ensures db.reservations == Mark(old(db.reservations), o, HoldState.Confirmed)
  {
    var i := 0;
    while i < |db.reservations|
      invariant i <= |db.reservations| == |old(db.reservations)|
      invariant forall j | 0 <= j < i :: db.reservations[j] == Mark(old(db.reservations), o, HoldState.Confirmed)[j]
      invariant forall j | i <= j < |db.reservations| :: db.reservations[j] == old(db.reservations)[j]
    {
      if Selects(db.reservations[i], o) {
        db.reservations := db.reservations[i := db.reservations[i].(state := HoldState.Confirmed)];
      }
      i := i + 1;
    }
  }

  lemma SoldAsksPositive(s: State, o: OrderId)
    requires Positive(s) && o in s.orders
    ensures PositiveAsks(AsksToSell(s.orders, s.rows, o))
  {
    if s.orders[o].lines != [] {
      AsksOfPositive(s.orders[o].lines);
    } else {
      ActiveAsksPositive(s.rows, o);
    }
  }

  /** The savepoint around the loop: all lines are sold or none. */
  method SellOrRollBack(db: Database, asks: seq<Ask>) returns (k: nat)
    modifies db`inventory
    ensures k == Served(Sell, old(db.inventory), asks)
    ensures db.inventory == if k == |asks| then MovedAll(Sell, old(db.inventory), asks) else old(db.inventory)
  {
    var savepoint := db.inventory;
    k := SellLines(db, asks);
    if k < |asks| {
      db.inventory := savepoint;
    } else {
      assert asks[..k] == asks;
    }
  }

  method ProcessGatewayWebhook(db: Database, p: Payload) returns (reply: Reply)
    modifies db
    ensures (db.Now(), reply) == Webhook(old(db.Now()), p)
  {
    if p.eventKey in db.events {
      return Duplicate;
    }
    db.events := db.events[p.eventKey := Event(Some(p.order), InProgress)];
    if p.order !in db.orders {
      db.events := db.events[p.eventKey := Event(Some(p.order), UnknownOrder)];
      assert db.events == old(db.events)[p.eventKey := Event(Some(p.order), UnknownOrder)];
      return NoSuchOrder;
    }
    var asks := AsksToSell(db.orders, db.reservations, p.order);
    var k := SellOrRollBack(db, asks);
    if k < |asks| {
      MarkForReconciliation(db, p);
      assert db.events == old(db.events)[p.eventKey := Event(Some(p.order), SentToReconcile)];
      return Reconcile(asks[k].sku, asks[k].qty);
    }
    MarkPaid(db, p);
    assert db.events == old(db.events)[p.eventKey := Event(Some(p.order), Settled)];
    return Received;
  }

  method MarkForReconciliation(db: Database, p: Payload)
    requires p.order in db.orders
    modifies db`orders, db`events
    ensures db.orders == old(db.orders)[p.order := Unsettled(p, old(db.orders)[p.order])]
    ensures db.events == old(db.events)[p.eventKey := Event(Some(p.order), SentToReconcile)]
  {
    var order := db.orders[p.order];
    order := order.(status := PaymentReconcile, ttl := None);
    order := order.(approval := ReconcileRequired);
    if Given(p.paymentRef) {
      order := order.(paymentRef := p.paymentRef);
    } else if Given(p.transactionId) {
      order := order.(paymentRef := p.transactionId);
    }
    db.orders := db.orders[p.order := order];
    db.events := db.events[p.eventKey := Event(Some(p.order), SentToReconcile)];
  }

  method MarkPaid(db: Database, p: Payload)
    requires p.order in db.orders
    modifies db`reservations, db`claims, db`orders, db`events
    ensures db.reservations == Mark(old(db.reservations), p.order, HoldState.Confirmed)
    ensures db.claims == Confirm(old(db.claims), p.order)
    ensures db.orders == old(db.orders)[p.order := Paid(p, old(db.orders)[p.order])]
    ensures db.events == old(db.events)[p.eventKey := Event(Some(p.order), Settled)]
  {
    ConfirmHolds(db, p.order);
    ConfirmPendingClaims(db, p.order);
    var order := db.orders[p.order];
    order := order.(status := PaymentReceived, ttl := None);
    order := order.(approval := AutoConfirmed);
    if Given(p.paymentRef) {
      order := order.(paymentRef := p.paymentRef);
    } else if Given(p.transactionId) {
      order := order.(paymentRef := p.transactionId);
    }
    db.orders := db.orders[p.order := order];
    db.events := db.events[p.eventKey := Event(Some(p.order), Settled)];
  }

  // ---------- What one webhook does ----------

  /** Stock and reserved both cover the total demand for each SKU. */
  ghost predicate AllCovered(inv: Inventory, asks: seq<Ask>) {
    forall a | a in asks ::
      a.sku in inv && Demand(asks, a.sku) <= inv[a.sku].reserved && Demand(asks, a.sku) <= inv[a.sku].stock
  }

  /** The webhook settles exactly when stock and reserved both cover the order's total demand per SKU. */
  lemma SettlesIffCovered(s: State, p: Payload)
    requires Positive(s) && p.order in s.orders && p.eventKey !in s.events
    ensures var asks := AsksToSell(s.orders, s.rows, p.order);
            var r := Webhook(s, p);
            && (r.1 == Received <==> AllCovered(s.inv, asks))
            && (r.1 == Received ==> r.0 == Settle(s, p, asks))
            && (r.1 != Received ==> r.0.inv == s.inv && r.0.rows == s.rows && r.0.orders[p.order].status == PaymentReconcile)
  {
    SoldAsksPositive(s, p.order);
    ServedWholeIffFits(Sell, s.inv, AsksToSell(s.orders, s.rows, p.order));
  }
}

/** Reserving stock for orders, and the sweep that releases what was not paid in time. */
module ReservationService {
  import opened Tables
  import opened StockLedger
  import opened Holds

  function AsksOf(lines: seq<OrderLine>): seq<Ask> {
    seq(|lines|, i requires 0 <= i < |lines| => Ask(lines[i].sku, lines[i].qty))
  }

  lemma AsksOfPositive(lines: seq<OrderLine>)
    requires PositiveLines(lines)
    ensures PositiveAsks(AsksOf(lines))
  {
  }

  // ---------- Specification ----------

  /** The whole batch is held at once: totals move, one RESERVED row per ask appears. */
  ghost function HoldAsks(s: State, asks: seq<Ask>, o: OrderId, expiresAt: int): State {
    s.(inv := MovedAll(Hold, s.inv, asks), rows := s.rows + NewRows(asks, o, expiresAt))
  }

  ghost function ReserveStock(s: State, a: Ask, o: OrderId, now: int, ttl: int): (State, Reply) {
    if a.qty <= 0 then (s, BadQuantity)
    else if !Matches(Hold, s.inv, a) then (s, OutOfStock(a.sku, a.qty))
    else (HoldAsks(s, [a], o, now + ttl), Done)
  }

  predicate Reservable(status: Status) {
    status == OrderConfirmed || status == AddressConfirmed || status == OrderDraft
  }

  ghost function ReserveOrder(s: State, o: OrderId, now: int, ttl: int): (State, Reply) {
    if o !in s.orders then (s, NoSuchOrder)
    else if !Reservable(s.orders[o].status) then (s, WrongStatus(s.orders[o].status))
    else if s.orders[o].lines == [] then (s, NoLines)
    else
      var asks := AsksOf(s.orders[o].lines);
      var k := Served(Hold, s.inv, asks);
      if k < |asks| then (s, OutOfStock(asks[k].sku, asks[k].qty))
      else
        var held := s.orders[o].(status := AwaitingPayment, ttl := Some(now + ttl));
        (HoldAsks(s, asks, o, now + ttl).(orders := s.orders[o := held]), Done)
  }

  predicate Overdue(orders: map<OrderId, Order>, o: OrderId, now: int) {
    && o in orders && orders[o].status == AwaitingPayment
    && orders[o].ttl.Some? && orders[o].ttl.value < now
  }

  ghost function ReleaseOrder(s: State, o: OrderId): State {
    s.(inv := FreeAll(s.inv, ActiveAsks(s.rows, o)), rows := Mark(s.rows, o, Released))
  }

  ghost function ExpireOne(s: State, o: OrderId, now: int): State {
    if Overdue(s.orders, o, now)
    then ReleaseOrder(s, o).(orders := s.orders[o := s.orders[o].(status := ReservationExpired, ttl := None)])
    else s
  }

  /** One worker's sweep over the orders it managed to lock, in the order it met them. */
  ghost function Expire(s: State, locked: seq<OrderId>, now: int): State {
    if locked == [] then s
    else ExpireOne(Expire(s, locked[..|locked|-1], now), locked[|locked|-1], now)
  }

  // ---------- Services ----------

  method ReserveOneSku(db: Database, a: Ask, o: OrderId, now: int, ttl: int) returns (reply: Reply)
    modifies db
    ensures (db.Now(), reply) == ReserveStock(old(db.Now()), a, o, now, ttl)
  {
    if a.qty <= 0 {
      return BadQuantity;
    }
    var rowcount := Update(db, Hold, a);
    if rowcount != 1 {
      return OutOfStock(a.sku, a.qty);
    }
    db.reservations := db.reservations + [Reservation(o, a.sku, a.qty, Reserved, now + ttl)];
    assert NewRows([a], o, now + ttl) == [Reservation(o, a.sku, a.qty, Reserved, now + ttl)];
    MovedAllAppends(Hold, old(db.inventory), [], a);
    assert [] + [a] == [a] && MovedAll(Hold, old(db.inventory), []) == old(db.inventory);
    return Done;
  }

  lemma NewRowsGrow(asks: seq<Ask>, k: nat, o: OrderId, expiresAt: int)
    requires k < |asks|
    ensures NewRows(asks[..k+1], o, expiresAt) ==
            NewRows(asks[..k], o, expiresAt) + [Reservation(o, asks[k].sku, asks[k].qty, Reserved, expiresAt)]
  {
  }

  /** Hold line after line until one statement misses; `k` lines were served and `added` are their rows. */
  method HoldLines(db: Database, asks: seq<Ask>, o: OrderId, expiresAt: int) returns (k: nat, added: seq<Reservation>)
    modifies db`inventory
    ensures k == Served(Hold, old(db.inventory), asks)
    ensures db.inventory == MovedAll(Hold, old(db.inventory), asks[..k])
    ensures added == NewRows(asks[..k], o, expiresAt)
  {
    ghost var inventory := db.inventory;
    k, added := 0, [];
    while k < |asks|
      invariant k <= |asks|
      invariant forall i | 0 <= i < k :: Hit(Hold, inventory, asks, i)
      invariant db.inventory == MovedAll(Hold, inventory, asks[..k])
      invariant added == NewRows(asks[..k], o, expiresAt)
    {
      var rowcount := UpdateNext(db, Hold, inventory, asks, k);
      if rowcount != 1 {
        ServedIs(Hold, inventory, asks, k);
        return;
      }
      NewRowsGrow(asks, k, o, expiresAt);
      added := added + [Reservation(o, asks[k].sku, asks[k].qty, Reserved, expiresAt)];
      k := k + 1;
    }
    ServedIs(Hold, inventory, asks, |asks|);
  }

  /** All lines in one transaction: the first statement that misses rolls everything back. */
  method ReserveOrderStock(db: Database, o: OrderId, now: int, ttl: int) returns (reply: Reply)
    modifies db
    ensures (db.Now(), reply) == ReserveOrder(old(db.Now()), o, now, ttl)
  {
    if o !in db.orders {
      return NoSuchOrder;
    }
    var order := db.orders[o];
    if !Reservable(order.status) {
      return WrongStatus(order.status);
    }
    if order.lines == [] {
      return NoLines;
    }
    var expiresAt := now + ttl;
    var saved := db.inventory;
    var asks := AsksOf(order.lines);
    var k, added := HoldLines(db, asks, o, expiresAt);
    if k < |asks| {
      db.inventory := saved;
      return OutOfStock(asks[k].sku, asks[k].qty);
    }
    assert asks[..k] == asks;
    db.reservations := db.reservations + added;
    db.orders := db.orders[o := order.(status := AwaitingPayment, ttl := Some(expiresAt))];
    return Done;
  }

  /** Release overdue orders among those this worker has locked; `locked` is what SKIP LOCKED left it. */
  method ExpireStaleReservations(db: Database, locked: seq<OrderId>, now: int) returns (expired: seq<OrderId>)
    modifies db
    ensures db.Now() == Expire(old(db.Now()), locked, now)
    ensures forall o | o in expired :: o in locked && Overdue(old(db.orders), o, now)
    ensures forall o | o in locked && Overdue(old(db.orders), o, now) :: o in expired
  {
    expired := [];
    var i := 0;
    assert locked[..0] == [];
    while i < |locked|
      invariant 0 <= i <= |locked|
      invariant db.Now() == Expire(old(db.Now()), locked[..i], now)
      invariant forall o | o in expired :: o in locked && Overdue(old(db.orders), o, now)
      invariant forall o | o in locked[..i] && Overdue(old(db.orders), o, now) :: o in expired
      invariant forall o | o !in expired :: Overdue(db.orders, o, now) == Overdue(old(db.orders), o, now)
      invariant forall o | o in expired :: !Overdue(db.orders, o, now)
    {
      var o := locked[i];
      assert locked[..i+1] == locked[..i] + [o];
      assert locked[..i+1][..i] == locked[..i];
      if Overdue(db.orders, o, now) {
        ReleaseHolds(db, db.reservations, o);
        db.orders := db.orders[o := db.orders[o].(status := ReservationExpired, ttl := None)];
        expired := expired + [o];
      }
      i := i + 1;
    }
    assert locked[..|locked|] == locked;
  }

  // ---------- What reserving means ----------

  /** Each SKU is active and has the order's total for it free; one SKU may be on several lines. */
  ghost predicate DemandIsFree(inv: Inventory, lines: seq<OrderLine>) {
    forall l | l in lines ::
      && l.sku in inv && inv[l.sku].active
      && Demand(AsksOf(lines), l.sku) <= inv[l.sku].stock - inv[l.sku].reserved
  }

  lemma FitsIffDemandIsFree(inv: Inventory, lines: seq<OrderLine>)
    requires PositiveLines(lines)
    ensures Fits(Hold, inv, AsksOf(lines)) <==> DemandIsFree(inv, lines)
  {
    var asks := AsksOf(lines);
    AsksOfPositive(lines);
    if Fits(Hold, inv, asks) {
      forall l | l in lines
        ensures l.sku in inv && inv[l.sku].active && Demand(asks, l.sku) <= inv[l.sku].stock - inv[l.sku].reserved
      {
        var i :| 0 <= i < |lines| && lines[i] == l;
        assert asks[i] in asks;
        DemandBounds(asks, l.sku);
      }
    }
    if DemandIsFree(inv, lines) {
      forall a | a in asks
        ensures a.sku in inv && Demand(asks, a.sku) <= Headroom(Hold, inv[a.sku])
      {
        var i :| 0 <= i < |asks| && asks[i] == a;
        assert lines[i] in lines;
      }
    }
  }

  /**
   * An order with lines is reserved iff its status is CONFIRMED, ADDRESS_CONFIRMED or DRAFT and each SKU's total over
   * all its lines is free. Then it awaits payment until the TTL ends, reserved grows by the totals and no stock moves.
   */
  lemma ReservedIffDemandIsFree(s: State, o: OrderId, now: int, ttl: int)
    requires Positive(s) && o in s.orders && s.orders[o].lines != []
    ensures var asks, status := AsksOf(s.orders[o].lines), s.orders[o].status;
            var allowed := status == OrderConfirmed || status == AddressConfirmed || status == OrderDraft;
            var r := ReserveOrder(s, o, now, ttl);
            && (r.1 == Done <==> allowed && DemandIsFree(s.inv, s.orders[o].lines))
            && (r.1 == WrongStatus(status) <==> !allowed)
            && (r.1 != Done ==> r.0 == s)
            && (r.1 == Done ==>
                 && r.0 == s.(inv := r.0.inv, rows := r.0.rows, orders := r.0.orders)
                 && r.0.rows == s.rows + NewRows(asks, o, now + ttl)
                 && r.0.orders == s.orders[o := s.orders[o].(status := AwaitingPayment, ttl := Some(now + ttl))]
                 && r.0.inv.Keys == s.inv.Keys
                 && forall sku | sku in s.inv ::
                      r.0.inv[sku] == s.inv[sku].(reserved := s.inv[sku].reserved + Demand(asks, sku),
                                                  version := s.inv[sku].version + Hits(asks, sku)))
  {
    var asks := AsksOf(s.orders[o].lines);
    AsksOfPositive(s.orders[o].lines);
    ServedWholeIffFits(Hold, s.inv, asks);
    FitsIffDemandIsFree(s.inv, s.orders[o].lines);
  }

  /** What is refused before any line is looked at: an unknown order, a wrong status, an order without lines. */
  lemma RefusedAtOnce(s: State, o: OrderId, now: int, ttl: int)
    ensures o !in s.orders ==> ReserveOrder(s, o, now, ttl) == (s, NoSuchOrder)
    ensures o in s.orders ==>
              var status := s.orders[o].status;
              if status != OrderConfirmed && status != AddressConfirmed && status != OrderDraft then
                ReserveOrder(s, o, now, ttl) == (s, WrongStatus(status))
              else s.orders[o].lines == [] ==> ReserveOrder(s, o, now, ttl) == (s, NoLines)
  {
  }

  /** A reserved order's new rows: one RESERVED row per line, with the line's SKU and quantity and the order's deadline. */
  lemma OneRowPerLine(s: State, o: OrderId, now: int, ttl: int, k: nat)
    requires ReserveOrder(s, o, now, ttl).1 == Done && k < |s.orders[o].lines|
    ensures var rows, l := ReserveOrder(s, o, now, ttl).0.rows, s.orders[o].lines[k];
            && |rows| == |s.rows| + |s.orders[o].lines| && rows[..|s.rows|] == s.rows
            && rows[|s.rows| + k] == Reservation(o, l.sku, l.qty, Reserved, now + ttl)
  {
    assert |s.rows| + k - |s.rows| == k;
  }

  /** Want of stock is reported for the first line with which the order's totals stop being free. */
  lemma RefusedAtItsLine(s: State, o: OrderId, now: int, ttl: int) returns (k: nat)
    requires Positive(s) && ReserveOrder(s, o, now, ttl).1.OutOfStock?
    ensures o in s.orders && k < |s.orders[o].lines|
    ensures var lines := s.orders[o].lines;
            && ReserveOrder(s, o, now, ttl).1 == OutOfStock(lines[k].sku, lines[k].qty)
            && DemandIsFree(s.inv, lines[..k]) && !DemandIsFree(s.inv, lines[..k+1])
  {
    var lines := s.orders[o].lines;
    k := Served(Hold, s.inv, AsksOf(lines));
    AsksOfPositive(lines);
    ServedStopsWhereNothingFits(Hold, s.inv, AsksOf(lines), k);
    assert AsksOf(lines)[..k] == AsksOf(lines[..k]) && AsksOf(lines)[..k+1] == AsksOf(lines[..k+1]);
    FitsIffDemandIsFree(s.inv, lines[..k]);
    FitsIffDemandIsFree(s.inv, lines[..k+1]);
  }

  /** One SKU is held iff the quantity is positive and the active item has as much free; one row says so. */
  lemma OneSkuIsHeldIff(s: State, a: Ask, o: OrderId, now: int, ttl: int)
    ensures var r := ReserveStock(s, a, o, now, ttl);
            && (r.1 == BadQuantity <==> a.qty < 1)
            && (r.1 == Done <==>
                 a.qty >= 1 && a.sku in s.inv && s.inv[a.sku].active && a.qty <= s.inv[a.sku].stock - s.inv[a.sku].reserved)
            && (r.1 != Done && r.1 != BadQuantity ==> r.1 == OutOfStock(a.sku, a.qty))
            && (r.1 != Done ==> r.0 == s)
            && (r.1 == Done ==>
                 r.0 == s.(inv := s.inv[a.sku := s.inv[a.sku].(reserved := s.inv[a.sku].reserved + a.qty,
                                                               version := s.inv[a.sku].version + 1)],
                           rows := s.rows + [Reservation(o, a.sku, a.qty, Reserved, now + ttl)]))
  {
    if ReserveStock(s, a, o, now, ttl).1 == Done {
      assert [] + [a] == [a];
      assert MovedAll(Hold, s.inv, []) == s.inv;
      MovedAllAppends(Hold, s.inv, [], a);
      assert NewRows([a], o, now + ttl) == [Reservation(o, a.sku, a.qty, Reserved, now + ttl)];
    }
  }

  lemma FittingIsReserved(s: State, o: OrderId, now: int, ttl: int)
    requires o in s.orders && Reservable(s.orders[o].status) && s.orders[o].lines != []
    requires PositiveAsks(AsksOf(s.orders[o].lines)) && Fits(Hold, s.inv, AsksOf(s.orders[o].lines))
    ensures ReserveOrder(s, o, now, ttl) ==
            (HoldAsks(s, AsksOf(s.orders[o].lines), o, now + ttl).(orders :=
               s.orders[o := s.orders[o].(status := AwaitingPayment, ttl := Some(now + ttl))]), Done)
  {
    FittingIsServed(Hold, s.inv, AsksOf(s.orders[o].lines));
  }

  lemma DoneMeansHeld(s: State, o: OrderId, now: int, ttl: int)
    requires Positive(s) && ReserveOrder(s, o, now, ttl).1 == Done
    ensures o in s.orders
    ensures var asks, t := AsksOf(s.orders[o].lines), ReserveOrder(s, o, now, ttl).0;
            && PositiveAsks(asks) && Fits(Hold, s.inv, asks)
            && t == HoldAsks(s, asks, o, now + ttl).(orders := t.orders)
            && t.orders == s.orders[o := s.orders[o].(status := AwaitingPayment, ttl := Some(now + ttl))]
  {
    AsksOfPositive(s.orders[o].lines);
    ServedWholeIffFits(Hold, s.inv, AsksOf(s.orders[o].lines));
  }

  /** The order of an order's lines does not matter to the outcome. */
  lemma LineOrderIsImmaterial(s: State, t: State, o: OrderId, now: int, ttl: int)
    requires Positive(s) && o in s.orders && o in t.orders
    requires t == s.(orders := s.orders[o := s.orders[o].(lines := t.orders[o].lines)])
    requires multiset(AsksOf(s.orders[o].lines)) == multiset(AsksOf(t.orders[o].lines))
    requires PositiveLines(t.orders[o].lines)
    ensures ReserveOrder(s, o, now, ttl).1 == Done <==> ReserveOrder(t, o, now, ttl).1 == Done
    ensures ReserveOrder(s, o, now, ttl).0.inv == ReserveOrder(t, o, now, ttl).0.inv
  {
    var xs, ys := AsksOf(s.orders[o].lines), AsksOf(t.orders[o].lines);
    assert |multiset(xs)| == |xs| && |multiset(ys)| == |ys|;
    AsksOfPositive(s.orders[o].lines);
    AsksOfPositive(t.orders[o].lines);
    BatchPermutes(Hold, s.inv, xs, ys);
    ServedWholeIffFits(Hold, s.inv, xs);
    ServedWholeIffFits(Hold, s.inv, ys);
  }
}

/** However the overdue orders are split among sweeping workers, the outcome is the same. */
module ExpirySweep {
  import opened Tables
  import opened StockLedger
  import opened Holds
  import opened ReservationService
  import opened Shop
  import opened StockSafety

  // ---------- All orders of a set expired at once ----------

  predicate SelectsAny(r: Reservation, os: set<OrderId>) {
    r.order in os && r.state == Reserved
  }

  function DueAsks(rows: seq<Reservation>, os: set<OrderId>): seq<Ask> {
    if rows == [] then []
    else
      var rest, r := DueAsks(rows[..|rows|-1], os), rows[|rows|-1];
      if SelectsAny(r, os) then rest + [Ask(r.sku, r.qty)] else rest
  }

  function ReleaseAny(rows: seq<Reservation>, os: set<OrderId>): seq<Reservation> {
    seq(|rows|, i requires 0 <= i < |rows| => if SelectsAny(rows[i], os) then rows[i].(state := Released) else rows[i])
  }

  function ExpireAny(orders: map<OrderId, Order>, os: set<OrderId>): map<OrderId, Order> {
    map o | o in orders :: if o in os then orders[o].(status := ReservationExpired, ttl := None) else orders[o]
  }

  ghost function Expired(s: State, os: set<OrderId>): State {
    s.(inv := MovedAll(Free, s.inv, DueAsks(s.rows, os)),
       rows := ReleaseAny(s.rows, os),
       orders := ExpireAny(s.orders, os))
  }

  function OverdueIn(orders: map<OrderId, Order>, locked: seq<OrderId>, now: int): set<OrderId> {
    set o | o in locked && Overdue(orders, o, now)
  }

  lemma {:induction false} DueGrows(rows: seq<Reservation>, os: set<OrderId>, o: OrderId, sku: Sku)
    requires o !in os
    ensures Demand(DueAsks(rows, os + {o}), sku) == Demand(DueAsks(rows, os), sku) + Demand(ActiveAsks(rows, o), sku)
    ensures Hits(DueAsks(rows, os + {o}), sku) == Hits(DueAsks(rows, os), sku) + Hits(ActiveAsks(rows, o), sku)
  {
    if rows != [] {
      var p, r := rows[..|rows|-1], rows[|rows|-1];
      DueGrows(p, os, o, sku);
      var a := Ask(r.sku, r.qty);
      DemandAppends(DueAsks(p, os + {o}), a, sku);
      DemandAppends(DueAsks(p, os), a, sku);
      DemandAppends(ActiveAsks(p, o), a, sku);
    }
  }

  lemma {:induction false} ActiveAfterOthers(rows: seq<Reservation>, os: set<OrderId>, o: OrderId)
    requires o !in os
    ensures ActiveAsks(ReleaseAny(rows, os), o) == ActiveAsks(rows, o)
  {
    if rows != [] {
      assert ReleaseAny(rows, os)[..|rows|-1] == ReleaseAny(rows[..|rows|-1], os);
      ActiveAfterOthers(rows[..|rows|-1], os, o);
    }
  }

  lemma {:induction false} NothingDue(rows: seq<Reservation>)
    ensures DueAsks(rows, {}) == []
  {
    if rows != [] {
      NothingDue(rows[..|rows|-1]);
    }
  }

  lemma ExpiredNone(s: State)
    ensures Expired(s, {}) == s
  {
    NothingDue(s.rows);
    assert MovedAll(Free, s.inv, []) == s.inv;
    assert ReleaseAny(s.rows, {}) == s.rows;
    assert ExpireAny(s.orders, {}) == s.orders;
  }

  lemma FreeingTwice(inv: Inventory, rows: seq<Reservation>, os: set<OrderId>, o: OrderId)
    requires o !in os
    ensures MovedAll(Free, MovedAll(Free, inv, DueAsks(rows, os)), ActiveAsks(rows, o)) == MovedAll(Free, inv, DueAsks(rows, os + {o}))
  {
    forall sku | sku in inv
      ensures MovedAll(Free, MovedAll(Free, inv, DueAsks(rows, os)), ActiveAsks(rows, o))[sku]
              == MovedAll(Free, inv, DueAsks(rows, os + {o}))[sku]
    {
      DueGrows(rows, os, o, sku);
    }
  }

  /** Expiring one more order after a set is expiring the larger set. */
  lemma ExpiredGrows(s: State, os: set<OrderId>, o: OrderId, now: int)
    requires o !in os && Overdue(s.orders, o, now)
    requires StockOk(Expired(s, os)) && Ledger(Expired(s, os))
    ensures ExpireOne(Expired(s, os), o, now) == Expired(s, os + {o})
  {
    NoReleaseMisses(Expired(s, os), o);
    ActiveAfterOthers(s.rows, os, o);
    FreeingTwice(s.inv, s.rows, os, o);
  }

  /** Under the ledger a worker's sweep expires the set of overdue orders it locked, in whatever order it met them. */
  lemma {:induction false} SweepExpiresItsSet(s: State, locked: seq<OrderId>, now: int)
    requires StockOk(s) && Ledger(s)
    ensures Expire(s, locked, now) == Expired(s, OverdueIn(s.orders, locked, now))
  {
    if locked == [] {
      assert OverdueIn(s.orders, locked, now) == {};
      ExpiredNone(s);
    } else {
      var p, o := locked[..|locked|-1], locked[|locked|-1];
      assert locked == p + [o];
      var os := OverdueIn(s.orders, p, now);
      SweepExpiresItsSet(s, p, now);
      ExpireKeeps(s, p, now);
      if o !in os && Overdue(s.orders, o, now) {
        assert OverdueIn(s.orders, locked, now) == os + {o};
        ExpiredGrows(s, os, o, now);
      } else {
        assert OverdueIn(s.orders, locked, now) == os;
      }
    }
  }

  // ---------- Which orders a sweep expires ----------

  lemma {:induction false} DueIsWhatLeavesTheHolds(rows: seq<Reservation>, os: set<OrderId>, sku: Sku)
    ensures Demand(DueAsks(rows, os), sku) == AllHeld(rows, sku) - AllHeld(ReleaseAny(rows, os), sku)
  {
    if rows != [] {
      var p, r := rows[..|rows|-1], rows[|rows|-1];
      DueIsWhatLeavesTheHolds(p, os, sku);
      assert ReleaseAny(rows, os)[..|rows|-1] == ReleaseAny(p, os);
      DemandAppends(DueAsks(p, os), Ask(r.sku, r.qty), sku);
    }
  }

  /** What expiring a set of orders at once leaves. */
  lemma ExpiredLeaves(s: State, os: set<OrderId>)
    ensures var t := Expired(s, os);
            && t == s.(inv := t.inv, rows := t.rows, orders := t.orders)
            && t.orders.Keys == s.orders.Keys
            && (forall o | o in s.orders ::
                 t.orders[o] == if o in os then s.orders[o].(status := ReservationExpired, ttl := None) else s.orders[o])
            && |t.rows| == |s.rows|
            && (forall i | 0 <= i < |s.rows| ::
                 t.rows[i] == if s.rows[i].order in os && s.rows[i].state == Reserved
                              then s.rows[i].(state := Released) else s.rows[i])
            && t.inv.Keys == s.inv.Keys
            && (forall sku | sku in s.inv ::
                 && t.inv[sku] == s.inv[sku].(reserved := t.inv[sku].reserved, version := t.inv[sku].version)
                 && t.inv[sku].reserved == s.inv[sku].reserved - (AllHeld(s.rows, sku) - AllHeld(t.rows, sku)))
  {
    forall sku ensures Demand(DueAsks(s.rows, os), sku) == AllHeld(s.rows, sku) - AllHeld(ReleaseAny(s.rows, os), sku) {
      DueIsWhatLeavesTheHolds(s.rows, os, sku);
    }
  }

  /**
   * One worker's sweep expires exactly the orders it locked that await payment and whose deadline has passed. Their
   * RESERVED rows are RELEASED, reserved drops by just what left the holds, and everything else stays.
   */
  lemma ExpiresTheLateOnes(s: State, locked: seq<OrderId>, now: int, late: set<OrderId>)
    requires StockOk(s) && Ledger(s)
    requires forall o :: o in late <==>
               && o in locked && o in s.orders && s.orders[o].status == AwaitingPayment
               && s.orders[o].ttl.Some? && s.orders[o].ttl.value < now
    ensures var t := Expire(s, locked, now);
            && t == s.(inv := t.inv, rows := t.rows, orders := t.orders)
            && t.orders.Keys == s.orders.Keys
            && (forall o | o in s.orders ::
                 t.orders[o] == if o in late then s.orders[o].(status := ReservationExpired, ttl := None) else s.orders[o])
            && |t.rows| == |s.rows|
            && (forall i | 0 <= i < |s.rows| ::
                 t.rows[i] == if s.rows[i].order in late && s.rows[i].state == Reserved
                              then s.rows[i].(state := Released) else s.rows[i])
            && t.inv.Keys == s.inv.Keys
            && (forall sku | sku in s.inv ::
                 && t.inv[sku] == s.inv[sku].(reserved := t.inv[sku].reserved, version := t.inv[sku].version)
                 && t.inv[sku].reserved == s.inv[sku].reserved - (AllHeld(s.rows, sku) - AllHeld(t.rows, sku)))
  {
    assert late == OverdueIn(s.orders, locked, now);
    SweepExpiresItsSet(s, locked, now);
    ExpiredLeaves(s, late);
  }

  /** A reservation that succeeds holds for its TTL: a sweep that finds the order expires it only after that. */
  lemma HoldLastsItsTtl(s: State, o: OrderId, now: int, ttl: int, locked: seq<OrderId>, at: int)
    requires StockOk(s) && Ledger(s) && ReserveOrder(s, o, now, ttl).1 == Done && o in locked
    ensures var held := ReserveOrder(s, o, now, ttl).0;
            && o in held.orders && o in Expire(held, locked, at).orders
            && Expire(held, locked, at).orders[o].status == if now + ttl < at then ReservationExpired else AwaitingPayment
  {
    ReserveLinesKeeps(s, o, now, ttl);
    DoneMeansHeld(s, o, now, ttl);
    var held := ReserveOrder(s, o, now, ttl).0;
    ExpiresTheLateOnes(held, locked, at, OverdueIn(held.orders, locked, at));
  }

  // ---------- Workers ----------

  /** Workers sweep one after another, each with the orders it locked. */
  ghost function Workers(s: State, shares: seq<seq<OrderId>>, now: int): State {
    if shares == [] then s else Expire(Workers(s, shares[..|shares|-1], now), shares[|shares|-1], now)
  }

  function Joined(shares: seq<seq<OrderId>>): seq<OrderId> {
    if shares == [] then [] else Joined(shares[..|shares|-1]) + shares[|shares|-1]
  }

  lemma {:induction false} ExpireSplits(s: State, xs: seq<OrderId>, ys: seq<OrderId>, now: int)
    ensures Expire(s, xs + ys, now) == Expire(Expire(s, xs, now), ys, now)
  {
    if ys == [] {
      assert xs + ys == xs;
    } else {
      assert (xs + ys)[..|xs + ys|-1] == xs + ys[..|ys|-1];
      ExpireSplits(s, xs, ys[..|ys|-1], now);
    }
  }

  lemma {:induction false} WorkersSweepJointly(s: State, shares: seq<seq<OrderId>>, now: int)
    ensures Workers(s, shares, now) == Expire(s, Joined(shares), now)
  {
    if shares != [] {
      var p := shares[..|shares|-1];
      WorkersSweepJointly(s, p, now);
      ExpireSplits(s, Joined(p), shares[|shares|-1], now);
    }
  }

  /** Two ways to share out the same overdue orders, over any numbers of workers, end in the same state. */
  lemma SharingIsImmaterial(s: State, shares: seq<seq<OrderId>>, others: seq<seq<OrderId>>, now: int)
    requires StockOk(s) && Ledger(s)
    requires OverdueIn(s.orders, Joined(shares), now) == OverdueIn(s.orders, Joined(others), now)
    ensures Workers(s, shares, now) == Workers(s, others, now)
    ensures Workers(s, shares, now) == Expired(s, OverdueIn(s.orders, Joined(shares), now))
  {
    WorkersSweepJointly(s, shares, now);
    WorkersSweepJointly(s, others, now);
    SweepExpiresItsSet(s, Joined(shares), now);
    SweepExpiresItsSet(s, Joined(others), now);
  }

  /** Once every overdue order has been in some worker's share none is overdue, and a second sweep is idle. */
  lemma SweepsComplete(s: State, shares: seq<seq<OrderId>>, again: seq<OrderId>, now: int)
    requires StockOk(s) && Ledger(s)
    requires forall o | Overdue(s.orders, o, now) :: o in Joined(shares)
    ensures var t := Workers(s, shares, now);
            && (forall o :: !Overdue(t.orders, o, now))
            && Expire(t, again, now) == t
  {
    var t := Workers(s, shares, now);
    SharingIsImmaterial(s, shares, shares, now);
    assert OverdueIn(t.orders, again, now) == {};
    WorkersSweepJointly(s, shares, now);
    ExpireKeeps(s, Joined(shares), now);
    SweepExpiresItsSet(t, again, now);
    ExpiredNone(t);
  }
}

/** Reservation rows: the quantities they hold, how they change state, and how they are released. */
module Holds {
  import opened Tables
  import opened StockLedger

  function Qty(r: Reservation, sku: Sku, who: Option<OrderId>, states: set<HoldState>): int {
    if r.sku == sku && r.state in states && (who.None? || who.value == r.order) then r.qty else 0
  }

  /** Total quantity of a SKU on rows in the given states, of one order or of all. */
  function Total(rows: seq<Reservation>, sku: Sku, who: Option<OrderId>, states: set<HoldState>): int {
    if rows == [] then 0
    else Total(rows[..|rows|-1], sku, who, states) + Qty(rows[|rows|-1], sku, who, states)
  }

  /** Quantity of a SKU that one order holds. */
  function Held(rows: seq<Reservation>, o: OrderId, sku: Sku): int {
    Total(rows, sku, Some(o), {Reserved})
  }

  /** Quantity of a SKU that all orders hold. */
  function AllHeld(rows: seq<Reservation>, sku: Sku): int {
    Total(rows, sku, None, {Reserved})
  }

  /** Quantity of a SKU held or confirmed. */
  function Promised(rows: seq<Reservation>, sku: Sku): int {
    Total(rows, sku, None, {Reserved, Confirmed})
  }

  predicate Selects(r: Reservation, o: OrderId) {
    r.order == o && r.state == Reserved
  }

  /** The rows that `WHERE order_id = o AND state = 'RESERVED'` selects, as (sku, qty) pairs. */
  function ActiveAsks(rows: seq<Reservation>, o: OrderId): seq<Ask> {
    if rows == [] then []
    else
      var rest, r := ActiveAsks(rows[..|rows|-1], o), rows[|rows|-1];
      if Selects(r, o) then rest + [Ask(r.sku, r.qty)] else rest
  }

  /** The table after every active row of the order took the new state. */
  function Mark(rows: seq<Reservation>, o: OrderId, to: HoldState): seq<Reservation> {
    seq(|rows|, i requires 0 <= i < |rows| => if Selects(rows[i], o) then rows[i].(state := to) else rows[i])
  }

  /** The RESERVED rows one order's lines turn into. */
  function NewRows(asks: seq<Ask>, o: OrderId, expiresAt: int): seq<Reservation> {
    seq(|asks|, i requires 0 <= i < |asks| => Reservation(o, asks[i].sku, asks[i].qty, Reserved, expiresAt))
  }

  lemma {:induction false} TotalSplits(xs: seq<Reservation>, ys: seq<Reservation>, sku: Sku, who: Option<OrderId>, states: set<HoldState>)
    ensures Total(xs + ys, sku, who, states) == Total(xs, sku, who, states) + Total(ys, sku, who, states)
  {
    if ys == [] {
      assert xs + ys == xs;
    } else {
      assert (xs + ys)[..|xs + ys|-1] == xs + ys[..|ys|-1];
      TotalSplits(xs, ys[..|ys|-1], sku, who, states);
    }
  }

  lemma {:induction false} HeldBounds(rows: seq<Reservation>, o: OrderId, sku: Sku)
    requires forall r | r in rows :: r.qty >= 1
    ensures 0 <= Held(rows, o, sku) <= AllHeld(rows, sku) <= Promised(rows, sku)
  {
    if rows != [] {
      HeldBounds(rows[..|rows|-1], o, sku);
    }
  }

  lemma ActiveAsksAppend(rows: seq<Reservation>, r: Reservation, o: OrderId)
    ensures ActiveAsks(rows + [r], o) == if Selects(r, o) then ActiveAsks(rows, o) + [Ask(r.sku, r.qty)] else ActiveAsks(rows, o)
  {
    assert (rows + [r])[..|rows|] == rows;
  }

  lemma {:induction false} ActiveAsksComeFromRows(rows: seq<Reservation>, o: OrderId, a: Ask)
    requires a in ActiveAsks(rows, o)
    ensures exists r :: r in rows && Selects(r, o) && a == Ask(r.sku, r.qty)
  {
    var p, r := rows[..|rows|-1], rows[|rows|-1];
    if a in ActiveAsks(p, o) {
      ActiveAsksComeFromRows(p, o, a);
      var q :| q in p && Selects(q, o) && a == Ask(q.sku, q.qty);
      assert q in rows;
    } else {
      assert r in rows;
    }
  }

  lemma ActiveAsksPositive(rows: seq<Reservation>, o: OrderId)
    requires forall r | r in rows :: r.qty >= 1
    ensures PositiveAsks(ActiveAsks(rows, o))
  {
    forall a | a in ActiveAsks(rows, o) ensures a.qty >= 1 {
      ActiveAsksComeFromRows(rows, o, a);
    }
  }

  lemma {:induction false} ActiveAsksAddUp(rows: seq<Reservation>, o: OrderId, sku: Sku)
    ensures Demand(ActiveAsks(rows, o), sku) == Held(rows, o, sku)
  {
    if rows != [] {
      var p, r := rows[..|rows|-1], rows[|rows|-1];
      ActiveAsksAddUp(p, o, sku);
      if Selects(r, o) {
        DemandAppends(ActiveAsks(p, o), Ask(r.sku, r.qty), sku);
      }
    }
  }

  /** New rows hold exactly the order's demand, for that order. */
  lemma {:induction false} NewRowsHold(asks: seq<Ask>, o: OrderId, expiresAt: int, sku: Sku, who: Option<OrderId>, states: set<HoldState>)
    requires Reserved in states
    ensures Total(NewRows(asks, o, expiresAt), sku, who, states) ==
            if who.None? || who.value == o then Demand(asks, sku) else 0
  {
    if asks != [] {
      var n := |asks| - 1;
      assert NewRows(asks, o, expiresAt)[..n] == NewRows(asks[..n], o, expiresAt);
      NewRowsHold(asks[..n], o, expiresAt, sku, who, states);
    }
  }

  lemma MarkSplits(rows: seq<Reservation>, o: OrderId, to: HoldState)
    requires rows != []
    ensures Mark(rows, o, to)[..|rows|-1] == Mark(rows[..|rows|-1], o, to)
  {
  }

  /** What marking an order's active rows does to every total. */
  lemma {:induction false} MarkMoves(rows: seq<Reservation>, o: OrderId, to: HoldState, sku: Sku, who: Option<OrderId>,
                                     states: set<HoldState>)
    requires Reserved in states
    ensures Total(Mark(rows, o, to), sku, who, states) ==
            Total(rows, sku, who, states)
            - (if to !in states && (who.None? || who.value == o) then Held(rows, o, sku) else 0)
  {
    if rows != [] {
      MarkSplits(rows, o, to);
      MarkMoves(rows[..|rows|-1], o, to, sku, who, states);
    }
  }

  /** Marking one order's rows hides none of another's, and all of its own. */
  lemma {:induction false} MarkActive(rows: seq<Reservation>, o: OrderId, to: HoldState, other: OrderId)
    requires to != Reserved
    ensures ActiveAsks(Mark(rows, o, to), other) == if other == o then [] else ActiveAsks(rows, other)
  {
    if rows != [] {
      MarkSplits(rows, o, to);
      MarkActive(rows[..|rows|-1], o, to, other);
    }
  }

  lemma MarkKeepsPositive(rows: seq<Reservation>, o: OrderId, to: HoldState)
    requires forall r | r in rows :: r.qty >= 1
    ensures forall r | r in Mark(rows, o, to) :: r.qty >= 1
  {
    assert forall i | 0 <= i < |rows| :: Mark(rows, o, to)[i].qty == rows[i].qty;
  }

  /** `now` is `read` after some of its rows have been released in memory. */
  ghost predicate ReleasedSince(read: seq<Reservation>, now: seq<Reservation>) {
    && |read| == |now|
    && forall i | 0 <= i < |read| :: now[i] == read[i] || now[i] == read[i].(state := Released)
  }

  /**
   * Release one order's holds. The rows are selected from the table as the query `read` it; the statements
   * run against the current inventory and the state change lands on the current rows.
   */
  method ReleaseHolds(db: Database, read: seq<Reservation>, o: OrderId)
    requires ReleasedSince(read, db.reservations)
    modifies db`inventory, db`reservations
    ensures db.inventory == FreeAll(old(db.inventory), ActiveAsks(read, o))
    ensures db.reservations == Mark(old(db.reservations), o, Released)
    ensures ReleasedSince(read, db.reservations)
  {
    ghost var inventory, rows := db.inventory, db.reservations;
    ghost var marked := Mark(rows, o, Released);
    var i := 0;
    assert read[..0] == [];
    while i < |read|
      invariant 0 <= i <= |read| == |db.reservations| == |rows|
      invariant db.inventory == FreeAll(inventory, ActiveAsks(read[..i], o))
      invariant forall j | 0 <= j < i :: db.reservations[j] == marked[j]
      invariant forall j | i <= j < |read| :: db.reservations[j] == rows[j]
    {
      var row := read[i];
      assert read[..i+1] == read[..i] + [row];
      ActiveAsksAppend(read[..i], row, o);
      if Selects(row, o) {
        FreeAllAppends(inventory, ActiveAsks(read[..i], o), Ask(row.sku, row.qty));
        var rowcount := Update(db, Free, Ask(row.sku, row.qty));
        db.reservations := db.reservations[i := db.reservations[i].(state := Released)];
      }
      i := i + 1;
    }
    assert read[..|read|] == read;
    assert db.reservations == marked;
  }
}

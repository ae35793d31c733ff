/** Writing a paid order to the fulfilment sheet, row by row, with retries. */
module Fulfilment {
  import opened Tables

  /** The columns that come from the order. */
  datatype SheetLine = SheetLine(order: OrderId, sku: Sku, qty: int, paid: int)

  datatype Outcome = Written | AlreadyFulfilled | Unknown | BadStatus(status: Status) | SheetsError | Exhausted

  /** The sheet as a remote list of rows. */
  class Sheet {
    var rows: seq<SheetLine>

    constructor ()
      ensures rows == []
    {
      rows := [];
    }

    method Append(row: SheetLine)
      modifies this
      ensures rows == old(rows) + [row]
    {
      rows := rows + [row];
    }
  }

  function RowsOf(o: OrderId, order: Order): (rows: seq<SheetLine>)
    ensures rows != []
  {
    if order.lines == [] then [SheetLine(o, "", 1, order.total)]
    else seq(|order.lines|, i requires 0 <= i < |order.lines| => RowOf(o, order.lines[i]))
  }

  function RowOf(o: OrderId, l: OrderLine): SheetLine {
    SheetLine(o, l.sku, l.qty, l.lineTotal)
  }

  // ---------- Specification ----------

  /** What attempts append; an attempt fails at the row where it stops, and succeeds if it stops beyond the last. */
  function Appended(rows: seq<SheetLine>, stops: seq<nat>): seq<SheetLine> {
    if stops == [] then []
    else if stops[0] >= |rows| then rows
    else rows[..stops[0]] + Appended(rows, stops[1..])
  }

  predicate Succeeds(rows: seq<SheetLine>, stops: seq<nat>) {
    stops != [] && (stops[0] >= |rows| || Succeeds(rows, stops[1..]))
  }

  predicate Paid(orders: map<OrderId, Order>, o: OrderId) {
    o in orders && orders[o].status == PaymentReceived
  }

  function RowsAppended(orders: map<OrderId, Order>, o: OrderId, stops: seq<nat>): seq<SheetLine> {
    if Paid(orders, o) then Appended(RowsOf(o, orders[o]), stops) else []
  }

  predicate FulfilledBy(orders: map<OrderId, Order>, o: OrderId, stops: seq<nat>) {
    Paid(orders, o) && Succeeds(RowsOf(o, orders[o]), stops)
  }

  function OrdersAfter(orders: map<OrderId, Order>, o: OrderId, stops: seq<nat>): map<OrderId, Order> {
    if FulfilledBy(orders, o, stops) then orders[o := orders[o].(status := Fulfilled)] else orders
  }

  // ---------- Services ----------

  /** One attempt; the row with index `stop` is refused by the sheet. */
  method FulfillOrder(db: Database, sheet: Sheet, o: OrderId, stop: nat) returns (outcome: Outcome)
    modifies db`orders, sheet
    ensures sheet.rows == old(sheet.rows) + RowsAppended(old(db.orders), o, [stop])
    ensures db.orders == OrdersAfter(old(db.orders), o, [stop])
    ensures outcome ==
            if o !in old(db.orders) then Unknown
            else if old(db.orders)[o].status == Fulfilled then AlreadyFulfilled
            else if !Paid(old(db.orders), o) then BadStatus(old(db.orders)[o].status)
            else if FulfilledBy(old(db.orders), o, [stop]) then Written
            else SheetsError
  {
    if o !in db.orders {
      return Unknown;
    }
    var order := db.orders[o];
    if order.status == Fulfilled {
      return AlreadyFulfilled;
    }
    if order.status != PaymentReceived {
      return BadStatus(order.status);
    }
    var rows := RowsOf(o, order);
    OneAttempt(rows, stop, []);
    var i := 0;
    while i < |rows|
      invariant i <= |rows| && i <= stop
      invariant sheet.rows == old(sheet.rows) + rows[..i]
      invariant db.orders == old(db.orders)
    {
      if i == stop {
        return SheetsError;
      }
      sheet.Append(rows[i]);
      assert rows[..i] + [rows[i]] == rows[..i+1];
      i := i + 1;
    }
    assert rows[..|rows|] == rows;
    db.orders := db.orders[o := order.(status := Fulfilled)];
    return Written;
  }

  /** As many attempts as there are stops, until one succeeds. */
  method FulfillOrderWithRetry(db: Database, sheet: Sheet, o: OrderId, stops: seq<nat>) returns (outcome: Outcome)
    modifies db`orders, sheet
    ensures sheet.rows == old(sheet.rows) + RowsAppended(old(db.orders), o, stops)
    ensures db.orders == OrdersAfter(old(db.orders), o, stops)
    ensures outcome == Written <==> FulfilledBy(old(db.orders), o, stops)
    ensures outcome == Exhausted <==>
            stops == [] || (Paid(old(db.orders), o) && !FulfilledBy(old(db.orders), o, stops))
  {
    ghost var orders := db.orders;
    var attempt := 0;
    while attempt < |stops|
      invariant attempt <= |stops|
      invariant db.orders == orders
      invariant attempt > 0 ==> Paid(orders, o)
      invariant FulfilledBy(orders, o, stops) == FulfilledBy(orders, o, stops[attempt..])
      invariant old(sheet.rows) + RowsAppended(orders, o, stops) == sheet.rows + RowsAppended(orders, o, stops[attempt..])
    {
      ghost var left, written := stops[attempt..], sheet.rows;
      FirstAttempt(orders, o, left);
      outcome := FulfillOrder(db, sheet, o, stops[attempt]);
      if outcome != SheetsError {
        return;
      }
      Regroup(written, RowsAppended(orders, o, [left[0]]), RowsAppended(orders, o, left[1..]));
      assert left[1..] == stops[attempt+1..];
      attempt := attempt + 1;
    }
    return Exhausted;
  }

  lemma Regroup(a: seq<SheetLine>, b: seq<SheetLine>, c: seq<SheetLine>)
    ensures a + (b + c) == a + b + c
  {
  }

  lemma FirstAttempt(orders: map<OrderId, Order>, o: OrderId, stops: seq<nat>)
    requires stops != []
    ensures FulfilledBy(orders, o, stops) == (FulfilledBy(orders, o, [stops[0]]) || FulfilledBy(orders, o, stops[1..]))
    ensures RowsAppended(orders, o, stops) ==
            if FulfilledBy(orders, o, [stops[0]]) then RowsAppended(orders, o, [stops[0]])
            else RowsAppended(orders, o, [stops[0]]) + RowsAppended(orders, o, stops[1..])
  {
    if Paid(orders, o) {
      OneAttempt(RowsOf(o, orders[o]), stops[0], stops[1..]);
      assert stops == [stops[0]] + stops[1..];
    }
  }

  lemma OneAttempt(rows: seq<SheetLine>, stop: nat, rest: seq<nat>)
    ensures Appended(rows, [stop]) == if stop >= |rows| then rows else rows[..stop]
    ensures Appended(rows, [stop] + rest) == if stop >= |rows| then rows else rows[..stop] + Appended(rows, rest)
    ensures Succeeds(rows, [stop] + rest) == (stop >= |rows| || Succeeds(rows, rest))
    ensures Succeeds(rows, [stop]) == (stop >= |rows|)
  {
    assert ([stop] + rest)[1..] == rest;
  }

  // ---------- What one attempt writes ----------

  /** A block of rows is the order's lines with their totals, or one row with its total when it has none. */
  ghost predicate BlockOf(o: OrderId, order: Order, rows: seq<SheetLine>) {
    if order.lines == [] then rows == [SheetLine(o, "", 1, order.total)]
    else
      && |rows| == |order.lines|
      && forall k | 0 <= k < |rows| ::
           rows[k] == SheetLine(o, order.lines[k].sku, order.lines[k].qty, order.lines[k].lineTotal)
  }

  /**
   * Attempts for a paid order append their part of its block, one that is not refused the whole block, and then only the
   * order's status changes; for an order in any other status nothing is written.
   */
  lemma AttemptWrites(orders: map<OrderId, Order>, o: OrderId, stop: nat, rest: seq<nat>, block: seq<SheetLine>)
    requires o in orders ==> BlockOf(o, orders[o], block)
    ensures var stops := [stop] + rest;
            if o !in orders || orders[o].status != PaymentReceived then
              RowsAppended(orders, o, stops) == [] && OrdersAfter(orders, o, stops) == orders
            else if stop >= |block| then
              && RowsAppended(orders, o, stops) == block
              && OrdersAfter(orders, o, stops) == orders[o := orders[o].(status := Fulfilled)]
            else
              && RowsAppended(orders, o, stops) == block[..stop] + RowsAppended(orders, o, rest)
              && OrdersAfter(orders, o, stops) == OrdersAfter(orders, o, rest)
    ensures RowsAppended(orders, o, []) == [] && OrdersAfter(orders, o, []) == orders
  {
    if o in orders {
      assert RowsOf(o, orders[o]) == block;
    }
    OneAttempt(block, stop, rest);
  }

  // ---------- What retrying leaves on the sheet ----------

  /** Attempts of several calls act like the attempts of one call, and after a success nothing is appended. */
  lemma {:induction false} AttemptsAddUp(rows: seq<SheetLine>, a: seq<nat>, b: seq<nat>)
    ensures Succeeds(rows, a + b) <==> Succeeds(rows, a) || Succeeds(rows, b)
    ensures Appended(rows, a + b) ==
            if Succeeds(rows, a) then Appended(rows, a) else Appended(rows, a) + Appended(rows, b)
    decreases |a|
  {
    if a == [] {
      assert a + b == b;
    } else {
      assert (a + b)[1..] == a[1..] + b;
      AttemptsAddUp(rows, a[1..], b);
      if a[0] < |rows| {
        var here := rows[..a[0]];
        Regroup(here, Appended(rows, a[1..]), Appended(rows, b));
      }
    }
  }

  /** When the order ends up fulfilled, the last rows appended are one complete block. */
  lemma {:induction false} SuccessEndsInAFullBlock(rows: seq<SheetLine>, stops: seq<nat>) returns (partial: seq<SheetLine>)
    requires Succeeds(rows, stops)
    ensures Appended(rows, stops) == partial + rows
    decreases |stops|
  {
    if stops[0] >= |rows| {
      partial := [];
    } else {
      partial := SuccessEndsInAFullBlock(rows, stops[1..]);
      partial := rows[..stops[0]] + partial;
    }
  }

  /** No row is on the sheet more often than there were attempts. */
  lemma {:induction false} AtMostOneCopyPerAttempt(rows: seq<SheetLine>, stops: seq<nat>, r: SheetLine)
    ensures multiset(Appended(rows, stops))[r] <= |stops| * multiset(rows)[r]
    decreases |stops|
  {
    var c := multiset(rows)[r];
    if stops != [] {
      var rest := stops[1..];
      assert |stops| * c == |rest| * c + c;
      if stops[0] < |rows| {
        AtMostOneCopyPerAttempt(rows, rest, r);
        PrefixHasNoMore(rows, stops[0], r);
      } else {
        ProductIsNat(|rest|, c);
      }
    }
  }

  lemma ProductIsNat(n: nat, c: nat)
    ensures 0 <= n * c
  {
  }

  lemma PrefixHasNoMore(rows: seq<SheetLine>, k: nat, r: SheetLine)
    requires k <= |rows|
    ensures multiset(rows[..k])[r] <= multiset(rows)[r]
  {
    assert rows == rows[..k] + rows[k..];
  }
}

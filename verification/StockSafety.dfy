/** No overselling, the reservation ledger, and why a held order is never lost. */
module StockSafety {
  import opened Tables
  import opened StockLedger
  import opened Holds
  import opened ReservationService
  import opened GatewayWebhook
  import opened EscalationService
  import opened SheetIngest
  import opened Shop

  /** What a step that does not sync may do to the stock books. */
  ghost predicate KeepsStock(s: State, t: State) {
    StockOk(t) && forall sku :: Balance(t, sku) <= Balance(s, sku)
  }

  ghost predicate KeepsLedger(s: State, t: State) {
    Ledger(t) && forall sku :: Balance(t, sku) == Balance(s, sku)
  }

  // ---------- Holding ----------

  lemma HoldKeeps(s: State, t: State, asks: seq<Ask>, o: OrderId, expiresAt: int)
    requires StockOk(s) && PositiveAsks(asks) && Fits(Hold, s.inv, asks) && t == HoldAsks(s, asks, o, expiresAt)
    ensures KeepsStock(s, t)
    ensures Ledger(s) ==> KeepsLedger(s, t)
  {
    var rows := NewRows(asks, o, expiresAt);
    forall r | r in rows ensures r.qty >= 1 && r.sku in s.inv {
      var i :| 0 <= i < |rows| && rows[i] == r;
      assert asks[i] in asks;
    }
    forall sku
      ensures AllHeld(t.rows, sku) == AllHeld(s.rows, sku) + Demand(asks, sku)
      ensures Promised(t.rows, sku) == Promised(s.rows, sku) + Demand(asks, sku)
      ensures Demand(asks, sku) >= 0 && (sku !in s.inv ==> Demand(asks, sku) == 0)
      ensures sku in s.inv ==> s.inv[sku].reserved + Demand(asks, sku) <= s.inv[sku].stock
    {
      TotalSplits(s.rows, rows, sku, None, {Reserved});
      TotalSplits(s.rows, rows, sku, None, {Reserved, HoldState.Confirmed});
      NewRowsHold(asks, o, expiresAt, sku, None, {Reserved});
      NewRowsHold(asks, o, expiresAt, sku, None, {Reserved, HoldState.Confirmed});
      DemandBounds(asks, sku);
    }
  }

  // ---------- Releasing ----------

  lemma ReleaseKeepsPositive(s: State, o: OrderId)
    requires StockOk(s)
    ensures Positive(ReleaseOrder(s, o)) && PositiveAsks(ActiveAsks(s.rows, o))
  {
    MarkKeepsPositive(s.rows, o, Released);
    ActiveAsksPositive(s.rows, o);
  }

  lemma ReleaseSku(s: State, o: OrderId, sku: Sku)
    requires StockOk(s)
    ensures var t := ReleaseOrder(s, o);
            && (sku in t.inv <==> sku in s.inv)
            && (sku in t.inv ==> 0 <= t.inv[sku].reserved <= s.inv[sku].reserved && t.inv[sku].stock == s.inv[sku].stock)
            && Balance(t, sku) <= Balance(s, sku)
  {
    ActiveAsksPositive(s.rows, o);
    ActiveAsksAddUp(s.rows, o, sku);
    MarkMoves(s.rows, o, Released, sku, None, {Reserved, HoldState.Confirmed});
    HeldBounds(s.rows, o, sku);
    if sku in s.inv {
      FreeAllBounds(s.inv, ActiveAsks(s.rows, o), sku);
    } else if s.inv != map[] {
      var k :| k in s.inv;
      FreeAllBounds(s.inv, ActiveAsks(s.rows, o), k);
    } else {
      EmptyInventoryStays(ActiveAsks(s.rows, o));
    }
  }

  lemma {:induction false} EmptyInventoryStays(asks: seq<Ask>)
    ensures FreeAll(map[], asks) == map[]
  {
    if asks != [] {
      EmptyInventoryStays(asks[..|asks|-1]);
    }
  }

  lemma ReleaseKeepsStock(s: State, o: OrderId)
    requires StockOk(s)
    ensures KeepsStock(s, ReleaseOrder(s, o))
  {
    var t := ReleaseOrder(s, o);
    ReleaseKeepsPositive(s, o);
    forall sku
      ensures Balance(t, sku) <= Balance(s, sku)
      ensures sku in t.inv <==> sku in s.inv
      ensures sku in t.inv ==> 0 <= t.inv[sku].reserved <= t.inv[sku].stock
    {
      ReleaseSku(s, o, sku);
    }
    forall r | r in t.rows ensures r.sku in t.inv {
      var i :| 0 <= i < |t.rows| && t.rows[i] == r;
      assert s.rows[i] in s.rows && s.rows[i].sku == r.sku;
    }
  }

  /** Under the ledger the release statements of an order all hit, although nobody checks their row counts. */
  lemma NoReleaseMisses(s: State, o: OrderId)
    requires StockOk(s) && Ledger(s)
    ensures Fits(Free, s.inv, ActiveAsks(s.rows, o))
    ensures ReleaseOrder(s, o).inv == MovedAll(Free, s.inv, ActiveAsks(s.rows, o))
  {
    var asks := ActiveAsks(s.rows, o);
    ActiveAsksPositive(s.rows, o);
    forall a | a in asks ensures a.sku in s.inv && Demand(asks, a.sku) <= s.inv[a.sku].reserved {
      ActiveAsksComeFromRows(s.rows, o, a);
      ActiveAsksAddUp(s.rows, o, a.sku);
      HeldBounds(s.rows, o, a.sku);
    }
    FreeAllHits(s.inv, asks);
  }

  lemma ReleaseKeepsLedger(s: State, o: OrderId)
    requires StockOk(s) && Ledger(s)
    ensures KeepsLedger(s, ReleaseOrder(s, o))
  {
    var t := ReleaseOrder(s, o);
    NoReleaseMisses(s, o);
    forall sku
      ensures Balance(t, sku) == Balance(s, sku)
      ensures sku in t.inv ==> AllHeld(t.rows, sku) <= t.inv[sku].reserved
    {
      ActiveAsksAddUp(s.rows, o, sku);
      MarkMoves(s.rows, o, Released, sku, None, {Reserved});
      MarkMoves(s.rows, o, Released, sku, None, {Reserved, HoldState.Confirmed});
      if sku !in s.inv {
        NoRowsForStranger(s.rows, o, sku);
      }
    }
  }

  lemma {:induction false} NoRowsForStranger(rows: seq<Reservation>, o: OrderId, sku: Sku)
    requires forall r | r in rows :: r.sku != sku
    ensures Held(rows, o, sku) == 0
  {
    if rows != [] {
      NoRowsForStranger(rows[..|rows|-1], o, sku);
    }
  }

  // ---------- Sweeping ----------

  lemma {:induction false} ExpireKeeps(s: State, locked: seq<OrderId>, now: int)
    requires StockOk(s)
    ensures KeepsStock(s, Expire(s, locked, now))
    ensures Ledger(s) ==> KeepsLedger(s, Expire(s, locked, now))
  {
    if locked != [] {
      var t, o := Expire(s, locked[..|locked|-1], now), locked[|locked|-1];
      ExpireKeeps(s, locked[..|locked|-1], now);
      ReleaseKeepsStock(t, o);
      if Ledger(s) {
        ReleaseKeepsLedger(t, o);
      }
    }
  }

  /** A sweep that meets each order once reads rows no earlier claim has released. */
  lemma {:induction false} SweepReadsFreshRows(s: State, owners: seq<Option<OrderId>>, o: OrderId)
    requires o != "" && Some(o) !in owners
    ensures ActiveAsks(ReleaseStock(s, s.rows, owners).rows, o) == ActiveAsks(s.rows, o)
  {
    if owners != [] {
      var p, z := owners[..|owners|-1], owners[|owners|-1];
      assert owners == p + [z];
      SweepReadsFreshRows(s, p, o);
      if Given(z) {
        MarkActive(ReleaseStock(s, s.rows, p).rows, z.value, Released, o);
      }
    }
  }

  lemma {:induction false} SweepKeeps(s: State, owners: seq<Option<OrderId>>)
    requires StockOk(s) && DistinctOwners(owners)
    ensures KeepsStock(s, ReleaseStock(s, s.rows, owners))
    ensures Ledger(s) ==> KeepsLedger(s, ReleaseStock(s, s.rows, owners))
  {
    if owners != [] {
      var p, z := owners[..|owners|-1], owners[|owners|-1];
      SweepKeeps(s, p);
      if Given(z) {
        var t := ReleaseStock(s, s.rows, p);
        SweepReadsFreshRows(s, p, z.value);
        assert ReleaseClaimStock(t, s.rows, z) == ReleaseOrder(t, z.value).(orders := CancelHeld(t.orders, z.value));
        ReleaseKeepsStock(t, z.value);
        if Ledger(s) {
          ReleaseKeepsLedger(t, z.value);
        }
      }
    }
  }

  // ---------- Confirming and selling ----------

  lemma ConfirmKeeps(s: State, o: OrderId)
    requires StockOk(s)
    ensures KeepsStock(s, s.(rows := Mark(s.rows, o, HoldState.Confirmed)))
    ensures Ledger(s) ==> KeepsLedger(s, s.(rows := Mark(s.rows, o, HoldState.Confirmed)))
  {
    var rows := Mark(s.rows, o, HoldState.Confirmed);
    MarkKeepsPositive(s.rows, o, HoldState.Confirmed);
    forall sku
      ensures Promised(rows, sku) == Promised(s.rows, sku)
      ensures AllHeld(rows, sku) == AllHeld(s.rows, sku) - Held(s.rows, o, sku) && Held(s.rows, o, sku) >= 0
    {
      MarkMoves(s.rows, o, HoldState.Confirmed, sku, None, {Reserved});
      MarkMoves(s.rows, o, HoldState.Confirmed, sku, None, {Reserved, HoldState.Confirmed});
      HeldBounds(s.rows, o, sku);
    }
    forall r | r in rows ensures r.sku in s.inv {
      var i :| 0 <= i < |rows| && rows[i] == r;
      assert s.rows[i] in s.rows;
    }
  }

  /** Selling lowers stock and reserved alike, so it changes no balance; it eats the slack `reserved - held`. */
  lemma SettleKeeps(s: State, p: Payload)
    requires StockOk(s) && p.order in s.orders
    requires Fits(Sell, s.inv, AsksToSell(s.orders, s.rows, p.order))
    ensures var t := Settle(s, p, AsksToSell(s.orders, s.rows, p.order));
            && KeepsStock(s, t)
            && (forall sku :: Balance(t, sku) == Balance(s, sku))
            && (forall sku | sku in s.inv ::
                  t.inv[sku].reserved - AllHeld(t.rows, sku) ==
                  s.inv[sku].reserved - AllHeld(s.rows, sku) + Held(s.rows, p.order, sku)
                  - Demand(AsksToSell(s.orders, s.rows, p.order), sku))
  {
    var asks := AsksToSell(s.orders, s.rows, p.order);
    var t := Settle(s, p, asks);
    SoldAsksPositive(s, p.order);
    ConfirmKeeps(s, p.order);
    forall sku
      ensures Promised(t.rows, sku) == Promised(s.rows, sku)
      ensures AllHeld(t.rows, sku) == AllHeld(s.rows, sku) - Held(s.rows, p.order, sku)
      ensures sku in s.inv ==> 0 <= s.inv[sku].reserved - Demand(asks, sku) <= s.inv[sku].stock - Demand(asks, sku)
    {
      MarkMoves(s.rows, p.order, HoldState.Confirmed, sku, None, {Reserved});
      MarkMoves(s.rows, p.order, HoldState.Confirmed, sku, None, {Reserved, HoldState.Confirmed});
      DemandBounds(asks, sku);
    }
  }

  /** Reserved units that no row speaks for. */
  function Slack(s: State, sku: Sku): int
    requires sku in s.inv
  {
    s.inv[sku].reserved - AllHeld(s.rows, sku)
  }

  /**
   * A webhook keeps the ledger exactly when the order's demand exceeds its own holds by no more than the
   * reserved units that no row speaks for, or when some line's guard fails.
   */
  lemma WebhookKeepsLedgerIff(s: State, p: Payload)
    requires StockOk(s) && Ledger(s) && Fresh(s, p)
    ensures var asks := AsksToSell(s.orders, s.rows, p.order);
            Ledger(Webhook(s, p).0) <==>
            || !AllCovered(s.inv, asks)
            || forall sku | sku in s.inv :: Demand(asks, sku) - Held(s.rows, p.order, sku) <= Slack(s, sku)
  {
    SettlesIffCovered(s, p);
    if Webhook(s, p).1 == Received {
      SoldAsksPositive(s, p.order);
      ServedWholeIffFits(Sell, s.inv, AsksToSell(s.orders, s.rows, p.order));
      SettleKeeps(s, p);
    }
  }

  /** What one webhook sells does not depend on another order's webhook before it. */
  lemma OthersSellTheSame(s: State, p: Payload, q: Payload)
    requires p.order in s.orders && q.order in s.orders && p.order != q.order
    ensures q.order in Webhook(s, p).0.orders
    ensures AsksToSell(Webhook(s, p).0.orders, Webhook(s, p).0.rows, q.order) == AsksToSell(s.orders, s.rows, q.order)
  {
    MarkActive(s.rows, p.order, HoldState.Confirmed, q.order);
  }

  /**
   * After one order's webhook has settled, a fresh webhook for another order settles exactly when stock and reserved
   * covered the demand of both orders, per SKU.
   */
  lemma SecondSettlesIffBothCovered(s: State, p: Payload, q: Payload)
    requires Positive(s) && Fresh(s, p) && Fresh(s, q) && p.order != q.order && p.eventKey != q.eventKey
    requires AllCovered(s.inv, AsksToSell(s.orders, s.rows, p.order))
    ensures var mine, late := AsksToSell(s.orders, s.rows, q.order), AsksToSell(s.orders, s.rows, p.order);
            Webhook(Webhook(s, p).0, q).1 == Received <==>
            forall a | a in mine ::
              && a.sku in s.inv
              && Demand(late, a.sku) + Demand(mine, a.sku) <= s.inv[a.sku].reserved
              && Demand(late, a.sku) + Demand(mine, a.sku) <= s.inv[a.sku].stock
  {
    var t := Webhook(s, p).0;
    SettlesIffCovered(s, p);
    OthersSellTheSame(s, p, q);
    MarkKeepsPositive(s.rows, p.order, HoldState.Confirmed);
    SettlesIffCovered(t, q);
    assert t.inv == MovedAll(Sell, s.inv, AsksToSell(s.orders, s.rows, p.order));
  }

  /** After a settled webhook the same order asks for its lines again, or for nothing when it has none. */
  lemma SettledOrderAsks(s: State, p: Payload)
    requires p.order in s.orders && Webhook(s, p).1 == Received
    ensures var t := Webhook(s, p).0;
            && p.order in t.orders && t.orders[p.order].lines == s.orders[p.order].lines
            && AsksToSell(t.orders, t.rows, p.order) ==
               if s.orders[p.order].lines != [] then AsksToSell(s.orders, s.rows, p.order) else []
  {
    MarkActive(s.rows, p.order, HoldState.Confirmed, p.order);
  }

  lemma SettlesAgainIff(inv: Inventory, t: State, q: Payload, asks: seq<Ask>)
    requires Positive(t) && Fresh(t, q) && AsksToSell(t.orders, t.rows, q.order) == asks
    requires AllCovered(inv, asks) && t.inv == MovedAll(Sell, inv, asks)
    ensures Webhook(t, q).1 == Received <==>
            forall a | a in asks :: 2 * Demand(asks, a.sku) <= inv[a.sku].reserved && 2 * Demand(asks, a.sku) <= inv[a.sku].stock
    ensures Webhook(t, q).1 == Received ==> Webhook(t, q).0.inv == MovedAll(Sell, t.inv, asks)
  {
    SettlesIffCovered(t, q);
  }

  lemma NothingToSell(t: State, q: Payload)
    requires Fresh(t, q) && AsksToSell(t.orders, t.rows, q.order) == []
    ensures Webhook(t, q).1 == Received && Webhook(t, q).0.inv == t.inv
  {
  }

  /**
   * Settlement is exactly once per event key, not per order: a second delivery for a settled order under another key
   * sells its lines again exactly when stock and reserved covered twice its demand, per SKU. An order without lines
   * has no RESERVED rows left, and settles again selling nothing.
   */
  lemma SameOrderSettlesAgainIff(s: State, p: Payload, q: Payload)
    requires Positive(s) && Fresh(s, p) && Fresh(s, q) && p.order == q.order && p.eventKey != q.eventKey
    requires AllCovered(s.inv, AsksToSell(s.orders, s.rows, p.order))
    ensures var asks, t := AsksToSell(s.orders, s.rows, p.order), Webhook(s, p).0;
            if s.orders[p.order].lines == [] then Webhook(t, q).1 == Received && Webhook(t, q).0.inv == t.inv
            else
              && (Webhook(t, q).1 == Received <==>
                   forall a | a in asks ::
                     2 * Demand(asks, a.sku) <= s.inv[a.sku].reserved && 2 * Demand(asks, a.sku) <= s.inv[a.sku].stock)
              && (Webhook(t, q).1 == Received ==> Webhook(t, q).0.inv == MovedAll(Sell, MovedAll(Sell, s.inv, asks), asks))
  {
    var t := Webhook(s, p).0;
    SettlesIffCovered(s, p);
    SettledOrderAsks(s, p);
    MarkKeepsPositive(s.rows, p.order, HoldState.Confirmed);
    if s.orders[p.order].lines == [] {
      NothingToSell(t, q);
    } else {
      SettlesAgainIff(s.inv, t, q, AsksToSell(s.orders, s.rows, p.order));
    }
  }

  lemma WebhookKeeps(s: State, p: Payload)
    requires StockOk(s)
    ensures KeepsStock(s, Webhook(s, p).0)
    ensures forall sku :: Balance(Webhook(s, p).0, sku) == Balance(s, sku)
    ensures Ledger(s) && (Fresh(s, p) ==> Covered(s, p.order)) ==> Ledger(Webhook(s, p).0)
  {
    if Fresh(s, p) {
      var asks := AsksToSell(s.orders, s.rows, p.order);
      SoldAsksPositive(s, p.order);
      ServedWholeIffFits(Sell, s.inv, asks);
      if Fits(Sell, s.inv, asks) {
        SettleKeeps(s, p);
      }
    }
  }

  // ---------- Syncing ----------

  /** A sync leaves reserved within stock exactly when the sheet meets the run condition. */
  lemma SyncRespectsHoldsIff(s: State, sheet: seq<SheetRow>)
    requires StockOk(s)
    ensures var t := Sync(s, sheet).0;
            && t == Next(s, SyncSheet(sheet))
            && (SyncRespectsHolds(s, SyncSheet(sheet)) <==> forall sku | sku in t.inv :: 0 <= t.inv[sku].reserved <= t.inv[sku].stock)
  {
    if !ListsNewSkuTwice(s.snaps, sheet) {
      var t := MergeRows(s, sheet);
      MergeRowsKeepReserved(s, sheet);
      forall sku | sku in t.inv
        ensures sku in s.inv ==> t.inv[sku].stock == if StockEdited(s.snaps, sheet, sku) then LastStock(sheet, sku) else s.inv[sku].stock
        ensures sku !in s.inv ==> t.inv[sku].stock >= 0
      {
        if sku in s.inv {
          SyncedStock(s, sheet, sku);
        } else {
          NewStockIsNatural(s, sheet, sku);
        }
      }
    }
  }

  /** On a sheet with distinct SKUs each row speaks for itself. */
  lemma DistinctRowsRespectHoldsIff(s: State, sheet: seq<SheetRow>)
    requires DistinctSkus(sheet)
    ensures SyncRespectsHolds(s, SyncSheet(sheet)) <==>
            forall r | r in sheet && r.sku in s.inv && Stock in Edits(SnapOf(s.snaps, r.sku), r) :: s.inv[r.sku].reserved <= r.stock
  {
    forall r | r in sheet ensures LastStock(sheet, r.sku) == r.stock {
      var q := LastStockIsListed(sheet, r.sku);
      var i, j :| 0 <= i < |sheet| && 0 <= j < |sheet| && sheet[i] == r && sheet[j] == q;
    }
  }

  lemma SyncKeeps(s: State, sheet: seq<SheetRow>)
    requires StockOk(s) && SyncRespectsHolds(s, SyncSheet(sheet))
    ensures var t := Sync(s, sheet).0;
            && StockOk(t)
            && (forall sku :: Balance(t, sku) == Balance(s, sku) + Supplied(s, SyncSheet(sheet), sku))
            && (Ledger(s) ==> Ledger(t))
  {
    MergeRowsKeepReserved(s, sheet);
    SyncRespectsHoldsIff(s, sheet);
    forall sku | sku !in s.inv ensures AllHeld(s.rows, sku) == 0 {
      NoHoldsForStranger(s.rows, sku);
    }
  }

  lemma {:induction false} NoHoldsForStranger(rows: seq<Reservation>, sku: Sku)
    requires forall r | r in rows :: r.sku != sku
    ensures AllHeld(rows, sku) == 0
  {
    if rows != [] {
      NoHoldsForStranger(rows[..|rows|-1], sku);
    }
  }

  // ---------- One step ----------

  /** What one step under the run conditions keeps. */
  ghost predicate Sound(s: State, step: Step) {
    && StockOk(Next(s, step))
    && (forall sku :: Balance(Next(s, step), sku) <= Balance(s, sku) + Supplied(s, step, sku))
    && (Ledger(s) && CoveredDelivery(s, step) ==> Ledger(Next(s, step)))
    && (Ledger(s) ==> forall sku :: Balance(Next(s, step), sku) == Balance(s, sku) + Supplied(s, step, sku))
  }

  lemma SoundIfKept(s: State, step: Step)
    requires !step.SyncSheet?
    requires KeepsStock(s, Next(s, step))
    requires Ledger(s) ==> KeepsLedger(s, Next(s, step))
    ensures Sound(s, step)
  {
  }

  /** The orders table does not enter the books. */
  lemma KeptWhateverTheOrders(s: State, t: State, orders: map<OrderId, Order>)
    requires KeepsStock(s, t) && Positive(t.(orders := orders))
    ensures KeepsStock(s, t.(orders := orders))
    ensures KeepsLedger(s, t) ==> KeepsLedger(s, t.(orders := orders))
  {
  }

  lemma SoundIfBooksUntouched(s: State, step: Step)
    requires StockOk(s) && !step.SyncSheet? && Positive(Next(s, step))
    requires Next(s, step).inv == s.inv && Next(s, step).rows == s.rows
    ensures Sound(s, step)
  {
  }

  lemma OneAskHeld(s: State, a: Ask, o: OrderId, now: int, ttl: int)
    requires ReserveStock(s, a, o, now, ttl).1 == Done
    ensures ReserveStock(s, a, o, now, ttl).0 == HoldAsks(s, [a], o, now + ttl)
    ensures PositiveAsks([a]) && Fits(Hold, s.inv, [a])
  {
    assert [a][..0] == [];
    assert Demand([a], a.sku) == a.qty;
  }

  lemma ReserveSkuKeeps(s: State, a: Ask, o: OrderId, now: int, ttl: int)
    requires StockOk(s) && ReserveStock(s, a, o, now, ttl).1 == Done
    ensures KeepsStock(s, ReserveStock(s, a, o, now, ttl).0)
    ensures Ledger(s) ==> KeepsLedger(s, ReserveStock(s, a, o, now, ttl).0)
  {
    OneAskHeld(s, a, o, now, ttl);
    HoldKeeps(s, ReserveStock(s, a, o, now, ttl).0, [a], o, now + ttl);
  }

  lemma ReserveSkuSound(s: State, step: Step)
    requires StockOk(s) && step.ReserveSku?
    ensures Sound(s, step)
  {
    if Act(s, step).1 == Done {
      ReserveSkuKeeps(s, step.ask, step.holder, step.at, step.ttl);
      SoundIfKept(s, step);
    }
  }

  /** Holding an order's lines and writing that order's row, lines unchanged. */
  lemma HoldAndWriteKeeps(s: State, t: State, asks: seq<Ask>, o: OrderId, expiresAt: int, held: Order)
    requires StockOk(s) && PositiveAsks(asks) && Fits(Hold, s.inv, asks) && o in s.orders && held.lines == s.orders[o].lines
    requires t == HoldAsks(s, asks, o, expiresAt).(orders := s.orders[o := held])
    ensures KeepsStock(s, t)
    ensures Ledger(s) ==> KeepsLedger(s, t)
  {
    var u := HoldAsks(s, asks, o, expiresAt);
    HoldKeeps(s, u, asks, o, expiresAt);
    KeptWhateverTheOrders(s, u, t.orders);
  }

  lemma ReserveLinesKeeps(s: State, o: OrderId, now: int, ttl: int)
    requires StockOk(s) && ReserveOrder(s, o, now, ttl).1 == Done
    ensures KeepsStock(s, ReserveOrder(s, o, now, ttl).0)
    ensures Ledger(s) ==> KeepsLedger(s, ReserveOrder(s, o, now, ttl).0)
  {
    DoneMeansHeld(s, o, now, ttl);
    var t := ReserveOrder(s, o, now, ttl).0;
    HoldAndWriteKeeps(s, t, AsksOf(s.orders[o].lines), o, now + ttl, t.orders[o]);
  }

  lemma ReserveLinesSound(s: State, step: Step)
    requires StockOk(s) && step.ReserveLines?
    ensures Sound(s, step)
  {
    if Act(s, step).1 == Done {
      ReserveLinesKeeps(s, step.order, step.at, step.ttl);
      SoundIfKept(s, step);
    }
  }

  lemma RejectSound(s: State, step: Step)
    requires StockOk(s) && step.RejectOrder?
    ensures Sound(s, step)
  {
    if Act(s, step).1 == Done {
      ReleaseKeepsStock(s, step.order);
      if Ledger(s) { ReleaseKeepsLedger(s, step.order); }
      SoundIfKept(s, step);
    }
  }

  lemma SweepSound(s: State, step: Step)
    requires StockOk(s) && step.SweepStale? && OneClaimPerOrder(s, step)
    ensures Sound(s, step)
  {
    if Act(s, step).1 == Done {
      SweepKeeps(s, StaleOwners(s.claims, step.lockedClaims, step.clock - step.ceiling));
      SoundIfKept(s, step);
    }
  }

  lemma ExpireSound(s: State, step: Step)
    requires StockOk(s) && step.ExpireOverdue?
    ensures Sound(s, step)
  {
    ExpireKeeps(s, step.lockedOrders, step.at);
    SoundIfKept(s, step);
  }

  lemma DeliverSound(s: State, step: Step)
    requires StockOk(s) && step.Deliver?
    ensures Sound(s, step)
  {
    WebhookKeeps(s, step.payload);
  }

  lemma ApproveSound(s: State, step: Step)
    requires StockOk(s) && step.ApproveOrder?
    ensures Sound(s, step)
  {
    if step.order in s.orders {
      var confirmed := s.(rows := Mark(s.rows, step.order, HoldState.Confirmed));
      ConfirmKeeps(s, step.order);
      KeptWhateverTheOrders(s, confirmed, Next(s, step).orders);
      SoundIfKept(s, step);
    }
  }

  lemma SyncSound(s: State, step: Step)
    requires StockOk(s) && step.SyncSheet? && SyncRespectsHolds(s, step)
    ensures Sound(s, step)
  {
    SyncKeeps(s, step.sheet);
  }

  lemma StepSound(s: State, step: Step)
    requires StockOk(s) && SafeStep(s, step)
    ensures Sound(s, step)
  {
    match step
    case ReserveSku(_, _, _, _) => ReserveSkuSound(s, step);
    case ReserveLines(_, _, _) => ReserveLinesSound(s, step);
    case ExpireOverdue(_, _) => ExpireSound(s, step);
    case Deliver(_) => DeliverSound(s, step);
    case PayTrigger(_, _, _) => SoundIfBooksUntouched(s, step);
    case ClaimSlip(_, _, _) => SoundIfBooksUntouched(s, step);
    case ApproveOrder(_) => ApproveSound(s, step);
    case RejectOrder(_, _) => RejectSound(s, step);
    case SweepStale(_, _, _) => SweepSound(s, step);
    case SyncSheet(_) => SyncSound(s, step);
    case WriteOrder(_, _) => SoundIfBooksUntouched(s, step);
  }

  // ---------- Runs ----------

  /**
   * No overselling: however webhooks arrive, reserved stays between zero and stock, and what is free plus what
   * is held or confirmed never rises except by what the seller's sheet supplies.
   */
  lemma {:induction false} NoOverselling(s: State, steps: seq<Step>, sku: Sku)
    requires StockOk(s) && SafeRun(s, steps)
    ensures StockOk(Run(s, steps))
    ensures Balance(Run(s, steps), sku) <= Balance(s, sku) + SuppliedIn(s, steps, sku)
    ensures Promised(Run(s, steps).rows, sku) <= Balance(s, sku) + SuppliedIn(s, steps, sku)
    decreases steps
  {
    if steps != [] {
      StepSound(s, steps[0]);
      NoOverselling(Next(s, steps[0]), steps[1..], sku);
    }
  }

  /** When webhooks reach covered orders only, the ledger holds throughout and the balance is exactly constant. */
  lemma {:induction false} LedgerHolds(s: State, steps: seq<Step>, sku: Sku)
    requires StockOk(s) && Ledger(s) && SafeRun(s, steps) && CoveredRun(s, steps)
    ensures StockOk(Run(s, steps)) && Ledger(Run(s, steps))
    ensures Balance(Run(s, steps), sku) == Balance(s, sku) + SuppliedIn(s, steps, sku)
    decreases steps
  {
    if steps != [] {
      StepSound(s, steps[0]);
      LedgerHolds(Next(s, steps[0]), steps[1..], sku);
    }
  }
}

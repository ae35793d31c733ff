/** Concrete shops in which the run conditions fail and a held order is lost. */
module LostHolds {
  import opened Tables
  import opened StockLedger
  import opened Holds
  import opened ReservationService
  import opened PaymentClaims
  import opened GatewayWebhook
  import opened EscalationService
  import opened SheetIngest
  import opened Shop
  import opened StockSafety
  import opened HeldOrders

  const MUG: Sku := "mug"

  function Mugs(stock: int, reserved: int): Inventory {
    map[MUG := Item("Mug", None, 10000, None, stock, reserved, true, 1)]
  }

  function TwoMugs(status: Status): Order {
    Order([OrderLine(MUG, None, 2, 10000, 20000)], status, None, NoApproval, None, 20000)
  }

  function Row(o: OrderId, state: HoldState): Reservation {
    Reservation(o, MUG, 2, state, 900)
  }

  lemma TwoRows(r: Reservation, q: Reservation, sku: Sku, who: Option<OrderId>, states: set<HoldState>)
    ensures Total([r, q], sku, who, states) == Qty(r, sku, who, states) + Qty(q, sku, who, states)
  {
    assert [r, q][..1] == [r] && [r][..0] == [];
    assert Total([r], sku, who, states) == Qty(r, sku, who, states);
  }

  // ---------- A webhook after expiry ----------

  /** One order expired, another awaits payment and holds the only two reserved mugs. */
  function OneExpiredOneHeld(): State {
    State(Mugs(4, 2), [Row("late", Released), Row("held", Reserved)],
          map["late" := TwoMugs(ReservationExpired), "held" := TwoMugs(AwaitingPayment)], [], map[], map[])
  }

  lemma BooksInOrder()
    ensures var s := OneExpiredOneHeld(); StockOk(s) && Ledger(s) && AwaitingBacked(s)
  {
    var s := OneExpiredOneHeld();
    var lines := s.orders["held"].lines;
    TwoRows(s.rows[0], s.rows[1], MUG, None, {Reserved});
    assert AsksOf(lines) == [Ask(MUG, 2)];
    forall sku ensures Demand(AsksOf(lines), sku) <= Held(s.rows, "held", sku) {
      TwoRows(s.rows[0], s.rows[1], sku, Some("held"), {Reserved});
    }
    assert Backed(s, "held");
  }

  lemma MugSale(s: State, p: Payload)
    requires p.eventKey !in s.events && p.order in s.orders && s.orders[p.order].lines == TwoMugs(AwaitingPayment).lines
    requires MUG in s.inv
    ensures Webhook(s, p).1 == if s.inv[MUG].reserved >= 2 && s.inv[MUG].stock >= 2 then Received else Reconcile(MUG, 2)
    ensures Webhook(s, p).1 == Received ==>
              Webhook(s, p).0.inv.Keys == s.inv.Keys && Webhook(s, p).0.inv[MUG].reserved == s.inv[MUG].reserved - 2
    ensures forall o | o != p.order && o in s.orders :: o in Webhook(s, p).0.orders && Webhook(s, p).0.orders[o] == s.orders[o]
    ensures forall k | k != p.eventKey :: k in Webhook(s, p).0.events <==> k in s.events
  {
    assert AsksToSell(s.orders, s.rows, p.order) == [Ask(MUG, 2)];
  }

  /**
   * The webhook does not look at the order's status, so a payment for the expired order sells the other order's
   * hold, and the payment of the order that did hold goes to reconciliation.
   */
  lemma LateWebhookTakesAnothersHold()
    ensures var s := OneExpiredOneHeld();
            var late, held := Payload("late", "e1", None, None), Payload("held", "e2", None, None);
            && StockOk(s) && Ledger(s) && AwaitingBacked(s)
            && Webhook(s, late).1 == Received
            && Webhook(Webhook(s, late).0, held).1 == Reconcile(MUG, 2)
  {
    var s := OneExpiredOneHeld();
    var late, held := Payload("late", "e1", None, None), Payload("held", "e2", None, None);
    BooksInOrder();
    MugSale(s, late);
    MugSale(Webhook(s, late).0, held);
  }

  // ---------- A sync below what is held ----------

  /** One order awaits payment and holds two of four mugs; the seller's sheet was never synced. */
  function OneHeld(): State {
    State(Mugs(4, 2), [Row("held", Reserved)], map["held" := TwoMugs(AwaitingPayment)], [], map[], map[])
  }

  function MugRow(stock: nat): SheetRow {
    SheetRow(MUG, "Mug", None, 10000, None, stock, true)
  }

  lemma OneHeldInOrder()
    ensures var s := OneHeld(); StockOk(s) && Ledger(s) && AwaitingBacked(s)
  {
    var s := OneHeld();
    var lines := s.orders["held"].lines;
    assert s.rows[..0] == [];
    assert AsksOf(lines) == [Ask(MUG, 2)];
    forall sku, who, states ensures Total(s.rows, sku, who, states) == Qty(s.rows[0], sku, who, states) {
    }
    assert Backed(s, "held");
  }

  /** A sync of one mug row whose stock was never listed writes that stock and leaves `reserved`. */
  lemma MugSync(s: State, stock: nat)
    requires MUG in s.inv && s.snaps == map[]
    ensures var t := Sync(s, [MugRow(stock)]);
            && t.1 == Done && t.0 == s.(inv := t.0.inv, snaps := t.0.snaps)
            && MUG in t.0.inv && t.0.inv[MUG].stock == stock && t.0.inv[MUG].reserved == s.inv[MUG].reserved
            && (SyncRespectsHolds(s, SyncSheet([MugRow(stock)])) <==> s.inv[MUG].reserved <= stock)
  {
    var sheet := [MugRow(stock)];
    assert sheet[..0] == [];
    assert MergeRows(s, sheet) == MergeRow(s, sheet[0]);
    DistinctRowsRespectHoldsIff(s, sheet);
    assert MugRow(stock) in sheet;
  }

  /**
   * Nothing compares a listed stock with what is reserved: a sync that lists one mug leaves two reserved, and the paid
   * order that holds them goes to reconciliation.
   */
  lemma SyncBelowHoldsLosesOrder()
    ensures var s, sheet, paid := OneHeld(), [MugRow(1)], Payload("held", "e1", None, None);
            var t := Sync(s, sheet);
            && StockOk(s) && Ledger(s) && AwaitingBacked(s) && Webhook(s, paid).1 == Received
            && !SyncRespectsHolds(s, SyncSheet(sheet))
            && t.1 == Done && MUG in t.0.inv && t.0.inv[MUG].stock == 1 && t.0.inv[MUG].reserved == 2
            && Webhook(t.0, paid).1 == Reconcile(MUG, 2)
  {
    var s, paid := OneHeld(), Payload("held", "e1", None, None);
    OneHeldInOrder();
    MugSync(s, 1);
    MugSale(s, paid);
    MugSale(Sync(s, [MugRow(1)]).0, paid);
  }

  // ---------- Two stale claims of one order ----------

  /** Two orders hold two mugs each; one of them owns two stale claims. */
  function TwoClaimsOneOrder(): State {
    State(Mugs(4, 4), [Row("twice", Reserved), Row("other", Reserved)],
          map["twice" := TwoMugs(AwaitingPayment), "other" := TwoMugs(AwaitingPayment)],
          [Claim("ref:1", Some("twice"), Pending, 0), Claim("ref:2", Some("twice"), Pending, 0)], map[], map[])
  }

  /** Two stale claims of one order free what the order's rows ask for twice, and release the rows. */
  lemma ReleasedPerClaim(s: State, o: OrderId, asks: seq<Ask>)
    requires o != "" && ActiveAsks(s.rows, o) == asks
    ensures var t := ReleaseStock(s, s.rows, [Some(o), Some(o)]);
            t.inv == FreeAll(FreeAll(s.inv, asks), asks) && t.rows == Mark(s.rows, o, Released)
  {
    var owner := Some(o);
    assert [owner, owner][..1] == [owner] && [owner][..0] == [];
    assert ReleaseStock(s, s.rows, [owner]) == ReleaseClaimStock(s, s.rows, owner);
  }

  lemma ActiveOfTwo(r: Reservation, q: Reservation, o: OrderId)
    requires Selects(r, o) && !Selects(q, o)
    ensures ActiveAsks([r, q], o) == [Ask(r.sku, r.qty)]
  {
    assert [r, q] == [r] + [q] && [r] == [] + [r];
    ActiveAsksAppend([], r, o);
    ActiveAsksAppend([r], q, o);
  }

  lemma StaleOfTwo(c: Claim, d: Claim, cutoff: int)
    requires c.state == Pending && d.state == Pending && c.consumedAt < cutoff && d.consumedAt < cutoff
    ensures StaleAmong([c, d], [0, 1], cutoff) == [0, 1]
    ensures StaleOwners([c, d], [0, 1], cutoff) == [c.order, d.order]
  {
    var locked: seq<nat> := [0, 1];
    assert locked[..1] == [0] && locked[..1][..0] == [];
    assert StaleAmong([c, d], locked[..1], cutoff) == [0];
  }

  /** Two claims whose keys differ and are equally long can be archived together. */
  lemma ArchiveOfTwo(c: Claim, d: Claim, now: nat)
    requires c.key != d.key && |c.key| == |d.key|
    ensures Archive([c, d], IdSet([0, 1]), now, 0).Some?
  {
    var picked, claims := IdSet([0, 1]), [c, d];
    assert 0 in [0, 1] && 1 in [0, 1];
    assert !Taken(claims, ArchivedKey(c.key, now));
    var once := claims[0 := c.(key := ArchivedKey(c.key, now), state := Archived)];
    if ArchivedKey(c.key, now) == ArchivedKey(d.key, now) {
      ArchivedKeysDiffer(c.key, d.key, now);
    }
    assert !Taken(once, ArchivedKey(d.key, now));
    var twice := once[1 := d.(key := ArchivedKey(d.key, now), state := Archived)];
    assert Archive(twice, picked, now, 2) == Some(twice);
    assert Archive(once, picked, now, 1) == Some(twice);
  }

  /** A sweep that finds two stale claims of one order frees its stock twice. */
  lemma BothClaimsSwept(s: State, c: Claim, d: Claim, now: nat, ceiling: nat)
    requires s.claims == [c, d] && c.key != d.key && |c.key| == |d.key|
    requires c.state == Pending && d.state == Pending && c.consumedAt < now - ceiling && d.consumedAt < now - ceiling
    ensures var t := SweepClaims(s, [0, 1], now, ceiling).0;
            t.inv == ReleaseStock(s, s.rows, [c.order, d.order]).inv && t.rows == ReleaseStock(s, s.rows, [c.order, d.order]).rows
  {
    StaleOfTwo(c, d, now - ceiling);
    ArchiveOfTwo(c, d, now);
  }

  lemma BooksBefore()
    ensures var s := TwoClaimsOneOrder(); StockOk(s) && Ledger(s) && Balance(s, MUG) == 4
  {
    var s := TwoClaimsOneOrder();
    TwoRows(s.rows[0], s.rows[1], MUG, None, {Reserved});
    TwoRows(s.rows[0], s.rows[1], MUG, None, {Reserved, HoldState.Confirmed});
  }

  lemma BooksAfter(t: State)
    requires MUG in t.inv && t.inv[MUG].reserved == 0 && t.inv[MUG].stock == 4
    requires t.rows == [Row("twice", Released), Row("other", Reserved)]
    ensures Held(t.rows, "other", MUG) == 2 && Balance(t, MUG) == 6
  {
    TwoRows(t.rows[0], t.rows[1], MUG, Some("other"), {Reserved});
    TwoRows(t.rows[0], t.rows[1], MUG, None, {Reserved, HoldState.Confirmed});
  }

  lemma SweptTwice(s: State)
    requires s == TwoClaimsOneOrder()
    ensures var t := SweepClaims(s, [0, 1], 100, 50).0;
            && MUG in t.inv && t.inv[MUG].reserved == 0 && t.inv[MUG].stock == 4
            && t.rows == [Row("twice", Released), Row("other", Reserved)]
  {
    BothClaimsSwept(s, s.claims[0], s.claims[1], 100, 50);
    ActiveOfTwo(s.rows[0], s.rows[1], "twice");
    ReleasedPerClaim(s, "twice", [Ask(MUG, 2)]);
  }

  /** The sweep frees all four mugs although the other order still holds two of them: six mugs are promised or free. */
  lemma SecondStaleClaimFreesAnothersHold()
    ensures var s := TwoClaimsOneOrder();
            var t := SweepClaims(s, [0, 1], 100, 50).0;
            && StockOk(s) && Ledger(s)
            && MUG in t.inv && t.inv[MUG].reserved == 0 && t.inv[MUG].stock == 4
            && Held(t.rows, "other", MUG) == 2
            && Balance(s, MUG) == 4 && Balance(t, MUG) == 6
  {
    BooksBefore();
    SweptTwice(TwoClaimsOneOrder());
    BooksAfter(SweepClaims(TwoClaimsOneOrder(), [0, 1], 100, 50).0);
  }
}

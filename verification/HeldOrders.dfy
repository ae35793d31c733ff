/** An order that awaits payment is backed by its rows, so a webhook in time always settles it. */
module HeldOrders {
  import opened Tables
  import opened StockLedger
  import opened Holds
  import opened ReservationService
  import opened PaymentClaims
  import opened GatewayWebhook
  import opened EscalationService
  import opened SheetIngest
  import opened Shop
  import opened StockSafety

  predicate Awaits(s: State, o: OrderId) {
    o in s.orders && s.orders[o].status == AwaitingPayment
  }

  ghost predicate Backed(s: State, o: OrderId)
    requires o in s.orders
  {
    forall sku :: Demand(AsksOf(s.orders[o].lines), sku) <= Held(s.rows, o, sku)
  }

  ghost predicate AwaitingBacked(s: State) {
    forall o | o in s.orders && s.orders[o].status == AwaitingPayment :: Backed(s, o)
  }

  /** Only a reservation puts an order into AWAITING_PAYMENT, and nobody rewrites the lines of one that is. */
  ghost predicate RespectsAwaiting(s: State, step: Step) {
    step.WriteOrder? && step.written.status == AwaitingPayment ==>
      Awaits(s, step.order) && s.orders[step.order].lines == step.written.lines
  }

  ghost predicate RespectfulRun(s: State, steps: seq<Step>)
    decreases steps
  {
    steps == [] || (RespectsAwaiting(s, steps[0]) && RespectfulRun(Next(s, steps[0]), steps[1..]))
  }

  /** Every delivery that would be processed finds its order awaiting payment. */
  ghost predicate OnTime(s: State, step: Step) {
    step.Deliver? && Fresh(s, step.payload) ==> Awaits(s, step.payload.order)
  }

  ghost predicate OnTimeRun(s: State, steps: seq<Step>)
    decreases steps
  {
    steps == [] || (OnTime(s, steps[0]) && OnTimeRun(Next(s, steps[0]), steps[1..]))
  }

  lemma BackedIsCovered(s: State, o: OrderId)
    requires Positive(s) && o in s.orders && Backed(s, o)
    ensures Covered(s, o)
  {
    forall sku ensures Demand(AsksToSell(s.orders, s.rows, o), sku) <= Held(s.rows, o, sku) {
      ActiveAsksAddUp(s.rows, o, sku);
    }
  }

  // ---------- A covered order settles ----------

  /** A fresh webhook for an order whose rows cover its lines sells every line and never goes to reconciliation. */
  lemma HeldOrderSettles(s: State, p: Payload)
    requires StockOk(s) && Ledger(s) && Fresh(s, p) && Covered(s, p.order)
    ensures var asks, r := AsksToSell(s.orders, s.rows, p.order), Webhook(s, p);
            && r.1 == Received
            && r.0.orders[p.order].status == PaymentReceived
            && r.0.events[p.eventKey].decision == Settled
            && r.0.inv.Keys == s.inv.Keys
            && (forall sku | sku in s.inv ::
                 && r.0.inv[sku].stock == s.inv[sku].stock - Demand(asks, sku)
                 && r.0.inv[sku].reserved == s.inv[sku].reserved - Demand(asks, sku))
            && (forall a | a in asks :: a.sku in s.inv)
  {
    var asks := AsksToSell(s.orders, s.rows, p.order);
    SoldAsksPositive(s, p.order);
    forall a | a in asks ensures a.sku in s.inv && Demand(asks, a.sku) <= Headroom(Sell, s.inv[a.sku]) {
      DemandBounds(asks, a.sku);
      HeldBounds(s.rows, p.order, a.sku);
      if a.sku !in s.inv {
        NoRowsForStranger(s.rows, p.order, a.sku);
      }
    }
    ServedWholeIffFits(Sell, s.inv, asks);
  }

  // ---------- Awaiting orders stay backed ----------

  /** The order awaits in `t` as it did in `s`, with at least the same holds. */
  ghost predicate StillHeld(s: State, t: State, o: OrderId) {
    && Awaits(s, o) && Awaits(t, o) && s.orders[o].lines == t.orders[o].lines
    && forall sku :: Held(s.rows, o, sku) <= Held(t.rows, o, sku)
  }

  /** All orders awaiting in `t` were held in `s`. */
  ghost predicate NoNewAwaiting(s: State, t: State) {
    forall o :: Awaits(t, o) ==> StillHeld(s, t, o)
  }

  lemma MarkOfOthers(rows: seq<Reservation>, o: OrderId, p: OrderId, to: HoldState)
    requires o != p
    ensures forall sku :: Held(Mark(rows, p, to), o, sku) == Held(rows, o, sku)
  {
    forall sku ensures Held(Mark(rows, p, to), o, sku) == Held(rows, o, sku) {
      MarkMoves(rows, p, to, sku, Some(o), {Reserved});
    }
  }

  /** Marking one order's rows is harmless once that order awaits no longer. */
  lemma MarkedOrderLeft(s: State, t: State, p: OrderId, to: HoldState)
    requires t.rows == Mark(s.rows, p, to) && !Awaits(t, p)
    requires forall o | o != p :: (o in t.orders <==> o in s.orders) && (o in t.orders ==> t.orders[o] == s.orders[o])
    ensures NoNewAwaiting(s, t)
  {
    forall o | Awaits(t, o) ensures StillHeld(s, t, o) {
      MarkOfOthers(s.rows, o, p, to);
    }
  }

  lemma {:induction false} ExpireLeavesOthersHeld(s: State, locked: seq<OrderId>, now: int)
    ensures NoNewAwaiting(s, Expire(s, locked, now))
  {
    if locked != [] {
      var p, z := locked[..|locked|-1], locked[|locked|-1];
      ExpireLeavesOthersHeld(s, p, now);
      var t := Expire(s, p, now);
      if Overdue(t.orders, z, now) {
        MarkedOrderLeft(t, ExpireOne(t, z, now), z, Released);
      }
    }
  }

  lemma {:induction false} SweepLeavesOthersHeld(s: State, read: seq<Reservation>, owners: seq<Option<OrderId>>)
    ensures NoNewAwaiting(s, ReleaseStock(s, read, owners))
  {
    if owners != [] {
      var p, z := owners[..|owners|-1], owners[|owners|-1];
      SweepLeavesOthersHeld(s, read, p);
      var t := ReleaseStock(s, read, p);
      if Given(z) {
        MarkedOrderLeft(t, ReleaseClaimStock(t, read, z), z.value, Released);
      }
    }
  }

  lemma NewHoldsOnlyAdd(s: State, asks: seq<Ask>, holder: OrderId, expiresAt: int, o: OrderId, sku: Sku)
    requires PositiveAsks(asks)
    ensures Held(HoldAsks(s, asks, holder, expiresAt).rows, o, sku) ==
            Held(s.rows, o, sku) + (if holder == o then Demand(asks, sku) else 0)
    ensures Demand(asks, sku) >= 0
  {
    TotalSplits(s.rows, NewRows(asks, holder, expiresAt), sku, Some(o), {Reserved});
    NewRowsHold(asks, holder, expiresAt, sku, Some(o), {Reserved});
    DemandBounds(asks, sku);
  }

  lemma ReserveSkuLeavesHeld(s: State, step: Step)
    requires step.ReserveSku?
    ensures NoNewAwaiting(s, Next(s, step))
  {
    if Act(s, step).1 == Done {
      forall o | Awaits(s, o) ensures StillHeld(s, Next(s, step), o) {
        forall sku ensures Held(s.rows, o, sku) <= Held(Next(s, step).rows, o, sku) {
          NewHoldsOnlyAdd(s, [step.ask], step.holder, step.at + step.ttl, o, sku);
        }
      }
    }
  }

  /** After an order's lines are held, that order is backed by its own rows and the others as before. */
  lemma HoldingBacks(s: State, t: State, o: OrderId, expiresAt: int, q: OrderId)
    requires StockOk(s) && o in s.orders && PositiveAsks(AsksOf(s.orders[o].lines))
    requires t.rows == HoldAsks(s, AsksOf(s.orders[o].lines), o, expiresAt).rows
    requires q in s.orders && q in t.orders && t.orders[q].lines == s.orders[q].lines && (q == o || Backed(s, q))
    ensures Backed(t, q)
  {
    forall sku ensures Demand(AsksOf(t.orders[q].lines), sku) <= Held(t.rows, q, sku) {
      NewHoldsOnlyAdd(s, AsksOf(s.orders[o].lines), o, expiresAt, q, sku);
      HeldBounds(s.rows, q, sku);
    }
  }

  /** Every order that awaits after the reservation is backed. */
  lemma ReserveLinesBacks(s: State, step: Step)
    requires StockOk(s) && step.ReserveLines? && AwaitingBacked(s)
    ensures AwaitingBacked(Next(s, step))
  {
    var o, t := step.order, Next(s, step);
    if Act(s, step).1 == Done {
      DoneMeansHeld(s, o, step.at, step.ttl);
      forall q | q in t.orders && t.orders[q].status == AwaitingPayment ensures Backed(t, q) {
        HoldingBacks(s, t, o, step.at + step.ttl, q);
      }
    }
  }

  lemma SweepStepLeavesHeld(s: State, step: Step)
    requires step.SweepStale?
    ensures NoNewAwaiting(s, Next(s, step))
  {
    var t, u := Next(s, step), ReleaseStock(s, s.rows, StaleOwners(s.claims, step.lockedClaims, step.clock - step.ceiling));
    if Act(s, step).1 == Done {
      SweepLeavesOthersHeld(s, s.rows, StaleOwners(s.claims, step.lockedClaims, step.clock - step.ceiling));
      assert t.orders == u.orders && t.rows == u.rows;
      forall o | Awaits(t, o) ensures StillHeld(s, t, o) {
        assert Awaits(u, o);
      }
    }
  }

  lemma DeliverLeavesHeld(s: State, p: Payload)
    ensures NoNewAwaiting(s, Webhook(s, p).0)
  {
    if Webhook(s, p).1 == Received {
      MarkedOrderLeft(s, Webhook(s, p).0, p.order, HoldState.Confirmed);
    }
  }

  lemma ApproveLeavesHeld(s: State, o: OrderId)
    ensures NoNewAwaiting(s, Approve(s, o).0)
  {
    if o in s.orders {
      MarkedOrderLeft(s, Approve(s, o).0, o, HoldState.Confirmed);
    }
  }

  lemma RejectLeavesHeld(s: State, o: OrderId, clock: nat)
    ensures NoNewAwaiting(s, Reject(s, o, clock).0)
  {
    if Reject(s, o, clock).1 == Done {
      MarkedOrderLeft(s, Reject(s, o, clock).0, o, Released);
    }
  }

  lemma ClaimsLeaveHeld(s: State, key: Key, payer: Option<OrderId>, o: OrderId, now: int)
    ensures NoNewAwaiting(s, Trigger(s, key, payer, now).0)
    ensures NoNewAwaiting(s, ClaimPayment(s, key, o, Pending, now).0)
  {
  }

  lemma SyncLeavesHeld(s: State, sheet: seq<SheetRow>)
    ensures NoNewAwaiting(s, Sync(s, sheet).0)
  {
    MergeRowsKeepReserved(s, sheet);
  }

  lemma StepLeavesHeld(s: State, step: Step)
    requires !step.ReserveLines? && RespectsAwaiting(s, step)
    ensures NoNewAwaiting(s, Next(s, step))
  {
    match step
    case ReserveSku(_, _, _, _) => ReserveSkuLeavesHeld(s, step);
    case ExpireOverdue(locked, at) => ExpireLeavesOthersHeld(s, locked, at);
    case Deliver(p) => DeliverLeavesHeld(s, p);
    case PayTrigger(key, payer, at) => ClaimsLeaveHeld(s, key, payer, "", at);
    case ClaimSlip(key, o, at) => ClaimsLeaveHeld(s, key, None, o, at);
    case ApproveOrder(o) => ApproveLeavesHeld(s, o);
    case RejectOrder(o, clock) => RejectLeavesHeld(s, o, clock);
    case SweepStale(_, _, _) => SweepStepLeavesHeld(s, step);
    case SyncSheet(sheet) => SyncLeavesHeld(s, sheet);
    case WriteOrder(_, _) =>
  }

  lemma StepKeepsBacking(s: State, step: Step)
    requires StockOk(s) && AwaitingBacked(s) && RespectsAwaiting(s, step)
    ensures AwaitingBacked(Next(s, step))
  {
    if step.ReserveLines? {
      ReserveLinesBacks(s, step);
    } else {
      var t := Next(s, step);
      StepLeavesHeld(s, step);
      forall o | o in t.orders && t.orders[o].status == AwaitingPayment ensures Backed(t, o) {
        assert Awaits(t, o) && StillHeld(s, t, o) && Backed(s, o);
      }
    }
  }

  /**
   * In every run whose webhooks reach covered orders, the ledger holds, every awaiting order is backed and so covered,
   * and the next fresh webhook for a covered order settles it, whatever its status.
   */
  lemma {:induction false} PaidInTimeIsNeverLost(s: State, steps: seq<Step>, p: Payload)
    requires StockOk(s) && Ledger(s) && AwaitingBacked(s)
    requires SafeRun(s, steps) && RespectfulRun(s, steps) && CoveredRun(s, steps)
    ensures var t := Run(s, steps);
            && StockOk(t) && Ledger(t) && AwaitingBacked(t)
            && (Awaits(t, p.order) ==> Covered(t, p.order))
            && (Fresh(t, p) && Covered(t, p.order) ==> Webhook(t, p).1 == Received)
    decreases steps
  {
    if steps == [] {
      if Awaits(s, p.order) {
        BackedIsCovered(s, p.order);
      }
      if Fresh(s, p) && Covered(s, p.order) {
        HeldOrderSettles(s, p);
      }
    } else {
      StepSound(s, steps[0]);
      StepKeepsBacking(s, steps[0]);
      PaidInTimeIsNeverLost(Next(s, steps[0]), steps[1..], p);
    }
  }

  /** Webhooks that find their orders awaiting payment reach covered orders. */
  lemma {:induction false} OnTimeIsCovered(s: State, steps: seq<Step>)
    requires StockOk(s) && AwaitingBacked(s)
    requires SafeRun(s, steps) && RespectfulRun(s, steps) && OnTimeRun(s, steps)
    ensures CoveredRun(s, steps)
    decreases steps
  {
    if steps != [] {
      var step := steps[0];
      if step.Deliver? && Fresh(s, step.payload) {
        BackedIsCovered(s, step.payload.order);
      }
      StepSound(s, step);
      StepKeepsBacking(s, step);
      OnTimeIsCovered(Next(s, step), steps[1..]);
    }
  }

  /** In a run whose webhooks all find their orders awaiting payment, no awaiting order is lost. */
  lemma OnTimeLosesNothing(s: State, steps: seq<Step>, p: Payload)
    requires StockOk(s) && Ledger(s) && AwaitingBacked(s)
    requires SafeRun(s, steps) && RespectfulRun(s, steps) && OnTimeRun(s, steps)
    ensures var t := Run(s, steps);
            && StockOk(t) && Ledger(t) && AwaitingBacked(t)
            && (p.eventKey !in t.events && Awaits(t, p.order) ==> Webhook(t, p).1 == Received)
  {
    OnTimeIsCovered(s, steps);
    PaidInTimeIsNeverLost(s, steps, p);
  }
}

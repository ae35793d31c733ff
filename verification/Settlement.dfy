/** Webhooks settle exactly once per event key, and stock leaves only through settled events. */
module Settlement {
  import opened Tables
  import opened StockLedger
  import opened Holds
  import opened ReservationService
  import opened PaymentClaims
  import opened GatewayWebhook
  import opened EscalationService
  import opened SheetIngest
  import opened Shop

  // ---------- Repeated deliveries ----------

  /** The run without deliveries whose event key was delivered before. */
  function Deduplicated(steps: seq<Step>, seen: set<Key>): seq<Step>
    decreases steps
  {
    if steps == [] then []
    else if !steps[0].Deliver? then [steps[0]] + Deduplicated(steps[1..], seen)
    else if steps[0].payload.eventKey in seen then Deduplicated(steps[1..], seen)
    else [steps[0]] + Deduplicated(steps[1..], seen + {steps[0].payload.eventKey})
  }

  /** A delivery adds its key unless it is there, and decides it CONFIRMED exactly when it settles. */
  lemma WebhookAddsItsEvent(s: State, p: Payload)
    ensures var r := Webhook(s, p);
            && p.eventKey in r.0.events
            && (forall k | k in s.events :: k in r.0.events && r.0.events[k] == s.events[k])
            && (forall k | k in r.0.events && k !in s.events ::
                  k == p.eventKey && (r.0.events[k].decision == Settled <==> r.1 == Received))
  {
  }

  lemma TriggerSettlesNothing(s: State, key: Key, payer: Option<OrderId>, at: int)
    ensures var t := Trigger(s, key, payer, at).0;
            && (forall k | k in s.events :: k in t.events && t.events[k] == s.events[k])
            && (forall k | k in t.events && k !in s.events :: t.events[k].decision != Settled)
  {
  }

  lemma OthersKeepEvents(s: State, step: Step)
    requires !step.Deliver? && !step.PayTrigger?
    ensures Next(s, step).events == s.events
  {
    match step
    case ExpireOverdue(locked, at) => ExpireKeepsEvents(s, locked, at);
    case SweepStale(locked, clock, ceiling) =>
      SweepKeepsEvents(s, s.rows, StaleOwners(s.claims, locked, clock - ceiling));
    case SyncSheet(sheet) => MergeRowsKeepReserved(s, sheet);
    case _ =>
  }

  /** Events are only ever added, and a delivery always leaves its key behind. */
  lemma {:induction false} EventsStay(s: State, step: Step)
    ensures forall k | k in s.events :: k in Next(s, step).events && Next(s, step).events[k] == s.events[k]
    ensures step.Deliver? ==> step.payload.eventKey in Next(s, step).events
    ensures forall k | k in Next(s, step).events && k !in s.events ::
              Next(s, step).events[k].decision == Settled <==>
              step.Deliver? && step.payload.eventKey == k && Act(s, step).1 == Received
  {
    if step.Deliver? {
      WebhookAddsItsEvent(s, step.payload);
    } else if step.PayTrigger? {
      TriggerSettlesNothing(s, step.key, step.payer, step.at);
    } else {
      OthersKeepEvents(s, step);
    }
  }

  lemma {:induction false} ExpireKeepsEvents(s: State, locked: seq<OrderId>, now: int)
    ensures Expire(s, locked, now).events == s.events
  {
    if locked != [] {
      ExpireKeepsEvents(s, locked[..|locked|-1], now);
    }
  }

  lemma {:induction false} SweepKeepsEvents(s: State, read: seq<Reservation>, owners: seq<Option<OrderId>>)
    ensures ReleaseStock(s, read, owners).events == s.events
  {
    if owners != [] {
      SweepKeepsEvents(s, read, owners[..|owners|-1]);
    }
  }

  /** Removing later deliveries of a seen event key changes nothing about the run. */
  lemma {:induction false} RepeatsAreIdle(s: State, steps: seq<Step>, seen: set<Key>)
    requires seen <= s.events.Keys
    ensures Run(s, Deduplicated(steps, seen)) == Run(s, steps)
    decreases steps
  {
    if steps != [] {
      var step, rest := steps[0], steps[1..];
      EventsStay(s, step);
      if !step.Deliver? {
        RepeatsAreIdle(Next(s, step), rest, seen);
      } else if step.payload.eventKey in seen {
        assert Next(s, step) == s;
        RepeatsAreIdle(s, rest, seen);
      } else {
        RepeatsAreIdle(Next(s, step), rest, seen + {step.payload.eventKey});
      }
    }
  }

  // ---------- Where stock goes ----------

  ghost predicate Settles(s: State, step: Step) {
    step.Deliver? && Act(s, step).1 == Received
  }

  /** What one step sells: the lines of the order behind a settled event. */
  ghost function Sold(s: State, step: Step, sku: Sku): int {
    if step.Deliver? && step.payload.order in s.orders && Settles(s, step)
    then Demand(AsksToSell(s.orders, s.rows, step.payload.order), sku) else 0
  }

  ghost function SoldIn(s: State, steps: seq<Step>, sku: Sku): int
    decreases steps
  {
    if steps == [] then 0 else Sold(s, steps[0], sku) + SoldIn(Next(s, steps[0]), steps[1..], sku)
  }

  /** The event keys behind the sales of a run, in order. */
  ghost function SettledKeys(s: State, steps: seq<Step>): seq<Key>
    decreases steps
  {
    if steps == [] then []
    else
      var rest := SettledKeys(Next(s, steps[0]), steps[1..]);
      if Settles(s, steps[0]) then [steps[0].payload.eventKey] + rest else rest
  }

  ghost predicate SameLevels(s: State, t: State) {
    forall sku :: StockOf(t, sku) == StockOf(s, sku)
  }

  /** Releases change no stock, whichever of them miss. */
  lemma {:induction false} FreeAllKeepsStock(inv: Inventory, asks: seq<Ask>)
    ensures FreeAll(inv, asks).Keys == inv.Keys
    ensures forall sku | sku in inv :: FreeAll(inv, asks)[sku].stock == inv[sku].stock
  {
    if asks != [] {
      FreeAllKeepsStock(inv, asks[..|asks|-1]);
    }
  }

  lemma ReleaseKeepsLevels(s: State, o: OrderId)
    ensures SameLevels(s, ReleaseOrder(s, o))
  {
    FreeAllKeepsStock(s.inv, ActiveAsks(s.rows, o));
  }

  lemma {:induction false} ExpireKeepsLevels(s: State, locked: seq<OrderId>, now: int)
    ensures SameLevels(s, Expire(s, locked, now))
  {
    if locked != [] {
      var p := locked[..|locked|-1];
      ExpireKeepsLevels(s, p, now);
      ReleaseKeepsLevels(Expire(s, p, now), locked[|locked|-1]);
    }
  }

  lemma {:induction false} SweepKeepsLevels(s: State, read: seq<Reservation>, owners: seq<Option<OrderId>>)
    ensures SameLevels(s, ReleaseStock(s, read, owners))
  {
    if owners != [] {
      var p, z := owners[..|owners|-1], owners[|owners|-1];
      SweepKeepsLevels(s, read, p);
      if Given(z) {
        FreeAllKeepsStock(ReleaseStock(s, read, p).inv, ActiveAsks(read, z.value));
      }
    }
  }

  lemma {:induction false} UnaskedIsNotDemanded(asks: seq<Ask>, sku: Sku)
    requires forall a | a in asks :: a.sku != sku
    ensures Demand(asks, sku) == 0
  {
    if asks != [] {
      UnaskedIsNotDemanded(asks[..|asks|-1], sku);
    }
  }

  /** A batch served whole names only SKUs of the inventory. */
  lemma {:induction false} ServedWholeIsKnown(op: Op, inv: Inventory, asks: seq<Ask>)
    requires Served(op, inv, asks) == |asks|
    ensures forall a | a in asks :: a.sku in inv
  {
    if asks != [] {
      var n := |asks| - 1;
      ServedWholeIsKnown(op, inv, asks[..n]);
      assert asks == asks[..n] + [asks[n]];
      assert Hit(op, inv, asks, n);
    }
  }

  lemma SettleSells(s: State, p: Payload, asks: seq<Ask>, sku: Sku)
    requires p.order in s.orders && Served(Sell, s.inv, asks) == |asks|
    ensures StockOf(Settle(s, p, asks), sku) == StockOf(s, sku) - Demand(asks, sku)
  {
    ServedWholeIsKnown(Sell, s.inv, asks);
    if sku !in s.inv {
      UnaskedIsNotDemanded(asks, sku);
    }
  }

  /** A webhook takes out exactly what it sells. */
  lemma WebhookSells(s: State, p: Payload, sku: Sku)
    ensures StockOf(Webhook(s, p).0, sku) == StockOf(s, sku) - Sold(s, Deliver(p), sku)
  {
    if Webhook(s, p).1 == Received {
      SettleSells(s, p, AsksToSell(s.orders, s.rows, p.order), sku);
    }
  }

  lemma ReservingKeepsLevels(s: State, step: Step)
    requires step.ReserveSku? || step.ReserveLines?
    ensures SameLevels(s, Next(s, step))
  {
  }

  /** Stock moves only by what the step supplies and sells. */
  lemma StockMoves(s: State, step: Step, sku: Sku)
    ensures StockOf(Next(s, step), sku) == StockOf(s, sku) + Supplied(s, step, sku) - Sold(s, step, sku)
  {
    match step
    case ReserveSku(_, _, _, _) => ReservingKeepsLevels(s, step);
    case ReserveLines(_, _, _) => ReservingKeepsLevels(s, step);
    case ExpireOverdue(locked, at) => ExpireKeepsLevels(s, locked, at);
    case RejectOrder(o, _) => ReleaseKeepsLevels(s, o);
    case SweepStale(locked, clock, ceiling) => SweepKeepsLevels(s, s.rows, StaleOwners(s.claims, locked, clock - ceiling));
    case Deliver(p) => WebhookSells(s, p, sku);
    case _ =>
  }

  // ---------- Quantities stay positive ----------

  lemma {:induction false} ExpireKeepsPositive(s: State, locked: seq<OrderId>, now: int)
    requires Positive(s)
    ensures Positive(Expire(s, locked, now))
  {
    if locked != [] {
      var t := Expire(s, locked[..|locked|-1], now);
      ExpireKeepsPositive(s, locked[..|locked|-1], now);
      MarkKeepsPositive(t.rows, locked[|locked|-1], Released);
    }
  }

  lemma {:induction false} SweepKeepsPositive(s: State, read: seq<Reservation>, owners: seq<Option<OrderId>>)
    requires Positive(s)
    ensures Positive(ReleaseStock(s, read, owners))
  {
    if owners != [] {
      var p, z := owners[..|owners|-1], owners[|owners|-1];
      SweepKeepsPositive(s, read, p);
      if Given(z) {
        MarkKeepsPositive(ReleaseStock(s, read, p).rows, z.value, Released);
      }
    }
  }

  lemma NewRowsArePositive(s: State, asks: seq<Ask>, o: OrderId, expiresAt: int)
    requires Positive(s) && PositiveAsks(asks)
    ensures Positive(HoldAsks(s, asks, o, expiresAt))
  {
    forall r | r in NewRows(asks, o, expiresAt) ensures r.qty >= 1 {
      var i :| 0 <= i < |asks| && NewRows(asks, o, expiresAt)[i] == r;
      assert asks[i] in asks;
    }
  }

  lemma ReservingKeepsPositive(s: State, step: Step)
    requires Positive(s) && (step.ReserveSku? || step.ReserveLines?)
    ensures Positive(Next(s, step))
  {
    if Act(s, step).1 == Done {
      if step.ReserveSku? {
        NewRowsArePositive(s, [step.ask], step.holder, step.at + step.ttl);
      } else {
        AsksOfPositive(s.orders[step.order].lines);
        NewRowsArePositive(s, AsksOf(s.orders[step.order].lines), step.order, step.at + step.ttl);
      }
    }
  }

  lemma WebhookKeepsPositive(s: State, p: Payload)
    requires Positive(s)
    ensures Positive(Webhook(s, p).0)
  {
    MarkKeepsPositive(s.rows, p.order, HoldState.Confirmed);
  }

  lemma ReviewKeepsPositive(s: State, o: OrderId, clock: nat)
    requires Positive(s)
    ensures Positive(Approve(s, o).0) && Positive(Reject(s, o, clock).0)
  {
    MarkKeepsPositive(s.rows, o, HoldState.Confirmed);
    MarkKeepsPositive(s.rows, o, Released);
  }

  lemma PositiveStays(s: State, step: Step)
    requires Positive(s) && PositiveWrite(step)
    ensures Positive(Next(s, step))
  {
    match step
    case ReserveSku(_, _, _, _) => ReservingKeepsPositive(s, step);
    case ReserveLines(_, _, _) => ReservingKeepsPositive(s, step);
    case ExpireOverdue(locked, at) => ExpireKeepsPositive(s, locked, at);
    case Deliver(p) => WebhookKeepsPositive(s, p);
    case ApproveOrder(o) => ReviewKeepsPositive(s, o, 0);
    case RejectOrder(o, clock) => ReviewKeepsPositive(s, o, clock);
    case SweepStale(locked, clock, ceiling) =>
      SweepKeepsPositive(s, s.rows, StaleOwners(s.claims, locked, clock - ceiling));
    case SyncSheet(sheet) => MergeRowsKeepReserved(s, sheet);
    case _ =>
  }

  /** In every run whose written lines have positive quantities, all stored quantities stay positive. */
  lemma {:induction false} PositiveLasts(s: State, steps: seq<Step>)
    requires Positive(s) && forall step | step in steps :: PositiveWrite(step)
    ensures Positive(Run(s, steps))
    decreases steps
  {
    if steps != [] {
      PositiveStays(s, steps[0]);
      PositiveLasts(Next(s, steps[0]), steps[1..]);
    }
  }

  // ---------- Exactly once ----------

  /**
   * Exactly-once settlement: over any run at all, stock drops by exactly the lines of the orders behind settled events;
   * no event key settles twice; and the keys that settled are the new events decided CONFIRMED.
   */
  lemma {:induction false} SettledOncePerEvent(s: State, steps: seq<Step>, sku: Sku)
    ensures StockOf(Run(s, steps), sku) == StockOf(s, sku) + SuppliedIn(s, steps, sku) - SoldIn(s, steps, sku)
    ensures var keys := SettledKeys(s, steps);
            && (forall i, j | 0 <= i < j < |keys| :: keys[i] != keys[j])
            && (forall k :: k in keys <==> k !in s.events && k in Run(s, steps).events && Run(s, steps).events[k].decision == Settled)
            && (forall k | k in s.events :: k in Run(s, steps).events && Run(s, steps).events[k] == s.events[k])
    decreases steps
  {
    if steps != [] {
      var step, t := steps[0], Next(s, steps[0]);
      StockMoves(s, step, sku);
      EventsStay(s, step);
      SettledOncePerEvent(t, steps[1..], sku);
    }
  }
}

/** What each call on payments and orders leaves behind, column by column, and what that means for later runs. */
module CallEffects {
  import opened Tables
  import opened Text
  import opened StockLedger
  import opened Holds
  import opened ReservationService
  import opened PaymentClaims
  import opened GatewayWebhook
  import opened EscalationService
  import opened Shop
  import opened StockSafety
  import opened ClaimHistory
  import opened SlipVerification

  /** Rows of the order that were RESERVED are now in another state, and no other row has changed. */
  ghost predicate RowsMoved(before: seq<Reservation>, after: seq<Reservation>, o: OrderId, to: HoldState) {
    && |after| == |before|
    && forall i | 0 <= i < |before| ::
         after[i] == if before[i].order == o && before[i].state == Reserved then before[i].(state := to) else before[i]
  }

  /** PENDING claims of the order are now CONFIRMED, and no other claim has changed. */
  ghost predicate ClaimsConfirmed(before: seq<Claim>, after: seq<Claim>, o: OrderId) {
    && |after| == |before|
    && forall i | 0 <= i < |before| ::
         after[i] == if before[i].order == Some(o) && before[i].state == Pending then before[i].(state := Consumed) else before[i]
  }

  /** Every SKU's stock and reserved have dropped by what the order's lines, or its held rows if it has none, ask for. */
  ghost predicate LinesSold(s: State, after: Inventory, o: OrderId)
    requires o in s.orders
  {
    && after.Keys == s.inv.Keys
    && forall sku | sku in s.inv ::
         var sold := if s.orders[o].lines != [] then Demand(AsksOf(s.orders[o].lines), sku) else Held(s.rows, o, sku);
         after[sku] == s.inv[sku].(stock := s.inv[sku].stock - sold, reserved := s.inv[sku].reserved - sold,
                                   version := after[sku].version)
  }

  // ---------- The webhook ----------

  lemma UnprocessedWebhookLeaves(s: State, p: Payload)
    ensures var r := Webhook(s, p);
            && (r.1 == Duplicate <==> p.eventKey in s.events)
            && (r.1 == Duplicate ==> r.0 == s)
            && (r.1 == NoSuchOrder <==> p.eventKey !in s.events && p.order !in s.orders)
            && (r.1 == NoSuchOrder ==> r.0 == s.(events := s.events[p.eventKey := Event(Some(p.order), UnknownOrder)]))
            && (r.1 == Duplicate || r.1 == NoSuchOrder || r.1 == Received || r.1.Reconcile?)
  {
  }

  /** A settled order is paid, its claims and rows are confirmed, its lines sold and the event recorded; nothing else moves. */
  lemma SettledWebhookLeaves(s: State, p: Payload)
    requires Webhook(s, p).1 == Received
    ensures p.order in s.orders
    ensures var t := Webhook(s, p).0;
            && t == s.(inv := t.inv, rows := t.rows, orders := t.orders, claims := t.claims, events := t.events)
            && LinesSold(s, t.inv, p.order)
            && RowsMoved(s.rows, t.rows, p.order, HoldState.Confirmed)
            && ClaimsConfirmed(s.claims, t.claims, p.order)
            && t.events == s.events[p.eventKey := Event(Some(p.order), Settled)]
            && t.orders == s.orders[p.order := s.orders[p.order].(
                 status := PaymentReceived, ttl := None, approval := AutoConfirmed,
                 paymentRef := if p.paymentRef.Some? && p.paymentRef.value != "" then p.paymentRef
                               else if p.transactionId.Some? && p.transactionId.value != "" then p.transactionId
                               else s.orders[p.order].paymentRef)]
  {
    forall sku ensures Demand(ActiveAsks(s.rows, p.order), sku) == Held(s.rows, p.order, sku) {
      ActiveAsksAddUp(s.rows, p.order, sku);
    }
  }

  /** An order sent to reconciliation says so; the stock, the rows and the claims stay as they were. */
  lemma UnsettledWebhookLeaves(s: State, p: Payload)
    requires Webhook(s, p).1.Reconcile?
    ensures p.order in s.orders
    ensures var t := Webhook(s, p).0;
            t == s.(
              orders := s.orders[p.order := s.orders[p.order].(
                 status := PaymentReconcile, ttl := None, approval := ReconcileRequired,
                 paymentRef := if p.paymentRef.Some? && p.paymentRef.value != "" then p.paymentRef
                               else if p.transactionId.Some? && p.transactionId.value != "" then p.transactionId
                               else s.orders[p.order].paymentRef)],
              events := s.events[p.eventKey := Event(Some(p.order), SentToReconcile)])
  {
  }

  lemma FitsIsCovered(inv: Inventory, asks: seq<Ask>)
    ensures Fits(Sell, inv, asks) <==> AllCovered(inv, asks)
  {
  }

  lemma ReconciledReply(s: State, p: Payload) returns (k: nat)
    requires Webhook(s, p).1.Reconcile?
    ensures p.order in s.orders
    ensures var asks := AsksToSell(s.orders, s.rows, p.order);
            k == Served(Sell, s.inv, asks) < |asks| && Webhook(s, p).1 == Reconcile(asks[k].sku, asks[k].qty)
  {
    k := Served(Sell, s.inv, AsksToSell(s.orders, s.rows, p.order));
  }

  /** Reconciliation names the first line with which the totals are no longer covered by stock and reserved. */
  lemma ReconciledAtItsLine(s: State, p: Payload) returns (k: nat)
    requires Positive(s) && Webhook(s, p).1.Reconcile?
    ensures p.order in s.orders
    ensures var asks := AsksToSell(s.orders, s.rows, p.order);
            && k < |asks| && Webhook(s, p).1 == Reconcile(asks[k].sku, asks[k].qty)
            && AllCovered(s.inv, asks[..k]) && !AllCovered(s.inv, asks[..k+1])
  {
    k := ReconciledReply(s, p);
    var asks := AsksToSell(s.orders, s.rows, p.order);
    SoldAsksPositive(s, p.order);
    ServedStopsWhereNothingFits(Sell, s.inv, asks, k);
    FitsIsCovered(s.inv, asks[..k]);
    FitsIsCovered(s.inv, asks[..k+1]);
  }

  // ---------- Review ----------

  lemma ApprovalLeaves(s: State, o: OrderId)
    ensures var r := Approve(s, o);
            if o !in s.orders then r == (s, NoSuchOrder)
            else
              && r.1 == Done && r.0 == s.(rows := r.0.rows, orders := r.0.orders, claims := r.0.claims)
              && RowsMoved(s.rows, r.0.rows, o, HoldState.Confirmed)
              && ClaimsConfirmed(s.claims, r.0.claims, o)
              && r.0.orders == s.orders[o := s.orders[o].(status := PaymentReceived, ttl := None, approval := Approved)]
  {
  }

  /** The claims of the table at `ids` carry the archived form of their keys, and no other claim has changed. */
  ghost predicate ClaimsArchived(before: seq<Claim>, after: seq<Claim>, ids: set<nat>, now: nat) {
    && |after| == |before|
    && forall i: nat | i < |before| ::
         after[i] == if i in ids
                     then before[i].(key := "RELEASED:" + before[i].key + ":" + Digits(now), state := Archived)
                     else before[i]
  }

  /** A rejection archives the order's PENDING claims, releases its RESERVED rows and cancels it, or does nothing. */
  lemma RejectionLeaves(s: State, o: OrderId, now: nat, pending: set<nat>)
    requires forall i: nat :: i in pending <==> i < |s.claims| && s.claims[i].order == Some(o) && s.claims[i].state == Pending
    ensures var r := Reject(s, o, now);
            && (r.1 == NoSuchOrder <==> o !in s.orders)
            && (r.1 == NoSuchOrder || r.1 == KeyConflict || r.1 == Done)
            && (r.1 != Done ==> r.0 == s)
            && (r.1 == Done ==>
                 && r.0 == s.(inv := r.0.inv, rows := r.0.rows, orders := r.0.orders, claims := r.0.claims)
                 && RowsMoved(s.rows, r.0.rows, o, Released)
                 && ClaimsArchived(s.claims, r.0.claims, pending, now)
                 && r.0.orders == s.orders[o := s.orders[o].(status := Cancelled, ttl := None, approval := Rejected)])
  {
    assert pending == PendingRows(s.claims, o);
    if Reject(s, o, now).1 == Done {
      ArchiveRewrites(s.claims, pending, now, 0);
    }
  }

  /** Under the ledger a rejection frees exactly what the order held. */
  lemma RejectionFrees(s: State, o: OrderId, now: nat, sku: Sku)
    requires StockOk(s) && Ledger(s) && Reject(s, o, now).1 == Done && sku in s.inv
    ensures var t := Reject(s, o, now).0;
            && t.inv.Keys == s.inv.Keys
            && t.inv[sku] == s.inv[sku].(reserved := s.inv[sku].reserved - Held(s.rows, o, sku), version := t.inv[sku].version)
  {
    NoReleaseMisses(s, o);
    ActiveAsksAddUp(s.rows, o, sku);
  }

  // ---------- The claim sweep ----------

  /** An order stands behind one of the claims at `ids`. */
  ghost predicate Behind(claims: seq<Claim>, ids: set<nat>, o: OrderId) {
    o != "" && exists i :: i in ids && i < |claims| && claims[i].order == Some(o)
  }

  /** The order as a sweep leaves it: cancelled if it waited for payment, for the seller or for verification. */
  ghost predicate SweptOrder(before: Order, after: Order, met: bool) {
    after ==
    if met && (before.status == AwaitingPayment || before.status == AwaitingSellerApproval || before.status == PaymentVerifying)
    then before.(status := Cancelled, ttl := None, approval := ReleasedHardCeiling)
    else before
  }

  ghost predicate SweptRow(before: Reservation, after: Reservation, met: bool) {
    after == if met && before.state == Reserved then before.(state := Released) else before
  }

  predicate Owned(owners: seq<Option<OrderId>>, o: OrderId) {
    o != "" && Some(o) in owners
  }

  lemma ReleaseLeaves(s: State, read: seq<Reservation>, owner: Option<OrderId>)
    ensures var t := ReleaseClaimStock(s, read, owner);
            && t == s.(inv := t.inv, rows := t.rows, orders := t.orders)
            && t.orders.Keys == s.orders.Keys
            && (forall o | o in s.orders :: SweptOrder(s.orders[o], t.orders[o], o != "" && owner == Some(o)))
            && |t.rows| == |s.rows|
            && (forall i | 0 <= i < |s.rows| ::
                 SweptRow(s.rows[i], t.rows[i], s.rows[i].order != "" && owner == Some(s.rows[i].order)))
  {
  }

  /** What the releases of a sweep leave of the orders and of the rows; `owners` are those of the stale claims. */
  lemma {:induction false} ReleasesLeave(s: State, read: seq<Reservation>, owners: seq<Option<OrderId>>)
    ensures var t := ReleaseStock(s, read, owners);
            && t == s.(inv := t.inv, rows := t.rows, orders := t.orders)
            && t.orders.Keys == s.orders.Keys
            && (forall o | o in s.orders :: SweptOrder(s.orders[o], t.orders[o], Owned(owners, o)))
            && |t.rows| == |s.rows|
            && (forall i | 0 <= i < |s.rows| :: SweptRow(s.rows[i], t.rows[i], Owned(owners, s.rows[i].order)))
  {
    if owners != [] {
      var p, z := owners[..|owners|-1], owners[|owners|-1];
      assert owners == p + [z];
      ReleasesLeave(s, read, p);
      ReleaseLeaves(ReleaseStock(s, read, p), read, z);
    }
  }

  lemma StaleOwnersAre(claims: seq<Claim>, locked: seq<nat>, cutoff: int, stale: set<nat>, o: OrderId)
    requires forall i :: i in stale <==> i in locked && i < |claims| && claims[i].state == Pending && claims[i].consumedAt < cutoff
    ensures Owned(StaleOwners(claims, locked, cutoff), o) <==> Behind(claims, stale, o)
    ensures IdSet(StaleAmong(claims, locked, cutoff)) == stale
  {
    var ids := StaleAmong(claims, locked, cutoff);
    var owners := StaleOwners(claims, locked, cutoff);
    StaleAmongInRange(claims, locked, cutoff);
    forall i: nat ensures i in ids <==> i in stale {
      StaleAmongIsStale(claims, locked, cutoff, i);
    }
    if Behind(claims, stale, o) {
      var i :| i in stale && i < |claims| && claims[i].order == Some(o);
      var k :| 0 <= k < |ids| && ids[k] == i;
      assert owners[k] == Some(o);
    }
    if Owned(owners, o) {
      var k :| 0 <= k < |owners| && owners[k] == Some(o);
      assert ids[k] in stale && claims[ids[k]].order == Some(o);
    }
  }

  /**
   * A sweep archives exactly the PENDING claims it locked that are older than the ceiling, releases the RESERVED rows of
   * the orders behind them and cancels those that still waited, or does nothing when an archived key is in use.
   */
  lemma SweepLeaves(s: State, locked: seq<nat>, now: nat, ceiling: nat, stale: set<nat>)
    requires forall i :: i in stale <==>
               i in locked && i < |s.claims| && s.claims[i].state == Pending && s.claims[i].consumedAt < now - ceiling
    ensures var r := SweepClaims(s, locked, now, ceiling);
            && (r.1 == Done || r == (s, KeyConflict))
            && (r.1 == Done ==>
                 && r.0 == s.(inv := r.0.inv, rows := r.0.rows, orders := r.0.orders, claims := r.0.claims)
                 && ClaimsArchived(s.claims, r.0.claims, stale, now)
                 && r.0.orders.Keys == s.orders.Keys
                 && (forall o | o in s.orders :: SweptOrder(s.orders[o], r.0.orders[o], Behind(s.claims, stale, o)))
                 && |r.0.rows| == |s.rows|
                 && (forall k | 0 <= k < |s.rows| ::
                      SweptRow(s.rows[k], r.0.rows[k], Behind(s.claims, stale, s.rows[k].order))))
  {
    StaleOwnersAre(s.claims, locked, now - ceiling, stale, "");
    ReleasesLeave(s, s.rows, StaleOwners(s.claims, locked, now - ceiling));
    if SweepClaims(s, locked, now, ceiling).1 == Done {
      ArchiveRewrites(s.claims, stale, now, 0);
      forall o ensures Owned(StaleOwners(s.claims, locked, now - ceiling), o) <==> Behind(s.claims, stale, o) {
        StaleOwnersAre(s.claims, locked, now - ceiling, stale, o);
      }
    }
  }

  /** The sweep reports the keys of the claims it archived, as they were, and no other. */
  lemma SweepReports(claims: seq<Claim>, locked: seq<nat>, cutoff: int, stale: set<nat>, key: Key)
    requires forall i :: i in stale <==> i in locked && i < |claims| && claims[i].state == Pending && claims[i].consumedAt < cutoff
    ensures key in KeysOf(claims, StaleAmong(claims, locked, cutoff)) <==> exists i :: i in stale && claims[i].key == key
  {
    var ids := StaleAmong(claims, locked, cutoff);
    var keys := KeysOf(claims, ids);
    StaleAmongInRange(claims, locked, cutoff);
    forall i: nat ensures i in ids <==> i in stale {
      StaleAmongIsStale(claims, locked, cutoff, i);
    }
    if i :| i in stale && claims[i].key == key {
      var k :| 0 <= k < |ids| && ids[k] == i;
      assert keys[k] == key;
    }
    if key in keys {
      var k :| 0 <= k < |keys| && keys[k] == key;
      assert ids[k] in stale;
    }
  }

  // ---------- References ----------

  /** A slip's reference, without the blanks around it, is recorded once. */
  lemma ClaimLeaves(s: State, key: Key, o: OrderId, state: ClaimState, now: int)
    ensures var k, r := Strip(key), ClaimPayment(s, key, o, state, now);
            && (r.1 == EmptyKey <==> k == "")
            && (r.1 == Duplicate <==> k != "" && exists i :: 0 <= i < |s.claims| && s.claims[i].key == k)
            && (r.1 == EmptyKey || r.1 == Duplicate || r.1 == Done)
            && r.0 == if r.1 == Done then s.(claims := s.claims + [Claim(k, Some(o), state, now)]) else s
  {
  }

  /** A trigger records its reference as CONFIRMED and one event, and takes an awaiting order to PAYMENT_RECEIVED. */
  lemma TriggerLeaves(s: State, key: Key, payer: Option<OrderId>, now: int)
    ensures var k, r := Strip(key), Trigger(s, key, payer, now);
            && (r.1 == EmptyKey <==> k == "")
            && (r.1 == Duplicate <==> k != "" && exists i :: 0 <= i < |s.claims| && s.claims[i].key == k)
            && (r.1 == EmptyKey || r.1 == Duplicate || r.1 == Done)
            && (r.1 != Done ==> r.0 == s)
            && (r.1 == Done ==>
                 && r.0 == s.(claims := s.claims + [Claim(k, payer, Consumed, now)], events := r.0.events, orders := r.0.orders)
                 && r.0.events == (if "evt_" + k in s.events then s.events else s.events["evt_" + k := Event(payer, Undecided)])
                 && r.0.orders.Keys == s.orders.Keys
                 && forall o | o in s.orders ::
                      r.0.orders[o] == if payer == Some(o) && o != "" && s.orders[o].status == AwaitingPayment
                                       then s.orders[o].(status := PaymentReceived, ttl := None) else s.orders[o])
  {
  }

  // ---------- A paid order's references ----------

  /** The step pays the order: its webhook settles it, or the seller approves it. */
  ghost predicate Pays(s: State, step: Step, o: OrderId) {
    || (step.Deliver? && step.payload.order == o && Act(s, step).1 == Received)
    || (step.ApproveOrder? && step.order == o && o in s.orders)
  }

  /**
   * Once an order has settled or was approved, a reference that was pending for it keeps its key and its order for ever:
   * no later slip or trigger consumes it, whatever is swept or rejected in between.
   */
  lemma PaidReferenceIsSpent(s: State, step: Step, steps: seq<Step>, i: nat, raw: Key, o: OrderId, other: OrderId, now: int)
    requires Pays(s, step, o)
    requires i < |s.claims| && s.claims[i].order == Some(o) && s.claims[i].state == Pending && Strip(raw) == s.claims[i].key
    ensures var t := Run(Next(s, step), steps);
            && i < |t.claims| && t.claims[i] == s.claims[i].(state := Consumed)
            && ClaimPayment(t, raw, other, Pending, now).0 == t && ClaimPayment(t, raw, other, Pending, now).1 != Done
            && Trigger(t, raw, Some(other), now).0 == t && Trigger(t, raw, Some(other), now).1 != Done
  {
    if step.Deliver? {
      SettledWebhookLeaves(s, step.payload);
    } else {
      ApprovalLeaves(s, o);
    }
    ConfirmedReferenceIsSpent(Next(s, step), steps, i, raw, other, now);
  }

  /**
   * One slip pays one order: once the claim of a passed slip belongs to an order that settled or was approved, the same
   * reference shown again, for whatever order and at whatever later time, is never accepted.
   */
  lemma SlipPaysOnce(s: State, step: Step, steps: seq<Step>, i: nat, o: OrderId, other: OrderId, now: int,
                     slip: Slip, terms: Terms, again: Slip, others: Terms)
    requires Pays(s, step, o) && Verify(slip, terms).Passed? && Verify(again, others).Passed?
    requires slip.transRef != "" && again.transRef == slip.transRef
    requires i < |s.claims| && s.claims[i] == Claim(Strip(Verify(slip, terms).claimKey), Some(o), Pending, s.claims[i].consumedAt)
    ensures var t := Run(Next(s, step), steps);
            && ClaimPayment(t, Verify(again, others).claimKey, other, Pending, now).0 == t
            && ClaimPayment(t, Verify(again, others).claimKey, other, Pending, now).1 != Done
  {
    OneReferenceOneKey(slip, terms, again, others);
    PaidReferenceIsSpent(s, step, steps, i, Verify(again, others).claimKey, o, other, now);
  }
}

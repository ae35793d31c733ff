/** Which deliveries for a covered order settle it: those whose event key no earlier call has recorded. */
module EventKeys {
  import opened Tables
  import opened Text
  import opened PaymentClaims
  import opened GatewayWebhook
  import opened Shop
  import opened StockSafety
  import opened HeldOrders
  import opened Settlement

  /** The event key one step leaves behind: a delivery's own, or that of a trigger that was accepted. */
  ghost function RecordedBy(s: State, step: Step): set<Key> {
    if step.Deliver? then {step.payload.eventKey}
    else if step.PayTrigger? && Act(s, step).1 == Done then {TriggerEventKey(Strip(step.key))}
    else {}
  }

  ghost function RecordedKeys(s: State, steps: seq<Step>): set<Key>
    decreases steps
  {
    if steps == [] then {} else RecordedBy(s, steps[0]) + RecordedKeys(Next(s, steps[0]), steps[1..])
  }

  lemma TriggerRecords(s: State, key: Key, payer: Option<OrderId>, at: int)
    ensures var t := Trigger(s, key, payer, at);
            t.0.events.Keys == s.events.Keys + if t.1 == Done then {TriggerEventKey(Strip(key))} else {}
  {
  }

  lemma WebhookRecords(s: State, p: Payload)
    ensures Webhook(s, p).0.events.Keys == s.events.Keys + {p.eventKey}
  {
    WebhookAddsItsEvent(s, p);
  }

  lemma StepRecords(s: State, step: Step)
    ensures Next(s, step).events.Keys == s.events.Keys + RecordedBy(s, step)
  {
    if step.Deliver? {
      WebhookRecords(s, step.payload);
    } else if step.PayTrigger? {
      TriggerRecords(s, step.key, step.payer, step.at);
    } else {
      OthersKeepEvents(s, step);
    }
  }

  /** After any run the events are the ones at its start and those its deliveries and accepted triggers left. */
  lemma {:induction false} EventsAreRecorded(s: State, steps: seq<Step>)
    ensures Run(s, steps).events.Keys == s.events.Keys + RecordedKeys(s, steps)
    decreases steps
  {
    if steps != [] {
      StepRecords(s, steps[0]);
      EventsAreRecorded(Next(s, steps[0]), steps[1..]);
    }
  }

  /**
   * In every run whose webhooks reach covered orders, a delivery for a covered order settles it exactly when its key is
   * not of an event at the start, an earlier delivery or an accepted trigger; otherwise it is answered as a duplicate
   * and changes nothing.
   */
  lemma DeliverySettlesIffKeyIsNew(s: State, steps: seq<Step>, p: Payload)
    requires StockOk(s) && Ledger(s) && SafeRun(s, steps) && CoveredRun(s, steps)
    requires p.order in Run(s, steps).orders && Covered(Run(s, steps), p.order)
    ensures var t := Run(s, steps);
            && (Webhook(t, p).1 == Received <==> p.eventKey !in s.events && p.eventKey !in RecordedKeys(s, steps))
            && (Webhook(t, p).1 != Received ==> Webhook(t, p) == (t, Duplicate))
  {
    EventsAreRecorded(s, steps);
    LedgerHolds(s, steps, "");
    if p.eventKey !in Run(s, steps).events {
      HeldOrderSettles(Run(s, steps), p);
    }
  }

  /** So does a delivery for any order that awaits payment, when nothing but reservations makes orders await. */
  lemma AwaitingSettlesIffKeyIsNew(s: State, steps: seq<Step>, p: Payload)
    requires StockOk(s) && Ledger(s) && AwaitingBacked(s)
    requires SafeRun(s, steps) && RespectfulRun(s, steps) && (CoveredRun(s, steps) || OnTimeRun(s, steps))
    requires Awaits(Run(s, steps), p.order)
    ensures var t := Run(s, steps);
            && (Webhook(t, p).1 == Received <==> p.eventKey !in s.events && p.eventKey !in RecordedKeys(s, steps))
            && (Webhook(t, p).1 != Received ==> Webhook(t, p) == (t, Duplicate))
  {
    if !CoveredRun(s, steps) {
      OnTimeIsCovered(s, steps);
    }
    PaidInTimeIsNeverLost(s, steps, p);
    DeliverySettlesIffKeyIsNew(s, steps, p);
  }

  /**
   * An accepted trigger takes an awaiting order out of AWAITING_PAYMENT and leaves its rows RESERVED, so the order's own
   * webhook still settles it, unless it carries the very key that the trigger recorded.
   */
  lemma TriggeredOrderStillSettles(s: State, key: Key, at: int, p: Payload)
    requires StockOk(s) && Ledger(s) && Fresh(s, p) && Covered(s, p.order)
    requires Trigger(s, key, Some(p.order), at).1 == Done
    ensures var t := Trigger(s, key, Some(p.order), at).0;
            && (p.order != "" ==> !Awaits(t, p.order))
            && p.order in t.orders && Covered(t, p.order)
            && Webhook(t, p).1 == (if p.eventKey == TriggerEventKey(Strip(key)) then Duplicate else Received)
  {
    var t := Trigger(s, key, Some(p.order), at).0;
    TriggerRecords(s, key, Some(p.order), at);
    assert AsksToSell(t.orders, t.rows, p.order) == AsksToSell(s.orders, s.rows, p.order);
    if p.eventKey != TriggerEventKey(Strip(key)) {
      HeldOrderSettles(t, p);
    }
  }

  /** The identifier a payload is known by: the first that is given of event key, event id, transaction, reference, order. */
  lemma FirstIdentifierWins(p: RawPayload)
    ensures var first :=
              if p.eventKey.Some? && p.eventKey.value != "" then p.eventKey.value
              else if p.eventId.Some? && p.eventId.value != "" then p.eventId.value
              else if p.transactionId.Some? && p.transactionId.value != "" then "gw_" + p.transactionId.value
              else if p.paymentRef.Some? && p.paymentRef.value != "" then "gw_" + p.paymentRef.value
              else if p.order != "" then "evt_" + p.order
              else "";
            Validate(p) ==
            if Strip(first) == "" then None else Some(Payload(p.order, Strip(first), p.transactionId, p.paymentRef))
  {
  }

  /** Payloads that carry only transaction ids have the same key exactly when the ids agree up to blanks at their ends. */
  lemma TransactionsKeepTheirKeys(p: RawPayload, q: RawPayload, t: string, u: string)
    requires p.transactionId == Some(t) && q.transactionId == Some(u) && t != "" && u != ""
    requires p.eventKey in {None, Some("")} && p.eventId in {None, Some("")}
    requires q.eventKey in {None, Some("")} && q.eventId in {None, Some("")}
    ensures Validate(p).Some? && Validate(q).Some?
    ensures Validate(p).value.eventKey == Validate(q).value.eventKey <==> StripRight(t) == StripRight(u)
  {
    StripAfterWord("gw_", t);
    StripAfterWord("gw_", u);
    var a, b := "gw_" + StripRight(t), "gw_" + StripRight(u);
    assert a[3..] == StripRight(t) && b[3..] == StripRight(u);
  }

  /** A payload that carries nothing but its order. */
  function Bare(o: OrderId): RawPayload {
    RawPayload(o, None, None, None, None)
  }

  lemma BareKey(o: OrderId)
    requires o != "" && !IsSpace(o[|o|-1])
    ensures Validate(Bare(o)) == Some(Payload(o, TriggerEventKey(o), None, None))
  {
    var key := "evt_" + o;
    assert key[|key|-1] == o[|o|-1];
  }

  /**
   * A trigger whose claim key is the id of an order takes that order's default event key: the first webhook that
   * carries no identifier is then a duplicate, and the order stays as it was.
   */
  lemma TriggerTakesTheDefaultKey(s: State, o: OrderId, now: int)
    requires o != "" && !IsSpace(o[0]) && !IsSpace(o[|o|-1])
    requires !Taken(s.claims, o)
    ensures var t := Trigger(s, o, None, now).0;
            && t.orders == s.orders
            && Validate(Bare(o)).Some?
            && Webhook(t, Validate(Bare(o)).value) == (t, Duplicate)
  {
    BareKey(o);
    TriggerRecords(s, o, None, now);
  }
}

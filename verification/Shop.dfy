/** The shop as a state machine: each service call is one step, a run is any sequence of steps. */
module Shop {
  import opened Tables
  import opened StockLedger
  import opened Holds
  import opened ReservationService
  import opened PaymentClaims
  import opened GatewayWebhook
  import opened EscalationService
  import opened SheetIngest

  datatype Step =
    | ReserveSku(ask: Ask, holder: OrderId, at: int, ttl: int)
    | ReserveLines(order: OrderId, at: int, ttl: int)
    | ExpireOverdue(lockedOrders: seq<OrderId>, at: int)
    | Deliver(payload: Payload)
    | PayTrigger(key: Key, payer: Option<OrderId>, at: int)
    | ClaimSlip(key: Key, order: OrderId, at: int)
    | ApproveOrder(order: OrderId)
    | RejectOrder(order: OrderId, clock: nat)
    | SweepStale(lockedClaims: seq<nat>, clock: nat, ceiling: nat)
    | SyncSheet(sheet: seq<SheetRow>)
    | WriteOrder(order: OrderId, written: Order)  // a draft, address or fulfilment service writes one order row

  ghost function Act(s: State, step: Step): (State, Reply) {
    match step
    case ReserveSku(ask, o, at, ttl) => ReserveStock(s, ask, o, at, ttl)
    case ReserveLines(o, at, ttl) => ReserveOrder(s, o, at, ttl)
    case ExpireOverdue(locked, at) => (Expire(s, locked, at), Done)
    case Deliver(p) => Webhook(s, p)
    case PayTrigger(key, o, at) => Trigger(s, key, o, at)
    case ClaimSlip(key, o, at) => ClaimPayment(s, key, o, Pending, at)
    case ApproveOrder(o) => Approve(s, o)
    case RejectOrder(o, clock) => Reject(s, o, clock)
    case SweepStale(locked, clock, ceiling) => SweepClaims(s, locked, clock, ceiling)
    case SyncSheet(sheet) => Sync(s, sheet)
    case WriteOrder(o, written) => (s.(orders := s.orders[o := written]), Done)
  }

  ghost function Next(s: State, step: Step): State {
    Act(s, step).0
  }

  ghost function Run(s: State, steps: seq<Step>): State
    decreases steps
  {
    if steps == [] then s else Run(Next(s, steps[0]), steps[1..])
  }

  // ---------- Run conditions ----------

  /** Order lines have positive quantities. */
  ghost predicate PositiveWrite(step: Step) {
    step.WriteOrder? ==> PositiveLines(step.written.lines)
  }

  /** A claim sweep sees at most one stale claim per order. */
  ghost predicate OneClaimPerOrder(s: State, step: Step) {
    step.SweepStale? ==> DistinctOwners(StaleOwners(s.claims, step.lockedClaims, step.clock - step.ceiling))
  }

  ghost predicate DistinctOwners(owners: seq<Option<OrderId>>) {
    forall i, j | 0 <= i < j < |owners| :: Given(owners[i]) ==> owners[i] != owners[j]
  }

  /** The order's RESERVED rows cover what a webhook would sell. */
  ghost predicate Covered(s: State, o: OrderId)
    requires o in s.orders
  {
    forall sku :: Demand(AsksToSell(s.orders, s.rows, o), sku) <= Held(s.rows, o, sku)
  }

  /** The delivery is not a duplicate and its order exists. */
  predicate Fresh(s: State, p: Payload) {
    p.eventKey !in s.events && p.order in s.orders
  }

  /** A webhook reaches an order only while its rows cover its lines. */
  ghost predicate CoveredDelivery(s: State, step: Step) {
    step.Deliver? && Fresh(s, step.payload) ==> Covered(s, step.payload.order)
  }

  /**
   * A sheet sync fails at the commit, or the last row for each known SKU whose stock it edits lists at least what is
   * reserved.
   */
  ghost predicate SyncRespectsHolds(s: State, step: Step) {
    step.SyncSheet? ==>
      || ListsNewSkuTwice(s.snaps, step.sheet)
      || forall sku | sku in s.inv && StockEdited(s.snaps, step.sheet, sku) :: s.inv[sku].reserved <= LastStock(step.sheet, sku)
  }

  ghost predicate SafeStep(s: State, step: Step) {
    PositiveWrite(step) && OneClaimPerOrder(s, step) && SyncRespectsHolds(s, step)
  }

  ghost predicate SafeRun(s: State, steps: seq<Step>)
    decreases steps
  {
    steps == [] || (SafeStep(s, steps[0]) && SafeRun(Next(s, steps[0]), steps[1..]))
  }

  ghost predicate CoveredRun(s: State, steps: seq<Step>)
    decreases steps
  {
    steps == [] || (CoveredDelivery(s, steps[0]) && CoveredRun(Next(s, steps[0]), steps[1..]))
  }

  // ---------- What runs keep ----------

  ghost predicate StockOk(s: State) {
    && Positive(s)
    && (forall sku | sku in s.inv :: 0 <= s.inv[sku].reserved <= s.inv[sku].stock)
    && (forall r | r in s.rows :: r.sku in s.inv)
  }

  /** Every reserved unit a row speaks for is really reserved. */
  ghost predicate Ledger(s: State) {
    forall sku | sku in s.inv :: AllHeld(s.rows, sku) <= s.inv[sku].reserved
  }

  function StockOf(s: State, sku: Sku): int {
    if sku in s.inv then s.inv[sku].stock else 0
  }

  function FreeOf(s: State, sku: Sku): int {
    if sku in s.inv then s.inv[sku].stock - s.inv[sku].reserved else 0
  }

  /** What is free plus what is held or confirmed. */
  function Balance(s: State, sku: Sku): int {
    FreeOf(s, sku) + Promised(s.rows, sku)
  }

  /** Stock the seller's sheet added in one step, net. */
  ghost function Supplied(s: State, step: Step, sku: Sku): int {
    if step.SyncSheet? then StockOf(Next(s, step), sku) - StockOf(s, sku) else 0
  }

  ghost function SuppliedIn(s: State, steps: seq<Step>, sku: Sku): int
    decreases steps
  {
    if steps == [] then 0
    else Supplied(s, steps[0], sku) + SuppliedIn(Next(s, steps[0]), steps[1..], sku)
  }
}

/** What every run keeps about consumed payment references. */
module ClaimHistory {
  import opened Tables
  import opened Text
  import opened ReservationService
  import opened PaymentClaims
  import opened GatewayWebhook
  import opened EscalationService
  import opened SheetIngest
  import opened Shop

  /** How one claim may change: confirmed and archived claims never; a pending one may be confirmed or archived. */
  ghost predicate MayBecome(c: Claim, d: Claim) {
    && d.order == c.order && d.consumedAt == c.consumedAt
    && (c.state != Pending ==> d == c)
    && (d.key != c.key ==> c.state == Pending && d.state == Archived)
    && (d.state == Archived && c.state != Archived ==> exists now: nat :: d.key == ArchivedKey(c.key, now))
  }

  ghost predicate Evolves(before: seq<Claim>, after: seq<Claim>) {
    && |before| <= |after|
    && (forall i | 0 <= i < |before| :: MayBecome(before[i], after[i]))
    && (UniqueKeys(before) ==> UniqueKeys(after))
  }

  lemma ArchiveEvolves(claims: seq<Claim>, picked: set<nat>, now: nat)
    requires Archive(claims, picked, now, 0).Some?
    requires forall i | i in picked :: i < |claims| && claims[i].state == Pending
    ensures Evolves(claims, Archive(claims, picked, now, 0).value)
  {
    ArchiveRewrites(claims, picked, now, 0);
  }

  lemma {:induction false} ExpireKeepsClaims(s: State, locked: seq<OrderId>, now: int)
    ensures Expire(s, locked, now).claims == s.claims
  {
    if locked != [] {
      ExpireKeepsClaims(s, locked[..|locked|-1], now);
    }
  }

  lemma ConfirmEvolves(claims: seq<Claim>, o: OrderId)
    ensures Evolves(claims, Confirm(claims, o))
  {
  }

  lemma RejectEvolves(s: State, o: OrderId, clock: nat)
    ensures Evolves(s.claims, Reject(s, o, clock).0.claims)
  {
    if Reject(s, o, clock).1 == Done {
      ArchiveEvolves(s.claims, PendingRows(s.claims, o), clock);
    }
  }

  lemma SweepEvolves(s: State, locked: seq<nat>, clock: nat, ceiling: nat)
    ensures Evolves(s.claims, SweepClaims(s, locked, clock, ceiling).0.claims)
  {
    if SweepClaims(s, locked, clock, ceiling).1 == Done {
      StaleAmongInRange(s.claims, locked, clock - ceiling);
      ArchiveEvolves(s.claims, IdSet(StaleAmong(s.claims, locked, clock - ceiling)), clock);
    }
  }

  lemma WebhookEvolves(s: State, p: Payload)
    ensures Evolves(s.claims, Webhook(s, p).0.claims)
  {
    ConfirmEvolves(s.claims, p.order);
  }

  lemma TriggerEvolves(s: State, key: Key, o: Option<OrderId>, at: int)
    ensures Evolves(s.claims, Trigger(s, key, o, at).0.claims)
  {
  }

  lemma SlipEvolves(s: State, key: Key, o: OrderId, at: int)
    ensures Evolves(s.claims, ClaimPayment(s, key, o, Pending, at).0.claims)
  {
  }

  lemma StepEvolvesClaims(s: State, step: Step)
    ensures Evolves(s.claims, Next(s, step).claims)
  {
    match step
    case ExpireOverdue(locked, at) => ExpireKeepsClaims(s, locked, at);
    case Deliver(p) => WebhookEvolves(s, p);
    case PayTrigger(key, o, at) => TriggerEvolves(s, key, o, at);
    case ClaimSlip(key, o, at) => SlipEvolves(s, key, o, at);
    case ApproveOrder(o) => ConfirmEvolves(s.claims, o);
    case RejectOrder(o, clock) => RejectEvolves(s, o, clock);
    case SweepStale(locked, clock, ceiling) => SweepEvolves(s, locked, clock, ceiling);
    case SyncSheet(sheet) => MergeRowsKeepReserved(s, sheet);
    case _ =>
  }

  /** In every run keys stay unique, and only pending claims change key, by being archived. */
  lemma {:induction false} ClaimsEvolve(s: State, steps: seq<Step>)
    ensures Evolves(s.claims, Run(s, steps).claims)
    decreases steps
  {
    if steps != [] {
      StepEvolvesClaims(s, steps[0]);
      ClaimsEvolve(Next(s, steps[0]), steps[1..]);
    }
  }

  /** A confirmed reference keeps its key and order for ever, and no later slip or trigger consumes it again. */
  lemma ConfirmedReferenceIsSpent(s: State, steps: seq<Step>, i: nat, raw: Key, o: OrderId, now: int)
    requires i < |s.claims| && s.claims[i].state == Consumed && Strip(raw) == s.claims[i].key
    ensures var t := Run(s, steps);
            && i < |t.claims| && t.claims[i] == s.claims[i]
            && ClaimPayment(t, raw, o, Pending, now).0 == t && ClaimPayment(t, raw, o, Pending, now).1 != Done
            && Trigger(t, raw, Some(o), now).0 == t && Trigger(t, raw, Some(o), now).1 != Done
  {
    ClaimsEvolve(s, steps);
    assert MayBecome(s.claims[i], Run(s, steps).claims[i]);
  }

  /**
   * Rejecting an order frees the references of its pending claims: each can be claimed again, unless a later claim of
   * the order was archived under that very text.
   */
  lemma RejectedReferenceIsFreeIff(s: State, o: OrderId, clock: nat, i: nat, raw: Key, other: OrderId, now: int)
    requires UniqueKeys(s.claims) && i < |s.claims| && PendingFor(s.claims[i], o)
    requires Reject(s, o, clock).1 == Done
    requires Strip(raw) == s.claims[i].key != ""
    ensures ClaimPayment(Reject(s, o, clock).0, raw, other, Pending, now).1 == Done <==>
            !exists k: nat | i < k < |s.claims| ::
               PendingFor(s.claims[k], o) && s.claims[i].key == ArchivedKey(s.claims[k].key, clock)
  {
    ArchivedKeyIsFreeIff(s.claims, PendingRows(s.claims, o), clock, i);
  }

  /** A reference rejected, claimed again and rejected within one second: the second rejection is refused. */
  lemma SecondRejectionIsRefused(s: State, o: OrderId, clock: nat, i: nat, raw: Key, other: OrderId, now: int)
    requires UniqueKeys(s.claims) && i < |s.claims| && PendingFor(s.claims[i], o) && other in s.orders
    requires Reject(s, o, clock).1 == Done
    requires Strip(raw) == s.claims[i].key
    requires ClaimPayment(Reject(s, o, clock).0, raw, other, Pending, now).1 == Done
    ensures Reject(ClaimPayment(Reject(s, o, clock).0, raw, other, Pending, now).0, other, clock).1 == KeyConflict
  {
    var rejected := Reject(s, o, clock).0;
    var t := ClaimPayment(rejected, raw, other, Pending, now).0;
    ArchiveRewrites(s.claims, PendingRows(s.claims, o), clock, 0);
    var k := |rejected.claims|;
    assert i in PendingRows(s.claims, o);
    assert t.claims[i].key == ArchivedKey(s.claims[i].key, clock) && t.claims[i].state == Archived;
    assert Blocks(t.claims, PendingRows(t.claims, other), clock, k, i);
    assert Blocked(t.claims, PendingRows(t.claims, other), clock, k);
    RejectRefusedIff(t, other, clock);
  }
}

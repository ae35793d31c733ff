/** Manual approval and rejection, and the sweep that releases stale pending claims. */
module EscalationService {
  import opened Tables
  import opened StockLedger
  import opened Holds
  import opened ReservationService
  import opened PaymentClaims
  import opened GatewayWebhook

  // ---------- Approve ----------

  ghost function Approve(s: State, o: OrderId): (State, Reply) {
    if o !in s.orders then (s, NoSuchOrder)
    else
      (s.(orders := s.orders[o := s.orders[o].(approval := Approved, status := PaymentReceived, ttl := None)],
          claims := Confirm(s.claims, o),
          rows := Mark(s.rows, o, HoldState.Confirmed)), Done)
  }

  method ApproveManual(db: Database, o: OrderId) returns (reply: Reply)
    modifies db
    ensures (db.Now(), reply) == Approve(old(db.Now()), o)
  {
    if o !in db.orders {
      return NoSuchOrder;
    }
    db.orders := db.orders[o := db.orders[o].(approval := Approved, status := PaymentReceived, ttl := None)];
    ConfirmPendingClaims(db, o);
    ConfirmHolds(db, o);
    return Done;
  }

  // ---------- Reject ----------

  function PendingRows(claims: seq<Claim>, o: OrderId): set<nat> {
    set i: nat | i < |claims| && PendingFor(claims[i], o)
  }

  ghost function Reject(s: State, o: OrderId, now: nat): (State, Reply) {
    if o !in s.orders then (s, NoSuchOrder)
    else
      match Archive(s.claims, PendingRows(s.claims, o), now, 0)
      case None => (s, KeyConflict)
      case Some(claims) =>
        (ReleaseOrder(s, o).(
           claims := claims,
           orders := s.orders[o := s.orders[o].(approval := Rejected, status := Cancelled, ttl := None)]), Done)
  }

  method RejectManual(db: Database, o: OrderId, now: nat) returns (reply: Reply)
    modifies db
    ensures (db.Now(), reply) == Reject(old(db.Now()), o, now)
  {
    if o !in db.orders {
      return NoSuchOrder;
    }
    var inventory, reservations, claims := db.inventory, db.reservations, db.claims;
    ReleaseHolds(db, db.reservations, o);
    var conflict := ArchiveClaims(db, PendingRows(db.claims, o), now);
    if conflict {
      db.inventory, db.reservations, db.claims := inventory, reservations, claims;
      return KeyConflict;
    }
    db.orders := db.orders[o := db.orders[o].(approval := Rejected, status := Cancelled, ttl := None)];
    return Done;
  }

  // ---------- The 24-hour sweep ----------

  predicate Stale(claims: seq<Claim>, i: nat, cutoff: int) {
    i < |claims| && claims[i].state == Pending && claims[i].consumedAt < cutoff
  }

  /** The claims the query returns: the stale ones among those the worker could lock. */
  function StaleAmong(claims: seq<Claim>, locked: seq<nat>, cutoff: int): seq<nat> {
    if locked == [] then []
    else
      var rest, i := StaleAmong(claims, locked[..|locked|-1], cutoff), locked[|locked|-1];
      if Stale(claims, i, cutoff) then rest + [i] else rest
  }

  function IdSet(ids: seq<nat>): set<nat> {
    set i | i in ids
  }

  predicate Cancellable(status: Status) {
    status == AwaitingPayment || status == AwaitingSellerApproval || status == PaymentVerifying
  }

  function CancelHeld(orders: map<OrderId, Order>, o: OrderId): map<OrderId, Order> {
    if o in orders && Cancellable(orders[o].status)
    then orders[o := orders[o].(approval := ReleasedHardCeiling, status := Cancelled, ttl := None)]
    else orders
  }

  /** Release the stock behind one stale claim. The session does not flush, so rows are selected as `read`. */
  ghost function ReleaseClaimStock(s: State, read: seq<Reservation>, owner: Option<OrderId>): State {
    if !Given(owner) then s
    else
      s.(inv := FreeAll(s.inv, ActiveAsks(read, owner.value)),
         rows := Mark(s.rows, owner.value, Released),
         orders := CancelHeld(s.orders, owner.value))
  }

  ghost function ReleaseStock(s: State, read: seq<Reservation>, owners: seq<Option<OrderId>>): State {
    if owners == [] then s
    else ReleaseClaimStock(ReleaseStock(s, read, owners[..|owners|-1]), read, owners[|owners|-1])
  }

  function OwnersOf(claims: seq<Claim>, ids: seq<nat>): seq<Option<OrderId>>
    requires forall i | i in ids :: i < |claims|
  {
    seq(|ids|, k requires 0 <= k < |ids| => assert ids[k] in ids; claims[ids[k]].order)
  }

  lemma {:induction false} StaleAmongIsStale(claims: seq<Claim>, locked: seq<nat>, cutoff: int, i: nat)
    ensures i in StaleAmong(claims, locked, cutoff) <==> i in locked && Stale(claims, i, cutoff)
  {
    if locked != [] {
      var p, z := locked[..|locked|-1], locked[|locked|-1];
      assert locked == p + [z];
      StaleAmongIsStale(claims, p, cutoff, i);
    }
  }

  lemma StaleAmongInRange(claims: seq<Claim>, locked: seq<nat>, cutoff: int)
    ensures forall i | i in StaleAmong(claims, locked, cutoff) :: i in locked && Stale(claims, i, cutoff)
  {
    forall i | i in StaleAmong(claims, locked, cutoff) ensures i in locked && Stale(claims, i, cutoff) {
      StaleAmongIsStale(claims, locked, cutoff, i);
    }
  }

  function StaleOwners(claims: seq<Claim>, locked: seq<nat>, cutoff: int): seq<Option<OrderId>> {
    StaleAmongInRange(claims, locked, cutoff);
    OwnersOf(claims, StaleAmong(claims, locked, cutoff))
  }

  ghost function SweepClaims(s: State, locked: seq<nat>, now: nat, ceiling: nat): (State, Reply) {
    var ids := StaleAmong(s.claims, locked, now - ceiling);
    match Archive(s.claims, IdSet(ids), now, 0)
    case None => (s, KeyConflict)
    case Some(claims) => (ReleaseStock(s, s.rows, StaleOwners(s.claims, locked, now - ceiling)).(claims := claims), Done)
  }

  /** The keys of the claims with the given ids, in order. */
  function KeysOf(claims: seq<Claim>, ids: seq<nat>): seq<Key> {
    seq(|ids|, k requires 0 <= k < |ids| => if ids[k] < |claims| then claims[ids[k]].key else "")
  }

  /** The stock behind one stale claim, and its order. */
  method ReleaseBehind(db: Database, read: seq<Reservation>, owner: Option<OrderId>)
    requires ReleasedSince(read, db.reservations)
    modifies db`inventory, db`reservations, db`orders
    ensures db.Now() == ReleaseClaimStock(old(db.Now()), read, owner)
    ensures ReleasedSince(read, db.reservations)
  {
    if Given(owner) {
      ReleaseHolds(db, read, owner.value);
      db.orders := CancelHeld(db.orders, owner.value);
    }
  }

  lemma ReleaseOneMore(s: State, read: seq<Reservation>, owners: seq<Option<OrderId>>, k: nat)
    requires k < |owners|
    ensures ReleaseStock(s, read, owners[..k+1]) == ReleaseClaimStock(ReleaseStock(s, read, owners[..k]), read, owners[k])
  {
    assert owners[..k+1][..k] == owners[..k];
  }

  method ReleaseEach(db: Database, ids: seq<nat>, ghost owners: seq<Option<OrderId>>) returns (released: seq<Key>)
    requires (forall i | i in ids :: i < |db.claims|) && owners == OwnersOf(db.claims, ids)
    modifies db`inventory, db`reservations, db`orders
    ensures db.Now() == ReleaseStock(old(db.Now()), old(db.reservations), owners)
    ensures released == KeysOf(db.claims, ids)
  {
    ghost var before := db.Now();
    var read := db.reservations;
    released := [];
    var k := 0;
    while k < |ids|
      invariant k <= |ids|
      invariant db.Now() == ReleaseStock(before, read, owners[..k])
      invariant ReleasedSince(read, db.reservations)
      invariant released == KeysOf(db.claims, ids[..k])
    {
      assert ids[k] in ids;
      var claim := db.claims[ids[k]];
      released := released + [claim.key];
      ReleaseOneMore(before, read, owners, k);
      ReleaseBehind(db, read, claim.order);
      k := k + 1;
    }
    assert owners[..|owners|] == owners && ids[..|ids|] == ids;
  }

  /** Archive stale pending claims and release the stock behind them. Changes to claims reach the table at the commit. */
  method ReleaseStaleClaims(db: Database, locked: seq<nat>, now: nat, ceiling: nat) returns (reply: Reply, released: seq<Key>)
    modifies db
    ensures (db.Now(), reply) == SweepClaims(old(db.Now()), locked, now, ceiling)
    ensures released == if reply == Done then KeysOf(old(db.claims), StaleAmong(old(db.claims), locked, now - ceiling)) else []
  {
    var inventory, reservations, orders, claims := db.inventory, db.reservations, db.orders, db.claims;
    var ids := StaleAmong(db.claims, locked, now - ceiling);
    StaleAmongInRange(claims, locked, now - ceiling);
    released := ReleaseEach(db, ids, StaleOwners(claims, locked, now - ceiling));
    var conflict := ArchiveClaims(db, IdSet(ids), now);
    if conflict {
      db.inventory, db.reservations, db.orders, db.claims := inventory, reservations, orders, claims;
      return KeyConflict, [];
    }
    return Done, released;
  }

  // ---------- When review and sweep are refused ----------

  /** A rejection is refused exactly when one of the order's archived keys is already in use. */
  lemma RejectRefusedIff(s: State, o: OrderId, now: nat)
    requires UniqueKeys(s.claims) && o in s.orders
    ensures Reject(s, o, now).1 == KeyConflict <==>
            Collides(s.claims, PendingRows(s.claims, o), now)
    ensures Reject(s, o, now).1 == KeyConflict ==> Reject(s, o, now).0 == s
  {
    ArchiveFailsIff(s.claims, PendingRows(s.claims, o), now);
  }

  /** So is a sweep, over the stale claims it locked. */
  lemma SweepRefusedIff(s: State, locked: seq<nat>, now: nat, ceiling: nat)
    requires UniqueKeys(s.claims)
    ensures SweepClaims(s, locked, now, ceiling).1 == KeyConflict <==>
            Collides(s.claims, IdSet(StaleAmong(s.claims, locked, now - ceiling)), now)
    ensures SweepClaims(s, locked, now, ceiling).1 == KeyConflict ==> SweepClaims(s, locked, now, ceiling).0 == s
  {
    ArchiveFailsIff(s.claims, IdSet(StaleAmong(s.claims, locked, now - ceiling)), now);
  }
}

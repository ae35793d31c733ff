/** Consumed payment references: claiming one, archiving one, and the payment trigger. */
module PaymentClaims {
  import opened Tables
  import opened Text

  // ---------- Keys ----------

  predicate Taken(claims: seq<Claim>, key: Key) {
    exists i | 0 <= i < |claims| :: claims[i].key == key
  }

  /** The UNIQUE constraint on claim_key. */
  ghost predicate UniqueKeys(claims: seq<Claim>) {
    forall i, j | 0 <= i < j < |claims| :: claims[i].key != claims[j].key
  }

  function ArchivedKey(key: Key, now: nat): Key {
    "RELEASED:" + key + ":" + Digits(now)
  }

  // ---------- Claiming ----------

  ghost function ClaimPayment(s: State, key: Key, o: OrderId, state: ClaimState, now: int): (State, Reply) {
    if Strip(key) == "" then (s, EmptyKey)
    else if Taken(s.claims, Strip(key)) then (s, Duplicate)
    else (s.(claims := s.claims + [Claim(Strip(key), Some(o), state, now)]), Done)
  }

  method ClaimPaymentRow(db: Database, key: Key, o: OrderId, state: ClaimState, now: int) returns (reply: Reply, id: nat)
    modifies db`claims
    ensures (db.Now(), reply) == ClaimPayment(old(db.Now()), key, o, state, now)
    ensures reply == Done ==> id < |db.claims| && db.claims[id].key == Strip(key)
  {
    id := 0;
    var clean := Strip(key);
    if clean == "" {
      return EmptyKey, id;
    }
    if Taken(db.claims, clean) {
      return Duplicate, id;
    }
    id := |db.claims|;
    db.claims := db.claims + [Claim(clean, Some(o), state, now)];
    return Done, id;
  }

  // ---------- The payment trigger ----------

  function TriggerEventKey(key: Key): Key {
    "evt_" + key
  }

  function StopTtl(orders: map<OrderId, Order>, o: Option<OrderId>): map<OrderId, Order> {
    if o.Some? && o.value != "" && o.value in orders && orders[o.value].status == AwaitingPayment
    then orders[o.value := orders[o.value].(status := PaymentReceived, ttl := None)]
    else orders
  }

  ghost function Trigger(s: State, key: Key, o: Option<OrderId>, now: int): (State, Reply) {
    var k := Strip(key);
    if k == "" then (s, EmptyKey)
    else if Taken(s.claims, k) then (s, Duplicate)
    else
      (s.(claims := s.claims + [Claim(k, o, Consumed, now)],
          events := if TriggerEventKey(k) in s.events then s.events
                    else s.events[TriggerEventKey(k) := Event(o, Undecided)],
          orders := StopTtl(s.orders, o)), Done)
  }

  method ProcessPaymentTrigger(db: Database, key: Key, o: Option<OrderId>, now: int) returns (reply: Reply)
    modifies db
    ensures (db.Now(), reply) == Trigger(old(db.Now()), key, o, now)
  {
    var clean := Strip(key);
    if clean == "" {
      return EmptyKey;
    }
    if Taken(db.claims, clean) {
      return Duplicate;
    }
    db.claims := db.claims + [Claim(clean, o, Consumed, now)];
    var eventKey := TriggerEventKey(clean);
    if eventKey !in db.events {
      db.events := db.events[eventKey := Event(o, Undecided)];
    }
    if o.Some? && o.value != "" {
      if o.value in db.orders && db.orders[o.value].status == AwaitingPayment {
        db.orders := db.orders[o.value := db.orders[o.value].(status := PaymentReceived, ttl := None)];
      }
    }
    return Done;
  }

  // ---------- Confirming and archiving ----------

  predicate PendingFor(c: Claim, o: OrderId) {
    c.order == Some(o) && c.state == Pending
  }

  function Confirm(claims: seq<Claim>, o: OrderId): seq<Claim> {
    seq(|claims|, i requires 0 <= i < |claims| =>
      if PendingFor(claims[i], o) then claims[i].(state := Consumed) else claims[i])
  }

  method ConfirmPendingClaims(db: Database, o: OrderId)
    modifies db`claims
    ensures db.claims == Confirm(old(db.claims), o)
  {
    var i := 0;
    while i < |db.claims|
      invariant i <= |db.claims| == |old(db.claims)|
      invariant forall j | 0 <= j < i :: db.claims[j] == Confirm(old(db.claims), o)[j]
      invariant forall j | i <= j < |db.claims| :: db.claims[j] == old(db.claims)[j]
    {
      if PendingFor(db.claims[i], o) {
        db.claims := db.claims[i := db.claims[i].(state := Consumed)];
      }
      i := i + 1;
    }
  }

  /**
   * The commit writes the archived keys in id order from row `i` on, and the UNIQUE constraint is checked at
   * each row; None means that it failed.
   */
  ghost function Archive(claims: seq<Claim>, picked: set<nat>, now: nat, i: nat): Option<seq<Claim>>
    requires i <= |claims|
    decreases |claims| - i
  {
    if i == |claims| then Some(claims)
    else if i !in picked then Archive(claims, picked, now, i + 1)
    else
      var key := ArchivedKey(claims[i].key, now);
      if Taken(claims, key) then None
      else Archive(claims[i := claims[i].(key := key, state := Archived)], picked, now, i + 1)
  }

  method ArchiveClaims(db: Database, picked: set<nat>, now: nat) returns (conflict: bool)
    modifies db`claims
    ensures conflict <==> Archive(old(db.claims), picked, now, 0) == None
    ensures !conflict ==> Archive(old(db.claims), picked, now, 0) == Some(db.claims)
  {
    var i := 0;
    while i < |db.claims|
      invariant i <= |db.claims|
      invariant Archive(old(db.claims), picked, now, 0) == Archive(db.claims, picked, now, i)
    {
      if i in picked {
        var key := ArchivedKey(db.claims[i].key, now);
        if Taken(db.claims, key) {
          return true;
        }
        db.claims := db.claims[i := db.claims[i].(key := key, state := Archived)];
      }
      i := i + 1;
    }
    return false;
  }

  /** Archiving rewrites exactly the picked rows and keeps keys unique. */
  lemma {:induction false} ArchiveRewrites(claims: seq<Claim>, picked: set<nat>, now: nat, i: nat)
    requires i <= |claims| && Archive(claims, picked, now, i).Some?
    ensures var after := Archive(claims, picked, now, i).value;
            && |after| == |claims|
            && (forall j: nat | j < |claims| ::
                  after[j] == if i <= j && j in picked
                              then claims[j].(key := ArchivedKey(claims[j].key, now), state := Archived) else claims[j])
            && (UniqueKeys(claims) ==> UniqueKeys(after))
    decreases |claims| - i
  {
    if i < |claims| {
      var next := if i in picked then claims[i := claims[i].(key := ArchivedKey(claims[i].key, now), state := Archived)] else claims;
      ArchiveRewrites(next, picked, now, i + 1);
    }
  }

  /** Archived keys of one commit differ as the original keys do. */
  lemma ArchivedKeysDiffer(k: Key, l: Key, now: nat)
    requires ArchivedKey(k, now) == ArchivedKey(l, now)
    ensures k == l
  {
    var head, tail := "RELEASED:", ":" + Digits(now);
    assert ArchivedKey(k, now) == head + (k + tail) && ArchivedKey(l, now) == head + (l + tail);
    assert (head + (k + tail))[|head|..] == k + tail && (head + (l + tail))[|head|..] == l + tail;
    assert |k| == |l|;
    assert (k + tail)[..|k|] == k && (l + tail)[..|l|] == l;
  }

  // ---------- When archiving fails ----------

  /** The table when the commit has written the archived keys of the rows before row `i`. */
  function Rewritten(claims: seq<Claim>, picked: set<nat>, now: nat, i: nat): seq<Claim> {
    seq(|claims|, j requires 0 <= j < |claims| =>
      if j < i && j in picked then claims[j].(key := ArchivedKey(claims[j].key, now), state := Archived) else claims[j])
  }

  /** Row `j` carries the key that row `k` would be archived under, and is not itself archived before row `k`. */
  predicate Blocks(claims: seq<Claim>, picked: set<nat>, now: nat, k: nat, j: nat) {
    && k < |claims| && j < |claims| && k in picked && (j !in picked || k < j)
    && claims[j].key == ArchivedKey(claims[k].key, now)
  }

  predicate Blocked(claims: seq<Claim>, picked: set<nat>, now: nat, k: nat) {
    exists j: nat | j < |claims| :: Blocks(claims, picked, now, k, j)
  }

  /** Some picked row's archived key is in use when the commit comes to it. */
  ghost predicate Collides(claims: seq<Claim>, picked: set<nat>, now: nat) {
    exists k: nat | k < |claims| :: Blocked(claims, picked, now, k)
  }

  lemma TakenMeansBlocked(claims: seq<Claim>, picked: set<nat>, now: nat, i: nat)
    requires UniqueKeys(claims) && i < |claims| && i in picked
    ensures Taken(Rewritten(claims, picked, now, i), ArchivedKey(claims[i].key, now)) <==> Blocked(claims, picked, now, i)
  {
    var table, key := Rewritten(claims, picked, now, i), ArchivedKey(claims[i].key, now);
    forall j: nat | j < |claims| ensures table[j].key == key <==> Blocks(claims, picked, now, i, j) {
      if j < i && j in picked && table[j].key == key {
        ArchivedKeysDiffer(claims[j].key, claims[i].key, now);
      }
    }
    if Blocked(claims, picked, now, i) {
      var j: nat :| j < |claims| && Blocks(claims, picked, now, i, j);
      assert table[j].key == key;
    }
  }

  lemma {:induction false} ArchiveFrom(claims: seq<Claim>, picked: set<nat>, now: nat, i: nat)
    requires UniqueKeys(claims) && i <= |claims|
    ensures Archive(Rewritten(claims, picked, now, i), picked, now, i).None? <==>
            exists k: nat | i <= k < |claims| :: Blocked(claims, picked, now, k)
    decreases |claims| - i
  {
    if i < |claims| {
      var table := Rewritten(claims, picked, now, i);
      ArchiveFrom(claims, picked, now, i + 1);
      if i in picked {
        TakenMeansBlocked(claims, picked, now, i);
        assert table[i := table[i].(key := ArchivedKey(table[i].key, now), state := Archived)] == Rewritten(claims, picked, now, i + 1);
      } else {
        assert table == Rewritten(claims, picked, now, i + 1);
        assert !Blocked(claims, picked, now, i);
      }
    }
  }

  /** An archive fails exactly when some picked row's archived key is carried by a row not archived before it. */
  lemma ArchiveFailsIff(claims: seq<Claim>, picked: set<nat>, now: nat)
    requires UniqueKeys(claims)
    ensures Archive(claims, picked, now, 0).None? <==> Collides(claims, picked, now)
  {
    assert Rewritten(claims, picked, now, 0) == claims;
    ArchiveFrom(claims, picked, now, 0);
  }

  /**
   * After the archive the original key of an archived claim can be claimed again, unless a later claim was archived
   * under that very key.
   */
  lemma ArchivedKeyIsFreeIff(claims: seq<Claim>, picked: set<nat>, now: nat, j: nat)
    requires UniqueKeys(claims) && Archive(claims, picked, now, 0).Some?
    requires j < |claims| && j in picked
    ensures Taken(Archive(claims, picked, now, 0).value, claims[j].key) <==>
            exists k: nat | j < k < |claims| :: k in picked && claims[j].key == ArchivedKey(claims[k].key, now)
  {
    ArchiveRewrites(claims, picked, now, 0);
    ArchiveFailsIff(claims, picked, now);
    var after := Archive(claims, picked, now, 0).value;
    forall k: nat | k < |after|
      ensures after[k].key == claims[j].key <==> j < k && k in picked && claims[j].key == ArchivedKey(claims[k].key, now)
    {
      assert Blocks(claims, picked, now, k, j) ==> Blocked(claims, picked, now, k);
    }
    if k: nat :| j < k < |claims| && k in picked && claims[j].key == ArchivedKey(claims[k].key, now) {
      assert after[k].key == claims[j].key;
    }
  }
}

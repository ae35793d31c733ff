/**
 * The claim sweep selects rows as the table was when it began. An order that owns two of the stale claims is
 * therefore released twice; how far the books then drift, and when they do not.
 */
module ClaimSweep {
  import opened Tables
  import opened StockLedger
  import opened Holds
  import opened GatewayWebhook
  import opened EscalationService
  import opened Shop
  import opened StockSafety

  /** All release statements of a sweep, in order. */
  function Reads(rows: seq<Reservation>, owners: seq<Option<OrderId>>): seq<Ask> {
    if owners == [] then []
    else
      var rest, z := Reads(rows, owners[..|owners|-1]), owners[|owners|-1];
      if Given(z) then rest + ActiveAsks(rows, z.value) else rest
  }

  /** What is released again for orders met before. */
  function Surplus(rows: seq<Reservation>, owners: seq<Option<OrderId>>, sku: Sku): int {
    if owners == [] then 0
    else
      var p, z := owners[..|owners|-1], owners[|owners|-1];
      Surplus(rows, p, sku) + if Given(z) && z in p then Held(rows, z.value, sku) else 0
  }

  /** What the rows of the orders met speak for, each order once. */
  function Owed(rows: seq<Reservation>, owners: seq<Option<OrderId>>, sku: Sku): int {
    Demand(Reads(rows, owners), sku) - Surplus(rows, owners, sku)
  }

  /** How much of one SKU the release statements free: each hits while enough is still reserved. */
  function Freed(reserved: int, asks: seq<Ask>, sku: Sku): int {
    if asks == [] then 0
    else
      var before, z := Freed(reserved, asks[..|asks|-1], sku), asks[|asks|-1];
      if z.sku == sku && z.qty <= reserved - before then before + z.qty else before
  }

  /** Some order with RESERVED rows owns two of the claims. */
  ghost predicate HolderOwnsTwo(rows: seq<Reservation>, owners: seq<Option<OrderId>>) {
    exists i, j | 0 <= i < j < |owners| :: Given(owners[j]) && owners[i] == owners[j] && ActiveAsks(rows, owners[j].value) != []
  }

  lemma {:induction false} FreeAllSplits(inv: Inventory, xs: seq<Ask>, ys: seq<Ask>)
    ensures FreeAll(inv, xs + ys) == FreeAll(FreeAll(inv, xs), ys)
  {
    if ys == [] {
      assert xs + ys == xs;
    } else {
      var p, z := ys[..|ys|-1], ys[|ys|-1];
      assert xs + ys == (xs + p) + [z];
      FreeAllSplits(inv, xs, p);
      FreeAllAppends(inv, xs + p, z);
    }
  }

  lemma {:induction false} SweepRunsReads(s: State, owners: seq<Option<OrderId>>)
    ensures ReleaseStock(s, s.rows, owners).inv == FreeAll(s.inv, Reads(s.rows, owners))
  {
    if owners != [] {
      var p, z := owners[..|owners|-1], owners[|owners|-1];
      SweepRunsReads(s, p);
      if Given(z) {
        FreeAllSplits(s.inv, Reads(s.rows, p), ActiveAsks(s.rows, z.value));
      }
    }
  }

  lemma {:induction false} SweptOrderHoldsNothing(s: State, owners: seq<Option<OrderId>>, o: OrderId)
    requires o != "" && Some(o) in owners
    ensures ActiveAsks(ReleaseStock(s, s.rows, owners).rows, o) == []
  {
    var p, z := owners[..|owners|-1], owners[|owners|-1];
    assert owners == p + [z];
    if Some(o) in p {
      SweptOrderHoldsNothing(s, p, o);
    }
    if Given(z) {
      MarkActive(ReleaseStock(s, s.rows, p).rows, z.value, Released, o);
    }
  }

  /** Rows are released once, however often the sweep frees their stock. */
  lemma {:induction false} SweepReleasesRowsOnce(s: State, owners: seq<Option<OrderId>>, sku: Sku, states: set<HoldState>)
    requires Reserved in states && Released !in states
    ensures Total(ReleaseStock(s, s.rows, owners).rows, sku, None, states) ==
            Total(s.rows, sku, None, states) - Owed(s.rows, owners, sku)
  {
    if owners != [] {
      var p, z := owners[..|owners|-1], owners[|owners|-1];
      SweepReleasesRowsOnce(s, p, sku, states);
      if Given(z) {
        var t, o := ReleaseStock(s, s.rows, p), z.value;
        MarkMoves(t.rows, o, Released, sku, None, states);
        DemandSplits(Reads(s.rows, p), ActiveAsks(s.rows, o), sku);
        ActiveAsksAddUp(s.rows, o, sku);
        ActiveAsksAddUp(t.rows, o, sku);
        if z in p {
          SweptOrderHoldsNothing(s, p, o);
        } else {
          SweepReadsFreshRows(s, p, o);
        }
      }
    }
  }

  lemma {:induction false} ReadsPositive(rows: seq<Reservation>, owners: seq<Option<OrderId>>)
    requires forall r | r in rows :: r.qty >= 1
    ensures PositiveAsks(Reads(rows, owners))
  {
    if owners != [] {
      var z := owners[|owners|-1];
      ReadsPositive(rows, owners[..|owners|-1]);
      if Given(z) {
        ActiveAsksPositive(rows, z.value);
      }
    }
  }

  lemma {:induction false} FreedIsFreed(inv: Inventory, asks: seq<Ask>, sku: Sku)
    requires sku in inv
    ensures sku in FreeAll(inv, asks) && FreeAll(inv, asks)[sku].stock == inv[sku].stock
    ensures FreeAll(inv, asks)[sku].reserved == inv[sku].reserved - Freed(inv[sku].reserved, asks, sku)
  {
    if asks != [] {
      FreedIsFreed(inv, asks[..|asks|-1], sku);
    }
  }

  lemma {:induction false} StrangersStay(inv: Inventory, asks: seq<Ask>, sku: Sku)
    ensures sku in FreeAll(inv, asks) <==> sku in inv
  {
    if asks != [] {
      StrangersStay(inv, asks[..|asks|-1], sku);
    }
  }

  lemma {:induction false} StrangersAreNotRead(rows: seq<Reservation>, owners: seq<Option<OrderId>>, sku: Sku)
    requires forall r | r in rows :: r.sku != sku
    ensures Demand(Reads(rows, owners), sku) == 0 && Surplus(rows, owners, sku) == 0
  {
    if owners != [] {
      var p, z := owners[..|owners|-1], owners[|owners|-1];
      StrangersAreNotRead(rows, p, sku);
      if Given(z) {
        DemandSplits(Reads(rows, p), ActiveAsks(rows, z.value), sku);
        ActiveAsksAddUp(rows, z.value, sku);
        NoRowsForStranger(rows, z.value, sku);
      }
    }
  }

  /** How far a sweep moves the balance and the slack of a SKU: by what it frees beyond what it owes. */
  lemma SweepDrift(s: State, owners: seq<Option<OrderId>>, sku: Sku)
    requires StockOk(s)
    ensures var t := ReleaseStock(s, s.rows, owners);
            && (sku in t.inv <==> sku in s.inv)
            && (sku !in s.inv ==> Balance(t, sku) == Balance(s, sku))
            && (sku in s.inv ==>
                 var excess := Freed(s.inv[sku].reserved, Reads(s.rows, owners), sku) - Owed(s.rows, owners, sku);
                 Balance(t, sku) == Balance(s, sku) + excess && Slack(t, sku) == Slack(s, sku) - excess)
  {
    SweepRunsReads(s, owners);
    SweepReleasesRowsOnce(s, owners, sku, {Reserved});
    SweepReleasesRowsOnce(s, owners, sku, {Reserved, HoldState.Confirmed});
    StrangersStay(s.inv, Reads(s.rows, owners), sku);
    if sku in s.inv {
      FreedIsFreed(s.inv, Reads(s.rows, owners), sku);
    } else {
      StrangersAreNotRead(s.rows, owners, sku);
    }
  }

  /**
   * Exactly when the books survive a sweep, in every state whose stock bounds hold: the balance of every SKU stays iff
   * what the statements free is what the rows of the orders met speak for, and the ledger stays iff the one exceeds
   * the other by no more than the slack.
   */
  lemma SweepKeepsBooksIff(s: State, owners: seq<Option<OrderId>>)
    requires StockOk(s)
    ensures var t, asks := ReleaseStock(s, s.rows, owners), Reads(s.rows, owners);
            && ((forall sku :: Balance(t, sku) == Balance(s, sku)) <==>
                forall sku | sku in s.inv :: Freed(s.inv[sku].reserved, asks, sku) == Owed(s.rows, owners, sku))
            && (Ledger(t) <==>
                forall sku | sku in s.inv ::
                  Freed(s.inv[sku].reserved, asks, sku) - Owed(s.rows, owners, sku) <= Slack(s, sku))
  {
    var t, asks := ReleaseStock(s, s.rows, owners), Reads(s.rows, owners);
    forall sku
      ensures sku in t.inv <==> sku in s.inv
      ensures sku !in s.inv ==> Balance(t, sku) == Balance(s, sku)
      ensures sku in s.inv ==>
                Balance(t, sku) - Balance(s, sku) == Freed(s.inv[sku].reserved, asks, sku) - Owed(s.rows, owners, sku)
      ensures sku in s.inv ==>
                Slack(t, sku) == Slack(s, sku) - (Freed(s.inv[sku].reserved, asks, sku) - Owed(s.rows, owners, sku))
    {
      SweepDrift(s, owners, sku);
    }
    assert Ledger(t) <==> forall sku | sku in t.inv :: Slack(t, sku) >= 0;
  }

  // ---------- When all releases hit ----------

  lemma {:induction false} AllFreed(inv: Inventory, asks: seq<Ask>, sku: Sku)
    requires PositiveAsks(asks) && Fits(Free, inv, asks) && sku in inv
    ensures Freed(inv[sku].reserved, asks, sku) == Demand(asks, sku)
  {
    FreeAllHits(inv, asks);
    FreedIsFreed(inv, asks, sku);
  }

  /** In a state whose ledger holds, every release hits unless some order with RESERVED rows owns two of the claims. */
  lemma OneClaimEachFits(s: State, owners: seq<Option<OrderId>>)
    requires StockOk(s) && Ledger(s) && !HolderOwnsTwo(s.rows, owners)
    ensures Fits(Free, s.inv, Reads(s.rows, owners))
  {
    var asks, t := Reads(s.rows, owners), ReleaseStock(s, s.rows, owners);
    ReadsPositive(s.rows, owners);
    SweepKeepsRowsPositive(s, owners);
    forall a | a in asks ensures a.sku in s.inv && Demand(asks, a.sku) <= s.inv[a.sku].reserved {
      DemandBounds(asks, a.sku);
      if a.sku !in s.inv {
        StrangersAreNotRead(s.rows, owners, a.sku);
      }
      SurplusBounds(s.rows, owners, a.sku);
      SweepReleasesRowsOnce(s, owners, a.sku, {Reserved});
      HeldBounds(t.rows, "", a.sku);
    }
  }

  lemma {:induction false} SweepKeepsRowsPositive(s: State, owners: seq<Option<OrderId>>)
    requires forall r | r in s.rows :: r.qty >= 1
    ensures forall r | r in ReleaseStock(s, s.rows, owners).rows :: r.qty >= 1
  {
    if owners != [] {
      var p, z := owners[..|owners|-1], owners[|owners|-1];
      SweepKeepsRowsPositive(s, p);
      if Given(z) {
        MarkKeepsPositive(ReleaseStock(s, s.rows, p).rows, z.value, Released);
      }
    }
  }

  lemma {:induction false} SurplusBounds(rows: seq<Reservation>, owners: seq<Option<OrderId>>, sku: Sku)
    requires forall r | r in rows :: r.qty >= 1
    ensures Surplus(rows, owners, sku) >= 0
    ensures !HolderOwnsTwo(rows, owners) ==> Surplus(rows, owners, sku) == 0
    ensures forall i, j | 0 <= i < j < |owners| && Given(owners[j]) && owners[i] == owners[j] ::
              Held(rows, owners[j].value, sku) <= Surplus(rows, owners, sku)
  {
    if owners != [] {
      var n := |owners| - 1;
      var p, z := owners[..n], owners[n];
      SurplusBounds(rows, p, sku);
      if Given(z) {
        HeldBounds(rows, z.value, sku);
        ActiveAsksAddUp(rows, z.value, sku);
        if z in p {
          var i :| 0 <= i < n && p[i] == z;
          assert owners[i] == owners[n];
        }
      }
    }
  }

  /**
   * A claim sweep whose releases all hit keeps every balance if and only if no order with RESERVED rows owns two of
   * the stale claims, and keeps the ledger if and only if what it releases again fits the slack.
   */
  lemma SweepKeepsBalanceIff(s: State, owners: seq<Option<OrderId>>)
    requires StockOk(s) && Fits(Free, s.inv, Reads(s.rows, owners))
    ensures (forall sku :: Balance(ReleaseStock(s, s.rows, owners), sku) == Balance(s, sku)) <==> !HolderOwnsTwo(s.rows, owners)
    ensures Ledger(ReleaseStock(s, s.rows, owners)) <==>
            forall sku | sku in s.inv :: Surplus(s.rows, owners, sku) <= Slack(s, sku)
  {
    SweepKeepsBooksIff(s, owners);
    ReadsPositive(s.rows, owners);
    forall sku
      ensures sku in s.inv ==>
                Freed(s.inv[sku].reserved, Reads(s.rows, owners), sku) - Owed(s.rows, owners, sku)
                == Surplus(s.rows, owners, sku)
      ensures !HolderOwnsTwo(s.rows, owners) ==> Surplus(s.rows, owners, sku) == 0
    {
      if sku in s.inv {
        AllFreed(s.inv, Reads(s.rows, owners), sku);
      }
      SurplusBounds(s.rows, owners, sku);
    }
    if HolderOwnsTwo(s.rows, owners) {
      var sku := TwiceOwned(s, owners);
      assert sku in s.inv && Surplus(s.rows, owners, sku) > 0;
    }
  }

  lemma TwiceOwned(s: State, owners: seq<Option<OrderId>>) returns (sku: Sku)
    requires StockOk(s) && HolderOwnsTwo(s.rows, owners)
    ensures sku in s.inv && Surplus(s.rows, owners, sku) > 0
  {
    var i, j :| 0 <= i < j < |owners| && Given(owners[j]) && owners[i] == owners[j] && ActiveAsks(s.rows, owners[j].value) != [];
    var o := owners[j].value;
    var asks := ActiveAsks(s.rows, o);
    sku := asks[0].sku;
    assert asks[0] in asks;
    ActiveAsksPositive(s.rows, o);
    DemandBounds(asks, sku);
    ActiveAsksAddUp(s.rows, o, sku);
    SurplusBounds(s.rows, owners, sku);
    ActiveAsksComeFromRows(s.rows, o, asks[0]);
  }

  /** With at most one stale claim per order with RESERVED rows, a sweep keeps every balance and the ledger. */
  lemma OneClaimEachKeepsBooks(s: State, owners: seq<Option<OrderId>>)
    requires StockOk(s) && Ledger(s) && !HolderOwnsTwo(s.rows, owners)
    ensures forall sku :: Balance(ReleaseStock(s, s.rows, owners), sku) == Balance(s, sku)
    ensures Ledger(ReleaseStock(s, s.rows, owners))
  {
    OneClaimEachFits(s, owners);
    SweepKeepsBalanceIff(s, owners);
    forall sku ensures Surplus(s.rows, owners, sku) == 0 {
      SurplusBounds(s.rows, owners, sku);
    }
  }
}

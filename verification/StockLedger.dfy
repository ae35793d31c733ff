/** Guarded UPDATEs of the inventory, one at a time and in batches, and sums over reservation rows. */
module StockLedger {
  import opened Tables

  /** One (sku, qty) pair of an UPDATE. */
  datatype Ask = Ask(sku: Sku, qty: int)

  /** The three UPDATE statements the services issue against `inventory`. */
  datatype Op = Hold | Sell | Free

  /** The largest quantity the statement's WHERE clause lets through. */
  function Headroom(op: Op, it: Item): int {
    match op
    case Hold => if it.active then it.stock - it.reserved else -1
    case Sell => if it.stock < it.reserved then it.stock else it.reserved
    case Free => it.reserved
  }

  /** The row after `times` of the statements have moved `qty` in all. */
  function Moved(op: Op, it: Item, qty: int, times: int): Item {
    match op
    case Hold => it.(reserved := it.reserved + qty, version := it.version + times)
    case Sell => it.(stock := it.stock - qty, reserved := it.reserved - qty, version := it.version + times)
    case Free => it.(reserved := it.reserved - qty, version := it.version + times)
  }

  predicate Matches(op: Op, inv: Inventory, a: Ask) {
    a.sku in inv && a.qty <= Headroom(op, inv[a.sku])
  }

  /** The WHERE and SET clauses of the three statements. */
  lemma ClausesOf(inv: Inventory, a: Ask)
    requires a.sku in inv
    ensures var it := inv[a.sku];
            && (Matches(Hold, inv, a) <==> if it.active then it.stock - it.reserved >= a.qty else a.qty < 0)
            && (Matches(Sell, inv, a) <==> it.stock >= a.qty && it.reserved >= a.qty)
            && (Matches(Free, inv, a) <==> it.reserved >= a.qty)
            && Moved(Hold, it, a.qty, 1) == it.(reserved := it.reserved + a.qty, version := it.version + 1)
            && Moved(Sell, it, a.qty, 1) ==
               it.(stock := it.stock - a.qty, reserved := it.reserved - a.qty, version := it.version + 1)
            && Moved(Free, it, a.qty, 1) == it.(reserved := it.reserved - a.qty, version := it.version + 1)
  {
  }

  /** Execute one statement. `sku` is the primary key, so the row count is one or zero. */
  method Update(db: Database, op: Op, a: Ask) returns (rowcount: nat)
    modifies db`inventory
    ensures rowcount == if Matches(op, old(db.inventory), a) then 1 else 0
    ensures db.inventory ==
            if rowcount == 1 then old(db.inventory)[a.sku := Moved(op, old(db.inventory)[a.sku], a.qty, 1)]
            else old(db.inventory)
  {
    if a.sku in db.inventory && a.qty <= Headroom(op, db.inventory[a.sku]) {
      db.inventory := db.inventory[a.sku := Moved(op, db.inventory[a.sku], a.qty, 1)];
      return 1;
    }
    return 0;
  }

  // ---------- Batches ----------

  ghost predicate PositiveAsks(asks: seq<Ask>) {
    forall a | a in asks :: a.qty >= 1
  }

  function Demand(asks: seq<Ask>, sku: Sku): int {
    if asks == [] then 0
    else Demand(asks[..|asks|-1], sku) + (if asks[|asks|-1].sku == sku then asks[|asks|-1].qty else 0)
  }

  function Hits(asks: seq<Ask>, sku: Sku): nat {
    if asks == [] then 0
    else Hits(asks[..|asks|-1], sku) + (if asks[|asks|-1].sku == sku then 1 else 0)
  }

  /** Every SKU asked for exists and the batch's total demand for it passes the guard. */
  ghost predicate Fits(op: Op, inv: Inventory, asks: seq<Ask>) {
    forall a | a in asks :: a.sku in inv && Demand(asks, a.sku) <= Headroom(op, inv[a.sku])
  }

  /** The inventory after each SKU has moved by its total demand. */
  ghost function MovedAll(op: Op, inv: Inventory, asks: seq<Ask>): Inventory {
    map sku | sku in inv :: Moved(op, inv[sku], Demand(asks, sku), Hits(asks, sku))
  }

  lemma {:induction false} DemandBounds(asks: seq<Ask>, sku: Sku)
    requires PositiveAsks(asks)
    ensures 0 <= Demand(asks, sku)
    ensures (exists a | a in asks :: a.sku == sku) <==> Demand(asks, sku) >= 1
    ensures Demand(asks, sku) == 0 <==> Hits(asks, sku) == 0
  {
    if asks != [] {
      var p, z := asks[..|asks|-1], asks[|asks|-1];
      assert asks == p + [z];
      DemandBounds(p, sku);
    }
  }

  lemma {:induction false} DemandSplits(xs: seq<Ask>, ys: seq<Ask>, sku: Sku)
    ensures Demand(xs + ys, sku) == Demand(xs, sku) + Demand(ys, sku)
    ensures Hits(xs + ys, sku) == Hits(xs, sku) + Hits(ys, sku)
  {
    if ys == [] {
      assert xs + ys == xs;
    } else {
      var p := ys[..|ys|-1];
      assert (xs + ys)[..|xs + ys|-1] == xs + p;
      DemandSplits(xs, p, sku);
    }
  }

  /** A batch that fits moves all its prefixes too. */
  lemma PrefixFits(op: Op, inv: Inventory, asks: seq<Ask>, k: nat)
    requires k <= |asks| && PositiveAsks(asks) && Fits(op, inv, asks)
    ensures Fits(op, inv, asks[..k])
  {
    forall a | a in asks[..k]
      ensures a.sku in inv && Demand(asks[..k], a.sku) <= Headroom(op, inv[a.sku])
    {
      assert asks == asks[..k] + asks[k..];
      DemandSplits(asks[..k], asks[k..], a.sku);
      DemandBounds(asks[k..], a.sku);
    }
  }

  lemma DemandAppends(p: seq<Ask>, z: Ask, sku: Sku)
    ensures Demand(p + [z], sku) == Demand(p, sku) + (if z.sku == sku then z.qty else 0)
    ensures Hits(p + [z], sku) == Hits(p, sku) + (if z.sku == sku then 1 else 0)
  {
    assert (p + [z])[..|p|] == p;
  }

  lemma MovesAddUp(op: Op, it: Item, q: int, j: int, r: int, k: int)
    ensures Moved(op, Moved(op, it, q, j), r, k) == Moved(op, it, q + r, j + k)
  {
  }

  lemma MovedAppends(op: Op, inv: Inventory, p: seq<Ask>, z: Ask, sku: Sku)
    requires sku in inv
    ensures MovedAll(op, inv, p + [z])[sku] ==
            if sku == z.sku then Moved(op, MovedAll(op, inv, p)[sku], z.qty, 1) else MovedAll(op, inv, p)[sku]
  {
    DemandAppends(p, z, sku);
    MovesAddUp(op, inv[sku], Demand(p, sku), Hits(p, sku), z.qty, 1);
  }

  lemma MovedAllAppends(op: Op, inv: Inventory, p: seq<Ask>, z: Ask)
    requires z.sku in inv
    ensures MovedAll(op, inv, p)[z.sku := Moved(op, MovedAll(op, inv, p)[z.sku], z.qty, 1)] == MovedAll(op, inv, p + [z])
  {
    var before, after := MovedAll(op, inv, p), MovedAll(op, inv, p + [z]);
    var moved := Moved(op, before[z.sku], z.qty, 1);
    forall sku | sku in inv ensures after[sku] == if sku == z.sku then moved else before[sku] {
      MovedAppends(op, inv, p, z, sku);
    }
  }

  /** After the first k statements of a batch have hit, the next one hits its row. */
  ghost predicate Hit(op: Op, inv: Inventory, asks: seq<Ask>, k: nat)
    requires k < |asks|
  {
    Matches(op, MovedAll(op, inv, asks[..k]), asks[k])
  }

  /** A statement that hits moves the table from the totals of k statements to those of k + 1. */
  lemma HitMoves(op: Op, inv: Inventory, asks: seq<Ask>, k: nat)
    requires k < |asks| && asks[k].sku in inv
    ensures MovedAll(op, inv, asks[..k])[asks[k].sku := Moved(op, MovedAll(op, inv, asks[..k])[asks[k].sku], asks[k].qty, 1)]
            == MovedAll(op, inv, asks[..k+1])
  {
    assert asks[..k+1] == asks[..k] + [asks[k]];
    MovedAllAppends(op, inv, asks[..k], asks[k]);
  }

  /** The next statement of a batch whose first k statements hit. */
  method UpdateNext(db: Database, op: Op, ghost inv: Inventory, asks: seq<Ask>, k: nat) returns (rowcount: nat)
    requires k < |asks| && db.inventory == MovedAll(op, inv, asks[..k])
    modifies db`inventory
    ensures rowcount == if Hit(op, inv, asks, k) then 1 else 0
    ensures db.inventory == if rowcount == 1 then MovedAll(op, inv, asks[..k+1]) else old(db.inventory)
  {
    rowcount := Update(db, op, asks[k]);
    if rowcount == 1 {
      HitMoves(op, inv, asks, k);
    }
  }

  /** One more statement after a prefix that fitted: it hits its row iff the longer prefix fits. */
  lemma NextStatement(op: Op, inv: Inventory, asks: seq<Ask>, k: nat)
    requires k < |asks| && PositiveAsks(asks) && Fits(op, inv, asks[..k])
    ensures Hit(op, inv, asks, k) <==> Fits(op, inv, asks[..k+1])
  {
    var p, z := asks[..k], asks[k];
    assert asks[..k+1] == p + [z];
    DemandBounds(p, z.sku);
  }

  /** How many leading statements of the batch hit their row before the first that does not. */
  ghost function Served(op: Op, inv: Inventory, asks: seq<Ask>): (k: nat)
    ensures k <= |asks|
  {
    if asks == [] then 0
    else
      var k := Served(op, inv, asks[..|asks|-1]);
      if k == |asks| - 1 && Hit(op, inv, asks, k) then |asks| else k
  }

  lemma {:induction false} ServedIs(op: Op, inv: Inventory, asks: seq<Ask>, k: nat)
    requires k <= |asks| && (forall i | 0 <= i < k :: Hit(op, inv, asks, i)) && (k < |asks| ==> !Hit(op, inv, asks, k))
    ensures Served(op, inv, asks) == k
  {
    if asks != [] {
      var n := |asks| - 1;
      var p := asks[..n];
      forall i | 0 <= i < n ensures Hit(op, inv, p, i) == Hit(op, inv, asks, i) {
        assert p[..i] == asks[..i];
      }
      ServedIs(op, inv, p, if k <= n then k else n);
    }
  }

  /** The batch is served whole exactly when the total demand for each SKU passes its guard. */
  lemma {:induction false} ServedWholeIffFits(op: Op, inv: Inventory, asks: seq<Ask>)
    requires PositiveAsks(asks)
    ensures Served(op, inv, asks) == |asks| <==> Fits(op, inv, asks)
  {
    if asks != [] {
      var n := |asks| - 1;
      ServedWholeIffFits(op, inv, asks[..n]);
      assert asks[..n+1] == asks;
      if Fits(op, inv, asks[..n]) {
        NextStatement(op, inv, asks, n);
      } else if Fits(op, inv, asks) {
        PrefixFits(op, inv, asks, n);
      }
    }
  }

  /** The statements before the first that misses fit. */
  lemma {:induction false} ServedPrefixFits(op: Op, inv: Inventory, asks: seq<Ask>)
    requires PositiveAsks(asks)
    ensures Fits(op, inv, asks[..Served(op, inv, asks)])
  {
    if asks != [] {
      var n := |asks| - 1;
      var k := Served(op, inv, asks[..n]);
      ServedPrefixFits(op, inv, asks[..n]);
      assert asks[..n][..k] == asks[..k] && asks[..n+1] == asks;
      if k == n {
        NextStatement(op, inv, asks, n);
      }
    }
  }

  lemma {:induction false} ServedStopsAtAMiss(op: Op, inv: Inventory, asks: seq<Ask>, k: nat)
    requires k == Served(op, inv, asks) < |asks|
    ensures !Hit(op, inv, asks, k)
  {
    var n := |asks| - 1;
    if k < n {
      ServedStopsAtAMiss(op, inv, asks[..n], k);
      assert asks[..n][..k] == asks[..k];
    }
  }

  lemma AMissDoesNotFit(op: Op, inv: Inventory, asks: seq<Ask>, k: nat)
    requires k < |asks| && PositiveAsks(asks) && Fits(op, inv, asks[..k]) && !Hit(op, inv, asks, k)
    ensures !Fits(op, inv, asks[..k+1])
  {
    NextStatement(op, inv, asks, k);
  }

  /** The first statement that misses is the one at which the totals stop passing. */
  lemma ServedStopsWhereNothingFits(op: Op, inv: Inventory, asks: seq<Ask>, k: nat)
    requires PositiveAsks(asks) && k == Served(op, inv, asks)
    ensures Fits(op, inv, asks[..k])
    ensures k < |asks| ==> !Fits(op, inv, asks[..k+1])
  {
    ServedPrefixFits(op, inv, asks);
    if k < |asks| {
      ServedStopsAtAMiss(op, inv, asks, k);
      AMissDoesNotFit(op, inv, asks, k);
    }
  }

  lemma FittingIsServed(op: Op, inv: Inventory, asks: seq<Ask>)
    requires PositiveAsks(asks) && Fits(op, inv, asks)
    ensures Served(op, inv, asks) == |asks|
  {
    ServedWholeIffFits(op, inv, asks);
  }

  lemma DemandWithout(asks: seq<Ask>, i: nat, sku: Sku)
    requires i < |asks|
    ensures Demand(asks, sku) == Demand(asks[..i] + asks[i+1..], sku) + (if asks[i].sku == sku then asks[i].qty else 0)
    ensures Hits(asks, sku) == Hits(asks[..i] + asks[i+1..], sku) + (if asks[i].sku == sku then 1 else 0)
  {
    var z := asks[i];
    assert asks == (asks[..i] + [z]) + asks[i+1..];
    DemandSplits(asks[..i] + [z], asks[i+1..], sku);
    DemandAppends(asks[..i], z, sku);
    DemandSplits(asks[..i], asks[i+1..], sku);
  }

  lemma WithoutOne(asks: seq<Ask>, i: nat)
    requires i < |asks|
    ensures multiset(asks[..i] + asks[i+1..]) == multiset(asks) - multiset{asks[i]}
  {
    assert asks == asks[..i] + [asks[i]] + asks[i+1..];
  }

  /** Demand does not depend on the order of the asks. */
  lemma {:induction false} DemandPermutes(xs: seq<Ask>, ys: seq<Ask>, sku: Sku)
    requires multiset(xs) == multiset(ys)
    ensures Demand(xs, sku) == Demand(ys, sku)
    ensures Hits(xs, sku) == Hits(ys, sku)
  {
    if xs == [] {
      assert |multiset(ys)| == 0;
    } else {
      var n := |xs| - 1;
      var z := xs[n];
      assert xs == xs[..n] + [z];
      assert z in multiset(ys);
      var i: nat :| i < |ys| && ys[i] == z;
      var rest := ys[..i] + ys[i+1..];
      WithoutOne(ys, i);
      assert multiset(xs[..n]) == multiset(rest);
      DemandWithout(ys, i, sku);
      DemandPermutes(xs[..n], rest, sku);
    }
  }

  lemma BatchPermutes(op: Op, inv: Inventory, xs: seq<Ask>, ys: seq<Ask>)
    requires multiset(xs) == multiset(ys)
    ensures Fits(op, inv, xs) <==> Fits(op, inv, ys)
    ensures MovedAll(op, inv, xs) == MovedAll(op, inv, ys)
  {
    forall sku
      ensures Demand(xs, sku) == Demand(ys, sku) && Hits(xs, sku) == Hits(ys, sku)
    {
      DemandPermutes(xs, ys, sku);
    }
    assert forall a :: a in xs <==> a in multiset(xs);
    assert forall a :: a in ys <==> a in multiset(ys);
  }

  // ---------- Releases whose row count nobody checks ----------

  /** The release statements one after another; one whose guard fails leaves its row alone. */
  ghost function FreeAll(inv: Inventory, asks: seq<Ask>): Inventory {
    if asks == [] then inv
    else
      var before, z := FreeAll(inv, asks[..|asks|-1]), asks[|asks|-1];
      if Matches(Free, before, z) then before[z.sku := Moved(Free, before[z.sku], z.qty, 1)] else before
  }

  lemma FreeAllAppends(inv: Inventory, p: seq<Ask>, z: Ask)
    ensures FreeAll(inv, p + [z]) ==
            var before := FreeAll(inv, p);
            if Matches(Free, before, z) then before[z.sku := Moved(Free, before[z.sku], z.qty, 1)] else before
  {
    assert (p + [z])[..|p|] == p;
  }

  /** When the batch fits, no release misses. */
  lemma {:induction false} FreeAllHits(inv: Inventory, asks: seq<Ask>)
    requires PositiveAsks(asks) && Fits(Free, inv, asks)
    ensures FreeAll(inv, asks) == MovedAll(Free, inv, asks)
  {
    if asks != [] {
      var n := |asks| - 1;
      PrefixFits(Free, inv, asks, n);
      FreeAllHits(inv, asks[..n]);
      assert asks[..n+1] == asks;
      NextStatement(Free, inv, asks, n);
      HitMoves(Free, inv, asks, n);
    }
  }

  /** Whatever misses, a batch of releases touches only `reserved` and `version`, and frees no more than it asks for. */
  lemma {:induction false} FreeAllBounds(inv: Inventory, asks: seq<Ask>, sku: Sku)
    requires PositiveAsks(asks) && sku in inv
    ensures FreeAll(inv, asks).Keys == inv.Keys
    ensures var it := FreeAll(inv, asks)[sku];
            && it == inv[sku].(reserved := it.reserved, version := it.version)
            && inv[sku].reserved - Demand(asks, sku) <= it.reserved <= inv[sku].reserved
            && (0 <= inv[sku].reserved ==> 0 <= it.reserved)
  {
    if asks != [] {
      var p, z := asks[..|asks|-1], asks[|asks|-1];
      assert asks == p + [z];
      FreeAllBounds(inv, p, sku);
    }
  }
}

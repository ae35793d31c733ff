/** The sheet merge over whole runs: the snapshot always is the last listing, so sales are never undone. */
module SheetHistory {
  import opened Tables
  import opened ReservationService
  import opened EscalationService
  import opened SheetIngest
  import opened Shop

  /** The last valid listing of each SKU after one more step; a sync that fails at the commit lists nothing. */
  ghost function ListedAfter(s: State, step: Step, listed: map<Sku, SheetRow>): map<Sku, SheetRow> {
    if step.SyncSheet? && Act(s, step).1 == Done then List(listed, step.sheet) else listed
  }

  ghost function ListedIn(s: State, steps: seq<Step>, listed: map<Sku, SheetRow>): map<Sku, SheetRow>
    decreases steps
  {
    if steps == [] then listed else ListedIn(Next(s, steps[0]), steps[1..], ListedAfter(s, steps[0], listed))
  }

  lemma {:induction false} ExpireKeepsSnapshots(s: State, locked: seq<OrderId>, now: int)
    ensures Expire(s, locked, now).snaps == s.snaps
  {
    if locked != [] {
      ExpireKeepsSnapshots(s, locked[..|locked|-1], now);
    }
  }

  lemma {:induction false} SweepKeepsSnapshots(s: State, read: seq<Reservation>, owners: seq<Option<OrderId>>)
    ensures ReleaseStock(s, read, owners).snaps == s.snaps
  {
    if owners != [] {
      SweepKeepsSnapshots(s, read, owners[..|owners|-1]);
    }
  }

  lemma OtherStepsKeepSnapshots(s: State, step: Step)
    requires !step.SyncSheet?
    ensures Next(s, step).snaps == s.snaps
  {
    match step
    case ExpireOverdue(locked, at) => ExpireKeepsSnapshots(s, locked, at);
    case SweepStale(locked, clock, ceiling) =>
      SweepKeepsSnapshots(s, s.rows, StaleOwners(s.claims, locked, clock - ceiling));
    case _ =>
  }

  /** After any run the snapshot table is the canonical form of each SKU's last valid listing. */
  lemma {:induction false} SnapshotsFollowRuns(s: State, steps: seq<Step>, listed: map<Sku, SheetRow>)
    requires SnapshotsFollow(s.snaps, listed)
    ensures SnapshotsFollow(Run(s, steps).snaps, ListedIn(s, steps, listed))
    decreases steps
  {
    if steps != [] {
      var step := steps[0];
      if step.SyncSheet? {
        MergeRowsFollow(s, step.sheet, listed);
      } else {
        OtherStepsKeepSnapshots(s, step);
      }
      SnapshotsFollowRuns(Next(s, step), steps[1..], ListedAfter(s, step, listed));
    }
  }

  // ---------- One sync, whole sheet ----------

  /** Rows of other SKUs leave a SKU's item and snapshot alone. */
  lemma {:induction false} OtherRowsAreLocal(s: State, rows: seq<SheetRow>, sku: Sku)
    requires forall r | r in rows :: r.sku != sku
    ensures ItemOf(MergeRows(s, rows).inv, sku) == ItemOf(s.inv, sku)
    ensures SnapOf(MergeRows(s, rows).snaps, sku) == SnapOf(s.snaps, sku)
  {
    if rows != [] {
      var p, z := rows[..|rows|-1], rows[|rows|-1];
      OtherRowsAreLocal(s, p, sku);
      MergeRowSparesOthers(MergeRows(s, p), z, sku);
    }
  }

  /** On a sheet with distinct SKUs each row acts as if it were alone. */
  lemma {:induction false} RowsActAlone(s: State, rows: seq<SheetRow>, i: nat)
    requires DistinctSkus(rows) && i < |rows|
    ensures ItemOf(MergeRows(s, rows).inv, rows[i].sku) == ItemOf(MergeRow(s, rows[i]).inv, rows[i].sku)
  {
    var n := |rows| - 1;
    var p, z := rows[..n], rows[n];
    var t := MergeRows(s, p);
    if i < n {
      assert p[i] == rows[i];
      RowsActAlone(s, p, i);
      MergeRowSparesOthers(t, z, rows[i].sku);
    } else {
      OtherRowsAreLocal(s, p, z.sku);
    }
  }

  /**
   * In any run, a sync of a sheet with distinct SKUs writes a tracked field of a known item iff its canonical
   * value differs from the last valid listing of that SKU, and leaves `reserved` as it was.
   */
  lemma SyncWritesExactlyTheEdits(s0: State, steps: seq<Step>, listed0: map<Sku, SheetRow>, sheet: seq<SheetRow>, i: nat, f: Field)
    requires SnapshotsFollow(s0.snaps, listed0) && DistinctSkus(sheet) && i < |sheet|
    requires sheet[i].sku in Run(s0, steps).inv
    ensures var s, listed, row := Run(s0, steps), ListedIn(s0, steps, listed0), sheet[i];
            var t := Sync(s, sheet);
            && t.1 == Done && row.sku in t.0.inv
            && ItemCell(t.0.inv[row.sku], f) == (if SellerEdited(listed, row, f) then RowCell(row, f) else ItemCell(s.inv[row.sku], f))
            && t.0.inv[row.sku].reserved == s.inv[row.sku].reserved
  {
    SnapshotsFollowRuns(s0, steps, listed0);
    RowsActAlone(Run(s0, steps), sheet, i);
    MergeWritesEdits(Run(s0, steps), sheet[i], ListedIn(s0, steps, listed0), f);
  }

  /**
   * In any run, a sync of a sheet with distinct SKUs takes into each known and listed item the columns in which its row
   * differs from the last valid listing of that SKU, prices, stocks and flags by value, and no other.
   */
  lemma SyncWritesWhatDiffers(s0: State, steps: seq<Step>, listed0: map<Sku, SheetRow>, sheet: seq<SheetRow>, i: nat)
    requires SnapshotsFollow(s0.snaps, listed0) && DistinctSkus(sheet) && i < |sheet|
    requires sheet[i].sku in Run(s0, steps).inv && sheet[i].sku in ListedIn(s0, steps, listed0)
    ensures var s, r := Run(s0, steps), sheet[i];
            && Sync(s, sheet).1 == Done && r.sku in Sync(s, sheet).0.inv
            && Sync(s, sheet).0.inv[r.sku] == Amended(s.inv[r.sku], ListedIn(s0, steps, listed0)[r.sku], r)
  {
    SnapshotsFollowRuns(s0, steps, listed0);
    RowsActAlone(Run(s0, steps), sheet, i);
    MergeWritesWhatDiffers(Run(s0, steps), sheet[i], ListedIn(s0, steps, listed0), ListedIn(s0, steps, listed0)[sheet[i].sku]);
  }

  // ---------- Syncing the same sheet again ----------

  lemma {:induction false} ListedLast(listed: map<Sku, SheetRow>, rows: seq<SheetRow>, i: nat)
    requires DistinctSkus(rows) && i < |rows|
    ensures rows[i].sku in List(listed, rows) && List(listed, rows)[rows[i].sku] == rows[i]
  {
    var n := |rows| - 1;
    if i < n {
      ListedLast(listed, rows[..n], i);
      assert rows[n].sku != rows[i].sku;
    }
  }

  /** A sheet whose rows all are the last listings writes nothing. */
  lemma {:induction false} KnownRowsAreIdle(s: State, rows: seq<SheetRow>, listed: map<Sku, SheetRow>)
    requires SnapshotsFollow(s.snaps, listed)
    requires forall r | r in rows :: r.sku in listed && Forms(r) == Forms(listed[r.sku])
    ensures MergeRows(s, rows) == s
  {
    if rows != [] {
      var p, z := rows[..|rows|-1], rows[|rows|-1];
      KnownRowsAreIdle(s, p, listed);
      SnapIsLastListing(s.snaps, listed, z.sku);
      FormsAreTracked(z);
      forall f | f in TRACKED ensures Form(z, f) == Last(s.snaps[z.sku], f) {
        assert Forms(z)[f] == Forms(listed[z.sku])[f];
      }
      UnchangedRowKeepsAll(s, z);
    }
  }

  lemma KnownSheet(listed: map<Sku, SheetRow>, sheet: seq<SheetRow>)
    requires DistinctSkus(sheet)
    ensures forall r | r in sheet :: r.sku in List(listed, sheet) && List(listed, sheet)[r.sku] == r
  {
    forall r | r in sheet ensures r.sku in List(listed, sheet) && List(listed, sheet)[r.sku] == r {
      var i :| 0 <= i < |sheet| && sheet[i] == r;
      ListedLast(listed, sheet, i);
    }
  }

  lemma {:induction false} RunsWithoutSyncsKeepSnapshots(s: State, steps: seq<Step>)
    requires forall step | step in steps :: !step.SyncSheet?
    ensures Run(s, steps).snaps == s.snaps
    decreases steps
  {
    if steps != [] {
      OtherStepsKeepSnapshots(s, steps[0]);
      RunsWithoutSyncsKeepSnapshots(Next(s, steps[0]), steps[1..]);
    }
  }

  /** However much is reserved, sold or released in between, syncing an unchanged sheet again changes nothing. */
  lemma ResyncNeverUndoesSales(s: State, listed: map<Sku, SheetRow>, sheet: seq<SheetRow>, steps: seq<Step>)
    requires SnapshotsFollow(s.snaps, listed) && DistinctSkus(sheet)
    requires forall step | step in steps :: !step.SyncSheet?
    ensures var t := Run(Next(s, SyncSheet(sheet)), steps);
            Sync(t, sheet) == (t, Done)
  {
    var synced := Next(s, SyncSheet(sheet));
    assert synced == MergeRows(s, sheet);
    MergeRowsFollow(s, sheet, listed);
    RunsWithoutSyncsKeepSnapshots(synced, steps);
    KnownSheet(listed, sheet);
    KnownRowsAreIdle(Run(synced, steps), sheet, List(listed, sheet));
  }
}

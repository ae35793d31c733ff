/** The seller's sheet merged into the inventory, field by field, against a snapshot of the last sync. */
module SheetIngest {
  import opened Tables
  import opened Text

  /** One validated row of the sheet; price in cents. */
  datatype SheetRow = SheetRow(
    sku: Sku, name: string, category: Option<string>, price: nat,
    imageUrl: Option<string>, stock: nat, active: bool)

  const TRACKED: set<Field> := {Name, Category, Price, ImageUrl, Stock, Active}

  function Cents(n: nat): string {
    Digits(n / 100) + "." + Digits(n % 100 / 10) + Digits(n % 10)
  }

  function OrBlank(s: Option<string>): string {
    if s.Some? then Strip(s.value) else ""
  }

  /** The canonical text of a field, compared between syncs. */
  function Form(row: SheetRow, f: Field): string {
    match f
    case Name => Strip(row.name)
    case Category => OrBlank(row.category)
    case Price => Cents(row.price)
    case ImageUrl => OrBlank(row.imageUrl)
    case Stock => Digits(row.stock)
    case Active => if row.active then "true" else "false"
  }

  function Forms(row: SheetRow): Snapshot {
    map f | f in TRACKED :: Form(row, f)
  }

  function Last(snap: Snapshot, f: Field): string {
    if f in snap then snap[f] else ""
  }

  function Changed(snap: Snapshot, row: SheetRow): set<Field> {
    set f | f in TRACKED && Form(row, f) != Last(snap, f)
  }

  /** The snapshot rows of a SKU, if it has any. */
  function SnapOf(snaps: map<Sku, Snapshot>, sku: Sku): Option<Snapshot> {
    if sku in snaps && snaps[sku] != map[] then Some(snaps[sku]) else None
  }

  function ItemOf(inv: Inventory, sku: Sku): Option<Item> {
    if sku in inv then Some(inv[sku]) else None
  }

  // ---------- Specification ----------

  function Overwritten(it: Item, row: SheetRow, fields: set<Field>): Item {
    it.(name := if Name in fields then row.name else it.name,
        category := if Category in fields then row.category else it.category,
        price := if Price in fields then row.price else it.price,
        imageUrl := if ImageUrl in fields then row.imageUrl else it.imageUrl,
        stock := if Stock in fields then row.stock else it.stock,
        active := if Active in fields then row.active else it.active,
        version := it.version + 1)
  }

  function FreshItem(row: SheetRow): Item {
    Item(row.name, row.category, row.price, row.imageUrl, row.stock, 0, row.active, 1)
  }

  /** Which fields of the inventory row the sheet's row overwrites. */
  function Edits(snap: Option<Snapshot>, row: SheetRow): set<Field> {
    if snap.None? then TRACKED else Changed(snap.value, row)
  }

  function ItemAfter(it: Option<Item>, snap: Option<Snapshot>, row: SheetRow): Option<Item> {
    if it.None? then (if snap.None? then Some(FreshItem(row)) else None)
    else if Edits(snap, row) == {} then it
    else Some(Overwritten(it.value, row, Edits(snap, row)))
  }

  function SnapAfter(snap: Option<Snapshot>, row: SheetRow): Snapshot {
    if snap.None? then Forms(row)
    else map f | f in snap.value :: if f in Changed(snap.value, row) then Form(row, f) else snap.value[f]
  }

  function Put(inv: Inventory, sku: Sku, it: Option<Item>): Inventory {
    if it.None? then inv else inv[sku := it.value]
  }

  ghost function MergeRow(s: State, row: SheetRow): State {
    var it, snap := ItemOf(s.inv, row.sku), SnapOf(s.snaps, row.sku);
    s.(inv := Put(s.inv, row.sku, ItemAfter(it, snap, row)),
       snaps := s.snaps[row.sku := SnapAfter(snap, row)])
  }

  ghost function MergeRows(s: State, rows: seq<SheetRow>): State {
    if rows == [] then s else MergeRow(MergeRows(s, rows[..|rows|-1]), rows[|rows|-1])
  }

  /** Two rows that list the same unknown SKU make the commit insert a primary key twice. */
  predicate ListsNewSkuTwice(snaps: map<Sku, Snapshot>, rows: seq<SheetRow>) {
    exists i, j | 0 <= i < j < |rows| :: rows[i].sku == rows[j].sku && SnapOf(snaps, rows[i].sku).None?
  }

  ghost function Sync(s: State, rows: seq<SheetRow>): (State, Reply) {
    if ListsNewSkuTwice(s.snaps, rows) then (s, KeyConflict) else (MergeRows(s, rows), Done)
  }

  // ---------- Service ----------

  datatype Outcome = Inserted | Updated | Same

  datatype Summary = Summary(inserted: int, updated: int, same: int)

  /** What a row counts as. */
  function OutcomeOf(snap: Option<Snapshot>, row: SheetRow): Outcome {
    if snap.None? then Inserted else if Changed(snap.value, row) == {} then Same else Updated
  }

  function Count(summary: Summary, outcome: Outcome): Summary {
    match outcome
    case Inserted => summary.(inserted := summary.inserted + 1)
    case Updated => summary.(updated := summary.updated + 1)
    case Same => summary.(same := summary.same + 1)
  }

  ghost function Counted(s: State, rows: seq<SheetRow>): Summary {
    if rows == [] then Summary(0, 0, 0)
    else
      var p, z := rows[..|rows|-1], rows[|rows|-1];
      Count(Counted(s, p), OutcomeOf(SnapOf(MergeRows(s, p).snaps, z.sku), z))
  }

  lemma UnchangedRowKeepsAll(s: State, row: SheetRow)
    requires SnapOf(s.snaps, row.sku).Some? && Changed(s.snaps[row.sku], row) == {}
    ensures MergeRow(s, row) == s
  {
    var snap := SnapOf(s.snaps, row.sku);
    assert SnapAfter(snap, row) == snap.value;
    assert s.snaps[row.sku := snap.value] == s.snaps;
    if row.sku in s.inv {
      assert s.inv[row.sku := s.inv[row.sku]] == s.inv;
    }
  }

  method IngestRow(db: Database, row: SheetRow) returns (outcome: Outcome)
    modifies db`inventory, db`snapshots
    ensures db.Now() == MergeRow(old(db.Now()), row)
    ensures outcome == OutcomeOf(SnapOf(old(db.snapshots), row.sku), row)
    ensures outcome == Same ==> db.Now() == old(db.Now())
  {
    var snap := SnapOf(db.snapshots, row.sku);
    if snap.None? {
      if row.sku !in db.inventory {
        db.inventory := db.inventory[row.sku := FreshItem(row)];
      } else {
        db.inventory := db.inventory[row.sku := Overwritten(db.inventory[row.sku], row, TRACKED)];
      }
      db.snapshots := db.snapshots[row.sku := Forms(row)];
      return Inserted;
    }
    var changed := Changed(snap.value, row);
    if changed == {} {
      UnchangedRowKeepsAll(db.Now(), row);
      return Same;
    }
    if row.sku in db.inventory {
      db.inventory := db.inventory[row.sku := Overwritten(db.inventory[row.sku], row, changed)];
    }
    db.snapshots := db.snapshots[row.sku := SnapAfter(snap, row)];
    return Updated;
  }

  lemma MergeRowsNext(s: State, rows: seq<SheetRow>, i: nat)
    requires i < |rows|
    ensures MergeRows(s, rows[..i+1]) == MergeRow(MergeRows(s, rows[..i]), rows[i])
    ensures Counted(s, rows[..i+1]) ==
            Count(Counted(s, rows[..i]), OutcomeOf(SnapOf(MergeRows(s, rows[..i]).snaps, rows[i].sku), rows[i]))
  {
    assert rows[..i+1][..i] == rows[..i];
  }

  /** The loop body: the next row, merged and counted. */
  method MergeNext(db: Database, ghost before: State, rows: seq<SheetRow>, i: nat, summary: Summary) returns (next: Summary)
    requires i < |rows| && db.Now() == MergeRows(before, rows[..i]) && summary == Counted(before, rows[..i])
    modifies db`inventory, db`snapshots
    ensures db.Now() == MergeRows(before, rows[..i+1])
    ensures next == Counted(before, rows[..i+1])
  {
    MergeRowsNext(before, rows, i);
    var outcome := IngestRow(db, rows[i]);
    next := Count(summary, outcome);
  }

  method IngestRows(db: Database, rows: seq<SheetRow>) returns (summary: Summary)
    modifies db`inventory, db`snapshots
    ensures db.Now() == MergeRows(old(db.Now()), rows)
    ensures summary == Counted(old(db.Now()), rows)
  {
    summary := Summary(0, 0, 0);
    ghost var before := db.Now();
    var i := 0;
    while i < |rows|
      invariant i <= |rows|
      invariant db.Now() == MergeRows(before, rows[..i])
      invariant summary == Counted(before, rows[..i])
    {
      summary := MergeNext(db, before, rows, i, summary);
      i := i + 1;
    }
    assert rows[..|rows|] == rows;
  }

  /** Merge every row; a primary key conflict at the commit rolls all of them back. */
  method IngestFromValues(db: Database, rows: seq<SheetRow>) returns (reply: Reply, summary: Summary)
    modifies db
    ensures (db.Now(), reply) == Sync(old(db.Now()), rows)
    ensures summary == Counted(old(db.Now()), rows)
  {
    var inventory, snapshots := db.inventory, db.snapshots;
    summary := IngestRows(db, rows);
    if ListsNewSkuTwice(snapshots, rows) {
      db.inventory, db.snapshots := inventory, snapshots;
      return KeyConflict, summary;
    }
    return Done, summary;
  }

  // ---------- What a merge does ----------

  datatype Cell = Words(string) | Optional(Option<string>) | Number(int) | Flag(bool)

  function ItemCell(it: Item, f: Field): Cell {
    match f
    case Name => Words(it.name)
    case Category => Optional(it.category)
    case Price => Number(it.price)
    case ImageUrl => Optional(it.imageUrl)
    case Stock => Number(it.stock)
    case Active => Flag(it.active)
  }

  function RowCell(row: SheetRow, f: Field): Cell {
    match f
    case Name => Words(row.name)
    case Category => Optional(row.category)
    case Price => Number(row.price)
    case ImageUrl => Optional(row.imageUrl)
    case Stock => Number(row.stock)
    case Active => Flag(row.active)
  }

  lemma {:induction false} EveryRowIsCounted(s: State, rows: seq<SheetRow>)
    ensures var c := Counted(s, rows);
            c.inserted >= 0 && c.updated >= 0 && c.same >= 0 && c.inserted + c.updated + c.same == |rows|
  {
    if rows != [] {
      EveryRowIsCounted(s, rows[..|rows|-1]);
    }
  }

  /** A sync that counts every row as unchanged changed nothing. */
  lemma {:induction false} AllSameMeansNoWrite(s: State, rows: seq<SheetRow>)
    requires Counted(s, rows).same == |rows|
    ensures MergeRows(s, rows) == s
  {
    if rows != [] {
      var p, z := rows[..|rows|-1], rows[|rows|-1];
      EveryRowIsCounted(s, p);
      AllSameMeansNoWrite(s, p);
      UnchangedRowKeepsAll(s, z);
    }
  }

  /** The latest row listed for each SKU. */
  function List(listed: map<Sku, SheetRow>, rows: seq<SheetRow>): map<Sku, SheetRow> {
    if rows == [] then listed else List(listed, rows[..|rows|-1])[rows[|rows|-1].sku := rows[|rows|-1]]
  }

  /** The snapshot table is the canonical form of what was last listed. */
  ghost predicate SnapshotsFollow(snaps: map<Sku, Snapshot>, listed: map<Sku, SheetRow>) {
    && snaps.Keys == listed.Keys
    && forall sku | sku in listed :: snaps[sku] == Forms(listed[sku])
  }

  /** Whether the sheet's value for the field differs from the last listing, or there was none. */
  predicate SellerEdited(listed: map<Sku, SheetRow>, row: SheetRow, f: Field) {
    row.sku !in listed || Form(row, f) != Form(listed[row.sku], f)
  }

  lemma FormsAreTracked(row: SheetRow)
    ensures Forms(row).Keys == TRACKED && Forms(row) != map[]
  {
    assert Name in Forms(row);
  }

  /** What the code compares with is the last listing of the SKU. */
  lemma SnapIsLastListing(snaps: map<Sku, Snapshot>, listed: map<Sku, SheetRow>, sku: Sku)
    requires SnapshotsFollow(snaps, listed)
    ensures SnapOf(snaps, sku) == if sku in listed then Some(Forms(listed[sku])) else None
  {
    if sku in listed {
      FormsAreTracked(listed[sku]);
    }
  }

  lemma SnapFollowsListing(snaps: map<Sku, Snapshot>, row: SheetRow, listed: map<Sku, SheetRow>)
    requires SnapshotsFollow(snaps, listed)
    ensures SnapAfter(SnapOf(snaps, row.sku), row) == Forms(row)
  {
    SnapIsLastListing(snaps, listed, row.sku);
  }

  lemma MergeRowFollows(s: State, row: SheetRow, listed: map<Sku, SheetRow>)
    requires SnapshotsFollow(s.snaps, listed)
    ensures SnapshotsFollow(MergeRow(s, row).snaps, listed[row.sku := row])
  {
    SnapFollowsListing(s.snaps, row, listed);
    assert MergeRow(s, row).snaps == s.snaps[row.sku := Forms(row)];
  }

  /** The fields a merge overwrites are the ones the seller edited since the last listing. */
  lemma EditsAreSellerEdits(s: State, row: SheetRow, listed: map<Sku, SheetRow>, f: Field)
    requires SnapshotsFollow(s.snaps, listed)
    ensures f in Edits(SnapOf(s.snaps, row.sku), row) <==> SellerEdited(listed, row, f)
  {
    SnapIsLastListing(s.snaps, listed, row.sku);
    if row.sku in listed {
      FormsAreTracked(listed[row.sku]);
      assert Last(Forms(listed[row.sku]), f) == Form(listed[row.sku], f);
    }
  }

  lemma OverwrittenCells(it: Item, row: SheetRow, fields: set<Field>, f: Field)
    ensures var after := Overwritten(it, row, fields);
            && ItemCell(after, f) == (if f in fields then RowCell(row, f) else ItemCell(it, f))
            && after.reserved == it.reserved
  {
  }

  /** A merge writes a tracked field of a listed SKU iff the seller edited it; `reserved` is never touched. */
  lemma MergeWritesEdits(s: State, row: SheetRow, listed: map<Sku, SheetRow>, f: Field)
    requires SnapshotsFollow(s.snaps, listed) && row.sku in s.inv
    ensures var after := MergeRow(s, row).inv;
            && after == s.inv[row.sku := after[row.sku]]
            && ItemCell(after[row.sku], f) == (if SellerEdited(listed, row, f) then RowCell(row, f) else ItemCell(s.inv[row.sku], f))
            && after[row.sku].reserved == s.inv[row.sku].reserved
  {
    EditsAreSellerEdits(s, row, listed, f);
    OverwrittenCells(s.inv[row.sku], row, Edits(SnapOf(s.snaps, row.sku), row), f);
  }

  // ---------- What counts as an edit ----------

  lemma EqualTails(x: string, d: string, y: string, e: string)
    requires x + d == y + e && |d| == |e|
    ensures x == y && d == e
  {
    var all := x + d;
    assert |x| == |y| && all[..|x|] == x && (y + e)[..|y|] == y && all[|x|..] == d && (y + e)[|y|..] == e;
  }

  lemma DigitsDiffer(a: nat, b: nat)
    requires Digits(a) == Digits(b)
    ensures a == b
  {
    assert Text.Number(Digits(a)) == a && Text.Number(Digits(b)) == b;
  }

  /** Prices with the same two-decimal form are the same price. */
  lemma CentsDiffer(a: nat, b: nat)
    requires Cents(a) == Cents(b)
    ensures a == b
  {
    var x, d, e := Digits(a / 100) + ".", Digits(a % 100 / 10), Digits(a % 10);
    var y, f, g := Digits(b / 100) + ".", Digits(b % 100 / 10), Digits(b % 10);
    EqualTails(x + d, e, y + f, g);
    EqualTails(x, d, y, f);
    EqualTails(Digits(a / 100), ".", Digits(b / 100), ".");
    DigitsDiffer(a / 100, b / 100);
    DigitsDiffer(a % 100 / 10, b % 100 / 10);
    DigitsDiffer(a % 10, b % 10);
  }

  /** The text that a listing shows for an optional column: nothing is an empty text, and blanks at the ends do not show. */
  function Shown(s: Option<string>): string {
    if s.Some? then Strip(s.value) else ""
  }

  /** Whether two listings of a SKU differ in a column, by value for prices, stocks and flags and by shown text for words. */
  predicate Differ(q: SheetRow, r: SheetRow, f: Field) {
    match f
    case Name => Strip(r.name) != Strip(q.name)
    case Category => Shown(r.category) != Shown(q.category)
    case Price => r.price != q.price
    case ImageUrl => Shown(r.imageUrl) != Shown(q.imageUrl)
    case Stock => r.stock != q.stock
    case Active => r.active != q.active
  }

  lemma FormsDifferAsRowsDo(q: SheetRow, r: SheetRow, f: Field)
    ensures Form(r, f) != Form(q, f) <==> Differ(q, r, f)
  {
    match f
    case Price =>
      if Cents(r.price) == Cents(q.price) { CentsDiffer(r.price, q.price); }
    case Stock =>
      assert Text.Number(Digits(r.stock)) == r.stock && Text.Number(Digits(q.stock)) == q.stock;
    case _ =>
  }

  /** Two listings of a SKU that show the same in every column. */
  predicate SameListing(q: SheetRow, r: SheetRow) {
    && Strip(r.name) == Strip(q.name) && Shown(r.category) == Shown(q.category) && r.price == q.price
    && Shown(r.imageUrl) == Shown(q.imageUrl) && r.stock == q.stock && r.active == q.active
  }

  /** The item after a listing `r` that follows the listing `q`: the columns that differ are taken from `r`. */
  function Amended(it: Item, q: SheetRow, r: SheetRow): Item {
    Item(if Strip(r.name) != Strip(q.name) then r.name else it.name,
         if Shown(r.category) != Shown(q.category) then r.category else it.category,
         if r.price != q.price then r.price else it.price,
         if Shown(r.imageUrl) != Shown(q.imageUrl) then r.imageUrl else it.imageUrl,
         if r.stock != q.stock then r.stock else it.stock,
         it.reserved,
         if r.active != q.active then r.active else it.active,
         if SameListing(q, r) then it.version else it.version + 1)
  }

  lemma ChangedIsWhatDiffers(q: SheetRow, r: SheetRow, f: Field)
    ensures f in Changed(Forms(q), r) <==> Differ(q, r, f)
  {
    FormsAreTracked(q);
    FormsDifferAsRowsDo(q, r, f);
    assert Last(Forms(q), f) == Form(q, f);
    assert f in TRACKED;
  }

  lemma NothingChangedIff(q: SheetRow, r: SheetRow)
    ensures Changed(Forms(q), r) == {} <==> SameListing(q, r)
  {
    forall f ensures f in Changed(Forms(q), r) <==> Differ(q, r, f) {
      ChangedIsWhatDiffers(q, r, f);
    }
    if SameListing(q, r) {
      assert forall f :: !Differ(q, r, f);
    } else {
      assert Differ(q, r, Name) || Differ(q, r, Category) || Differ(q, r, Price) || Differ(q, r, ImageUrl)
             || Differ(q, r, Stock) || Differ(q, r, Active);
    }
  }

  lemma OverwrittenIsAmended(it: Item, q: SheetRow, r: SheetRow, fields: set<Field>)
    requires (forall f :: f in fields <==> Differ(q, r, f)) && !SameListing(q, r)
    ensures Overwritten(it, r, fields) == Amended(it, q, r)
  {
  }

  lemma UnchangedIsAmended(it: Item, q: SheetRow, r: SheetRow)
    requires SameListing(q, r)
    ensures Amended(it, q, r) == it
  {
  }

  lemma ItemAfterIsAmended(it: Item, q: SheetRow, r: SheetRow)
    ensures ItemAfter(Some(it), Some(Forms(q)), r) == Some(Amended(it, q, r))
  {
    NothingChangedIff(q, r);
    if SameListing(q, r) {
      UnchangedIsAmended(it, q, r);
    } else {
      forall f ensures f in Changed(Forms(q), r) <==> Differ(q, r, f) {
        ChangedIsWhatDiffers(q, r, f);
      }
      OverwrittenIsAmended(it, q, r, Changed(Forms(q), r));
    }
  }

  /**
   * A row for a known SKU that was last listed as `q` writes the columns in which it differs from `q`, and no other; it
   * counts as unchanged when it differs in none.
   */
  lemma MergeWritesWhatDiffers(s: State, r: SheetRow, listed: map<Sku, SheetRow>, q: SheetRow)
    requires SnapshotsFollow(s.snaps, listed) && r.sku in s.inv && r.sku in listed && listed[r.sku] == q
    ensures OutcomeOf(SnapOf(s.snaps, r.sku), r) == if SameListing(q, r) then Same else Updated
    ensures MergeRow(s, r).inv == s.inv[r.sku := Amended(s.inv[r.sku], q, r)]
  {
    SnapIsLastListing(s.snaps, listed, r.sku);
    NothingChangedIff(q, r);
    ItemAfterIsAmended(s.inv[r.sku], q, r);
  }

  /** A row for a SKU that was never listed writes every column, or makes a new item with nothing reserved. */
  lemma FirstListingWritesAll(s: State, r: SheetRow, listed: map<Sku, SheetRow>)
    requires SnapshotsFollow(s.snaps, listed) && r.sku !in listed
    ensures OutcomeOf(SnapOf(s.snaps, r.sku), r) == Inserted
    ensures MergeRow(s, r).inv == s.inv[r.sku := Item(
              r.name, r.category, r.price, r.imageUrl, r.stock,
              if r.sku in s.inv then s.inv[r.sku].reserved else 0, r.active,
              if r.sku in s.inv then s.inv[r.sku].version + 1 else 1)]
  {
    SnapIsLastListing(s.snaps, listed, r.sku);
  }

  /** A listed SKU that is no longer in the inventory stays out of it. */
  lemma UnknownStaysUnknown(s: State, r: SheetRow, listed: map<Sku, SheetRow>)
    requires SnapshotsFollow(s.snaps, listed) && r.sku in listed && r.sku !in s.inv
    ensures MergeRow(s, r).inv == s.inv
  {
    SnapIsLastListing(s.snaps, listed, r.sku);
  }

  /** The counters of a sheet with one more row: exactly one of them grows, by what the row counts as. */
  lemma CountsNext(s: State, rows: seq<SheetRow>, z: SheetRow)
    ensures var before, after := Counted(s, rows), Counted(s, rows + [z]);
            var outcome := OutcomeOf(SnapOf(MergeRows(s, rows).snaps, z.sku), z);
            && after.inserted == before.inserted + (if outcome == Inserted then 1 else 0)
            && after.updated == before.updated + (if outcome == Updated then 1 else 0)
            && after.same == before.same + (if outcome == Same then 1 else 0)
  {
    assert (rows + [z])[..|rows|] == rows;
  }

  /** A sync fails at the commit, and then changes nothing, iff two of its rows list one SKU that was never listed. */
  lemma SyncFailsIff(s: State, rows: seq<SheetRow>, listed: map<Sku, SheetRow>)
    requires SnapshotsFollow(s.snaps, listed)
    ensures Sync(s, rows).1 == KeyConflict <==>
            exists i, j | 0 <= i < j < |rows| :: rows[i].sku == rows[j].sku && rows[i].sku !in listed
    ensures Sync(s, rows).1 == KeyConflict || Sync(s, rows).1 == Done
    ensures Sync(s, rows).1 == KeyConflict ==> Sync(s, rows).0 == s
  {
    forall sku ensures SnapOf(s.snaps, sku).None? <==> sku !in listed {
      SnapIsLastListing(s.snaps, listed, sku);
    }
  }

  lemma {:induction false} MergeRowsFollow(s: State, rows: seq<SheetRow>, listed: map<Sku, SheetRow>)
    requires SnapshotsFollow(s.snaps, listed)
    ensures SnapshotsFollow(MergeRows(s, rows).snaps, List(listed, rows))
  {
    if rows != [] {
      var n := |rows| - 1;
      MergeRowsFollow(s, rows[..n], listed);
      MergeRowFollows(MergeRows(s, rows[..n]), rows[n], List(listed, rows[..n]));
    }
  }

  /** A sync keeps every row's `reserved`, starts new rows at zero and touches nothing but inventory and snapshots. */
  lemma {:induction false} MergeRowsKeepReserved(s: State, rows: seq<SheetRow>)
    ensures var t := MergeRows(s, rows);
            && t == s.(inv := t.inv, snaps := t.snaps)
            && s.inv.Keys <= t.inv.Keys
            && forall sku | sku in t.inv :: t.inv[sku].reserved == if sku in s.inv then s.inv[sku].reserved else 0
  {
    if rows != [] {
      MergeRowsKeepReserved(s, rows[..|rows|-1]);
    }
  }

  // ---------- The stock a sync leaves ----------

  /** Some row of the sheet overwrites the SKU's stock: its form is not the last listed one, or there was none. */
  predicate StockEdited(snaps: map<Sku, Snapshot>, rows: seq<SheetRow>, sku: Sku) {
    exists r | r in rows :: r.sku == sku && Stock in Edits(SnapOf(snaps, sku), r)
  }

  predicate Lists(rows: seq<SheetRow>, sku: Sku) {
    exists r | r in rows :: r.sku == sku
  }

  /** The stock in the last row that lists the SKU. */
  function LastStock(rows: seq<SheetRow>, sku: Sku): nat {
    if rows == [] then 0
    else if rows[|rows|-1].sku == sku then rows[|rows|-1].stock
    else LastStock(rows[..|rows|-1], sku)
  }

  /** What the comparison of stocks reads from the snapshot after the rows. */
  function StockForm(snap: Option<Snapshot>, rows: seq<SheetRow>, sku: Sku): string {
    if snap.Some? && Stock !in snap.value then ""
    else if Lists(rows, sku) then Digits(LastStock(rows, sku))
    else if snap.Some? then snap.value[Stock]
    else ""
  }

  lemma EditedAppends(snaps: map<Sku, Snapshot>, rows: seq<SheetRow>, z: SheetRow, sku: Sku)
    ensures StockEdited(snaps, rows + [z], sku) <==>
            StockEdited(snaps, rows, sku) || (z.sku == sku && Stock in Edits(SnapOf(snaps, sku), z))
  {
    assert z in rows + [z];
    assert forall r | r in rows :: r in rows + [z];
  }

  lemma {:induction false} LastStockIsListed(rows: seq<SheetRow>, sku: Sku) returns (r: SheetRow)
    requires Lists(rows, sku)
    ensures r in rows && r.sku == sku && r.stock == LastStock(rows, sku)
  {
    var n := |rows| - 1;
    if rows[n].sku == sku {
      r := rows[n];
    } else {
      assert rows == rows[..n] + [rows[n]];
      r := LastStockIsListed(rows[..n], sku);
    }
  }

  /** The snapshot's stock is the form of the last row that listed the SKU, if the snapshot has that field at all. */
  lemma {:induction false} SnapshotStock(s: State, rows: seq<SheetRow>, sku: Sku)
    ensures var before, after := SnapOf(s.snaps, sku), SnapOf(MergeRows(s, rows).snaps, sku);
            && (after.Some? <==> before.Some? || Lists(rows, sku))
            && (after.Some? ==> Last(after.value, Stock) == StockForm(before, rows, sku))
            && (after.Some? ==> (Stock in after.value <==> before.None? || Stock in before.value))
  {
    if rows != [] {
      var p, z := rows[..|rows|-1], rows[|rows|-1];
      var t := MergeRows(s, p);
      assert rows == p + [z];
      SnapshotStock(s, p, sku);
      if z.sku != sku {
        MergeRowSparesOthers(t, z, sku);
      } else {
        SnapAfterStock(SnapOf(t.snaps, sku), z);
      }
    }
  }

  /** A row that lists the SKU leaves a snapshot with its stock, unless the snapshot lacks that field. */
  lemma SnapAfterStock(snap: Option<Snapshot>, row: SheetRow)
    requires snap.Some? ==> snap.value != map[]
    ensures var after := SnapAfter(snap, row);
            && after != map[]
            && (Stock in after <==> snap.None? || Stock in snap.value)
            && (Stock in after ==> after[Stock] == Digits(row.stock))
  {
    if snap.None? {
      FormsAreTracked(row);
    } else {
      assert SnapAfter(snap, row).Keys == snap.value.Keys;
    }
  }

  /** Whether the next row overwrites the stock, given what the rows before it listed. */
  lemma NextRowEditsStock(s: State, p: seq<SheetRow>, z: SheetRow)
    ensures var edits := Stock in Edits(SnapOf(MergeRows(s, p).snaps, z.sku), z);
            && (edits ==> StockEdited(s.snaps, p + [z], z.sku))
            && (!edits && Lists(p, z.sku) ==>
                 z.stock == LastStock(p, z.sku) && StockEdited(s.snaps, p + [z], z.sku) == StockEdited(s.snaps, p, z.sku))
            && (!edits && !Lists(p, z.sku) ==> !StockEdited(s.snaps, p + [z], z.sku))
  {
    var sku := z.sku;
    SnapshotStock(s, p, sku);
    EditedAppends(s.snaps, p, z, sku);
    if Lists(p, sku) {
      var r := LastStockIsListed(p, sku);
      assert Stock in Edits(SnapOf(s.snaps, sku), r) ==> StockEdited(s.snaps, p, sku);
      assert Text.Number(Digits(z.stock)) == z.stock && Text.Number(Digits(r.stock)) == r.stock;
    }
  }

  /** A sync leaves a known SKU the stock of the last row that lists it, if some row edits it; else its own. */
  lemma {:induction false} SyncedStock(s: State, rows: seq<SheetRow>, sku: Sku)
    requires sku in s.inv
    ensures sku in MergeRows(s, rows).inv
    ensures MergeRows(s, rows).inv[sku].stock ==
            if StockEdited(s.snaps, rows, sku) then LastStock(rows, sku) else s.inv[sku].stock
  {
    if rows != [] {
      var p, z := rows[..|rows|-1], rows[|rows|-1];
      assert rows == p + [z];
      SyncedStock(s, p, sku);
      EditedAppends(s.snaps, p, z, sku);
      if z.sku != sku {
        MergeRowSparesOthers(MergeRows(s, p), z, sku);
      } else {
        NextRowEditsStock(s, p, z);
      }
    }
  }

  lemma {:induction false} NewStockIsNatural(s: State, rows: seq<SheetRow>, sku: Sku)
    requires sku !in s.inv && sku in MergeRows(s, rows).inv
    ensures MergeRows(s, rows).inv[sku].stock >= 0
  {
    if rows != [] {
      var t := MergeRows(s, rows[..|rows|-1]);
      if sku in t.inv {
        NewStockIsNatural(s, rows[..|rows|-1], sku);
      }
    }
  }

  ghost predicate DistinctSkus(rows: seq<SheetRow>) {
    forall i, j | 0 <= i < j < |rows| :: rows[i].sku != rows[j].sku
  }

  lemma MergeRowSparesOthers(s: State, row: SheetRow, sku: Sku)
    requires sku != row.sku
    ensures ItemOf(MergeRow(s, row).inv, sku) == ItemOf(s.inv, sku)
    ensures SnapOf(MergeRow(s, row).snaps, sku) == SnapOf(s.snaps, sku)
  {
  }
}

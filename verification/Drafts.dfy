/** Draft orders: adding items line by line, confirming, and what a confirmed draft promises about reserving. */
module Drafts {
  import opened Tables
  import opened StockLedger
  import opened ReservationService

  datatype Outcome = Added | BadQty | NoProduct(sku: Sku) | TooFew(sku: Sku, asked: int, free: int) | EmptyCart | CartConfirmed

  // ---------- Lines ----------

  /** An empty size counts as no size. */
  function SizeOf(size: Option<string>): string {
    if size.Some? then size.value else ""
  }

  predicate SameItem(l: OrderLine, sku: Sku, size: Option<string>) {
    l.sku == sku && SizeOf(l.size) == SizeOf(size)
  }

  function FirstSame(lines: seq<OrderLine>, sku: Sku, size: Option<string>): (k: nat)
    ensures k <= |lines|
    ensures forall j | 0 <= j < k :: !SameItem(lines[j], sku, size)
    ensures k < |lines| ==> SameItem(lines[k], sku, size)
  {
    if lines == [] || SameItem(lines[0], sku, size) then 0 else 1 + FirstSame(lines[1..], sku, size)
  }

  function TotalOf(lines: seq<OrderLine>): int {
    if lines == [] then 0 else TotalOf(lines[..|lines|-1]) + lines[|lines|-1].lineTotal
  }

  function Enlarged(l: OrderLine, qty: int): OrderLine {
    l.(qty := l.qty + qty, lineTotal := (l.qty + qty) * l.unitPrice)
  }

  function WithItem(lines: seq<OrderLine>, sku: Sku, size: Option<string>, qty: int, price: int): seq<OrderLine> {
    var k := FirstSame(lines, sku, size);
    if k < |lines| then lines[k := Enlarged(lines[k], qty)]
    else lines + [OrderLine(sku, size, qty, price, qty * price)]
  }

  function Extended(draft: Order, sku: Sku, size: Option<string>, qty: int, price: int): Order {
    var lines := WithItem(draft.lines, sku, size, qty, price);
    draft.(lines := lines, total := TotalOf(lines), status := OrderDraft)
  }

  const NEW_DRAFT := Order([], OrderDraft, None, NoApproval, None, 0)

  predicate IsDraft(orders: map<OrderId, Order>, o: OrderId) {
    o in orders && orders[o].status == OrderDraft
  }

  function DraftOf(orders: map<OrderId, Order>, o: OrderId): Order {
    if o in orders then orders[o] else NEW_DRAFT
  }

  // ---------- Services ----------

  function AddItem(inv: Inventory, orders: map<OrderId, Order>, o: OrderId, sku: Sku, qty: int, size: Option<string>)
    : (map<OrderId, Order>, Outcome)
  {
    if qty <= 0 then (orders, BadQty)
    else if sku !in inv || !inv[sku].active then (orders, NoProduct(sku))
    else
      var free := inv[sku].stock - inv[sku].reserved;
      var draft := DraftOf(orders, o);
      var k := FirstSame(draft.lines, sku, size);
      if free < qty then (orders, TooFew(sku, qty, free))
      else if k < |draft.lines| && free < draft.lines[k].qty + qty then (orders, TooFew(sku, draft.lines[k].qty + qty, free))
      else (orders[o := Extended(draft, sku, size, qty, inv[sku].price)], Added)
  }

  method FindSame(lines: seq<OrderLine>, sku: Sku, size: Option<string>) returns (k: nat)
    ensures k == FirstSame(lines, sku, size)
  {
    k := 0;
    while k < |lines| && !SameItem(lines[k], sku, size)
      invariant k <= |lines|
      invariant FirstSame(lines, sku, size) == k + FirstSame(lines[k..], sku, size)
    {
      assert lines[k..][1..] == lines[k+1..];
      k := k + 1;
    }
  }

  /** Enlarge the line found, or append one. */
  method PutItem(lines: seq<OrderLine>, k: nat, sku: Sku, size: Option<string>, qty: int, price: int) returns (after: seq<OrderLine>)
    requires k == FirstSame(lines, sku, size)
    ensures after == WithItem(lines, sku, size, qty, price)
  {
    if k < |lines| {
      var newQty := lines[k].qty + qty;
      return lines[k := lines[k].(qty := newQty, lineTotal := newQty * lines[k].unitPrice)];
    }
    return lines + [OrderLine(sku, size, qty, price, qty * price)];
  }

  method SumLines(lines: seq<OrderLine>) returns (total: int)
    ensures total == TotalOf(lines)
  {
    total := 0;
    var i := 0;
    while i < |lines|
      invariant i <= |lines| && total == TotalOf(lines[..i])
    {
      assert lines[..i+1][..i] == lines[..i];
      total := total + lines[i].lineTotal;
      i := i + 1;
    }
    assert lines[..|lines|] == lines;
  }

  method Extend(draft: Order, k: nat, sku: Sku, size: Option<string>, qty: int, price: int) returns (after: Order)
    requires k == FirstSame(draft.lines, sku, size)
    ensures after == Extended(draft, sku, size, qty, price)
  {
    var lines := PutItem(draft.lines, k, sku, size, qty, price);
    var total := SumLines(lines);
    return draft.(lines := lines, total := total, status := OrderDraft);
  }

  /** `o` is the buyer's draft, or a new id when there is none. */
  method AddItemToDraft(db: Database, o: OrderId, sku: Sku, qty: int, size: Option<string>) returns (outcome: Outcome)
    requires o in db.orders ==> IsDraft(db.orders, o)
    modifies db`orders
    ensures (db.orders, outcome) == AddItem(db.inventory, old(db.orders), o, sku, qty, size)
  {
    if qty <= 0 {
      return BadQty;
    }
    if sku !in db.inventory || !db.inventory[sku].active {
      return NoProduct(sku);
    }
    var product := db.inventory[sku];
    var free := product.stock - product.reserved;
    if free < qty {
      return TooFew(sku, qty, free);
    }
    var draft := DraftOf(db.orders, o);
    var k := FindSame(draft.lines, sku, size);
    if k < |draft.lines| && free < draft.lines[k].qty + qty {
      return TooFew(sku, draft.lines[k].qty + qty, free);
    }
    draft := Extend(draft, k, sku, size, qty, product.price);
    db.orders := db.orders[o := draft];
    return Added;
  }

  predicate LineIsFree(inv: Inventory, l: OrderLine) {
    l.sku in inv && inv[l.sku].active && l.qty <= inv[l.sku].stock - inv[l.sku].reserved
  }

  /** What the check of one line reports. */
  function Complaint(inv: Inventory, l: OrderLine): Outcome {
    if l.sku !in inv || !inv[l.sku].active then NoProduct(l.sku)
    else TooFew(l.sku, l.qty, inv[l.sku].stock - inv[l.sku].reserved)
  }

  function FirstUnfree(inv: Inventory, lines: seq<OrderLine>): (k: nat)
    ensures k <= |lines|
    ensures forall j | 0 <= j < k :: LineIsFree(inv, lines[j])
    ensures k < |lines| ==> !LineIsFree(inv, lines[k])
  {
    if lines == [] || !LineIsFree(inv, lines[0]) then 0 else 1 + FirstUnfree(inv, lines[1..])
  }

  /** `o` is what the lookup of the buyer's draft returned. */
  function Confirming(inv: Inventory, orders: map<OrderId, Order>, o: OrderId): (map<OrderId, Order>, Outcome) {
    if !IsDraft(orders, o) || orders[o].lines == [] then (orders, EmptyCart)
    else
      var k := FirstUnfree(inv, orders[o].lines);
      if k < |orders[o].lines| then (orders, Complaint(inv, orders[o].lines[k]))
      else (orders[o := orders[o].(status := OrderConfirmed)], CartConfirmed)
  }

  /** Confirming looks at one line at a time. */
  method ConfirmDraftOrder(db: Database, o: OrderId) returns (outcome: Outcome)
    modifies db`orders
    ensures (db.orders, outcome) == Confirming(db.inventory, old(db.orders), o)
  {
    if !IsDraft(db.orders, o) || db.orders[o].lines == [] {
      return EmptyCart;
    }
    var lines := db.orders[o].lines;
    var k := 0;
    while k < |lines|
      invariant k <= |lines|
      invariant forall j | 0 <= j < k :: LineIsFree(db.inventory, lines[j])
      invariant db.orders == old(db.orders)
    {
      var l := lines[k];
      if l.sku !in db.inventory || !db.inventory[l.sku].active {
        return NoProduct(l.sku);
      }
      var free := db.inventory[l.sku].stock - db.inventory[l.sku].reserved;
      if free < l.qty {
        return TooFew(l.sku, l.qty, free);
      }
      k := k + 1;
    }
    db.orders := db.orders[o := db.orders[o].(status := OrderConfirmed)];
    return CartConfirmed;
  }

  /**
   * A draft is confirmed exactly when it has lines and each of them, by itself, is active and free; nothing but its
   * status changes.
   */
  lemma ConfirmedIffEachLineIsFree(inv: Inventory, orders: map<OrderId, Order>, o: OrderId)
    ensures Confirming(inv, orders, o).1 == CartConfirmed <==>
            && o in orders && orders[o].status == OrderDraft && orders[o].lines != []
            && forall l | l in orders[o].lines ::
                 l.sku in inv && inv[l.sku].active && l.qty <= inv[l.sku].stock - inv[l.sku].reserved
    ensures Confirming(inv, orders, o).0 ==
            if Confirming(inv, orders, o).1 == CartConfirmed then orders[o := orders[o].(status := OrderConfirmed)] else orders
    ensures Confirming(inv, orders, o).1 == EmptyCart <==>
            o !in orders || orders[o].status != OrderDraft || orders[o].lines == []
  {
    if IsDraft(orders, o) {
      var lines := orders[o].lines;
      var k := FirstUnfree(inv, lines);
      assert k < |lines| ==> lines[k] in lines;
    }
  }

  /** What a refusal names: the first line that is not free by itself, for want of an active item or of pieces. */
  lemma ConfirmingNamesTheLine(inv: Inventory, orders: map<OrderId, Order>, o: OrderId) returns (k: nat)
    requires Confirming(inv, orders, o).1 != CartConfirmed && Confirming(inv, orders, o).1 != EmptyCart
    ensures o in orders && k < |orders[o].lines|
    ensures var l, outcome := orders[o].lines[k], Confirming(inv, orders, o).1;
            && (forall j | 0 <= j < k ::
                 var m := orders[o].lines[j];
                 m.sku in inv && inv[m.sku].active && m.qty <= inv[m.sku].stock - inv[m.sku].reserved)
            && if l.sku !in inv || !inv[l.sku].active then outcome == NoProduct(l.sku)
               else
                 && l.qty > inv[l.sku].stock - inv[l.sku].reserved
                 && outcome == TooFew(l.sku, l.qty, inv[l.sku].stock - inv[l.sku].reserved)
  {
    k := FirstUnfree(inv, orders[o].lines);
    assert forall j | 0 <= j < k :: LineIsFree(inv, orders[o].lines[j]);
  }

  // ---------- What every draft keeps ----------

  /** One line per SKU and size, every line priced, and the order total their sum. */
  ghost predicate WellPriced(order: Order) {
    && PositiveLines(order.lines)
    && (forall l | l in order.lines :: l.lineTotal == l.qty * l.unitPrice)
    && order.total == TotalOf(order.lines)
    && (forall i, j | 0 <= i < j < |order.lines| :: !SameItem(order.lines[i], order.lines[j].sku, order.lines[j].size))
  }

  lemma ItemLinesPriced(lines: seq<OrderLine>, sku: Sku, size: Option<string>, qty: int, price: int, l: OrderLine)
    requires qty >= 1 && l in WithItem(lines, sku, size, qty, price)
    requires forall m | m in lines :: m.qty >= 1 && m.lineTotal == m.qty * m.unitPrice
    ensures l.qty >= 1 && l.lineTotal == l.qty * l.unitPrice
  {
    var k := FirstSame(lines, sku, size);
    assert l in lines || l == WithItem(lines, sku, size, qty, price)[k];
    assert k < |lines| ==> lines[k] in lines;
  }

  lemma ItemLinesDiffer(lines: seq<OrderLine>, sku: Sku, size: Option<string>, qty: int, price: int, i: nat, j: nat)
    requires forall a, b | 0 <= a < b < |lines| :: !SameItem(lines[a], lines[b].sku, lines[b].size)
    requires i < j < |WithItem(lines, sku, size, qty, price)|
    ensures var after := WithItem(lines, sku, size, qty, price); !SameItem(after[i], after[j].sku, after[j].size)
  {
  }

  lemma ExtendedIsWellPriced(draft: Order, sku: Sku, size: Option<string>, qty: int, price: int)
    requires WellPriced(draft) && qty >= 1
    ensures WellPriced(Extended(draft, sku, size, qty, price))
  {
    var after := Extended(draft, sku, size, qty, price).lines;
    forall l | l in after ensures l.qty >= 1 && l.lineTotal == l.qty * l.unitPrice {
      ItemLinesPriced(draft.lines, sku, size, qty, price, l);
    }
    forall i, j | 0 <= i < j < |after| ensures !SameItem(after[i], after[j].sku, after[j].size) {
      ItemLinesDiffer(draft.lines, sku, size, qty, price, i, j);
    }
  }

  /** Adding an item keeps a draft well priced, and refusing one changes no order. */
  lemma AddItemKeepsPrices(inv: Inventory, orders: map<OrderId, Order>, o: OrderId, sku: Sku, qty: int, size: Option<string>)
    requires WellPriced(DraftOf(orders, o))
    ensures var r := AddItem(inv, orders, o, sku, qty, size);
            if r.1 == Added then o in r.0 && WellPriced(r.0[o]) else r.0 == orders
  {
    if AddItem(inv, orders, o, sku, qty, size).1 == Added {
      ExtendedIsWellPriced(DraftOf(orders, o), sku, size, qty, inv[sku].price);
    }
  }

  // ---------- What adding an item adds ----------

  /** Pieces of a SKU in one size; no size and an empty one are the same. */
  function Pieces(lines: seq<OrderLine>, sku: Sku, size: string): int {
    if lines == [] then 0
    else
      var l := lines[|lines|-1];
      Pieces(lines[..|lines|-1], sku, size)
      + (if l.sku == sku && (if l.size.Some? then l.size.value else "") == size then l.qty else 0)
  }

  /** What lines are worth: quantity times unit price. */
  function Worth(lines: seq<OrderLine>): int {
    if lines == [] then 0 else lines[0].qty * lines[0].unitPrice + Worth(lines[1..])
  }

  lemma {:induction false} TotalAppends(l: OrderLine, lines: seq<OrderLine>)
    ensures TotalOf([l] + lines) == l.lineTotal + TotalOf(lines)
  {
    if lines == [] {
      assert [l][..0] == [] && [l] + lines == [l];
    } else {
      assert ([l] + lines)[..|lines|] == [l] + lines[..|lines|-1];
      TotalAppends(l, lines[..|lines|-1]);
    }
  }

  /** The total of priced lines is what they are worth. */
  lemma {:induction false} TotalIsTheWorth(lines: seq<OrderLine>)
    requires forall l | l in lines :: l.lineTotal == l.qty * l.unitPrice
    ensures TotalOf(lines) == Worth(lines)
  {
    if lines != [] {
      assert lines == [lines[0]] + lines[1..];
      TotalAppends(lines[0], lines[1..]);
      TotalIsTheWorth(lines[1..]);
    }
  }

  lemma {:induction false} PiecesUpdated(lines: seq<OrderLine>, k: nat, l: OrderLine, sku: Sku, size: string)
    requires k < |lines| && l.sku == lines[k].sku && l.size == lines[k].size
    ensures Pieces(lines[k := l], sku, size) ==
            Pieces(lines, sku, size) + (if l.sku == sku && SizeOf(l.size) == size then l.qty - lines[k].qty else 0)
  {
    var n := |lines| - 1;
    if k < n {
      assert lines[k := l][..n] == lines[..n][k := l];
      PiecesUpdated(lines[..n], k, l, sku, size);
    } else {
      assert lines[k := l][..n] == lines[..n];
    }
  }

  lemma PiecesAppended(lines: seq<OrderLine>, l: OrderLine, sku: Sku, size: string)
    ensures Pieces(lines + [l], sku, size) ==
            Pieces(lines, sku, size) + (if l.sku == sku && SizeOf(l.size) == size then l.qty else 0)
  {
    assert (lines + [l])[..|lines|] == lines;
  }

  lemma ItemPieces(lines: seq<OrderLine>, sku: Sku, size: Option<string>, qty: int, price: int, other: Sku, text: string)
    ensures Pieces(WithItem(lines, sku, size, qty, price), other, text) ==
            Pieces(lines, other, text) + (if other == sku && text == SizeOf(size) then qty else 0)
  {
    var k := FirstSame(lines, sku, size);
    if k < |lines| {
      PiecesUpdated(lines, k, Enlarged(lines[k], qty), other, text);
    } else {
      PiecesAppended(lines, OrderLine(sku, size, qty, price, qty * price), other, text);
    }
  }

  /** A new line is at the item's price, and no line changes its price. */
  lemma ItemLinePrices(lines: seq<OrderLine>, sku: Sku, size: Option<string>, qty: int, price: int)
    ensures var after := WithItem(lines, sku, size, qty, price);
            && |lines| <= |after| <= |lines| + 1
            && (forall k | 0 <= k < |lines| :: after[k].unitPrice == lines[k].unitPrice)
            && (|after| > |lines| ==> after[|lines|] == OrderLine(sku, size, qty, price, qty * price))
  {
  }

  /**
   * An accepted item adds exactly the asked pieces of its SKU in its size and none of any other, at the item's price when
   * the line is new; the order is a draft worth the sum of its lines, and no other order changes.
   */
  lemma AddItemAddsPieces(inv: Inventory, orders: map<OrderId, Order>, o: OrderId, sku: Sku, qty: int, size: Option<string>,
                          before: Order)
    requires before == if o in orders then orders[o] else Order([], OrderDraft, None, NoApproval, None, 0)
    requires WellPriced(before) && AddItem(inv, orders, o, sku, qty, size).1 == Added
    ensures o in AddItem(inv, orders, o, sku, qty, size).0 && sku in inv
    ensures var t := AddItem(inv, orders, o, sku, qty, size).0;
            var lines := t[o].lines;
            && t == orders[o := before.(lines := lines, status := OrderDraft, total := Worth(lines))]
            && (forall other, text :: Pieces(lines, other, text) ==
                 Pieces(before.lines, other, text)
                 + (if other == sku && text == (if size.Some? then size.value else "") then qty else 0))
            && |before.lines| <= |lines| <= |before.lines| + 1
            && (forall k | 0 <= k < |before.lines| :: lines[k].unitPrice == before.lines[k].unitPrice)
            && (|lines| > |before.lines| ==>
                 lines[|before.lines|] == OrderLine(sku, size, qty, inv[sku].price, qty * inv[sku].price))
  {
    var price := inv[sku].price;
    var lines := WithItem(before.lines, sku, size, qty, price);
    ExtendedIsWellPriced(before, sku, size, qty, price);
    TotalIsTheWorth(lines);
    ItemLinePrices(before.lines, sku, size, qty, price);
    forall other, text ensures Pieces(lines, other, text) ==
      Pieces(before.lines, other, text) + (if other == sku && text == SizeOf(size) then qty else 0)
    {
      ItemPieces(before.lines, sku, size, qty, price, other, text);
    }
  }

  lemma {:induction false} NoPieces(lines: seq<OrderLine>, sku: Sku, size: string)
    requires forall l | l in lines :: l.sku != sku || SizeOf(l.size) != size
    ensures Pieces(lines, sku, size) == 0
  {
    if lines != [] {
      NoPieces(lines[..|lines|-1], sku, size);
    }
  }

  lemma {:induction false} PiecesOfOneLine(lines: seq<OrderLine>, k: nat)
    requires k < |lines| && forall j | 0 <= j < |lines| && j != k :: !SameItem(lines[j], lines[k].sku, lines[k].size)
    ensures Pieces(lines, lines[k].sku, SizeOf(lines[k].size)) == lines[k].qty
  {
    var n := |lines| - 1;
    if k < n {
      PiecesOfOneLine(lines[..n], k);
    } else {
      NoPieces(lines[..n], lines[k].sku, SizeOf(lines[k].size));
    }
  }

  /**
   * An item is added iff the quantity is positive, the item is active, and what is free covers the pieces already in the
   * draft and those asked for; the refusal says how many were asked for in all and how many are free.
   */
  lemma AddedIffTheLineIsFree(inv: Inventory, orders: map<OrderId, Order>, o: OrderId, sku: Sku, qty: int, size: Option<string>)
    requires WellPriced(if o in orders then orders[o] else Order([], OrderDraft, None, NoApproval, None, 0))
    ensures var outcome := AddItem(inv, orders, o, sku, qty, size).1;
            var text := if size.Some? then size.value else "";
            var already := if o in orders then Pieces(orders[o].lines, sku, text) else 0;
            && (outcome == BadQty <==> qty < 1)
            && (outcome == NoProduct(sku) <==> qty >= 1 && (sku !in inv || !inv[sku].active))
            && (outcome == Added <==>
                 qty >= 1 && sku in inv && inv[sku].active && already + qty <= inv[sku].stock - inv[sku].reserved)
            && (qty >= 1 && sku in inv && inv[sku].active && outcome != Added ==>
                 var free := inv[sku].stock - inv[sku].reserved;
                 outcome == TooFew(sku, if free < qty then qty else already + qty, free))
  {
    var lines := DraftOf(orders, o).lines;
    var k := FirstSame(lines, sku, size);
    if k < |lines| {
      forall j | 0 <= j < |lines| && j != k ensures !SameItem(lines[j], lines[k].sku, lines[k].size) {
      }
      PiecesOfOneLine(lines, k);
      assert lines[k] in lines;
    } else {
      forall l | l in lines ensures l.sku != sku || SizeOf(l.size) != SizeOf(size) {
        var j :| 0 <= j < |lines| && lines[j] == l;
      }
      NoPieces(lines, sku, SizeOf(size));
    }
  }

  // ---------- Confirming against reserving ----------

  /** No SKU is on two lines. */
  ghost predicate OneLinePerSku(lines: seq<OrderLine>) {
    forall i, j | 0 <= i < j < |lines| :: lines[i].sku != lines[j].sku
  }

  lemma {:induction false} NoneAsked(lines: seq<OrderLine>, sku: Sku)
    requires forall l | l in lines :: l.sku != sku
    ensures Demand(AsksOf(lines), sku) == 0
  {
    if lines != [] {
      assert AsksOf(lines)[..|lines|-1] == AsksOf(lines[..|lines|-1]);
      NoneAsked(lines[..|lines|-1], sku);
    }
  }

  lemma {:induction false} OneLineIsTheDemand(lines: seq<OrderLine>, k: nat)
    requires k < |lines| && OneLinePerSku(lines)
    ensures Demand(AsksOf(lines), lines[k].sku) == lines[k].qty
  {
    var n := |lines| - 1;
    assert AsksOf(lines)[..n] == AsksOf(lines[..n]);
    if k == n {
      NoneAsked(lines[..n], lines[k].sku);
    } else {
      OneLineIsTheDemand(lines[..n], k);
    }
  }

  /** An order whose every line passed the check can be reserved at once if no SKU is on two lines. */
  lemma ConfirmedIsReservable(s: State, o: OrderId, now: int, ttl: int)
    requires Positive(s) && o in s.orders && s.orders[o].status == OrderConfirmed && s.orders[o].lines != []
    requires forall l | l in s.orders[o].lines :: LineIsFree(s.inv, l)
    requires OneLinePerSku(s.orders[o].lines)
    ensures ReserveOrder(s, o, now, ttl).1 == Done
  {
    var lines := s.orders[o].lines;
    ReservedIffDemandIsFree(s, o, now, ttl);
    forall l | l in lines ensures Demand(AsksOf(lines), l.sku) <= s.inv[l.sku].stock - s.inv[l.sku].reserved {
      var k: nat :| k < |lines| && lines[k] == l;
      OneLineIsTheDemand(lines, k);
    }
  }

  /** The last piece of a shirt can be added in two sizes, and each line passes the check of confirming. */
  lemma TwoSizesAreAccepted(o: OrderId, sku: Sku, piece: Item)
    requires piece.active && piece.stock - piece.reserved == 1
    ensures var inv := map[sku := piece];
            var first := AddItem(inv, map[], o, sku, 1, Some("M"));
            var second := AddItem(inv, first.0, o, sku, 1, Some("L"));
            && first.1 == Added && second.1 == Added && o in second.0
            && AsksOf(second.0[o].lines) == [Ask(sku, 1), Ask(sku, 1)]
            && forall l | l in second.0[o].lines :: LineIsFree(inv, l)
  {
    var inv := map[sku := piece];
    var m := OrderLine(sku, Some("M"), 1, piece.price, 1 * piece.price);
    var first := AddItem(inv, map[], o, sku, 1, Some("M"));
    assert first.0[o].lines == [m];
    assert !SameItem(m, sku, Some("L"));
    assert FirstSame([m], sku, Some("L")) == 1;
  }

  /** The order so confirmed cannot be reserved. */
  lemma TwoSizesCannotBeReserved(s: State, o: OrderId, sku: Sku, now: int, ttl: int)
    requires Positive(s) && o in s.orders && s.orders[o].status == OrderConfirmed
    requires sku in s.inv && s.inv[sku].stock - s.inv[sku].reserved == 1
    requires AsksOf(s.orders[o].lines) == [Ask(sku, 1), Ask(sku, 1)]
    ensures ReserveOrder(s, o, now, ttl).1 != Done
  {
    var asks := [Ask(sku, 1), Ask(sku, 1)];
    assert |s.orders[o].lines| == |AsksOf(s.orders[o].lines)| == 2;
    ReservedIffDemandIsFree(s, o, now, ttl);
    assert asks[..1] == [Ask(sku, 1)] && asks[..1][..0] == [];
    assert Demand(asks, sku) == Demand(asks[..1], sku) + 1 == 2;
    assert AsksOf(s.orders[o].lines)[0].sku == s.orders[o].lines[0].sku;
    assert s.orders[o].lines[0] in s.orders[o].lines;
  }
}

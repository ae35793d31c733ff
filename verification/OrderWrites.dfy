/** The draft and fulfilment services as steps of the shop: each writes one order row and breaks no run condition. */
module OrderWrites {
  import opened Tables
  import opened Drafts
  import opened Fulfilment
  import opened Shop
  import opened HeldOrders

  /** An accepted item is one order row written under the run conditions, and the order does not await payment. */
  lemma AddingIsASafeWrite(s: State, o: OrderId, sku: Sku, qty: int, size: Option<string>)
    requires WellPriced(DraftOf(s.orders, o)) && AddItem(s.inv, s.orders, o, sku, qty, size).1 == Added
    ensures var orders := AddItem(s.inv, s.orders, o, sku, qty, size).0;
            && o in orders
            && var step := WriteOrder(o, orders[o]);
            Next(s, step) == s.(orders := orders) && SafeStep(s, step) && RespectsAwaiting(s, step) && OnTime(s, step)
  {
    AddItemKeepsPrices(s.inv, s.orders, o, sku, qty, size);
  }

  /** So is a confirmed draft. */
  lemma ConfirmingIsASafeWrite(s: State, o: OrderId)
    requires Positive(s) && Confirming(s.inv, s.orders, o).1 == CartConfirmed
    ensures var orders := Confirming(s.inv, s.orders, o).0;
            && o in orders
            && var step := WriteOrder(o, orders[o]);
            Next(s, step) == s.(orders := orders) && SafeStep(s, step) && RespectsAwaiting(s, step) && OnTime(s, step)
  {
    ConfirmedIffEachLineIsFree(s.inv, s.orders, o);
  }

  /** Whatever attempts a fulfilment call makes, the shop sees no step or one safe one. */
  lemma FulfillingIsASafeWrite(s: State, o: OrderId, stops: seq<nat>)
    requires Positive(s)
    ensures OrdersAfter(s.orders, o, stops) == s.orders ||
            (FulfilledBy(s.orders, o, stops)
             && var step := WriteOrder(o, s.orders[o].(status := Fulfilled));
             Next(s, step) == s.(orders := OrdersAfter(s.orders, o, stops))
             && SafeStep(s, step) && RespectsAwaiting(s, step) && OnTime(s, step))
  {
  }
}

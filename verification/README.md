# KhaiFlow: stock, payments and address text

A Dafny model of the parts of KhaiFlow, a chat-commerce back end, whose correctness rests on several functions
at once, with proofs of what they promise.

**Stock and payments.** Five tables (inventory, reservations, orders, consumed payment claims, payment events)
and the sheet snapshots are changed by service calls: reserve one SKU or an order, expire overdue orders, gateway
webhook, payment trigger, slip claim, manual approval and rejection, the 24-hour claim sweep, the sheet sync.
Each call is a method over a `Database` object, with the loops, savepoints and rollbacks of the code, and is tied
by its `ensures` to a function on table contents. `Shop` makes these functions the steps of a state machine; the
main results speak of every state, or of every run of any length.

- `Tables`, `StockLedger`, `Holds`: rows, guarded UPDATE statements one at a time and in batches, sums over
  reservation rows.
- `ReservationService`, `GatewayWebhook`, `PaymentClaims`, `EscalationService`, `SheetIngest`, `Drafts`,
  `Fulfilment`: the services.
- `Shop`, `OrderWrites`: the state machine, its run conditions, and the draft and fulfilment services as steps.
- `CallEffects`: what each call on payments and orders leaves in the tables, column by column.
- `StockSafety`, `HeldOrders`, `EventKeys`, `Settlement`, `ClaimHistory`, `SheetHistory`, `ExpirySweep`,
  `Interleaving`: what every run keeps.
- `ClaimSweep`, `LostHolds`, `Deadlock`: where the promises fail, and exactly when they hold.

The run conditions are stated in `Shop` and `HeldOrders`: order lines have positive quantities (`PositiveWrite`);
one claim sweep sees at most one stale claim per order (`OneClaimPerOrder`); a webhook reaches an order only while
its RESERVED rows cover its lines (`CoveredDelivery`, which follows from `OnTime`: the order still awaits
payment); for each known SKU whose stock a sync edits, the last row that lists it lists at least what is reserved
(`SyncRespectsHolds`). `RespectsAwaiting` adds that among the services only a reservation puts an order into
AWAITING_PAYMENT, and that nobody rewrites its lines there. The first, second and fourth are enough for "no
overselling"; the third is needed for the ledger. The first is enforced where lines are created (`Drafts`); the
second, third and fourth are enforced nowhere. `LostHolds` holds concrete shops in which a webhook after expiry, a
sweep over two stale claims of one order, or a sync that lists less than is reserved costs an order its hold.
`StockSafety.SyncRespectsHoldsIff` says that the fourth condition, read off the sheet, is exactly what keeps reserved
within stock; `StockSafety.WebhookKeepsLedgerIff`, for every state whose stock bounds and ledger hold, exactly
when the ledger survives a webhook; `ClaimSweep.SweepKeepsBooksIff`, for every state whose stock bounds hold, exactly
when balances stay and the ledger holds after the releases of a sweep;
`StockSafety.SecondSettlesIffBothCovered` says when an order still settles after another one's late webhook.

Exactly-once settlement needs no run condition. It is exactly once per event key, not per order:
`StockSafety.SameOrderSettlesAgainIff` says when a second delivery for the same order under another key sells its
lines again.

A webhook that carries no identifier is known by the key `evt_` and its order's id, and a payment trigger records
`evt_` and its claim key; when the two coincide the webhook is answered as a duplicate. `EventKeys` says exactly
which deliveries settle a covered order. Reservations that visit SKUs in different orders can deadlock, and the
lines of an order are loaded in no stated order; `Interleaving` shows that one common order excludes it, and
`Deadlock` says, for any number of reservations, exactly when it can happen, with the schedule in which the database
must abort a reservation that would have succeeded.

**Payment slips.** `Gf2` has polynomials over GF(2) and the sixteen-bit shift register; `Crc16` ties the bit loops
on machine words to it; `Tlv` is the tag-length-value parser; `SlipText` and `SlipVerification` are the amount
format, the slip builder and the verifier. The format is that of the EMV QR Code Specification for Payment
Systems, Merchant-Presented Mode, with tag 91 as the Thai variant of tag 63. The verifier looks for the last text
`9104` (or `6304`), which may be the checksum's own digits: `SealIsChecked` and `BuiltSlipPassesIff` give the
exact consequence, and `TamperingIsRejected` needs no exception for it. `ChecksumMattersIffMarked` says exactly
when the checksum entry is compared at all.

**Stateful algorithms with a simple reference.** `RateLimiter` (bounded queues against the full history),
`GeoIndex` (two-character index against a scan), `Brackets` (stack pairing), `RepeatedBlocks` (block collapse).

Where comments and code of the repository differ, the model follows the code. The webhook's documentation speaks
of orders awaiting payment, but the code settles an order in any status; release statements are described as
reversing a hold, but a statement whose guard fails is passed over silently; a key archived twice within one second
makes the commit fail, and then the whole call is rolled back (`PaymentClaims.ArchiveFailsIff` says exactly when,
`ClaimHistory.SecondRejectionIsRefused` how it comes about).

## Model

| member | source | states |
|---|---|---|
| StockLedger.Update | backend/app/services/reservation_service.py:108-113 | one guarded UPDATE moves its row and reports one, or changes nothing and reports zero |
| StockLedger.ClausesOf | backend/app/services/reservation_service.py:85-106 | which rows the hold, sell and release statements match, and the columns each of them sets |
| StockLedger.NextStatement | backend/app/services/reservation_service.py:170-204 | after statements that hit, the next one hits iff the totals of the longer batch pass the guards, and then the table has moved by those totals |
| StockLedger.ServedWholeIffFits | backend/app/services/reservation_service.py:170-204 | a batch of guarded updates is served whole iff each SKU's total demand passes its guard, although the statements are checked one at a time |
| StockLedger.ServedStopsWhereNothingFits | backend/app/services/reservation_service.py:170-204 | the first statement that misses is the one with which the totals stop passing the guards |
| StockLedger.BatchPermutes | backend/app/services/reservation_service.py:170-204 | neither the outcome nor the resulting inventory depends on the order of the statements |
| StockLedger.FreeAllHits | backend/app/services/reservation_service.py:265-276 | when the totals fit, no release statement misses and the rows move by the totals |
| StockLedger.FreeAllBounds | backend/app/services/reservation_service.py:265-276 | whatever misses, releases touch only reserved and version, free no more than asked and never go below zero |
| Holds.ActiveAsksAddUp | backend/app/services/reservation_service.py:258-263 | the RESERVED rows selected for an order add up, per SKU, to what the order holds |
| Holds.MarkMoves | backend/app/services/reservation_service.py:265-276 | changing the state of an order's RESERVED rows moves exactly the order's held quantity out of the reserved sums |
| Holds.ReleaseHolds | backend/app/services/reservation_service.py:258-276 | the release loop runs one release per row as read and marks exactly the order's RESERVED rows RELEASED |
| ReservationService.ReserveOneSku | backend/app/services/reservation_service.py:58-127 | reserving one SKU: error for a quantity below one, no change when the guard fails, otherwise the move and one RESERVED row |
| ReservationService.HoldLines | backend/app/services/reservation_service.py:170-216 | the loop stops at the first line whose statement misses; the lines before it are moved and recorded |
| ReservationService.ReserveOrderStock | backend/app/services/reservation_service.py:130-224 | all lines in one transaction: unknown order, wrong status, no lines, first failing line with everything rolled back, or all held and the order awaiting payment |
| ReservationService.ReservedIffDemandIsFree | backend/app/services/reservation_service.py:153-224 | an order with lines is reserved iff its status is ORDER_CONFIRMED, ADDRESS_CONFIRMED or ORDER_DRAFT and every SKU is active with the sum of all its lines free; any other status is refused as such; success adds exactly the sums to reserved, moves no stock and lets the order await payment until the TTL ends, failure changes nothing |
| ReservationService.RefusedAtOnce | backend/app/services/reservation_service.py:150-167 | an unknown order, a wrong status and an order without lines are refused in this order, each as such, and nothing changes |
| ReservationService.OneRowPerLine | backend/app/services/reservation_service.py:206-216 | success leaves one RESERVED row per line with its SKU, its quantity and the order's deadline |
| ReservationService.RefusedAtItsLine | backend/app/services/reservation_service.py:197-204 | want of stock is reported for the first line with which the sums are no longer free |
| ReservationService.OneSkuIsHeldIff | backend/app/services/reservation_service.py:75-127 | one SKU is held iff the quantity is positive and the item is active with as much free; it gets one row, and a refusal changes nothing |
| ReservationService.LineOrderIsImmaterial | backend/app/services/reservation_service.py:170-204 | permuting an order's lines changes neither the outcome nor the inventory |
| ReservationService.ExpireStaleReservations | backend/app/services/reservation_service.py:227-284 | one worker releases and expires exactly the overdue orders among those it locked |
| GatewayWebhook.SellLines | backend/app/services/gateway_webhook_service.py:295-332 | the decrement loop under the savepoint stops at the first line that misses, with the lines before it moved |
| GatewayWebhook.ConfirmHolds | backend/app/services/gateway_webhook_service.py:393-399 | exactly the order's RESERVED rows become CONFIRMED |
| GatewayWebhook.ProcessGatewayWebhook | backend/app/services/gateway_webhook_service.py:202-430 | duplicate, unknown order, reconciliation with inventory and reservations as before, or every line sold, rows and claims confirmed and the order paid |
| GatewayWebhook.SettlesIffCovered | backend/app/services/gateway_webhook_service.py:295-354 | a fresh webhook settles iff stock and reserved both cover each SKU's total; otherwise inventory and rows are untouched and the order goes to reconciliation |
| PaymentClaims.ClaimPaymentRow | backend/app/services/verification_service.py:259-306 | claiming a reference inserts a stripped key once; an empty key or a taken one changes nothing |
| PaymentClaims.ProcessPaymentTrigger | backend/app/services/payment_trigger.py:21-126 | a trigger consumes its key once, records one event and stops the TTL of an order that awaits payment |
| PaymentClaims.ConfirmPendingClaims | backend/app/services/escalation_service.py:111-118 | exactly the order's PENDING claims become CONFIRMED |
| PaymentClaims.ArchiveClaims | backend/app/services/escalation_service.py:176-185 | archiving rewrites the picked claims in id order, or reports the UNIQUE violation that makes the commit fail |
| PaymentClaims.ArchiveRewrites | backend/app/services/escalation_service.py:182-185 | an archive that succeeds rewrites exactly the picked rows and keeps keys unique |
| PaymentClaims.ArchiveFailsIff | backend/app/services/escalation_service.py:182-192 | with unique keys, archiving fails iff some picked claim's archived key is carried by a claim that is not archived before it |
| PaymentClaims.ArchivedKeyIsFreeIff | backend/app/services/escalation_service.py:231-236 | the original key of an archived claim is taken afterwards iff a later picked claim was archived under that very text |
| EscalationService.ApproveManual | backend/app/services/escalation_service.py:83-130 | approval marks the order paid whatever its status was, and confirms its pending claims and its RESERVED rows |
| EscalationService.RejectManual | backend/app/services/escalation_service.py:133-194 | rejection releases the order's rows and stock, archives its pending claims and cancels it, or changes nothing on a key conflict |
| EscalationService.ReleaseStaleClaims | backend/app/services/escalation_service.py:197-269 | the sweep archives the stale pending claims it locked and releases the stock behind each, reading reservation rows as they were when it began, and returns exactly their keys |
| EscalationService.RejectRefusedIff | backend/app/services/escalation_service.py:176-194 | a rejection is refused, and changes nothing, iff one of the order's archived keys is in use |
| EscalationService.SweepRefusedIff | backend/app/services/escalation_service.py:217-268 | a sweep is refused, and changes nothing, iff an archived key of the stale claims it locked is in use |
| SheetIngest.IngestRow | backend/app/services/sheet_ingest.py:270-377 | one sheet row: first listing, unchanged, or the changed fields only |
| SheetIngest.IngestFromValues | backend/app/services/sheet_ingest.py:252-385 | a sync merges and counts every row, or rolls back when one new SKU is listed twice |
| SheetIngest.AllSameMeansNoWrite | backend/app/services/sheet_ingest.py:345-348 | a sync whose rows all count as unchanged changed nothing |
| SheetIngest.EveryRowIsCounted | backend/app/services/sheet_ingest.py:334-377 | inserted, updated and unchanged rows add up to the rows of the sheet |
| SheetIngest.MergeWritesEdits | backend/app/services/sheet_ingest.py:338-366 | a merge writes a tracked field iff its canonical value differs from the last listing or there was none; reserved is never touched |
| SheetIngest.CentsDiffer | backend/app/services/sheet_ingest.py:234-235 | prices with the same two-decimal form are equal |
| SheetIngest.MergeWritesWhatDiffers | backend/app/services/sheet_ingest.py:223-235 | a row for a known SKU writes exactly the columns in which it differs from its last listing: price, stock and flag by value, words by their text without blanks around it; it counts as unchanged iff it differs in none |
| SheetIngest.FirstListingWritesAll | backend/app/services/sheet_ingest.py:298-336 | a SKU listed for the first time takes every column of its row, or is a new item with nothing reserved |
| SheetIngest.CountsNext | backend/app/services/sheet_ingest.py:334-377 | each row raises exactly the counter of what it counts as |
| SheetIngest.SyncFailsIff | backend/app/services/sheet_ingest.py:324-332 | a sync fails at the commit, changing nothing, iff two of its rows list one SKU that was never listed |
| SheetIngest.SyncedStock | backend/app/services/sheet_ingest.py:338-374 | whatever the sheet repeats, a known SKU ends with the stock of the last row that lists it if some row differs from the last listing, else with its own |
| SheetIngest.MergeRowsKeepReserved | backend/app/services/sheet_ingest.py:298-366 | a sync keeps every row's reserved, starts new rows at zero and changes only inventory and snapshots |
| StockSafety.ReleaseSku | backend/app/services/reservation_service.py:265-276 | a release keeps 0 <= reserved <= stock and never raises free plus promised, even when statements miss |
| StockSafety.NoReleaseMisses | backend/app/services/escalation_service.py:164-174 | under the ledger no release statement of an order misses, although its row count is not checked |
| StockSafety.HoldKeeps | backend/app/services/reservation_service.py:169-216 | holding a batch that fits keeps the stock bounds, the balance and the ledger |
| StockSafety.SettleKeeps | backend/app/services/gateway_webhook_service.py:300-332 | settling keeps every balance and changes the ledger's slack by held minus sold |
| StockSafety.WebhookKeepsLedgerIff | backend/app/services/gateway_webhook_service.py:276-332 | a fresh webhook keeps the ledger iff some line's guard fails or it sells no more beyond the order's own holds than the slack, per SKU |
| StockSafety.SecondSettlesIffBothCovered | backend/app/services/gateway_webhook_service.py:276-332 | after one order's webhook has settled, another order's fresh webhook settles iff stock and reserved covered the demand of both, per SKU |
| StockSafety.SameOrderSettlesAgainIff | backend/app/services/gateway_webhook_service.py:235-332 | a second delivery for a settled order under another event key sells its lines again iff stock and reserved covered twice its demand, per SKU; an order without lines settles again selling nothing |
| StockSafety.SweepReadsFreshRows | backend/app/services/escalation_service.py:238-255 | with one claim per order the rows a sweep read at its start are still current when they are used |
| StockSafety.SweepKeeps | backend/app/services/escalation_service.py:231-266 | such a sweep keeps the stock bounds, and under the ledger the balance and the ledger |
| StockSafety.SyncRespectsHoldsIff | backend/app/services/sheet_ingest.py:338-366 | a sync leaves reserved within stock for every SKU iff it fails at the commit or the last row for each known SKU whose stock it edits lists at least what is reserved |
| StockSafety.DistinctRowsRespectHoldsIff | backend/app/services/sheet_ingest.py:338-366 | on a sheet with distinct SKUs that condition is one of each row by itself |
| StockSafety.SyncKeeps | backend/app/services/sheet_ingest.py:350-366 | a sync under that condition keeps the books, and the balance moves by what the sheet supplied |
| StockSafety.StepSound | backend/app/services/reservation_service.py:85-127 | every step under the run conditions keeps the stock bounds and never raises the balance beyond what was supplied; covered steps keep it exactly |
| StockSafety.NoOverselling | backend/app/services/reservation_service.py:170-222 | in every run under the first, second and fourth condition, 0 <= reserved <= stock for each SKU, and what is held or confirmed never exceeds what was free, held or supplied |
| StockSafety.LedgerHolds | backend/app/services/reservation_service.py:257-281 | in every run under all four conditions the RESERVED rows of each SKU add up to at most its reserved, and free plus promised is exactly constant up to supply |
| HeldOrders.HeldOrderSettles | backend/app/services/gateway_webhook_service.py:391-422 | a fresh webhook for an order whose rows cover its lines ends PAYMENT_RECEIVED with every line decremented, never in reconciliation |
| HeldOrders.StepKeepsBacking | backend/app/services/reservation_service.py:218-222 | after every step each order that awaits payment is backed by its own RESERVED rows |
| HeldOrders.PaidInTimeIsNeverLost | backend/app/services/gateway_webhook_service.py:255-422 | in every run whose webhooks reach covered orders, the ledger holds, awaiting orders are covered, and the next fresh webhook for a covered order settles it whatever its status |
| HeldOrders.OnTimeIsCovered | backend/app/services/gateway_webhook_service.py:255-276 | webhooks that find their orders awaiting payment reach covered orders |
| HeldOrders.OnTimeLosesNothing | backend/app/services/gateway_webhook_service.py:255-422 | so in every run of such webhooks the next fresh webhook for an awaiting order settles it |
| EventKeys.EventsAreRecorded | backend/app/services/payment_trigger.py:80-104 | after any run the events are those at its start, of its deliveries and of its accepted triggers |
| EventKeys.FirstIdentifierWins | backend/app/schemas/gateway_webhook.py:28-45 | a payload is known by the first given of event key, event id, transaction id, payment reference and order, without blanks around it, or refused |
| EventKeys.TransactionsKeepTheirKeys | backend/app/schemas/gateway_webhook.py:34-36 | payloads that carry only transaction ids have one key iff the ids agree up to blanks at their ends |
| EventKeys.DeliverySettlesIffKeyIsNew | backend/app/services/gateway_webhook_service.py:206-250 | in every run whose webhooks reach covered orders, a delivery for a covered order settles iff its key is not of an event at the start, an earlier delivery or an accepted trigger; otherwise it changes nothing |
| EventKeys.AwaitingSettlesIffKeyIsNew | backend/app/services/gateway_webhook_service.py:206-250 | so does a delivery for any order that awaits payment |
| EventKeys.TriggeredOrderStillSettles | backend/app/services/payment_trigger.py:106-126 | an accepted trigger takes a covered order out of AWAITING_PAYMENT, and its own webhook still settles it unless that carries the key the trigger recorded |
| EventKeys.BareKey | backend/app/schemas/gateway_webhook.py:28-45 | a payload that carries nothing but its order is known by evt_ and the order's id |
| EventKeys.TriggerTakesTheDefaultKey | backend/app/services/payment_trigger.py:80-104 | a trigger whose claim key is an order's id makes that order's first webhook without identifiers a duplicate, and leaves the order as it was |
| Settlement.EventsStay | backend/app/services/gateway_webhook_service.py:206-250 | no step removes or rewrites an event, and only a settling delivery adds one decided CONFIRMED |
| Settlement.RepeatsAreIdle | backend/app/services/gateway_webhook_service.py:235-250 | every run equals the run without later deliveries of a seen event key |
| Settlement.StockMoves | backend/app/services/gateway_webhook_service.py:300-332 | stock changes in any step only by what a sync supplies and a settled delivery sells |
| Settlement.SettledOncePerEvent | backend/app/services/gateway_webhook_service.py:417-422 | over any run at all, stock drops by exactly the lines of the orders behind settled events, no key settles twice, and the keys that settled are the new events decided CONFIRMED |
| Settlement.PositiveLasts | backend/app/services/reservation_service.py:85-127 | in every run whose written lines have positive quantities, all stored quantities stay positive |
| CallEffects.UnprocessedWebhookLeaves | backend/app/services/gateway_webhook_service.py:235-274 | a known event key changes nothing; an unknown order leaves the event and no more |
| CallEffects.SettledWebhookLeaves | backend/app/services/gateway_webhook_service.py:391-422 | a settled order is PAYMENT_RECEIVED and AUTO_CONFIRMED with the first given reference, its PENDING claims and RESERVED rows are CONFIRMED, its lines are out of stock and reserved; every other row of every table is as it was |
| CallEffects.UnsettledWebhookLeaves | backend/app/services/gateway_webhook_service.py:334-390 | an order sent to reconciliation says so; stock, rows and claims are as they were |
| CallEffects.ReconciledAtItsLine | backend/app/services/gateway_webhook_service.py:300-332 | reconciliation names the first line with which the totals are no longer covered |
| CallEffects.ApprovalLeaves | backend/app/services/escalation_service.py:105-130 | an approved order is PAYMENT_RECEIVED and APPROVED, its PENDING claims and RESERVED rows are CONFIRMED, and nothing else changes |
| CallEffects.RejectionLeaves | backend/app/services/escalation_service.py:155-194 | a rejected order is CANCELLED and REJECTED, its PENDING claims archived under the dated key and its RESERVED rows RELEASED, or nothing changes |
| CallEffects.RejectionFrees | backend/app/services/escalation_service.py:164-174 | under the ledger a rejection lowers reserved by exactly what the order held |
| CallEffects.SweepLeaves | backend/app/services/escalation_service.py:217-269 | a sweep archives exactly the locked PENDING claims older than the ceiling, releases the rows of the orders behind them and cancels those that waited for payment, the seller or verification, or does nothing |
| CallEffects.SweepReports | backend/app/services/escalation_service.py:231-269 | the sweep reports exactly the keys of the claims it archives, as they were |
| CallEffects.ClaimLeaves | backend/app/services/verification_service.py:276-306 | a reference without the blanks around it is recorded once, in the state asked for |
| CallEffects.TriggerLeaves | backend/app/services/payment_trigger.py:46-112 | a trigger records its reference as CONFIRMED and one event, moves only an awaiting order to PAYMENT_RECEIVED, and otherwise changes nothing |
| CallEffects.PaidReferenceIsSpent | backend/app/services/gateway_webhook_service.py:401-407 | in every run after an order has settled or was approved, a reference that was pending for it is never consumed again |
| CallEffects.SlipPaysOnce | backend/app/services/verification_service.py:234-242 | so a slip shown again with its reference, for any order and at any later time, is never accepted |
| ClaimHistory.StepEvolvesClaims | backend/app/services/escalation_service.py:176-185 | no step deletes a claim or changes a confirmed or archived one, and keys stay unique |
| ClaimHistory.ClaimsEvolve | backend/app/services/payment_trigger.py:46-78 | in every run keys stay unique and only PENDING claims change key, by being archived |
| ClaimHistory.ConfirmedReferenceIsSpent | backend/app/services/verification_service.py:276-306 | a CONFIRMED reference keeps its key and order for ever, and no later slip or trigger consumes it |
| ClaimHistory.RejectedReferenceIsFreeIff | backend/app/services/escalation_service.py:176-185 | after a rejection the reference of a pending claim can be claimed again iff no later claim of the order was archived under that very text |
| ClaimHistory.SecondRejectionIsRefused | backend/app/services/escalation_service.py:182-192 | a reference rejected, claimed again and rejected within one second: the second rejection is refused |
| SheetHistory.SnapshotsFollowRuns | backend/app/services/sheet_ingest.py:368-374 | after any run the snapshots are the canonical form of each SKU's last valid listing |
| SheetHistory.SyncWritesExactlyTheEdits | backend/app/services/sheet_ingest.py:338-366 | in any run a sync of a sheet with distinct SKUs writes a tracked field iff it differs from the last listing, and keeps reserved |
| SheetHistory.SyncWritesWhatDiffers | backend/app/services/sheet_ingest.py:223-235 | in any run a sync of a sheet with distinct SKUs takes into each listed item exactly the columns whose values differ from its last listing |
| SheetHistory.ResyncNeverUndoesSales | backend/app/services/sheet_ingest.py:345-348 | syncing an unchanged sheet again changes nothing, however much was reserved, sold or released in between |
| ExpirySweep.SweepExpiresItsSet | backend/app/services/reservation_service.py:254-281 | under the ledger a worker's sweep depends only on the set of overdue orders it locked, not on their order |
| ExpirySweep.ExpiresTheLateOnes | backend/app/services/reservation_service.py:241-281 | a sweep expires exactly the locked orders that await payment and whose deadline has passed, releases their RESERVED rows and lowers reserved by what they held; everything else stays |
| ExpirySweep.HoldLastsItsTtl | backend/app/services/reservation_service.py:82-83 | a reserved order that a sweep finds is expired iff the TTL counted from its reservation is over |
| ExpirySweep.SharingIsImmaterial | backend/app/services/reservation_service.py:243-254 | splitting the overdue orders among any number of workers in any way gives the same inventory, reservations and orders |
| ExpirySweep.SweepsComplete | backend/app/services/reservation_service.py:241-284 | once every overdue order was in some share none is overdue, and another sweep at that time changes nothing |
| Interleaving.CommitIsSerial | backend/app/services/reservation_service.py:218-222 | committing a transaction's private rows is what the whole reservation would do at that moment |
| Interleaving.MissFailsSerially | backend/app/services/reservation_service.py:197-204 | a statement that misses its row means that the whole reservation, alone at that moment, would fail |
| Interleaving.InterleavingIsSerial | backend/app/services/reservation_service.py:169-222 | any interleaving of the single UPDATEs of any number of reservations, with row locks held to the end and aborts at any time, leaves the state of the committed ones in commit order, and each one rolled back after a miss would have failed serially |
| Interleaving.CommonOrderNeverDeadlocks | backend/app/services/reservation_service.py:170-195 | when all reservations visit SKUs in one common order, then after any schedule some open one can go on without an abort |
| Deadlock.DeadlockIff | backend/app/services/reservation_service.py:170-222 | any number of reservations can come to where one is open and none can go on iff, after some have succeeded one after another, some others can stand each before a row that another has passed, no row passed by two and each able to go on alone |
| Deadlock.PairDeadlocksIff | backend/app/services/reservation_service.py:170-204 | two reservations can deadlock iff each has a place before which its lines fit, the two share none of these rows, and each wants next a row that the other has passed and that it could have alone |
| Deadlock.SharedFirstRowExcludesDeadlock | backend/app/services/reservation_service.py:170-195 | two reservations that begin with the same SKU cannot deadlock, in whatever order they go on |
| Deadlock.OpposedOrdersDeadlock | backend/app/services/reservation_service.py:170-195 | two reservations that visit two SKUs in opposite orders would both succeed serially, yet reach a state where neither can go on |
| Deadlock.TwoOrdersDeadlock | backend/app/services/reservation_service.py:170-195 | a shop with two such orders: both can be reserved one after the other, yet they can deadlock |
| ClaimSweep.SweepDrift | backend/app/services/escalation_service.py:238-255 | a sweep moves each SKU's balance up and its slack down by what the statements free beyond what the rows of the orders met speak for |
| ClaimSweep.SweepKeepsBooksIff | backend/app/services/escalation_service.py:231-255 | whatever misses, a sweep keeps every balance iff that excess is zero for each SKU, and the ledger holds afterwards iff it is at most the slack |
| ClaimSweep.OneClaimEachFits | backend/app/services/escalation_service.py:238-255 | under the ledger every release of a sweep hits unless some order with RESERVED rows owns two of the stale claims |
| ClaimSweep.OneClaimEachKeepsBooks | backend/app/services/escalation_service.py:231-255 | under the ledger a sweep with at most one stale claim per order with RESERVED rows keeps every balance and the ledger |
| ClaimSweep.SweepKeepsBalanceIff | backend/app/services/escalation_service.py:231-255 | a sweep whose releases all hit keeps every balance iff no order with RESERVED rows owns two of the stale claims, and the ledger iff what it releases again fits the slack |
| LostHolds.LateWebhookTakesAnothersHold | backend/app/services/gateway_webhook_service.py:252-332 | a shop in which a webhook for an expired order sells another order's hold, whose own payment then goes to reconciliation |
| LostHolds.SyncBelowHoldsLosesOrder | backend/app/services/sheet_ingest.py:350-366 | a shop in which a sync lists one piece of a SKU with two reserved, and the paid order that holds them goes to reconciliation |
| LostHolds.SecondStaleClaimFreesAnothersHold | backend/app/services/escalation_service.py:238-255 | a shop in which a second stale claim of one order frees the units another order holds |
| Drafts.AddItemToDraft | backend/app/services/order_service.py:123-201 | adding an item merges it into the line of the same SKU and size or appends one, refuses what exceeds the free stock, and recomputes the total |
| Drafts.ConfirmDraftOrder | backend/app/services/order_service.py:204-242 | confirming looks at the lines one by one and reports the first that is inactive or not free, an empty cart, or confirms the draft |
| Drafts.ConfirmedIffEachLineIsFree | backend/app/services/order_service.py:215-240 | a draft is confirmed iff it has lines and each line by itself is active and free; only its status changes, and a refusal changes no order |
| Drafts.ConfirmingNamesTheLine | backend/app/services/order_service.py:218-235 | a refusal names the first line that is not free, for want of an active item or of pieces, and how many are free |
| Drafts.AddedIffTheLineIsFree | backend/app/services/order_service.py:107-172 | an item is added iff the quantity is positive, the item is active and what is free covers the pieces of that SKU and size already in the draft and the new ones; refusals say what was asked and what is free |
| Drafts.AddItemAddsPieces | backend/app/services/order_service.py:145-196 | an accepted item adds exactly the asked pieces of its SKU and size and none of another, a new line at the item's price; the draft is worth the sum of quantity times price, and no other order changes |
| Drafts.AddItemKeepsPrices | backend/app/services/order_service.py:158-195 | one line per SKU and size, each line total quantity times price, the order total their sum; a refusal changes no order |
| Drafts.ConfirmedIsReservable | backend/app/services/order_service.py:217-237 | a confirmed order can be reserved at once if no SKU is on two lines |
| Drafts.TwoSizesAreAccepted | backend/app/services/order_service.py:147-156 | the last piece of an item can be added in two sizes, each line passing its check |
| Drafts.TwoSizesCannotBeReserved | backend/app/services/reservation_service.py:170-204 | the order so confirmed cannot be reserved |
| Fulfilment.FulfillOrder | backend/app/services/fulfillment_service.py:82-219 | one attempt appends rows up to the one the sheet refuses, or all of them and then marks the order FULFILLED; nothing unless it is paid |
| Fulfilment.AttemptWrites | backend/app/services/fulfillment_service.py:143-201 | an attempt for a paid order writes its block of one row per line, or one row with the total, up to the refused one; a complete block changes only the status, and any other order writes nothing |
| Fulfilment.FulfillOrderWithRetry | backend/app/services/fulfillment_service.py:222-286 | attempts until one succeeds or they are used up; the order is FULFILLED iff one succeeded |
| Fulfilment.AttemptsAddUp | backend/app/services/fulfillment_service.py:100-119 | the attempts of several calls act like those of one, and after a success nothing is appended |
| Fulfilment.SuccessEndsInAFullBlock | backend/app/services/fulfillment_service.py:186-201 | an order that ends FULFILLED has one complete block of rows last on the sheet |
| Fulfilment.AtMostOneCopyPerAttempt | backend/app/services/fulfillment_service.py:237-262 | no row is on the sheet more often than there were attempts |
| OrderWrites.AddingIsASafeWrite | backend/app/services/order_service.py:183-201 | an accepted item is one order write that meets every run condition |
| OrderWrites.ConfirmingIsASafeWrite | backend/app/services/order_service.py:238-242 | so is a confirmed draft |
| OrderWrites.FulfillingIsASafeWrite | backend/app/services/fulfillment_service.py:197-201 | a fulfilment call is no step of the shop or one that meets every run condition |
| Gf2.StepIsLinear | backend/app/services/verification_service.py:31-34 | one shift-and-xor step is linear |
| Gf2.StepIsInjective | backend/app/services/verification_service.py:31-34 | one step maps different registers to different registers |
| Gf2.StepIsSurjective | backend/app/services/verification_service.py:31-34 | every register has a predecessor, so a step is a bijection |
| Gf2.TakeAtOnce | backend/app/services/verification_service.py:29-34 | adding up to sixteen bits before the shifts is feeding them one by one |
| Gf2.BurstsAreDetected | backend/app/services/verification_service.py:27-34 | messages of any length that differ only within sixteen consecutive bits leave different registers |
| Gf2.RegisterIsTheRemainder | backend/app/services/verification_service.py:27-34 | the register holds the one remainder of the message polynomial on division by x^16 + x^12 + x^5 + 1 |
| Crc16.ShiftedIsStep | backend/app/services/verification_service.py:31-34 | the branch on the top bit of the machine word is one step of the dividing register |
| Crc16.ShiftEight | backend/app/services/verification_service.py:30-34 | the inner loop is eight steps |
| Crc16.FeedByte | backend/app/services/verification_service.py:29-34 | one byte added to the high half and shifted in is its eight bits fed one by one |
| Crc16.ComputeCrc | backend/app/services/verification_service.py:22-35 | the nested loop computes the checksum of byte strings of any length |
| Crc16.ChecksumIsTheRemainder | backend/app/services/verification_service.py:27-34 | a register is the checksum iff it is a remainder of the message times x^16 with FFFF added to the top sixteen coefficients |
| Crc16.NeighbouringErrorsAreDetected | backend/app/services/verification_service.py:22-35 | byte strings that differ only within two neighbouring bytes have different checksums |
| Crc16.HexIsInjective | backend/app/services/verification_service.py:35 | different checksums have different four-digit texts |
| Crc16.HexReadsBack | backend/app/services/verification_service.py:35 | each digit of the text stands for its four bits |
| Crc16.CheckValue | backend/app/services/verification_service.py:22-35 | the bytes of 123456789 give 29B1, the published check value of this checksum |
| Crc16.NoFixedMarker | backend/app/services/verification_service.py:163-166 | a text whose checksum reads 9104 or 6304 has another checksum once these digits are appended |
| Bytes.LowByteValue | backend/app/services/verification_service.py:28 | the machine byte of a number has that number as its value |
| Bytes.BytesEncode | backend/app/services/verification_service.py:28 | the bytes of a character are its shortest form in the table of section 3 of RFC 3629 |
| SlipText.AsciiIsInjective | backend/app/services/verification_service.py:28 | ASCII texts have one byte a character, and different texts different bytes |
| SlipText.AmountReadsBack | backend/app/services/verification_service.py:84-89 | formatting an amount with two decimals and reading it back loses nothing, for amounts of either sign |
| SlipText.DecimalsAreRead | backend/app/services/verification_service.py:188-189 | digits with a point anywhere or nowhere, and with either sign or none, are read as the decimal they write |
| SlipText.OnlyDecimalsAreRead | backend/app/services/verification_service.py:188-195 | nothing else is read, up to blanks around it |
| Tlv.ParseTlv | backend/app/services/verification_service.py:38-64 | the loop returns the last-wins map of the entries, or the fault and index of the first place where none can be read |
| Tlv.ReadIffWritten | backend/app/services/verification_service.py:47-63 | a text is read as a row of entries iff these fit the format and write the text; so the decomposition is unique |
| Tlv.RefusedWhere | backend/app/services/verification_service.py:48-60 | a refused text is entries up to the reported index, and no entry starts there |
| Tlv.LastEntryWins | backend/app/services/verification_service.py:62 | the last entry with a tag gives the tag's value |
| Tlv.TagsOf | backend/app/services/verification_service.py:62 | the tags of the result are exactly those of the entries |
| SlipVerification.BrokenTextIsRejected | backend/app/services/verification_service.py:147-156 | a slip text that is not a row of entries is refused, whatever else the caller hands in |
| SlipVerification.PassedMeansChecked | backend/app/services/verification_service.py:105-110 | a slip that passes had a readable text whose checksum holds, a positive amount within tolerance read from it or from the caller, and no other recipient |
| SlipVerification.PassesIff | backend/app/services/verification_service.py:129-231 | a slip passes iff no mark is set, its text is empty or readable with the checksum step met, the first stated amount is a positive decimal within tolerance and no other recipient is named; the claim key is then ref: and the first given reference |
| SlipVerification.ReadableVerdict | backend/app/services/verification_service.py:129-178 | a readable slip is refused for its marks first, then for its checksum, and else judged by amount and recipient |
| SlipVerification.AmountVerdict | backend/app/services/verification_service.py:180-256 | the amount is refused as missing, unreadable, not positive or out of tolerance, in this order, then the recipient; passing yields claim key, hash and amount |
| SlipVerification.UnreadableVerdict | backend/app/services/verification_service.py:147-156 | a text that is no row of entries is refused with the place where reading stopped |
| SlipVerification.OneReferenceOneKey | backend/app/services/verification_service.py:234-242 | a reference that comes with the slip gives one claim key for all orders |
| SlipVerification.CaseDoesNotMatter | backend/app/services/verification_service.py:167 | the letters of a checksum may be small or large |
| SlipVerification.ChecksumMattersIffMarked | backend/app/services/verification_service.py:159-172 | the value of the checksum entry can make a slip fail iff the text contains the entry's tag followed by 04 |
| SlipVerification.LastMarker | backend/app/services/verification_service.py:162-163 | where the search for the last marker ends in a slip that closes with its checksum |
| SlipVerification.SealIsChecked | backend/app/services/verification_service.py:158-172 | such a slip passes the checksum step iff its last value is the checksum of all before it, or of the whole slip when the value reads like the marker |
| SlipVerification.ChecksumsDiffer | backend/app/services/verification_service.py:165-167 | texts that differ in one ASCII character or in two neighbouring ones have different checksum texts |
| SlipVerification.TamperingIsRejected | backend/app/services/verification_service.py:147-172 | a slip that ends in its checksum and passes that step is refused once one character or two neighbouring ones inside any other value change |
| SlipVerification.BuiltIsSealed | backend/app/services/verification_service.py:84-94 | the builder writes five entries and a last one with the checksum of everything before it |
| SlipVerification.OwnMarkerNeverHolds | backend/app/services/verification_service.py:163-167 | a checksum that reads like the marker is never the checksum of the text it then ends |
| SlipVerification.BuiltSlipPassesIff | backend/app/services/verification_service.py:97-256 | a built slip passes iff its amount is positive and within tolerance, no other recipient is named and its checksum does not read like the marker (or, built with 0000, is 0000); amount and claim key are then those of the slip |
| RateLimiter.Limiter.IsAllowed | api.py:164-176 | evicting expired times and comparing with the limit is one admission step on the queues |
| RateLimiter.Limiter.PruneStale | api.py:178-192 | pruning removes exactly the queues whose last time has expired and reports their number |
| RateLimiter.AdmitStep | api.py:164-176 | an admission answers as the count of the full history in the closed window would, and keeps each queue the unexpired end of that history |
| RateLimiter.AnswersCountTheHistory | api.py:164-192 | in every run with a clock that never runs back, all answers are those of counting the whole history of accepted requests |
| RateLimiter.PruningIsInvisible | api.py:178-192 | runs with the same requests and any prunings in between give the same answers |
| RateLimiter.NoWindowOverflows | api.py:169-176 | over any run no closed interval as long as the window holds more of the times at which the limiter said yes to a client than allowed |
| GeoIndex.WbMatch | geo_engine.py:478-498 | the search loop finds a name iff it stands alone somewhere in the text |
| GeoIndex.PfxMatch | geo_engine.py:442-457 | the search loops find a name iff it stands behind a prefix and ends well somewhere in the text |
| GeoIndex.MatchesIff | geo_engine.py:442-498 | a name matches iff it occurs with no Thai character touching it, or behind a prefix with the end of the text, no Thai character or a following word after it |
| GeoIndex.BuildIndex | geo_engine.py:138-148 | the index lists under each two-character key exactly the places whose names start so |
| GeoIndex.MatchNeedsItsGram | geo_engine.py:466-474 | any match of a name of two characters or more puts the name's first two characters into the text |
| GeoIndex.IndexFindsTheScan | geo_engine.py:466-474 | looking up the pieces of the text finds a record iff the scan of all names of two characters or more does |
| GeoIndex.AddMatching | geo_engine.py:459-464 | the pool grows by exactly the records of matching names, without repeats |
| GeoIndex.GeoDatabase.BuildCandidatePool | geo_engine.py:419-476 | the pool holds every candidate of the scan exactly once, in whatever order the pieces are visited |
| Brackets.RepairBrackets | parser.py:1173-1188 | the stack loop drops exactly the positions without a partner |
| Brackets.EightPairs | parser.py:1173-1174 | the eight pairs of brackets, in ASCII and in full width |
| Brackets.RepairedIsNested | parser.py:1177-1188 | the repaired text is well nested |
| Brackets.OnlyBracketsAreDropped | parser.py:1177-1188 | every other character stays, in order |
| Brackets.RepairedIsSameIffNested | parser.py:1187-1188 | a text is left as it is iff it was well nested |
| RepeatedBlocks.CollapseBlocks | parser.py:790-797 | the loop returns the block of the first length that repeats, or the whole text |
| RepeatedBlocks.CollapsedIsShortest | parser.py:793-797 | the result is the shortest block of four words or more whose repetition is the text |
| RepeatedBlocks.CollapsesToTheShortestBlock | parser.py:790-797 | a text that is some block of four words or more written twice or more becomes the shortest such block, any other text stays |
| RepeatedBlocks.CollapsingTwice | parser.py:790-797 | collapsing twice is collapsing once |

## Left out

- The model has one shop: filters by shop id, and the rows of other shops, are not modelled.
- HMAC signatures, SHA-256, JSON decoding, the LINE and Google clients, HTTP routing, caches and logging: the
  webhook starts from a decoded payload, and the sheet sync from validated rows (`parse_sheet_rows`).
- Locking: modelled are the row locks of the reservation loop (`Interleaving`) and SKIP LOCKED in the two sweeps,
  as an arbitrary list of locked rows. Every other service call is one atomic step; manual approval and rejection
  take no locks, so nothing is said about their statements interleaving with others.
- ReservationService.ReservedIffDemandIsFree: speaks of positive stored quantities, which every place that creates
  order lines or reservation rows ensures and `Settlement.PositiveLasts` shows to last; the methods themselves are
  modelled for any quantities.
- SheetIngest.IngestFromValues: the counters of all, valid and skipped rows come from `parse_sheet_rows` and are not
  part of the summary here.
- Interleaving.CommonOrderNeverDeadlocks: sufficient only; the exact condition is `Deadlock.DeadlockIff`.
- Interleaving.InterleavingIsSerial: which transaction the database aborts in a deadlock, and what the caller does
  with the error, are not modelled: an abort may come at any time.
- Drafts.AddItemToDraft: the lookup of the buyer's draft and the generation of a new order id are not modelled; the
  method gets the id that they yield.
- Rows are visited in the order of their ids; `updated_at`, `created_at`, message texts and risk scores are not
  modelled.
- Money is in whole cents, times are integers; sheet prices with more than two decimals are not modelled.
- That FULFILLED and CANCELLED orders stay so: manual approval and the webhook set the status whatever it was.
- Exactly-once sheet rows: a failed attempt leaves its rows, and the next one appends them again.
- Fulfilment.FulfillOrder: a refused append is taken not to have written its row; the address, date and note
  columns are not modelled.
- SlipVerification.BuiltSlipPassesIff: references, currency, country and amount text are at most 99 characters,
  as the two-digit length demands; longer ones break the layout of the builder. Checksum tags are 91 and 63, the two that the verifier looks for.
  The builder's malformed variant is not modelled.
- SlipVerification.BuiltIsSealed: the same lengths; checksum tags are 91 and 63, the two that the verifier looks for.
- SlipVerification.TamperingIsRejected: changes of characters outside ASCII, of tags and of lengths are not
  covered; a changed length may move the entry boundaries.
- Amount texts in exponent notation, with underscores, NaN or infinity; digits, blanks and upper case outside ASCII; slip
  data whose amounts are numbers rather than texts; the rounding of very long decimals.
- RateLimiter.AnswersCountTheHistory: the clock is read before the lock is taken, so with threads two requests
  may enter out of order; the statement is about calls in the order of their times.
- GeoIndex.IndexFindsTheScan: names shorter than two characters are not in the index and match nothing; whether
  the pool holds everything that `lookup` could score is not claimed, since `lookup` accepts more positions.
- RepeatedBlocks.CollapseBlocks: works on the words; splitting and joining the text are not modelled.
- The regular expressions of the address parser, removal of empty bracket pairs, fuzzy matching, entity
  recognition and the language model cascade.
- The chat flow, consent records, exports, translations, the portal, migrations and evaluation scripts.

# Box office: holds, orders, tickets, passes

The project models the money and inventory core of a theater box office and
proves what buyers and staff rely on about it. A visitor's session puts general
admission (GA) quantities or reserved seats on an expiring *hold*; a hold is paid
for (Stripe webhook, test checkout) or redeemed against a season or flex *pass*,
which turns it into an *order* with lines, payments and *tickets*; tickets are
scanned at the door; orders are cancelled or refunded, which voids tickets, gives
inventory back and restores passes. Promo codes, donations, pricing zones and the
edits staff make at the desk run beside all of this.

## How it is built

- `Tables` has the row sums, filters and updates; `Schema` has the rows. Money is
  integer cents, percentages are integer hundredths of a percent, time is whole
  seconds on a clock that only advances.
- `Pricing`, `Zones`, `Promotions`, `Holds`, `Fulfilment`, `Scanning` give every
  transaction as a function from database to database, or to the failure it
  raises. `System` collects them as actions: a transaction that raises leaves the
  database as it was, and `Run` is any sequence of actions.
- `Inventory`, `Carts`, `Passes`, `Ledger` state what stays true of inventory, holds,
  passes and money; `Consistency` joins them into one invariant that every action
  keeps.
- `Answers` and `Availability` say over the rows alone, for every transaction, which check
  refuses it and that it goes through if none does. `Expiry` proves that expired holds are
  as good as gone, `TenMinutes` how long a hold lasts, `Provenance` what was so at the
  step of a run that wrote a row.
- `Effects` says what selecting, paying and undoing do and what they leave alone.
- `Reservations`, `Entitlements`, `Charges`, `PromoCaps`, `History` draw from it what holds over
  all runs. `Stripe` reconciles what the card is charged with what is recorded.
- `Settlement` compares, across the time a hosted payment page is open, what the card
  paid with what the order records.
- `Services` is the class `BoxOffice`: tables as fields, one method per service
  function with the loops the services have, each proved to do exactly what its
  action does and to keep the invariant. `Zones.ZoneService` is the same for the
  zone service.
- `SeatLocks` and `Webhooks` are two finer models, below the grain of whole
  transactions: seat-row locks, and webhook deliveries split at their unlocked read.
  `StaleReads` says what such a delivery leaves standing, and exactly what it does not;
  `StaleCodes` says what it does to promo caps. `Alone` proves that a seat transaction nobody
  interrupts is the action of the coarse model.

## Where the code is followed rather than its comments

- `_to_minor_units` rounds half to even; its docstring says it truncates.
- `Order.total` need not be what Stripe collected. The hold is not locked while its payment
  page is open and the delivery looks at no amount: a code or gift edited in between is
  recorded and not charged (`Settlement.ChargeIsRecordedIff`,
  `Settlement.CodeAfterTheSessionIsNotCharged`), and so is a pass's price
  (`Settlement.PassChargeIsRecordedIff`).
- A promo cap can be overshot by any number: a payment passes it whenever the counter
  is at the cap and the hold carries the code (`PromoCaps.PaymentPassesCapIff`), as
  many times as there are such holds (`PromoCaps.CapOvershotByAny`) and no more
  (`PromoCaps.OvershootIsBounded`); below the grain of transactions, also by deliveries
  that had read such a hold (`StaleCodes.StaleUse`). The comment says by one.
- `set_reserved_hold` looks for other sessions' holds on a seat across all
  performances, the seat map only at its own (`Reservations.ReservedShownIsHoldable`).
- `clone_zones_from_performance` does not clear the target's zones, so it keeps "one
  zone per seat" only under a condition (`Zones.CloneKeepsZonesIff`). It can also leave
  two zones of one template there, after which `apply_zone` fails
  (`Zones.CloneMakesAmbiguousIff`).
- The capacity form compares with what is sold, not with what is held
  (`Reservations.CapacityEditStrandsIff`); `_fulfill_reserved` does not look at seat blocks.
- A hold whose prices are negative charges nothing and its order does not add up
  (`Charges.NegativePriceDoesNotAddUp`); nothing in the models forbids a negative price.
- In a zero-decimal currency lines, coupon and fee round on their own. That a coupon
  stays inside the ticket lines, and a fee inside the total, holds for exactly the other
  currencies (`Stripe.CouponStaysInsideIff`, `Stripe.FeeWithinEveryTotalIff`), and for
  whole units in these (`Stripe.WholeUnitsKeepTheCouponInside`,
  `Stripe.WholeUnitsKeepTheFeeInside`).
- Below the grain of transactions a payment that waits for its locks past the end of its
  hold tickets a seat over somebody else's hold exactly when there is such a hold at its
  commit, which the code could check under its locks and does not
  (`SeatLocks.HeldStaysFreeIff`).
- A webhook delivery that read a hold before it was given up or replaced commits on the
  stale row: without tickets for a reserved selection (`StaleReads.TicketsIffStillHeld`),
  with the full quantity for GA (`StaleReads.StaleGaKeepsRoomIff`).
- The three writes of `order_cancel` are separate commits; a broken cancel shows until it
  is repeated (`Effects.BrokenCancelIsResumed`, `Effects.BrokenCancelShowsIff`). One
  that is overtaken by a refund writes CANCELLED over REFUNDED
  (`Effects.OvertakenCancelHidesTheRefund`).

## Assumptions

- Transactions are atomic and serial, as the services' module documentation says,
  except in `SeatLocks`, `Webhooks`, `StaleReads` and `StaleCodes`, which assume atomic commits and re-checks that
  read committed rows. `order_cancel` is one transaction in `System`.
- One theater. Primary keys are positions in the tables, except where rows are
  deleted. Rows come in the order their querysets return them.
- The venue's fall-back to its first chart is resolved before a performance is
  stored. Promo codes are keyed by their normalized text and never deleted; tiers
  keep their currency and are not deleted while held.
- A webhook's session id, product, amount and hold, Stripe's answer to a refund, and
  whether a ticket's signature checks out, are parameters.

## Model

| member | source | states |
|---|---|---|
| Consistency.AlwaysConsistent | orders/services.py:1-26 | Every state any run of transactions reaches from an opening one satisfies the whole invariant of inventory, holds, passes and money |
| Consistency.StepKeepsConsistent | orders/services.py:281-453 | Every action keeps the invariant, whether it commits or rolls back |
| Consistency.FulfillKeeps | payments/services.py:687-830 | Paying for a held cart keeps it |
| Consistency.RedeemKeeps | payments/services.py:1004-1210 | Redeeming a pass for a held cart keeps it |
| Consistency.RefundKeeps | payments/services.py:1404-1490 | Refunding keeps it |
| Consistency.CancelKeeps | dashboard/views.py:1145-1169 | Cancelling keeps it |
| Consistency.NeverPending | payments/services.py:764-811 | No order of a run is ever left PENDING or without a payment |
| Reservations.ReservedSeatsAreSafe | orders/services.py:337-415 | Over any run: one live ticket per seat and performance; holds sharing a seat are one session's for different performances; a held seat is unticketed; an unexpired reserved hold is payable by webhook, test page and any provider |
| Carts.ReservedRecheckNeverFails | payments/services.py:1529-1549 | The availability error of `_fulfill_reserved` is unreachable for an unexpired hold |
| Reservations.SoldIsConserved | orders/services.py:418-453 | Over any run `sold` is the number of live seatless tickets and the GA quantity of PAID orders, is within capacity, and the floor at 0 in `void_order` never applies |
| Inventory.FloorNeverClamps | orders/services.py:440-452 | What a void frees was sold, in every consistent state |
| Inventory.ReverseKeepsInventory | orders/services.py:418-453 | Voiding an order and ending it keeps tickets, lines and `sold` in step |
| Reservations.StepKeepsRoom | orders/services.py:296-334 | No action other than lowering a capacity lets sold plus unexpired held quantity pass the capacity |
| Reservations.UnexpiredHoldsAreHonoured | payments/services.py:1493-1499 | In runs that never lower a capacity every unexpired hold, GA or reserved, is payable, however the payment arrives |
| Reservations.PayableIff | payments/services.py:733-786 | A hold of the table is payable, however the payment arrives, exactly when it is unexpired and its inventory re-check passes |
| Reservations.CapacityEditStrandsIff | dashboard/forms.py:93-107 | An accepted capacity edit makes an unexpired hold unpayable exactly when the hold no longer fits beside what is sold |
| Answers.PerformanceFormAnswer | dashboard/forms.py:93-107 | The form is refused exactly for a capacity below what is sold, and never moves what is sold, the event or another performance |
| Reservations.GaShownIsHoldable | orders/services.py:105-126 | A positive quantity is accepted exactly when the selection page shows that many |
| Reservations.TakenIff | orders/services.py:213-275 | A seat is refused exactly when the seat map does not offer it or another session holds it for another performance |
| Reservations.ReservedShownIsHoldable | orders/services.py:337-392 | A reserved selection is accepted exactly when every seat is on the chart, offered, not held elsewhere by others, and priced |
| Availability.GaAloneIff | orders/services.py:105-126 | With nobody else's unexpired hold in the way a positive quantity is accepted exactly when sold plus quantity is within capacity; expired holds, one's own and other performances' are not in the way |
| Availability.OneMoreHold | orders/services.py:105-126 | One more hold lowers what another session can have by exactly its quantity if it is an unexpired GA hold for the performance, and by nothing otherwise |
| Availability.ShownToEveryone | orders/services.py:114-129 | The same for the public figure |
| Availability.GaAnswer | orders/services.py:296-334 | SoldOut is answered when no quantity can be had, TooFew(n) when n can and n + 1 cannot; what is below an accepted quantity is accepted |
| Availability.GaHeldAtItsTier | orders/services.py:325-334 | An accepted GA selection is held at the amount and in the currency of the tier of that id |
| Availability.SeatMapSays | orders/services.py:213-267 | The four answers of the seat map over blocks, tickets and holds: blocked before sold or held by others before held by you |
| Availability.SeatsAnswer | orders/services.py:343-392 | A selection of seats is refused for the first of: no performance, a seat off the chart, a seat ticketed, blocked or held by another session, a seat without a price; and accepted if none is so |
| Availability.SeatsHeldAtTheirPrices | orders/services.py:389-411 | Every seat of an accepted selection is held at its zone's amount, else its section's override, else its section's default, in that row's currency |
| Availability.ReleaseIs | orders/services.py:281-309 | A release, a quantity of nothing and an empty selection delete the session's holds for the performance and no others |
| Availability.ReleaseByIdIs | orders/services.py:287-293 | A hold is given up by id only by its own session |
| Availability.CodeIsFrozen | orders/services.py:580-637 | A code is applied exactly to the session's own unexpired hold when no check of the code fails on its total and currency; the discount is frozen on that hold and nothing else changes |
| Availability.GiftIsAdded | orders/services.py:680-729 | A gift is added exactly to such a hold, when it is positive and at most ten thousand; nothing else changes |
| Availability.EditsAreUndone | orders/services.py:640-661 | Code and gift are taken off by the hold's own session only, expired or not |
| Expiry.TooLateIff | payments/services.py:733-736 | A payment, by webhook, test page or pass, answers that the hold is gone exactly when no hold of the id has `expires_at` after now |
| Expiry.PageTooLateIff | payments/services.py:296-297 | A payment page is refused for expiry exactly when `expires_at` is not after now |
| Expiry.SweepIs | orders/management/commands/release_expired_holds.py:32-36 | The sweeper deletes exactly the holds whose `expires_at` is not after now |
| Expiry.StepAlike | orders/management/commands/release_expired_holds.py:1-22 | Every action is answered alike and ends alike whether the expired holds are still in the table or not |
| Expiry.SweepingMakesNoDifference | orders/management/commands/release_expired_holds.py:1-22 | Wherever in a run the sweeper comes by, every later answer and all tables but the expired holds are as if it had not |
| Expiry.ShownAlike | orders/services.py:105-129 | Neither do expired holds show in the availability or on the seat map |
| TenMinutes.NoneIsLonger | orders/models.py:14-17 | Over any run no hold has more than ten minutes left |
| TenMinutes.HeldTenMinutes | payments/services.py:733-736 | Whatever happens after a selection, it cannot be paid for from ten minutes on; before that it is never answered to be gone unless its buyer touched it |
| TenMinutes.NothingHeldAfterwards | orders/services.py:105-126 | Ten minutes without a selection: GA goes as far as it is not sold, and a seat is offered exactly when it is neither blocked nor ticketed |
| TenMinutes.SeatsComeBackIff | orders/services.py:366-388 | Seats that one session selected can be selected by another exactly from ten minutes on, and are refused as unavailable before |
| Effects.SelectionHoldsWhatWasAsked | orders/services.py:337-415 | An accepted reserved selection is held for ten minutes: exactly the requested seats at their bulk prices, in place of what the session held there, all else untouched |
| Effects.GaSelectionFits | orders/services.py:296-334 | An accepted GA selection is held at the tier's price and fits beside what is sold and held |
| Effects.SaleDeliversTheHold | payments/services.py:687-830 | Paying makes tickets of exactly what was held: its seats become taken and no others, `sold` and the code's counter move by it alone, the hold goes, all else stays |
| Effects.SaleLines | payments/services.py:1504-1572 | The order has a line for every held seat at the held price, as many tickets as held, the gift if there is one, and one payment of the total |
| Answers.StockAnswer | payments/services.py:1493-1549 | The inventory re-check fails for the first of: no allocation, GA sold beyond the hold, a held seat ticketed |
| Answers.PayAnswer | payments/services.py:687-830 | A payment for a hold is refused for its expiry, `expires_at` at or before now, else for its inventory, and accepted otherwise |
| Answers.DeliveryAnswer | payments/services.py:1216-1398 | The webhook does nothing for a session that has its order; for a new one it records the gift if it names its amount, sells the pass, or pays for the hold |
| Answers.PassSaleAnswer | payments/services.py:909-1001 | A pass is sold exactly when its product exists and is active: one paid order and one ACTIVE pass with all credits, on the product's terms, and nothing else |
| Provenance.EverySaleWasInTime | payments/services.py:733-736 | Over any run every order for a performance was written by a payment for a hold of the table that had not run out |
| Effects.ReversalFreesTheOrder | orders/services.py:418-453 | Cancel or refund voids exactly the order's tickets, frees its seats, lowers `sold` by its seatless tickets, and changes no hold, price, code or other order |
| Answers.RefundAnswer | payments/services.py:1421-1464 | A refund of a PAID order goes through exactly when no pass it sold has a redemption and its first succeeded payment is not Stripe's, or names a PaymentIntent and Stripe answered; every refusal changes nothing |
| Answers.RefundWrites | payments/services.py:1481-1489 | It leaves the order REFUNDED, with one more row that reverses the whole total by the same provider, under Stripe's reference |
| Answers.WithdrawnIff | payments/services.py:1466-1479 | A refund withdraws exactly the passes the order sold, a cancel none |
| Answers.CancelAnswer | dashboard/views.py:1145-1169 | A cancel is never refused: a PAID order is CANCELLED with its payments as they were, any other is left alone |
| Provenance.EveryRefundReturnedTheMoney | payments/services.py:1404-1490 | Over any run a REFUNDED order was PAID when it was refunded, no pass it sold was in use, and if Stripe had taken the money then Stripe answered, and the books show that answer |
| History.RunContinues | payments/services.py:1404-1490 | No run rewrites the past: orders keep lines, totals and payments, tickets and passes only move forward |
| History.OrderLifecycle | orders/models.py:259-345 | Over any run PAID orders have only live tickets, others only void ones and no redemption; net money is the total, or 0 once REFUNDED |
| History.ReversedIsFinal | payments/services.py:1404-1424 | A cancelled or refunded order is never changed again: cancel, refund and void are no-ops and no run revives it |
| History.TicketsOfOrderFixed | payments/services.py:1493-1572 | The tickets an order was given are its tickets for good |
| History.AdmittedAtMostOnce | scanning/services.py:69-128 | Over any run a ticket is admitted at most once, and is not VALID afterwards |
| History.ScanIs | scanning/services.py:131-160 | A scan admits exactly a signed, VALID ticket from one hour before to four hours after the start, and touches nothing else |
| Scanning.DoorAnswer | scanning/services.py:69-160 | The door answers the first of: bad signature, no ticket, void, used, more than an hour early, more than four hours late; and admits if none is so |
| History.EveryScanWasInItsWindow | scanning/services.py:131-160 | Over any run, rescheduling or not, every recorded scan was an admission inside the window its performance had at that moment |
| History.ScannedInWindow | scanning/services.py:38-39 | In runs that do not reschedule, every recorded scan also lies in the window the performance has at the end |
| History.UsedAtMostSold | scanning/services.py:112-128 | The USED seatless tickets of a performance number at most `sold` |
| Passes.RedeemMovesCredits | payments/services.py:1187-1198 | A redemption takes exactly as many credits off the balance as its rows record; the floor at 0 never applies |
| Passes.RestoredSums | passes/services.py:109-175 | What a restore gives a pass is what its deleted rows had taken |
| Entitlements.CreditsAreConserved | passes/services.py:109-175 | Over any run balance plus live credits used is the credits bought; EXHAUSTED exactly at balance 0; a REFUNDED pass has no redemption |
| Entitlements.RefundedPassIsUnused | payments/services.py:1466-1479 | A sold pass is REFUNDED exactly when its order is, and then none of its redemptions is live |
| Entitlements.UsedPassBlocksRefundIff | payments/services.py:1426-1439 | A refund is refused for use exactly when a pass of the order has a live redemption |
| Entitlements.ReportIsSoldLessRedeemed | dashboard/views.py:989-1007 | The liability report's outstanding flex credits are the credits sold less those redeemed, over all passes not refunded |
| Entitlements.OutstandingFlexCredits | dashboard/views.py:989-1007 | The report's loop adds up the balances of the ACTIVE flex passes |
| Entitlements.SeasonAdmitsOnce | passes/models.py:278-289 | Over any run a season pass has at most one live redemption per event, only of covered events, and remaining admissions are exactly the covered events not redeemed |
| Entitlements.FlexRemaining | passes/services.py:79-106 | Over any run a flex pass has left what was bought less what was redeemed; only an all-events season pass has no number |
| Answers.RedeemAnswer | payments/services.py:1048-1109 | A redemption is refused for the first of its eleven checks, over the fields of hold, pass and performance, or else of the inventory's; it goes through if none fails |
| Provenance.EveryRedemptionWasCovered | passes/services.py:31-76 | Over any run every recorded redemption was made of a pass ACTIVE and not past its end, for a covered event, and a start inside the window the pass has to this day |
| Passes.RemainingIsUnredeemed | passes/services.py:79-106 | The `max` in `remaining_admissions` never applies |
| Entitlements.RedeemThenUndo | payments/services.py:1004-1210 | Redeem, then cancel or refund: allocations, passes, redemptions and seat availability are back exactly as they were |
| Entitlements.UndoGivesBack | passes/services.py:109-175 | Undoing a PAID redemption order at any time gives its pass a credit per ticket, frees its rows and its seatless tickets, nothing more |
| Entitlements.RedeemAnythingUndo | payments/services.py:1004-1210 | With any run in between, the reversal still moves the balance by exactly the tickets minted |
| Charges.OrderAddsUpIff | orders/models.py:352-359 | Over any run the payment is the total, and total plus discount is the sum of the lines exactly when the ticket lines are worth at least the discount |
| Charges.HeldDiscountLeavesACharge | orders/services.py:548-577 | The discount on any reachable hold is at least 0 and less than its tickets, so the floor in `hold_grand_total` never applies and a gift is charged in full |
| Charges.NegativePriceDoesNotAddUp | orders/services.py:548-577 | From any opening with a tier priced below zero, selling it writes an order that charges nothing and does not add up |
| Charges.RedemptionFacesAddUp | payments/services.py:1148-1177 | A redemption order charges nothing, and while PAID its redemptions' face values sum to its lines, one per ticket |
| Charges.StepSpares | orders/services.py:470-494 | No step but the buyer's own, or expiry, changes a hold |
| Charges.EditsNeverReachAHold | payments/services.py:687-830 | Two runs that differ in any price, zone, promo or product edits pay for the same hold with the same order, by webhook, test page or pass |
| Charges.EditsNeverReachAPass | payments/services.py:975-991 | A pass sold by webhook or test page keeps the terms, coverage and window of the moment of sale through any run |
| Charges.CodeAndGiftCommute | orders/services.py:580-729 | Applying a code and adding a gift commute, and each succeeds or fails as it would without the other |
| PromoCaps.PotentialNeverGrows | promotions/services.py:136-148 | Once a code is at its cap, redemptions made plus unexpired holds carrying it never increase, unless the cap is raised |
| PromoCaps.OvershootIsBounded | payments/services.py:813-829 | The counter ends at most at what it was plus the unexpired holds that carried the code when the cap was reached |
| PromoCaps.PaymentPassesCapIff | payments/services.py:813-829 | A payment takes the counter past the cap exactly when it is at the cap and the paid hold carries the code |
| PromoCaps.CapOvershotByAny | payments/services.py:813-829 | From any opening with a capped code on offer and room, and for every n, a run ends n uses past the cap |
| StaleCodes.StaleUse | payments/services.py:813-829 | A split delivery counts the code its row carried; uses made and still possible grow exactly when that row carried the code and its hold no longer does |
| StaleCodes.OvershootWithStaleReads | payments/services.py:813-829 | In every interleaving the counter ends at most at what it was plus the unexpired holds and the pending deliveries that carried the code at the cap, plus one per later read of such a hold |
| PromoCaps.CounterIsOrders | promotions/services.py:136-148 | Over any run a code's counter is the number of orders paid with it |
| Promotions.PercentIsNearest | promotions/services.py:113-133 | A percentage discount is within half a cent of the exact share |
| Promotions.DiscountMonotone | promotions/services.py:113-133 | A larger cart never gets a smaller discount |
| Promotions.DiscountNeverExceedsCartIff | promotions/services.py:113-133 | A code never exceeds the cart, on all carts, exactly when it is fixed or at most 100 percent |
| Promotions.FixedIsTheLesser | promotions/services.py:113-133 | A fixed code takes off the lesser of its value and the cart |
| Promotions.CodeAnswer | promotions/services.py:59-110 | A code is refused for the first of: inactive, not started, ended, at its cap, below its minimum, wrong currency, nothing left to charge; and accepted if none is so |
| Pricing.ZonesBySeatId | events/pricing.py:126-141 | The dictionary holds, for every seat, the last zone of the performance that covers it |
| Pricing.PriceTiersBySection | orders/services.py:161-179 | Every section of the chart with a resolvable tier, and that tier |
| Pricing.ResolveReservedPrices | orders/services.py:182-210 | The bulk form prices exactly the chart's priced seats |
| Pricing.OverrideBeforeDefault | events/pricing.py:37-57 | A section's tier is the first one of the performance; without one the first chart-wide one; none exactly without either |
| Pricing.PriceIs | events/pricing.py:104-123 | A zone of the performance decides a seat's price before its section's tier; both forms refuse exactly the seats that have neither |
| Pricing.DefaultsCannotReachAnOverride | events/pricing.py:42-46 | Editing chart-wide or other performances' tiers changes no price of a performance that overrides the section |
| Pricing.BulkAgreesIff | events/pricing.py:104-123 | Bulk and per-seat prices agree on every seat exactly when no seat is in two zones of the performance |
| Zones.ZoneService.Apply | events/zones.py:39-93 | The requested seats end up in the template's one zone, at the new price, and in no other zone of the performance |
| Zones.ZoneService.Remove | events/zones.py:96-103 | The seats leave that zone only |
| Zones.DeleteKeepsZones | events/zones.py:106-113 | Exactly that zone goes, and zones stay disjoint |
| Zones.DeleteFallsBackToTiers | events/zones.py:106-113 | A deleted zone's seats go back to their section's tier price, or to none; no other seat's price changes |
| Zones.ZoneService.Clone | events/zones.py:116-162 | A copy per source zone on the target, cut down to the target's chart |
| Zones.ApplyKeepsZones | events/zones.py:39-93 | Applying keeps zones disjoint: one zone of the template takes in every requested seat at the price asked, and no other zone keeps any |
| Zones.ApplyPricesTheSeats | events/zones.py:39-93 | Afterwards every requested seat resolves to that price from one and the same zone |
| Zones.CloneKeepsZonesIff | events/zones.py:145-161 | A clone keeps "one zone per seat" exactly when the target had no zone on a copied seat |
| Zones.BulkAgreesAlways | orders/services.py:182-210 | Over any run of zone edits with clear clones bulk and per-seat prices agree |
| Zones.ApplyFailsIff | events/zones.py:39-93 | A seat assignment cannot find its zone exactly when the performance has two zones of the template |
| Zones.CloneMakesAmbiguousIff | events/zones.py:116-162 | After a clone that is so exactly when source and target had more than one zone of the template between them |
| Zones.CloneCanStickApply | events/zones.py:116-162 | A run of zone edits with a clear clone, zones disjoint throughout, comes to it for any two performances |
| Stripe.LineItemsForHold | payments/services.py:561-648 | The lines of a checkout, seat by seat, then the gift |
| Stripe.ToMinorIsExact | payments/services.py:666-681 | Cents convert without loss in two- and three-decimal currencies |
| Stripe.SessionAnswer | payments/services.py:296-301 | A session is refused for the hold's expiry, else for having nothing to pay, and made otherwise |
| Stripe.SessionLinesAre | payments/services.py:561-648 | Its lines are the GA tickets or every held seat in order, at the price and in the currency held, then the gift; the coupon is the discount and the fee is on the net |
| Stripe.FeeIs | payments/services.py:230-267 | The fee is the one rounded share of the total in the currency's minor unit, plus the fixed part; no fee exactly when that is nothing |
| Stripe.SessionReconciles | payments/services.py:349-375 | For a single-currency hold outside zero-decimal currencies: lines less coupon is the recorded total exactly when the tickets are not priced below zero; the coupon stays inside the ticket lines |
| Stripe.SessionChargesItsHold | payments/services.py:273-382 | Over any run, a session outside zero-decimal currencies charges what an order of its hold at that moment would record, exactly when the tickets are not priced below zero; its coupon stays inside the ticket lines and a percentage fee of at most 100 inside the charge |
| Settlement.ChargeIsRecordedIff | payments/services.py:738-743 | Outside zero-decimal currencies, for a hold in one currency not priced below zero: with any run between the session and its delivery, the card paid what the order records exactly when code and gift are worth at the delivery what they were at the session; else the difference is theirs, to the minor unit |
| Settlement.LeftAloneIsChargedAsRecorded | payments/services.py:273-382 | A hold that is not touched while its payment page is open is charged as its order records |
| Settlement.CodeAfterTheSessionIsNotCharged | orders/services.py:580-637 | From any opening with a code on offer: a code applied after the session was opened leaves the card paying the full price and the order recording the reduced one |
| Settlement.PassChargeIsRecordedIff | payments/services.py:469-548 | A pass is charged as its order records exactly when its price at the delivery is what it was at the session |
| Settlement.GiftIsChargedAsRecorded | payments/services.py:385-466 | A gift always is |
| Stripe.PercentFeeBound | payments/services.py:230-267 | A percentage fee of at most 100 is between 0 and the charge |
| Stripe.ZeroDecimalDrift | payments/services.py:666-681 | In a zero-decimal currency the charge is within half a unit per ticket, and one more, of the recorded total |
| Stripe.WholeUnitsAreExact | payments/services.py:666-681 | There too the charge is exact when every amount is a whole unit |
| Stripe.CouponStaysInsideIff | payments/services.py:349-375 | The coupon of every hold in one currency stays inside its ticket lines exactly when the currency is not zero-decimal |
| Stripe.WholeUnitsKeepTheCouponInside | payments/services.py:349-375 | In whole units it stays inside in zero-decimal currencies too |
| Stripe.FeeExceedsTotalIff | payments/services.py:254-267 | In a zero-decimal currency a rate up to 100 takes more than the converted total exactly when it is 100 and the total half a unit above an even number of units |
| Stripe.FeeWithinTotalIff | payments/services.py:254-267 | In a zero-decimal currency no rate up to 100 takes more than the converted total exactly when the total is not half a unit above an even number of units |
| Stripe.FeeWithinEveryTotalIff | payments/services.py:254-267 | No rate up to 100 takes more than the converted total, at any total, exactly when the currency is not zero-decimal |
| Stripe.FeeWithinChargeIff | payments/services.py:254-267 | The fee of every hold in one currency is at most what is collected, at every rate up to 100, exactly when the currency is not zero-decimal |
| Stripe.WholeUnitsKeepTheFeeInside | payments/services.py:254-267 | In whole units such a fee is at most what is collected |
| Stripe.FeeExceedsCharge | payments/services.py:254-267 | In any zero-decimal currency a ticket at half a unit collects nothing and carries a fee of one |
| SeatLocks.NoInterleavingOversells | orders/services.py:343-392 | In any interleaving of lock, re-check, write and commit steps no seat is ticketed twice, no two sessions hold one seat, and no re-check goes stale before its commit |
| SeatLocks.NeverDeadlocked | payments/services.py:1535-1540 | From any reachable state every open transaction can be brought to its end |
| SeatLocks.Drain | orders/services.py:357-362 | It takes no more steps than the transactions have work left, and rolls none back |
| SeatLocks.Mover | orders/services.py:343-362 | Following the owner of the row waited for leads to a transaction that can move, since each waits for a higher row |
| SeatLocks.UnorderedLocksDeadlock | orders/services.py:343-348 | If two transactions could begin with two rows in opposite orders, after one lock each no step of theirs would ever be enabled again |
| SeatLocks.HeldStaysFreeIff | payments/services.py:1540-1549 | A payment's commit leaves held seats unticketed exactly when no other unexpired hold of the performance has one of its seats |
| SeatLocks.HeldFreeThroughoutIff | payments/services.py:1540-1549 | Throughout a run no held seat is ticketed exactly when no payment of the run commits over somebody else's unexpired hold |
| SeatLocks.PaidInTimeIsHonoured | payments/services.py:733-736 | So if every payment commits before its hold ends, no held seat is ticketed to another and a timely re-check never fails |
| SeatLocks.LatePaymentTakesAHeldSeat | payments/services.py:1535-1549 | In any reachable state a payment that has not locked yet, over free seats, can be overtaken by a selection and then tickets the seat over that hold |
| SeatLocks.EveryPaymentCanBeLate | payments/services.py:733-736 | Any session's payment of any seat can come to that, with no further passage of time |
| Alone.SelectIsAtomic | orders/services.py:343-415 | A selection that locks, re-checks and writes alone ends exactly as the one transaction of the system does, accepted or refused, and leaves no lock |
| Alone.PayIsAtomic | payments/services.py:1529-1572 | So does a payment for held seats, begun exactly if the hold has not run out |
| Webhooks.EachSessionIsPaidOnce | orders/models.py:325-346 | In any interleaving of split deliveries with anything else: one order per session, created by exactly one delivery; every other one names it or fails |
| Webhooks.SessionActsOnce | payments/services.py:1216-1398 | Of all steps of all deliveries of a session exactly one changes the database if its order exists, none otherwise |
| Webhooks.InterleavingsAreSerial | payments/services.py:1216-1398 | As long as no order is created from a stale read, the database is one that a run of whole transactions leaves |
| StaleReads.EveryInterleavingIsSound | payments/services.py:1216-1398 | In every interleaving, stale reads included, inventory, carts, passes, code counters, sessions, scans and payments stay in step |
| StaleReads.CommitIsAtomicIff | payments/services.py:1342-1374 | A commit that creates does what the whole delivery would do then exactly when what it read still stands |
| Webhooks.FreshIsAtomic | payments/services.py:1342-1374 | A commit on an untouched read is the whole delivery at once |
| Webhooks.DeliveryIsAtomic | payments/services.py:1216-1398 | A delivery that arrives, reads and commits with nothing in between does what the whole delivery does, success or failure, and names the order it created or found |
| Webhooks.FailureChangesNothing | payments/services.py:1375-1396 | A delivery that does not create changes nothing, and the fall-back names the session's order |
| StaleReads.TicketsIffStillHeld | payments/services.py:1529-1533 | A paid delivery of a reserved selection mints its tickets exactly when the selection still stands, and else none |
| StaleReads.OrderAddsIff | payments/services.py:782-811 | The order of a delivery is within its own books exactly when its selection was not lost, or was lost without a code |
| StaleReads.LostSelectionBuysNothing | payments/services.py:1529-1533 | A lost selection's order is for the gift alone, without a ticket, off by exactly the discount |
| StaleReads.LostSelectionHappens | payments/services.py:1342-1374 | From any opening an accepted selection can be paid for and bring no ticket |
| StaleReads.OtherRefusedIff | payments/services.py:1493-1499 | After a GA delivery another hold is refused exactly when it no longer fits beside what is sold |
| StaleReads.StaleGaKeepsRoomIff | payments/services.py:1493-1526 | A GA delivery keeps room for every unexpired hold exactly when its own hold still stands or it fits beside everything sold and held |
| StaleReads.StaleGaStrandsAHold | payments/services.py:1493-1526 | From any opening a stale GA delivery can leave another session's unexpired hold refused |
| Services.BoxOffice.constructor | orders/models.py:56-165 | A new box office has its catalogue, nothing sold, and the invariant |
| Services.TotalOf | orders/services.py:482-494 | The loop adds up the hold's snapshot prices |
| Services.PriceSeats | orders/services.py:389-411 | Every requested seat gets its bulk price, or the selection is refused |
| Carts.AllFoundIff | orders/services.py:357-364 | Comparing two lengths tells exactly whether every requested seat is on the chart |
| Services.BoxOffice.SelectSeats | orders/services.py:356-388 | Which of the checks on the requested seats fails, if one does |
| Services.BoxOffice.SetGaHold | orders/services.py:296-334 | Does the GA hold action or changes nothing, and keeps the invariant |
| Services.BoxOffice.SetReservedHold | orders/services.py:337-415 | Does the reserved hold action or changes nothing, and keeps the invariant |
| Services.BoxOffice.SeatStates | orders/services.py:213-267 | The seat map: every seat of the chart and no other, in its state |
| Services.BoxOffice.ApplyPromo | orders/services.py:580-637 | Freezes the discount of a code that validates, or changes nothing |
| Services.BoxOffice.FulfillGa | payments/services.py:1493-1526 | Adds the line, the tickets and the sold count, or raises before it writes |
| Services.BoxOffice.MintSeats | payments/services.py:1551-1572 | A line and a ticket for every held seat, in order |
| Services.BoxOffice.FulfillReserved | payments/services.py:1529-1572 | The same for reserved seats, after the re-check |
| Services.BoxOffice.FulfillHold | payments/services.py:687-830 | Written step by step, with the order first and rolled back when the inventory is gone, it is the sale |
| Services.BoxOffice.FulfillPass | payments/services.py:909-1001 | A pass with every term copied off its product, and its order |
| Services.BoxOffice.DeliverWebhook | payments/services.py:1216-1398 | Returns the session's order, and created exactly when no order had the session before |
| Services.BoxOffice.FaceValues | payments/services.py:1148-1157 | The dictionary gives every seat the unit of its own line |
| Services.BoxOffice.RecordRedemptions | payments/services.py:1159-1177 | One row per ticket, at the face value of its line |
| Services.BoxOffice.BurnCredits | payments/services.py:1187-1198 | Takes the credits off a flex pass, EXHAUSTED at zero; a season pass is left alone |
| Services.BoxOffice.RedeemPass | payments/services.py:1004-1210 | Written step by step it is the redemption, or changes nothing |
| Services.BoxOffice.VoidTickets | orders/services.py:432-437 | Voids the order's live tickets and counts the seatless ones |
| Services.BoxOffice.VoidOrder | orders/services.py:418-453 | Voids the tickets and gives the GA inventory back |
| Services.BoxOffice.CreditsByPass | passes/services.py:137-139 | The dictionary holds, for exactly the passes the order spent, the credits it took |
| Services.BoxOffice.GiveBack | passes/services.py:154-173 | Every such pass gets its credits back, in whatever order they are visited |
| Services.BoxOffice.RestoreRedemptions | passes/services.py:109-175 | Deletes the order's rows and restores its passes |
| Services.BoxOffice.CancelOrder | dashboard/views.py:1145-1169 | Does the cancel action and keeps the invariant |
| Effects.BrokenCancelIsResumed | dashboard/views.py:1154-1165 | A cancel broken off after either of its first two commits is completed, to exactly the state of a whole cancel, by cancelling again |
| Effects.BrokenCancelShowsIff | dashboard/views.py:1154-1165 | In between the inventory is in step exactly when the order has no ticket |
| Effects.StatusWriteKeepsFinalIff | dashboard/views.py:1154-1165 | The last write keeps an order's history and its payments in step exactly when the order is not REFUNDED by then |
| Effects.OvertakenCancelHidesTheRefund | dashboard/views.py:1154-1165 | A cancel that read PAID and is overtaken by a refund voids and restores nothing more and leaves the order CANCELLED with its money gone |
| Services.BoxOffice.MayRefund | payments/services.py:1421-1464 | Whether a refund is refused, and why, before anything is written |
| Services.BoxOffice.RefundOrder | payments/services.py:1404-1490 | Does the refund action or changes nothing, and keeps the invariant |

## Left out

- Consistency.CancelKeeps: one transaction, where the view commits three times. Between its commits a refund can end the order, and the last write then hides it, so that `History.ReversedIsFinal` fails below this grain; `Effects.StatusWriteKeepsFinalIff` says exactly when.
- Services.BoxOffice.CancelOrder: one transaction, for the same reason.
- PromoCaps.CounterIsOrders: codes are keyed by their text; renaming a code in the dashboard, after which orders keep the old text, is not an action of the model.
- Tenants: one theater; organization scoping and tenant mismatch are not modelled.
- Guest accounts, marketing consent, e-mails, PDFs, HTTP, templates, CSV export: no effect on inventory or money.
- Ticket signatures and signed links: whether a signature checks out is a parameter of a scan.
- Stripe calls: only the refund's outcome, the session id and the session's parameters appear.
- Legacy holds without a GA price snapshot, and GA performances without an allocation row being sold.
- Deleting seats, tiers, performances or allocations, editing counters by hand, changing a tier's currency under a hold, switching a performance's seating mode: they break the snapshots by design.
- Seat generation, chart editing, section ordering, help centre, campaigns, team roles, login throttling.
- The campaign a gift is credited to, who scanned a ticket, zone colours and labels: provenance and presentation.
- The money value of outstanding flex credits in the liability report, and its season admissions total: quotients and sums of what is proved per pass.
- Seat blocks are edited as one set; prices are edited as one price book, so that `Charges` covers any edit of them, and `Zones` proves separately what the zone service keeps.
- Locks on allocation, pass, promo and order rows: only seat-row locks are modelled below the grain of transactions, and deadlock across tables is not excluded.
- `SeatLocks` leaves out seat blocks and prices, which only make a selection roll back; a rollback is a step of its own there.
- In the class, releasing a hold by id, sweeping expired holds, test donations and test pass sales are one-line actions of `System` and are not repeated as methods.
- What holds of unexpired holds over runs is proved at the grain of transactions; below it, of seats paid for in time (`SeatLocks.PaidInTimeIsHonoured`).

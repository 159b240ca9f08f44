/** Turning holds, gifts and passes into orders, and undoing orders
    (payments/services.py, with void_order and the pass services it uses). */
module Fulfilment {
  import opened Tables
  import opened Schema
  import opened Holds

  // --- minting ----------------------------------------------------------

  function TicketCount(cart: Cart): nat {
    match cart
    case Ga(qty, _, _) => qty
    case Reserved(seats) => |seats|
  }

  function SeatTicket(o: nat, perf: nat): HeldSeat -> Ticket {
    (s: HeldSeat) => Ticket(o, perf, Some(s.seat), Valid, None)
  }

  function NewTickets(h: Hold, o: nat): seq<Ticket> {
    match h.cart
    case Ga(qty, _, _) => seq(qty, _ => Ticket(o, h.perf, None, Valid, None))
    case Reserved(seats) => MapRows(seats, SeatTicket(o, h.perf))
  }

  function SeatItem(): HeldSeat -> Item {
    (s: HeldSeat) => Item(TicketLine, Some(s.seat), 1, s.unit)
  }

  function TicketItems(cart: Cart): seq<Item> {
    match cart
    case Ga(qty, unit, _) => [Item(TicketLine, None, qty, unit)]
    case Reserved(seats) => MapRows(seats, SeatItem())
  }

  function DonationItems(amount: int): seq<Item> {
    if amount > 0 then [Item(DonationLine, None, 1, amount)] else []
  }

  /** The re-check of _fulfill_ga and _fulfill_reserved. */
  function InventoryFailure(db: Db, h: Hold): Option<Failure> {
    match h.cart
    case Ga(qty, _, _) =>
      if h.perf !in db.allocs then Some(NoAllocation)
      else if db.allocs[h.perf].sold + qty > db.allocs[h.perf].capacity then Some(AvailabilityChanged)
      else None
    case Reserved(_) =>
      if exists s :: s in SeatIds(h.cart) && Ticketed(db.tickets, h.perf, s) then Some(AvailabilityChanged) else None
  }

  function TakeFrom(allocs: map<nat, Allocation>, h: Hold): map<nat, Allocation> {
    if h.cart.Ga? && h.perf in allocs
    then allocs[h.perf := allocs[h.perf].(sold := allocs[h.perf].sold + h.cart.qty)]
    else allocs
  }

  function NotRow(id: nat): Hold -> bool { (h: Hold) => h.id != id }

  /** The order, its tickets, the inventory and the hold, all in one transaction. */
  function Mint(db: Db, h: Hold, order: Order): Db {
    db.(orders := db.orders + [order],
        tickets := db.tickets + NewTickets(h, |db.orders|),
        allocs := TakeFrom(db.allocs, h),
        holds := Filter(db.holds, NotRow(h.id)))
  }

  /** record_redemption. */
  function Counted(promos: map<string, Promo>, applied: Option<AppliedPromo>): map<string, Promo> {
    match applied
    case Some(p) => if p.code in promos then promos[p.code := promos[p.code].(count := promos[p.code].count
        + 1)] else promos
    case None => promos
  }

  function PromoText(h: Hold): Option<string> {
    match h.promo
    case Some(p) => Some(p.code)
    case None => None
  }

  /** The order row fulfill_hold writes. It reads nothing but the hold. */
  function SaleOrder(h: Hold, provider: Provider, ref: string, checkout: Option<string>): Order {
    Order(Some(h.perf), PromoText(h), Discount(h), GrandTotal(h), Paid, checkout,
          TicketItems(h.cart) + DonationItems(Donation(h)),
          [Payment(provider, GrandTotal(h), Succeeded, ref)])
  }

  /** fulfill_hold, on the hold the caller has in hand. */
  function FulfillHold(db: Db, h: Hold, provider: Provider, ref: string, checkout: Option<string>)
    : Result<Db, Failure>
  {
    if !Unexpired(h, db.now) then Err(HoldGone)
    else
      match InventoryFailure(db, h)
      case Some(e) => Err(e)
      case None => Ok(Mint(db, h, SaleOrder(h, provider, ref, checkout)).(promos := Counted(db.promos, h.promo)))
  }

  function PlainOrder(total: int, checkout: Option<string>, kind: ItemKind, provider: Provider, ref: string): Order {
    Order(None, None, 0, total, Paid, checkout, [Item(kind, None, 1, total)],
        [Payment(provider, total, Succeeded, ref)])
  }

  /** fulfill_donation. */
  function FulfillDonation(db: Db, amount: int, provider: Provider, ref: string, checkout: Option<string>): Db {
    db.(orders := db.orders + [PlainOrder(amount, checkout, DonationLine, provider, ref)])
  }

  /** The purchase row: every term copied off the product. */
  function Sold(product: nat, p: Product, o: nat): PassPurchase {
    PassPurchase(product, o, p.terms, match p.terms case Flex(n) => Some(n) case Season => None,
                 p.validFrom, p.validUntil, p.events, Active)
  }

  /** fulfill_pass_purchase. */
  function FulfillPass(db: Db, product: nat, provider: Provider, ref: string, checkout: Option<string>)
    : Result<Db, Failure>
  {
    if product !in db.products then Err(NoProduct)
    else if !db.products[product].active then Err(ProductInactive)
    else
      var p := db.products[product];
      Ok(db.(orders := db.orders + [PlainOrder(p.price, checkout, PassLine, provider, ref)],
             passes := db.passes + [Sold(product, p, |db.orders|)]))
  }

  // --- spending a pass --------------------------------------------------

  /** redeemable_now. */
  predicate RedeemableNow(p: PassPurchase, now: int) {
    p.status.Active? && (p.validUntil.Some? ==> now <= p.validUntil.value)
  }

  /** pass_covers_performance. */
  predicate PassCovers(p: PassPurchase, perf: Performance) {
    && (p.covered != {} ==> perf.event in p.covered)
    && (p.validFrom.Some? ==> p.validFrom.value <= perf.startsAt)
    && (p.validUntil.Some? ==> perf.startsAt <= p.validUntil.value)
  }

  predicate RedeemedFor(redemptions: seq<Redemption>, pass: nat, event: nat) {
    exists r :: r in redemptions && r.pass == pass && r.event == event
  }

  /** Why a hold cannot be redeemed against the pass, in the order of the checks. */
  function RedemptionFailure(db: Db, h: Hold, pass: nat): Option<Failure> {
    if !Unexpired(h, db.now) then Some(HoldGone)
    else if h.promo.Some? then Some(PassNotUsable(HasPromo))
    else if Donation(h) > 0 then Some(PassNotUsable(HasDonation))
    else if pass >= |db.passes| then Some(NotFound)
    else if !RedeemableNow(db.passes[pass], db.now) then Some(PassNotUsable(NotActive))
    else if h.perf !in db.perfs then Some(NoPerformance)
    else if !PassCovers(db.passes[pass], db.perfs[h.perf]) then Some(PassNotUsable(NotCovered))
    else if TicketCount(h.cart) <= 0 then Some(PassNotUsable(NothingHeld))
    else
      match db.passes[pass].terms
      case Flex(_) =>
        if TicketCount(h.cart) > db.passes[pass].balance.GetOr(0) then Some(PassNotUsable(NotEnoughCredits))
        else InventoryFailure(db, h)
      case Season =>
        if TicketCount(h.cart) != 1 then Some(PassNotUsable(OneSeatOnly))
        else if RedeemedFor(db.redemptions, pass, db.perfs[h.perf].event) then Some(PassNotUsable(AlreadyUsedForEvent))
        else InventoryFailure(db, h)
  }

  function RedemptionOrder(h: Hold, pass: nat): Order {
    Order(Some(h.perf), None, 0, 0, Paid, None, TicketItems(h.cart), [Payment(PassCredit(pass), 0, Succeeded, "pass")])
  }

  function CreditsPerTicket(p: PassPurchase): nat { if p.terms.Flex? then 1 else 0 }

  /** One redemption per minted ticket, at the face value of the ticket's line. */
  function NewRedemptions(h: Hold, pass: nat, o: nat, firstTicket: nat, event: nat, credits: nat): seq<Redemption> {
    match h.cart
    case Ga(qty, unit, _) =>
      seq(qty, k requires 0 <= k => Redemption(pass, o, firstTicket + k, h.perf, event, None, unit, credits))
    case Reserved(seats) =>
      seq(|seats|, k requires 0 <= k < |seats| =>
        Redemption(pass, o, firstTicket + k, h.perf, event, Some(seats[k].seat), seats[k].unit, credits))
  }

  /** Burn `n` credits of a flex pass; a season pass has none to burn. */
  function Spent(p: PassPurchase, n: nat): PassPurchase {
    if p.terms.Season? then p
    else
      var left := Max(p.balance.GetOr(0) - n, 0);
      p.(balance := Some(left), status := if left == 0 then Exhausted else p.status)
  }

  /** fulfill_hold_with_pass. */
  function RedeemPass(db: Db, h: Hold, pass: nat): Result<Db, Failure> {
    match RedemptionFailure(db, h, pass)
    case Some(e) => Err(e)
    case None =>
      var p, event := db.passes[pass], db.perfs[h.perf].event;
      var rows := NewRedemptions(h, pass, |db.orders|, |db.tickets|, event, CreditsPerTicket(p));
      Ok(Mint(db, h, RedemptionOrder(h, pass)).(
           redemptions := db.redemptions + rows,
           passes := db.passes[pass := Spent(p, TicketCount(h.cart))]))
  }

  // --- undoing an order -------------------------------------------------

  function Voided(o: nat): Ticket -> Ticket {
    (t: Ticket) => if t.order == o then t.(status := Void) else t
  }

  /** The live seatless tickets of an order. */
  function LiveGaOf(o: nat): Ticket -> int {
    (t: Ticket) => if t.order == o && Live(t) && t.seat.None? then 1 else 0
  }

  /** void_order: the order's tickets become void and its GA inventory comes back. */
  function VoidOrder(db: Db, o: nat): Db
    requires o < |db.orders|
  {
    var freed, perf := Sum(db.tickets, LiveGaOf(o)), db.orders[o].perf;
    db.(tickets := MapRows(db.tickets, Voided(o)),
        allocs := if freed > 0 && perf.Some? && perf.value in db.allocs
                  then db.allocs[perf.value := db.allocs[perf.value].(sold := Max(db.allocs[perf.value].sold - freed,
                      0))]
                  else db.allocs)
  }

  function NotOn(o: nat): Redemption -> bool { (r: Redemption) => r.order != o }

  /** Credits an order's redemptions took from one pass, and how many rows did. */
  function CreditsOn(o: nat, pass: nat): Redemption -> int {
    (r: Redemption) => if r.order == o && r.pass == pass then r.creditsUsed else 0
  }

  predicate SpentOn(redemptions: seq<Redemption>, o: nat, pass: nat) {
    exists r :: r in redemptions && r.order == o && r.pass == pass
  }

  /** One pass, given back the credits of an order's deleted redemptions. */
  function Restored(p: PassPurchase, credits: int): PassPurchase {
    var balance := if p.balance.Some? && credits > 0 then Some(p.balance.value + credits) else p.balance;
    p.(balance := balance,
       status := if p.status.Exhausted? && balance.GetOr(0) > 0 then Active else p.status)
  }

  function RestoredPasses(passes: seq<PassPurchase>, redemptions: seq<Redemption>, o: nat): seq<PassPurchase> {
    seq(|passes|, p requires 0 <= p < |passes| =>
      if SpentOn(redemptions, o, p) then Restored(passes[p], Sum(redemptions, CreditsOn(o, p))) else passes[p])
  }

  /** restore_redemptions_for_order. */
  function RestoreRedemptions(db: Db, o: nat): Db {
    db.(redemptions := Filter(db.redemptions, NotOn(o)), passes := RestoredPasses(db.passes, db.redemptions, o))
  }

  /** void_order, then restore_redemptions_for_order, then the new status. */
  function Reverse(db: Db, o: nat, status: OrderStatus): Db
    requires o < |db.orders|
  {
    var undone := RestoreRedemptions(VoidOrder(db, o), o);
    undone.(orders := db.orders[o := db.orders[o].(status := status)])
  }

  /** order_cancel, as one transaction. */
  function CancelOrder(db: Db, o: nat): Result<Db, Failure> {
    if o >= |db.orders| then Err(NotFound)
    else if db.orders[o].status.Cancelled? || db.orders[o].status.Refunded? then Ok(db)
    else Ok(Reverse(db, o, Cancelled))
  }

  predicate SoldAPass(order: Order) { exists i :: i in order.items && i.kind.PassLine? }

  predicate PassSpent(db: Db, o: nat) {
    exists p :: 0 <= p < |db.passes| && db.passes[p].order == o && exists r :: r in db.redemptions && r.pass == p
  }

  function FirstSucceeded(payments: seq<Payment>): Option<Payment> {
    if payments == [] then None
    else if payments[0].status.Succeeded? then Some(payments[0])
    else FirstSucceeded(payments[1..])
  }

  predicate IsPaymentIntent(ref: string) { |ref| >= 3 && ref[..3] == "pi_" }

  function Withdraw(o: nat): PassPurchase -> PassPurchase {
    (p: PassPurchase) => if p.order == o then p.(status := Withdrawn) else p
  }

  /** refund_order. `stripe` is the refund id Stripe answers with, or None if it
      rejects; a non-Stripe payment is reversed without asking. */
  function RefundOrder(db: Db, o: nat, stripe: Option<string>): Result<Db, Failure> {
    if o >= |db.orders| then Err(NotFound)
    else if !db.orders[o].status.Paid? then Ok(db)
    else if SoldAPass(db.orders[o]) && PassSpent(db, o) then Err(PassUsed)
    else
      var payment := FirstSucceeded(db.orders[o].payments);
      var provider := match payment case Some(p) => p.provider case None => Stripe;
      if provider.Stripe? && (payment.None? || !IsPaymentIntent(payment.value.ref)
          || stripe.None?) then Err(RefundRejected)
      else
        var reversed := Reverse(db, o, Refunded);
        var withdrawn := if SoldAPass(db.orders[o]) then MapRows(reversed.passes, Withdraw(o)) else reversed.passes;
        var row := Payment(provider, db.orders[o].total, Reversed, if provider.Stripe? then stripe.value else "");
        Ok(reversed.(passes := withdrawn,
                     orders := reversed.orders[o := reversed.orders[o].(payments := db.orders[o].payments + [row])]))
  }

  // --- webhook ----------------------------------------------------------

  datatype Checkout = HoldCheckout(hold: nat) | GiftCheckout(amount: Option<int>) | PassCheckout(product: nat)

  datatype Delivered = Delivered(db: Db, order: nat, created: bool)

  function FindOrder(orders: seq<Order>, session: string): Option<nat> {
    if orders == [] then None
    else if orders[|orders| - 1].checkout == Some(session) then Some(|orders| - 1)
    else FindOrder(orders[..|orders| - 1], session)
  }

  /** fulfill_checkout_session, run alone: nothing commits between its read of
      the existing order and its own create. */
  function Deliver(db: Db, session: string, what: Checkout, ref: string): Result<Delivered, Failure> {
    match FindOrder(db.orders, session)
    case Some(o) => Ok(Delivered(db, o, false))
    case None =>
      var done := match what
        case GiftCheckout(None) => Err(BadAmount)
        case GiftCheckout(Some(amount)) => Ok(FulfillDonation(db, amount, Stripe, ref, Some(session)))
        case PassCheckout(product) => FulfillPass(db, product, Stripe, ref, Some(session))
        case HoldCheckout(id) =>
          match FindHold(db.holds, id)
          case None => Err(HoldGone)
          case Some(h) => FulfillHold(db, h, Stripe, ref, Some(session));
      match done
      case Err(e) => Err(e)
      case Ok(after) => Ok(Delivered(after, |db.orders|, true))
  }
}

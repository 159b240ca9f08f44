/** What every transaction answers, said over the rows it reads: which check refuses it,
    or that none does. */
module Answers {
  import opened Tables
  import opened Schema
  import opened System
  import opened Holds
  import opened Fulfilment
  import Passes
  import Ledger
  import Consistency
  import Entitlements

  // --- seats ------------------------------------------------------------

  predicate HasSeat(cart: Cart, seat: nat) {
    cart.Reserved? && exists k :: 0 <= k < |cart.seats| && cart.seats[k].seat == seat
  }

  /** A ticket that is not void has the seat. */
  predicate SeatGone(tickets: seq<Ticket>, perf: nat, seat: nat) {
    exists i :: 0 <= i < |tickets| && tickets[i].perf == perf && tickets[i].seat == Some(seat)
                && tickets[i].status != Void
  }

  lemma SeatGoneIff(tickets: seq<Ticket>, perf: nat, seat: nat)
    ensures Ticketed(tickets, perf, seat) <==> SeatGone(tickets, perf, seat)
  {
    if Ticketed(tickets, perf, seat) {
      var t :| t in tickets && Occupies(t, perf, seat);
      var i :| 0 <= i < |tickets| && tickets[i] == t;
    }
    if SeatGone(tickets, perf, seat) {
      var i :| 0 <= i < |tickets| && tickets[i].perf == perf && tickets[i].seat == Some(seat)
        && tickets[i].status != Void;
      assert tickets[i] in tickets;
    }
  }

  lemma HasSeatIff(cart: Cart, seat: nat)
    ensures seat in SeatIds(cart) <==> HasSeat(cart, seat)
  {
    if cart.Reserved? && HasSeat(cart, seat) {
      var k :| 0 <= k < |cart.seats| && cart.seats[k].seat == seat;
      assert cart.seats[k] in cart.seats;
    }
  }

  // --- paying for a hold ------------------------------------------------

  /** What was held is no longer there: GA sold beyond it, or a seat of it ticketed. */
  ghost predicate OutOfStock(db: Db, h: Hold) {
    || (h.cart.Ga? && h.perf in db.allocs && db.allocs[h.perf].capacity < db.allocs[h.perf].sold + h.cart.qty)
    || exists seat :: HasSeat(h.cart, seat) && SeatGone(db.tickets, h.perf, seat)
  }

  ghost function StockChecks(db: Db, h: Hold): seq<(bool, Failure)> {
    [(h.cart.Ga? && h.perf !in db.allocs, NoAllocation), (OutOfStock(db, h), AvailabilityChanged)]
  }

  lemma StockAnswer(db: Db, h: Hold)
    ensures FirstFailing(InventoryFailure(db, h), StockChecks(db, h))
    ensures InventoryFailure(db, h) != Some(HoldGone)
  {
    var checks := StockChecks(db, h);
    forall seat: nat ensures seat in SeatIds(h.cart) <==> HasSeat(h.cart, seat) { HasSeatIff(h.cart, seat); }
    forall seat: nat ensures Ticketed(db.tickets, h.perf, seat) <==> SeatGone(db.tickets, h.perf, seat) {
      SeatGoneIff(db.tickets, h.perf, seat);
    }
    assert h.cart.Ga? ==> forall seat: nat :: !HasSeat(h.cart, seat);
    hide SeatIds, HasSeat, Ticketed, SeatGone;
    if InventoryFailure(db, h).Some? { assert checks[0].0 || checks[1].0; }
  }

  /** What stops a payment for a hold. */
  ghost function PayChecks(db: Db, h: Hold): seq<(bool, Failure)> {
    [(h.expiresAt <= db.now, HoldGone)] + StockChecks(db, h)
  }

  lemma PayAnswer(db: Db, h: Hold, provider: Provider, ref: string, checkout: Option<string>)
    ensures FirstFailing(Failed(FulfillHold(db, h, provider, ref, checkout)), PayChecks(db, h))
    ensures FulfillHold(db, h, provider, ref, checkout) == Err(HoldGone) <==> h.expiresAt <= db.now
  {
    StockAnswer(db, h);
    hide InventoryFailure, StockChecks, Mint, SaleOrder, Counted;
    var first := [(h.expiresAt <= db.now, HoldGone)];
    assert first[0].0 ==> FirstFailing(Some(HoldGone), first);
    CheckedBefore(Failed(FulfillHold(db, h, provider, ref, checkout)), first, StockChecks(db, h));
  }

  // --- redeeming a pass -------------------------------------------------

  /** How many tickets a cart is for. */
  function Admissions(cart: Cart): nat {
    match cart
    case Ga(qty, _, _) => qty
    case Reserved(seats) => |seats|
  }

  /** The pass is for the performance: its event, and a start inside its window. */
  predicate IsFor(p: PassPurchase, perf: Performance) {
    && (p.covered == {} || perf.event in p.covered)
    && (p.validFrom.None? || p.validFrom.value <= perf.startsAt)
    && (p.validUntil.None? || perf.startsAt <= p.validUntil.value)
  }

  predicate UsedForEvent(db: Db, pass: nat, event: nat) {
    exists i :: 0 <= i < |db.redemptions| && db.redemptions[i].pass == pass && db.redemptions[i].event == event
  }

  /** What stops a redemption of a hold, before the inventory is looked at. */
  ghost function PassChecks(db: Db, h: Hold, pass: nat): seq<(bool, Failure)> {
    var known := pass < |db.passes|;
    var staged := known && h.perf in db.perfs;
    var n := Admissions(h.cart);
    [(h.expiresAt <= db.now, HoldGone),
     (h.promo.Some?, PassNotUsable(HasPromo)),
     (h.donation.Some? && h.donation.value > 0, PassNotUsable(HasDonation)),
     (!known, NotFound),
     (known && (db.passes[pass].status != Active
                || (db.passes[pass].validUntil.Some? && db.passes[pass].validUntil.value < db.now)),
      PassNotUsable(NotActive)),
     (h.perf !in db.perfs, NoPerformance),
     (staged && !IsFor(db.passes[pass], db.perfs[h.perf]), PassNotUsable(NotCovered)),
     (n == 0, PassNotUsable(NothingHeld)),
     (known && db.passes[pass].terms.Flex? && (db.passes[pass].balance.None? || n > db.passes[pass].balance.value),
      PassNotUsable(NotEnoughCredits)),
     (known && db.passes[pass].terms.Season? && n != 1, PassNotUsable(OneSeatOnly)),
     (staged && db.passes[pass].terms.Season? && UsedForEvent(db, pass, db.perfs[h.perf].event),
      PassNotUsable(AlreadyUsedForEvent))]
  }

  lemma UsedForEventIff(db: Db, pass: nat, event: nat)
    ensures RedeemedFor(db.redemptions, pass, event) <==> UsedForEvent(db, pass, event)
  {
    if UsedForEvent(db, pass, event) {
      var i :| 0 <= i < |db.redemptions| && db.redemptions[i].pass == pass && db.redemptions[i].event == event;
      assert db.redemptions[i] in db.redemptions;
    }
  }

  /** The reason a hold cannot be redeemed against a pass; it can if there is none. */
  lemma RedeemAnswer(db: Db, h: Hold, pass: nat)
    ensures FirstFailing(Failed(RedeemPass(db, h, pass)), PassChecks(db, h, pass) + StockChecks(db, h))
    ensures RedeemPass(db, h, pass) == Err(HoldGone) <==> h.expiresAt <= db.now
  {
    RedeemDecision(db, h, pass);
    hide RedemptionFailure, NewRedemptions, Mint, Spent, RedemptionOrder, PassChecks, StockChecks, FirstFailing;
  }

  lemma RedeemDecision(db: Db, h: Hold, pass: nat)
    ensures FirstFailing(RedemptionFailure(db, h, pass), PassChecks(db, h, pass) + StockChecks(db, h))
    ensures RedemptionFailure(db, h, pass) == Some(HoldGone) <==> h.expiresAt <= db.now
  {
    var answer := RedemptionFailure(db, h, pass);
    StockAnswer(db, h);
    if h.perf in db.perfs { UsedForEventIff(db, pass, db.perfs[h.perf].event); }
    hide InventoryFailure, StockChecks, RedeemedFor, UsedForEvent;
    var checks := PassChecks(db, h, pass);
    if checks[0].0 || checks[1].0 || checks[2].0 || checks[3].0 || checks[4].0 || checks[5].0 || checks[6].0
       || checks[7].0 || checks[8].0 || checks[9].0 || checks[10].0 {
      assert answer.Some? && FirstFailing(answer, checks);
    } else {
      assert answer == InventoryFailure(db, h);
    }
    hide RedemptionFailure, PassChecks;
    CheckedBefore(answer, checks, StockChecks(db, h));
  }

  // --- refunding and cancelling -----------------------------------------

  /** Stripe's own name for a payment. */
  predicate NamesPayment(ref: string) { |ref| >= 3 && ref[0] == 'p' && ref[1] == 'i' && ref[2] == '_' }

  /** The payment that a refund reverses. */
  predicate FirstPaid(payments: seq<Payment>, k: int) {
    0 <= k < |payments| && payments[k].status == Succeeded && forall j :: 0 <= j < k ==> payments[j].status != Succeeded
  }

  lemma {:induction false} FirstPaidIs(payments: seq<Payment>)
    ensures match FirstSucceeded(payments)
            case None => forall k :: !FirstPaid(payments, k)
            case Some(p) => exists k :: FirstPaid(payments, k) && payments[k] == p
  {
    if payments != [] {
      var rest := payments[1..];
      FirstPaidIs(rest);
      if payments[0].status.Succeeded? {
        assert FirstPaid(payments, 0);
      } else if FirstSucceeded(rest).Some? {
        var k :| FirstPaid(rest, k) && rest[k] == FirstSucceeded(rest).value;
        assert FirstPaid(payments, k + 1);
      } else {
        forall k ensures !FirstPaid(payments, k) {
          assert k > 0 ==> FirstPaid(payments, k) ==> FirstPaid(rest, k - 1);
        }
      }
    }
  }

  lemma OneFirstPaid(payments: seq<Payment>, i: int, k: int)
    requires FirstPaid(payments, i) && FirstPaid(payments, k)
    ensures i == k
  {}

  /** The money can go back: it was not taken by Stripe, or Stripe has been asked for that
      payment and has answered. */
  ghost predicate MoneyReturns(payments: seq<Payment>, stripe: Option<string>) {
    exists k :: FirstPaid(payments, k)
                && (payments[k].provider != Stripe || (NamesPayment(payments[k].ref) && stripe.Some?))
  }

  ghost predicate PassInUse(db: Db, o: nat) {
    exists p, r :: 0 <= p < |db.passes| && 0 <= r < |db.redemptions|
                   && db.passes[p].order == o && db.redemptions[r].pass == p
  }

  ghost function RefundChecks(db: Db, o: nat, stripe: Option<string>): seq<(bool, Failure)>
    requires o < |db.orders|
  {
    [(PassInUse(db, o), PassUsed), (!MoneyReturns(db.orders[o].payments, stripe), RefundRejected)]
  }

  lemma PassInUseIff(db: Db, o: nat)
    requires Consistency.Consistent(db) && o < |db.orders|
    ensures SoldAPass(db.orders[o]) && PassSpent(db, o) <==> PassInUse(db, o)
  {
    hide Consistency.Consistent, SoldAPass;
    if PassInUse(db, o) {
      var p, r :| 0 <= p < |db.passes| && 0 <= r < |db.redemptions|
        && db.passes[p].order == o && db.redemptions[r].pass == p;
      Entitlements.PassIsOk(db, p);
      assert db.redemptions[r] in db.redemptions;
    }
    if PassSpent(db, o) {
      var p :| 0 <= p < |db.passes| && db.passes[p].order == o && exists r :: r in db.redemptions && r.pass == p;
      var row :| row in db.redemptions && row.pass == p;
      var r :| 0 <= r < |db.redemptions| && db.redemptions[r] == row;
    }
  }

  lemma RejectedIff(payments: seq<Payment>, stripe: Option<string>)
    ensures var payment := FirstSucceeded(payments);
            (payment.None? || (payment.value.provider.Stripe?
                && (!IsPaymentIntent(payment.value.ref) || stripe.None?)))
            <==> !MoneyReturns(payments, stripe)
  {
    FirstPaidIs(payments);
    hide FirstSucceeded;
    if FirstSucceeded(payments).Some? {
      var p := FirstSucceeded(payments).value;
      var k :| FirstPaid(payments, k) && payments[k] == p;
      assert IsPaymentIntent(p.ref) <==> NamesPayment(p.ref) by {
        if |p.ref| >= 3 { assert p.ref[..3] == [p.ref[0], p.ref[1], p.ref[2]]; }
      }
      forall j | FirstPaid(payments, j) ensures j == k { OneFirstPaid(payments, j, k); }
    }
  }

  /** A refund of a PAID order goes through exactly when no pass it sold has been used and
      the money can go back; otherwise nothing is changed. Of any other order it is a no-op. */
  lemma RefundAnswer(db: Db, o: nat, stripe: Option<string>)
    requires Consistency.Consistent(db)
    ensures o >= |db.orders| ==> Attempt(db, Refund(o, stripe)) == Err(NotFound)
    ensures o < |db.orders| && db.orders[o].status != Paid ==> Attempt(db, Refund(o, stripe)) == Ok(db)
    ensures o < |db.orders| && db.orders[o].status == Paid ==>
              FirstFailing(Failed(Attempt(db, Refund(o, stripe))), RefundChecks(db, o, stripe))
    ensures Attempt(db, Refund(o, stripe)).Err? ==> Next(db, Refund(o, stripe)) == db
  {
    hide Consistency.Consistent, RefundOrder, RefundChecks;
    RefundDecision(db, o, stripe);
  }

  lemma RefundDecision(db: Db, o: nat, stripe: Option<string>)
    requires Consistency.Consistent(db)
    ensures o >= |db.orders| ==> RefundOrder(db, o, stripe) == Err(NotFound)
    ensures o < |db.orders| && db.orders[o].status != Paid ==> RefundOrder(db, o, stripe) == Ok(db)
    ensures o < |db.orders| && db.orders[o].status == Paid ==>
              FirstFailing(Failed(RefundOrder(db, o, stripe)), RefundChecks(db, o, stripe))
  {
    if o < |db.orders| && db.orders[o].status == Paid {
      PassInUseIff(db, o);
      RejectedIff(db.orders[o].payments, stripe);
      hide Consistency.Consistent, SoldAPass, PassSpent, PassInUse, MoneyReturns, FirstSucceeded, Reverse, Withdraw;
      hide IsPaymentIntent;
      var checks := RefundChecks(db, o, stripe);
      if RefundOrder(db, o, stripe).Err? { assert checks[0].0 || checks[1].0; }
    }
  }

  /** What a refund writes besides: the order is REFUNDED, with one more row that reverses
      the payment by the whole total, by the same provider, under Stripe's own reference. */
  lemma RefundWrites(db: Db, o: nat, stripe: Option<string>, k: int)
    requires o < |db.orders| && db.orders[o].status == Paid && Attempt(db, Refund(o, stripe)).Ok?
    requires FirstPaid(db.orders[o].payments, k)
    ensures var after, order := Next(db, Refund(o, stripe)), db.orders[o]; var taker := order.payments[k].provider;
            && |after.orders| == |db.orders|
            && (taker == Stripe ==> stripe.Some?)
            && after.orders[o] == order.(status := Refunded, payments := order.payments
                 + [Payment(taker, order.total, Reversed, if taker == Stripe then stripe.value else "")])
  {
    FirstPaidIs(db.orders[o].payments);
    var first := FirstSucceeded(db.orders[o].payments);
    hide FirstSucceeded, SoldAPass, PassSpent, Withdraw, VoidOrder, RestoreRedemptions;
    if first.Some? {
      var j :| FirstPaid(db.orders[o].payments, j) && db.orders[o].payments[j] == first.value;
      OneFirstPaid(db.orders[o].payments, j, k);
    }
  }

  /** A cancel moves no money and asks no questions: a PAID order is CANCELLED, with its
      payments as they were; any other is left alone. */
  lemma CancelAnswer(db: Db, o: nat)
    requires Consistency.Consistent(db)
    ensures o >= |db.orders| ==> Attempt(db, Cancel(o)) == Err(NotFound)
    ensures o < |db.orders| ==> Attempt(db, Cancel(o)).Ok?
    ensures o < |db.orders| && db.orders[o].status != Paid ==> Next(db, Cancel(o)) == db
    ensures o < |db.orders| && db.orders[o].status == Paid ==>
              |Next(db, Cancel(o)).orders| == |db.orders|
              && Next(db, Cancel(o)).orders[o] == db.orders[o].(status := Cancelled)
  {
    if o < |db.orders| { Consistency.NeverPending(db, o); }
    hide Consistency.Consistent, VoidOrder, RestoreRedemptions;
  }

  /** A refund withdraws exactly the passes the order sold; a cancel withdraws none. */
  lemma WithdrawnIff(db: Db, o: nat, undo: Action, p: nat)
    requires Consistency.Consistent(db) && o < |db.orders| && db.orders[o].status == Paid
    requires Entitlements.Undoes(undo, o) && Attempt(db, undo).Ok? && p < |db.passes|
    ensures var after := Next(db, undo);
            |after.passes| == |db.passes|
            && (after.passes[p].status == Withdrawn <==>
                  db.passes[p].status == Withdrawn || (undo.Refund? && db.passes[p].order == o))
  {
    Entitlements.PassIsOk(db, p);
    if undo.Refund? { RefundedPass(db, o, undo.stripe, p); } else { CancelledPass(db, o, p); }
    hide Consistency.Consistent, Next, Attempt, Passes.PassOk;
  }

  lemma RefundedPass(db: Db, o: nat, stripe: Option<string>, p: nat)
    requires o < |db.orders| && db.orders[o].status == Paid && p < |db.passes|
    requires Passes.PassOk(p, db.passes, db.redemptions, db.orders) && Attempt(db, Refund(o, stripe)).Ok?
    ensures var after := Next(db, Refund(o, stripe));
            |after.passes| == |db.passes|
            && (after.passes[p].status == Withdrawn <==> db.passes[p].status == Withdrawn || db.passes[p].order == o)
  {
    hide Filter, Sum, FirstSucceeded, PassSpent, SpentOn, SoldAPass, IsPaymentIntent;
  }

  lemma CancelledPass(db: Db, o: nat, p: nat)
    requires o < |db.orders| && db.orders[o].status == Paid && p < |db.passes|
    ensures var after := Next(db, Cancel(o));
            |after.passes| == |db.passes| && (after.passes[p].status == Withdrawn <==> db.passes[p].status == Withdrawn)
  {
    hide Filter, Sum, SpentOn;
  }

  // --- gifts and passes -------------------------------------------------

  /** An order for one thing at a price, paid for at once. */
  predicate IsPlain(o: Order, kind: ItemKind, cents: int, provider: Provider, ref: string, checkout: Option<string>) {
    && o.perf.None? && o.promo.None? && o.discount == 0 && o.total == cents && o.status == Paid
    && o.checkout == checkout
    && |o.items| == 1 && o.items[0].kind == kind && o.items[0].seat.None?
    && o.items[0].qty == 1 && o.items[0].unit == cents
    && |o.payments| == 1 && o.payments[0].provider == provider && o.payments[0].amount == cents
    && o.payments[0].status == Succeeded && o.payments[0].ref == ref
  }

  /** A gift is one order and nothing else. */
  predicate GiftWritten(db: Db, after: Db, cents: int, provider: Provider, ref: string, checkout: Option<string>) {
    && |after.orders| == |db.orders| + 1 && after == db.(orders := db.orders + [after.orders[|db.orders|]])
    && IsPlain(after.orders[|db.orders|], DonationLine, cents, provider, ref, checkout)
  }

  /** A sold pass is one order and one ACTIVE pass with all its credits, on the product's
      terms, and nothing else. */
  predicate PassWritten(db: Db, after: Db, product: nat, provider: Provider, ref: string, checkout: Option<string>) {
    && product in db.products && |after.orders| == |db.orders| + 1 && |after.passes| == |db.passes| + 1
    && after == db.(orders := db.orders + [after.orders[|db.orders|]],
                    passes := db.passes + [after.passes[|db.passes|]])
    && var pass, terms := after.passes[|db.passes|], db.products[product];
       && IsPlain(after.orders[|db.orders|], PassLine, terms.price, provider, ref, checkout)
       && pass.product == product && pass.order == |db.orders| && pass.status == Active && pass.terms == terms.terms
       && pass.balance == (match terms.terms case Flex(credits) => Some(credits) case Season => None)
       && pass.validFrom == terms.validFrom && pass.validUntil == terms.validUntil && pass.covered == terms.events
  }

  function ProductChecks(db: Db, product: nat): seq<(bool, Failure)> {
    [(product !in db.products, NoProduct), (product in db.products && !db.products[product].active, ProductInactive)]
  }

  lemma PassSaleAnswer(db: Db, product: nat, provider: Provider, ref: string, checkout: Option<string>)
    ensures var sale := FulfillPass(db, product, provider, ref, checkout);
            && FirstFailing(Failed(sale), ProductChecks(db, product))
            && (sale.Ok? ==> PassWritten(db, sale.value, product, provider, ref, checkout))
  {
    var checks := ProductChecks(db, product);
    if FulfillPass(db, product, provider, ref, checkout).Err? { assert checks[0].0 || checks[1].0; }
  }

  /** The webhook does nothing for a session that has its order. For a new one it takes a
      gift if it names its amount, sells a pass as the test page would, and pays for the
      hold of the id as the test page would. */
  lemma DeliveryAnswer(db: Db, checkout: string, what: Checkout, ref: string)
    ensures var answer := Attempt(db, Action.Deliver(checkout, what, ref));
            if exists i :: 0 <= i < |db.orders| && db.orders[i].checkout == Some(checkout) then answer == Ok(db)
            else match what
                 case GiftCheckout(None) => answer == Err(BadAmount)
                 case GiftCheckout(Some(cents)) =>
                   answer.Ok? && GiftWritten(db, answer.value, cents, Stripe, ref, Some(checkout))
                 case PassCheckout(product) => answer == FulfillPass(db, product, Stripe, ref, Some(checkout))
                 case HoldCheckout(id) =>
                   answer == match FindHold(db.holds, id)
                             case Some(h) => FulfillHold(db, h, Stripe, ref, Some(checkout))
                             case None => Err(HoldGone)
    ensures forall cents :: GiftWritten(db, Next(db, GiveDirectly(cents, ref)), cents, Test, ref, None)
  {
    Ledger.FindOrderIs(db.orders, checkout);
    hide FindOrder, FindHold, FulfillHold, FulfillPass;
  }

  // --- the desk ---------------------------------------------------------

  /** The performance form is refused exactly for a capacity below what is sold; it never
      moves what is sold, nor a performance to another event, nor any other performance. */
  lemma PerformanceFormAnswer(db: Db, perf: nat, form: Performance, capacity: Option<nat>)
    ensures var answer := Attempt(db, SavePerformance(perf, form, capacity));
            match answer
            case Err(e) => e == CapacityBelowSold && perf in db.perfs && perf in db.allocs && capacity.Some?
                           && capacity.value < db.allocs[perf].sold
            case Ok(after) =>
              && (perf in db.perfs && perf in db.allocs && capacity.Some? ==> capacity.value >= db.allocs[perf].sold)
              && after == db.(perfs := after.perfs, allocs := after.allocs)
              && after.perfs.Keys == db.perfs.Keys + {perf} && after.perfs[perf].startsAt == form.startsAt
              && after.perfs[perf].chart == form.chart
              && (perf in db.perfs ==> after.perfs[perf].event == db.perfs[perf].event)
              && (forall p :: p in db.perfs && p != perf ==> after.perfs[p] == db.perfs[p])
              && (forall p :: p in db.allocs ==> p in after.allocs && after.allocs[p].sold == db.allocs[p].sold)
              && (forall p :: p in db.allocs && p != perf ==> after.allocs[p] == db.allocs[p])
              && (capacity.Some? ==> perf in after.allocs && after.allocs[perf].capacity == capacity.value)
              && (capacity.None? ==> after.allocs == db.allocs)
  {}

  /** The code form never moves a code's count, nor another code. */
  lemma CodeFormAnswer(db: Db, code: string, promo: Promo)
    ensures var after := Next(db, SavePromo(code, promo));
            && after == db.(promos := after.promos) && after.promos.Keys == db.promos.Keys + {code}
            && after.promos[code] == promo.(count := after.promos[code].count)
            && after.promos[code].count == (if code in db.promos then db.promos[code].count else 0)
            && forall c :: c in db.promos && c != code ==> after.promos[c] == db.promos[c]
  {}
}

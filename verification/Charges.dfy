/** What buyers are charged: orders that add up, prices that stay as they were
    shown, and codes and gifts that do not disturb each other. */
module Charges {
  import opened Tables
  import opened Schema
  import opened System
  import opened Holds
  import opened Fulfilment
  import opened Ledger
  import Passes
  import Pricing
  import Inventory
  import Carts
  import Consistency
  import History

  // --- orders add up ----------------------------------------------------

  /** Over any run, of every order: what was paid is its total; a code it carries
      left something to charge; and total plus discount is the sum of its lines
      exactly when its ticket lines are worth at least the discount (only a
      negative price can break that). */
  lemma OrderAddsUpIff(start: Db, actions: seq<Action>, o: nat)
    requires Opening(start) && o < |Run(start, actions).orders|
    ensures var order := Run(start, actions).orders[o];
            && |order.payments| > 0 && order.payments[0].amount == order.total
            && (order.promo.Some? ==> 0 <= order.discount < TicketGross(order))
            && (!Passes.IsRedemption(order) ==>
                  (order.total + order.discount == Passes.LineTotal(order)
                   <==> (order.perf.Some? ==> TicketGross(order) >= order.discount)))
  {
    Consistency.AlwaysConsistent(start, actions);
    hide Consistency.Consistent;
    Consistency.OrderIsOk(Run(start, actions), o);
  }

  /** Over any run, of every hold: a code on it is worth something between nothing
      and the tickets, so the floor at zero never applies to it, there is money left
      to charge, and a gift is added to the charge as it is. */
  lemma HeldDiscountLeavesACharge(start: Db, actions: seq<Action>, h: Hold)
    requires Opening(start) && h in Run(start, actions).holds && h.promo.Some?
    ensures 0 <= Discount(h) < HoldTotal(h)
    ensures GrandTotal(h) == HoldTotal(h) - Discount(h) + Donation(h)
    ensures 0 <= Donation(h) < GrandTotal(h)
  {
    var db := Run(start, actions);
    Consistency.AlwaysConsistent(start, actions);
    hide Inventory.InventoryOk, Passes.PassesOk, PromosOk;
    Carts.HeldIsOk(db, h);
  }

  lemma SelectsBelowZero(start: Db, perf: nat, tier: nat, quantity: Pos)
    requires Opening(start) && perf in start.perfs && perf in start.allocs && quantity <= start.allocs[perf].capacity
    requires FindTier(start.book.tiers, tier).Some?
    ensures var t := FindTier(start.book.tiers, tier).value;
            var h := Hold(start.nextHold, perf, "s", start.now + HOLD_SECONDS, Ga(quantity, t.amount, t.currency), None,
                None);
            Next(start, SetGaHold(perf, "s", tier, quantity)) == start.(holds := [h], nextHold := start.nextHold + 1)
  {
    hide FindTier, Pricing.VenueOk;
  }

  lemma PaysAlone(db: Db, h: Hold, ref: string)
    requires db.holds == [h] && db.orders == [] && Unexpired(h, db.now) && InventoryFailure(db, h).None?
    ensures Next(db, TestCheckout(h.id, ref)).orders == [SaleOrder(h, Test, ref, None)]
  {
    assert FindHold([h], h.id) == Some(h);
    hide InventoryFailure, Filter, NewTickets, SaleOrder, FindHold;
  }

  /** From any opening with a tier priced below zero, which nothing forbids, selling it
      makes an order that charges nothing and whose lines do not add up. */
  lemma NegativePriceDoesNotAddUp(start: Db, perf: nat, tier: nat, quantity: Pos, ref: string)
    requires Opening(start) && perf in start.perfs && perf in start.allocs && quantity <= start.allocs[perf].capacity
    requires FindTier(start.book.tiers, tier).Some? && FindTier(start.book.tiers, tier).value.amount < 0
    ensures var orders := Run(start,
            [SetGaHold(perf, "s", tier, quantity)] + [TestCheckout(start.nextHold, ref)]).orders;
            && |orders| == 1 && orders[0].total == 0 && orders[0].discount == 0
            && Passes.LineTotal(orders[0]) == FindTier(start.book.tiers, tier).value.amount * quantity < 0
  {
    var t, select := FindTier(start.book.tiers, tier).value, SetGaHold(perf, "s", tier, quantity);
    var h := Hold(start.nextHold, perf, "s", start.now + HOLD_SECONDS, Ga(quantity, t.amount, t.currency), None, None);
    var held := start.(holds := [h], nextHold := start.nextHold + 1);
    SelectsBelowZero(start, perf, tier, quantity);
    RunAppend(start, [select], TestCheckout(start.nextHold, ref));
    assert Run(start, [select]) == Next(start, select);
    assert start.orders == [] && start.allocs[perf].sold == 0;
    hide Next, Run, Opening, FindTier;
    PaysAlone(held, h, ref);
    NegativeOrder(h, ref);
  }

  lemma NegativeOrder(h: Hold, ref: string)
    requires h.cart.Ga? && h.cart.unit < 0 && h.promo.None? && h.donation.None?
    ensures var order := SaleOrder(h, Test, ref, None);
            && order.total == 0 && order.discount == 0 && Passes.LineTotal(order) == h.cart.unit * h.cart.qty < 0
  {
    SumConst(SaleOrder(h, Test, ref, None).items, Passes.LineAmount(), h.cart.unit * h.cart.qty);
  }

  /** Over any run, a redemption order charges nothing, and while it is PAID the
      face values of its redemptions are its lines, one redemption per ticket. */
  lemma RedemptionFacesAddUp(start: Db, actions: seq<Action>, o: nat)
    requires Opening(start) && o < |Run(start, actions).orders| && Passes.IsRedemption(Run(start, actions).orders[o])
    ensures var db := Run(start, actions); var order := db.orders[o];
            && order.total == 0 && order.discount == 0
            && (order.status.Paid? ==>
                  && Sum(db.redemptions, Passes.FaceOn(o)) == Passes.LineTotal(order)
                  && Sum(db.redemptions, Passes.RowsOn(o)) == Sum(db.tickets, Passes.TicketsOn(o)))
  {
    var db := Run(start, actions);
    Consistency.AlwaysConsistent(start, actions);
    Consistency.OrderIsOk(db, o);
    FacesAreOk(db);
    hide Consistency.Consistent;
  }

  lemma FacesAreOk(db: Db)
    requires Consistency.Consistent(db)
    ensures Passes.FacesOk(db.redemptions, db.orders, db.tickets)
  {
    hide Carts.CartTablesOk, Inventory.InventoryOk, PromosOk;
  }

  // --- frozen prices ----------------------------------------------------

  /** The buyer's own session edits or gives up the hold, or it is paid for. */
  predicate Touches(a: Action, h: Hold) {
    match a
    case SetGaHold(perf, session, _, _) => perf == h.perf && session == h.session
    case SetReservedHold(perf, session, _) => perf == h.perf && session == h.session
    case Release(perf, session) => perf == h.perf && session == h.session
    case ReleaseById(_, id) => id == h.id
    case ApplyPromo(_, id, _) => id == h.id
    case RemovePromo(_, id) => id == h.id
    case SetDonation(_, id, _) => id == h.id
    case ClearDonation(_, id) => id == h.id
    case TestCheckout(id, _) => id == h.id
    case UsePass(id, _) => id == h.id
    case Deliver(_, what, _) => what == HoldCheckout(h.id)
    case _ => false
  }

  lemma EditSpares(db: Db, edit: Hold -> Hold, h: Hold)
    requires h in db.holds && edit(h) == h
    ensures h in MapRows(db.holds, edit)
  {
    var i :| 0 <= i < |db.holds| && db.holds[i] == h;
    assert MapRows(db.holds, edit)[i] == h;
  }

  lemma CartStepSpares(db: Db, a: Action, h: Hold)
    requires h in db.holds && Consistency.IsCartAction(a) && !Touches(a, h) && (a.Sweep? ==> Unexpired(h, db.now))
    ensures h in Next(db, a).holds
  {
    match a
    case SetGaHold(perf, session, _, _) => FilterMember(db.holds, NotOf(perf, session), h);
    case SetReservedHold(perf, session, _) => FilterMember(db.holds, NotOf(perf, session), h);
    case Release(perf, session) => FilterMember(db.holds, NotOf(perf, session), h);
    case ReleaseById(session, id) => FilterMember(db.holds, NotId(id, session), h);
    case Sweep => FilterMember(db.holds, UnexpiredAt(db.now), h);
    case RemovePromo(_, id) => EditSpares(db, WithPromo(id, None), h);
    case ClearDonation(_, id) => EditSpares(db, WithDonation(id, None), h);
    case SetDonation(_, id, amount) => EditSpares(db, WithDonation(id, Some(amount)), h);
    case ApplyPromo(session, id, code) =>
      if Attempt(db, a).Ok? {
        var discount := Promotions.ComputeDiscount(db.promos[code], HoldTotal(CartOf(db, session, id).value));
        EditSpares(db, WithPromo(id, Some(AppliedPromo(code, discount))), h);
      }
  }

  lemma CheckoutSpares(db: Db, a: Action, h: Hold)
    requires h in db.holds && !Touches(a, h) && (a.TestCheckout? || a.UsePass? || a.Deliver?)
    ensures h in Next(db, a).holds
  {
    var id := if a.Deliver? then (if a.what.HoldCheckout? then a.what.hold else h.id) else a.hold;
    Carts.FindHoldIn(db.holds, id);
    FilterMember(db.holds, NotRow(id), h);
    hide Filter, Sum, InventoryFailure, NewTickets, NewRedemptions;
  }

  /** No step but the buyer's own, or time running out, changes a hold. */
  lemma StepSpares(db: Db, a: Action, h: Hold)
    requires h in db.holds && !Touches(a, h) && Unexpired(h, Next(db, a).now)
    ensures h in Next(db, a).holds
  {
    if Consistency.IsCartAction(a) {
      CartStepSpares(db, a, h);
    } else if a.TestCheckout? || a.UsePass? || a.Deliver? {
      CheckoutSpares(db, a, h);
    }
  }

  /** Untouched from `n` steps into the run to its end, and not expired by then. */
  ghost predicate LeftAlone(start: Db, actions: seq<Action>, h: Hold) {
    (forall k :: 0 <= k < |actions| ==> !Touches(actions[k], h)) && Unexpired(h, Run(start, actions).now)
  }

  lemma {:induction false} RunSpares(start: Db, actions: seq<Action>, h: Hold)
    requires Consistency.Consistent(start) && h in start.holds && LeftAlone(start, actions, h)
    ensures h in Run(start, actions).holds
  {
    hide Consistency.Consistent;
    if actions != [] {
      var init, a := actions[..|actions| - 1], actions[|actions| - 1];
      var before := Run(start, init);
      History.RunContinues(start, init);
      TimeOnlyAdvances(before, a);
      hide Next;
      RunSpares(start, init, h);
      StepSpares(before, a, h);
    }
  }

  lemma TimeOnlyAdvances(db: Db, a: Action)
    requires Consistency.Consistent(db)
    ensures db.now <= Next(db, a).now
  {
    History.ScansAreOk(db);
    hide Consistency.Consistent;
    History.StepContinues(db, a);
  }

  /** The actions that pay for a hold: the webhook, the test page and a pass. */
  predicate Pays(a: Action, h: Hold) {
    match a
    case TestCheckout(id, _) => id == h.id
    case Deliver(_, what, _) => what == HoldCheckout(h.id)
    case UsePass(id, _) => id == h.id
    case _ => false
  }

  /** The order they write, which reads nothing but the hold. */
  function OrderOf(a: Action, h: Hold): Order
    requires Pays(a, h)
  {
    match a
    case TestCheckout(_, ref) => SaleOrder(h, Test, ref, None)
    case Deliver(checkout, _, ref) => SaleOrder(h, Provider.Stripe, ref, Some(checkout))
    case UsePass(_, pass) => RedemptionOrder(h, pass)
  }

  /** The payment goes through now, and not because the session was already delivered. */
  predicate PaysNow(db: Db, a: Action, h: Hold) {
    Pays(a, h) && Attempt(db, a).Ok? && (a.Deliver? ==> FindOrder(db.orders, a.checkout).None?)
  }

  /** Two box offices in which the same hold stands may then live through entirely
      different runs, with any price, zone, promo and product edits: when the hold
      is paid for, in whichever way, both write the same order. */
  lemma EditsNeverReachAHold(one: Db, first: seq<Action>, two: Db, second: seq<Action>, h: Hold, pay: Action)
    requires Consistency.Consistent(one) && Consistency.Consistent(two) && h in one.holds && h in two.holds
    requires LeftAlone(one, first, h) && LeftAlone(two, second, h)
    requires PaysNow(Run(one, first), pay, h) && PaysNow(Run(two, second), pay, h)
    ensures var a, b := Next(Run(one, first), pay), Next(Run(two, second), pay);
            && |a.orders| > 0 && |b.orders| > 0
            && a.orders[|a.orders| - 1] == b.orders[|b.orders| - 1]
            && TicketItems(h.cart) <= a.orders[|a.orders| - 1].items
            && (!pay.UsePass? ==>
                  && a.orders[|a.orders| - 1].total == GrandTotal(h)
                  && a.orders[|a.orders| - 1].discount == Discount(h))
  {
    PaidAsHeld(one, first, h, pay);
    PaidAsHeld(two, second, h, pay);
    LinesFirst(pay, h);
    hide Consistency.Consistent, Next, Run, LeftAlone, PaysNow;
  }

  lemma LinesFirst(pay: Action, h: Hold)
    requires Pays(pay, h)
    ensures TicketItems(h.cart) <= OrderOf(pay, h).items
  {
    hide TicketItems;
  }

  lemma OrderWritten(db: Db, h: Hold, pay: Action)
    requires PaysNow(db, pay, h) && FindHold(db.holds, h.id) == Some(h)
    ensures Next(db, pay).orders == db.orders + [OrderOf(pay, h)]
  {
    hide SaleOrder, RedemptionOrder, InventoryFailure, RedemptionFailure, Filter, FindHold, FindOrder, NewTickets;
    hide NewRedemptions;
  }

  lemma PaidAsHeld(start: Db, actions: seq<Action>, h: Hold, pay: Action)
    requires Consistency.Consistent(start) && h in start.holds && LeftAlone(start, actions, h)
    requires PaysNow(Run(start, actions), pay, h)
    ensures Next(Run(start, actions), pay).orders == Run(start, actions).orders + [OrderOf(pay, h)]
  {
    RunSpares(start, actions, h);
    History.RunContinues(start, actions);
    UniqueHold(Run(start, actions), h);
    hide Consistency.Consistent, LeftAlone, Run, Next, PaysNow;
    OrderWritten(Run(start, actions), h, pay);
  }

  lemma UniqueHold(db: Db, h: Hold)
    requires Consistency.Consistent(db) && h in db.holds
    ensures FindHold(db.holds, h.id) == Some(h)
  {
    hide Inventory.InventoryOk, Passes.PassesOk, PromosOk;
    Carts.FoundHold(db, h);
  }

  /** The actions that sell a pass: the webhook and the test page. */
  predicate Sells(db: Db, a: Action, product: nat) {
    match a
    case SellPass(sold, _) => sold == product
    case Deliver(checkout, what, _) => what == PassCheckout(product) && FindOrder(db.orders, checkout).None?
    case _ => false
  }

  lemma PassWritten(db: Db, sale: Action, product: nat)
    requires Sells(db, sale, product) && Attempt(db, sale).Ok?
    ensures product in db.products
    ensures Next(db, sale).passes == db.passes + [Sold(product, db.products[product], |db.orders|)]
  {
    hide FindOrder;
  }

  /** A sold pass has the terms, coverage and window its product had at the sale,
      however it was sold and whatever is done to the product afterwards. */
  lemma EditsNeverReachAPass(db: Db, product: nat, sale: Action, actions: seq<Action>)
    requires Consistency.Consistent(db) && Sells(db, sale, product) && Attempt(db, sale).Ok?
    ensures product in db.products
    ensures var p, sold := |db.passes|, Run(Next(db, sale), actions); var terms := db.products[product];
            && p < |sold.passes|
            && sold.passes[p].terms == terms.terms && sold.passes[p].covered == terms.events
            && sold.passes[p].validFrom == terms.validFrom && sold.passes[p].validUntil == terms.validUntil
  {
    var p, after := |db.passes|, Next(db, sale);
    PassWritten(db, sale, product);
    Consistency.StepKeepsConsistent(db, sale);
    History.RunContinues(after, actions);
    hide Consistency.Consistent, Run, Next, Sells;
    assert after.passes[p] == Sold(product, db.products[product], |db.orders|);
    assert History.PassContinues(after.passes[p], Run(after, actions).passes[p]);
  }

  // --- codes and gifts --------------------------------------------------

  lemma {:induction false} FindEdited(holds: seq<Hold>, edit: Hold -> Hold, id: nat)
    requires forall i :: 0 <= i < |holds| ==> edit(holds[i]).id == holds[i].id
    ensures FindHold(MapRows(holds, edit), id) ==
            match FindHold(holds, id) case Some(h) => Some(edit(h)) case None => None
  {
    if holds != [] {
      var init := holds[..|holds| - 1];
      FindEdited(init, edit, id);
      assert MapRows(holds, edit)[..|holds| - 1] == MapRows(init, edit);
    }
  }

  /** A gift does not change what a code sees of its cart. */
  lemma GiftIsInvisible(db: Db, session: string, id: nat, amount: int)
    requires Holds.SetDonation(db, session, id, amount).Ok?
    ensures var gifted := Holds.SetDonation(db, session, id, amount).value;
            && CartOf(db, session, id).Some? && CartOf(gifted, session, id).Some?
            && gifted == db.(holds := MapRows(db.holds, WithDonation(id, Some(amount))))
            && HoldTotal(CartOf(gifted, session, id).value) == HoldTotal(CartOf(db, session, id).value)
            && HoldCurrency(CartOf(gifted, session, id).value, db.currency)
                 == HoldCurrency(CartOf(db, session, id).value, db.currency)
  {
    FindEdited(db.holds, WithDonation(id, Some(amount)), id);
  }

  lemma CodeKeepsTheCart(db: Db, session: string, id: nat, code: string)
    requires Holds.ApplyPromo(db, session, id, code).Ok?
    ensures var h := CartOf(db, session, id);
            && h.Some? && code in db.promos && CartOf(Holds.ApplyPromo(db, session, id, code).value, session, id).Some?
            && Holds.ApplyPromo(db, session, id, code).value == db.(holds := MapRows(db.holds, WithPromo(id,
                 Some(AppliedPromo(code, Promotions.ComputeDiscount(db.promos[code], HoldTotal(h.value)))))))
  {
    hide Promotions.ComputeDiscount, Promotions.ValidateCode, HoldTotal;
    var h := CartOf(db, session, id).value;
    FindEdited(db.holds, WithPromo(id,
        Some(AppliedPromo(code, Promotions.ComputeDiscount(db.promos[code], HoldTotal(h))))), id);
  }

  lemma EditsCommute(holds: seq<Hold>, id: nat, promo: Option<AppliedPromo>, gift: Option<int>)
    ensures MapRows(MapRows(holds, WithPromo(id, promo)), WithDonation(id, gift))
            == MapRows(MapRows(holds, WithDonation(id, gift)), WithPromo(id, promo))
  {}

  lemma CodeFailsAlike(db: Db, session: string, id: nat, code: string, amount: int)
    requires Holds.SetDonation(db, session, id, amount).Ok?
    ensures var gifted := Holds.SetDonation(db, session, id, amount).value;
            Holds.ApplyPromo(db, session, id, code).Ok? <==> Holds.ApplyPromo(gifted, session, id, code).Ok?
  {
    hide Promotions.ComputeDiscount, Promotions.ValidateCode, HoldTotal, HoldCurrency;
    GiftIsInvisible(db, session, id, amount);
    hide CartOf, MapRows, Holds.SetDonation;
  }

  lemma GiftFailsAlike(db: Db, session: string, id: nat, code: string, amount: int)
    requires Holds.ApplyPromo(db, session, id, code).Ok?
    ensures var coded := Holds.ApplyPromo(db, session, id, code).value;
            Holds.SetDonation(db, session, id, amount).Ok? <==> Holds.SetDonation(coded, session, id, amount).Ok?
  {
    CodeKeepsTheCart(db, session, id, code);
    hide CartOf, MapRows, Holds.ApplyPromo;
  }

  /** Applying a code and adding a gift commute, and each succeeds or fails the
      same way in either order: a gift is never discounted and never helps a cart
      over a code's minimum. */
  lemma CodeAndGiftCommute(db: Db, session: string, id: nat, code: string, amount: int)
    ensures var code, gift := Action.ApplyPromo(session, id, code), Action.SetDonation(session, id, amount);
            && Next(Next(db, code), gift) == Next(Next(db, gift), code)
            && (Attempt(Next(db, gift), code).Ok? <==> Attempt(db, code).Ok?)
            && (Attempt(Next(db, code), gift).Ok? <==> Attempt(db, gift).Ok?)
  {
    var coded, gifted := Holds.ApplyPromo(db, session, id, code), Holds.SetDonation(db, session, id, amount);
    if gifted.Ok? {
      GiftIsInvisible(db, session, id, amount);
      CodeFailsAlike(db, session, id, code, amount);
      if coded.Ok? {
        CodeKeepsTheCart(db, session, id, code);
        CodeKeepsTheCart(gifted.value, session, id, code);
        GiftFailsAlike(db, session, id, code, amount);
        GiftIsInvisible(coded.value, session, id, amount);
        EditsCommute(db.holds, id,
                     Some(AppliedPromo(code, Promotions.ComputeDiscount(db.promos[code],
                         HoldTotal(CartOf(db, session, id).value)))),
                     Some(amount));
      }
    } else if coded.Ok? {
      GiftFailsAlike(db, session, id, code, amount);
    }
    hide Holds.ApplyPromo, Holds.SetDonation, CartOf, HoldTotal, MapRows, HoldCurrency;
  }
}

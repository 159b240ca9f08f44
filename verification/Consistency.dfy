/** The state invariant of the box office, and the proof that every run keeps it. */
module Consistency {
  import opened Tables
  import opened Schema
  import opened System
  import Holds
  import Fulfilment
  import Scanning
  import Pricing
  import Inventory
  import Carts
  import Passes
  import Ledger

  /** Everything but that orders add up: what survives even a stale read. */
  ghost predicate Sound(db: Db) {
    && (forall p :: p in db.allocs ==> p in db.perfs)
    && Carts.CartsOk(db)
    && Inventory.InventoryOk(db.allocs, db.orders, db.tickets)
    && Passes.PassesOk(db.passes, db.redemptions, db.orders, db.tickets)
    && Ledger.OrdersPaid(db.orders)
    && Ledger.PromosOk(db.promos, db.orders, db.holds)
    && Ledger.CheckoutsOk(db.orders)
    && Ledger.ScansOk(db.tickets)
  }

  ghost predicate Consistent(db: Db) { Sound(db) && Ledger.OrdersAdd(db.orders) }

  /** A step kept the first, and with it the second. */
  ghost predicate Keeps(db: Db, after: Db) {
    Sound(after) && (Ledger.OrdersAdd(db.orders) ==> Ledger.OrdersAdd(after.orders))
  }

  // --- its parts --------------------------------------------------------

  lemma InventoryIsOk(db: Db)
    requires Consistent(db)
    ensures Inventory.InventoryOk(db.allocs, db.orders, db.tickets)
  {}

  lemma PassesAreOk(db: Db)
    requires Consistent(db)
    ensures Passes.PassesOk(db.passes, db.redemptions, db.orders, db.tickets)
  {}

  lemma OrderIsOk(db: Db, o: nat)
    requires Consistent(db) && o < |db.orders|
    ensures Ledger.PaymentsOk(db.orders[o]) && Ledger.TotalsOk(db.orders[o])
  {
    hide Carts.CartTablesOk, Inventory.InventoryOk, Passes.PassesOk, Ledger.PromosOk, Ledger.PaymentsOk;
    hide Ledger.TotalsOk;
  }

  // --- carts ------------------------------------------------------------

  predicate IsCartAction(a: Action) {
    a.SetGaHold? || a.SetReservedHold? || a.Release? || a.ReleaseById? || a.Sweep? || a.ApplyPromo? || a.RemovePromo?
    || a.SetDonation? || a.ClearDonation?
  }

  lemma ReplaceKeepsPromos(db: Db, perf: nat, session: string, cart: Cart)
    requires Ledger.PromosOk(db.promos, db.orders, db.holds)
    ensures Ledger.PromosOk(db.promos, db.orders, Holds.Replaced(db, perf, session, cart).holds)
  {
    FilterMembers(db.holds, Holds.NotOf(perf, session));
  }

  lemma FilterKeepsPromos(db: Db, keep: Hold -> bool)
    requires Ledger.PromosOk(db.promos, db.orders, db.holds)
    ensures Ledger.PromosOk(db.promos, db.orders, Filter(db.holds, keep))
  {
    FilterMembers(db.holds, keep);
  }

  /** Creating and releasing holds. */
  lemma SelectionKeeps(db: Db, a: Action)
    requires Sound(db) && (a.SetGaHold? || a.SetReservedHold? || a.Release? || a.ReleaseById? || a.Sweep?)
    ensures Keeps(db, Next(db, a))
  {
    hide Carts.CartTablesOk, Inventory.InventoryOk, Passes.PassesOk, Ledger.PromosOk;
    match a
    case SetGaHold(perf, session, tier, quantity) =>
      if quantity <= 0 {
        FilterKeepsPromos(db, Holds.NotOf(perf, session));
        Carts.FilterKeepsCarts(db, Holds.NotOf(perf, session));
      } else if Attempt(db, a).Ok? {
        var t := Holds.FindTier(db.book.tiers, tier).value;
        ReplaceKeepsPromos(db, perf, session, Ga(quantity, t.amount, t.currency));
        Carts.ReplaceKeepsCarts(db, perf, session, Ga(quantity, t.amount, t.currency));
      }
    case SetReservedHold(perf, session, ids) =>
      FilterKeepsPromos(db, Holds.NotOf(perf, session));
      if Attempt(db, a).Ok? {
        Carts.SetReservedKeepsCarts(db, perf, session, ids);
        if ids != {} {
          ReplaceKeepsPromos(db, perf, session, Carts.ReservedCart(db, perf, ids));
        }
      }
    case Release(perf, session) =>
      FilterKeepsPromos(db, Holds.NotOf(perf, session));
      Carts.FilterKeepsCarts(db, Holds.NotOf(perf, session));
    case ReleaseById(session, hold) =>
      FilterKeepsPromos(db, Holds.NotId(hold, session));
      Carts.FilterKeepsCarts(db, Holds.NotId(hold, session));
    case Sweep =>
      FilterKeepsPromos(db, Holds.UnexpiredAt(db.now));
      Carts.FilterKeepsCarts(db, Holds.UnexpiredAt(db.now));
  }

  lemma EditKeepsPromos(db: Db, edit: Hold -> Hold)
    requires Ledger.PromosOk(db.promos, db.orders, db.holds)
    requires forall i :: 0 <= i < |db.holds| ==>
      edit(db.holds[i]).promo.Some? ==>
          edit(db.holds[i]).promo == db.holds[i].promo || edit(db.holds[i]).promo.value.code in db.promos
    ensures Ledger.PromosOk(db.promos, db.orders, MapRows(db.holds, edit))
  {
    forall e | e in MapRows(db.holds, edit) && e.promo.Some? ensures e.promo.value.code in db.promos {
      var i :| 0 <= i < |db.holds| && edit(db.holds[i]) == e;
      assert db.holds[i] in db.holds;
    }
  }

  /** Discount and donation edits of a hold. */
  lemma EditingKeeps(db: Db, a: Action)
    requires Sound(db) && (a.ApplyPromo? || a.RemovePromo? || a.SetDonation? || a.ClearDonation?)
    ensures Keeps(db, Next(db, a))
  {
    hide Carts.CartTablesOk, Inventory.InventoryOk, Passes.PassesOk, Ledger.PromosOk;
    if Attempt(db, a).Ok? {
      match a
      case ApplyPromo(session, hold, code) =>
        Carts.ApplyPromoKeepsCarts(db, session, hold, code);
        var h := Holds.CartOf(db, session, hold).value;
        var applied := AppliedPromo(code, Holds.Promotions.ComputeDiscount(db.promos[code], Holds.HoldTotal(h)));
        EditKeepsPromos(db, Holds.WithPromo(hold, Some(applied)));
      case RemovePromo(session, hold) =>
        Carts.DropPromoKeepsCarts(db, hold);
        EditKeepsPromos(db, Holds.WithPromo(hold, None));
      case SetDonation(session, hold, amount) =>
        Carts.DonationKeepsCarts(db, hold, Some(amount));
        EditKeepsPromos(db, Holds.WithDonation(hold, Some(amount)));
      case ClearDonation(session, hold) =>
        Carts.DonationKeepsCarts(db, hold, None);
        EditKeepsPromos(db, Holds.WithDonation(hold, None));
    }
  }

  // --- orders -----------------------------------------------------------

  lemma MintIsSound(db: Db, h: Hold, order: Order)
    requires Sound(db) && Carts.CartsOk(Fulfilment.Mint(db, h, order))
    requires Inventory.OrderFor(order, h) && Ledger.PaymentsOk(order) && !Passes.IsRedemption(order)
    requires Inventory.SeatsDistinct(h.cart) && Fulfilment.InventoryFailure(db, h).None?
    requires order.promo == Fulfilment.PromoText(h) && (h.promo.Some? ==> h.promo.value.code in db.promos)
    requires forall i :: 0 <= i < |db.orders| ==> order.checkout.None? || db.orders[i].checkout != order.checkout
    ensures Sound(Fulfilment.Mint(db, h, order).(promos := Fulfilment.Counted(db.promos, h.promo)))
  {
    hide Carts.CartTablesOk, Inventory.InventoryOk, Passes.PassesOk, Ledger.PromosOk, Ledger.PaymentsOk;
    hide Inventory.OrderFor;
    var minted := Fulfilment.Mint(db, h, order);
    Inventory.MintKeepsInventory(db, h, order);
    Passes.OrderKeepsPasses(db, order, Fulfilment.NewTickets(h, |db.orders|));
    FilterMembers(db.holds, Fulfilment.NotRow(h.id));
    Ledger.OrderKeepsPromos(db.promos, db.orders, db.holds, minted.holds, order, h.promo);
    MintedUnused(h, |db.orders|);
    hide Filter, Fulfilment.InventoryFailure, Inventory.SeatsDistinct, Fulfilment.NewTickets;
  }

  lemma MintedUnused(h: Hold, o: nat)
    ensures Ledger.ScansOk(Fulfilment.NewTickets(h, o))
  {}

  lemma FulfillKeeps(db: Db, h: Hold, provider: Provider, ref: string, checkout: Option<string>)
    requires Sound(db) && h in db.holds && !provider.PassCredit?
    requires forall i :: 0 <= i < |db.orders| ==> checkout.None? || db.orders[i].checkout != checkout
    requires Fulfilment.FulfillHold(db, h, provider, ref, checkout).Ok?
    ensures Keeps(db, Fulfilment.FulfillHold(db, h, provider, ref, checkout).value)
  {
    hide Carts.CartTablesOk, Inventory.InventoryOk, Passes.PassesOk, Ledger.PromosOk;
    var order := Fulfilment.SaleOrder(h, provider, ref, checkout);
    Carts.HeldIsOk(db, h);
    Carts.MintKeepsCarts(db, h, order);
    Ledger.SaleOrderAdds(h, provider, ref, checkout);
    if h.promo.Some? { Ledger.HeldCodeExists(db.promos, db.orders, db.holds, h); }
    hide Sound, Carts.CartsOk;
    MintIsSound(db, h, order);
    hide Filter, Fulfilment.InventoryFailure, Fulfilment.NewTickets, Fulfilment.TakeFrom;
  }

  lemma RedeemKeeps(db: Db, h: Hold, pass: nat)
    requires Sound(db) && h in db.holds && Fulfilment.RedeemPass(db, h, pass).Ok?
    ensures Keeps(db, Fulfilment.RedeemPass(db, h, pass).value)
  {
    hide Carts.CartTablesOk, Inventory.InventoryOk, Passes.PassesOk, Ledger.PromosOk;
    var order := Fulfilment.RedemptionOrder(h, pass);
    var minted := Fulfilment.Mint(db, h, order);
    Carts.HeldIsOk(db, h);
    Carts.MintKeepsCarts(db, h, order);
    Inventory.MintKeepsInventory(db, h, order);
    Passes.RedeemKeepsPasses(db, h, pass);
    Ledger.RedemptionOrderAdds(h, pass);
    FilterMembers(db.holds, Fulfilment.NotRow(h.id));
    Ledger.OrderKeepsPromos(db.promos, db.orders, db.holds, minted.holds, order, None);
  }

  lemma GiftKeeps(db: Db, amount: int, provider: Provider, ref: string, checkout: Option<string>)
    requires Sound(db) && !provider.PassCredit?
    requires forall i :: 0 <= i < |db.orders| ==> checkout.None? || db.orders[i].checkout != checkout
    ensures Keeps(db, Fulfilment.FulfillDonation(db, amount, provider, ref, checkout))
  {
    hide Carts.CartTablesOk, Inventory.InventoryOk, Passes.PassesOk, Ledger.PromosOk;
    var order := Fulfilment.PlainOrder(amount, checkout, DonationLine, provider, ref);
    Inventory.PlainKeepsInventory(db.allocs, db.orders, db.tickets, order);
    Passes.OrderKeepsPasses(db, order, []);
    assert db.tickets + [] == db.tickets;
    Ledger.PlainOrderAdds(amount, checkout, DonationLine, provider, ref);
    Ledger.OrderKeepsPromos(db.promos, db.orders, db.holds, db.holds, order, None);
  }

  lemma PassSaleKeeps(db: Db, product: nat, provider: Provider, ref: string, checkout: Option<string>)
    requires Sound(db) && !provider.PassCredit?
    requires forall i :: 0 <= i < |db.orders| ==> checkout.None? || db.orders[i].checkout != checkout
    requires Fulfilment.FulfillPass(db, product, provider, ref, checkout).Ok?
    ensures Keeps(db, Fulfilment.FulfillPass(db, product, provider, ref, checkout).value)
  {
    hide Carts.CartTablesOk, Inventory.InventoryOk, Passes.PassesOk, Ledger.PromosOk;
    var p := db.products[product];
    var order := Fulfilment.PlainOrder(p.price, checkout, PassLine, provider, ref);
    assert order.items[0].kind.PassLine? && order.items[0] in order.items;
    Inventory.PlainKeepsInventory(db.allocs, db.orders, db.tickets, order);
    Passes.SaleKeepsPasses(db, order, Fulfilment.Sold(product, p, |db.orders|));
    Ledger.PlainOrderAdds(p.price, checkout, PassLine, provider, ref);
    Ledger.OrderKeepsPromos(db.promos, db.orders, db.holds, db.holds, order, None);
  }

  lemma DeliverKeeps(db: Db, session: string, what: Fulfilment.Checkout, ref: string)
    requires Sound(db) && Fulfilment.Deliver(db, session, what, ref).Ok?
    ensures Keeps(db, Fulfilment.Deliver(db, session, what, ref).value.db)
  {
    Ledger.FindOrderIs(db.orders, session);
    if Fulfilment.FindOrder(db.orders, session).None? {
      match what
      case GiftCheckout(amount) => GiftKeeps(db, amount.value, Stripe, ref, Some(session));
      case PassCheckout(product) => PassSaleKeeps(db, product, Stripe, ref, Some(session));
      case HoldCheckout(id) =>
        Carts.FindHoldIn(db.holds, id);
        FulfillKeeps(db, Holds.FindHold(db.holds, id).value, Stripe, ref, Some(session));
    }
  }

  // --- reversals --------------------------------------------------------

  lemma ReverseKeepsCarts(db: Db, o: nat, after: Db)
    requires Carts.CartsOk(db)
    requires after.tickets == MapRows(db.tickets, Fulfilment.Voided(o))
    requires after.book == db.book && after.perfs == db.perfs
    requires after.holds == db.holds && after.nextHold == db.nextHold && after.now == db.now
    ensures Carts.CartsOk(after)
  {
    Carts.TicketsKeepCarts(db, after.tickets);
  }

  lemma CancelKeeps(db: Db, o: nat)
    requires Sound(db) && o < |db.orders| && db.orders[o].status.Paid?
    ensures Keeps(db, Fulfilment.Reverse(db, o, Cancelled))
  {
    hide Carts.CartTablesOk, Inventory.InventoryOk, Passes.PassesOk, Ledger.PromosOk;
    var after := Fulfilment.Reverse(db, o, Cancelled);
    ReverseKeepsCarts(db, o, after);
    Inventory.ReverseKeepsInventory(db, o, Cancelled);
    Passes.CancelKeepsPasses(db, o);
    Ledger.ReversedOrderAdds(db.orders[o], after.orders[o]);
    Ledger.StatusKeepsPromos(db.promos, db.orders, db.holds, o, after.orders[o]);
  }

  lemma RefundKeeps(db: Db, o: nat, stripe: Option<string>)
    requires Sound(db) && o < |db.orders| && db.orders[o].status.Paid? && Fulfilment.RefundOrder(db, o, stripe).Ok?
    ensures Keeps(db, Fulfilment.RefundOrder(db, o, stripe).value)
  {
    hide Carts.CartTablesOk, Inventory.InventoryOk, Passes.PassesOk, Ledger.PromosOk;
    var reversed := Fulfilment.Reverse(db, o, Refunded);
    var after := Fulfilment.RefundOrder(db, o, stripe).value;
    assert Ledger.PaymentsOk(db.orders[o]);
    ReverseKeepsCarts(db, o, after);
    Inventory.ReverseKeepsInventory(db, o, Refunded);
    Inventory.PaymentsKeepInventory(reversed.allocs, reversed.orders, reversed.tickets, o, after.orders[o]);
    Passes.RefundKeepsPasses(db, o, stripe);
    assert after.orders == db.orders[o := after.orders[o]];
    Ledger.ReversedOrderAdds(db.orders[o], after.orders[o]);
    Ledger.StatusKeepsPromos(db.promos, db.orders, db.holds, o, after.orders[o]);
  }

  // --- the door and the desk --------------------------------------------

  lemma ScanKeepsPasses(db: Db, k: nat, t: Ticket)
    requires Passes.PassesOk(db.passes, db.redemptions, db.orders, db.tickets)
    requires k < |db.tickets| && t.order == db.tickets[k].order && t.seat == db.tickets[k].seat
    ensures Passes.PassesOk(db.passes, db.redemptions, db.orders, db.tickets[k := t])
  {
    forall o: nat | o < |db.orders|
      ensures Sum(db.tickets[k := t], Passes.TicketsOn(o)) == Sum(db.tickets, Passes.TicketsOn(o))
    {
      SumUpdate(db.tickets, Passes.TicketsOn(o), k, t);
    }
    forall i | 0 <= i < |db.redemptions|
      ensures Passes.RowOk(db.redemptions[i], db.passes, db.orders, db.tickets[k := t])
    {
      assert Passes.RowOk(db.redemptions[i], db.passes, db.orders, db.tickets);
    }
  }

  lemma ScanKeeps(db: Db, ticket: nat, signed: bool)
    requires Sound(db)
    ensures Keeps(db, Scanning.AfterScan(db, ticket, signed))
  {
    hide Carts.CartTablesOk, Inventory.InventoryOk, Passes.PassesOk, Ledger.PromosOk;
    if Scanning.Verdict(db, ticket, signed).Admit? {
      var after := Scanning.AfterScan(db, ticket, signed);
      Carts.TicketsKeepCarts(db, after.tickets);
      Inventory.ScanKeepsInventory(db.allocs, db.orders, db.tickets, ticket, after.tickets[ticket]);
      ScanKeepsPasses(db, ticket, after.tickets[ticket]);
    }
  }

  lemma PerformanceKeeps(db: Db, perf: nat, form: Performance, capacity: Option<nat>)
    requires Sound(db) && EditPerformance(db, perf, form, capacity).Ok?
    ensures Keeps(db, EditPerformance(db, perf, form, capacity).value)
  {
    hide Carts.CartTablesOk, Inventory.InventoryOk, Passes.PassesOk, Ledger.PromosOk, Ledger.OrdersPaid;
    hide Ledger.CheckoutsOk, Ledger.ScansOk;
    var after := EditPerformance(db, perf, form, capacity).value;
    Carts.DeskKeepsCarts(db, after);
    if capacity.Some? && perf !in db.allocs {
      Inventory.NewAllocation(db.allocs, db.orders, db.tickets, perf, capacity.value);
    } else if capacity.Some? {
      Inventory.CapacityKeepsInventory(db.allocs, db.orders, db.tickets, perf, capacity.value);
    }
  }

  lemma DeskKeeps(db: Db, a: Action)
    requires Sound(db)
    requires a.Tick? || a.SavePrices? || a.SaveBlocks? || a.SavePromo? || a.SaveProduct?
    ensures Keeps(db, Next(db, a))
  {
    hide Carts.CartTablesOk, Inventory.InventoryOk, Passes.PassesOk, Pricing.VenueOk;
    hide Ledger.PromosOk, Ledger.OrdersPaid, Ledger.CheckoutsOk, Ledger.ScansOk;
    Carts.DeskKeepsCarts(db, Next(db, a));
    if a.SavePromo? {
      Ledger.SavePromoKeepsPromos(db.promos, db.orders, db.holds, a.code, Next(db, a).promos[a.code]);
    }
  }

  // --- every step, every run --------------------------------------------

  lemma NeverPending(db: Db, o: nat)
    requires Sound(db) && o < |db.orders|
    ensures !db.orders[o].status.Pending? && |db.orders[o].payments| > 0
  {
    hide Carts.CartTablesOk, Inventory.InventoryOk, Passes.PassesOk, Ledger.PromosOk;
    assert Ledger.PaymentsOk(db.orders[o]);
  }

  lemma StepKeepsSound(db: Db, a: Action)
    requires Sound(db)
    ensures Keeps(db, Next(db, a))
  {
    hide Sound;
    match a
    case TestCheckout(hold, ref) =>
      Carts.FindHoldIn(db.holds, hold);
      if Attempt(db, a).Ok? { FulfillKeeps(db, Holds.FindHold(db.holds, hold).value, Test, ref, None); }
    case GiveDirectly(amount, ref) => GiftKeeps(db, amount, Test, ref, None);
    case SellPass(product, ref) => if Attempt(db, a).Ok? { PassSaleKeeps(db, product, Test, ref, None); }
    case Deliver(checkout, what, ref) =>
      if Fulfilment.Deliver(db, checkout, what, ref).Ok? { DeliverKeeps(db, checkout, what, ref); }
    case UsePass(hold, pass) =>
      Carts.FindHoldIn(db.holds, hold);
      if Attempt(db, a).Ok? { RedeemKeeps(db, Holds.FindHold(db.holds, hold).value, pass); }
    case Refund(o, stripe) =>
      if Attempt(db, a).Ok? && db.orders[o].status.Paid? { RefundKeeps(db, o, stripe); }
    case Cancel(o) =>
      if o < |db.orders| && db.orders[o].status.Paid? {
        CancelKeeps(db, o);
      } else if o < |db.orders| {
        NeverPending(db, o);
      }
    case Scan(ticket, signed) => ScanKeeps(db, ticket, signed);
    case SavePerformance(perf, form, capacity) =>
      if Attempt(db, a).Ok? { PerformanceKeeps(db, perf, form, capacity); }
    case _ =>
      if a.ApplyPromo? || a.RemovePromo? || a.SetDonation? || a.ClearDonation? { EditingKeeps(db, a); }
      else if IsCartAction(a) { SelectionKeeps(db, a); }
      else { DeskKeeps(db, a); }
  }

  lemma StepKeepsConsistent(db: Db, a: Action)
    requires Consistent(db)
    ensures Consistent(Next(db, a))
  {
    hide Sound, Next, Ledger.OrdersAdd;
    StepKeepsSound(db, a);
  }

  lemma OpeningIsConsistent(db: Db)
    requires Opening(db)
    ensures Consistent(db)
  {}

  /** Every state a run reaches is consistent. */
  lemma {:induction false} AlwaysConsistent(db: Db, actions: seq<Action>)
    requires Opening(db)
    ensures Consistent(Run(db, actions))
  {
    if actions == [] {
      OpeningIsConsistent(db);
    } else {
      AlwaysConsistent(db, actions[..|actions| - 1]);
      StepKeepsConsistent(Run(db, actions[..|actions| - 1]), actions[|actions| - 1]);
    }
  }
}

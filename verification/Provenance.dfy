/** Where rows come from: over any run, what must have been so at the step that wrote them. */
module Provenance {
  import opened Tables
  import opened Schema
  import opened System
  import opened Holds
  import opened Fulfilment
  import opened Answers
  import Carts
  import Consistency
  import Charges
  import History
  import Expiry
  import Pricing

  // --- redemptions ------------------------------------------------------

  /** Step `k` of the run wrote the redemption: of a pass that was ACTIVE and not past its
      end, for a performance of an event it covers, inside its window as it was scheduled
      then. */
  ghost predicate RedeemedAt(start: Db, actions: seq<Action>, r: Redemption, k: nat) {
    && k < |actions| && actions[k].UsePass? && actions[k].pass == r.pass
    && var db := Run(start, actions[..k]);
       && r !in db.redemptions
       && r.pass < |db.passes| && r.perf in db.perfs && r.event == db.perfs[r.perf].event
       && db.passes[r.pass].status == Active
       && (db.passes[r.pass].validUntil.Some? ==> db.now <= db.passes[r.pass].validUntil.value)
       && IsFor(db.passes[r.pass], db.perfs[r.perf])
  }

  lemma NewRowIs(db: Db, a: Action, r: Redemption)
    requires r in Next(db, a).redemptions && r !in db.redemptions
    ensures a.UsePass? && a.pass == r.pass && FindHold(db.holds, a.hold).Some?
    ensures var h := FindHold(db.holds, a.hold).value;
            RedeemPass(db, h, a.pass).Ok? && r.perf == h.perf && h.perf in db.perfs && r.event == db.perfs[h.perf].event
  {
    if a.Refund? || a.Cancel? {
      NoRowReversed(db, a, r);
    } else if !a.UsePass? {
      NoRowElsewhere(db, a);
    } else {
      hide FindHold, RedemptionFailure, NewTickets, Spent;
    }
    hide Next;
  }

  lemma NoRowReversed(db: Db, a: Action, r: Redemption)
    requires (a.Refund? || a.Cancel?) && r in Next(db, a).redemptions
    ensures r in db.redemptions
  {
    FilterMembers(db.redemptions, NotOn(a.order));
    hide Filter, Sum, RestoredPasses, PassSpent, FirstSucceeded, SoldAPass, IsPaymentIntent, MapRows;
  }

  lemma NoRowElsewhere(db: Db, a: Action)
    requires !a.UsePass? && !a.Refund? && !a.Cancel?
    ensures Next(db, a).redemptions == db.redemptions
  {
    hide FindHold, FindOrder, Sum, InventoryFailure, FindTier, SeatsOnChart, Taken, HoldTotal, HoldCurrency, NewTickets;
    hide Filter, MapRows;
  }

  lemma RedeemedInWindow(db: Db, h: Hold, pass: nat)
    requires RedeemPass(db, h, pass).Ok?
    ensures pass < |db.passes| && h.perf in db.perfs && db.passes[pass].status == Active
    ensures db.passes[pass].validUntil.Some? ==> db.now <= db.passes[pass].validUntil.value
    ensures IsFor(db.passes[pass], db.perfs[h.perf])
  {
    RedeemAnswer(db, h, pass);
    hide RedeemPass, StockChecks, UsedForEvent;
    var checks := PassChecks(db, h, pass) + StockChecks(db, h);
    assert !checks[3].0 && !checks[4].0 && !checks[5].0 && !checks[6].0;
  }

  /** Over any run, rescheduling or not, every recorded redemption was made while its pass
      was good, for a performance inside the window the pass has to this day. */
  lemma {:induction false} EveryRedemptionWasCovered(start: Db, actions: seq<Action>, r: Redemption) returns (k: nat)
    requires Opening(start) && r in Run(start, actions).redemptions
    ensures RedeemedAt(start, actions, r, k)
    ensures var moment, now := Run(start, actions[..k]), Run(start, actions);
            r.pass < |now.passes| && IsFor(now.passes[r.pass], moment.perfs[r.perf])
  {
    k := WhenRedeemed(start, actions, r);
    var moment := Run(start, actions[..k]);
    Consistency.AlwaysConsistent(start, actions[..k]);
    RunSplits(start, actions, k);
    History.RunContinues(moment, actions[k..]);
    hide Consistency.Consistent, Run, IsFor;
    assert History.PassContinues(moment.passes[r.pass], Run(start, actions).passes[r.pass]);
    SameWindow(moment.passes[r.pass], Run(start, actions).passes[r.pass], moment.perfs[r.perf]);
  }

  lemma SameWindow(a: PassPurchase, b: PassPurchase, perf: Performance)
    requires History.PassContinues(a, b)
    ensures IsFor(a, perf) <==> IsFor(b, perf)
  {}

  lemma {:induction false} WhenRedeemed(start: Db, actions: seq<Action>, r: Redemption) returns (k: nat)
    requires Opening(start) && r in Run(start, actions).redemptions
    ensures RedeemedAt(start, actions, r, k)
  {
    var n := |actions| - 1;
    var init, a := actions[..n], actions[n];
    var db := Run(start, init);
    hide Next, IsFor, RedeemPass;
    if r in db.redemptions {
      k := WhenRedeemed(start, init, r);
      assert init[..k] == actions[..k];
    } else {
      k := n;
      NewRowIs(db, a, r);
      RedeemedInWindow(db, FindHold(db.holds, a.hold).value, a.pass);
    }
  }

  lemma RunSplits(start: Db, actions: seq<Action>, k: nat)
    requires k <= |actions|
    ensures Run(Run(start, actions[..k]), actions[k..]) == Run(start, actions)
  {
    Expiry.RunJoins(start, actions[..k], actions[k..]);
    assert actions[..k] + actions[k..] == actions;
  }

  // --- orders -----------------------------------------------------------

  /** Step `k` of the run wrote the order, for a hold that had not run out. */
  ghost predicate SoldAt(start: Db, actions: seq<Action>, o: nat, k: nat, h: Hold) {
    && k < |actions| && o == |Run(start, actions[..k]).orders|
    && var db := Run(start, actions[..k]);
       && h in db.holds && h.expiresAt > db.now && Charges.PaysNow(db, actions[k], h)
       && Run(start, actions[..k + 1]).orders == db.orders + [Charges.OrderOf(actions[k], h)]
  }

  /** The hold that a payment finds. */
  function PaidHold(db: Db, a: Action): Option<Hold> {
    match a
    case TestCheckout(id, _) => FindHold(db.holds, id)
    case UsePass(id, _) => FindHold(db.holds, id)
    case Deliver(_, HoldCheckout(id), _) => FindHold(db.holds, id)
    case _ => None
  }

  lemma PaidOrderIs(db: Db, a: Action)
    requires PaidHold(db, a).Some? && |Next(db, a).orders| > |db.orders|
    ensures var h := PaidHold(db, a).value;
            Charges.PaysNow(db, a, h) && h in db.holds && FindHold(db.holds, h.id) == Some(h) && h.expiresAt > db.now
  {
    Carts.FindHoldIn(db.holds, if a.Deliver? then a.what.hold else a.hold);
    var h := PaidHold(db, a).value;
    if a.UsePass? {
      RedeemAnswer(db, h, a.pass);
    } else if a.TestCheckout? {
      PayAnswer(db, h, Test, a.ref, None);
    } else {
      PayAnswer(db, h, Provider.Stripe, a.ref, Some(a.checkout));
    }
    hide FindHold, FindOrder, FulfillHold, RedeemPass, FirstFailing;
  }

  lemma ReversalWritesNoOrder(db: Db, a: Action)
    requires a.Refund? || a.Cancel?
    ensures |Next(db, a).orders| == |db.orders|
  {
    hide Sum, RestoredPasses, PassSpent, FirstSucceeded, SoldAPass, Filter, IsPaymentIntent;
  }

  /** The steps that can add an order. */
  predicate Orders(a: Action) { a.TestCheckout? || a.UsePass? || a.Deliver? || a.GiveDirectly? || a.SellPass? }

  lemma CartWritesNoOrder(db: Db, a: Action)
    requires Consistency.IsCartAction(a)
    ensures Next(db, a).orders == db.orders
  {
    hide FindHold, Sum, Filter, FindTier, SeatsOnChart, Taken, HoldTotal, HoldCurrency, MapRows, ActiveGaHeld;
  }

  lemma DeskWritesNoOrder(db: Db, a: Action)
    requires !Orders(a) && !Consistency.IsCartAction(a) && !a.Refund? && !a.Cancel?
    ensures Next(db, a).orders == db.orders
  {
    hide Pricing.VenueOk;
  }

  lemma OtherOrderIs(db: Db, a: Action)
    requires PaidHold(db, a).None? && |Next(db, a).orders| > |db.orders|
    ensures |Next(db, a).orders| == |db.orders| + 1
    ensures Next(db, a).orders[|db.orders|].perf.None? && Next(db, a).orders[|db.orders|].status == Paid
  {
    if Orders(a) {
      hide FindHold, FindOrder, FulfillHold, RedeemPass;
    } else {
      if a.Refund? || a.Cancel? { ReversalWritesNoOrder(db, a); }
      else if Consistency.IsCartAction(a) { CartWritesNoOrder(db, a); } else { DeskWritesNoOrder(db, a); }
      hide Next;
    }
  }

  lemma NewOrderIs(db: Db, a: Action)
    requires |Next(db, a).orders| > |db.orders|
    ensures var after := Next(db, a).orders;
            && |after| == |db.orders| + 1 && after[..|db.orders|] == db.orders && after[|db.orders|].status == Paid
            && (after[|db.orders|].perf.Some? ==>
                  exists h :: h in db.holds && h.expiresAt > db.now && Charges.PaysNow(db, a, h)
                              && after == db.orders + [Charges.OrderOf(a, h)])
  {
    if PaidHold(db, a).Some? {
      var h := PaidHold(db, a).value;
      PaidOrderIs(db, a);
      Charges.OrderWritten(db, h, a);
      hide Next, Charges.PaysNow, FindHold, PaidHold, TicketItems;
    } else {
      OtherOrderIs(db, a);
      if a.Refund? || a.Cancel? { ReversalWritesNoOrder(db, a); } else { OldOrdersStay(db, a); }
      hide Next, Charges.PaysNow, FindHold, PaidHold;
    }
  }

  lemma OldOrdersStay(db: Db, a: Action)
    requires !a.Refund? && !a.Cancel?
    ensures db.orders <= Next(db, a).orders
  {
    if Orders(a) {
      hide FindHold, FindOrder, InventoryFailure, RedemptionFailure, Filter, NewTickets, NewRedemptions;
    } else {
      if Consistency.IsCartAction(a) { CartWritesNoOrder(db, a); } else { DeskWritesNoOrder(db, a); }
      hide Next;
    }
  }

  /** Over any run every order for a performance was written for a hold of the table that
      had not run out, with what that hold had on it: no expired hold is ever paid for. */
  lemma {:induction false} EverySaleWasInTime(start: Db, actions: seq<Action>, o: nat) returns (k: nat, h: Hold)
    requires Opening(start) && o < |Run(start, actions).orders| && Run(start, actions).orders[o].perf.Some?
    ensures SoldAt(start, actions, o, k, h)
  {
    hide Opening, Consistency.Consistent, Run, Next, Attempt, FindOrder, Charges.Pays, Charges.OrderOf, SoldAt;
    NothingSoldYet(start);
    var n := |actions| - 1;
    var init, a := actions[..n], actions[n];
    var db := Run(start, init);
    assert actions == init + [a];
    RunAppend(start, init, a);
    Consistency.AlwaysConsistent(start, init);
    if o < |db.orders| {
      SameShow(db, a, o);
      k, h := EverySaleWasInTime(start, init, o);
      SoldBefore(start, init, a, o, k, h);
    } else {
      k := n;
      NewOrderIs(db, a);
      h :| h in db.holds && h.expiresAt > db.now && Charges.PaysNow(db, a, h)
        && Next(db, a).orders == db.orders + [Charges.OrderOf(a, h)];
      SoldLast(start, init, a, h);
    }
  }

  lemma NothingSoldYet(start: Db)
    requires Opening(start)
    ensures Run(start, []).orders == []
  {}

  lemma SameShow(db: Db, a: Action, o: nat)
    requires Consistency.Consistent(db) && o < |db.orders|
    ensures o < |Next(db, a).orders| && Next(db, a).orders[o].perf == db.orders[o].perf
  {
    History.RunContinues(db, [a]);
    RunLast(db, a);
    hide Consistency.Consistent, Next, Run;
    assert History.OrderContinues(db.orders[o], Next(db, a).orders[o]);
  }

  lemma SoldBefore(start: Db, init: seq<Action>, a: Action, o: nat, k: nat, h: Hold)
    requires SoldAt(start, init, o, k, h)
    ensures SoldAt(start, init + [a], o, k, h)
  {
    hide Run, Charges.PaysNow, Charges.OrderOf;
    assert (init + [a])[..k] == init[..k] && (init + [a])[..k + 1] == init[..k + 1];
  }

  lemma SoldLast(start: Db, init: seq<Action>, a: Action, h: Hold)
    requires var db := Run(start, init);
             h in db.holds && h.expiresAt > db.now && Charges.PaysNow(db, a, h)
             && Next(db, a).orders == db.orders + [Charges.OrderOf(a, h)]
    ensures SoldAt(start, init + [a], |Run(start, init).orders|, |init|, h)
  {
    assert (init + [a])[..|init|] == init && (init + [a])[..|init| + 1] == init + [a];
    RunAppend(start, init, a);
    hide Run, Next, Charges.PaysNow, Charges.OrderOf;
  }

  lemma RunLast(db: Db, a: Action)
    ensures Run(db, [a]) == Next(db, a)
  {
    assert [a][..0] == [];
    hide Next;
  }

  // --- refunds ----------------------------------------------------------

  /** Step `k` of the run refunded the order: it was PAID, no pass it sold was in use, and
      its money came back, through Stripe if Stripe had taken it; the reversal is on record. */
  ghost predicate RefundedAt(start: Db, actions: seq<Action>, o: nat, k: nat) {
    && k < |actions| && actions[k].Refund? && actions[k].order == o
    && var db, now := Run(start, actions[..k]), Run(start, actions);
       && o < |db.orders| && db.orders[o].status == Paid && !PassInUse(db, o) && |db.orders[o].payments| == 1
       && var paid := db.orders[o].payments[0];
          && (paid.provider == Stripe ==> NamesPayment(paid.ref) && actions[k].stripe.Some?)
          && o < |now.orders| && now.orders[o].payments == [paid, Payment(paid.provider, paid.amount, Reversed,
               if paid.provider == Stripe then actions[k].stripe.GetOr("") else "")]
  }

  lemma RefundStepIs(db: Db, a: Action, o: nat)
    requires Consistency.Consistent(db) && o < |db.orders| && db.orders[o].status == Paid
    requires o < |Next(db, a).orders| && Next(db, a).orders[o].status == OrderStatus.Refunded
    ensures a.Refund? && a.order == o && !PassInUse(db, o) && |db.orders[o].payments| == 1
    ensures var paid := db.orders[o].payments[0];
            && (paid.provider == Stripe ==> NamesPayment(paid.ref) && a.stripe.Some?)
            && Next(db, a).orders[o].payments == [paid, Payment(paid.provider, paid.amount, Reversed,
                 if paid.provider == Stripe then a.stripe.GetOr("") else "")]
  {
    hide Consistency.Consistent, Next, Attempt, PassInUse, NamesPayment;
    OnlyRefundsRefund(db, a, o);
    PaidOnce(db, o);
    RefundAnswer(db, o, a.stripe);
    GoesThrough(db, o, a.stripe);
    RefundWrites(db, o, a.stripe, 0);
  }

  lemma PaidOnce(db: Db, o: nat)
    requires Consistency.Consistent(db) && o < |db.orders| && db.orders[o].status == Paid
    ensures |db.orders[o].payments| == 1 && FirstPaid(db.orders[o].payments, 0)
    ensures db.orders[o].payments[0].amount == db.orders[o].total
  {
    hide Consistency.Consistent;
    Consistency.OrderIsOk(db, o);
  }

  lemma GoesThrough(db: Db, o: nat, stripe: Option<string>)
    requires o < |db.orders| && |db.orders[o].payments| == 1 && FirstFailing(None, RefundChecks(db, o, stripe))
    ensures !PassInUse(db, o)
    ensures db.orders[o].payments[0].provider == Stripe ==>
              NamesPayment(db.orders[o].payments[0].ref) && stripe.Some?
  {
    hide PassInUse, NamesPayment;
    var checks := RefundChecks(db, o, stripe);
    assert !checks[0].0 && !checks[1].0;
  }

  lemma OnlyRefundsRefund(db: Db, a: Action, o: nat)
    requires o < |db.orders| && db.orders[o].status == Paid
    requires o < |Next(db, a).orders| && Next(db, a).orders[o].status == OrderStatus.Refunded
    ensures a.Refund? && a.order == o && Attempt(db, a).Ok?
  {
    if !a.Refund? && !a.Cancel? { OldOrdersStay(db, a); } else { OtherOrdersStay(db, a, o); }
    hide Next;
  }

  lemma OtherOrdersStay(db: Db, a: Action, o: nat)
    requires (a.Refund? || a.Cancel?) && o < |db.orders|
    ensures o < |Next(db, a).orders|
    ensures a.Cancel? && Next(db, a).orders[o] != db.orders[o] ==> Next(db, a).orders[o].status == Cancelled
    ensures a.Refund? && Next(db, a).orders[o] != db.orders[o] ==> a.order == o && Attempt(db, a).Ok?
  {
    hide VoidOrder, Filter, RestoredPasses, PassSpent, FirstSucceeded, SoldAPass, IsPaymentIntent, MapRows;
  }

  /** Over any run an order that Stripe was paid for is REFUNDED only by a refund that
      Stripe answered, and its books show that answer. */
  lemma {:induction false} EveryRefundReturnedTheMoney(start: Db, actions: seq<Action>, o: nat) returns (k: nat)
    requires Opening(start) && o < |Run(start, actions).orders|
    requires Run(start, actions).orders[o].status == OrderStatus.Refunded
    ensures RefundedAt(start, actions, o, k)
  {
    hide Opening, Consistency.Consistent, Run, Next, RefundedAt, PassInUse, NamesPayment;
    NothingSoldYet(start);
    var n := |actions| - 1;
    var init, a := actions[..n], actions[n];
    var db := Run(start, init);
    assert actions == init + [a];
    RunAppend(start, init, a);
    Consistency.AlwaysConsistent(start, init);
    if o >= |db.orders| {
      NewOrderIs(db, a);
    } else if db.orders[o].status == Paid {
      k := n;
      RefundStepIs(db, a, o);
      RefundedLast(start, init, a, o);
    } else {
      RunLast(db, a);
      History.ReversedIsFinal(db, o, None, [a]);
      k := EveryRefundReturnedTheMoney(start, init, o);
      RefundedBefore(start, init, a, o, k);
    }
  }

  lemma RefundedLast(start: Db, init: seq<Action>, a: Action, o: nat)
    requires var db := Run(start, init);
             && a.Refund? && a.order == o && o < |db.orders| && db.orders[o].status == Paid && !PassInUse(db, o)
             && |db.orders[o].payments| == 1 && o < |Next(db, a).orders|
             && var paid := db.orders[o].payments[0];
                && (paid.provider == Stripe ==> NamesPayment(paid.ref) && a.stripe.Some?)
                && Next(db, a).orders[o].payments == [paid, Payment(paid.provider, paid.amount, Reversed,
                     if paid.provider == Stripe then a.stripe.GetOr("") else "")]
    ensures RefundedAt(start, init + [a], o, |init|)
  {
    assert (init + [a])[..|init|] == init;
    RunAppend(start, init, a);
    hide Run, Next, PassInUse, NamesPayment;
  }

  lemma RefundedBefore(start: Db, init: seq<Action>, a: Action, o: nat, k: nat)
    requires RefundedAt(start, init, o, k)
    requires o < |Run(start, init + [a]).orders| && Run(start, init + [a]).orders[o] == Run(start, init).orders[o]
    ensures RefundedAt(start, init + [a], o, k)
  {
    hide Run, PassInUse, NamesPayment;
    assert (init + [a])[..k] == init[..k];
  }
}

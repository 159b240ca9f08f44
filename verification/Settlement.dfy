/** What the card paid against what the order records, across the time a hosted
    payment page is open: the session is made from the hold or product as it is then,
    the order from the hold or product as it is at the delivery. */
module Settlement {
  import opened Tables
  import opened Schema
  import opened System
  import opened Holds
  import opened Fulfilment
  import Hosted = Stripe
  import Carts
  import Promotions
  import Consistency
  import Charges
  import History
  import PromoCaps
  import StaleReads

  // --- tickets ----------------------------------------------------------

  lemma DeliverDescends(db: Db, checkout: string, what: Checkout, ref: string)
    ensures StaleReads.Descends(db, Next(db, Action.Deliver(checkout, what, ref)))
  {
    StaleReads.HereDescends(db, db);
    hide StaleReads.Descends, FulfillHold, FindHold, FindOrder;
    var after := Next(db, Action.Deliver(checkout, what, ref));
    if after != db {
      if what.HoldCheckout? {
        StaleReads.PaidDescends(db, FindHold(db.holds, what.hold).value, Provider.Stripe, ref, Some(checkout));
      } else {
        StaleReads.HereDescends(db, after);
      }
    }
  }

  /** What was once known of a hold stays so through any run of whole transactions. */
  lemma {:induction false} RunKnows(db: Db, later: seq<Action>, row: Hold)
    requires StaleReads.Known(db, row)
    ensures StaleReads.Known(Run(db, later), row)
  {
    hide StaleReads.Known, StaleReads.Descends, Next;
    if later != [] {
      var before, a := Run(db, later[..|later| - 1]), later[|later| - 1];
      RunKnows(db, later[..|later| - 1], row);
      if a.Deliver? {
        DeliverDescends(before, a.checkout, a.what, a.ref);
      } else {
        StaleReads.StepDescends(before, a);
      }
      StaleReads.KnownDescends(before, Next(before, a), row);
    }
  }

  /** The hold that a later payment finds has the cart the session was made from. */
  lemma FoundAgain(db: Db, later: seq<Action>, h: Hold, g: Hold)
    requires Consistency.Consistent(db) && h in db.holds && FindHold(Run(db, later).holds, h.id) == Some(g)
    ensures StaleReads.SameCart(g, h) && Carts.MoneyOk(h) && Carts.MoneyOk(g)
  {
    Charges.UniqueHold(db, h);
    StaleReads.ReadIsKnown(db, h.id) by { hide Consistency.Sound; }
    RunKnows(db, later, h);
    StaleReads.HeldMoney(db, h) by { hide Consistency.Sound; }
    History.RunContinues(db, later);
    Carts.FindHoldIn(Run(db, later).holds, h.id);
    StaleReads.HeldMoney(Run(db, later), g) by { hide Consistency.Sound; }
    hide Consistency.Consistent, Run;
  }

  /** A session is opened on a hold in one currency with minor units, not priced below zero. */
  predicate OpensOn(db: Db, h: Hold, percent: nat, fixed: int, s: Hosted.Session) {
    && h in db.holds && Hosted.OneCurrency(h, db.currency) && !Hosted.IsZeroDecimal(HoldCurrency(h, db.currency))
    && HoldTotal(h) >= 0 && Hosted.CheckoutSession(h, db.currency, percent, fixed, db.now) == Ok(s)
  }

  lemma OpenCharge(db: Db, h: Hold, percent: nat, fixed: int, s: Hosted.Session)
    requires OpensOn(db, h, percent, fixed, s) && Carts.MoneyOk(h)
    ensures Hosted.Charge(s) == Hosted.PerCent(s.currency) * GrandTotal(h) && !Hosted.IsZeroDecimal(s.currency)
    ensures s.currency == HoldCurrency(h, db.currency)
  {
    Hosted.SessionReconciles(h, db.currency, percent, fixed, db.now);
    Hosted.ToMinorIsExact(GrandTotal(h), s.currency);
    hide Hosted.IsZeroDecimal, Hosted.Charge, Hosted.ToMinor, Hosted.OneCurrency;
  }

  /** The order a delivery writes for the hold it finds. */
  function LastOrder(db: Db): Order
    requires |db.orders| > 0
  {
    db.orders[|db.orders| - 1]
  }

  /** The card was charged what the order records exactly when the code and gift on the
      hold at the delivery are worth what they were when the session was opened; the
      difference is theirs, to the minor unit. Nothing keeps them: the hold is not
      locked while the page is open, and the delivery looks at no amount. */
  lemma ChargeIsRecordedIff(db: Db, later: seq<Action>, h: Hold, g: Hold, percent: nat, fixed: int, s: Hosted.Session,
      pay: Action)
    requires Consistency.Consistent(db) && OpensOn(db, h, percent, fixed, s)
    requires FindHold(Run(db, later).holds, h.id) == Some(g) && pay.Deliver? && Charges.PaysNow(Run(db, later), pay, g)
    ensures var after := Next(Run(db, later), pay);
            && |after.orders| > 0
            && var recorded := Hosted.ToMinor(LastOrder(after).total, s.currency);
               && Hosted.Charge(s) - recorded
                  == Hosted.PerCent(s.currency) * ((Donation(h) - Discount(h)) - (Donation(g) - Discount(g)))
               && (Hosted.Charge(s) == recorded <==> Donation(h) - Discount(h) == Donation(g) - Discount(g))
               && (Hosted.Charge(s) == recorded <==> GrandTotal(h) == GrandTotal(g))
  {
    FoundAgain(db, later, h, g);
    OpenCharge(db, h, percent, fixed, s);
    Charges.OrderWritten(Run(db, later), g, pay);
    hide Consistency.Consistent, Run, Next, Charges.PaysNow, OpensOn, Hosted.Charge, FindHold, Hosted.IsZeroDecimal;
    Hosted.ToMinorIsExact(GrandTotal(g), s.currency);
    hide Hosted.ToMinor, Hosted.IsThreeDecimal;
    SameCartTotals(h, g);
    assert LastOrder(Next(Run(db, later), pay)).total == GrandTotal(g);
    var scale := Hosted.PerCent(s.currency);
    assert scale >= 1;
    hide Hosted.PerCent, GrandTotal, Donation, Discount, HoldTotal;
    Scaled(scale, GrandTotal(h), GrandTotal(g));
  }

  lemma SameCartTotals(h: Hold, g: Hold)
    requires StaleReads.SameCart(g, h) && Carts.MoneyOk(h) && Carts.MoneyOk(g) && HoldTotal(h) >= 0
    ensures GrandTotal(h) - GrandTotal(g) == (Donation(h) - Discount(h)) - (Donation(g) - Discount(g))
  {
    assert HoldTotal(g) == HoldTotal(h);
    hide HoldTotal;
  }

  lemma Scaled(scale: int, a: int, b: int)
    requires scale >= 1
    ensures scale * a - scale * b == scale * (a - b)
    ensures scale * a == scale * b <==> a == b
  {}

  /** So a hold that is left alone while the page is open is charged as it is recorded. */
  lemma LeftAloneIsChargedAsRecorded(db: Db, later: seq<Action>, h: Hold, percent: nat, fixed: int, s: Hosted.Session,
      pay: Action)
    requires Consistency.Consistent(db) && OpensOn(db, h, percent, fixed, s)
    requires Charges.LeftAlone(db, later, h) && pay.Deliver? && Charges.PaysNow(Run(db, later), pay, h)
    ensures var after := Next(Run(db, later), pay);
            |after.orders| > 0 && Hosted.Charge(s) == Hosted.ToMinor(LastOrder(after).total, s.currency)
  {
    Charges.RunSpares(db, later, h);
    History.RunContinues(db, later);
    Charges.UniqueHold(Run(db, later), h);
    hide Consistency.Consistent, Run, Next, Charges.LeftAlone, Charges.PaysNow, OpensOn, FindHold;
    ChargeIsRecordedIff(db, later, h, h, percent, fixed, s, pay);
  }

  /** What one ticket of the tier is discounted by. */
  function Saved(db: Db, tier: nat, code: string): int
    requires FindTier(db.book.tiers, tier).Some? && code in db.promos
  {
    Promotions.ComputeDiscount(db.promos[code], FindTier(db.book.tiers, tier).value.amount)
  }

  lemma OfferIsWorthIt(start: Db, perf: nat, tier: nat, code: string)
    requires Opening(start) && PromoCaps.OnOffer(start, perf, tier, code)
    ensures 0 <= Saved(start, tier, code) < FindTier(start.book.tiers, tier).value.amount
  {
    var t := FindTier(start.book.tiers, tier).value;
    Promotions.ValidatedDiscountLeavesACharge(start.promos[code], t.amount, t.currency, start.now);
    hide Opening, FindTier, Promotions.ComputeDiscount, Promotions.ValidateCode;
  }

  /** The page opened on the one hold of `shown` charged `extra` cents more than the one
      order of `end` records. */
  predicate PaidMore(shown: Db, end: Db, percent: nat, fixed: int, extra: int) {
    && |shown.holds| == 1 && |end.orders| == 1
    && Hosted.CheckoutSession(shown.holds[0], shown.currency, percent, fixed, shown.now).Ok?
    && var s := Hosted.CheckoutSession(shown.holds[0], shown.currency, percent, fixed, shown.now).value;
       Hosted.Charge(s) - Hosted.ToMinor(end.orders[0].total, s.currency) == Hosted.PerCent(s.currency) * extra
  }

  /** A page opened on a hold `h` alone, then paid when the hold has become `g`. */
  lemma EditedWhileOpen(shown: Db, apply: Action, coded: Db, h: Hold, g: Hold, percent: nat, fixed: int, pay: Action)
    requires Consistency.Consistent(shown) && shown.holds == [h] && h.cart.Ga? && h.cart.unit >= 0
        && Unexpired(h, shown.now)
    requires !Hosted.IsZeroDecimal(h.cart.currency) && Next(shown, apply) == coded && g.id == h.id
    requires coded.holds == [g] && coded.orders == [] && Unexpired(g, coded.now) && InventoryFailure(coded, g).None?
    requires pay.Deliver? && pay.what == HoldCheckout(g.id)
    ensures PaidMore(shown, Next(coded, pay), percent, fixed, (Donation(h) - Discount(h)) - (Donation(g) - Discount(g)))
  {
    OpensOnOne(shown, h, percent, fixed);
    PaysOne(coded, g, pay);
    RunOne(shown, apply);
    Charges.OrderWritten(coded, g, pay);
    hide Run, Next, FindHold, FindOrder, Consistency.Consistent, OpensOn, InventoryFailure;
    hide Charges.PaysNow, Hosted.CheckoutSession, Hosted.IsZeroDecimal, Hosted.Charge, Hosted.ToMinor;
    ChargeIsRecordedIff(shown, [apply], h, g, percent, fixed,
        Hosted.CheckoutSession(h, shown.currency, percent, fixed, shown.now).value, pay);
  }

  /** From any opening with a code on offer: one ticket is selected, its payment page
      opened, the code applied, and the page paid. The card paid the full price and
      the order records the reduced one, so that they differ by what the code saves. */
  lemma CodeAfterTheSessionIsNotCharged(start: Db, perf: nat, tier: nat, code: string, percent: nat, fixed: int,
      ref: string)
    requires Opening(start) && PromoCaps.OnOffer(start, perf, tier, code) && start.allocs[perf].capacity > 0
    requires !Hosted.IsZeroDecimal(FindTier(start.book.tiers, tier).value.currency)
    ensures var buyer, id := PromoCaps.Buyer(0), start.nextHold;
            var shown := Run(start, [SetGaHold(perf, buyer, tier, 1)]);
            var end := Next(Next(shown, ApplyPromo(buyer, id, code)), Action.Deliver("cs", HoldCheckout(id), ref));
            PaidMore(shown, end, percent, fixed, Saved(start, tier, code))
  {
    var g := PromoCaps.Bargain(start, perf, FindTier(start.book.tiers, tier).value, code, 0);
    Selected(start, perf, tier, code, g);
    PaidAfterCode(start, perf, tier, code, g, percent, fixed, Action.Deliver("cs", HoldCheckout(start.nextHold), ref));
    hide Run, Next, Opening, PromoCaps.OnOffer, FindTier, PromoCaps.Bargain, PaidMore, Saved;
    hide Hosted.IsZeroDecimal, Consistency.Consistent, PromoCaps.Buyer;
  }

  /** The offer's one hold without its code, and with it. */
  function Bare(start: Db, g: Hold): Db { start.(holds := [g.(promo := None)], nextHold := start.nextHold + 1) }

  function Coded(start: Db, g: Hold): Db { start.(holds := [g], nextHold := start.nextHold + 1) }

  lemma Selected(start: Db, perf: nat, tier: nat, code: string, g: Hold)
    requires Opening(start) && PromoCaps.OnOffer(start, perf, tier, code) && start.allocs[perf].capacity > 0
    requires g == PromoCaps.Bargain(start, perf, FindTier(start.book.tiers, tier).value, code, 0)
    ensures Run(start, [SetGaHold(perf, PromoCaps.Buyer(0), tier, 1)]) == Bare(start, g)
            && Consistency.Consistent(Bare(start, g))
  {
    PromoCaps.OpensEmpty(start);
    PromoCaps.SelectsOne(start, perf, tier, code, 0);
    RunOne(start, SetGaHold(perf, PromoCaps.Buyer(0), tier, 1));
    Consistency.AlwaysConsistent(start, [SetGaHold(perf, PromoCaps.Buyer(0), tier, 1)]);
    hide Run, Next, Opening, PromoCaps.OnOffer, FindTier, PromoCaps.Bargain, PromoCaps.Bargains, Consistency.Consistent;
    var none := PromoCaps.Bargains(start, perf, FindTier(start.book.tiers, tier).value, code, 0);
    assert none == [] && start.(holds := none, nextHold := start.nextHold + 0) == start;
  }

  lemma CodeApplied(start: Db, perf: nat, tier: nat, code: string, g: Hold)
    requires PromoCaps.OnOffer(start, perf, tier, code)
    requires g == PromoCaps.Bargain(start, perf, FindTier(start.book.tiers, tier).value, code, 0)
    ensures Next(Bare(start, g), ApplyPromo(PromoCaps.Buyer(0), start.nextHold, code)) == Coded(start, g)
  {
    PromoCaps.AppliesLast(start, perf, tier, code, 0);
    hide Next, PromoCaps.OnOffer, FindTier, PromoCaps.Bargain, PromoCaps.Bargains;
    var t := FindTier(start.book.tiers, tier).value;
    var none, one := PromoCaps.Bargains(start, perf, t, code, 0), PromoCaps.Bargains(start, perf, t, code, 1);
    assert none + [g.(promo := None)] == [g.(promo := None)];
    assert one == [g];
  }

  lemma PaidAfterCode(start: Db, perf: nat, tier: nat, code: string, g: Hold, percent: nat, fixed: int, pay: Action)
    requires Opening(start) && PromoCaps.OnOffer(start, perf, tier, code) && start.allocs[perf].capacity > 0
    requires g == PromoCaps.Bargain(start, perf, FindTier(start.book.tiers, tier).value, code, 0)
    requires !Hosted.IsZeroDecimal(FindTier(start.book.tiers, tier).value.currency)
    requires pay.Deliver? && pay.what == HoldCheckout(start.nextHold)
    ensures var apply := ApplyPromo(PromoCaps.Buyer(0), start.nextHold, code);
            PaidMore(Bare(start, g), Next(Next(Bare(start, g), apply), pay), percent, fixed, Saved(start, tier, code))
  {
    Selected(start, perf, tier, code, g);
    CodeApplied(start, perf, tier, code, g);
    OfferedHold(start, perf, tier, code, g);
    hide Run, Next, Opening, FindTier, Consistency.Consistent, PromoCaps.OnOffer, PromoCaps.Bargain, PromoCaps.Buyer;
    hide Saved, PaidMore, InventoryFailure, Hosted.IsZeroDecimal;
    EditedWhileOpen(Bare(start, g), ApplyPromo(PromoCaps.Buyer(0), start.nextHold, code), Coded(start, g),
                    g.(promo := None), g, percent, fixed, pay);
  }

  lemma OfferedHold(start: Db, perf: nat, tier: nat, code: string, g: Hold)
    requires Opening(start) && PromoCaps.OnOffer(start, perf, tier, code) && start.allocs[perf].capacity > 0
    requires g == PromoCaps.Bargain(start, perf, FindTier(start.book.tiers, tier).value, code, 0)
    ensures g.id == start.nextHold && g.cart.Ga? && g.cart.unit >= 0 && Unexpired(g, start.now)
    ensures g.cart.currency == FindTier(start.book.tiers, tier).value.currency
    ensures InventoryFailure(Coded(start, g), g).None? && start.orders == []
    ensures Donation(g) == 0 && Discount(g) == Saved(start, tier, code)
  {
    OfferIsWorthIt(start, perf, tier, code);
    PromoCaps.OpensEmpty(start);
    hide Opening, FindTier, Promotions.ComputeDiscount, Promotions.ValidateCode;
  }

  lemma RunOne(db: Db, a: Action)
    ensures Run(db, [a]) == Next(db, a)
  {
    assert [a][..0] == [];
    hide Next;
  }

  lemma OpensOnOne(db: Db, h: Hold, percent: nat, fixed: int)
    requires db.holds == [h] && h.cart.Ga? && h.cart.unit >= 0 && Unexpired(h, db.now)
        && !Hosted.IsZeroDecimal(h.cart.currency)
    ensures Hosted.CheckoutSession(h, db.currency, percent, fixed, db.now).Ok?
    ensures OpensOn(db, h, percent, fixed, Hosted.CheckoutSession(h, db.currency, percent, fixed, db.now).value)
  {
    hide Hosted.IsZeroDecimal, Hosted.ToMinor, Hosted.ApplicationFee;
    assert h in db.holds;
  }

  lemma PaysOne(db: Db, g: Hold, pay: Action)
    requires db.holds == [g] && db.orders == [] && Unexpired(g, db.now) && InventoryFailure(db, g).None?
    requires pay.Deliver? && pay.what == HoldCheckout(g.id)
    ensures FindHold(db.holds, g.id) == Some(g) && Charges.PaysNow(db, pay, g)
  {
    assert FindHold([g], g.id) == Some(g);
    hide InventoryFailure, Mint, SaleOrder, FindHold;
  }

  // --- passes and gifts -------------------------------------------------

  /** The one-line session of a pass or a gift, in the organization's currency. */
  function PlainSession(cents: int, org: string, percent: int, fixed: int): Hosted.Session {
    Hosted.Session(org, [Hosted.Line(1, cents, org)], None, Hosted.ApplicationFee(cents, percent, fixed, org))
  }

  lemma PlainCharge(cents: int, org: string, percent: int, fixed: int)
    ensures Hosted.Charge(PlainSession(cents, org, percent, fixed)) == Hosted.ToMinor(cents, org)
  {
    SumConst([Hosted.Line(1, cents, org)], Hosted.LineMinor(), Hosted.ToMinor(cents, org));
    hide Hosted.ToMinor, Hosted.ApplicationFee;
  }

  /** The order of a pass is for its price at the delivery, the charge for its price
      when the page was opened: they agree exactly when the price was not edited. */
  lemma PassChargeIsRecordedIff(db: Db, later: seq<Action>, product: nat, percent: int, fixed: int, sale: Action)
    requires product in db.products && !Hosted.IsZeroDecimal(db.currency)
    requires sale.Deliver? && Charges.Sells(Run(db, later), sale, product) && Attempt(Run(db, later), sale).Ok?
    ensures product in Run(db, later).products
    ensures var s := PlainSession(db.products[product].price, db.currency, percent, fixed);
            var after := Next(Run(db, later), sale);
            && |after.orders| > 0
            && (Hosted.Charge(s) == Hosted.ToMinor(LastOrder(after).total, db.currency)
                <==> Run(db, later).products[product].price == db.products[product].price)
  {
    var atSale := Run(db, later);
    PassOrder(atSale, product, sale);
    hide Run, Next, Charges.Sells, Attempt;
    var paid, recorded := db.products[product].price, atSale.products[product].price;
    PlainCharge(paid, db.currency, percent, fixed);
    Hosted.ToMinorIsExact(paid, db.currency);
    Hosted.ToMinorIsExact(recorded, db.currency);
    hide Hosted.Charge, Hosted.ToMinor, Hosted.IsZeroDecimal;
  }

  lemma PassOrder(db: Db, product: nat, sale: Action)
    requires sale.Deliver? && Charges.Sells(db, sale, product) && Attempt(db, sale).Ok?
    ensures product in db.products && |Next(db, sale).orders| > 0
            && LastOrder(Next(db, sale)).total == db.products[product].price
  {
    hide FindOrder;
  }

  /** A gift's amount travels with its session, so it is always recorded as it was paid. */
  lemma GiftIsChargedAsRecorded(db: Db, checkout: string, cents: int, ref: string, percent: int, fixed: int)
    requires FindOrder(db.orders, checkout).None?
    ensures var after := Next(db, Action.Deliver(checkout, GiftCheckout(Some(cents)), ref));
            && |after.orders| > 0
            && Hosted.Charge(PlainSession(cents, db.currency, percent, fixed))
                 == Hosted.ToMinor(LastOrder(after).total, db.currency)
  {
    PlainCharge(cents, db.currency, percent, fixed);
    hide FindOrder, Hosted.Charge, Hosted.ToMinor;
  }
}

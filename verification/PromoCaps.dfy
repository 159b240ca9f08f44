/** Promo caps: what a code's counter counts, when a payment takes it past its cap,
    and by how many it can end there. */
module PromoCaps {
  import opened Tables
  import opened Schema
  import opened System
  import opened Holds
  import opened Fulfilment
  import opened Ledger
  import Passes
  import Pricing
  import Promotions
  import Scanning
  import Inventory
  import Carts
  import Consistency

  // --- promo caps -------------------------------------------------------

  /** Unexpired holds that carry a code. */
  function Carrying(code: string, now: int): Hold -> int {
    (h: Hold) => if Unexpired(h, now) && h.promo.Some? && h.promo.value.code == code then 1 else 0
  }

  /** Redemptions made, plus those that holds can still make. */
  function Potential(db: Db, code: string): int
    requires code in db.promos
  {
    db.promos[code].count + Sum(db.holds, Carrying(code, db.now))
  }

  predicate AtCap(db: Db, code: string) {
    code in db.promos && db.promos[code].cap.Some? && db.promos[code].count >= db.promos[code].cap.value
  }

  /** An edit of the code that lifts its cap. */
  predicate RaisesCap(db: Db, a: Action, code: string) {
    a.SavePromo? && a.code == code && code in db.promos && db.promos[code].cap.Some?
    && (a.promo.cap.None? || a.promo.cap.value > db.promos[code].cap.value)
  }

  lemma ReplacedCarriers(db: Db, perf: nat, session: string, cart: Cart, code: string)
    requires code in db.promos
    ensures Potential(Replaced(db, perf, session, cart), code) <= Potential(db, code)
  {
    var kept := Cleared(db.holds, perf, session);
    SumFilterLeq(db.holds, NotOf(perf, session), Carrying(code, db.now));
    SumAppend(kept, Replaced(db, perf, session, cart).holds[|kept|], Carrying(code, db.now));
  }

  lemma DeletedCarriers(db: Db, keep: Hold -> bool, code: string)
    requires code in db.promos
    ensures Potential(db.(holds := Filter(db.holds, keep)), code) <= Potential(db, code)
  {
    SumFilterLeq(db.holds, keep, Carrying(code, db.now));
  }

  lemma SelectionPotential(db: Db, a: Action, code: string)
    requires Consistency.IsCartAction(a) && code in db.promos
    requires a.SetGaHold? || a.SetReservedHold? || a.Release? || a.ReleaseById? || a.Sweep?
    ensures Next(db, a).promos == db.promos && Potential(Next(db, a), code) <= Potential(db, code)
  {
    hide Sum, Filter, Potential, Taken, SeatsOnChart, ActiveGaHeld;
    match a
    case SetGaHold(perf, session, tier, quantity) =>
      DeletedCarriers(db, NotOf(perf, session), code);
      if quantity > 0 && Attempt(db, a).Ok? {
        var t := FindTier(db.book.tiers, tier).value;
        ReplacedCarriers(db, perf, session, Ga(quantity, t.amount, t.currency), code);
      }
    case SetReservedHold(perf, session, ids) =>
      DeletedCarriers(db, NotOf(perf, session), code);
      if ids != {} && Attempt(db, a).Ok? { ReplacedCarriers(db, perf, session, Carts.ReservedCart(db, perf, ids), code);
          }
    case Release(perf, session) => DeletedCarriers(db, NotOf(perf, session), code);
    case ReleaseById(session, id) => DeletedCarriers(db, NotId(id, session), code);
    case Sweep => DeletedCarriers(db, UnexpiredAt(db.now), code);
  }

  /** A code at its cap is refused, so that edits of a hold only ever drop it. */
  lemma CapRefuses(db: Db, session: string, id: nat, code: string)
    requires AtCap(db, code)
    ensures Holds.ApplyPromo(db, session, id, code).Err?
  {
    hide CartOf, HoldTotal, HoldCurrency, Promotions.ComputeDiscount;
  }

  lemma EditingPotential(db: Db, a: Action, code: string)
    requires AtCap(db, code) && code in db.promos
    requires (a.ApplyPromo? || a.RemovePromo? || a.SetDonation? || a.ClearDonation?)
    ensures Next(db, a).promos == db.promos && Potential(Next(db, a), code) <= Potential(db, code)
  {
    hide Promotions.ValidateCode, Promotions.ComputeDiscount, HoldTotal, HoldCurrency, CartOf, FindHold, Potential;
    hide AtCap;
    if Next(db, a) != db {
      if a.ApplyPromo? {
        if a.code == code { CapRefuses(db, a.session, a.hold, code); }
        CarriersEdited(db, WithPromo(a.hold, Some(AppliedPromo(a.code,
          Promotions.ComputeDiscount(db.promos[a.code], HoldTotal(CartOf(db, a.session, a.hold).value))))), code);
      } else if a.RemovePromo? {
        CarriersEdited(db, WithPromo(a.hold, None), code);
      } else {
        CarriersEdited(db, WithDonation(a.hold, if a.SetDonation? then Some(a.amount) else None), code);
      }
    }
  }

  lemma CarriersEdited(db: Db, edit: Hold -> Hold, code: string)
    requires code in db.promos
    requires forall i :: 0 <= i < |db.holds| ==>
        Carrying(code, db.now)(edit(db.holds[i])) <= Carrying(code, db.now)(db.holds[i])
    ensures Potential(db.(holds := MapRows(db.holds, edit)), code) <= Potential(db, code)
  {
    SumLeq(MapRows(db.holds, edit), Carrying(code, db.now), db.holds, Carrying(code, db.now));
  }

  lemma LaterCarriers(db: Db, now: int, code: string)
    requires code in db.promos && now >= db.now
    ensures Potential(db.(now := now), code) <= Potential(db, code)
  {
    SumLeq(db.holds, Carrying(code, now), db.holds, Carrying(code, db.now));
  }

  lemma PaidPotential(db: Db, h: Hold, provider: Provider, ref: string, checkout: Option<string>, code: string)
    requires h in db.holds && code in db.promos && FulfillHold(db, h, provider, ref, checkout).Ok?
    requires h.promo.Some? ==> h.promo.value.code in db.promos
    ensures var after := FulfillHold(db, h, provider, ref, checkout).value;
            && code in after.promos && after.promos[code].cap == db.promos[code].cap
            && after.promos[code].count >= db.promos[code].count && Potential(after, code) <= Potential(db, code)
  {
    SumDelete(db.holds, NotRow(h.id), Carrying(code, db.now), h);
    hide Sum, Filter, InventoryFailure, NewTickets, SaleOrder;
  }

  ghost predicate CapSafe(db: Db, after: Db, code: string)
    requires code in db.promos
  {
    && code in after.promos && after.promos[code].cap == db.promos[code].cap
    && after.promos[code].count >= db.promos[code].count && Potential(after, code) <= Potential(db, code)
  }

  lemma TestCheckoutPotential(db: Db, id: nat, ref: string, code: string)
    requires Consistency.Sound(db) && code in db.promos
    ensures CapSafe(db, Next(db, TestCheckout(id, ref)), code)
  {
    Carts.FindHoldIn(db.holds, id);
    HeldCodes(db);
    hide Consistency.Sound;
    if FulfillById(db, id, ref).Ok? {
      PaidPotential(db, FindHold(db.holds, id).value, Test, ref, None, code);
    }
    hide FulfillHold, Potential, FindHold;
  }

  /** A delivery pays for its hold, or leaves codes and holds alone. */
  lemma DeliveredIs(db: Db, checkout: string, what: Checkout, ref: string)
    ensures var after := Next(db, Action.Deliver(checkout, what, ref));
            || (after.promos == db.promos && after.holds == db.holds && after.now == db.now)
            || (&& what.HoldCheckout? && FindHold(db.holds, what.hold).Some?
                && FulfillHold(db, FindHold(db.holds, what.hold).value, Stripe, ref, Some(checkout)) == Ok(after))
  {
    hide FulfillHold, FindHold, FindOrder;
  }

  lemma DeliverPotential(db: Db, checkout: string, what: Checkout, ref: string, code: string)
    requires Consistency.Sound(db) && code in db.promos
    ensures CapSafe(db, Next(db, Action.Deliver(checkout, what, ref)), code)
  {
    HeldCodes(db);
    DeliveredIs(db, checkout, what, ref);
    hide Consistency.Sound, FulfillHold, Next;
    if what.HoldCheckout? && FindHold(db.holds, what.hold).Some? {
      Carts.FindHoldIn(db.holds, what.hold);
      var h := FindHold(db.holds, what.hold).value;
      if FulfillHold(db, h, Stripe, ref, Some(checkout)).Ok? {
        PaidPotential(db, h, Stripe, ref, Some(checkout), code);
      }
    }
    hide FindHold, Sum;
  }

  lemma UsePassPotential(db: Db, id: nat, pass: nat, code: string)
    requires code in db.promos
    ensures CapSafe(db, Next(db, UsePass(id, pass)), code)
  {
    Carts.FindHoldIn(db.holds, id);
    if FindHold(db.holds, id).Some? {
      SumFilterLeq(db.holds, NotRow(id), Carrying(code, db.now));
    }
    hide Sum, Filter, RedemptionFailure, NewTickets, NewRedemptions, RedemptionOrder, TakeFrom, Spent;
  }

  lemma HeldCodes(db: Db)
    requires Consistency.Sound(db)
    ensures forall h :: h in db.holds && h.promo.Some? ==> h.promo.value.code in db.promos
  {
    hide Carts.CartTablesOk, Inventory.InventoryOk, Passes.PassesOk;
  }

  lemma DeskPotential(db: Db, a: Action, code: string)
    requires AtCap(db, code) && !RaisesCap(db, a, code)
    requires !Consistency.IsCartAction(a) && !a.TestCheckout? && !a.Deliver? && !a.UsePass?
    ensures AtCap(Next(db, a), code) && Potential(Next(db, a), code) <= Potential(db, code)
  {
    hide Sum, Filter, Reverse, Scanning.Verdict, Pricing.VenueOk, FirstSucceeded, PassSpent;
    if a.Tick? { LaterCarriers(db, db.now + a.seconds, code); }
    if a.Refund? || a.Cancel? { ReversalIsNoSale(db, a); }
  }

  lemma ReversalIsNoSale(db: Db, a: Action)
    requires a.Refund? || a.Cancel?
    ensures Next(db, a).promos == db.promos && Next(db, a).holds == db.holds && Next(db, a).now == db.now
  {
    hide Sum, Filter, Voided, RestoredPasses, FirstSucceeded, PassSpent;
  }

  /** Once a code is at its cap, no step that leaves the cap alone lets more of its
      redemptions happen than were possible before. */
  lemma PotentialNeverGrows(db: Db, a: Action, code: string)
    requires Consistency.Sound(db) && AtCap(db, code) && !RaisesCap(db, a, code)
    ensures AtCap(Next(db, a), code) && Potential(Next(db, a), code) <= Potential(db, code)
  {
    hide Consistency.Sound, Next, Potential;
    match a
    case TestCheckout(id, ref) => TestCheckoutPotential(db, id, ref, code);
    case Deliver(checkout, what, ref) => DeliverPotential(db, checkout, what, ref, code);
    case UsePass(id, pass) => UsePassPotential(db, id, pass, code);
    case _ =>
      if a.ApplyPromo? || a.RemovePromo? || a.SetDonation? || a.ClearDonation? {
        EditingPotential(db, a, code);
      } else if Consistency.IsCartAction(a) {
        SelectionPotential(db, a, code);
      } else {
        DeskPotential(db, a, code);
      }
  }

  /** So in any run from there the counter ends at most at what it was plus the
      unexpired holds that carried the code at that moment. */
  lemma {:induction false} OvershootIsBounded(db: Db, actions: seq<Action>, code: string)
    requires Consistency.Sound(db) && AtCap(db, code)
    requires forall k :: 0 <= k < |actions| ==> !RaisesCap(Run(db, actions[..k]), actions[k], code)
    ensures Consistency.Sound(Run(db, actions)) && AtCap(Run(db, actions), code)
    ensures Potential(Run(db, actions), code) <= Potential(db, code)
    ensures Run(db, actions).promos[code].count <= db.promos[code].count + Sum(db.holds, Carrying(code, db.now))
  {
    hide Consistency.Sound, RaisesCap;
    if actions != [] {
      var n := |actions| - 1;
      var init := actions[..n];
      forall k | 0 <= k < n ensures !RaisesCap(Run(db, init[..k]), init[k], code) {
        assert init[..k] == actions[..k];
      }
      OvershootIsBounded(db, init, code);
      Consistency.StepKeepsSound(Run(db, init), actions[n]);
      PotentialNeverGrows(Run(db, init), actions[n], code);
      hide Next;
    }
    SumNonNegative(Run(db, actions).holds, Carrying(code, Run(db, actions).now));
  }

  /** Over any run a code's counter is the number of orders paid with it. */
  lemma CounterIsOrders(start: Db, actions: seq<Action>, code: string)
    requires Opening(start) && code in Run(start, actions).promos
    ensures Run(start, actions).promos[code].count == Sum(Run(start, actions).orders, UsedCode(code))
  {
    Consistency.AlwaysConsistent(start, actions);
    hide Carts.CartTablesOk, Inventory.InventoryOk, Passes.PassesOk;
  }

  // --- going past the cap -----------------------------------------------

  /** A payment takes a code's counter past its cap exactly when the counter is at
      the cap and the paid hold carries the code: fulfilment does not ask again. */
  lemma PaymentPassesCapIff(db: Db, h: Hold, provider: Provider, ref: string, checkout: Option<string>, code: string)
    requires FulfillHold(db, h, provider, ref, checkout).Ok? && code in db.promos && db.promos[code].cap.Some?
    requires db.promos[code].count <= db.promos[code].cap.value
    ensures var after := FulfillHold(db, h, provider, ref, checkout).value.promos;
            && code in after && after[code].cap == db.promos[code].cap
            && (after[code].count > after[code].cap.value <==>
                  db.promos[code].count == db.promos[code].cap.value && PromoText(h) == Some(code))
  {
    hide InventoryFailure, Filter, NewTickets, SaleOrder, TakeFrom;
  }

  /** The k-th of any number of different buyers. */
  function Buyer(k: nat): (name: string)
    ensures |name| == k
  {
    seq(k, _ => 'b')
  }

  /** One ticket of a tier with a code on it. */
  function Bargain(start: Db, perf: nat, t: PriceTier, code: string, k: nat): Hold
    requires code in start.promos
  {
    Hold(start.nextHold + k, perf, Buyer(k), start.now + HOLD_SECONDS, Ga(1, t.amount, t.currency),
         Some(AppliedPromo(code, Promotions.ComputeDiscount(start.promos[code], t.amount))), None)
  }

  function Bargains(start: Db, perf: nat, t: PriceTier, code: string, k: nat): (holds: seq<Hold>)
    requires code in start.promos
    ensures |holds| == k && forall i :: 0 <= i < k ==> holds[i] == Bargain(start, perf, t, code, i)
  {
    seq(k, i requires 0 <= i < k => Bargain(start, perf, t, code, i))
  }

  /** Buyer after buyer selects one ticket and applies the code. */
  function Filling(start: Db, perf: nat, tier: nat, code: string, k: nat): seq<Action> {
    if k == 0 then []
    else Filling(start, perf, tier, code, k - 1)
         + [Action.SetGaHold(perf, Buyer(k - 1), tier, 1)]
             + [Action.ApplyPromo(Buyer(k - 1), start.nextHold + k - 1, code)]
  }

  /** Then they pay, the last one first. */
  function Settling(start: Db, m: nat, j: nat, ref: string): seq<Action>
    requires j <= m
  {
    if j == 0 then [] else Settling(start, m, j - 1, ref) + [TestCheckout(start.nextHold + m - j, ref)]
  }

  /** A code on sale at a performance with room: it validates for one ticket. */
  predicate OnOffer(db: Db, perf: nat, tier: nat, code: string) {
    && perf in db.perfs && perf in db.allocs && FindTier(db.book.tiers, tier).Some? && code in db.promos
    && var t := FindTier(db.book.tiers, tier).value;
       Promotions.ValidateCode(db.promos[code], t.amount, t.currency, db.now) == None
  }

  lemma SelectsOne(start: Db, perf: nat, tier: nat, code: string, k: nat)
    requires Opening(start) && OnOffer(start, perf, tier, code) && k < start.allocs[perf].capacity
    ensures var t := FindTier(start.book.tiers, tier).value; var holds := Bargains(start, perf, t, code, k);
            var bare := Bargain(start, perf, t, code, k).(promo := None);
            Next(start.(holds := holds, nextHold := start.nextHold + k), Action.SetGaHold(perf, Buyer(k), tier, 1))
            == start.(holds := holds + [bare], nextHold := start.nextHold + k + 1)
  {
    var t := FindTier(start.book.tiers, tier).value;
    var holds := Bargains(start, perf, t, code, k);
    forall i | 0 <= i < |holds| ensures holds[i].session != Buyer(k) { assert holds[i].session == Buyer(i); }
    SumConst(holds, GaHeld(perf, start.now, Some(Buyer(k))), 1);
    FilterKeepsAll(holds, NotOf(perf, Buyer(k)));
    hide Opening, Sum, Filter, FindTier, Promotions.ValidateCode, Promotions.ComputeDiscount;
    assert start.allocs[perf].sold == 0;
  }

  lemma AppliesLast(start: Db, perf: nat, tier: nat, code: string, k: nat)
    requires OnOffer(start, perf, tier, code)
    ensures var t := FindTier(start.book.tiers, tier).value; var holds := Bargains(start, perf, t, code, k);
            var bare := Bargain(start, perf, t, code, k).(promo := None);
            Next(start.(holds := holds + [bare], nextHold := start.nextHold + k + 1),
                Action.ApplyPromo(Buyer(k), start.nextHold + k, code))
            == start.(holds := Bargains(start, perf, t, code, k + 1), nextHold := start.nextHold + k + 1)
  {
    var t, id := FindTier(start.book.tiers, tier).value, start.nextHold + k;
    var holds := Bargains(start, perf, t, code, k);
    var bare := Bargain(start, perf, t, code, k).(promo := None);
    var applied := Some(AppliedPromo(code, Promotions.ComputeDiscount(start.promos[code], t.amount)));
    assert FindHold(holds + [bare], id) == Some(bare);
    assert MapRows(holds + [bare], WithPromo(id, applied)) == Bargains(start, perf, t, code, k + 1);
    hide FindHold, FindTier, Promotions.ValidateCode, Promotions.ComputeDiscount;
  }

  lemma FillsOneMore(start: Db, perf: nat, tier: nat, code: string, k: nat)
    requires Opening(start) && OnOffer(start, perf, tier, code) && k < start.allocs[perf].capacity
    ensures var t := FindTier(start.book.tiers, tier).value;
            var filled := start.(holds := Bargains(start, perf, t, code, k), nextHold := start.nextHold + k);
            Next(Next(filled, Action.SetGaHold(perf, Buyer(k), tier, 1)),
                Action.ApplyPromo(Buyer(k), start.nextHold + k, code))
            == start.(holds := Bargains(start, perf, t, code, k + 1), nextHold := start.nextHold + k + 1)
  {
    SelectsOne(start, perf, tier, code, k);
    AppliesLast(start, perf, tier, code, k);
    hide Opening, Next, FindTier, Bargains, Bargain, Promotions.ValidateCode;
  }

  lemma RunTwo(start: Db, init: seq<Action>, a: Action, b: Action)
    ensures Run(start, init + [a] + [b]) == Next(Next(Run(start, init), a), b)
  {
    RunAppend(start, init, a);
    RunAppend(start, init + [a], b);
  }

  lemma {:induction false} Filled(start: Db, perf: nat, tier: nat, code: string, k: nat)
    requires Opening(start) && OnOffer(start, perf, tier, code) && k <= start.allocs[perf].capacity
    ensures Run(start, Filling(start, perf, tier, code, k)) ==
            start.(holds := Bargains(start, perf, FindTier(start.book.tiers, tier).value, code, k),
                nextHold := start.nextHold + k)
  {
    hide Opening, Next, FindTier, Promotions.ValidateCode, Bargain;
    if k == 0 {
      assert start.holds == [] by { OpensEmpty(start); }
      assert Bargains(start, perf, FindTier(start.book.tiers, tier).value, code, 0) == [];
    } else {
      hide Run, Bargains;
      Filled(start, perf, tier, code, k - 1);
      FillsOneMore(start, perf, tier, code, k - 1);
      RunTwo(start, Filling(start, perf, tier, code, k - 1),
             Action.SetGaHold(perf, Buyer(k - 1), tier, 1),
                 Action.ApplyPromo(Buyer(k - 1), start.nextHold + k - 1, code));
    }
  }

  lemma OpensEmpty(db: Db)
    requires Opening(db)
    ensures db.holds == [] && db.orders == [] && db.tickets == []
    ensures forall p :: p in db.allocs ==> db.allocs[p].sold == 0
    ensures forall c :: c in db.promos ==> db.promos[c].count == 0
  {
    hide Pricing.VenueOk;
  }

  lemma LastGone(holds: seq<Hold>, last: Hold)
    requires forall i :: 0 <= i < |holds| ==> holds[i].id != last.id
    ensures Filter(holds + [last], NotRow(last.id)) == holds
  {
    FilterConcat(holds, [last], NotRow(last.id));
    FilterKeepsAll(holds, NotRow(last.id));
  }

  /** While the buyers pay: the first of them still hold, and the others have paid. */
  ghost predicate HalfPaid(start: Db, perf: nat, t: PriceTier, code: string, m: nat, j: nat, db: Db)
    requires code in start.promos && perf in start.allocs && j <= m
  {
    && db.holds == Bargains(start, perf, t, code, m - j) && db.now == start.now
    && perf in db.allocs && db.allocs[perf].sold == j && db.allocs[perf].capacity == start.allocs[perf].capacity
    && code in db.promos && db.promos[code].cap == start.promos[code].cap && db.promos[code].count == j
  }

  lemma PaysLast(start: Db, perf: nat, t: PriceTier, code: string, m: nat, j: nat, db: Db, ref: string)
    requires code in start.promos && perf in start.allocs && j < m <= start.allocs[perf].capacity
    requires HalfPaid(start, perf, t, code, m, j, db)
    ensures HalfPaid(start, perf, t, code, m, j + 1, Next(db, TestCheckout(start.nextHold + m - (j + 1), ref)))
  {
    var left, last := Bargains(start, perf, t, code, m - j - 1), Bargain(start, perf, t, code, m - j - 1);
    assert db.holds == left + [last];
    assert FindHold(db.holds, last.id) == Some(last);
    LastGone(left, last);
    hide Filter, FindHold, SaleOrder, Promotions.ComputeDiscount, Bargains;
  }

  lemma NobodyPaid(start: Db, perf: nat, t: PriceTier, code: string, m: nat)
    requires Opening(start) && code in start.promos && perf in start.allocs
    ensures HalfPaid(start, perf, t, code, m, 0,
            start.(holds := Bargains(start, perf, t, code, m), nextHold := start.nextHold + m))
  {
    OpensEmpty(start);
    hide Opening, Bargains;
  }

  lemma {:induction false} Settled(start: Db, perf: nat, tier: nat, code: string, m: nat, j: nat, ref: string)
    requires Opening(start) && OnOffer(start, perf, tier, code) && j <= m <= start.allocs[perf].capacity
    ensures HalfPaid(start, perf, FindTier(start.book.tiers, tier).value, code, m, j,
                     Run(start, Filling(start, perf, tier, code, m) + Settling(start, m, j, ref)))
  {
    hide Run, Opening, FindTier, HalfPaid, Next, Bargains, Promotions.ValidateCode, Filling;
    var filling, t := Filling(start, perf, tier, code, m), FindTier(start.book.tiers, tier).value;
    if j == 0 {
      Filled(start, perf, tier, code, m);
      NobodyPaid(start, perf, t, code, m);
      assert filling + [] == filling;
    } else {
      Settled(start, perf, tier, code, m, j - 1, ref);
      var pay, init := TestCheckout(start.nextHold + m - j, ref), filling + Settling(start, m, j - 1, ref);
      assert filling + Settling(start, m, j, ref) == init + [pay];
      RunAppend(start, init, pay);
      PaysLast(start, perf, t, code, m, j - 1, Run(start, init), ref);
    }
  }

  /** A cap can be overshot by any number: from any opening where a capped code is on
      offer at a performance with room, there is a run after which the code was used
      `n` times more than its cap, all by buyers who applied it while it was unused. */
  lemma CapOvershotByAny(start: Db, perf: nat, tier: nat, code: string, n: nat, ref: string)
    requires Opening(start) && OnOffer(start, perf, tier, code) && start.promos[code].cap.Some?
    requires start.promos[code].cap.value + n <= start.allocs[perf].capacity
    ensures var m := start.promos[code].cap.value + n;
            var end := Run(start, Filling(start, perf, tier, code, m) + Settling(start, m, m, ref));
            code in end.promos && end.promos[code].cap == start.promos[code].cap
                && end.promos[code].count == end.promos[code].cap.value + n
  {
    var m := start.promos[code].cap.value + n;
    Settled(start, perf, tier, code, m, m, ref);
    hide Run, Opening, FindTier;
  }
}

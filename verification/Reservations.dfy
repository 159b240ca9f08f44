/** What buyers can rely on about seats and general admission, over every run. */
module Reservations {
  import opened Tables
  import opened Schema
  import opened System
  import opened Holds
  import opened Fulfilment
  import Pricing
  import Inventory
  import Carts
  import Consistency
  import Ledger
  import Passes

  /** A payment for the hold goes through, whoever takes it and however it arrives. */
  ghost predicate Payable(db: Db, h: Hold) {
    && (forall provider: Provider, ref: string, checkout: Option<string> ::
          FulfillHold(db, h, provider, ref, checkout).Ok?)
    && (forall ref: string :: Attempt(db, TestCheckout(h.id, ref)).Ok?)
    && (forall checkout: string, ref: string :: Attempt(db, Action.Deliver(checkout, HoldCheckout(h.id), ref)).Ok?)
  }

  lemma PayableIff(db: Db, h: Hold)
    requires FindHold(db.holds, h.id) == Some(h)
    ensures Payable(db, h) <==> Unexpired(h, db.now) && InventoryFailure(db, h).None?
  {
    hide InventoryFailure, Mint, SaleOrder, FindHold, FindOrder;
    if Payable(db, h) { assert FulfillHold(db, h, Test, "", None).Ok?; }
  }

  // --- reserved seats ---------------------------------------------------

  /** At most one live ticket per seat and performance; unexpired holds that share
      a seat are one session's, for different performances; a held seat is free;
      so an unexpired reserved hold can always be fulfilled. */
  lemma ReservedSeatsAreSafe(start: Db, actions: seq<Action>)
    requires Opening(start)
    ensures var db := Run(start, actions);
            && (forall i, j ::
                  && 0 <= i < j < |db.tickets| && db.tickets[i].seat.Some?
                  && Live(db.tickets[i]) && Live(db.tickets[j]) ==>
                  !(db.tickets[i].perf == db.tickets[j].perf && db.tickets[i].seat == db.tickets[j].seat))
            && (forall a, b, s: nat ::
                  a in db.holds && b in db.holds && a != b && Unexpired(a, db.now) && Unexpired(b, db.now)
                  && s in SeatIds(a.cart) && s in SeatIds(b.cart) ==>
                  a.session == b.session && a.perf != b.perf)
            && (forall h, s: nat :: h in db.holds && Unexpired(h, db.now) && s in SeatIds(h.cart) ==>
                  !Ticketed(db.tickets, h.perf, s))
            && (forall h :: h in db.holds && Unexpired(h, db.now) && h.cart.Reserved? ==> Payable(db, h))
  {
    var db := Run(start, actions);
    Consistency.AlwaysConsistent(start, actions);
    forall a, b, s: nat | a in db.holds && b in db.holds && a != b && Unexpired(a, db.now) && Unexpired(b, db.now)
      && s in SeatIds(a.cart) && s in SeatIds(b.cart)
      ensures a.session == b.session && a.perf != b.perf
    {
      if a.session == b.session && a.perf == b.perf { Carts.SameHold(db.perfs, db.holds, db.nextHold, a, b); }
    }
    forall h | h in db.holds && Unexpired(h, db.now) && h.cart.Reserved? ensures Payable(db, h) {
      Carts.FoundHold(db, h);
      Carts.ReservedRecheckNeverFails(db, h);
      PayableIff(db, h);
    }
  }

  // --- general admission ------------------------------------------------

  /** `sold` counts the live seatless tickets and the GA quantity of the PAID
      orders, stays within the capacity, and no void ever meets the floor at 0. */
  lemma SoldIsConserved(start: Db, actions: seq<Action>, p: nat)
    requires Opening(start) && p in Run(start, actions).allocs
    ensures var db := Run(start, actions);
            && db.allocs[p].sold == Sum(db.tickets, Inventory.LiveGa(p))
                 == Sum(db.orders, Inventory.PaidGa(p)) <= db.allocs[p].capacity
            && forall o: nat :: o < |db.orders| && db.orders[o].perf == Some(p) ==>
                 Sum(db.tickets, LiveGaOf(o)) <= db.allocs[p].sold
  {
    var db := Run(start, actions);
    Consistency.AlwaysConsistent(start, actions);
    forall o: nat | o < |db.orders| && db.orders[o].perf == Some(p)
      ensures Sum(db.tickets, LiveGaOf(o)) <= db.allocs[p].sold
    {
      Inventory.FloorNeverClamps(db, o);
    }
  }

  /** What is sold and what is held fit together in every allocation. */
  ghost predicate Room(db: Db) {
    && (forall p :: p in db.allocs ==> db.allocs[p].sold + ActiveGaHeld(db, p, None) <= db.allocs[p].capacity)
    && (forall h :: h in db.holds && h.cart.Ga? ==> h.perf in db.allocs)
  }

  /** The held quantity after a session's hold is replaced. */
  lemma ReplacedHeld(db: Db, perf: nat, session: string, cart: Cart, p: nat)
    ensures var after := ActiveGaHeld(Replaced(db, perf, session, cart), p, None);
            && (p != perf ==> after <= ActiveGaHeld(db, p, None))
            && (p == perf ==> after == ActiveGaHeld(db, p, Some(session)) + if cart.Ga? then cart.qty else 0)
  {
    var kept, h := Cleared(db.holds, perf, session),
        Replaced(db, perf, session, cart).holds[|Cleared(db.holds, perf, session)|];
    SumAppend(kept, h, GaHeld(p, db.now, None));
    SumFilterLeq(db.holds, NotOf(perf, session), GaHeld(p, db.now, None));
    if p == perf {
      SumFilter(db.holds, NotOf(perf, session), GaHeld(p, db.now, None), GaHeld(p, db.now, Some(session)));
    }
  }

  lemma OthersHold(db: Db, p: nat, session: string)
    ensures ActiveGaHeld(db, p, Some(session)) <= ActiveGaHeld(db, p, None)
  {
    SumLeq(db.holds, GaHeld(p, db.now, Some(session)), db.holds, GaHeld(p, db.now, None));
  }

  lemma FilterKeepsRoom(db: Db, keep: Hold -> bool)
    requires Room(db)
    ensures Room(db.(holds := Filter(db.holds, keep)))
  {
    FilterMembers(db.holds, keep);
    forall p | p in db.allocs
      ensures Sum(Filter(db.holds, keep), GaHeld(p, db.now, None)) <= ActiveGaHeld(db, p, None)
    {
      SumFilterLeq(db.holds, keep, GaHeld(p, db.now, None));
    }
  }

  lemma ReplaceKeepsRoom(db: Db, perf: nat, session: string, cart: Cart)
    requires Room(db)
    requires cart.Ga? ==> perf in db.allocs
    requires cart.Ga? ==>
      cart.qty <= db.allocs[perf].capacity - db.allocs[perf].sold - ActiveGaHeld(db, perf, Some(session))
    ensures Room(Replaced(db, perf, session, cart))
  {
    var after := Replaced(db, perf, session, cart);
    FilterMembers(db.holds, NotOf(perf, session));
    forall p | p in db.allocs ensures db.allocs[p].sold + ActiveGaHeld(after, p, None) <= db.allocs[p].capacity {
      ReplacedHeld(db, perf, session, cart, p);
      OthersHold(db, p, session);
    }
  }

  lemma EditKeepsRoom(db: Db, edit: Hold -> Hold)
    requires Room(db)
    requires forall h: Hold :: edit(h) == h.(promo := edit(h).promo, donation := edit(h).donation)
    ensures Room(db.(holds := MapRows(db.holds, edit)))
  {
    var holds := MapRows(db.holds, edit);
    forall p | p in db.allocs ensures Sum(holds, GaHeld(p, db.now, None)) == ActiveGaHeld(db, p, None) {
      SumSame(holds, GaHeld(p, db.now, None), db.holds, GaHeld(p, db.now, None));
    }
    forall h | h in holds && h.cart.Ga? ensures h.perf in db.allocs {
      var i :| 0 <= i < |holds| && holds[i] == h;
      assert db.holds[i] in db.holds;
    }
  }

  lemma MintKeepsRoom(db: Db, h: Hold, order: Order)
    requires Room(db) && h in db.holds && Unexpired(h, db.now)
    ensures Room(Mint(db, h, order))
  {
    var after := Mint(db, h, order);
    FilterMembers(db.holds, NotRow(h.id));
    forall p | p in after.allocs
      ensures after.allocs[p].sold + ActiveGaHeld(after, p, None) <= after.allocs[p].capacity
    {
      SumDelete(db.holds, NotRow(h.id), GaHeld(p, db.now, None), h);
    }
  }

  /** Fewer sold, later clock, at least the old capacities. */
  lemma RoomIsMonotone(db: Db, after: Db)
    requires Room(db) && after.holds == db.holds && after.now >= db.now
    requires forall p :: p in db.allocs ==>
      p in after.allocs && after.allocs[p].sold <= db.allocs[p].sold
          && after.allocs[p].capacity >= db.allocs[p].capacity
    requires forall p :: p in after.allocs && p !in db.allocs ==> after.allocs[p].sold == 0
    ensures Room(after)
  {
    forall p | p in after.allocs
      ensures after.allocs[p].sold + ActiveGaHeld(after, p, None) <= after.allocs[p].capacity
    {
      if p in db.allocs {
        SumLeq(db.holds, GaHeld(p, after.now, None), db.holds, GaHeld(p, db.now, None));
      } else {
        assert forall i :: 0 <= i < |db.holds| ==> db.holds[i] in db.holds;
        SumZero(db.holds, GaHeld(p, after.now, None));
      }
    }
  }

  predicate NeverLowers(db: Db, a: Action) {
    a.SavePerformance? && a.capacity.Some? && a.perf in db.allocs ==> a.capacity.value >= db.allocs[a.perf].capacity
  }

  lemma SelectionKeepsRoom(db: Db, a: Action)
    requires Room(db) && (a.SetGaHold? || a.SetReservedHold? || a.Release? || a.ReleaseById? || a.Sweep?)
    ensures Room(Next(db, a))
  {
    hide Room;
    match a
    case SetGaHold(perf, session, tier, quantity) =>
      if quantity <= 0 {
        FilterKeepsRoom(db, NotOf(perf, session));
      } else if Attempt(db, a).Ok? {
        var t := FindTier(db.book.tiers, tier).value;
        ReplaceKeepsRoom(db, perf, session, Ga(quantity, t.amount, t.currency));
      }
    case SetReservedHold(perf, session, ids) =>
      if ids == {} {
        FilterKeepsRoom(db, NotOf(perf, session));
      } else if Attempt(db, a).Ok? {
        ReplaceKeepsRoom(db, perf, session, Carts.ReservedCart(db, perf, ids));
      }
    case Release(perf, session) => FilterKeepsRoom(db, NotOf(perf, session));
    case ReleaseById(session, hold) => FilterKeepsRoom(db, NotId(hold, session));
    case Sweep => FilterKeepsRoom(db, UnexpiredAt(db.now));
  }

  lemma PromoKeepsRoom(db: Db, id: nat, p: Option<AppliedPromo>)
    requires Room(db)
    ensures Room(db.(holds := MapRows(db.holds, WithPromo(id, p))))
  {
    EditKeepsRoom(db, WithPromo(id, p)) by { hide Room; }
  }

  lemma DonationKeepsRoom(db: Db, id: nat, d: Option<int>)
    requires Room(db)
    ensures Room(db.(holds := MapRows(db.holds, WithDonation(id, d))))
  {
    EditKeepsRoom(db, WithDonation(id, d)) by { hide Room; }
  }

  lemma EditingKeepsRoom(db: Db, a: Action)
    requires Room(db) && (a.ApplyPromo? || a.RemovePromo? || a.SetDonation? || a.ClearDonation?)
    ensures Room(Next(db, a))
  {
    hide Room, Promotions.ValidateCode, Promotions.ComputeDiscount, HoldTotal, HoldCurrency, CartOf, FindHold, MapRows,
         WithPromo, WithDonation;
    if Next(db, a) != db {
      if a.ApplyPromo? {
        var h := CartOf(db, a.session, a.hold).value;
        var applied := AppliedPromo(a.code, Promotions.ComputeDiscount(db.promos[a.code], HoldTotal(h)));
        PromoKeepsRoom(db, a.hold, Some(applied));
      } else if a.RemovePromo? {
        PromoKeepsRoom(db, a.hold, None);
      } else {
        DonationKeepsRoom(db, a.hold, if a.SetDonation? then Some(a.amount) else None);
      }
    }
  }

  lemma FulfilKeepsRoom(db: Db, hold: nat, provider: Provider, ref: string, checkout: Option<string>)
    requires Room(db) && FindHold(db.holds, hold).Some?
    requires FulfillHold(db, FindHold(db.holds, hold).value, provider, ref, checkout).Ok?
    ensures Room(FulfillHold(db, FindHold(db.holds, hold).value, provider, ref, checkout).value)
  {
    Carts.FindHoldIn(db.holds, hold);
    var h := FindHold(db.holds, hold).value;
    MintKeepsRoom(db, h, SaleOrder(h, provider, ref, checkout));
  }

  lemma StepKeepsRoom(db: Db, a: Action)
    requires Consistency.Consistent(db) && Room(db) && NeverLowers(db, a)
    ensures Room(Next(db, a))
  {
    hide Consistency.Consistent;
    if a.ApplyPromo? || a.RemovePromo? || a.SetDonation? || a.ClearDonation? {
      EditingKeepsRoom(db, a);
    } else if Consistency.IsCartAction(a) {
      SelectionKeepsRoom(db, a);
    } else {
      OtherKeepsRoom(db, a);
    }
  }

  lemma DeliveryKeepsRoom(db: Db, checkout: string, what: Checkout, ref: string)
    requires Room(db)
    ensures Room(Next(db, Action.Deliver(checkout, what, ref)))
  {
    hide Room, FulfillHold, FindHold, FindOrder;
    if Attempt(db, Action.Deliver(checkout, what, ref)).Ok? && FindOrder(db.orders, checkout).None? {
      match what
      case HoldCheckout(hold) => FulfilKeepsRoom(db, hold, Stripe, ref, Some(checkout));
      case _ => RoomIsMonotone(db, Next(db, Action.Deliver(checkout, what, ref)));
    }
  }

  lemma RedemptionKeepsRoom(db: Db, hold: nat, pass: nat)
    requires Room(db)
    ensures Room(Next(db, UsePass(hold, pass)))
  {
    if Attempt(db, UsePass(hold, pass)).Ok? {
      Carts.FindHoldIn(db.holds, hold);
      hide Room, RedemptionFailure, FindHold, NewRedemptions, Spent, RedemptionOrder;
      var h := FindHold(db.holds, hold).value;
      RedeemableMints(db, h, pass);
      MintKeepsRoom(db, h, RedemptionOrder(h, pass));
      RoomIsMonotone(Mint(db, h, RedemptionOrder(h, pass)), Next(db, UsePass(hold, pass)));
    }
  }

  lemma RedeemableMints(db: Db, h: Hold, pass: nat)
    requires RedeemPass(db, h, pass).Ok?
    ensures Unexpired(h, db.now) && InventoryFailure(db, h).None?
  {
    hide InventoryFailure, RedeemableNow, PassCovers, RedeemedFor, NewRedemptions;
  }

  lemma OtherKeepsRoom(db: Db, a: Action)
    requires Consistency.Consistent(db) && Room(db) && NeverLowers(db, a) && !Consistency.IsCartAction(a)
    ensures Room(Next(db, a))
  {
    hide Consistency.Consistent, Room;
    match a
    case TestCheckout(hold, ref) => if Attempt(db, a).Ok? { FulfilKeepsRoom(db, hold, Test, ref, None); }
    case Deliver(checkout, what, ref) =>
      hide Next;
      DeliveryKeepsRoom(db, checkout, what, ref);
    case UsePass(hold, pass) =>
      hide Next;
      RedemptionKeepsRoom(db, hold, pass);
    case Refund(o, stripe) =>
      hide Next;
      ReversalKeepsRoom(db, a, o);
    case Cancel(o) =>
      hide Next;
      ReversalKeepsRoom(db, a, o);
    case _ => RoomIsMonotone(db, Next(db, a));
  }

  lemma VoidKeepsRoom(db: Db, o: nat)
    requires Consistency.Consistent(db) && Room(db) && o < |db.orders|
    ensures Room(VoidOrder(db, o))
  {
    Consistency.InventoryIsOk(db);
    hide Consistency.Consistent;
    Inventory.FloorNeverClamps(db, o) by { hide Room; }
    hide Inventory.InventoryOk, Sum;
    RoomIsMonotone(db, VoidOrder(db, o));
  }

  lemma ReversalKeepsRoom(db: Db, a: Action, o: nat)
    requires Consistency.Consistent(db) && Room(db) && ((a.Refund? && a.order == o) || (a.Cancel? && a.order == o))
    ensures Room(Next(db, a))
  {
    if o < |db.orders| { VoidKeepsRoom(db, o); }
    hide Consistency.Consistent, Room, Sum, FirstSucceeded, PassSpent, RestoredPasses;
    if Next(db, a) != db { RoomIsMonotone(VoidOrder(db, o), Next(db, a)); }
  }

  /** In a run that never lowers a capacity there is always room for every
      unexpired hold, so no unexpired hold is refused when it is paid for. */
  lemma {:induction false} UnexpiredHoldsAreHonoured(start: Db, actions: seq<Action>)
    requires Opening(start)
    requires forall k :: 0 <= k < |actions| ==> NeverLowers(Run(start, actions[..k]), actions[k])
    ensures Room(Run(start, actions))
    ensures var db := Run(start, actions);
            forall h :: h in db.holds && Unexpired(h, db.now) ==> Payable(db, h)
  {
    RoomAlways(start, actions);
    Consistency.AlwaysConsistent(start, actions);
    hide Consistency.Consistent, Run, Room, Payable, Unexpired;
    var db := Run(start, actions);
    forall h | h in db.holds && Unexpired(h, db.now) ensures Payable(db, h) {
      RoomHonours(db, h);
    }
  }

  lemma HeldAmountFits(db: Db, h: Hold)
    requires Room(db) && h in db.holds && h.cart.Ga? && Unexpired(h, db.now) && h.perf in db.allocs
    ensures db.allocs[h.perf].sold + h.cart.qty <= db.allocs[h.perf].capacity
  {
    SumDelete(db.holds, NotRow(h.id), GaHeld(h.perf, db.now, None), h);
    SumNonNegative(Filter(db.holds, NotRow(h.id)), GaHeld(h.perf, db.now, None));
  }

  lemma RoomHonours(db: Db, h: Hold)
    requires Consistency.Consistent(db) && Room(db) && h in db.holds && Unexpired(h, db.now)
    ensures Payable(db, h)
  {
    Carts.FoundHold(db, h);
    PayableIff(db, h);
    hide Payable;
    if h.cart.Reserved? {
      Carts.ReservedRecheckNeverFails(db, h);
    } else {
      HeldAmountFits(db, h);
    }
    hide Consistency.Consistent, Room, Sum, Filter;
  }

  lemma {:induction false} RoomAlways(start: Db, actions: seq<Action>)
    requires Opening(start)
    requires forall k :: 0 <= k < |actions| ==> NeverLowers(Run(start, actions[..k]), actions[k])
    ensures Room(Run(start, actions))
  {
    hide Consistency.Consistent;
    if actions != [] {
      var n := |actions| - 1;
      var init := actions[..n];
      forall k | 0 <= k < n ensures NeverLowers(Run(start, init[..k]), init[k]) {
        assert init[..k] == actions[..k];
      }
      RoomAlways(start, init);
      Consistency.AlwaysConsistent(start, init);
      StepKeepsRoom(Run(start, init), actions[n]);
    }
  }

  /** The form only compares a new capacity with what is sold: the edit strands an
      unexpired hold exactly when the hold no longer fits beside the sold tickets. */
  lemma CapacityEditStrandsIff(db: Db, h: Hold, form: Performance, c: nat)
    requires Consistency.Consistent(db) && h in db.holds && Unexpired(h, db.now) && h.cart.Ga? && h.perf in db.allocs
    requires db.allocs[h.perf].sold <= c
    ensures Attempt(db, SavePerformance(h.perf, form, Some(c))).Ok?
    ensures !Payable(Next(db, SavePerformance(h.perf, form, Some(c))), h) <==> c < db.allocs[h.perf].sold + h.cart.qty
  {
    Carts.FoundHold(db, h) by { hide Inventory.InventoryOk, Passes.PassesOk, Ledger.PromosOk; }
    hide Consistency.Consistent, Filter, Sum, FindHold;
    PayableIff(Next(db, SavePerformance(h.perf, form, Some(c))), h);
    hide Payable;
  }

  // --- shown and held ---------------------------------------------------

  /** set_ga_hold takes a positive quantity exactly when the selection page shows
      that many to the same session. */
  lemma GaShownIsHoldable(db: Db, perf: nat, session: string, tier: nat, quantity: int)
    requires perf in db.perfs && FindTier(db.book.tiers, tier).Some? && quantity > 0
    ensures Attempt(db, SetGaHold(perf, session, tier, quantity)).Ok? <==>
            quantity <= GaAvailable(db, perf, Some(session))
  {}

  /** The seat is offered to the session by the seat map of the performance. */
  predicate Offered(db: Db, perf: nat, session: string, seat: nat) {
    Selectable(SeatStateOf(db, perf, Some(session), seat))
  }

  /** Some other session holds the seat for another performance, which the seat
      map does not look at but set_reserved_hold does. */
  predicate HeldElsewhere(db: Db, perf: nat, session: string, seat: nat) {
    exists h :: h in db.holds && h.perf != perf && Unexpired(h, db.now) && h.session != session
                && seat in SeatIds(h.cart)
  }

  lemma TakenIff(db: Db, perf: nat, session: string, seat: nat)
    ensures Taken(db, perf, session, seat) <==>
            !Offered(db, perf, session, seat) || HeldElsewhere(db, perf, session, seat)
  {
    if HeldByOther(db.holds, db.now, session, seat) {
      var h :| h in db.holds && Unexpired(h, db.now) && h.session != session && seat in SeatIds(h.cart);
      if h.perf == perf { assert HeldHere(db, perf, seat, Some(session), false); }
    }
    if HeldHere(db, perf, seat, Some(session), false) {
      var h :| h in db.holds && h.perf == perf && Unexpired(h, db.now) && seat in SeatIds(h.cart)
               && h.session != session;
      assert HeldByOther(db.holds, db.now, session, seat);
    }
  }

  /** set_reserved_hold accepts a selection exactly when every seat is on the
      chart, offered, not held elsewhere by others, and priced. */
  lemma ReservedShownIsHoldable(db: Db, perf: nat, session: string, ids: set<nat>)
    requires perf in db.perfs && ids != {}
    ensures Attempt(db, SetReservedHold(perf, session, ids)).Ok? <==>
            && (forall id :: id in ids ==>
                  exists s :: s in SeatsOnChart(db.book, db.perfs[perf].chart, ids) && s.id == id)
            && (forall id :: id in ids ==> Offered(db, perf, session, id) && !HeldElsewhere(db, perf, session, id))
            && (forall s :: s in SeatsOnChart(db.book, db.perfs[perf].chart, ids) ==>
                  Pricing.BulkPrice(db.book, perf, s).Some?)
  {
    forall id | id in ids
      ensures Taken(db, perf, session, id) <==> !Offered(db, perf, session, id) || HeldElsewhere(db, perf, session, id)
    {
      TakenIff(db, perf, session, id);
    }
    hide Taken, Offered, HeldElsewhere;
  }
}

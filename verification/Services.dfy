/** The box office as the services run it: tables that transactions update row by
    row and roll back when they raise. Every method is proved to do what its action
    does in the transition system, so that what is proved of runs holds of it. */
module Services {
  import opened Tables
  import opened Schema
  import opened Holds
  import opened Fulfilment
  import opened Inventory
  import System
  import Scanning
  import Pricing
  import Promotions
  import Carts
  import Passes
  import Ledger
  import Consistency

  // --- the service ------------------------------------------------------

  /** A transaction did what its action does, and reported why if it raised. */
  ghost predicate Did(before: Db, a: System.Action, after: Db, failure: Option<Failure>) {
    match System.Attempt(before, a)
    case Ok(db) => after == db && failure.None?
    case Err(e) => after == before && failure == Some(e)
  }

  lemma DidKeeps(before: Db, a: System.Action, after: Db, failure: Option<Failure>)
    requires Consistency.Consistent(before) && Did(before, a, after, failure)
    ensures Consistency.Consistent(after) && after == System.Next(before, a)
  {
    hide Consistency.Consistent, System.Attempt;
    Consistency.StepKeepsConsistent(before, a);
  }

  /** hold_total. */
  method TotalOf(h: Hold) returns (total: int)
    ensures total == HoldTotal(h)
  {
    if h.cart.Ga? { return h.cart.unit * h.cart.qty; }
    total := 0;
    for i := 0 to |h.cart.seats|
      invariant total == Sum(h.cart.seats[..i], SeatUnit())
    {
      assert h.cart.seats[..i + 1][..i] == h.cart.seats[..i];
      total := total + h.cart.seats[i].unit;
    }
    assert h.cart.seats[..|h.cart.seats|] == h.cart.seats;
  }

  class BoxOffice {
    var now: int
    var currency: string
    var perfs: map<nat, Performance>
    var allocs: map<nat, Allocation>
    var blocks: set<(nat, nat)>
    var book: PriceBook
    var promos: map<string, Promo>
    var products: map<nat, Product>
    var holds: seq<Hold>
    var nextHold: nat
    var orders: seq<Order>
    var tickets: seq<Ticket>
    var passes: seq<PassPurchase>
    var redemptions: seq<Redemption>

    function Snapshot(): Db
      reads this
    {
      Db(now, currency, perfs, allocs, blocks, book, promos, products, holds, nextHold, orders, tickets, passes,
          redemptions)
    }

    ghost predicate Valid()
      reads this
    {
      Consistency.Consistent(Snapshot())
    }

    /** Open with a catalogue and nothing sold. */
    constructor (currency: string, perfs: map<nat, Performance>, capacities: map<nat, nat>, book: PriceBook)
      requires Pricing.VenueOk(book) && capacities.Keys <= perfs.Keys
      ensures Valid() && System.Opening(Snapshot())
      ensures this.currency == currency && this.perfs == perfs && this.book == book
      ensures allocs == map p | p in capacities :: Allocation(capacities[p], 0)
    {
      now, this.currency, this.perfs, this.book := 0, currency, perfs, book;
      allocs := map p | p in capacities :: Allocation(capacities[p], 0);
      blocks, promos, products := {}, map[], map[];
      holds, nextHold, orders, tickets, passes, redemptions := [], 0, [], [], [], [];
      new;
      Consistency.OpeningIsConsistent(Snapshot());
    }

    // --- carts ----------------------------------------------------------

    method ClearSessionHold(perf: nat, session: string)
      modifies this
      ensures Snapshot() == Holds.Release(old(Snapshot()), perf, session)
    {
      holds := Filter(holds, NotOf(perf, session));
    }

    method CreateHold(perf: nat, session: string, cart: Cart)
      modifies this
      ensures Snapshot() == old(Snapshot()).(
                holds := old(holds) + [Hold(old(nextHold), perf, session, now + HOLD_SECONDS, cart, None, None)],
                nextHold := old(nextHold) + 1)
    {
      holds := holds + [Hold(nextHold, perf, session, now + HOLD_SECONDS, cart, None, None)];
      nextHold := nextHold + 1;
    }

    method SetGaHold(perf: nat, session: string, tier: nat, quantity: int) returns (failure: Option<Failure>)
      requires Valid()
      modifies this
      ensures Did(old(Snapshot()), System.SetGaHold(perf, session, tier, quantity), Snapshot(), failure) && Valid()
    {
      ghost var before := Snapshot();
      failure := PlaceGaHold(perf, session, tier, quantity);
      hide Consistency.Consistent, Holds.SetGaHold;
      DidKeeps(before, System.SetGaHold(perf, session, tier, quantity), Snapshot(), failure);
    }

    method PlaceGaHold(perf: nat, session: string, tier: nat, quantity: int) returns (failure: Option<Failure>)
      modifies this
      ensures Did(old(Snapshot()), System.SetGaHold(perf, session, tier, quantity), Snapshot(), failure)
    {
      if perf !in perfs { return Some(NoPerformance); }
      if quantity <= 0 {
        ClearSessionHold(perf, session);
        return None;
      }
      var chosen := FindTier(book.tiers, tier);
      if chosen.None? { return Some(NoTier); }
      if perf !in allocs { return Some(NoAllocation); }
      var otherHeld := ActiveGaHeld(Snapshot(), perf, Some(session));
      var available := allocs[perf].capacity - allocs[perf].sold - otherHeld;
      if quantity > available {
        return Some(if available <= 0 then SoldOut else TooFew(available));
      }
      ClearSessionHold(perf, session);
      CreateHold(perf, session, Ga(quantity, chosen.value.amount, chosen.value.currency));
      return None;
    }

    method SetReservedHold(perf: nat, session: string, ids: set<nat>) returns (failure: Option<Failure>)
      requires Valid()
      modifies this
      ensures Did(old(Snapshot()), System.SetReservedHold(perf, session, ids), Snapshot(), failure) && Valid()
    {
      ghost var before := Snapshot();
      VenueIsOk(before);
      hide Consistency.Consistent, Pricing.VenueOk, Holds.SetReservedHold;
      failure := PlaceReservedHold(perf, session, ids);
      DidKeeps(before, System.SetReservedHold(perf, session, ids), Snapshot(), failure);
    }

    /** The checks set_reserved_hold makes of the requested seats. */
    method SelectSeats(perf: nat, session: string, ids: set<nat>) returns (r: Result<seq<Seat>, Failure>)
      requires Pricing.VenueOk(book) && perf in perfs && ids != {}
      ensures var seats := SeatsOnChart(book, perfs[perf].chart, ids);
              match r
              case Err(NotInChart) => exists id :: id in ids && !Carts.Asked(seats, id)
              case Err(e) => e.SeatUnavailable? && (forall id :: id in ids ==> Carts.Asked(seats, id))
                             && exists id :: id in ids && Taken(Snapshot(), perf, session, id)
              case Ok(found) => found == seats && perfs[perf].chart.Some?
                                && (forall id :: id in ids ==> Carts.Asked(seats, id))
                                && forall id :: id in ids ==> !Taken(Snapshot(), perf, session, id)
    {
      var seats := SeatsOnChart(book, perfs[perf].chart, ids);
      Carts.AllFoundIff(book, perfs[perf].chart, ids);
      assert perfs[perf].chart.None? ==> seats == [] && |ids| > 0;
      hide Pricing.VenueOk, SeatsOnChart, Taken;
      if |seats| != |ids| { return Err(NotInChart); }
      var db := Snapshot();
      hide Snapshot;
      var unavailable := set id | id in ids && Taken(db, perf, session, id);
      if unavailable != {} {
        assert exists id :: id in unavailable;
        return Err(SeatUnavailable);
      }
      assert forall id :: id in ids ==> id !in unavailable;
      return Ok(seats);
    }

    method PlaceReservedHold(perf: nat, session: string, ids: set<nat>) returns (failure: Option<Failure>)
      requires Pricing.VenueOk(book)
      modifies this
      ensures Did(old(Snapshot()), System.SetReservedHold(perf, session, ids), Snapshot(), failure)
    {
      hide Pricing.VenueOk, SeatsOnChart, Taken, Pricing.BulkPrice, ToHeldSeat, Filter;
      if perf !in perfs { return Some(NoPerformance); }
      if ids == {} {
        ClearSessionHold(perf, session);
        return None;
      }
      var selected := SelectSeats(perf, session, ids);
      if selected.Err? { return Some(selected.error); }
      Carts.SeatsOnChartOk(book, perfs[perf].chart, ids);
      var held := PriceSeats(book, perf, perfs[perf].chart.value, selected.value);
      if held.None? { return Some(NotPriced); }
      ClearSessionHold(perf, session);
      CreateHold(perf, session, Reserved(held.value));
      return None;
    }

    /** reserved_seat_states. */
    method SeatStates(perf: nat, session: Option<string>) returns (states: map<nat, SeatState>)
      requires Pricing.VenueOk(book) && perf in perfs
      ensures forall s :: s in book.seats && Some(s.chart) == perfs[perf].chart ==>
        s.id in states && states[s.id] == SeatStateOf(Snapshot(), perf, session, s.id)
      ensures forall id :: id in states ==>
              exists s :: s in book.seats && s.id == id && Some(s.chart) == perfs[perf].chart
    {
      var heldByYou: set<nat>, heldByOthers: set<nat> := {}, {};
      for i := 0 to |holds|
        invariant forall seat: nat :: seat in heldByYou <==> HeldIn(holds[..i], perf, now, seat, session, true)
        invariant forall seat: nat :: seat in heldByOthers <==> HeldIn(holds[..i], perf, now, seat, session, false)
      {
        var h := holds[i];
        HeldInAppend(holds[..i], h, perf, now, session);
        assert holds[..i + 1] == holds[..i] + [h];
        if h.perf == perf && Unexpired(h, now) {
          if Some(h.session) == session {
            heldByYou := heldByYou + SeatIds(h.cart);
          } else {
            heldByOthers := heldByOthers + SeatIds(h.cart);
          }
        }
      }
      assert holds[..|holds|] == holds;
      hide HeldIn;
      states := map[];
      for i := 0 to |book.seats|
        invariant forall j :: 0 <= j < i && Some(book.seats[j].chart) == perfs[perf].chart ==>
          && book.seats[j].id in states
          && states[book.seats[j].id] == StateFrom(blocks, tickets, perf, heldByYou, heldByOthers, book.seats[j].id)
        invariant forall id :: id in states ==>
          exists j :: 0 <= j < i && book.seats[j].id == id && Some(book.seats[j].chart) == perfs[perf].chart
      {
        var s := book.seats[i];
        if Some(s.chart) == perfs[perf].chart {
          states := states[s.id := StateFrom(blocks, tickets, perf, heldByYou, heldByOthers, s.id)];
        }
      }
      hide Ticketed;
      forall s | s in book.seats && Some(s.chart) == perfs[perf].chart
        ensures s.id in states && states[s.id] == SeatStateOf(Snapshot(), perf, session, s.id)
      {
        HeldInIs(Snapshot(), perf, s.id, session);
      }
    }

    method ApplyPromo(session: string, id: nat, code: string) returns (failure: Option<Failure>)
      requires Valid()
      modifies this
      ensures Did(old(Snapshot()), System.ApplyPromo(session, id, code), Snapshot(), failure) && Valid()
    {
      ghost var before := Snapshot();
      hide Consistency.Consistent, Holds.ApplyPromo;
      failure := FreezeDiscount(session, id, code);
      DidKeeps(before, System.ApplyPromo(session, id, code), Snapshot(), failure);
    }

    method FreezeDiscount(session: string, id: nat, code: string) returns (failure: Option<Failure>)
      modifies this
      ensures Did(old(Snapshot()), System.ApplyPromo(session, id, code), Snapshot(), failure)
    {
      hide Promotions.ValidateCode, Promotions.ComputeDiscount, HoldTotal, HoldCurrency, FindHold;
      var hold := FindHold(holds, id);
      if hold.None? || hold.value.session != session || !Unexpired(hold.value, now) { return Some(HoldGone); }
      if code !in promos { return Some(BadPromo(UnknownCode)); }
      var subtotal := TotalOf(hold.value);
      var why := Promotions.ValidateCode(promos[code], subtotal, HoldCurrency(hold.value, currency), now);
      if why.Some? { return Some(BadPromo(why.value)); }
      holds := MapRows(holds, WithPromo(id,
          Some(AppliedPromo(code, Promotions.ComputeDiscount(promos[code], subtotal)))));
      return None;
    }

    method RemovePromo(session: string, id: nat)
      requires Valid()
      modifies this
      ensures Did(old(Snapshot()), System.RemovePromo(session, id), Snapshot(), None) && Valid()
    {
      ghost var before := Snapshot();
      var hold := FindHold(holds, id);
      if hold.Some? && hold.value.session == session {
        holds := MapRows(holds, WithPromo(id, None));
      }
      hide Consistency.Consistent;
      DidKeeps(before, System.RemovePromo(session, id), Snapshot(), None);
    }

    method SetDonation(session: string, id: nat, amount: int) returns (failure: Option<Failure>)
      requires Valid()
      modifies this
      ensures Did(old(Snapshot()), System.SetDonation(session, id, amount), Snapshot(), failure) && Valid()
    {
      ghost var before := Snapshot();
      hide Consistency.Consistent;
      var hold := FindHold(holds, id);
      if hold.None? || hold.value.session != session || !Unexpired(hold.value, now) {
        failure := Some(HoldGone);
      } else if amount <= 0 || amount > MAX_DONATION {
        failure := Some(BadDonation);
      } else {
        holds := MapRows(holds, WithDonation(id, Some(amount)));
        failure := None;
      }
      DidKeeps(before, System.SetDonation(session, id, amount), Snapshot(), failure);
    }

    // --- sales ----------------------------------------------------------

    /** _fulfill_ga: an error is raised before anything is written. */
    method FulfillGa(h: Hold, o: nat) returns (failure: Option<Failure>)
      requires h.cart.Ga? && o < |orders|
      modifies this
      ensures failure == InventoryFailure(old(Snapshot()), h)
      ensures Snapshot() == if failure.Some? then old(Snapshot()) else Minted(old(Snapshot()), h, o)
    {
      if h.perf !in allocs { return Some(NoAllocation); }
      var allocation := allocs[h.perf];
      if allocation.sold + h.cart.qty > allocation.capacity { return Some(AvailabilityChanged); }
      orders := orders[o := orders[o].(items := orders[o].items + [Item(TicketLine, None, h.cart.qty, h.cart.unit)])];
      tickets := tickets + seq(h.cart.qty, _ => Ticket(o, h.perf, None, TicketStatus.Valid, None));
      allocs := allocs[h.perf := allocation.(sold := allocation.sold + h.cart.qty)];
      return None;
    }

    /** A line and a ticket for every held seat. */
    method MintSeats(seats: seq<HeldSeat>, perf: nat, o: nat)
      requires o < |orders|
      modifies `orders, `tickets
      ensures orders == old(orders)[o := old(orders)[o].(items := old(orders)[o].items + TicketItems(Reserved(seats)))]
      ensures tickets == old(tickets) + MapRows(seats, SeatTicket(o, perf))
    {
      ghost var base := orders[o].items;
      assert base + TicketItems(Reserved(seats[..0])) == base && orders[o := orders[o].(items := base)] == orders;
      for i := 0 to |seats|
        invariant orders == old(orders)[o := old(orders)[o].(items := base + TicketItems(Reserved(seats[..i])))]
        invariant tickets == old(tickets) + MapRows(seats[..i], SeatTicket(o, perf))
      {
        assert MapRows(seats[..i + 1], SeatTicket(o, perf))
            == MapRows(seats[..i], SeatTicket(o, perf)) + [SeatTicket(o, perf)(seats[i])];
        var item := Item(TicketLine, Some(seats[i].seat), 1, seats[i].unit);
        assert base + TicketItems(Reserved(seats[..i + 1])) == base + TicketItems(Reserved(seats[..i])) + [item];
        orders := orders[o := orders[o].(items := orders[o].items + [item])];
        tickets := tickets + [Ticket(o, perf, Some(seats[i].seat), TicketStatus.Valid, None)];
      }
      assert seats[..|seats|] == seats;
    }

    /** _fulfill_reserved. */
    method FulfillReserved(h: Hold, o: nat) returns (failure: Option<Failure>)
      requires h.cart.Reserved? && o < |orders|
      modifies this
      ensures failure == InventoryFailure(old(Snapshot()), h)
      ensures Snapshot() == if failure.Some? then old(Snapshot()) else Minted(old(Snapshot()), h, o)
    {
      var wanted := SeatIds(h.cart);
      var known := tickets;
      hide Ticketed, TicketItems, MapRows;
      var ticketed := set s | s in wanted && Ticketed(known, h.perf, s);
      if ticketed != {} {
        assert exists s :: s in ticketed;
        return Some(AvailabilityChanged);
      }
      assert forall s :: s in wanted ==> s !in ticketed;
      MintSeats(h.cart.seats, h.perf, o);
      return None;
    }

    method FulfillInventory(h: Hold, o: nat) returns (failure: Option<Failure>)
      requires o < |orders|
      modifies this
      ensures failure == InventoryFailure(old(Snapshot()), h)
      ensures Snapshot() == if failure.Some? then old(Snapshot()) else Minted(old(Snapshot()), h, o)
    {
      hide InventoryFailure, Minted;
      if h.cart.Ga? {
        failure := FulfillGa(h, o);
      } else {
        failure := FulfillReserved(h, o);
      }
    }

    /** fulfill_hold. The order is written first; if the inventory is gone, the
        transaction rolls it back. */
    method FulfillHold(h: Hold, provider: Provider, ref: string,
        checkout: Option<string>) returns (failure: Option<Failure>)
      modifies this
      ensures match Fulfilment.FulfillHold(old(Snapshot()), h, provider, ref, checkout)
              case Ok(db) => failure.None? && Snapshot() == db
              case Err(e) => failure == Some(e) && Snapshot() == old(Snapshot())
    {
      if !Unexpired(h, now) { return Some(HoldGone); }
      ghost var before := Snapshot();
      var gross := TotalOf(h);
      var total := Max(gross - Discount(h), 0) + Donation(h);
      var o, savepoint := |orders|, orders;
      orders := orders + [Order(Some(h.perf), PromoText(h), Discount(h), total, Paid, checkout, [], [])];
      ghost var placed := Snapshot();
      InventoryOnly(before, placed, h);
      hide InventoryFailure, HoldTotal, Minted;
      failure := FulfillInventory(h, o);
      if failure.Some? {
        orders := savepoint;
        return;
      }
      Close(h, o, [Payment(provider, total, Succeeded, ref)]);
      SaleIsMinted(before, h, provider, ref, checkout);
    }

    /** What follows the tickets: the gift line, the payment, the code's use, the hold. */
    method Close(h: Hold, o: nat, payments: seq<Payment>)
      requires o < |orders|
      modifies this
      ensures Snapshot() == Closed(old(Snapshot()), h, o, payments)
    {
      ghost var was := orders;
      assert was[o].items + [] == was[o].items;
      if Donation(h) > 0 {
        orders := orders[o := orders[o].(items := orders[o].items + [Item(DonationLine, None, 1, Donation(h))])];
      }
      orders := orders[o := orders[o].(payments := payments)];
      assert orders == was[o := was[o].(items := was[o].items + DonationItems(Donation(h)), payments := payments)];
      if h.promo.Some? && h.promo.value.code in promos {
        var code := h.promo.value.code;
        promos := promos[code := promos[code].(count := promos[code].count + 1)];
      }
      holds := Filter(holds, NotRow(h.id));
    }

    method TestCheckout(id: nat, ref: string) returns (failure: Option<Failure>)
      requires Valid()
      modifies this
      ensures Did(old(Snapshot()), System.TestCheckout(id, ref), Snapshot(), failure) && Valid()
    {
      ghost var before := Snapshot();
      hide Consistency.Consistent, Fulfilment.FulfillHold, FindHold;
      var hold := FindHold(holds, id);
      if hold.None? {
        failure := Some(HoldGone);
      } else {
        failure := FulfillHold(hold.value, Test, ref, None);
      }
      DidKeeps(before, System.TestCheckout(id, ref), Snapshot(), failure);
    }

    /** fulfill_donation. */
    method FulfillDonation(amount: int, provider: Provider, ref: string, checkout: Option<string>)
      modifies this
      ensures Snapshot() == Fulfilment.FulfillDonation(old(Snapshot()), amount, provider, ref, checkout)
    {
      var o := |orders|;
      orders := orders + [Order(None, None, 0, amount, Paid, checkout, [], [])];
      orders := orders[o := orders[o].(items := orders[o].items + [Item(DonationLine, None, 1, amount)])];
      orders := orders[o := orders[o].(payments := [Payment(provider, amount, Succeeded, ref)])];
      assert orders[o].items == [Item(DonationLine, None, 1, amount)];
      assert orders == old(orders) + [PlainOrder(amount, checkout, DonationLine, provider, ref)];
    }

    /** fulfill_pass_purchase. */
    method FulfillPass(product: nat, provider: Provider, ref: string,
        checkout: Option<string>) returns (failure: Option<Failure>)
      modifies this
      ensures match Fulfilment.FulfillPass(old(Snapshot()), product, provider, ref, checkout)
              case Ok(db) => failure.None? && Snapshot() == db
              case Err(e) => failure == Some(e) && Snapshot() == old(Snapshot())
    {
      if product !in products { return Some(NoProduct); }
      var listing := products[product];
      if !listing.active { return Some(ProductInactive); }
      var o := |orders|;
      orders := orders + [Order(None, None, 0, listing.price, Paid, checkout, [], [])];
      orders := orders[o := orders[o].(items := orders[o].items + [Item(PassLine, None, 1, listing.price)])];
      var balance := match listing.terms case Flex(n) => Some(n) case Season => None;
      passes := passes + [PassPurchase(product, o, listing.terms, balance, listing.validFrom, listing.validUntil, {},
          Active)];
      passes := passes[|passes| - 1 := passes[|passes| - 1].(covered := listing.events)];
      orders := orders[o := orders[o].(payments := [Payment(provider, listing.price, Succeeded, ref)])];
      assert orders[o].items == [Item(PassLine, None, 1, listing.price)];
      assert orders == old(orders) + [PlainOrder(listing.price, checkout, PassLine, provider, ref)];
      assert passes == old(passes) + [Sold(product, listing, o)];
      return None;
    }

    /** fulfill_checkout_session: the order of a session that was already delivered,
        or a new one. */
    method DeliverWebhook(session: string, what: Checkout, ref: string) returns (r: Result<(nat, bool), Failure>)
      requires Valid()
      modifies this
      ensures Did(old(Snapshot()), System.Deliver(session, what, ref), Snapshot(),
              match r case Ok(_) => None case Err(e) => Some(e))
      ensures r.Ok? ==> r.value.0 < |orders| && orders[r.value.0].checkout == Some(session)
      ensures r.Ok? ==> (r.value.1 <==> forall i :: 0 <= i < |old(orders)| ==> old(orders)[i].checkout != Some(session))
      ensures Valid()
    {
      ghost var before := Snapshot();
      Ledger.FindOrderIs(orders, session);
      hide Consistency.Consistent, FindOrder, Fulfilment.FulfillDonation, Fulfilment.FulfillPass;
      hide Fulfilment.FulfillHold, FindHold;
      var existing := FindOrder(orders, session);
      if existing.Some? {
        r := Ok((existing.value, false));
      } else {
        r := Fulfil(session, what, ref);
      }
      DidKeeps(before, System.Deliver(session, what, ref), Snapshot(),
          match r case Ok(_) => None case Err(e) => Some(e));
    }

    method Fulfil(session: string, what: Checkout, ref: string) returns (r: Result<(nat, bool), Failure>)
      requires FindOrder(orders, session).None?
      modifies this
      ensures Did(old(Snapshot()), System.Deliver(session, what, ref), Snapshot(),
              match r case Ok(_) => None case Err(e) => Some(e))
      ensures r.Ok? ==>
        r.value == (|old(orders)|, true) && |orders| == |old(orders)| + 1
            && orders[|old(orders)|].checkout == Some(session)
    {
      var o, failure: Option<Failure> := |orders|, None;
      hide InventoryFailure, NewTickets, FindHold, FindOrder, Filter;
      match what {
        case GiftCheckout(None) => return Err(BadAmount);
        case GiftCheckout(Some(amount)) => FulfillDonation(amount, Stripe, ref, Some(session));
        case PassCheckout(product) => failure := FulfillPass(product, Stripe, ref, Some(session));
        case HoldCheckout(id) =>
          var hold := FindHold(holds, id);
          if hold.None? { return Err(HoldGone); }
          failure := FulfillHold(hold.value, Stripe, ref, Some(session));
      }
      return match failure case None => Ok((o, true)) case Some(e) => Err(e);
    }

    // --- spending a pass ------------------------------------------------

    /** Everything fulfill_hold_with_pass asks before it writes. */
    method MayRedeem(h: Hold, pass: nat) returns (failure: Option<Failure>)
      ensures var spec := RedemptionFailure(Snapshot(), h, pass);
              if failure.Some? then spec == failure
              else && pass < |passes| && h.perf in perfs && h.promo.None? && Donation(h) <= 0
                   && spec == InventoryFailure(Snapshot(), h)
    {
      hide InventoryFailure;
      if !Unexpired(h, now) { return Some(HoldGone); }
      if h.promo.Some? { return Some(PassNotUsable(HasPromo)); }
      if Donation(h) > 0 { return Some(PassNotUsable(HasDonation)); }
      if pass >= |passes| { return Some(NotFound); }
      var purchase := passes[pass];
      if !RedeemableNow(purchase, now) { return Some(PassNotUsable(NotActive)); }
      if h.perf !in perfs { return Some(NoPerformance); }
      if !PassCovers(purchase, perfs[h.perf]) { return Some(PassNotUsable(NotCovered)); }
      var count := TicketCount(h.cart);
      if count <= 0 { return Some(PassNotUsable(NothingHeld)); }
      if purchase.terms.Flex? {
        if count > purchase.balance.GetOr(0) { return Some(PassNotUsable(NotEnoughCredits)); }
      } else {
        if count != 1 { return Some(PassNotUsable(OneSeatOnly)); }
        if RedeemedFor(redemptions, pass, perfs[h.perf].event) { return Some(PassNotUsable(AlreadyUsedForEvent)); }
      }
      return None;
    }

    /** The face values of an order's lines: of its seatless line, and by seat. */
    method FaceValues(h: Hold, o: nat) returns (gaUnit: Option<int>, seatAmounts: map<nat, int>)
      requires o < |orders| && orders[o].items == TicketItems(h.cart) && SeatsDistinct(h.cart)
      ensures h.cart.Ga? ==> gaUnit == Some(h.cart.unit)
      ensures h.cart.Reserved? ==> forall k :: 0 <= k < |h.cart.seats| ==>
        h.cart.seats[k].seat in seatAmounts && seatAmounts[h.cart.seats[k].seat] == h.cart.seats[k].unit
    {
      var items := orders[o].items;
      gaUnit, seatAmounts := None, map[];
      for i := 0 to |items|
        invariant h.cart.Ga? && i > 0 ==> gaUnit == Some(h.cart.unit)
        invariant h.cart.Reserved? ==> forall k :: 0 <= k < i ==>
          h.cart.seats[k].seat in seatAmounts && seatAmounts[h.cart.seats[k].seat] == h.cart.seats[k].unit
      {
        if items[i].seat.None? {
          gaUnit := Some(items[i].unit);
        } else {
          seatAmounts := seatAmounts[items[i].seat.value := items[i].unit];
        }
      }
    }

    /** One redemption row per ticket of the order, which start at `first`. */
    method RecordRedemptions(h: Hold, pass: nat, o: nat, first: nat, event: nat, credits: nat)
      requires o < |orders| && orders[o].items == TicketItems(h.cart) && SeatsDistinct(h.cart)
      requires first <= |tickets| && tickets[first..] == NewTickets(h, o)
      modifies `redemptions
      ensures redemptions == old(redemptions) + NewRedemptions(h, pass, o, first, event, credits)
    {
      var gaUnit, seatAmounts := FaceValues(h, o);
      ghost var rows := NewRedemptions(h, pass, o, first, event, credits);
      assert |rows| == |tickets[first..]|;
      for i := first to |tickets|
        invariant redemptions == old(redemptions) + rows[..i - first]
      {
        var ticket := tickets[i];
        assert ticket == tickets[first..][i - first];
        var face := 0;
        if ticket.seat.None? {
          face := gaUnit.GetOr(0);
        } else if ticket.seat.value in seatAmounts {
          face := seatAmounts[ticket.seat.value];
        }
        redemptions := redemptions + [Redemption(pass, o, i, h.perf, event, ticket.seat, face, credits)];
      }
    }

    /** Burn credits of a flex pass, down to zero and no further. */
    method BurnCredits(pass: nat, count: nat)
      requires pass < |passes|
      modifies `passes
      ensures passes == old(passes)[pass := Spent(old(passes)[pass], count)]
    {
      if passes[pass].terms.Flex? {
        passes := passes[pass := passes[pass].(balance := Some(Max(passes[pass].balance.GetOr(0) - count, 0)))];
        if passes[pass].balance == Some(0) {
          passes := passes[pass := passes[pass].(status := Exhausted)];
        }
      }
    }

    /** fulfill_hold_with_pass. */
    method RedeemPass(h: Hold, pass: nat) returns (failure: Option<Failure>)
      requires SeatsDistinct(h.cart)
      modifies this
      ensures match Fulfilment.RedeemPass(old(Snapshot()), h, pass)
              case Ok(db) => failure.None? && Snapshot() == db
              case Err(e) => failure == Some(e) && Snapshot() == old(Snapshot())
    {
      hide RedemptionFailure, InventoryFailure, SeatsDistinct, NewRedemptions, Spent, NewTickets, TakeFrom, TicketItems;
      hide Filter;
      failure := MayRedeem(h, pass);
      if failure.Some? { return; }
      ghost var before := Snapshot();
      var o, first, savepoint := |orders|, |tickets|, orders;
      orders := orders + [Order(Some(h.perf), None, 0, 0, Paid, None, [], [])];
      InventoryOnly(before, Snapshot(), h);
      failure := FulfillInventory(h, o);
      if failure.Some? {
        orders := savepoint;
        return;
      }
      RedemptionIsMinted(before, h, pass);
      RecordRedemptions(h, pass, o, first, perfs[h.perf].event, CreditsPerTicket(passes[pass]));
      BurnCredits(pass, TicketCount(h.cart));
      orders := orders[o := orders[o].(payments := [Payment(PassCredit(pass), 0, Succeeded, "pass")])];
      holds := Filter(holds, NotRow(h.id));
    }

    method UsePass(id: nat, pass: nat) returns (failure: Option<Failure>)
      requires Valid()
      modifies this
      ensures Did(old(Snapshot()), System.UsePass(id, pass), Snapshot(), failure) && Valid()
    {
      ghost var before := Snapshot();
      Carts.FindHoldIn(holds, id);
      HeldDistinct(before, id);
      hide Consistency.Consistent, Fulfilment.RedeemPass, FindHold, SeatsDistinct;
      var hold := FindHold(holds, id);
      if hold.None? {
        failure := Some(HoldGone);
      } else {
        failure := RedeemPass(hold.value, pass);
      }
      DidKeeps(before, System.UsePass(id, pass), Snapshot(), failure);
    }

    // --- reversals ------------------------------------------------------

    /** Mark an order's live tickets void; how many there were, and how many seatless. */
    method VoidTickets(o: nat) returns (voided: nat, gaCount: nat)
      modifies `tickets
      ensures tickets == MapRows(old(tickets), Voided(o)) && gaCount == Sum(old(tickets), LiveGaOf(o))
    {
      voided, gaCount := 0, 0;
      for i := 0 to |tickets|
        invariant |tickets| == |old(tickets)|
        invariant forall j :: 0 <= j < |tickets| ==>
            tickets[j] == if j < i then Voided(o)(old(tickets)[j]) else old(tickets)[j]
        invariant gaCount == Sum(old(tickets)[..i], LiveGaOf(o))
      {
        var t := tickets[i];
        assert old(tickets)[..i + 1][..i] == old(tickets)[..i];
        if t.order == o && Live(t) {
          voided := voided + 1;
          if t.seat.None? { gaCount := gaCount + 1; }
          tickets := tickets[i := t.(status := TicketStatus.Void)];
        }
      }
      assert old(tickets)[..|tickets|] == old(tickets);
    }

    /** void_order. */
    method VoidOrder(o: nat) returns (voided: nat)
      requires o < |orders|
      modifies this
      ensures Snapshot() == Fulfilment.VoidOrder(old(Snapshot()), o)
    {
      var gaCount: nat;
      voided, gaCount := VoidTickets(o);
      var perf := orders[o].perf;
      if gaCount > 0 && perf.Some? && perf.value in allocs {
        allocs := allocs[perf.value := allocs[perf.value].(sold := Max(allocs[perf.value].sold - gaCount, 0))];
      }
    }

    /** The credits an order took from each pass it spent. */
    method CreditsByPass(o: nat) returns (credits: map<nat, int>)
      ensures forall p: nat :: p in credits <==> SpentOn(redemptions, o, p)
      ensures forall p :: p in credits ==> credits[p] == Sum(redemptions, CreditsOn(o, p)) >= 0
    {
      credits := map[];
      for i := 0 to |redemptions|
        invariant forall p: nat :: p in credits <==> SpentOn(redemptions[..i], o, p)
        invariant forall p :: p in credits ==> credits[p] >= 0
        invariant forall p: nat :: Sum(redemptions[..i], CreditsOn(o, p)) == if p in credits then credits[p] else 0
      {
        var r := redemptions[i];
        SpentOnAppend(redemptions[..i], r, o);
        assert redemptions[..i + 1] == redemptions[..i] + [r];
        hide SpentOn, Sum;
        if r.order == o {
          credits := credits[r.pass := (if r.pass in credits then credits[r.pass] else 0) + r.creditsUsed];
        }
      }
      assert redemptions[..|redemptions|] == redemptions;
    }

    /** Give each pass its credits back; a pass that had run dry becomes active. */
    method GiveBack(credits: map<nat, int>)
      requires forall p :: p in credits ==> credits[p] >= 0
      modifies `passes
      ensures |passes| == |old(passes)|
      ensures forall p :: 0 <= p < |passes| ==>
        passes[p] == if p in credits then Restored(old(passes)[p], credits[p]) else old(passes)[p]
    {
      var todo := credits.Keys;
      while todo != {}
        invariant todo <= credits.Keys && |passes| == |old(passes)|
        invariant forall p :: 0 <= p < |passes| ==>
          passes[p] == if p in credits && p !in todo then Restored(old(passes)[p], credits[p]) else old(passes)[p]
        decreases |todo|
      {
        var p :| p in todo;
        todo := todo - {p};
        if p < |passes| {
          var purchase, restored := passes[p], credits[p];
          if purchase.balance.Some? && restored != 0 {
            purchase := purchase.(balance := Some(purchase.balance.value + restored));
          }
          if purchase.status.Exhausted? && purchase.balance.GetOr(0) > 0 {
            purchase := purchase.(status := Active);
          }
          passes := passes[p := purchase];
        }
      }
    }

    /** restore_redemptions_for_order. */
    method RestoreRedemptions(o: nat)
      modifies this
      ensures Snapshot() == Fulfilment.RestoreRedemptions(old(Snapshot()), o)
    {
      hide SpentOn;
      var credits := CreditsByPass(o);
      if credits == map[] {
        NothingSpent(redemptions, o);
        assert RestoredPasses(passes, redemptions, o) == passes;
        return;
      }
      redemptions := Filter(redemptions, NotOn(o));
      GiveBack(credits);
      assert passes == RestoredPasses(old(passes), old(redemptions), o);
    }

    /** order_cancel. */
    method CancelOrder(o: nat) returns (failure: Option<Failure>)
      requires Valid()
      modifies this
      ensures Did(old(Snapshot()), System.Cancel(o), Snapshot(), failure) && Valid()
    {
      ghost var before := Snapshot();
      failure := None;
      hide Consistency.Consistent, Fulfilment.VoidOrder, Fulfilment.RestoreRedemptions;
      if o >= |orders| {
        failure := Some(NotFound);
      } else if !orders[o].status.Cancelled? && !orders[o].status.Refunded? {
        UndoneOrders(before, o);
        var voided := VoidOrder(o);
        RestoreRedemptions(o);
        orders := orders[o := orders[o].(status := Cancelled)];
      }
      DidKeeps(before, System.Cancel(o), Snapshot(), failure);
    }

    /** refund_order; `stripe` is what Stripe answers. */
    method RefundOrder(o: nat, stripe: Option<string>) returns (failure: Option<Failure>)
      requires Valid()
      modifies this
      ensures Did(old(Snapshot()), System.Refund(o, stripe), Snapshot(), failure) && Valid()
    {
      ghost var before := Snapshot();
      hide Consistency.Consistent, Fulfilment.RefundOrder;
      failure := Refund(o, stripe);
      DidKeeps(before, System.Refund(o, stripe), Snapshot(), failure);
    }

    /** Everything refund_order asks before it writes: the provider and the refund's reference. */
    method MayRefund(o: nat, stripe: Option<string>) returns (r: Result<(Provider, string), Failure>)
      requires o < |orders| && orders[o].status.Paid?
      ensures var spec := Fulfilment.RefundOrder(Snapshot(), o, stripe);
              match r
              case Err(e) => spec == Err(e)
              case Ok(p) => spec == Ok(RefundWrites(Snapshot(), o, p.0, p.1))
    {
      hide Reverse, PassSpent;
      if SoldAPass(orders[o]) {
        var used := PassUsedCheck(o);
        if used { return Err(PassUsed); }
      }
      var payment := FirstSucceeded(orders[o].payments);
      var provider := if payment.Some? then payment.value.provider else Provider.Stripe;
      hide FirstSucceeded, SoldAPass, Snapshot;
      if !provider.Stripe? { return Ok((provider, "")); }
      if payment.None? || !IsPaymentIntent(payment.value.ref) { return Err(RefundRejected); }
      if stripe.None? { return Err(RefundRejected); }
      return Ok((provider, stripe.value));
    }

    method Refund(o: nat, stripe: Option<string>) returns (failure: Option<Failure>)
      modifies this
      ensures Did(old(Snapshot()), System.Refund(o, stripe), Snapshot(), failure)
    {
      if o >= |orders| { return Some(NotFound); }
      if !orders[o].status.Paid? { return None; }
      var asked := MayRefund(o, stripe);
      hide Fulfilment.RefundOrder, RefundWrites;
      if asked.Err? { return Some(asked.error); }
      WriteRefund(o, asked.value.0, asked.value.1);
      return None;
    }

    method WriteRefund(o: nat, provider: Provider, ref: string)
      requires o < |orders|
      modifies this
      ensures Snapshot() == RefundWrites(old(Snapshot()), o, provider, ref)
    {
      hide Fulfilment.VoidOrder, Fulfilment.RestoreRedemptions, SoldAPass;
      UndoneOrders(Snapshot(), o);
      var soldAPass := SoldAPass(orders[o]);
      var voided := VoidOrder(o);
      RestoreRedemptions(o);
      if soldAPass {
        passes := MapRows(passes, Withdraw(o));
      }
      orders := orders[o := orders[o].(status := OrderStatus.Refunded)];
      orders := orders[o := orders[o].(payments := orders[o].payments
          + [Payment(provider, orders[o].total, Reversed, ref)])];
    }

    /** refund_order's loop over the passes an order sold. */
    method PassUsedCheck(o: nat) returns (used: bool)
      ensures used == PassSpent(Snapshot(), o)
    {
      used := false;
      for p := 0 to |passes|
        invariant !used
        invariant forall q :: 0 <= q < p && passes[q].order == o ==> forall r :: r in redemptions ==> r.pass != q
      {
        if passes[p].order == o {
          if r :| r in redemptions && r.pass == p { return true; }
        }
      }
    }

    // --- the door and the desk ------------------------------------------

    /** redeem_ticket. */
    method Scan(ticket: nat, signed: bool) returns (verdict: Scanning.ScanResult)
      requires Valid()
      modifies this
      ensures verdict == Scanning.Verdict(old(Snapshot()), ticket, signed)
      ensures Did(old(Snapshot()), System.Scan(ticket, signed), Snapshot(), None) && Valid()
    {
      ghost var before := Snapshot();
      verdict := Scanning.Verdict(Snapshot(), ticket, signed);
      if verdict.Admit? {
        tickets := tickets[ticket := tickets[ticket].(status := Used, usedAt := Some(now))];
      }
      hide Consistency.Consistent;
      DidKeeps(before, System.Scan(ticket, signed), Snapshot(), None);
    }

    /** PerformanceForm.clean and save. */
    method SaveForm(perf: nat, form: Performance, capacity: Option<nat>) returns (failure: Option<Failure>)
      modifies `perfs, `allocs
      ensures match System.EditPerformance(old(Snapshot()), perf, form, capacity)
              case Ok(db) => failure.None? && Snapshot() == db
              case Err(e) => failure == Some(e) && Snapshot() == old(Snapshot())
    {
      if capacity.Some? && perf in perfs && perf in allocs && capacity.value < allocs[perf].sold {
        return Some(CapacityBelowSold);
      }
      var event := if perf in perfs then perfs[perf].event else form.event;
      perfs := perfs[perf := form.(event := event)];
      if capacity.Some? {
        var sold := if perf in allocs then allocs[perf].sold else 0;
        allocs := allocs[perf := Allocation(capacity.value, sold)];
      }
      return None;
    }

    method SavePerformance(perf: nat, form: Performance, capacity: Option<nat>) returns (failure: Option<Failure>)
      requires Valid()
      modifies this
      ensures Did(old(Snapshot()), System.SavePerformance(perf, form, capacity), Snapshot(), failure) && Valid()
    {
      ghost var before := Snapshot();
      hide Consistency.Consistent, System.EditPerformance;
      failure := SaveForm(perf, form, capacity);
      DidKeeps(before, System.SavePerformance(perf, form, capacity), Snapshot(), failure);
    }
  }

  /** What minting the tickets of a hold on an order writes. */
  function Minted(db: Db, h: Hold, o: nat): Db
    requires o < |db.orders|
  {
    db.(orders := db.orders[o := db.orders[o].(items := db.orders[o].items + TicketItems(h.cart))],
        tickets := db.tickets + NewTickets(h, o),
        allocs := TakeFrom(db.allocs, h))
  }

  function Closed(db: Db, h: Hold, o: nat, payments: seq<Payment>): Db
    requires o < |db.orders|
  {
    db.(orders := db.orders[o := db.orders[o].(items := db.orders[o].items + DonationItems(Donation(h)),
        payments := payments)],
        promos := Counted(db.promos, h.promo),
        holds := Filter(db.holds, NotRow(h.id)))
  }

  /** Written step by step, the order is the order written at once. */
  lemma SaleIsMinted(db: Db, h: Hold, provider: Provider, ref: string, checkout: Option<string>)
    ensures var o, total := |db.orders|, GrandTotal(h);
            var placed := db.(orders := db.orders
                + [Order(Some(h.perf), PromoText(h), Discount(h), total, Paid, checkout, [], [])]);
            Closed(Minted(placed, h, o), h, o, [Payment(provider, total, Succeeded, ref)])
            == Mint(db, h, SaleOrder(h, provider, ref, checkout)).(promos := Counted(db.promos, h.promo))
  {
    hide HoldTotal, Filter, TakeFrom;
    assert [] + TicketItems(h.cart) == TicketItems(h.cart);
  }

  lemma SpentOnAppend(rows: seq<Redemption>, r: Redemption, o: nat)
    ensures forall p: nat :: SpentOn(rows + [r], o, p) <==> SpentOn(rows, o, p) || (r.order == o && r.pass == p)
    ensures forall p: nat :: Sum(rows + [r], CreditsOn(o, p)) == Sum(rows, CreditsOn(o, p)) + CreditsOn(o, p)(r)
  {
    assert forall x :: x in rows + [r] <==> x in rows || x == r;
    forall p: nat ensures Sum(rows + [r], CreditsOn(o, p)) == Sum(rows, CreditsOn(o, p)) + CreditsOn(o, p)(r) {
      SumAppend(rows, r, CreditsOn(o, p));
    }
  }

  lemma NothingSpent(rows: seq<Redemption>, o: nat)
    requires forall p: nat :: !SpentOn(rows, o, p)
    ensures Filter(rows, NotOn(o)) == rows
  {
    forall i | 0 <= i < |rows| ensures rows[i].order != o {
      assert rows[i] in rows && !SpentOn(rows, o, rows[i].pass);
    }
    FilterKeepsAll(rows, NotOn(o));
  }

  /** What a refund writes. */
  function RefundWrites(db: Db, o: nat, provider: Provider, ref: string): Db
    requires o < |db.orders|
  {
    var reversed, order := Reverse(db, o, OrderStatus.Refunded), db.orders[o];
    var row := Payment(provider, order.total, Reversed, ref);
    reversed.(passes := if SoldAPass(order) then MapRows(reversed.passes, Withdraw(o)) else reversed.passes,
              orders := reversed.orders[o := reversed.orders[o].(payments := order.payments + [row])])
  }

  lemma UndoneOrders(db: Db, o: nat)
    requires o < |db.orders|
    ensures Fulfilment.VoidOrder(db, o).orders == db.orders
    ensures Fulfilment.RestoreRedemptions(Fulfilment.VoidOrder(db, o), o).orders == db.orders
  {
    hide Sum, Filter, MapRows;
  }

  lemma RedemptionIsMinted(db: Db, h: Hold, pass: nat)
    ensures var o := |db.orders|;
            var placed := db.(orders := db.orders + [Order(Some(h.perf), None, 0, 0, Paid, None, [], [])]);
            var row := Payment(PassCredit(pass), 0, Succeeded, "pass");
            var after := Minted(placed, h, o);
            && o < |after.orders| && after.orders[o].items == TicketItems(h.cart)
            && |after.tickets| >= |db.tickets| && after.tickets[|db.tickets|..] == NewTickets(h, o)
            && after.(orders := after.orders[o := after.orders[o].(payments := [row])],
                      holds := Filter(db.holds, NotRow(h.id)))
               == Mint(db, h, RedemptionOrder(h, pass))
  {
    hide Filter, TakeFrom, NewTickets;
    assert [] + TicketItems(h.cart) == TicketItems(h.cart);
  }

  lemma HeldDistinct(db: Db, id: nat)
    requires Consistency.Consistent(db)
    ensures FindHold(db.holds, id).Some? ==> SeatsDistinct(FindHold(db.holds, id).value.cart)
  {
    hide Inventory.InventoryOk, Passes.PassesOk, Ledger.PromosOk;
    Carts.FindHoldIn(db.holds, id);
    if FindHold(db.holds, id).Some? { Carts.HeldIsOk(db, FindHold(db.holds, id).value); }
  }

  lemma InventoryOnly(a: Db, b: Db, h: Hold)
    requires a.allocs == b.allocs && a.tickets == b.tickets
    ensures InventoryFailure(a, h) == InventoryFailure(b, h)
  {}

  /** The loop over the hold seats of a performance, so far. */
  predicate HeldIn(holds: seq<Hold>, perf: nat, now: int, seat: nat, session: Option<string>, mine: bool) {
    exists h :: h in holds && h.perf == perf && Unexpired(h, now) && seat in SeatIds(h.cart) && (mine <==>
        Some(h.session) == session)
  }

  lemma HeldInAppend(holds: seq<Hold>, h: Hold, perf: nat, now: int, session: Option<string>)
    ensures forall seat: nat, mine: bool :: HeldIn(holds + [h], perf, now, seat, session, mine) <==>
      HeldIn(holds, perf, now, seat, session, mine)
      || (h.perf == perf && Unexpired(h, now) && seat in SeatIds(h.cart) && (mine <==> Some(h.session) == session))
  {
    assert forall x :: x in holds + [h] <==> x in holds || x == h;
  }

  lemma HeldInIs(db: Db, perf: nat, seat: nat, session: Option<string>)
    ensures forall mine :: HeldIn(db.holds, perf, db.now, seat, session, mine) <==>
            HeldHere(db, perf, seat, session, mine)
  {}

  function StateFrom(blocks: set<(nat, nat)>, tickets: seq<Ticket>, perf: nat,
        heldByYou: set<nat>, heldByOthers: set<nat>, seat: nat): SeatState
  {
    if (perf, seat) in blocks then Blocked
    else if Ticketed(tickets, perf, seat) || seat in heldByOthers then Unavailable
    else if seat in heldByYou then HeldByYou
    else Available
  }

  /** The rows of a new reserved hold, from the bulk prices; None if a seat has none. */
  method PriceSeats(book: PriceBook, perf: nat, chart: nat, seats: seq<Seat>) returns (held: Option<seq<HeldSeat>>)
    requires Pricing.VenueOk(book) && forall s :: s in seats ==> s in book.seats && s.chart == chart
    ensures held.None? <==> exists s :: s in seats && Pricing.BulkPrice(book, perf, s).None?
    ensures held.Some? ==> held.value == MapRows(seats, ToHeldSeat(book, perf))
  {
    var prices := Pricing.ResolveReservedPrices(book, perf, chart);
    hide Pricing.VenueOk, Pricing.BulkPrice;
    assert forall s :: s in seats ==>
        Pricing.BulkPrice(book, perf, s) == if s.id in prices then Some(prices[s.id]) else None;
    var rows := [];
    for i := 0 to |seats|
      invariant forall j :: 0 <= j < i ==> seats[j].id in prices
      invariant rows == MapRows(seats[..i], ToHeldSeat(book, perf))
    {
      assert seats[i] in seats;
      if seats[i].id !in prices { return None; }
      rows := rows + [HeldAt(prices[seats[i].id], seats[i].id)];
    }
    assert seats[..|seats|] == seats;
    return Some(rows);
  }

  lemma VenueIsOk(db: Db)
    requires Consistency.Consistent(db)
    ensures Pricing.VenueOk(db.book)
  {
    hide Inventory.InventoryOk, Passes.PassesOk, Ledger.PromosOk;
  }
}

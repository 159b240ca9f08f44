/** What each transaction does to the rest of the box office, said without its body:
    who gets which seats, at which price, and what is left as it was. */
module Effects {
  import opened Tables
  import opened Schema
  import opened System
  import opened Holds
  import opened Fulfilment
  import Pricing
  import Inventory
  import Carts
  import Passes
  import Ledger
  import Consistency
  import Entitlements
  import History

  // --- selecting --------------------------------------------------------

  /** The one hold a session now has for a performance, everything else untouched. */
  predicate OnlyHold(before: seq<Hold>, after: seq<Hold>, h: Hold) {
    && h in after
    && (forall x :: x in after && x != h ==> x in before && !(x.perf == h.perf && x.session == h.session))
    && (forall x :: x in before && !(x.perf == h.perf && x.session == h.session) ==> x in after)
  }

  lemma ReplacedIs(db: Db, perf: nat, session: string, cart: Cart)
    ensures OnlyHold(db.holds, Replaced(db, perf, session, cart).holds,
                     Hold(db.nextHold, perf, session, db.now + HOLD_SECONDS, cart, None, None))
  {
    FilterMembers(db.holds, NotOf(perf, session));
  }

  /** An accepted reserved selection is held for ten minutes: exactly the requested
      seats, each at its bulk price, in place of what the session held there. */
  lemma SelectionHoldsWhatWasAsked(db: Db, perf: nat, session: string, ids: set<nat>)
    requires Pricing.VenueOk(db.book) && ids != {} && Holds.SetReservedHold(db, perf, session, ids).Ok?
    ensures var after := Holds.SetReservedHold(db, perf, session, ids).value;
            exists h: Hold ::
              && OnlyHold(db.holds, after.holds, h) && h.perf == perf && h.session == session
              && h.expiresAt == db.now + 600 && h.promo.None? && h.donation.None?
              && h.cart.Reserved? && SeatIds(h.cart) == ids && |h.cart.seats| == |ids|
              && forall s, k :: s in db.book.seats && 0 <= k < |h.cart.seats| && h.cart.seats[k].seat == s.id ==>
                   Pricing.BulkPrice(db.book, perf, s).Some?
                       && h.cart.seats[k].unit == Pricing.BulkPrice(db.book, perf, s).value.amount
  {
    var cart := Carts.ReservedCart(db, perf, ids);
    var h := Hold(db.nextHold, perf, session, db.now + HOLD_SECONDS, cart, None, None);
    ReplacedIs(db, perf, session, cart);
    CartIsAsked(db, perf, session, ids);
    hide Pricing.VenueOk, OnlyHold, SeatsOnChart, Taken, Pricing.BulkPrice, SeatIds;
    assert OnlyHold(db.holds, Holds.SetReservedHold(db, perf, session, ids).value.holds, h);
  }

  lemma CartIsAsked(db: Db, perf: nat, session: string, ids: set<nat>)
    requires Pricing.VenueOk(db.book) && ids != {} && Holds.SetReservedHold(db, perf, session, ids).Ok?
    ensures var cart := Carts.ReservedCart(db, perf, ids);
            && SeatIds(cart) == ids && |cart.seats| == |ids|
            && forall s, k :: s in db.book.seats && 0 <= k < |cart.seats| && cart.seats[k].seat == s.id ==>
                 Pricing.BulkPrice(db.book, perf, s).Some?
                     && cart.seats[k].unit == Pricing.BulkPrice(db.book, perf, s).value.amount
  {
    var chart := db.perfs[perf].chart;
    var seats := SeatsOnChart(db.book, chart, ids);
    hide SeatsOnChart, Taken, Pricing.BulkPrice, Pricing.VenueOk;
    Carts.AllFoundIff(db.book, chart, ids);
    assert forall id :: id in ids ==> Carts.Asked(seats, id);
    assert forall s :: s in seats ==> Pricing.BulkPrice(db.book, perf, s).Some?;
    hide Holds.SetReservedHold;
    CartSeats(db, perf, ids);
    CartPrices(db, perf, ids);
  }

  lemma CartSeats(db: Db, perf: nat, ids: set<nat>)
    requires Pricing.VenueOk(db.book) && perf in db.perfs
    requires forall id :: id in ids ==> Carts.Asked(SeatsOnChart(db.book, db.perfs[perf].chart, ids), id)
    ensures SeatIds(Carts.ReservedCart(db, perf, ids)) == ids
  {
    var seats, cart := SeatsOnChart(db.book, db.perfs[perf].chart, ids), Carts.ReservedCart(db, perf, ids);
    Carts.ReservedCartSeats(db, perf, ids);
    hide Pricing.VenueOk, SeatsOnChart, Pricing.BulkPrice;
    forall id | id in ids ensures id in SeatIds(cart) {
      assert Carts.Asked(seats, id);
      var k :| 0 <= k < |seats| && seats[k].id == id;
      assert cart.seats[k].seat == id && cart.seats[k] in cart.seats;
    }
  }

  lemma CartPrices(db: Db, perf: nat, ids: set<nat>)
    requires Pricing.VenueOk(db.book) && perf in db.perfs
    requires forall s :: s in SeatsOnChart(db.book, db.perfs[perf].chart, ids) ==>
        Pricing.BulkPrice(db.book, perf, s).Some?
    ensures var cart := Carts.ReservedCart(db, perf, ids);
            forall s, k :: s in db.book.seats && 0 <= k < |cart.seats| && cart.seats[k].seat == s.id ==>
              Pricing.BulkPrice(db.book, perf, s).Some?
                  && cart.seats[k].unit == Pricing.BulkPrice(db.book, perf, s).value.amount
  {
    var seats, cart := SeatsOnChart(db.book, db.perfs[perf].chart, ids), Carts.ReservedCart(db, perf, ids);
    Carts.SeatsOnChartOk(db.book, db.perfs[perf].chart, ids);
    hide Pricing.VenueOk, SeatsOnChart, Pricing.BulkPrice;
    forall s, k | s in db.book.seats && 0 <= k < |cart.seats| && cart.seats[k].seat == s.id
      ensures Pricing.BulkPrice(db.book, perf, s).Some?
      ensures cart.seats[k].unit == Pricing.BulkPrice(db.book, perf, s).value.amount
    {
      assert seats[k] in seats;
      SameSeat(db.book, s, seats[k]);
    }
  }

  lemma SameSeat(book: PriceBook, a: Seat, b: Seat)
    requires Pricing.VenueOk(book) && a in book.seats && b in book.seats && a.id == b.id
    ensures a == b
  {
    var i :| 0 <= i < |book.seats| && book.seats[i] == a;
    var j :| 0 <= j < |book.seats| && book.seats[j] == b;
    assert i == j;
  }

  /** An accepted GA selection is held for ten minutes at the tier's price, in place of
      what the session held there, and fits beside what is sold and held by others. */
  lemma GaSelectionFits(db: Db, perf: nat, session: string, tier: nat, quantity: int)
    requires quantity > 0 && Holds.SetGaHold(db, perf, session, tier, quantity).Ok?
    ensures var after := Holds.SetGaHold(db, perf, session, tier, quantity).value;
            && (exists h: Hold ::
                  && OnlyHold(db.holds, after.holds, h) && h.perf == perf && h.session == session
                  && h.expiresAt == db.now + 600 && h.promo.None? && h.donation.None?
                  && h.cart.Ga? && h.cart.qty == quantity && Some(h.cart.unit) == TierAmount(db.book.tiers, tier))
            && perf in db.allocs && after.allocs == db.allocs
            && db.allocs[perf].sold + ActiveGaHeld(after, perf, None) <= db.allocs[perf].capacity
  {
    var t := FindTier(db.book.tiers, tier).value;
    var cart := Ga(quantity, t.amount, t.currency);
    var h := Hold(db.nextHold, perf, session, db.now + HOLD_SECONDS, cart, None, None);
    var after := Replaced(db, perf, session, cart);
    ReplacedIs(db, perf, session, cart);
    HeldAfterReplace(db, perf, session, cart);
    hide OnlyHold, Replaced;
    assert OnlyHold(db.holds, after.holds, h);
  }

  function TierAmount(tiers: seq<PriceTier>, id: nat): Option<int> {
    match FindTier(tiers, id)
    case Some(t) => Some(t.amount)
    case None => None
  }

  lemma HeldAfterReplace(db: Db, perf: nat, session: string, cart: Cart)
    requires cart.Ga?
    ensures ActiveGaHeld(Replaced(db, perf, session, cart), perf, None)
            == ActiveGaHeld(db, perf, Some(session)) + cart.qty
  {
    var kept, after := Cleared(db.holds, perf, session), Replaced(db, perf, session, cart);
    SumFilter(db.holds, NotOf(perf, session), GaHeld(perf, db.now, None), GaHeld(perf, db.now, Some(session)));
    SumAppend(kept, after.holds[|kept|], GaHeld(perf, db.now, None));
  }

  // --- paying -----------------------------------------------------------

  /** The new tickets of a sale: one per admission held, unused. */
  predicate TicketsFor(before: seq<Ticket>, after: seq<Ticket>, h: Hold, o: nat) {
    && |after| == |before| + TicketCount(h.cart) && after[..|before|] == before
    && forall i :: |before| <= i < |after| ==>
         after[i].order == o && after[i].perf == h.perf && after[i].status.Valid? && after[i].usedAt.None?
  }

  lemma SaleTickets(db: Db, h: Hold)
    ensures TicketsFor(db.tickets, db.tickets + NewTickets(h, |db.orders|), h, |db.orders|)
    ensures forall perf, seat: nat :: Ticketed(db.tickets + NewTickets(h, |db.orders|), perf, seat) <==>
              Ticketed(db.tickets, perf, seat) || (perf == h.perf && seat in SeatIds(h.cart))
  {
    var minted := NewTickets(h, |db.orders|);
    forall perf, seat: nat
      ensures Ticketed(db.tickets + minted, perf, seat) <==>
                Ticketed(db.tickets, perf, seat) || (perf == h.perf && seat in SeatIds(h.cart))
    {
      assert forall t :: t in db.tickets + minted <==> t in db.tickets || t in minted;
      if h.cart.Reserved? && perf == h.perf && seat in SeatIds(h.cart) {
        var k :| 0 <= k < |h.cart.seats| && h.cart.seats[k].seat == seat;
        assert minted[k] in minted && Occupies(minted[k], perf, seat);
      }
    }
  }

  lemma SaleHolds(db: Db, h: Hold)
    requires Consistency.Consistent(db) && h in db.holds
    ensures forall x :: x in Filter(db.holds, NotRow(h.id)) <==> x in db.holds && x != h
  {
    FilterMembers(db.holds, NotRow(h.id));
    hide Inventory.InventoryOk, Passes.PassesOk, Ledger.PromosOk;
    forall x | x in db.holds && x.id == h.id ensures x == h { Carts.SameHold(db.perfs, db.holds, db.nextHold, x, h); }
  }

  /** The GA quantity a hold has of a performance. */
  function GaOf(h: Hold, p: nat): nat { if h.cart.Ga? && p == h.perf then h.cart.qty else 0 }

  function UseOf(h: Hold, code: string): nat { if PromoText(h) == Some(code) then 1 else 0 }

  /** Paying for a held cart turns exactly what was held into tickets: their seats
      become taken and no others, `sold` grows by the GA quantity and nowhere else,
      a code is counted once, the order has a line per seat at the held price, the
      hold is gone, and every other hold and order stays. */
  lemma SaleDeliversTheHold(db: Db, h: Hold, provider: Provider, ref: string, checkout: Option<string>)
    requires Consistency.Consistent(db) && h in db.holds && Fulfilment.FulfillHold(db, h, provider, ref, checkout).Ok?
    ensures var after := Fulfilment.FulfillHold(db, h, provider, ref, checkout).value;
            && TicketsFor(db.tickets, after.tickets, h, |db.orders|)
            && (forall perf, seat: nat :: Ticketed(after.tickets, perf, seat) <==>
                  Ticketed(db.tickets, perf, seat) || (perf == h.perf && seat in SeatIds(h.cart)))
            && (forall x :: x in after.holds <==> x in db.holds && x != h)
            && after.allocs.Keys == db.allocs.Keys
            && (forall p :: p in db.allocs ==> after.allocs[p] == db.allocs[p].(sold := db.allocs[p].sold + GaOf(h, p)))
            && after.promos.Keys == db.promos.Keys
            && (forall c :: c in db.promos ==>
                  after.promos[c] == db.promos[c].(count := db.promos[c].count + UseOf(h, c)))
            && |after.orders| == |db.orders| + 1 && after.orders[..|db.orders|] == db.orders
            && after.orders[|db.orders|] == SaleOrder(h, provider, ref, checkout)
            && after.passes == db.passes && after.redemptions == db.redemptions
  {
    SaleTickets(db, h);
    SaleHolds(db, h);
    SaleWrites(db, h, provider, ref, checkout);
    SaleCounts(db, h);
    hide Consistency.Consistent, NewTickets, Ticketed, Filter, SaleOrder, InventoryFailure, TicketsFor;
    hide TakeFrom, Counted, Fulfilment.FulfillHold;
  }

  lemma SaleWrites(db: Db, h: Hold, provider: Provider, ref: string, checkout: Option<string>)
    requires Fulfilment.FulfillHold(db, h, provider, ref, checkout).Ok?
    ensures Fulfilment.FulfillHold(db, h, provider, ref, checkout).value == db.(
              orders := db.orders + [SaleOrder(h, provider, ref, checkout)],
                  tickets := db.tickets + NewTickets(h, |db.orders|),
              allocs := TakeFrom(db.allocs, h), holds := Filter(db.holds, NotRow(h.id)),
                  promos := Counted(db.promos, h.promo))
  {
    hide InventoryFailure, NewTickets, Filter, SaleOrder, TakeFrom, Counted;
  }

  lemma SaleCounts(db: Db, h: Hold)
    ensures TakeFrom(db.allocs, h).Keys == db.allocs.Keys && Counted(db.promos, h.promo).Keys == db.promos.Keys
    ensures forall p :: p in db.allocs ==>
            TakeFrom(db.allocs, h)[p] == db.allocs[p].(sold := db.allocs[p].sold + GaOf(h, p))
    ensures forall c :: c in db.promos ==>
            Counted(db.promos, h.promo)[c] == db.promos[c].(count := db.promos[c].count + UseOf(h, c))
  {}

  /** The lines of the order: what was held at the price it was held at, then the gift. */
  lemma SaleLines(h: Hold, provider: Provider, ref: string, checkout: Option<string>)
    requires Carts.MoneyOk(h)
    ensures var o := SaleOrder(h, provider, ref, checkout);
            && o.perf == Some(h.perf) && o.status.Paid? && o.checkout == checkout
            && Sum(o.items, TicketQty()) == TicketCount(h.cart)
            && (h.cart.Ga? ==> Item(TicketLine, None, h.cart.qty, h.cart.unit) in o.items)
            && (h.cart.Reserved? ==> forall s :: s in h.cart.seats ==>
                  Item(TicketLine, Some(s.seat), 1, s.unit) in o.items)
            && (Donation(h) > 0 <==> exists i :: i in o.items && i.kind.DonationLine?)
            && o.payments == [Payment(provider, o.total, Succeeded, ref)]
  {
    var lines, gift := TicketItems(h.cart), DonationItems(Donation(h));
    SumConcat(lines, gift, TicketQty());
    SumConst(lines, TicketQty(), if h.cart.Ga? then h.cart.qty else 1);
    SumZero(gift, TicketQty());
    assert forall i :: i in lines + gift <==> i in lines || i in gift;
    if h.cart.Reserved? {
      forall s | s in h.cart.seats ensures Item(TicketLine, Some(s.seat), 1, s.unit) in lines {
        var k :| 0 <= k < |h.cart.seats| && h.cart.seats[k] == s;
        assert lines[k] == Item(TicketLine, Some(s.seat), 1, s.unit);
      }
    }
    if Donation(h) > 0 { assert gift[0] in gift; }
  }

  function TicketQty(): Item -> int { (i: Item) => if i.kind.TicketLine? then i.qty else 0 }

  // --- undoing ----------------------------------------------------------

  /** The parts of the database a reversal writes. */
  lemma ReversalWrites(db: Db, o: nat, a: Action)
    requires o < |db.orders| && db.orders[o].status.Paid? && Entitlements.Undoes(a, o) && Attempt(db, a).Ok?
    ensures var after := Next(db, a);
            && after.tickets == MapRows(db.tickets, Voided(o)) && after.allocs == VoidOrder(db, o).allocs
            && after.holds == db.holds && after.promos == db.promos && after.perfs == db.perfs && after.book == db.book
            && |after.orders| == |db.orders|
                 && (forall i :: 0 <= i < |db.orders| && i != o ==> after.orders[i] == db.orders[i])
            && after.orders[o].status == (if a.Refund? then OrderStatus.Refunded else Cancelled)
  {
    hide Sum, Filter, RestoredPasses, PassSpent, FirstSucceeded, SoldAPass, Voided;
  }

  lemma VoidedIsFree(tickets: seq<Ticket>, o: nat, i: nat)
    requires Inventory.SeatsOk(tickets) && i < |tickets| && tickets[i].order == o && tickets[i].seat.Some?
    requires Live(tickets[i])
    ensures !Ticketed(MapRows(tickets, Voided(o)), tickets[i].perf, tickets[i].seat.value)
  {
    var after := MapRows(tickets, Voided(o));
    forall j | 0 <= j < |after| ensures !Occupies(after[j], tickets[i].perf, tickets[i].seat.value) {
      assert after[j] == Voided(o)(tickets[j]);
    }
  }

  lemma PaidTicketsLive(db: Db, o: nat, i: nat)
    requires Consistency.Consistent(db) && o < |db.orders| && db.orders[o].status.Paid? && i < |db.tickets|
    requires db.tickets[i].order == o
    ensures Live(db.tickets[i]) && Inventory.SeatsOk(db.tickets)
  {
    Consistency.InventoryIsOk(db);
  }

  /** Cancelling or refunding a PAID order frees exactly what the order had: its
      tickets become void and no others, its seats can be sold again, `sold` falls by
      its seatless tickets at its performance and nowhere else, and no hold, price,
      code or other order changes. */
  lemma ReversalFreesTheOrder(db: Db, o: nat, a: Action)
    requires Consistency.Consistent(db) && o < |db.orders| && db.orders[o].status.Paid?
    requires Entitlements.Undoes(a, o) && Attempt(db, a).Ok?
    ensures var after := Next(db, a);
            && |after.tickets| == |db.tickets|
            && (forall i :: 0 <= i < |db.tickets| ==>
                  after.tickets[i] ==
                    if db.tickets[i].order == o then db.tickets[i].(status := Void) else db.tickets[i])
            && (forall i :: 0 <= i < |db.tickets| && db.tickets[i].order == o && db.tickets[i].seat.Some? ==>
                  !Ticketed(after.tickets, db.tickets[i].perf, db.tickets[i].seat.value))
            && (forall q :: q in db.allocs ==>
                  q in after.allocs && after.allocs[q].sold == db.allocs[q].sold - SeatlessAt(db, o, q))
            && after.holds == db.holds && after.promos == db.promos && after.perfs == db.perfs && after.book == db.book
            && |after.orders| == |db.orders|
                 && (forall i :: 0 <= i < |db.orders| && i != o ==> after.orders[i] == db.orders[i])
            && after.orders[o].status == (if a.Refund? then OrderStatus.Refunded else Cancelled)
  {
    ReversalWrites(db, o, a);
    Consistency.InventoryIsOk(db);
    hide Next, Attempt, VoidOrder, Ticketed, Sum, Inventory.InventoryOk, Consistency.Consistent;
    forall q | q in db.allocs
      ensures q in VoidOrder(db, o).allocs
      ensures VoidOrder(db, o).allocs[q].sold == db.allocs[q].sold - SeatlessAt(db, o, q)
    {
      Entitlements.UndoneSold(db, o, q);
    }
    forall i | 0 <= i < |db.tickets| && db.tickets[i].order == o && db.tickets[i].seat.Some?
      ensures !Ticketed(MapRows(db.tickets, Voided(o)), db.tickets[i].perf, db.tickets[i].seat.value)
    {
      PaidTicketsLive(db, o, i);
      VoidedIsFree(db.tickets, o, i);
    }
  }

  /** The seatless tickets an order has at a performance. */
  function SeatlessAt(db: Db, o: nat, perf: nat): int
    requires o < |db.orders|
  {
    if db.orders[o].perf == Some(perf) then Sum(db.tickets, Inventory.SeatlessOf(o)) else 0
  }

  // --- cancelling in three commits --------------------------------------

  lemma VoidTwice(db: Db, o: nat)
    requires o < |db.orders|
    ensures VoidOrder(VoidOrder(db, o), o) == VoidOrder(db, o)
  {
    SumZero(VoidOrder(db, o).tickets, LiveGaOf(o));
    hide Sum;
    assert MapRows(MapRows(db.tickets, Voided(o)), Voided(o)) == MapRows(db.tickets, Voided(o));
  }

  lemma RestoreTwice(db: Db, o: nat)
    ensures RestoreRedemptions(RestoreRedemptions(db, o), o) == RestoreRedemptions(db, o)
  {
    var kept := Filter(db.redemptions, NotOn(o));
    FilterMembers(db.redemptions, NotOn(o));
    FilterKeepsAll(kept, NotOn(o)) by { assert forall i :: 0 <= i < |kept| ==> kept[i] in kept; }
    hide Filter, Sum;
    assert forall p: nat :: !SpentOn(kept, o, p);
    assert RestoredPasses(RestoredPasses(db.passes, db.redemptions, o), kept, o)
        == RestoredPasses(db.passes, db.redemptions, o);
  }

  lemma VoidRestoreCommute(db: Db, o: nat)
    requires o < |db.orders|
    ensures VoidOrder(RestoreRedemptions(db, o), o) == RestoreRedemptions(VoidOrder(db, o), o)
  {
    hide Sum, Filter, RestoredPasses, MapRows;
  }

  /** The view commits the void, the restore and the status one after the other. If
      it breaks off after either of the first two, cancelling again ends in exactly
      the state one whole cancel would have made. */
  lemma BrokenCancelIsResumed(db: Db, o: nat)
    requires o < |db.orders|
    ensures var voided := VoidOrder(db, o); var restored := RestoreRedemptions(voided, o);
            Attempt(voided, Cancel(o)) == Attempt(db, Cancel(o)) == Attempt(restored, Cancel(o))
            || db.orders[o].status.Cancelled? || db.orders[o].status.Refunded?
  {
    var voided := VoidOrder(db, o);
    VoidTwice(db, o);
    RestoreTwice(voided, o);
    VoidRestoreCommute(voided, o);
    assert voided.orders == db.orders && RestoreRedemptions(voided, o).orders == db.orders;
    hide VoidOrder, RestoreRedemptions;
  }

  /** Between the commits the order is PAID with void tickets: the books are in step
      there exactly when it has no ticket. */
  lemma BrokenCancelShowsIff(db: Db, o: nat)
    requires Consistency.Consistent(db) && o < |db.orders| && db.orders[o].status.Paid?
    ensures var voided := VoidOrder(db, o);
            Inventory.InventoryOk(voided.allocs, voided.orders, voided.tickets) <==>
                forall i :: 0 <= i < |db.tickets| ==> db.tickets[i].order != o
  {
    var voided := VoidOrder(db, o);
    Consistency.InventoryIsOk(db);
    hide Consistency.Consistent;
    if forall i :: 0 <= i < |db.tickets| ==> db.tickets[i].order != o {
      SumZero(db.tickets, LiveGaOf(o));
      assert MapRows(db.tickets, Voided(o)) == db.tickets;
    } else {
      var i :| 0 <= i < |db.tickets| && db.tickets[i].order == o;
      assert !Live(voided.tickets[i]) && voided.orders[o].status.Paid?;
    }
    hide Inventory.LinesOk, Inventory.SoldOk, Inventory.SeatsOk, Sum;
  }

  /** The last of the three commits writes the status over whatever it is by then. */
  function WriteCancelled(db: Db, o: nat): Db
    requires o < |db.orders|
  {
    db.(orders := db.orders[o := db.orders[o].(status := Cancelled)])
  }

  /** It keeps the order's past and its payments in step exactly when no refund came
      first: a REFUNDED order becomes CANCELLED, with its money gone. */
  lemma StatusWriteKeepsFinalIff(db: Db, o: nat)
    requires Consistency.Consistent(db) && o < |db.orders|
    ensures var order := WriteCancelled(db, o).orders[o];
            && (History.OrderContinues(db.orders[o], order) <==> !db.orders[o].status.Refunded?)
            && (Ledger.PaymentsOk(order) <==> !db.orders[o].status.Refunded?)
            && Ledger.NetMoney(order) == (if db.orders[o].status.Refunded? then 0 else order.total)
  {
    Consistency.OrderIsOk(db, o);
    History.NetMoneyIs(db.orders[o]);
    hide Consistency.Consistent, Sum;
  }

  lemma NothingLeftToRestore(db: Db, o: nat)
    requires Consistency.Consistent(db) && o < |db.orders| && !db.orders[o].status.Paid?
    ensures RestoreRedemptions(db, o) == db
  {
    Consistency.PassesAreOk(db);
    hide Consistency.Consistent;
    forall r | r in db.redemptions ensures r.order != o { History.RowsOnlyOnPaid(db, r); }
    hide Passes.PassesOk;
    FilterKeepsAll(db.redemptions, NotOn(o)) by { assert forall i :: 0 <= i < |db.redemptions| ==>
        db.redemptions[i] in db.redemptions; }
    assert forall p: nat :: !SpentOn(db.redemptions, o, p);
    hide Filter, Sum, SpentOn;
    assert RestoredPasses(db.passes, db.redemptions, o) == db.passes;
  }

  /** A cancel that had read PAID and is overtaken by a refund: its void and restore do
      nothing more, and its status write hides the refund. */
  lemma OvertakenCancelHidesTheRefund(db: Db, o: nat, stripe: Option<string>)
    requires Consistency.Consistent(db) && o < |db.orders| && db.orders[o].status.Paid?
        && Attempt(db, Refund(o, stripe)).Ok?
    ensures var refunded := Next(db, Refund(o, stripe));
            var end := WriteCancelled(RestoreRedemptions(VoidOrder(refunded, o), o), o);
            && VoidOrder(refunded, o) == refunded && RestoreRedemptions(refunded, o) == refunded
            && refunded.orders[o].status.Refunded? && end.orders[o].status.Cancelled?
            && !History.OrderContinues(refunded.orders[o], end.orders[o]) && Ledger.NetMoney(end.orders[o]) == 0
  {
    var refunded := Next(db, Refund(o, stripe));
    ReversalWrites(db, o, Refund(o, stripe));
    Consistency.StepKeepsConsistent(db, Refund(o, stripe));
    hide Next, Consistency.Consistent, Attempt;
    History.ReversedIsFinal(refunded, o, stripe, []);
    NothingLeftToRestore(refunded, o);
    StatusWriteKeepsFinalIff(refunded, o);
    hide VoidOrder, RestoreRedemptions, Ledger.NetMoney, History.OrderContinues;
  }
}

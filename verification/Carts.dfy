/** What holds keep in step with each other, with the tickets and with the clock. */
module Carts {
  import opened Tables
  import opened Schema
  import opened Holds
  import opened Fulfilment
  import opened Inventory
  import Pricing
  import Promotions

  /** A frozen discount leaves something to charge, and a gift is within bounds. */
  ghost predicate MoneyOk(h: Hold) {
    && (h.promo.Some? ==> 0 <= h.promo.value.discount < HoldTotal(h))
    && (h.donation.Some? ==> 0 < h.donation.value <= MAX_DONATION)
  }

  ghost predicate HoldOk(h: Hold, perfs: map<nat, Performance>, nextHold: nat) {
    h.id < nextHold && h.perf in perfs && SeatsDistinct(h.cart) && MoneyOk(h)
  }

  /** Ids are unique, and a session has at most one hold per performance. */
  ghost predicate HoldsOk(perfs: map<nat, Performance>, holds: seq<Hold>, nextHold: nat) {
    && (forall i :: 0 <= i < |holds| ==> HoldOk(holds[i], perfs, nextHold))
    && (forall i, j :: 0 <= i < j < |holds| ==>
          holds[i].id != holds[j].id && !(holds[i].perf == holds[j].perf && holds[i].session == holds[j].session))
  }

  /** Unexpired holds of different sessions share no seat, on any performance. */
  ghost predicate SessionsApart(holds: seq<Hold>, now: int) {
    forall a, b :: a in holds && b in holds && Unexpired(a, now) && Unexpired(b, now) && a.session != b.session ==>
      SeatIds(a.cart) !! SeatIds(b.cart)
  }

  /** No seat of an unexpired hold has a live ticket for the hold's performance. */
  ghost predicate HeldSeatsFree(holds: seq<Hold>, now: int, tickets: seq<Ticket>) {
    forall h, s: nat :: h in holds && Unexpired(h, now) && s in SeatIds(h.cart) ==> !Ticketed(tickets, h.perf, s)
  }

  ghost predicate CartTablesOk(
    book: PriceBook, perfs: map<nat, Performance>, holds: seq<Hold>, nextHold: nat, now: int, tickets: seq<Ticket>)
  {
    Pricing.VenueOk(book) && HoldsOk(perfs, holds, nextHold) && SessionsApart(holds, now)
        && HeldSeatsFree(holds, now, tickets)
  }

  ghost predicate CartsOk(db: Db) {
    CartTablesOk(db.book, db.perfs, db.holds, db.nextHold, db.now, db.tickets)
  }

  // --- lookups ----------------------------------------------------------

  lemma {:induction false} FindHoldIn(holds: seq<Hold>, id: nat)
    ensures FindHold(holds, id).Some? ==> FindHold(holds, id).value in holds && FindHold(holds, id).value.id == id
    ensures FindHold(holds, id).None? ==> forall h :: h in holds ==> h.id != id
  {
    if holds != [] {
      FindHoldIn(holds[..|holds| - 1], id);
      assert holds == holds[..|holds| - 1] + [holds[|holds| - 1]];
    }
  }

  lemma SameHold(perfs: map<nat, Performance>, holds: seq<Hold>, nextHold: nat, a: Hold, b: Hold)
    requires HoldsOk(perfs, holds, nextHold) && a in holds && b in holds
    requires a.id == b.id || (a.perf == b.perf && a.session == b.session)
    ensures a == b
  {
    var i :| 0 <= i < |holds| && holds[i] == a;
    var j :| 0 <= j < |holds| && holds[j] == b;
    assert i == j;
  }

  lemma FoundHold(db: Db, h: Hold)
    requires HoldsOk(db.perfs, db.holds, db.nextHold) && h in db.holds
    ensures FindHold(db.holds, h.id) == Some(h)
  {
    FindHoldIn(db.holds, h.id);
    SameHold(db.perfs, db.holds, db.nextHold, h, FindHold(db.holds, h.id).value);
  }

  // --- steps ------------------------------------------------------------

  /** Deleting holds keeps everything. */
  lemma FilterKeepsCarts(db: Db, keep: Hold -> bool)
    requires CartsOk(db)
    ensures CartsOk(db.(holds := Filter(db.holds, keep)))
  {
    var kept := Filter(db.holds, keep);
    FilterMembers(db.holds, keep);
    forall i: nat, j: nat | i < j < |kept|
      ensures kept[i].id != kept[j].id && !(kept[i].perf == kept[j].perf && kept[i].session == kept[j].session)
    {
      var a, b := FilterPair(db.holds, keep, i, j);
    }
    forall i | 0 <= i < |kept| ensures HoldOk(kept[i], db.perfs, db.nextHold) {
      assert kept[i] in db.holds;
    }
  }

  /** Replacing a session's hold by one whose seats are free. */
  lemma ReplaceKeepsCarts(db: Db, perf: nat, session: string, cart: Cart)
    requires CartsOk(db) && perf in db.perfs && SeatsDistinct(cart)
    requires forall s :: s in SeatIds(cart) ==> !Taken(db, perf, session, s)
    ensures CartsOk(Replaced(db, perf, session, cart))
  {
    var after := Replaced(db, perf, session, cart);
    var kept := Cleared(db.holds, perf, session);
    var h := after.holds[|kept|];
    FilterKeepsCarts(db, NotOf(perf, session));
    FilterMembers(db.holds, NotOf(perf, session));
    assert forall i :: 0 <= i < |kept| ==> kept[i] in kept && kept[i] in db.holds;
    forall a | a in after.holds ensures a in kept || a == h {}
    forall a | a in kept && a.session != session && Unexpired(a, db.now) ensures SeatIds(a.cart) !! SeatIds(cart) {
      assert forall s :: s in SeatIds(cart) && s in SeatIds(a.cart) ==> HeldByOther(db.holds, db.now, session, s);
    }
  }

  /** Editing the money of one hold. */
  lemma EditKeepsCarts(db: Db, edit: Hold -> Hold)
    requires CartsOk(db)
    requires forall i :: 0 <= i < |db.holds| ==>
      && var (h, e) := (db.holds[i], edit(db.holds[i]));
      && e == h.(promo := e.promo, donation := e.donation) && MoneyOk(e)
    ensures CartsOk(db.(holds := MapRows(db.holds, edit)))
  {
    var holds := MapRows(db.holds, edit);
    forall e | e in holds
      ensures exists h :: h in db.holds && e == edit(h) && e.cart == h.cart && e.perf == h.perf
                          && e.session == h.session && e.expiresAt == h.expiresAt
    {
      var i :| 0 <= i < |holds| && holds[i] == e;
      assert db.holds[i] in db.holds;
    }
  }

  lemma DropPromoKeepsCarts(db: Db, id: nat)
    requires CartsOk(db)
    ensures CartsOk(db.(holds := MapRows(db.holds, WithPromo(id, None))))
  {
    EditKeepsCarts(db, WithPromo(id, None));
  }

  lemma DonationKeepsCarts(db: Db, id: nat, d: Option<int>)
    requires CartsOk(db) && (d.Some? ==> 0 < d.value <= MAX_DONATION)
    ensures CartsOk(db.(holds := MapRows(db.holds, WithDonation(id, d))))
  {
    EditKeepsCarts(db, WithDonation(id, d));
  }

  lemma SeatsOnChartOk(book: PriceBook, chart: Option<nat>, ids: set<nat>)
    requires Pricing.VenueOk(book)
    ensures var seats := SeatsOnChart(book, chart, ids); forall i, j :: 0 <= i < j < |seats| ==>
            seats[i].id != seats[j].id
    ensures forall s :: s in SeatsOnChart(book, chart, ids) <==>
            s in book.seats && s.id in ids && Some(s.chart) == chart
  {
    if chart.Some? {
      FilterMembers(book.seats, Requested(ids, chart.value));
      var seats := SeatsOnChart(book, chart, ids);
      forall i: nat, j: nat | i < j < |seats| ensures seats[i].id != seats[j].id {
        var a, b := FilterPair(book.seats, Requested(ids, chart.value), i, j);
      }
    }
  }

  predicate Asked(seats: seq<Seat>, id: nat) { exists s :: s in seats && s.id == id }

  /** Comparing two lengths, as set_reserved_hold does, tells whether every requested
      seat is on the chart. */
  lemma AllFoundIff(book: PriceBook, chart: Option<nat>, ids: set<nat>)
    requires Pricing.VenueOk(book)
    ensures var seats := SeatsOnChart(book, chart, ids);
            |seats| == |ids| <==> forall id :: id in ids ==> Asked(seats, id)
  {
    var seats := SeatsOnChart(book, chart, ids);
    SeatsOnChartOk(book, chart, ids);
    hide Pricing.VenueOk, SeatsOnChart, Filter;
    var found := set s | s in seats :: s.id;
    DistinctIds(seats);
    assert found <= ids;
    if |seats| == |ids| { SameSize(found, ids); }
    assert (forall id :: id in ids ==> Asked(seats, id)) ==> found == ids;
  }

  lemma SameSize(a: set<nat>, b: set<nat>)
    requires a <= b && |a| == |b|
    ensures a == b
  {
    var rest := b - a;
    assert a + rest == b && a * rest == {};
    assert |a + rest| + |a * rest| == |a| + |rest|;
    assert rest == {};
  }

  lemma {:induction false} DistinctIds(seats: seq<Seat>)
    requires forall i, j :: 0 <= i < j < |seats| ==> seats[i].id != seats[j].id
    ensures |set s | s in seats :: s.id| == |seats|
  {
    if seats != [] {
      var init, last := seats[..|seats| - 1], seats[|seats| - 1];
      DistinctIds(init);
      assert last.id !in set s | s in init :: s.id;
      assert seats == init + [last];
      assert (set s | s in seats :: s.id) == (set s | s in init :: s.id) + {last.id};
    }
  }

  function ReservedCart(db: Db, perf: nat, ids: set<nat>): Cart
    requires perf in db.perfs
  {
    Reserved(MapRows(SeatsOnChart(db.book, db.perfs[perf].chart, ids), ToHeldSeat(db.book, perf)))
  }

  lemma ReservedCartSeats(db: Db, perf: nat, ids: set<nat>)
    requires Pricing.VenueOk(db.book) && perf in db.perfs
    ensures SeatsDistinct(ReservedCart(db, perf, ids)) && SeatIds(ReservedCart(db, perf, ids)) <= ids
  {
    var seats, cart := SeatsOnChart(db.book, db.perfs[perf].chart, ids), ReservedCart(db, perf, ids);
    SeatsOnChartOk(db.book, db.perfs[perf].chart, ids);
    assert forall k :: 0 <= k < |seats| ==> cart.seats[k].seat == seats[k].id;
    forall s | s in SeatIds(cart) ensures s in ids {
      var k :| 0 <= k < |cart.seats| && cart.seats[k].seat == s;
      assert seats[k] in seats;
    }
  }

  /** The cart of an accepted selection: none of its seats is taken. */
  lemma ReservedCartIsFree(db: Db, perf: nat, session: string, ids: set<nat>)
    requires Pricing.VenueOk(db.book) && ids != {} && SetReservedHold(db, perf, session, ids).Ok?
    ensures SetReservedHold(db, perf, session, ids).value == Replaced(db, perf, session, ReservedCart(db, perf, ids))
    ensures SeatsDistinct(ReservedCart(db, perf, ids))
    ensures forall s :: s in SeatIds(ReservedCart(db, perf, ids)) ==> s in ids && !Taken(db, perf, session, s)
  {
    ReservedCartSeats(db, perf, ids) by { hide Taken; }
    hide Pricing.VenueOk, ReservedCart, SeatsDistinct;
  }

  lemma SetReservedKeepsCarts(db: Db, perf: nat, session: string, ids: set<nat>)
    requires CartsOk(db) && SetReservedHold(db, perf, session, ids).Ok?
    ensures CartsOk(SetReservedHold(db, perf, session, ids).value)
  {
    hide HoldsOk, SessionsApart, HeldSeatsFree, Taken;
    if ids == {} {
      FilterKeepsCarts(db, NotOf(perf, session));
    } else {
      ReservedCartIsFree(db, perf, session, ids);
      ReplaceKeepsCarts(db, perf, session, ReservedCart(db, perf, ids));
    }
  }

  lemma ApplyPromoKeepsCarts(db: Db, session: string, id: nat, code: string)
    requires CartsOk(db) && ApplyPromo(db, session, id, code).Ok?
    ensures CartsOk(ApplyPromo(db, session, id, code).value)
  {
    var h, promo := CartOf(db, session, id).value, db.promos[code];
    FindHoldIn(db.holds, id);
    Promotions.ValidatedDiscountLeavesACharge(promo, HoldTotal(h), HoldCurrency(h, db.currency), db.now);
    var edit := WithPromo(id, Some(AppliedPromo(code, Promotions.ComputeDiscount(promo, HoldTotal(h)))));
    forall i | 0 <= i < |db.holds| ensures MoneyOk(edit(db.holds[i])) {
      if db.holds[i].id == id { SameHold(db.perfs, db.holds, db.nextHold, h, db.holds[i]); }
    }
    EditKeepsCarts(db, edit);
  }

  /** Fulfilling or redeeming an unexpired hold: its seats become tickets, and no
      other unexpired hold wanted them on this performance. */
  lemma MintKeepsCarts(db: Db, h: Hold, order: Order)
    requires CartsOk(db) && h in db.holds && Unexpired(h, db.now)
    ensures CartsOk(Mint(db, h, order))
  {
    var after := Mint(db, h, order);
    FilterKeepsCarts(db, NotRow(h.id));
    FilterMembers(db.holds, NotRow(h.id));
    forall g, s: nat | g in after.holds && Unexpired(g, db.now) && s in SeatIds(g.cart)
      ensures !Ticketed(after.tickets, g.perf, s)
    {
      if t :| t in after.tickets && Occupies(t, g.perf, s) {
        if t !in db.tickets {
          assert t in NewTickets(h, |db.orders|);
          var k :| 0 <= k < |NewTickets(h, |db.orders|)| && NewTickets(h, |db.orders|)[k] == t;
          assert h.cart.seats[k] in h.cart.seats && s in SeatIds(h.cart);
          assert g.session == h.session;
          SameHold(db.perfs, db.holds, db.nextHold, g, h);
        }
      }
    }
  }

  /** Tickets that stop being live, or are scanned, free seats or leave them alone. */
  lemma TicketsKeepCarts(db: Db, tickets: seq<Ticket>)
    requires CartsOk(db) && |tickets| == |db.tickets|
    requires forall i :: 0 <= i < |tickets| ==>
      tickets[i].perf == db.tickets[i].perf && tickets[i].seat == db.tickets[i].seat
          && (Live(tickets[i]) ==> Live(db.tickets[i]))
    ensures CartsOk(db.(tickets := tickets))
  {
    forall h, s: nat | h in db.holds && Unexpired(h, db.now) && s in SeatIds(h.cart)
      ensures !Ticketed(tickets, h.perf, s)
    {
      if t :| t in tickets && Occupies(t, h.perf, s) {
        var i :| 0 <= i < |tickets| && tickets[i] == t;
        assert db.tickets[i] in db.tickets && Occupies(db.tickets[i], h.perf, s);
      }
    }
  }

  /** Time only expires holds; performances are only added or rescheduled. */
  lemma DeskKeepsCarts(db: Db, after: Db)
    requires CartsOk(db) && after.holds == db.holds && after.nextHold == db.nextHold && after.tickets == db.tickets
    requires after.now >= db.now && (after.book == db.book || Pricing.VenueOk(after.book)) && forall p ::
        p in db.perfs ==> p in after.perfs
    ensures CartsOk(after)
  {}

  lemma HeldIsOk(db: Db, h: Hold)
    requires CartsOk(db) && h in db.holds
    ensures HoldOk(h, db.perfs, db.nextHold)
  {
    var i :| 0 <= i < |db.holds| && db.holds[i] == h;
  }

  // --- what follows -----------------------------------------------------

  /** A reserved hold that is still unexpired is never refused by the re-check of
      _fulfill_reserved. */
  lemma ReservedRecheckNeverFails(db: Db, h: Hold)
    requires CartsOk(db) && h in db.holds && Unexpired(h, db.now) && h.cart.Reserved?
    ensures InventoryFailure(db, h).None?
  {}
}

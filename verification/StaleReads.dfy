/** Webhook deliveries that commit on a hold that was edited, replaced or given up
    since they read it: what survives every interleaving, and exactly what does not. */
module StaleReads {
  import opened Tables
  import opened Schema
  import opened Holds
  import opened Fulfilment
  import opened Webhooks
  import System
  import Scanning
  import Promotions
  import Pricing
  import Inventory
  import Carts
  import Passes
  import Ledger
  import Consistency
  import Reservations

  // --- what a row still says of its hold --------------------------------

  /** A hold that was in the table once: the table has it no more, or has it with at
      most its code and its gift changed. */
  ghost predicate Known(db: Db, row: Hold) {
    && Carts.HoldOk(row, db.perfs, db.nextHold)
    && (row.promo.Some? ==> row.promo.value.code in db.promos)
    && (forall h :: h in db.holds && h.id == row.id ==> SameCart(h, row))
  }

  predicate SameCart(h: Hold, row: Hold) { h == row.(promo := h.promo, donation := h.donation) }

  ghost predicate AllKnown(w: World) {
    forall i :: 0 <= i < |w.deliveries| && w.deliveries[i].phase.Looked? && w.deliveries[i].phase.read.HoldRow? ==>
      Known(w.db, w.deliveries[i].phase.read.row)
  }

  /** Ids, carts and owners of holds never change, and ids are never used again. */
  ghost predicate Descends(db: Db, after: Db) {
    && db.perfs.Keys <= after.perfs.Keys && db.promos.Keys <= after.promos.Keys && db.nextHold <= after.nextHold
    && (forall e :: e in after.holds ==> e.id >= db.nextHold || exists h :: h in db.holds && SameCart(e, h))
  }

  lemma KnownDescends(db: Db, after: Db, row: Hold)
    requires Known(db, row) && Descends(db, after)
    ensures Known(after, row)
  {
    hide Carts.MoneyOk;
  }

  lemma FilterDescends(db: Db, keep: Hold -> bool)
    ensures Descends(db, db.(holds := Filter(db.holds, keep)))
  {
    FilterMembers(db.holds, keep);
    assert forall e :: e in Filter(db.holds, keep) ==> SameCart(e, e);
  }

  lemma EditDescends(db: Db, edit: Hold -> Hold)
    requires forall i :: 0 <= i < |db.holds| ==> SameCart(edit(db.holds[i]), db.holds[i])
    ensures Descends(db, db.(holds := MapRows(db.holds, edit)))
  {
    forall e | e in MapRows(db.holds, edit) ensures exists h :: h in db.holds && SameCart(e, h) {
      var i :| 0 <= i < |db.holds| && edit(db.holds[i]) == e;
      assert db.holds[i] in db.holds;
    }
  }

  lemma ReplaceDescends(db: Db, perf: nat, session: string, cart: Cart)
    ensures Descends(db, Replaced(db, perf, session, cart))
  {
    FilterDescends(db, NotOf(perf, session));
    hide Filter;
  }

  lemma MintDescends(db: Db, h: Hold, order: Order, promos: map<string, Promo>)
    requires db.promos.Keys <= promos.Keys
    ensures Descends(db, Mint(db, h, order).(promos := promos))
  {
    FilterDescends(db, NotRow(h.id));
    hide Filter, NewTickets, TakeFrom;
  }

  lemma FewerDescends(db: Db, after: Db, keep: Hold -> bool)
    requires after.perfs == db.perfs && after.promos == db.promos && after.nextHold == db.nextHold
    requires after.holds == Filter(db.holds, keep)
    ensures Descends(db, after)
  {
    FilterDescends(db, keep);
    hide Filter;
  }

  lemma HereDescends(db: Db, after: Db)
    requires db.perfs.Keys <= after.perfs.Keys && db.promos.Keys <= after.promos.Keys && db.nextHold <= after.nextHold
    requires after.holds == db.holds
    ensures Descends(db, after)
  {
    assert forall e :: e in db.holds ==> SameCart(e, e);
  }

  lemma CartStepDescends(db: Db, a: System.Action)
    requires a.SetGaHold? || a.SetReservedHold? || a.Release? || a.ReleaseById? || a.Sweep?
    ensures Descends(db, System.Next(db, a))
  {
    HereDescends(db, db);
    hide Descends, Filter, SeatsOnChart, Taken, ActiveGaHeld;
    match a
    case SetGaHold(perf, session, tier, quantity) =>
      FilterDescends(db, NotOf(perf, session));
      if quantity > 0 && System.Attempt(db, a).Ok? {
        var t := FindTier(db.book.tiers, tier).value;
        ReplaceDescends(db, perf, session, Ga(quantity, t.amount, t.currency));
      }
    case SetReservedHold(perf, session, ids) =>
      FilterDescends(db, NotOf(perf, session));
      if System.Attempt(db, a).Ok? && ids != {} { ReplaceDescends(db, perf, session, Carts.ReservedCart(db, perf, ids));
          }
    case Release(perf, session) => FilterDescends(db, NotOf(perf, session));
    case ReleaseById(session, id) => FilterDescends(db, NotId(id, session));
    case Sweep => FilterDescends(db, UnexpiredAt(db.now));
  }

  lemma PromoDescends(db: Db, id: nat, p: Option<AppliedPromo>)
    ensures Descends(db, db.(holds := MapRows(db.holds, WithPromo(id, p))))
  {
    EditDescends(db, WithPromo(id, p));
  }

  lemma GiftDescends(db: Db, id: nat, d: Option<int>)
    ensures Descends(db, db.(holds := MapRows(db.holds, WithDonation(id, d))))
  {
    EditDescends(db, WithDonation(id, d));
  }

  lemma EditStepDescends(db: Db, a: System.Action)
    requires a.ApplyPromo? || a.RemovePromo? || a.SetDonation? || a.ClearDonation?
    ensures Descends(db, System.Next(db, a))
  {
    HereDescends(db, db);
    hide Descends, Promotions.ValidateCode, Promotions.ComputeDiscount, HoldTotal, HoldCurrency, CartOf, FindHold;
    hide MapRows;
    hide WithPromo, WithDonation;
    if System.Next(db, a) != db {
      if a.ApplyPromo? {
        var h := CartOf(db, a.session, a.hold).value;
        PromoDescends(db, a.hold, Some(AppliedPromo(a.code,
            Promotions.ComputeDiscount(db.promos[a.code], HoldTotal(h)))));
      } else if a.RemovePromo? {
        PromoDescends(db, a.hold, None);
      } else {
        GiftDescends(db, a.hold, if a.SetDonation? then Some(a.amount) else None);
      }
    }
  }

  lemma CountedKeepsCodes(promos: map<string, Promo>, applied: Option<AppliedPromo>)
    ensures Counted(promos, applied).Keys == promos.Keys
  {}

  lemma PaidDescends(db: Db, h: Hold, provider: Provider, ref: string, checkout: Option<string>)
    requires FulfillHold(db, h, provider, ref, checkout).Ok?
    ensures Descends(db, FulfillHold(db, h, provider, ref, checkout).value)
  {
    hide Descends, Mint, SaleOrder, InventoryFailure, Counted;
    CountedKeepsCodes(db.promos, h.promo);
    MintDescends(db, h, SaleOrder(h, provider, ref, checkout), Counted(db.promos, h.promo));
  }

  lemma CheckedOutDescends(db: Db, id: nat, ref: string)
    ensures Descends(db, System.Next(db, System.TestCheckout(id, ref)))
  {
    HereDescends(db, db);
    hide Descends, FulfillHold, FindHold;
    if System.FulfillById(db, id, ref).Ok? { PaidDescends(db, FindHold(db.holds, id).value, Test, ref, None); }
  }

  lemma RedeemedDescends(db: Db, id: nat, pass: nat)
    ensures Descends(db, System.Next(db, System.UsePass(id, pass)))
  {
    HereDescends(db, db);
    hide Descends, RedemptionFailure, NewRedemptions, FindHold, Spent, NewTickets, TakeFrom, Filter;
    if System.RedeemById(db, id, pass).Ok? {
      FewerDescends(db, System.Next(db, System.UsePass(id, pass)), NotRow(FindHold(db.holds, id).value.id));
    }
  }

  lemma SaleStepDescends(db: Db, a: System.Action)
    requires a.TestCheckout? || a.UsePass? || a.GiveDirectly? || a.SellPass?
    ensures Descends(db, System.Next(db, a))
  {
    hide Descends;
    match a
    case TestCheckout(id, ref) =>
      hide System.Next;
      CheckedOutDescends(db, id, ref);
    case UsePass(id, pass) =>
      hide System.Next;
      RedeemedDescends(db, id, pass);
    case _ => HereDescends(db, System.Next(db, a));
  }

  lemma DeskStepDescends(db: Db, a: System.Action)
    requires a.Tick? || a.SavePerformance? || a.SavePrices? || a.SaveBlocks? || a.SavePromo? || a.SaveProduct?
        || a.Scan? || a.Refund? || a.Cancel?
    ensures Descends(db, System.Next(db, a))
  {
    hide Descends, Filter, Sum, Voided, RestoredPasses, FirstSucceeded, PassSpent, Scanning.Verdict, Pricing.VenueOk;
    HereDescends(db, System.Next(db, a));
  }

  lemma StepDescends(db: Db, a: System.Action)
    requires !a.Deliver?
    ensures Descends(db, System.Next(db, a))
  {
    hide Descends, System.Next;
    if a.SetGaHold? || a.SetReservedHold? || a.Release? || a.ReleaseById? || a.Sweep? { CartStepDescends(db, a); }
    else if a.ApplyPromo? || a.RemovePromo? || a.SetDonation? || a.ClearDonation? { EditStepDescends(db, a); }
    else if a.TestCheckout? || a.UsePass? || a.GiveDirectly? || a.SellPass? { SaleStepDescends(db, a); }
    else { DeskStepDescends(db, a); }
  }

  // --- what survives ----------------------------------------------------

  /** With its hold still there a stale row mints just what the hold would. */
  lemma StandingFound(db: Db, row: Hold)
    requires Known(db, row) && FindHold(db.holds, row.id).Some?
    ensures var h := FindHold(db.holds, row.id).value;
            h in db.holds && SameCart(h, row) && AsFound(db, row) == row
  {
    Carts.FindHoldIn(db.holds, row.id);
  }

  lemma SeatsHaveIds(cart: Cart)
    ensures cart.Reserved? ==> forall k :: 0 <= k < |cart.seats| ==> cart.seats[k].seat in SeatIds(cart)
  {}

  lemma SeatlessTickets(h: Hold, o: nat, tickets: seq<Ticket>)
    requires SeatIds(h.cart) == {}
    ensures forall p, s: nat :: Ticketed(tickets + NewTickets(h, o), p, s) ==> Ticketed(tickets, p, s)
  {
    var minted := NewTickets(h, o);
    SeatsHaveIds(h.cart);
    assert forall t :: t in minted ==> t.seat.None?;
    assert forall t :: t in tickets + minted <==> t in tickets || t in minted;
  }

  /** A mint that takes no seat. */
  lemma SeatlessMintKeepsCarts(db: Db, h: Hold, order: Order)
    requires Carts.CartsOk(db) && SeatIds(h.cart) == {}
    ensures Carts.CartsOk(Mint(db, h, order))
  {
    Carts.FilterKeepsCarts(db, NotRow(h.id));
    FilterMembers(db.holds, NotRow(h.id));
    SeatlessTickets(h, |db.orders|, db.tickets);
    hide Ticketed, NewTickets, Carts.HoldsOk, Carts.SessionsApart, Pricing.VenueOk;
  }

  lemma StaleMintKeepsCarts(db: Db, row: Hold, order: Order)
    requires Carts.CartsOk(db) && Known(db, row) && Unexpired(row, db.now)
    ensures Carts.CartsOk(Mint(db, AsFound(db, row), order))
  {
    var found := AsFound(db, row);
    if FindHold(db.holds, row.id).Some? {
      StandingFound(db, row);
      var h := FindHold(db.holds, row.id).value;
      Carts.MintKeepsCarts(db, h, order);
      assert Mint(db, found, order) == Mint(db, h, order) by { hide Filter, Carts.CartsOk, FindHold; }
    } else {
      SeatlessMintKeepsCarts(db, found, order);
    }
  }

  lemma FoundIsDistinct(db: Db, row: Hold)
    requires Known(db, row)
    ensures Inventory.SeatsDistinct(AsFound(db, row).cart)
  {
    if FindHold(db.holds, row.id).Some? { StandingFound(db, row); }
  }

  /** The order of any hold, stale or not, has its one payment and its hold's tickets. */
  lemma OrderIsPaid(h: Hold, ref: string, session: string)
    ensures var order := SaleOrder(h, Provider.Stripe, ref, Some(session));
            && Ledger.PaymentsOk(order) && !Passes.IsRedemption(order) && Inventory.OrderFor(order, h)
            && order.promo == (match h.promo case Some(p) => Some(p.code) case None => None)
  {}

  /** The order a created delivery of a hold writes, and the database it leaves. */
  function StaleOrder(db: Db, d: Delivery, row: Hold): Order {
    SaleOrder(AsFound(db, row), Provider.Stripe, d.ref, Some(d.session))
  }

  lemma CreatedIsMint(db: Db, d: Delivery, row: Hold)
    requires Outcomes(db, d, HoldRow(row)).1.Created?
    ensures var found := AsFound(db, row);
            && Outcomes(db, d, HoldRow(row)).0
                 == Mint(db, found, StaleOrder(db, d, row)).(promos := Counted(db.promos, row.promo))
            && Unexpired(row, db.now) && InventoryFailure(db, found).None? && FindOrder(db.orders, d.session).None?
  {
    hide Mint, SaleOrder, InventoryFailure, FindOrder, FindHold, Counted;
  }

  lemma StaleCommitKeepsSound(db: Db, d: Delivery, row: Hold)
    requires Consistency.Sound(db) && Known(db, row) && Outcomes(db, d, HoldRow(row)).1.Created?
    ensures Consistency.Sound(Outcomes(db, d, HoldRow(row)).0)
  {
    var order, found := StaleOrder(db, d, row), AsFound(db, row);
    CreatedIsMint(db, d, row);
    StaleMintKeepsCarts(db, row, order) by { hide Inventory.InventoryOk, Passes.PassesOk, Ledger.PromosOk; }
    FoundIsDistinct(db, row) by { hide Consistency.Sound; }
    OrderIsPaid(found, d.ref, d.session);
    assert found.promo == row.promo && order.checkout == Some(d.session);
    hide Consistency.Sound, Outcomes, AsFound, StaleOrder, Mint, InventoryFailure, Carts.CartsOk;
    Ledger.FindOrderIs(db.orders, d.session);
    Consistency.MintIsSound(db, found, order);
  }

  lemma ListedSaleKeepsSound(db: Db, d: Delivery, product: nat, listing: Product)
    requires Consistency.Sound(db) && Outcomes(db, d, Listing(product, listing)).1.Created?
    ensures Consistency.Keeps(db, Outcomes(db, d, Listing(product, listing)).0)
  {
    var listed := db.(products := db.products[product := AsListed(db, product, listing)]);
    Ledger.FindOrderIs(db.orders, d.session);
    hide Carts.CartTablesOk, Inventory.InventoryOk, Passes.PassesOk, Ledger.PromosOk, FindOrder;
    Consistency.PassSaleKeeps(listed, product, Provider.Stripe, d.ref, Some(d.session));
  }

  lemma GiftKeepsSound(db: Db, d: Delivery, cents: int)
    requires Consistency.Sound(db) && Outcomes(db, d, GiftAmount(cents)).1.Created?
    ensures Consistency.Keeps(db, Outcomes(db, d, GiftAmount(cents)).0)
  {
    Ledger.FindOrderIs(db.orders, d.session);
    hide Carts.CartTablesOk, Inventory.InventoryOk, Passes.PassesOk, Ledger.PromosOk, FindOrder;
    Consistency.GiftKeeps(db, cents, Provider.Stripe, d.ref, Some(d.session));
  }

  ghost predicate KnownRead(db: Db, read: Read) { read.HoldRow? ==> Known(db, read.row) }

  lemma CommitKeepsSound(db: Db, d: Delivery, read: Read)
    requires Consistency.Sound(db) && KnownRead(db, read)
    ensures Consistency.Sound(Outcomes(db, d, read).0) && Descends(db, Outcomes(db, d, read).0)
  {
    hide Consistency.Sound, Known, Descends;
    if Outcomes(db, d, read).1.Created? {
      match read
      case HoldRow(row) =>
        StaleCommitKeepsSound(db, d, row);
        var found := AsFound(db, row);
        MintDescends(db, found, SaleOrder(found, Provider.Stripe, d.ref, Some(d.session)),
            Counted(db.promos, found.promo));
        hide Filter, FindHold, FindOrder, AsFound, NewTickets, SaleOrder, InventoryFailure;
      case GiftAmount(cents) =>
        GiftKeepsSound(db, d, cents);
        HereDescends(db, Outcomes(db, d, read).0);
      case Listing(product, listing) =>
        ListedSaleKeepsSound(db, d, product, listing);
        HereDescends(db, Outcomes(db, d, read).0);
    } else {
      FailureChangesNothing(db, d, read);
      HereDescends(db, db);
    }
  }

  /** A hold that was just read is known. */
  lemma ReadIsKnown(db: Db, id: nat)
    requires Consistency.Sound(db) && FindHold(db.holds, id).Some?
    ensures Known(db, FindHold(db.holds, id).value)
  {
    Carts.FindHoldIn(db.holds, id);
    var row := FindHold(db.holds, id).value;
    hide Inventory.InventoryOk, Passes.PassesOk;
    Carts.HeldIsOk(db, row);
    forall h | h in db.holds && h.id == row.id ensures SameCart(h, row) {
      Carts.SameHold(db.perfs, db.holds, db.nextHold, h, row);
    }
  }

  lemma KnownThroughout(w: World, db: Db, deliveries: seq<Delivery>)
    requires AllKnown(w) && Descends(w.db, db) && |deliveries| >= |w.deliveries|
    requires forall i :: 0 <= i < |deliveries| && deliveries[i].phase.Looked? ==>
      (i < |w.deliveries| && deliveries[i] == w.deliveries[i]) || KnownRead(db, deliveries[i].phase.read)
    ensures AllKnown(World(db, deliveries))
  {
    forall i | 0 <= i < |deliveries| && deliveries[i].phase.Looked? && deliveries[i].phase.read.HoldRow?
      ensures Known(db, deliveries[i].phase.read.row)
    {
      if i < |w.deliveries| && deliveries[i] == w.deliveries[i] { KnownDescends(w.db, db, deliveries[i].phase.read.row);
          }
    }
  }

  lemma TakeKeepsSound(w: World, step: Step)
    requires Consistency.Sound(w.db) && AllKnown(w)
    ensures Consistency.Sound(Take(w, step).db) && AllKnown(Take(w, step))
  {
    hide Consistency.Sound, Known, Descends, Outcomes, System.Next, AllKnown;
    HereDescends(w.db, w.db) by { hide Consistency.Sound; }
    var after := Take(w, step);
    match step
    case Arrive(_, _, _) => KnownThroughout(w, w.db, after.deliveries);
    case Look(i) =>
      if i < |w.deliveries| && w.deliveries[i].phase.Arrived? {
        LookKnows(w.db, w.deliveries[i]);
        hide AfterLook;
        KnownThroughout(w, w.db, after.deliveries);
      }
    case Finish(i) =>
      if i < |w.deliveries| && w.deliveries[i].phase.Looked? {
        assert KnownRead(w.db, w.deliveries[i].phase.read) by { assert AllKnown(w); KnownAt(w, i); }
        CommitKeepsSound(w.db, w.deliveries[i], w.deliveries[i].phase.read);
        KnownThroughout(w, after.db, after.deliveries);
      }
    case Other(a) =>
      if !a.Deliver? {
        Consistency.StepKeepsSound(w.db, a);
        StepDescends(w.db, a);
        KnownThroughout(w, after.db, after.deliveries);
      }
  }

  lemma KnownAt(w: World, i: nat)
    requires AllKnown(w) && i < |w.deliveries| && w.deliveries[i].phase.Looked?
    ensures KnownRead(w.db, w.deliveries[i].phase.read)
  {}

  lemma LookKnows(db: Db, d: Delivery)
    requires Consistency.Sound(db)
    ensures AfterLook(db, d).Looked? ==> KnownRead(db, AfterLook(db, d).read)
  {
    hide Consistency.Sound, Known, FindOrder;
    if d.what.HoldCheckout? && FindHold(db.holds, d.what.hold).Some? { ReadIsKnown(db, d.what.hold); }
  }

  lemma {:induction false} AlwaysSound(start: Db, steps: seq<Step>)
    requires System.Opening(start)
    ensures Consistency.Sound(Run(World(start, []), steps).db) && AllKnown(Run(World(start, []), steps))
  {
    if steps == [] {
      Consistency.OpeningIsConsistent(start);
    } else {
      hide Consistency.Sound, AllKnown, Take, System.Opening;
      AlwaysSound(start, steps[..|steps| - 1]);
      TakeKeepsSound(Run(World(start, []), steps[..|steps| - 1]), steps[|steps| - 1]);
    }
  }

  /** In every interleaving whatever, stale reads included: inventory, carts, passes,
      code counters, sessions and scans stay in step, and every order is paid as it
      says. Only that its lines add up can be lost. */
  lemma EveryInterleavingIsSound(start: Db, steps: seq<Step>)
    requires System.Opening(start)
    ensures var db := Run(World(start, []), steps).db;
            && Inventory.InventoryOk(db.allocs, db.orders, db.tickets) && Carts.CartsOk(db)
            && Passes.PassesOk(db.passes, db.redemptions, db.orders, db.tickets)
            && Ledger.PromosOk(db.promos, db.orders, db.holds) && Ledger.CheckoutsOk(db.orders)
                 && Ledger.ScansOk(db.tickets)
            && forall o :: 0 <= o < |db.orders| ==> Ledger.PaymentsOk(db.orders[o])
  {
    AlwaysSound(start, steps);
    hide Carts.CartTablesOk, Inventory.InventoryOk, Passes.PassesOk, Ledger.PromosOk, Ledger.PaymentsOk;
    hide Ledger.CheckoutsOk, Ledger.ScansOk, Run, System.Opening;
  }

  // --- reserved selections ----------------------------------------------

  /** A paid delivery of a reserved selection mints a ticket per seat if the selection
      still stands, and otherwise none at all. */
  lemma TicketsIffStillHeld(db: Db, d: Delivery, row: Hold)
    requires Known(db, row) && row.cart.Reserved? && row.cart.seats != [] && Outcomes(db, d, HoldRow(row)).1.Created?
    ensures var after := Outcomes(db, d, HoldRow(row)).0; var standing := FindHold(db.holds, row.id).Some?;
            && |after.tickets| == |db.tickets| + (if standing then |row.cart.seats| else 0)
            && (after.tickets == db.tickets <==> !standing)
  {
    CreatedIsMint(db, d, row);
    if FindHold(db.holds, row.id).Some? { StandingFound(db, row); }
    hide Known, FindHold, Outcomes, SaleOrder, InventoryFailure, Filter, Counted, TakeFrom;
  }

  /** A hold's row has lost its selection. */
  predicate Lost(db: Db, row: Hold) { row.cart.Reserved? && FindHold(db.holds, row.id).None? }

  /** The order of a delivery is within its own books exactly when the selection was
      not lost, or was lost without a code. */
  lemma OrderAddsIff(db: Db, d: Delivery, row: Hold)
    requires Known(db, row) && Outcomes(db, d, HoldRow(row)).1.Created?
    ensures var after := Outcomes(db, d, HoldRow(row)).0;
            && |after.orders| == |db.orders| + 1
            && (Ledger.TotalsOk(after.orders[|db.orders|]) <==> !Lost(db, row) || row.promo.None?)
  {
    CreatedIsMint(db, d, row);
    OrderIsPaid(AsFound(db, row), d.ref, d.session);
    if Lost(db, row) {
      LostOrder(db, d, row);
    } else {
      if FindHold(db.holds, row.id).Some? { StandingFound(db, row); }
      Ledger.SaleOrderAdds(row, Provider.Stripe, d.ref, Some(d.session));
    }
    hide Outcomes, InventoryFailure, Filter, Counted, TakeFrom, NewTickets, FindHold, SaleOrder;
  }

  lemma LostOrder(db: Db, d: Delivery, row: Hold)
    requires Carts.MoneyOk(row) && Lost(db, row)
    ensures var order := StaleOrder(db, d, row); var gift := Donation(row);
            && order.total == gift && order.items == DonationItems(gift) && order.discount == Discount(row)
            && Passes.LineTotal(order) == gift && Ledger.TicketGross(order) == 0 && Ledger.Gifts(order) == gift
            && (Ledger.TotalsOk(order) <==> row.promo.None?)
  {
    var order, items := StaleOrder(db, d, row), DonationItems(Donation(row));
    assert TicketItems(Reserved([])) == [];
    SumConst(items, Passes.LineAmount(), Donation(row));
    SumConst(items, Ledger.TicketAmount(), 0);
    SumConst(items, Ledger.GiftAmount(), Donation(row));
  }

  /** If the buyer gives up or replaces a selection between the two steps, the paid
      delivery still writes an order: for the gift alone, without a ticket, and with
      a total and discount that differ from its lines by exactly the discount. */
  lemma LostSelectionBuysNothing(db: Db, d: Delivery, row: Hold)
    requires Carts.MoneyOk(row) && Lost(db, row) && Unexpired(row, db.now) && FindOrder(db.orders, d.session).None?
    ensures var (after, outcome) := Outcomes(db, d, HoldRow(row));
            && outcome == Created(|db.orders|) && after.tickets == db.tickets && |after.orders| == |db.orders| + 1
            && var order := after.orders[|db.orders|];
               && order.total == Donation(row) && order.items == DonationItems(Donation(row))
               && order.total + order.discount == Passes.LineTotal(order) + Discount(row)
  {
    var found := row.(cart := Reserved([]));
    assert AsFound(db, row) == found && SeatIds(found.cart) == {};
    assert InventoryFailure(db, found).None?;
    assert NewTickets(found, |db.orders|) == [];
    LostOrder(db, d, row);
    hide Filter, Ticketed, Sum, FindHold, FindOrder;
  }

  // --- general admission ------------------------------------------------

  /** A paid delivery of a GA hold, standing or not, sells its quantity. */
  lemma StaleGaSells(db: Db, d: Delivery, row: Hold)
    requires row.cart.Ga? && Outcomes(db, d, HoldRow(row)).1.Created?
    ensures var after := Outcomes(db, d, HoldRow(row)).0;
            && row.perf in db.allocs && |after.tickets| == |db.tickets| + row.cart.qty
            && after.allocs == db.allocs[row.perf := db.allocs[row.perf].(sold := db.allocs[row.perf].sold
                 + row.cart.qty)]
            && after.holds == Filter(db.holds, NotRow(row.id)) && after.now == db.now
  {
    CreatedIsMint(db, d, row);
    hide Outcomes, SaleOrder, Filter, Counted;
  }

  /** Another hold of the performance is then refused at its payment exactly when it
      no longer fits beside what is sold. */
  lemma OtherRefusedIff(db: Db, d: Delivery, row: Hold, other: Hold)
    requires row.cart.Ga? && Outcomes(db, d, HoldRow(row)).1.Created? && other.cart.Ga? && other.perf == row.perf
    ensures row.perf in db.allocs
    ensures InventoryFailure(Outcomes(db, d, HoldRow(row)).0, other).Some? <==>
            db.allocs[row.perf].sold + row.cart.qty + other.cart.qty > db.allocs[row.perf].capacity
  {
    StaleGaSells(db, d, row);
    hide Outcomes;
  }

  lemma HeldWithout(db: Db, row: Hold, p: nat)
    requires Known(db, row) && row.cart.Ga? && Unexpired(row, db.now)
    ensures Sum(Filter(db.holds, NotRow(row.id)), GaHeld(p, db.now, None)) <= ActiveGaHeld(db, p, None)
    ensures FindHold(db.holds, row.id).None? ==> Filter(db.holds, NotRow(row.id)) == db.holds
    ensures FindHold(db.holds, row.id).Some? && p == row.perf ==>
              Sum(Filter(db.holds, NotRow(row.id)), GaHeld(p, db.now, None)) + row.cart.qty <= ActiveGaHeld(db, p, None)
  {
    SumFilterLeq(db.holds, NotRow(row.id), GaHeld(p, db.now, None));
    Carts.FindHoldIn(db.holds, row.id);
    if FindHold(db.holds, row.id).Some? {
      SumDelete(db.holds, NotRow(row.id), GaHeld(p, db.now, None), FindHold(db.holds, row.id).value);
    } else {
      assert forall i :: 0 <= i < |db.holds| ==> db.holds[i] in db.holds;
      FilterKeepsAll(db.holds, NotRow(row.id));
    }
  }

  /** Selling from a stale GA row keeps room for every unexpired hold exactly when its
      hold still stands, or its quantity fits beside everything sold and held. */
  lemma StaleGaKeepsRoomIff(db: Db, d: Delivery, row: Hold)
    requires Known(db, row) && row.cart.Ga? && Outcomes(db, d, HoldRow(row)).1.Created? && Reservations.Room(db)
    ensures row.perf in db.allocs
    ensures Reservations.Room(Outcomes(db, d, HoldRow(row)).0) <==>
            FindHold(db.holds, row.id).Some?
            || db.allocs[row.perf].sold + ActiveGaHeld(db, row.perf, None)
                + row.cart.qty <= db.allocs[row.perf].capacity
  {
    var after := Outcomes(db, d, HoldRow(row)).0;
    StaleGaSells(db, d, row);
    CreatedIsMint(db, d, row);
    hide Outcomes, FindHold;
    FilterMembers(db.holds, NotRow(row.id));
    forall p | p in db.allocs
      ensures after.allocs[p].sold == db.allocs[p].sold + if p == row.perf then row.cart.qty else 0
      ensures ActiveGaHeld(after, p, None) <= ActiveGaHeld(db, p, None)
      ensures FindHold(db.holds, row.id).None? ==> ActiveGaHeld(after, p, None) == ActiveGaHeld(db, p, None)
      ensures FindHold(db.holds, row.id).Some? && p == row.perf ==>
                ActiveGaHeld(after, p, None) + row.cart.qty <= ActiveGaHeld(db, p, None)
    {
      HeldWithout(db, row, p);
    }
    hide ActiveGaHeld, Filter, Known;
  }

  // --- atomicity --------------------------------------------------------

  /** Two holds that differ in code or gift write different orders. */
  lemma OrdersDiffer(h: Hold, row: Hold, ref: string, session: string)
    requires SameCart(h, row) && h != row && Carts.MoneyOk(h) && Carts.MoneyOk(row)
    ensures SaleOrder(h, Provider.Stripe, ref, Some(session)) != SaleOrder(row, Provider.Stripe, ref, Some(session))
  {
    assert HoldTotal(h) == HoldTotal(row);
    if h.promo == row.promo { assert Donation(h) != Donation(row); }
  }

  /** A whole delivery of a hold writes that hold's order, or nothing. */
  lemma DeliveredOrder(db: Db, session: string, id: nat, ref: string)
    requires FindOrder(db.orders, session).None?
    ensures var after, hold := System.Next(db, System.Deliver(session, HoldCheckout(id), ref)), FindHold(db.holds, id);
            after == db || (hold.Some? && after.orders
                == db.orders + [SaleOrder(hold.value, Provider.Stripe, ref, Some(session))])
  {
    hide FindHold, FindOrder, SaleOrder, InventoryFailure, Filter, NewTickets, TakeFrom, Counted;
  }

  lemma TouchedIsNotAtomic(db: Db, d: Delivery, row: Hold)
    requires Consistency.Sound(db) && Known(db, row) && d.what == HoldCheckout(row.id)
    requires Outcomes(db, d, HoldRow(row)).1.Created? && FindHold(db.holds, row.id) != Some(row)
    ensures Outcomes(db, d, HoldRow(row)).0 != System.Next(db, System.Deliver(d.session, d.what, d.ref))
  {
    CreatedIsMint(db, d, row);
    DeliveredOrder(db, d.session, row.id, d.ref);
    hide System.Next;
    var orders := Outcomes(db, d, HoldRow(row)).0.orders;
    assert orders == db.orders + [StaleOrder(db, d, row)] && orders[|db.orders|] == StaleOrder(db, d, row);
    if FindHold(db.holds, row.id).Some? {
      StandingFound(db, row);
      var h := FindHold(db.holds, row.id).value;
      HeldMoney(db, h);
      OrdersDiffer(h, row, d.ref, d.session);
      assert (db.orders + [SaleOrder(h, Provider.Stripe, d.ref, Some(d.session))])[|db.orders|] != orders[|db.orders|];
    }
    hide Consistency.Sound, Known, Outcomes, SaleOrder, FindHold, FindOrder, Counted, Filter, NewTickets, TakeFrom;
  }

  lemma HeldMoney(db: Db, h: Hold)
    requires Consistency.Sound(db) && h in db.holds
    ensures Carts.MoneyOk(h)
  {
    hide Inventory.InventoryOk, Passes.PassesOk, Ledger.PromosOk;
    Carts.HeldIsOk(db, h);
  }

  /** A commit that creates does what the whole delivery would do at that moment
      exactly when what was read still stands. */
  lemma CommitIsAtomicIff(db: Db, d: Delivery, read: Read)
    requires Consistency.Sound(db) && KnownRead(db, read) && Reads(d) && d.phase == Looked(read)
    requires Outcomes(db, d, read).1.Created?
    ensures Outcomes(db, d, read).0 == System.Next(db, System.Deliver(d.session, d.what, d.ref)) <==>
            Untouched(db, read)
  {
    if Untouched(db, read) {
      FreshIsAtomic(db, d, read);
    } else if read.HoldRow? {
      TouchedIsNotAtomic(db, d, read.row);
    } else {
      TouchedListing(db, d, read.product, read.listing);
    }
    hide Consistency.Sound, Outcomes, System.Next, Known;
  }

  lemma TouchedListing(db: Db, d: Delivery, product: nat, listing: Product)
    requires d.what == PassCheckout(product) && Outcomes(db, d, Listing(product, listing)).1.Created?
    requires !(product in db.products && db.products[product] == AsListed(db, product, listing))
    ensures Outcomes(db, d, Listing(product, listing)).0 != System.Next(db, System.Deliver(d.session, d.what, d.ref))
  {
    hide FindOrder;
    var sold, after := Outcomes(db, d, Listing(product, listing)).0,
        System.Next(db, System.Deliver(d.session, d.what, d.ref));
    if after != db {
      var o := |db.orders|;
      assert sold.orders[o].total == listing.price && after.orders[o].total == db.products[product].price;
      assert sold.passes[|db.passes|] == Sold(product, AsListed(db, product, listing), o);
      assert after.passes[|db.passes|] == Sold(product, db.products[product], o);
    }
  }

  // --- it happens -------------------------------------------------------

  lemma RunMore(w: World, steps: seq<Step>, step: Step)
    ensures Run(w, steps + [step]) == Take(Run(w, steps), step)
  {
    assert (steps + [step])[..|steps|] == steps;
  }

  /** A delivery arrives for a hold that was just made, looks, and finishes only after
      two more transactions. */
  function Overtaken(make: System.Action, hold: nat, ref: string, drop: System.Action, next: System.Action): seq<Step> {
    [Other(make)] + [Arrive("cs", HoldCheckout(hold), ref)] + [Look(0)] + [Other(drop)] + [Other(next)] + [Finish(0)]
  }

  lemma LookedAt(db: Db, hold: nat, ref: string)
    requires FindOrder(db.orders, "cs").None? && FindHold(db.holds, hold).Some?
    requires Unexpired(FindHold(db.holds, hold).value, db.now)
    ensures var d := Delivery("cs", HoldCheckout(hold), ref, Arrived);
            && Take(World(db, []), Arrive("cs", HoldCheckout(hold), ref)) == World(db, [d])
            && Take(World(db, [d]), Look(0))
                 == World(db, [d.(phase := Looked(HoldRow(FindHold(db.holds, hold).value)))])
  {
    hide FindOrder, FindHold;
  }

  lemma FinishAlone(db: Db, d: Delivery)
    requires d.phase.Looked?
    ensures Take(World(db, [d]), Finish(0)).db == Outcomes(db, d, d.phase.read).0
  {
    hide Outcomes;
  }

  lemma OvertakenRun(
    db: Db, make: System.Action, hold: nat, ref: string, drop: System.Action, next: System.Action, made: Db, later: Db,
        row: Hold)
    requires !make.Deliver? && !drop.Deliver? && !next.Deliver?
    requires made == System.Next(db, make) && later == System.Next(System.Next(made, drop), next)
    requires FindOrder(made.orders, "cs").None? && FindHold(made.holds, hold) == Some(row) && Unexpired(row, made.now)
    ensures var d := Delivery("cs", HoldCheckout(hold), ref, Looked(HoldRow(row)));
            Run(World(db, []), Overtaken(make, hold, ref, drop, next)).db == Outcomes(later, d, HoldRow(row)).0
  {
    var w, dropped := World(db, []), System.Next(made, drop);
    var s1 := [Other(make)];
    var s2 := s1 + [Arrive("cs", HoldCheckout(hold), ref)];
    var s3 := s2 + [Look(0)];
    var s4 := s3 + [Other(drop)];
    var s5 := s4 + [Other(next)];
    var d := Delivery("cs", HoldCheckout(hold), ref, Looked(HoldRow(row)));
    assert Take(w, Other(make)) == World(made, []) && Take(World(made, [d]), Other(drop)) == World(dropped, [d]);
    assert Take(World(dropped, [d]), Other(next)) == World(later, [d]);
    LookedAt(made, hold, ref);
    FinishAlone(later, d);
    assert Run(w, s1) == Take(w, s1[0]);
    RunMore(w, s1, Arrive("cs", HoldCheckout(hold), ref));
    RunMore(w, s2, Look(0));
    RunMore(w, s3, Other(drop));
    RunMore(w, s4, Other(next));
    RunMore(w, s5, Finish(0));
    hide System.Next, Outcomes, Run, Take, FindHold, FindOrder;
  }

  /** One hold of a whole performance. */
  function WholeHold(db: Db, id: nat, perf: nat, session: string, t: PriceTier): Hold
    requires perf in db.allocs && db.allocs[perf].capacity > 0
  {
    Hold(id, perf, session, db.now + HOLD_SECONDS, Ga(db.allocs[perf].capacity, t.amount, t.currency), None, None)
  }

  lemma HandsOver(start: Db, perf: nat, tier: nat, t: PriceTier)
    requires System.Opening(start) && perf in start.perfs && perf in start.allocs && start.allocs[perf].capacity > 0
    requires FindTier(start.book.tiers, tier) == Some(t)
    ensures var all, id := start.allocs[perf].capacity, start.nextHold;
            var made := start.(holds := [WholeHold(start, id, perf, "a", t)], nextHold := id + 1);
            var later := start.(holds := [WholeHold(start, id + 1, perf, "b", t)], nextHold := id + 2);
            && System.Next(start, System.SetGaHold(perf, "a", tier, all)) == made
            && System.Next(System.Next(made, System.Release(perf, "a")), System.SetGaHold(perf, "b", tier, all))
                 == later
            && start.orders == [] && start.allocs[perf].sold == 0
  {
    assert start.holds == [] && start.orders == [] && start.allocs[perf].sold == 0;
    hide System.Next, System.Opening, FindTier;
    var made := start.(holds := [WholeHold(start, start.nextHold, perf, "a", t)], nextHold := start.nextHold + 1);
    TakesAll(start, perf, "a", tier);
    GivesUp(made, made.holds[0]);
    TakesAll(made.(holds := []), perf, "b", tier);
  }

  /** From any opening a stale GA delivery can strand a hold: "a" takes a whole
      performance, starts paying and lets go of it, "b" takes it, and then "a"'s
      payment sells it under "b"'s unexpired hold. */
  lemma StaleGaStrandsAHold(start: Db, perf: nat, tier: nat, ref: string)
    requires System.Opening(start) && perf in start.perfs && perf in start.allocs && start.allocs[perf].capacity > 0
    requires FindTier(start.book.tiers, tier).Some?
    ensures var all := start.allocs[perf].capacity;
            var db := Run(World(start, []), Overtaken(System.SetGaHold(perf, "a", tier, all), start.nextHold, ref,
                                                      System.Release(perf, "a"), System.SetGaHold(perf, "b", tier,
                                                          all))).db;
            exists h :: h in db.holds && h.session == "b" && Unexpired(h, db.now) && InventoryFailure(db, h).Some?
  {
    var all, t, id := start.allocs[perf].capacity, FindTier(start.book.tiers, tier).value, start.nextHold;
    var make, drop, next := System.SetGaHold(perf, "a", tier, all), System.Release(perf, "a"),
        System.SetGaHold(perf, "b", tier, all);
    HandsOver(start, perf, tier, t);
    hide System.Next, Outcomes, Run, System.Opening, Overtaken, FindTier;
    var a, b := WholeHold(start, id, perf, "a", t), WholeHold(start, id + 1, perf, "b", t);
    var made, later := start.(holds := [a], nextHold := id + 1), start.(holds := [b], nextHold := id + 2);
    assert FindOrder(made.orders, "cs").None? && FindHold(made.holds, id) == Some(a);
    hide FindOrder, FindHold;
    OvertakenRun(start, make, id, ref, drop, next, made, later, a);
    StrandedBy(later, a, b, Delivery("cs", HoldCheckout(id), ref, Looked(HoldRow(a))));
  }

  lemma TakesAll(db: Db, perf: nat, session: string, tier: nat)
    requires perf in db.perfs && perf in db.allocs && db.allocs[perf].capacity > 0 && db.allocs[perf].sold == 0
    requires db.holds == []
    requires FindTier(db.book.tiers, tier).Some?
    ensures var all, t := db.allocs[perf].capacity, FindTier(db.book.tiers, tier).value;
            System.Next(db, System.SetGaHold(perf, session, tier, all)) == db.(
              holds := [Hold(db.nextHold, perf, session, db.now + HOLD_SECONDS, Ga(all, t.amount, t.currency), None,
                  None)],
              nextHold := db.nextHold + 1)
  {
    hide FindTier;
  }

  lemma StrandedBy(db: Db, a: Hold, b: Hold, d: Delivery)
    requires db.holds == [b] && b.id != a.id && b.session == "b" && Unexpired(b, db.now) && Unexpired(a, db.now)
    requires a.cart.Ga? && b.cart.Ga? && b.perf == a.perf && a.perf in db.allocs && db.allocs[a.perf].sold == 0
    requires a.cart.qty == b.cart.qty == db.allocs[a.perf].capacity && db.orders == []
    ensures var after := Outcomes(db, d, HoldRow(a)).0;
            exists h :: h in after.holds && h.session == "b" && Unexpired(h, after.now) && InventoryFailure(after,
                h).Some?
  {
    var after := Outcomes(db, d, HoldRow(a)).0;
    assert Outcomes(db, d, HoldRow(a)).1.Created?;
    OtherRefusedIff(db, d, a, b);
    StaleGaSells(db, d, a);
    FilterMember(db.holds, NotRow(a.id), b);
    hide Outcomes, InventoryFailure;
    assert b in after.holds;
  }

  lemma SelectsAlone(db: Db, perf: nat, session: string, ids: set<nat>)
    requires ids != {} && SetReservedHold(db, perf, session, ids).Ok? && db.holds == []
    ensures perf in db.perfs
    ensures System.Next(db, System.SetReservedHold(perf, session, ids)) == db.(
              holds := [Hold(db.nextHold, perf, session, db.now + HOLD_SECONDS, Carts.ReservedCart(db, perf, ids), None,
                  None)],
              nextHold := db.nextHold + 1)
  {
    hide SeatsOnChart, Taken, Pricing.BulkPrice;
  }

  lemma GivesUp(db: Db, h: Hold)
    requires db.holds == [h]
    ensures System.Next(db, System.Release(h.perf, h.session)) == db.(holds := [])
    ensures System.Next(db.(holds := []), System.Sweep) == db.(holds := [])
  {
    FilterNone([h], NotOf(h.perf, h.session));
  }

  /** From any opening an accepted selection can be paid for and bring no ticket: it
      is given up while its payment is under way. */
  lemma LostSelectionHappens(start: Db, perf: nat, ids: set<nat>, ref: string)
    requires System.Opening(start) && ids != {} && SetReservedHold(start, perf, "a", ids).Ok?
    ensures var db := Run(World(start, []), Overtaken(System.SetReservedHold(perf, "a", ids), start.nextHold, ref,
                                                      System.Release(perf, "a"), System.Sweep)).db;
            |db.orders| == 1 && db.orders[0].status.Paid? && db.orders[0].perf == Some(perf) && db.tickets == []
  {
    var make, id := System.SetReservedHold(perf, "a", ids), start.nextHold;
    SelectsAlone(start, perf, "a", ids);
    assert start.holds == [] && start.orders == [] && start.tickets == [];
    hide Holds.SetReservedHold, System.Next, Outcomes, Run, System.Opening, Overtaken;
    var a := Hold(id, perf, "a", start.now + HOLD_SECONDS, Carts.ReservedCart(start, perf, ids), None, None);
    hide Carts.ReservedCart;
    var made := start.(holds := [a], nextHold := id + 1);
    GivesUp(made, a);
    assert FindOrder(made.orders, "cs").None? && FindHold(made.holds, id) == Some(a);
    hide FindOrder, FindHold;
    var later := made.(holds := []);
    OvertakenRun(start, make, id, ref, System.Release(perf, "a"), System.Sweep, made, later, a);
    LostAlone(later, Delivery("cs", HoldCheckout(id), ref, Looked(HoldRow(a))), a);
  }

  lemma LostAlone(db: Db, d: Delivery, row: Hold)
    requires Carts.MoneyOk(row) && row.cart.Reserved? && Unexpired(row, db.now)
    requires db.holds == [] && db.orders == [] && db.tickets == []
    ensures var after := Outcomes(db, d, HoldRow(row)).0;
            |after.orders| == 1 && after.orders[0].status.Paid? && after.orders[0].perf == Some(row.perf)
                && after.tickets == []
  {
    LostSelectionBuysNothing(db, d, row);
    LostIsPaid(db, d, row);
    hide Outcomes;
  }

  lemma LostIsPaid(db: Db, d: Delivery, row: Hold)
    requires Outcomes(db, d, HoldRow(row)).1.Created?
    ensures var after := Outcomes(db, d, HoldRow(row)).0;
            |after.orders| == |db.orders| + 1
            && after.orders[|db.orders|].status.Paid? && after.orders[|db.orders|].perf == Some(row.perf)
  {
    CreatedIsMint(db, d, row);
    hide Outcomes, Filter, NewTickets, TicketItems;
  }
}

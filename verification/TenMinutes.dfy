/** How long a selection lasts: ten minutes to the second, for whoever wants to pay for it
    and for whoever waits for it. */
module TenMinutes {
  import opened Tables
  import opened Schema
  import opened System
  import opened Holds
  import opened Fulfilment
  import opened Answers
  import opened Availability
  import opened Expiry
  import Pricing
  import Carts
  import Inventory
  import Passes
  import Ledger
  import Consistency
  import Charges
  import History
  import Effects
  import StaleReads
  import Settlement

  /** A step that puts something on hold. */
  predicate Selects(a: Action) { (a.SetGaHold? && a.quantity > 0) || (a.SetReservedHold? && a.ids != {}) }

  lemma SelectedRow(db: Db, a: Action)
    requires Selects(a) && Attempt(db, a).Ok?
    ensures var after := Next(db, a);
            |after.holds| > 0 && var h := after.holds[|after.holds| - 1];
            && h.id == db.nextHold && h.expiresAt == db.now + 600 && h.perf == a.perf && h.session == a.session
            && after == db.(holds := after.holds, nextHold := db.nextHold + 1)
            && forall e :: e in after.holds ==> e == h || e in db.holds
  {
    FilterMembers(db.holds, NotOf(a.perf, a.session));
    hide Filter, ActiveGaHeld, FindTier, SeatsOnChart, Taken, ToHeldSeat, Pricing.BulkPrice;
  }

  // --- none is longer ---------------------------------------------------

  ghost predicate ShortLived(db: Db) { forall h :: h in db.holds ==> h.expiresAt <= db.now + 600 }

  lemma OldHolds(db: Db, a: Action)
    requires Consistency.Sound(db) && !Selects(a)
    ensures db.now <= Next(db, a).now
    ensures forall e :: e in Next(db, a).holds ==> exists h :: h in db.holds && e.expiresAt == h.expiresAt
  {
    if a.Deliver? {
      Settlement.DeliverDescends(db, a.checkout, a.what, a.ref);
    } else {
      StaleReads.StepDescends(db, a);
    }
    SameClock(db, a);
    var after := Next(db, a);
    Consistency.StepKeepsSound(db, a);
    forall e | e in after.holds ensures e.id < db.nextHold { KeptId(after, e); }
    hide Consistency.Sound, Next;
  }

  lemma KeptId(db: Db, e: Hold)
    requires Consistency.Sound(db) && e in db.holds
    ensures e.id < db.nextHold
  {
    hide Inventory.InventoryOk, Passes.PassesOk, Ledger.PromosOk;
    Carts.HeldIsOk(db, e);
  }

  lemma SameClock(db: Db, a: Action)
    ensures Next(db, a).now == db.now + (if a.Tick? then a.seconds else 0)
    ensures !Selects(a) ==> Next(db, a).nextHold == db.nextHold
  {
    hide Filter, Sum, FindHold, FindOrder, Mint;
    hide InventoryFailure, RedemptionFailure, NewRedemptions, RestoredPasses, PassSpent, FirstSucceeded, SoldAPass;
    hide FindTier, SeatsOnChart, Taken, MapRows, Pricing.VenueOk, HoldTotal;
    forall h: Hold, order ensures Mint(db, h, order).now == db.now && Mint(db, h, order).nextHold == db.nextHold {
      MintClock(db, h, order);
    }
  }

  lemma MintClock(db: Db, h: Hold, order: Order)
    ensures Mint(db, h, order).now == db.now && Mint(db, h, order).nextHold == db.nextHold
  {}

  /** Over any run no hold has more than ten minutes left. */
  lemma {:induction false} NoneIsLonger(start: Db, actions: seq<Action>)
    requires Opening(start)
    ensures ShortLived(Run(start, actions))
  {
    if actions != [] {
      var init, a := actions[..|actions| - 1], actions[|actions| - 1];
      var db := Run(start, init);
      NoneIsLonger(start, init);
      Consistency.AlwaysConsistent(start, init);
      hide Consistency.Sound;
      SameClock(db, a);
      if !Selects(a) {
        OldHolds(db, a);
      } else if Attempt(db, a).Ok? {
        SelectedRow(db, a);
      }
      hide Next;
    }
  }

  // --- for whoever pays -------------------------------------------------

  /** A selection can be paid for until ten minutes are over and not a second longer,
      whatever else happens meanwhile; the answer before that is only ever different if the
      buyer has edited it, given it up or paid for it. */
  lemma HeldTenMinutes(db: Db, select: Action, later: seq<Action>, pay: Action)
    requires Consistency.Consistent(db) && Selects(select) && Attempt(db, select).Ok?
    requires PaysFor(Run(Next(db, select), later), pay, db.nextHold)
    ensures var holds := Next(db, select).holds; var end := Run(Next(db, select), later);
            |holds| > 0 && var h := holds[|holds| - 1];
            && (end.now >= db.now + 600 ==> Attempt(end, pay) == Err(HoldGone))
            && (end.now < db.now + 600 && (forall k :: 0 <= k < |later| ==> !Charges.Touches(later[k], h)) ==>
                  Attempt(end, pay) != Err(HoldGone))
  {
    hide Consistency.Consistent, Consistency.Sound, Next, Attempt, Run, PaysFor, Charges.Touches, Selects;
    SelectionIsKnown(db, select, later);
    var after := Next(db, select);
    var h := after.holds[|after.holds| - 1];
    TooLateIff(Run(after, later), h.id, pay);
    StandsOnlyThen(Run(after, later), h);
    if Run(after, later).now < db.now + 600 && forall k :: 0 <= k < |later| ==> !Charges.Touches(later[k], h) {
      SparedUntilThen(after, later, h);
    }
  }

  lemma SelectionIsKnown(db: Db, select: Action, later: seq<Action>)
    requires Consistency.Consistent(db) && Selects(select) && Attempt(db, select).Ok?
    ensures var after, end := Next(db, select), Run(Next(db, select), later);
            |after.holds| > 0 && var h := after.holds[|after.holds| - 1];
            && h in after.holds && h.id == db.nextHold && h.expiresAt == db.now + 600
            && Consistency.Consistent(after) && Consistency.Sound(end) && StaleReads.Known(end, h)
  {
    hide Next, Run, Attempt, Selects, StaleReads.Known;
    SelectedRow(db, select);
    Consistency.StepKeepsConsistent(db, select);
    var after := Next(db, select);
    var h := after.holds[|after.holds| - 1];
    History.RunContinues(after, later);
    Charges.UniqueHold(after, h);
    StaleReads.ReadIsKnown(after, h.id) by { hide Consistency.Sound; }
    Settlement.RunKnows(after, later, h);
    hide Consistency.Sound;
  }

  lemma StandsOnlyThen(end: Db, h: Hold)
    requires StaleReads.Known(end, h)
    ensures forall x :: Stands(end, h.id, x) ==> h.expiresAt > end.now
  {
    hide Carts.HoldOk;
  }

  lemma SparedUntilThen(after: Db, later: seq<Action>, h: Hold)
    requires Consistency.Consistent(after) && h in after.holds && h.expiresAt > Run(after, later).now
    requires forall k :: 0 <= k < |later| ==> !Charges.Touches(later[k], h)
    ensures Stands(Run(after, later), h.id, h)
  {
    hide Consistency.Consistent, Run, Charges.Touches;
    Charges.RunSpares(after, later, h);
  }

  // --- for whoever waits ------------------------------------------------

  /** Ten minutes without a selection and nothing is held any more: GA goes as far as it is
      not sold, and seats are offered that are neither blocked nor ticketed. */
  lemma NothingHeldAfterwards(db: Db, wait: nat, perf: nat, session: string, tier: nat, quantity: int, seat: nat)
    requires ShortLived(db) && wait >= 600 && quantity > 0
    ensures var end := Next(db, Tick(wait));
            && (Attempt(end, SetGaHold(perf, session, tier, quantity)).Ok? <==>
                  && perf in db.perfs && HasTier(db.book.tiers, tier) && perf in db.allocs
                  && db.allocs[perf].sold + quantity <= db.allocs[perf].capacity)
            && (SeatStateOf(end, perf, Some(session), seat) == Available <==>
                  (perf, seat) !in db.blocks && !SeatGone(db.tickets, perf, seat))
  {
    var end := Next(db, Tick(wait));
    GaAloneIff(end, perf, session, tier, quantity);
    SeatMapSays(end, perf, Some(session), seat);
    hide SeatGone, HasTier, Attempt, SeatStateOf, HasSeat;
    assert forall i :: 0 <= i < |end.holds| ==> end.holds[i] in db.holds;
  }

  /** The seats of an accepted selection are on the hold it makes. */
  lemma SelectedSeats(db: Db, perf: nat, session: string, ids: set<nat>)
    requires Consistency.Consistent(db) && ids != {} && Attempt(db, SetReservedHold(perf, session, ids)).Ok?
    ensures var holds := Next(db, SetReservedHold(perf, session, ids)).holds;
            |holds| > 0 && forall id :: id in ids ==> HasSeat(holds[|holds| - 1].cart, id)
  {
    assert Pricing.VenueOk(db.book) by { hide Inventory.InventoryOk, Passes.PassesOk, Ledger.PromosOk; }
    hide Consistency.Consistent, Pricing.VenueOk;
    Carts.ReservedCartIsFree(db, perf, session, ids);
    Effects.CartIsAsked(db, perf, session, ids);
    var cart := Carts.ReservedCart(db, perf, ids);
    forall id: nat ensures id in SeatIds(cart) <==> HasSeat(cart, id) { HasSeatIff(cart, id); }
    hide SeatIds, HasSeat, Carts.ReservedCart, Cleared, Holds.SetReservedHold, Pricing.BulkPrice;
  }

  /** Seats that one session has selected can be selected by another ten minutes later, and
      not earlier. */
  lemma SeatsComeBackIff(db: Db, perf: nat, session: string, other: string, ids: set<nat>, wait: nat)
    requires Consistency.Consistent(db) && ShortLived(db) && ids != {} && other != session
    requires Attempt(db, SetReservedHold(perf, session, ids)).Ok?
    ensures var end := Next(Next(db, SetReservedHold(perf, session, ids)), Tick(wait));
            && (Attempt(end, SetReservedHold(perf, other, ids)).Ok? <==> wait >= 600)
            && (wait < 600 ==> Attempt(end, SetReservedHold(perf, other, ids)) == Err(SeatUnavailable))
  {
    hide Consistency.Consistent, Attempt, Next, HasSeat, SeatChecks, HeldAnywhere;
    var select := SetReservedHold(perf, session, ids);
    var after := Next(db, select);
    SelectedRow(db, select);
    SelectedSeats(db, perf, session, ids);
    var h := after.holds[|after.holds| - 1];
    var end := after.(now := db.now + wait);
    Waited(after, wait);
    SeatsAnswer(db, perf, session, ids);
    SeatsAnswer(end, perf, other, ids);
    OnlyTheHoldsDiffer(db, end, perf, session, other, ids);
    NowTaken(db, end, perf, session, other, ids);
    HeldUntil(db, end, h, session, other, ids);
  }

  lemma Waited(db: Db, wait: nat)
    ensures Next(db, Tick(wait)) == db.(now := db.now + wait)
  {}

  lemma HeldUntil(db: Db, end: Db, h: Hold, session: string, other: string, ids: set<nat>)
    requires ShortLived(db) && h in end.holds && h.expiresAt == db.now + 600 && h.session == session != other
    requires forall e :: e in end.holds ==> e == h || e in db.holds
    requires ids != {} && forall id :: id in ids ==> HasSeat(h.cart, id)
    ensures (exists id :: id in ids && HeldAnywhere(end, other, id)) <==> end.now < db.now + 600
  {
    hide HasSeat;
    var id :| id in ids;
    var i :| 0 <= i < |end.holds| && end.holds[i] == h;
    if end.now < db.now + 600 {
      assert HeldAnywhere(end, other, id);
    } else {
      assert forall j :: 0 <= j < |end.holds| ==> end.holds[j] in end.holds;
    }
  }

  /** With all else as it was, the other session is refused exactly for seats held. */
  lemma OnlyTheHoldsDiffer(db: Db, end: Db, perf: nat, session: string, other: string, ids: set<nat>)
    requires end == db.(holds := end.holds, nextHold := end.nextHold, now := end.now)
    ensures var was, now := SeatChecks(db, perf, session, ids), SeatChecks(end, perf, other, ids);
            now[0] == was[0] && now[1] == was[1] && now[3] == was[3]
  {
    hide Pricing.Unpriced, SeatGone, HeldAnywhere;
    forall s ensures OnChart(db, perf, s, ids) <==> OnChart(end, perf, s, ids) {}
    hide OnChart;
  }

  lemma NowTaken(db: Db, end: Db, perf: nat, session: string, other: string, ids: set<nat>)
    requires end.tickets == db.tickets && end.blocks == db.blocks
    requires ids != {} && FirstFailing(None, SeatChecks(db, perf, session, ids))
    requires var was, now := SeatChecks(db, perf, session, ids), SeatChecks(end, perf, other, ids);
             now[0] == was[0] && now[1] == was[1] && now[3] == was[3]
    requires FirstFailing(Failed(Attempt(end, SetReservedHold(perf, other, ids))), SeatChecks(end, perf, other, ids))
    ensures if exists id :: id in ids && HeldAnywhere(end, other, id)
            then Attempt(end, SetReservedHold(perf, other, ids)) == Err(SeatUnavailable)
            else Attempt(end, SetReservedHold(perf, other, ids)).Ok?
  {
    hide Attempt, HeldAnywhere, SeatGone, OnChart, Pricing.Unpriced;
    var was, now := SeatChecks(db, perf, session, ids), SeatChecks(end, perf, other, ids);
    assert !was[0].0 && !was[1].0 && !was[2].0 && !was[3].0;
    assert |now| == 4 && !now[0].0 && !now[1].0 && !now[3].0;
    assert now[2].0 <==> exists id :: id in ids && HeldAnywhere(end, other, id);
  }
}

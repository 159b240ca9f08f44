/** What can be selected, and what a buyer's edits of a selection do, said over the rows. */
module Availability {
  import opened Tables
  import opened Schema
  import opened System
  import opened Holds
  import opened Answers
  import Pricing
  import Promotions
  import Carts
  import Inventory
  import Passes
  import Ledger
  import Consistency

  // --- general admission ------------------------------------------------

  /** The hold takes GA from the performance for everyone but `except`, for now. */
  predicate TakesGa(h: Hold, perf: nat, now: int, except: Option<string>) {
    h.perf == perf && h.cart.Ga? && h.expiresAt > now && Some(h.session) != except
  }

  predicate HasTier(tiers: seq<PriceTier>, id: nat) { exists k :: 0 <= k < |tiers| && tiers[k].id == id }

  lemma {:induction false} HasTierIff(tiers: seq<PriceTier>, id: nat)
    ensures FindTier(tiers, id).Some? <==> HasTier(tiers, id)
    ensures FindTier(tiers, id).Some? ==>
              exists k :: 0 <= k < |tiers| && tiers[k].id == id && tiers[k] == FindTier(tiers, id).value
                          && forall j :: 0 <= j < k ==> tiers[j].id != id
  {
    if tiers != [] {
      var rest := tiers[1..];
      HasTierIff(rest, id);
      if tiers[0].id == id {
        assert HasTier(tiers, id);
      } else {
        if FindTier(rest, id).Some? {
          var k :| 0 <= k < |rest| && rest[k].id == id && rest[k] == FindTier(rest, id).value
            && forall j :: 0 <= j < k ==> rest[j].id != id;
          assert tiers[k + 1] == rest[k];
          assert forall j :: 0 < j < k + 1 ==> tiers[j] == rest[j - 1];
        }
        if HasTier(tiers, id) {
          var k :| 0 <= k < |tiers| && tiers[k].id == id;
          assert rest[k - 1] == tiers[k];
        }
      }
    }
  }

  /** With nobody else's hold in the way, a positive quantity is accepted exactly when it
      fits beside what is sold; expired holds, one's own and those for other performances
      or of seats are not in the way. */
  lemma GaAloneIff(db: Db, perf: nat, session: string, tier: nat, quantity: int)
    requires quantity > 0 && forall h :: h in db.holds ==> !TakesGa(h, perf, db.now, Some(session))
    ensures Attempt(db, SetGaHold(perf, session, tier, quantity)).Ok? <==>
            && perf in db.perfs && HasTier(db.book.tiers, tier) && perf in db.allocs
            && db.allocs[perf].sold + quantity <= db.allocs[perf].capacity
    ensures perf in db.allocs ==>
            GaAvailable(db, perf, Some(session)) == Max(db.allocs[perf].capacity - db.allocs[perf].sold, 0)
  {
    HasTierIff(db.book.tiers, tier);
    assert forall i :: 0 <= i < |db.holds| ==> db.holds[i] in db.holds;
    SumZero(db.holds, GaHeld(perf, db.now, Some(session)));
    hide FindTier, HasTier;
  }

  /** One more hold lowers what others can have by exactly its quantity if it takes GA from
      the performance, and by nothing otherwise. */
  lemma OneMoreHold(db: Db, h: Hold, perf: nat, session: string, tier: nat, quantity: int)
    requires quantity > 0
    ensures var more := db.(holds := db.holds + [h]);
            var taken := if TakesGa(h, perf, db.now, Some(session)) then h.cart.qty else 0;
            && (Attempt(more, SetGaHold(perf, session, tier, quantity)).Ok? <==>
                  Attempt(db, SetGaHold(perf, session, tier, quantity + taken)).Ok?)
            && GaAvailable(more, perf, Some(session)) == Max(GaAvailable(db, perf, Some(session)) - taken, 0)
  {
    SumAppend(db.holds, h, GaHeld(perf, db.now, Some(session)));
    hide FindTier, Sum;
  }

  /** The same for the figure shown to everyone. */
  lemma ShownToEveryone(db: Db, h: Hold, perf: nat)
    ensures db.holds == [] && perf in db.allocs ==>
            GaAvailable(db, perf, None) == Max(db.allocs[perf].capacity - db.allocs[perf].sold, 0)
    ensures var taken := if TakesGa(h, perf, db.now, None) then h.cart.qty else 0;
            GaAvailable(db.(holds := db.holds + [h]), perf, None) == Max(GaAvailable(db, perf, None) - taken, 0)
    ensures perf !in db.allocs ==> GaAvailable(db, perf, None) == 0
  {
    SumAppend(db.holds, h, GaHeld(perf, db.now, None));
    if db.holds == [] { SumZero(db.holds, GaHeld(perf, db.now, None)); }
    hide Sum;
  }

  /** The refusals name what can be had: SoldOut that nothing can, TooFew(n) that n can and
      no more; anything less is accepted. */
  lemma GaAnswer(db: Db, perf: nat, session: string, tier: nat, quantity: int)
    ensures match Attempt(db, SetGaHold(perf, session, tier, quantity))
            case Ok(after) => perf in db.perfs
                              && (quantity <= 0 || (HasTier(db.book.tiers, tier) && perf in db.allocs
                                                    && forall n :: n <= quantity ==>
                                                         Attempt(db, SetGaHold(perf, session, tier, n)).Ok?))
            case Err(NoPerformance) => perf !in db.perfs
            case Err(NoTier) => perf in db.perfs && quantity > 0 && !HasTier(db.book.tiers, tier)
            case Err(NoAllocation) =>
              perf in db.perfs && quantity > 0 && HasTier(db.book.tiers, tier) && perf !in db.allocs
            case Err(SoldOut) =>
              quantity > 0 && forall n :: n > 0 ==> Attempt(db, SetGaHold(perf, session, tier, n)).Err?
            case Err(TooFew(n)) => 0 < n < quantity && Attempt(db, SetGaHold(perf, session, tier, n)).Ok?
                                   && Attempt(db, SetGaHold(perf, session, tier, n + 1)).Err?
            case Err(_) => false
  {
    HasTierIff(db.book.tiers, tier);
    hide FindTier, HasTier, Sum;
  }

  /** The session's holds for the performance go and no others: what a quantity of nothing,
      an empty selection and a release do. */
  lemma ReleaseIs(db: Db, perf: nat, session: string, tier: nat, quantity: int)
    requires quantity <= 0
    ensures var after := Next(db, Action.Release(perf, session));
            && after == db.(holds := after.holds)
            && forall h :: h in after.holds <==> h in db.holds && !(h.perf == perf && h.session == session)
    ensures perf in db.perfs ==>
            && Attempt(db, SetGaHold(perf, session, tier, quantity)) == Ok(Next(db, Action.Release(perf, session)))
            && Attempt(db, SetReservedHold(perf, session, {})) == Ok(Next(db, Action.Release(perf, session)))
  {
    FilterMembers(db.holds, NotOf(perf, session));
  }

  /** A hold is given up by its id only by its own session. */
  lemma ReleaseByIdIs(db: Db, session: string, id: nat)
    ensures var after := Next(db, Action.ReleaseById(session, id));
            && after == db.(holds := after.holds)
            && forall h :: h in after.holds <==> h in db.holds && !(h.id == id && h.session == session)
  {
    FilterMembers(db.holds, NotId(id, session));
  }

  // --- seats ------------------------------------------------------------

  /** Somebody's hold for the performance has the seat: the session's own, or another's. */
  predicate SeatHeld(db: Db, perf: nat, seat: nat, session: Option<string>, own: bool) {
    exists i :: 0 <= i < |db.holds| && db.holds[i].perf == perf && db.holds[i].expiresAt > db.now
                && HasSeat(db.holds[i].cart, seat) && ((Some(db.holds[i].session) == session) <==> own)
  }

  lemma SeatHeldIff(db: Db, perf: nat, seat: nat, session: Option<string>, own: bool)
    ensures HeldHere(db, perf, seat, session, own) <==> SeatHeld(db, perf, seat, session, own)
  {
    forall i | 0 <= i < |db.holds| ensures seat in SeatIds(db.holds[i].cart) <==> HasSeat(db.holds[i].cart, seat) {
      HasSeatIff(db.holds[i].cart, seat);
    }
    hide SeatIds, HasSeat;
    if HeldHere(db, perf, seat, session, own) {
      var h :| h in db.holds && h.perf == perf && Unexpired(h, db.now) && seat in SeatIds(h.cart)
        && (own <==> Some(h.session) == session);
      var i :| 0 <= i < |db.holds| && db.holds[i] == h;
    }
    if SeatHeld(db, perf, seat, session, own) {
      var i :| 0 <= i < |db.holds| && db.holds[i].perf == perf && db.holds[i].expiresAt > db.now
        && HasSeat(db.holds[i].cart, seat) && ((Some(db.holds[i].session) == session) <==> own);
      assert db.holds[i] in db.holds;
    }
  }

  /** What the seat map says of a seat, and when: blocked before sold before held. */
  lemma SeatMapSays(db: Db, perf: nat, session: Option<string>, seat: nat)
    ensures var state := SeatStateOf(db, perf, session, seat); var blocked := (perf, seat) in db.blocks;
            var gone := SeatGone(db.tickets, perf, seat) || SeatHeld(db, perf, seat, session, false);
            && (state == SeatState.Blocked <==> blocked)
            && (state == Unavailable <==> !blocked && gone)
            && (state == HeldByYou <==> !blocked && !gone && SeatHeld(db, perf, seat, session, true))
            && (state == Available <==> !blocked && !gone && !SeatHeld(db, perf, seat, session, true))
  {
    SeatGoneIff(db.tickets, perf, seat);
    SeatHeldIff(db, perf, seat, session, true);
    SeatHeldIff(db, perf, seat, session, false);
    hide Ticketed, SeatGone, HeldHere, SeatHeld;
  }

  /** Another session's hold has the seat, for whatever performance. */
  predicate HeldAnywhere(db: Db, session: string, seat: nat) {
    exists i :: 0 <= i < |db.holds| && db.holds[i].expiresAt > db.now && db.holds[i].session != session
                && HasSeat(db.holds[i].cart, seat)
  }

  predicate OnChart(db: Db, perf: nat, s: Seat, ids: set<nat>) {
    s in db.book.seats && s.id in ids && perf in db.perfs && db.perfs[perf].chart == Some(s.chart)
  }

  /** What stops a selection of seats: no such performance, a seat that is not on its chart,
      one that is ticketed, blocked or held by somebody else, one without a price. */
  ghost function SeatChecks(db: Db, perf: nat, session: string, ids: set<nat>): seq<(bool, Failure)> {
    [(perf !in db.perfs, NoPerformance),
     (exists id :: id in ids && forall s :: OnChart(db, perf, s, ids) ==> s.id != id, NotInChart),
     (exists id :: id in ids && (SeatGone(db.tickets, perf, id) || HeldAnywhere(db, session, id)
                                 || (perf, id) in db.blocks), SeatUnavailable),
     (exists s :: OnChart(db, perf, s, ids) && Pricing.Unpriced(db.book, perf, s), NotPriced)]
  }

  lemma HeldIff(db: Db, session: string, seat: nat)
    ensures HeldByOther(db.holds, db.now, session, seat) <==> HeldAnywhere(db, session, seat)
  {
    forall i | 0 <= i < |db.holds| ensures seat in SeatIds(db.holds[i].cart) <==> HasSeat(db.holds[i].cart, seat) {
      HasSeatIff(db.holds[i].cart, seat);
    }
    hide SeatIds, HasSeat;
    if HeldByOther(db.holds, db.now, session, seat) {
      var h :| h in db.holds && Unexpired(h, db.now) && h.session != session && seat in SeatIds(h.cart);
      var i :| 0 <= i < |db.holds| && db.holds[i] == h;
    }
    if HeldAnywhere(db, session, seat) {
      var i :| 0 <= i < |db.holds| && db.holds[i].expiresAt > db.now && db.holds[i].session != session
        && HasSeat(db.holds[i].cart, seat);
      assert db.holds[i] in db.holds;
    }
  }

  lemma TakenRows(db: Db, perf: nat, session: string, seat: nat)
    ensures Taken(db, perf, session, seat) <==>
            SeatGone(db.tickets, perf, seat) || HeldAnywhere(db, session, seat) || (perf, seat) in db.blocks
  {
    SeatGoneIff(db.tickets, perf, seat);
    HeldIff(db, session, seat);
    hide HeldByOther, HeldAnywhere, Ticketed, SeatGone;
  }

  lemma ChartRows(db: Db, perf: nat, ids: set<nat>)
    requires perf in db.perfs
    ensures forall s :: s in SeatsOnChart(db.book, db.perfs[perf].chart, ids) <==> OnChart(db, perf, s, ids)
  {
    var chart := db.perfs[perf].chart;
    if chart.Some? { FilterMembers(db.book.seats, Requested(ids, chart.value)); }
  }

  /** A selection of seats is refused for the first of these, and accepted if none is so. */
  lemma SeatsAnswer(db: Db, perf: nat, session: string, ids: set<nat>)
    requires ids != {}
    ensures FirstFailing(Failed(Attempt(db, SetReservedHold(perf, session, ids))), SeatChecks(db, perf, session, ids))
  {
    hide Holds.SetReservedHold, SeatChecks;
    SeatsDecision(db, perf, session, ids);
  }

  lemma SeatsDecision(db: Db, perf: nat, session: string, ids: set<nat>)
    requires ids != {}
    ensures FirstFailing(Failed(Holds.SetReservedHold(db, perf, session, ids)), SeatChecks(db, perf, session, ids))
  {
    var checks := SeatChecks(db, perf, session, ids);
    if perf in db.perfs {
      ChartRows(db, perf, ids);
      forall id | id in ids
        ensures Taken(db, perf, session, id) <==>
                SeatGone(db.tickets, perf, id) || HeldAnywhere(db, session, id) || (perf, id) in db.blocks
      {
        TakenRows(db, perf, session, id);
      }
      forall s: Seat ensures Pricing.BulkPrice(db.book, perf, s).None? <==> Pricing.Unpriced(db.book, perf, s) {
        Pricing.PriceIs(db.book, perf, s);
      }
    }
    hide SeatsOnChart, Taken, SeatGone, HeldAnywhere, OnChart, ToHeldSeat, Replaced;
    hide Pricing.BulkPrice, Pricing.Unpriced;
    if Holds.SetReservedHold(db, perf, session, ids).Err? {
      assert checks[0].0 || checks[1].0 || checks[2].0 || checks[3].0;
    }
  }

  // --- what is held -----------------------------------------------------

  /** An accepted GA selection is held at the amount and in the currency of its tier. */
  lemma GaHeldAtItsTier(db: Db, perf: nat, session: string, tier: nat, quantity: int)
    requires quantity > 0 && Attempt(db, SetGaHold(perf, session, tier, quantity)).Ok?
    ensures var holds := Next(db, SetGaHold(perf, session, tier, quantity)).holds;
            |holds| > 0 && var cart := holds[|holds| - 1].cart;
            exists k :: 0 <= k < |db.book.tiers| && db.book.tiers[k].id == tier
                        && (forall j :: 0 <= j < k ==> db.book.tiers[j].id != tier)
                        && cart == Ga(quantity, db.book.tiers[k].amount, db.book.tiers[k].currency)
  {
    HasTierIff(db.book.tiers, tier);
    hide FindTier, HasTier, ActiveGaHeld, Cleared;
  }

  /** The currency a seat is held in: a zone has none of its own. */
  function CurrencyOf(p: Pricing.Price): Option<string> {
    match p.source
    case FromZone(_) => None
    case FromTier(_, code) => Some(code)
  }

  /** An accepted selection of seats holds every one of them at the amount of its zone,
      or else of its section's override, or else of its section's default. */
  lemma SeatsHeldAtTheirPrices(db: Db, perf: nat, session: string, ids: set<nat>, k: nat)
    requires ids != {} && Attempt(db, SetReservedHold(perf, session, ids)).Ok?
    ensures var holds := Next(db, SetReservedHold(perf, session, ids)).holds;
            |holds| > 0 && var cart := holds[|holds| - 1].cart;
            && cart.Reserved?
            && (k < |cart.seats| ==>
                  exists s, p :: OnChart(db, perf, s, ids) && Pricing.PricedBy(db.book, perf, s, p, true)
                                 && cart.seats[k] == HeldSeat(s.id, p.amount, CurrencyOf(p)))
  {
    var holds := Next(db, SetReservedHold(perf, session, ids)).holds;
    var seats := SeatsOnChart(db.book, db.perfs[perf].chart, ids);
    ChartRows(db, perf, ids);
    assert holds[|holds| - 1].cart == Reserved(MapRows(seats, ToHeldSeat(db.book, perf))) by {
      hide SeatsOnChart, Taken, ToHeldSeat, Pricing.BulkPrice, Cleared;
    }
    hide SeatsOnChart, Taken, Next, Attempt, Cleared, OnChart;
    if k < |seats| {
      var s := seats[k];
      assert s in seats;
      Pricing.PriceIs(db.book, perf, s);
      hide Pricing.PricedBy, Pricing.Unpriced;
      assert Pricing.BulkPrice(db.book, perf, s).Some?;
      hide Pricing.BulkPrice;
      var p := Pricing.BulkPrice(db.book, perf, s).value;
      assert holds[|holds| - 1].cart.seats[k] == HeldAt(p, s.id);
      assert OnChart(db, perf, s, ids) && Pricing.PricedBy(db.book, perf, s, p, true);
    }
  }

  // --- editing a hold ---------------------------------------------------

  /** The session's own hold of that id, while it lasts. */
  predicate OwnCart(db: Db, session: string, id: nat, h: Hold) {
    h in db.holds && h.id == id && h.session == session && h.expiresAt > db.now
  }

  lemma OwnCartIff(db: Db, session: string, id: nat, h: Hold)
    requires Consistency.Sound(db)
    ensures CartOf(db, session, id) == Some(h) <==> OwnCart(db, session, id, h)
    ensures CartOf(db, session, id).None? <==> forall x :: !OwnCart(db, session, id, x)
  {
    Carts.FindHoldIn(db.holds, id);
    forall x | x in db.holds && x.id == id ensures FindHold(db.holds, id) == Some(x) {
      Carts.FoundHold(db, x) by { hide Inventory.InventoryOk, Passes.PassesOk, Ledger.PromosOk; }
    }
    hide Consistency.Sound, FindHold;
    if CartOf(db, session, id).Some? { assert OwnCart(db, session, id, CartOf(db, session, id).value); }
  }

  /** Only the hold of that id changes. */
  predicate OnlyEdits(db: Db, after: Db, id: nat) {
    && after == db.(holds := after.holds) && |after.holds| == |db.holds|
    && forall i :: 0 <= i < |db.holds| && db.holds[i].id != id ==> after.holds[i] == db.holds[i]
  }

  /** A code is applied exactly when the hold is the session's own and unexpired, the code
      exists and none of its checks fails on the hold's total and currency; then its
      discount is frozen on that hold, in place of any other code. */
  lemma CodeIsFrozen(db: Db, session: string, id: nat, code: string)
    requires Consistency.Sound(db)
    ensures (forall h :: !OwnCart(db, session, id, h)) ==> Attempt(db, ApplyPromo(session, id, code)) == Err(HoldGone)
    ensures forall h :: OwnCart(db, session, id, h) ==>
              match Attempt(db, ApplyPromo(session, id, code))
              case Err(BadPromo(UnknownCode)) => code !in db.promos
              case Err(BadPromo(why)) =>
                code in db.promos && FirstFailing(Some(why),
                    Promotions.CodeChecks(db.promos[code], HoldTotal(h), HoldCurrency(h, db.currency), db.now))
              case Err(_) => false
              case Ok(after) =>
                && code in db.promos && OnlyEdits(db, after, id)
                && FirstFailing(None,
                     Promotions.CodeChecks(db.promos[code], HoldTotal(h), HoldCurrency(h, db.currency), db.now))
                && forall i :: 0 <= i < |db.holds| && db.holds[i].id == id ==>
                     after.holds[i] == h.(promo := Some(AppliedPromo(code,
                         Promotions.ComputeDiscount(db.promos[code], HoldTotal(h)))))
  {
    forall h ensures CartOf(db, session, id) == Some(h) <==> OwnCart(db, session, id, h) {
      OwnCartIff(db, session, id, h);
    }
    if CartOf(db, session, id).Some? {
      var h := CartOf(db, session, id).value;
      if code in db.promos {
        Promotions.CodeAnswer(db.promos[code], HoldTotal(h), HoldCurrency(h, db.currency), db.now);
        NeverUnknown(db.promos[code], HoldTotal(h), HoldCurrency(h, db.currency), db.now);
      }
      forall i | 0 <= i < |db.holds| && db.holds[i].id == id ensures db.holds[i] == h {
        SameId(db, db.holds[i], h) by { assert OwnCart(db, session, id, h); }
      }
    }
    hide Consistency.Sound, CartOf, OwnCart, HoldTotal, HoldCurrency, Promotions.CodeChecks, Promotions.ValidateCode;
    hide Promotions.ComputeDiscount, FirstFailing;
  }

  lemma NeverUnknown(promo: Promo, subtotal: int, currency: string, now: int)
    ensures Promotions.ValidateCode(promo, subtotal, currency, now) != Some(UnknownCode)
  {}

  lemma SameId(db: Db, a: Hold, b: Hold)
    requires Consistency.Sound(db) && a in db.holds && b in db.holds && a.id == b.id
    ensures a == b
  {
    hide Inventory.InventoryOk, Passes.PassesOk, Ledger.PromosOk;
    Carts.SameHold(db.perfs, db.holds, db.nextHold, a, b);
  }

  /** A gift is added exactly to the session's own unexpired hold, when it is between a cent
      and ten thousand; it replaces an earlier one and touches nothing else. */
  lemma GiftIsAdded(db: Db, session: string, id: nat, amount: int)
    requires Consistency.Sound(db)
    ensures (forall h :: !OwnCart(db, session, id, h)) ==>
              Attempt(db, Action.SetDonation(session, id, amount)) == Err(HoldGone)
    ensures forall h :: OwnCart(db, session, id, h) ==>
              match Attempt(db, Action.SetDonation(session, id, amount))
              case Err(e) => e == BadDonation && !(0 < amount <= 1000000)
              case Ok(after) =>
                && 0 < amount <= 1000000 && OnlyEdits(db, after, id)
                && forall i :: 0 <= i < |db.holds| && db.holds[i].id == id ==>
                     after.holds[i] == h.(donation := Some(amount))
  {
    forall h ensures CartOf(db, session, id) == Some(h) <==> OwnCart(db, session, id, h) {
      OwnCartIff(db, session, id, h);
    }
    if CartOf(db, session, id).Some? {
      var h := CartOf(db, session, id).value;
      forall i | 0 <= i < |db.holds| && db.holds[i].id == id ensures db.holds[i] == h {
        SameId(db, db.holds[i], h) by { assert OwnCart(db, session, id, h); }
      }
    }
    hide Consistency.Sound, CartOf, OwnCart;
  }

  /** Code and gift are taken off again by the hold's own session only, expired or not. */
  lemma EditsAreUndone(db: Db, session: string, id: nat)
    requires Consistency.Sound(db)
    ensures var after := Next(db, Action.RemovePromo(session, id));
            && OnlyEdits(db, after, id)
            && forall i :: 0 <= i < |db.holds| && db.holds[i].id == id ==>
                 after.holds[i] == if db.holds[i].session == session then db.holds[i].(promo := None) else db.holds[i]
    ensures var after := Next(db, Action.ClearDonation(session, id));
            && OnlyEdits(db, after, id)
            && forall i :: 0 <= i < |db.holds| && db.holds[i].id == id ==>
                 after.holds[i] ==
                   if db.holds[i].session == session then db.holds[i].(donation := None) else db.holds[i]
  {
    CodeTakenOff(db, session, id);
    GiftTakenOff(db, session, id);
    hide Consistency.Sound, Holds.RemovePromo, Holds.ClearDonation, OnlyEdits;
  }

  lemma FoundAt(db: Db, id: nat)
    requires Consistency.Sound(db)
    ensures forall i :: 0 <= i < |db.holds| && db.holds[i].id == id ==> FindHold(db.holds, id) == Some(db.holds[i])
  {
    forall i | 0 <= i < |db.holds| && db.holds[i].id == id ensures FindHold(db.holds, id) == Some(db.holds[i]) {
      Carts.FoundHold(db, db.holds[i]) by { hide Inventory.InventoryOk, Passes.PassesOk, Ledger.PromosOk; }
    }
  }

  lemma CodeTakenOff(db: Db, session: string, id: nat)
    requires Consistency.Sound(db)
    ensures var after := Holds.RemovePromo(db, session, id);
            && OnlyEdits(db, after, id)
            && forall i :: 0 <= i < |db.holds| && db.holds[i].id == id ==>
                 after.holds[i] == if db.holds[i].session == session then db.holds[i].(promo := None) else db.holds[i]
  {
    hide Consistency.Sound, FindHold;
    FoundAt(db, id);
  }

  lemma GiftTakenOff(db: Db, session: string, id: nat)
    requires Consistency.Sound(db)
    ensures var after := Holds.ClearDonation(db, session, id);
            && OnlyEdits(db, after, id)
            && forall i :: 0 <= i < |db.holds| && db.holds[i].id == id ==>
                 after.holds[i] ==
                   if db.holds[i].session == session then db.holds[i].(donation := None) else db.holds[i]
  {
    hide Consistency.Sound, FindHold;
    FoundAt(db, id);
  }
}

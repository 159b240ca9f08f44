/** When a hold ends, and that an expired hold is as good as gone: nothing can be done with
    it, nothing waits for it, and when the sweeper deletes it makes no difference. */
module Expiry {
  import opened Tables
  import opened Schema
  import opened System
  import opened Holds
  import opened Fulfilment
  import opened Answers
  import Pricing
  import Promotions
  import Hosted = Stripe
  import Carts
  import Inventory
  import Passes
  import Ledger
  import Consistency

  // --- too late ---------------------------------------------------------

  /** A hold of that id that has not run out. */
  predicate Stands(db: Db, id: nat, h: Hold) { h in db.holds && h.id == id && h.expiresAt > db.now }

  lemma FoundIffStands(db: Db, id: nat, h: Hold)
    requires Consistency.Sound(db)
    ensures Stands(db, id, h) <==> FindHold(db.holds, id) == Some(h) && h.expiresAt > db.now
  {
    Carts.FindHoldIn(db.holds, id);
    if h in db.holds && h.id == id {
      Carts.FoundHold(db, h) by { hide Inventory.InventoryOk, Passes.PassesOk, Ledger.PromosOk; }
    }
    hide Consistency.Sound, FindHold;
  }

  /** The actions that pay for the hold of an id; the webhook only if its session has not
      been delivered before. */
  predicate PaysFor(db: Db, a: Action, id: nat) {
    match a
    case TestCheckout(hold, _) => hold == id
    case UsePass(hold, _) => hold == id
    case Deliver(checkout, what, _) =>
      what == HoldCheckout(id) && forall i :: 0 <= i < |db.orders| ==> db.orders[i].checkout != Some(checkout)
    case _ => false
  }

  /** A payment answers that the hold is gone exactly when there is no hold of that id, or
      it has run out, to the second. */
  lemma TooLateIff(db: Db, id: nat, pay: Action)
    requires Consistency.Sound(db) && PaysFor(db, pay, id)
    ensures Attempt(db, pay) == Err(HoldGone) <==> forall h :: !Stands(db, id, h)
  {
    Carts.FindHoldIn(db.holds, id);
    var found := FindHold(db.holds, id);
    if found.Some? {
      FoundIffStands(db, id, found.value);
      if pay.UsePass? {
        RedeemAnswer(db, found.value, pay.pass);
      } else if pay.TestCheckout? {
        PayAnswer(db, found.value, Test, pay.ref, None);
      } else {
        PayAnswer(db, found.value, Provider.Stripe, pay.ref, Some(pay.checkout));
      }
    }
    if pay.Deliver? { Ledger.FindOrderIs(db.orders, pay.checkout); }
    forall h | Stands(db, id, h) ensures found == Some(h) { FoundIffStands(db, id, h); }
    hide Consistency.Sound, FindHold, FindOrder, FulfillHold, RedeemPass, FirstFailing, PayChecks, PassChecks;
    hide StockChecks;
  }

  /** The same of a payment page and of the edits of a cart. */
  lemma PageTooLateIff(h: Hold, org: string, percent: int, fixed: int, now: int)
    ensures Hosted.CheckoutSession(h, org, percent, fixed, now) == Err(HoldGone) <==> h.expiresAt <= now
  {
    hide Hosted.ApplicationFee, Hosted.ToMinor, HoldCurrency;
  }

  /** The sweeper deletes exactly the holds that have run out. */
  lemma SweepIs(db: Db)
    ensures var after := Next(db, Action.Sweep);
            && after == db.(holds := after.holds)
            && forall h :: h in after.holds <==> h in db.holds && h.expiresAt > db.now
  {
    FilterMembers(db.holds, UnexpiredAt(db.now));
  }

  // --- sweeping makes no difference -------------------------------------

  lemma {:induction false} FilterSwap<T>(rows: seq<T>, p: T -> bool, q: T -> bool)
    ensures Filter(Filter(rows, p), q) == Filter(Filter(rows, q), p)
  {
    if rows != [] {
      var init, last := rows[..|rows| - 1], rows[|rows| - 1];
      FilterSwap(init, p, q);
      assert p(last) ==> Filter(rows, p)[..|Filter(init, p)|] == Filter(init, p);
      assert q(last) ==> Filter(rows, q)[..|Filter(init, q)|] == Filter(init, q);
    }
  }

  /** Rows that a later filter drops anyway may be dropped first. */
  lemma {:induction false} FilterWithin<T>(rows: seq<T>, wide: T -> bool, narrow: T -> bool)
    requires forall i :: 0 <= i < |rows| && narrow(rows[i]) ==> wide(rows[i])
    ensures Filter(Filter(rows, wide), narrow) == Filter(rows, narrow)
  {
    if rows != [] {
      var init, last := rows[..|rows| - 1], rows[|rows| - 1];
      FilterWithin(init, wide, narrow);
      assert wide(last) ==> Filter(rows, wide)[..|Filter(init, wide)|] == Filter(init, wide);
    }
  }

  lemma {:induction false} FilterEdited<T>(rows: seq<T>, keep: T -> bool, edit: T -> T)
    requires forall i :: 0 <= i < |rows| ==> keep(edit(rows[i])) == keep(rows[i])
    ensures Filter(MapRows(rows, edit), keep) == MapRows(Filter(rows, keep), edit)
  {
    if rows != [] {
      var init, last := rows[..|rows| - 1], rows[|rows| - 1];
      FilterEdited(init, keep, edit);
      assert MapRows(rows, edit)[..|rows| - 1] == MapRows(init, edit);
    }
  }

  /** The database without its expired holds. */
  function Swept(db: Db): Db { db.(holds := Filter(db.holds, UnexpiredAt(db.now))) }

  lemma SweptTwice(db: Db)
    ensures Swept(Swept(db)) == Swept(db)
  {
    FilterWithin(db.holds, UnexpiredAt(db.now), UnexpiredAt(db.now));
  }

  /** `x` and `y` differ at most in expired holds. */
  predicate Alike(x: Db, y: Db) { Swept(x) == Swept(y) }

  /** Both fail alike, or both succeed and end alike. */
  predicate EndAlike(x: Result<Db, Failure>, y: Result<Db, Failure>) {
    match x
    case Err(e) => y == Err(e)
    case Ok(after) => y.Ok? && Alike(after, y.value)
  }

  lemma FoundInSwept(db: Db, id: nat)
    requires Consistency.Sound(db)
    ensures FindHold(Swept(db).holds, id) ==
            match FindHold(db.holds, id)
            case Some(h) => (if h.expiresAt > db.now then Some(h) else None)
            case None => None
  {
    SweptIsSound(db);
    SweepIs(db);
    Carts.FindHoldIn(db.holds, id);
    Carts.FindHoldIn(Swept(db).holds, id);
    forall h | h in db.holds && h.id == id ensures FindHold(db.holds, id) == Some(h) {
      Carts.FoundHold(db, h) by { hide Inventory.InventoryOk, Passes.PassesOk, Ledger.PromosOk; }
    }
    hide Consistency.Sound, FindHold;
  }

  lemma SweptIsSound(db: Db)
    requires Consistency.Sound(db)
    ensures Consistency.Sound(Swept(db)) && Swept(db) == Next(db, Action.Sweep)
  {
    hide Consistency.Sound;
    Consistency.StepKeepsSound(db, Action.Sweep);
  }

  lemma FilterAlike(db: Db, keep: Hold -> bool)
    ensures Alike(db.(holds := Filter(db.holds, keep)), Swept(db).(holds := Filter(Swept(db).holds, keep)))
  {
    var live := UnexpiredAt(db.now);
    FilterSwap(db.holds, live, keep);
    FilterWithin(Filter(db.holds, keep), live, live);
  }

  lemma ReplaceAlike(db: Db, perf: nat, session: string, cart: Cart)
    ensures Alike(Replaced(db, perf, session, cart), Replaced(Swept(db), perf, session, cart))
  {
    var live, keep := UnexpiredAt(db.now), NotOf(perf, session);
    var placed := [Hold(db.nextHold, perf, session, db.now + HOLD_SECONDS, cart, None, None)];
    FilterAlike(db, keep);
    FilterConcat(Filter(db.holds, keep), placed, live);
    FilterConcat(Filter(Swept(db).holds, keep), placed, live);
    hide Filter;
  }

  lemma EditAlike(db: Db, edit: Hold -> Hold)
    requires forall h: Hold :: edit(h).expiresAt == h.expiresAt
    ensures Alike(db.(holds := MapRows(db.holds, edit)), Swept(db).(holds := MapRows(Swept(db).holds, edit)))
  {
    var live := UnexpiredAt(db.now);
    FilterEdited(db.holds, live, edit);
    FilterEdited(Swept(db).holds, live, edit);
    SweptTwice(db);
    hide Filter;
  }

  /** An edit of a hold that has run out does not show. */
  lemma DeadEditAlike(db: Db, id: nat, edit: Hold -> Hold)
    requires forall h: Hold :: edit(h).expiresAt == h.expiresAt && (h.id != id ==> edit(h) == h)
    requires forall h :: !Stands(db, id, h)
    ensures Alike(db.(holds := MapRows(db.holds, edit)), Swept(db))
  {
    var live := UnexpiredAt(db.now);
    FilterEdited(db.holds, live, edit);
    SweptTwice(db);
    SweepIs(db);
    forall i | 0 <= i < |Swept(db).holds| ensures edit(Swept(db).holds[i]) == Swept(db).holds[i] {
      var h := Swept(db).holds[i];
      assert h in Swept(db).holds && !Stands(db, id, h);
    }
    hide Filter;
    assert MapRows(Swept(db).holds, edit) == Swept(db).holds;
  }

  lemma MintAlike(db: Db, h: Hold, order: Order)
    ensures Alike(Mint(db, h, order), Mint(Swept(db), h, order))
  {
    FilterAlike(db, NotRow(h.id));
    hide Filter, NewTickets, TakeFrom;
  }

  lemma GaHeldInSwept(db: Db, perf: nat, except: Option<string>)
    ensures ActiveGaHeld(Swept(db), perf, except) == ActiveGaHeld(db, perf, except)
  {
    SumFilter(db.holds, UnexpiredAt(db.now), GaHeld(perf, db.now, except), GaHeld(perf, db.now, except));
  }

  lemma TakenInSwept(db: Db, perf: nat, session: string, seat: nat)
    ensures Taken(Swept(db), perf, session, seat) <==> Taken(db, perf, session, seat)
  {
    SweepIs(db);
    hide Filter, SeatIds, Ticketed;
  }

  lemma SelectAlike(db: Db, a: Action)
    requires a.SetGaHold? || a.SetReservedHold? || a.Release? || a.ReleaseById? || a.Sweep?
    ensures EndAlike(Attempt(db, a), Attempt(Swept(db), a))
  {
    hide Filter, ActiveGaHeld, FindTier, SeatsOnChart, Taken, ToHeldSeat, Pricing.BulkPrice, Replaced, Alike;
    match a
    case SetGaHold(perf, session, tier, quantity) =>
      GaHeldInSwept(db, perf, Some(session));
      FilterAlike(db, NotOf(perf, session));
      if FindTier(db.book.tiers, tier).Some? && quantity > 0 {
        var t := FindTier(db.book.tiers, tier).value;
        ReplaceAlike(db, perf, session, Ga(quantity, t.amount, t.currency));
      }
    case SetReservedHold(perf, session, ids) =>
      forall id: nat ensures Taken(Swept(db), perf, session, id) <==> Taken(db, perf, session, id) {
        TakenInSwept(db, perf, session, id);
      }
      FilterAlike(db, NotOf(perf, session));
      if perf in db.perfs { ReplaceAlike(db, perf, session, Carts.ReservedCart(db, perf, ids)); }
    case Release(perf, session) => FilterAlike(db, NotOf(perf, session));
    case ReleaseById(session, id) => FilterAlike(db, NotId(id, session));
    case Sweep => FilterAlike(db, UnexpiredAt(db.now));
  }

  /** What an edit of a hold needs to know: whether it still stands. */
  lemma StandsInSwept(db: Db, id: nat)
    requires Consistency.Sound(db)
    ensures var found := FindHold(db.holds, id);
            if found.Some? && found.value.expiresAt > db.now then FindHold(Swept(db).holds, id) == found
            else FindHold(Swept(db).holds, id) == None && forall h :: !Stands(db, id, h)
  {
    FoundInSwept(db, id);
    forall h | Stands(db, id, h) ensures FindHold(db.holds, id) == Some(h) { FoundIffStands(db, id, h); }
    hide Consistency.Sound, FindHold, Swept;
  }

  lemma SweptAlike(db: Db)
    ensures Alike(db, Swept(db))
  {
    SweptTwice(db);
  }

  lemma NoCodeAlike(db: Db, session: string, id: nat)
    requires Consistency.Sound(db)
    ensures Alike(Holds.RemovePromo(db, session, id), Holds.RemovePromo(Swept(db), session, id))
  {
    StandsInSwept(db, id);
    SweptAlike(db);
    if FindHold(Swept(db).holds, id).None? {
      DeadEditAlike(db, id, WithPromo(id, None));
    } else {
      EditAlike(db, WithPromo(id, None));
    }
    hide Consistency.Sound, FindHold, MapRows, Stands, Filter, Alike, Swept;
  }

  lemma NoGiftAlike(db: Db, session: string, id: nat)
    requires Consistency.Sound(db)
    ensures Alike(Holds.ClearDonation(db, session, id), Holds.ClearDonation(Swept(db), session, id))
  {
    StandsInSwept(db, id);
    SweptAlike(db);
    if FindHold(Swept(db).holds, id).None? {
      DeadEditAlike(db, id, WithDonation(id, None));
    } else {
      EditAlike(db, WithDonation(id, None));
    }
    hide Consistency.Sound, FindHold, MapRows, Stands, Filter, Alike, Swept;
  }

  lemma GiftAlike(db: Db, session: string, id: nat, amount: int)
    requires Consistency.Sound(db)
    ensures EndAlike(Holds.SetDonation(db, session, id, amount), Holds.SetDonation(Swept(db), session, id, amount))
  {
    StandsInSwept(db, id);
    EditAlike(db, WithDonation(id, Some(amount)));
    hide Consistency.Sound, FindHold, MapRows, Stands, Filter, Alike;
  }

  lemma CodeAlike(db: Db, session: string, id: nat, code: string)
    requires Consistency.Sound(db)
    ensures EndAlike(Holds.ApplyPromo(db, session, id, code), Holds.ApplyPromo(Swept(db), session, id, code))
  {
    StandsInSwept(db, id);
    hide Consistency.Sound, FindHold, MapRows, Stands, Filter, Alike, HoldTotal, HoldCurrency;
    hide Promotions.ComputeDiscount, Promotions.ValidateCode;
    if FindHold(db.holds, id).Some? && code in db.promos {
      var discount := Promotions.ComputeDiscount(db.promos[code], HoldTotal(FindHold(db.holds, id).value));
      EditAlike(db, WithPromo(id, Some(AppliedPromo(code, discount))));
    }
  }

  lemma EditsAlike(db: Db, a: Action)
    requires Consistency.Sound(db) && (a.ApplyPromo? || a.RemovePromo? || a.SetDonation? || a.ClearDonation?)
    ensures EndAlike(Attempt(db, a), Attempt(Swept(db), a))
  {
    hide Consistency.Sound, Alike, Swept, Holds.ApplyPromo, Holds.SetDonation, Holds.RemovePromo, Holds.ClearDonation;
    match a
    case ApplyPromo(session, id, code) => CodeAlike(db, session, id, code);
    case SetDonation(session, id, amount) => GiftAlike(db, session, id, amount);
    case RemovePromo(session, id) => NoCodeAlike(db, session, id);
    case ClearDonation(session, id) => NoGiftAlike(db, session, id);
  }

  lemma PaidAlike(db: Db, h: Hold, provider: Provider, ref: string, checkout: Option<string>)
    ensures EndAlike(FulfillHold(db, h, provider, ref, checkout), FulfillHold(Swept(db), h, provider, ref, checkout))
  {
    MintAlike(db, h, SaleOrder(h, provider, ref, checkout));
    hide Filter, SaleOrder, Counted, NewTickets, TakeFrom;
    assert InventoryFailure(Swept(db), h) == InventoryFailure(db, h);
    hide InventoryFailure;
  }

  lemma RedeemedAlike(db: Db, h: Hold, pass: nat)
    ensures EndAlike(RedeemPass(db, h, pass), RedeemPass(Swept(db), h, pass))
  {
    MintAlike(db, h, RedemptionOrder(h, pass));
    assert RedemptionFailure(Swept(db), h, pass) == RedemptionFailure(db, h, pass);
    hide Filter, NewTickets, TakeFrom, RedemptionFailure, NewRedemptions, Spent;
  }

  lemma TestAlike(db: Db, id: nat, ref: string)
    requires Consistency.Sound(db)
    ensures EndAlike(FulfillById(db, id, ref), FulfillById(Swept(db), id, ref))
  {
    StandsInSwept(db, id);
    var found := FindHold(db.holds, id);
    if found.Some? {
      PaidAlike(db, found.value, Test, ref, None);
      PayAnswer(db, found.value, Test, ref, None);
    }
    hide Consistency.Sound, FindHold, FulfillHold, FirstFailing, Stands, Swept, Alike;
  }

  lemma UseAlike(db: Db, id: nat, pass: nat)
    requires Consistency.Sound(db)
    ensures EndAlike(RedeemById(db, id, pass), RedeemById(Swept(db), id, pass))
  {
    StandsInSwept(db, id);
    var found := FindHold(db.holds, id);
    if found.Some? {
      RedeemedAlike(db, found.value, pass);
      RedeemAnswer(db, found.value, pass);
    }
    hide Consistency.Sound, FindHold, RedeemPass, FirstFailing, Stands, Swept, Alike;
  }

  function Outcome(r: Result<Delivered, Failure>): Result<Db, Failure> {
    match r
    case Ok(d) => Ok(d.db)
    case Err(e) => Err(e)
  }

  lemma HoldPaidAlike(db: Db, checkout: string, id: nat, ref: string)
    requires Consistency.Sound(db)
    ensures EndAlike(Outcome(Fulfilment.Deliver(db, checkout, HoldCheckout(id), ref)),
                     Outcome(Fulfilment.Deliver(Swept(db), checkout, HoldCheckout(id), ref)))
  {
    StandsInSwept(db, id);
    SweptAlike(db);
    assert Swept(db).orders == db.orders;
    var found := FindHold(db.holds, id);
    if found.Some? {
      PaidAlike(db, found.value, Provider.Stripe, ref, Some(checkout));
      PayAnswer(db, found.value, Provider.Stripe, ref, Some(checkout));
    }
    hide Consistency.Sound, FindHold, FindOrder, FulfillHold, FirstFailing, Stands, Swept, Alike;
  }

  /** What does not touch the holds is done to the one table as to the other. */
  lemma UntouchedAlike(db: Db, after: Db)
    requires after.holds == db.holds && after.now >= db.now
    ensures Alike(after, after.(holds := Swept(db).holds))
  {
    FilterWithin(db.holds, UnexpiredAt(db.now), UnexpiredAt(after.now));
  }

  lemma PlainAlike(db: Db, a: Action)
    requires a.Deliver? && !a.what.HoldCheckout?
    ensures EndAlike(Attempt(db, a), Attempt(Swept(db), a))
  {
    hide Filter, FindOrder, Alike;
    if Attempt(db, a).Ok? { UntouchedAlike(db, Next(db, a)); }
  }

  lemma PaymentsAlike(db: Db, a: Action)
    requires Consistency.Sound(db) && (a.TestCheckout? || a.UsePass? || a.Deliver?)
    ensures EndAlike(Attempt(db, a), Attempt(Swept(db), a))
  {
    hide Consistency.Sound, Alike, Swept, FulfillById, RedeemById, Fulfilment.Deliver;
    match a
    case TestCheckout(id, ref) => TestAlike(db, id, ref);
    case UsePass(id, pass) => UseAlike(db, id, pass);
    case Deliver(checkout, HoldCheckout(id), ref) => HoldPaidAlike(db, checkout, id, ref);
    case Deliver(_, _, _) => PlainAlike(db, a);
  }

  lemma ReverseSparesHolds(db: Db, o: nat, status: OrderStatus, holds: seq<Hold>)
    requires o < |db.orders|
    ensures Reverse(db.(holds := holds), o, status) == Reverse(db, o, status).(holds := holds)
    ensures Reverse(db, o, status).holds == db.holds && Reverse(db, o, status).now == db.now
  {
    hide Filter, Sum, RestoredPasses, MapRows;
  }

  lemma CancelledAlike(db: Db, o: nat)
    ensures EndAlike(Fulfilment.CancelOrder(db, o), Fulfilment.CancelOrder(Swept(db), o))
  {
    SweptAlike(db);
    if o < |db.orders| {
      ReverseSparesHolds(db, o, Cancelled, Swept(db).holds);
      UntouchedAlike(db, Reverse(db, o, Cancelled));
    }
    hide Filter, Reverse, Alike;
  }

  lemma RefundedAlike(db: Db, o: nat, stripe: Option<string>)
    ensures EndAlike(RefundOrder(db, o, stripe), RefundOrder(Swept(db), o, stripe))
  {
    SweptAlike(db);
    if o < |db.orders| { ReverseSparesHolds(db, o, OrderStatus.Refunded, Swept(db).holds); }
    assert PassSpent(Swept(db), o) == PassSpent(db, o);
    hide Filter, Reverse, Alike, FirstSucceeded, SoldAPass, PassSpent, IsPaymentIntent, MapRows;
    if RefundOrder(db, o, stripe).Ok? { UntouchedAlike(db, RefundOrder(db, o, stripe).value); }
  }

  lemma UndoneAlike(db: Db, a: Action)
    requires a.Refund? || a.Cancel?
    ensures EndAlike(Attempt(db, a), Attempt(Swept(db), a))
  {
    hide Alike, Swept, RefundOrder, Fulfilment.CancelOrder;
    match a
    case Refund(o, stripe) => RefundedAlike(db, o, stripe);
    case Cancel(o) => CancelledAlike(db, o);
  }

  lemma DeskAlike(db: Db, a: Action)
    requires !Consistency.IsCartAction(a) && !a.TestCheckout? && !a.UsePass? && !a.Deliver? && !a.Refund? && !a.Cancel?
    ensures EndAlike(Attempt(db, a), Attempt(Swept(db), a))
  {
    hide Filter, Pricing.VenueOk, Alike;
    if Attempt(db, a).Ok? { UntouchedAlike(db, Next(db, a)); }
  }

  /** Every action is answered alike and ends alike whether the expired holds are still
      in the table or not. */
  lemma StepAlike(db: Db, a: Action)
    requires Consistency.Sound(db)
    ensures EndAlike(Attempt(db, a), Attempt(Swept(db), a))
  {
    hide Attempt, Alike, Swept, Consistency.Sound;
    match a
    case ApplyPromo(_, _, _) => EditsAlike(db, a);
    case SetDonation(_, _, _) => EditsAlike(db, a);
    case RemovePromo(_, _) => EditsAlike(db, a);
    case ClearDonation(_, _) => EditsAlike(db, a);
    case TestCheckout(_, _) => PaymentsAlike(db, a);
    case UsePass(_, _) => PaymentsAlike(db, a);
    case Deliver(_, _, _) => PaymentsAlike(db, a);
    case Refund(_, _) => UndoneAlike(db, a);
    case Cancel(_) => UndoneAlike(db, a);
    case _ => if Consistency.IsCartAction(a) { SelectAlike(db, a); } else { DeskAlike(db, a); }
  }

  lemma AlikeAnswers(x: Db, y: Db, a: Action)
    requires Consistency.Sound(x) && Consistency.Sound(y) && Alike(x, y)
    ensures EndAlike(Attempt(x, a), Attempt(y, a)) && Alike(Next(x, a), Next(y, a))
  {
    StepAlike(x, a);
    StepAlike(y, a);
    hide Attempt, Swept, Consistency.Sound;
  }

  /** Two box offices that differ in expired holds live through any run alike, down to the
      answers to the next action. */
  lemma {:induction false} RunsAlike(x: Db, y: Db, actions: seq<Action>, next: Action)
    requires Consistency.Sound(x) && Consistency.Sound(y) && Alike(x, y)
    ensures Consistency.Sound(Run(x, actions)) && Consistency.Sound(Run(y, actions))
    ensures Alike(Run(x, actions), Run(y, actions))
    ensures EndAlike(Attempt(Run(x, actions), next), Attempt(Run(y, actions), next))
  {
    hide Consistency.Sound, Alike, Next, EndAlike;
    if actions != [] {
      var init, a := actions[..|actions| - 1], actions[|actions| - 1];
      RunsAlike(x, y, init, a);
      Consistency.StepKeepsSound(Run(x, init), a);
      Consistency.StepKeepsSound(Run(y, init), a);
      AlikeAnswers(Run(x, init), Run(y, init), a);
    }
    AlikeAnswers(Run(x, actions), Run(y, actions), next);
  }

  lemma {:induction false} RunJoins(db: Db, first: seq<Action>, second: seq<Action>)
    ensures Run(Run(db, first), second) == Run(db, first + second)
  {
    hide Next;
    if second == [] {
      assert first + second == first;
    } else {
      var init := second[..|second| - 1];
      assert (first + second)[..|first + second| - 1] == first + init;
      RunJoins(db, first, init);
    }
  }

  /** Wherever in a run the sweeper comes by, everything but the expired holds themselves
      is as if it had not: every answer, order, ticket, pass and availability. */
  lemma SweepingMakesNoDifference(start: Db, first: seq<Action>, later: seq<Action>, next: Action)
    requires Opening(start)
    ensures var x, y := Run(start, first + [Action.Sweep] + later), Run(start, first + later);
            && Alike(x, y) && EndAlike(Attempt(x, next), Attempt(y, next))
            && x == y.(holds := x.holds)
            && forall h: Hold :: h.expiresAt > y.now ==> (h in x.holds <==> h in y.holds)
  {
    var db := Run(start, first);
    Consistency.AlwaysConsistent(start, first);
    SweptIsSound(db);
    SweptTwice(db);
    RunJoins(start, first + [Action.Sweep], later);
    RunJoins(start, first, later);
    assert (first + [Action.Sweep])[..|first|] == first;
    hide Consistency.Sound, Swept, Next, Attempt;
    assert Run(start, first + [Action.Sweep]) == Swept(db);
    RunsAlike(Swept(db), db, later, next);
    AlikeRows(Run(Swept(db), later), Run(db, later));
    hide Run, Alike;
  }

  lemma AlikeRows(x: Db, y: Db)
    requires Alike(x, y)
    ensures x == y.(holds := x.holds) && forall h: Hold :: h.expiresAt > y.now ==> (h in x.holds <==> h in y.holds)
  {
    FilterMembers(x.holds, UnexpiredAt(x.now));
    FilterMembers(y.holds, UnexpiredAt(y.now));
    hide Filter;
    assert x.(holds := Swept(x).holds) == y.(holds := Swept(y).holds);
    assert x.now == y.now;
  }

  /** What is shown does not depend on expired holds either. */
  lemma ShownAlike(x: Db, y: Db, perf: nat, session: Option<string>, seat: nat)
    requires Alike(x, y)
    ensures GaAvailable(x, perf, session) == GaAvailable(y, perf, session)
    ensures SeatStateOf(x, perf, session, seat) == SeatStateOf(y, perf, session, seat)
  {
    AlikeRows(x, y);
    GaHeldInSwept(x, perf, session);
    GaHeldInSwept(y, perf, session);
    hide Filter, Sum, SeatIds, Ticketed;
    assert HeldHere(x, perf, seat, session, true) <==> HeldHere(y, perf, seat, session, true);
    assert HeldHere(x, perf, seat, session, false) <==> HeldHere(y, perf, seat, session, false);
  }
}

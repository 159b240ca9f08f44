/** Webhook deliveries, split where fulfill_checkout_session is not locked: a first
    step that reads whether the session has an order and reads the hold or product,
    and a second that commits against the unique constraint on the session. Any
    number of deliveries interleave with each other and with everything else the
    box office does. */
module Webhooks {
  import opened Tables
  import opened Schema
  import opened Holds
  import opened Fulfilment
  import System
  import Ledger
  import Carts
  import Promotions
  import Consistency

  /** What a delivery holds in memory between its two steps. */
  datatype Read = HoldRow(row: Hold) | GiftAmount(cents: int) | Listing(product: nat, listing: Product)

  datatype Outcome = Created(order: nat) | Existing(order: nat) | Failed(why: Failure)

  datatype Phase = Arrived | Looked(read: Read) | Answered(outcome: Outcome)

  datatype Delivery = Delivery(session: string, what: Checkout, ref: string, phase: Phase)

  datatype World = World(db: Db, deliveries: seq<Delivery>)

  datatype Step =
    | Arrive(session: string, what: Checkout, ref: string)
    | Look(delivery: nat)
    | Finish(delivery: nat)
    | Other(action: System.Action)

  // --- the two steps ----------------------------------------------------

  /** Up to the call of a fulfill function. */
  function AfterLook(db: Db, d: Delivery): Phase {
    match FindOrder(db.orders, d.session)
    case Some(o) => Answered(Existing(o))
    case None =>
      match d.what
      case GiftCheckout(None) => Answered(Failed(BadAmount))
      case GiftCheckout(Some(amount)) => Looked(GiftAmount(amount))
      case PassCheckout(product) =>
        if product in db.products then Looked(Listing(product, db.products[product])) else Answered(Failed(NoProduct))
      case HoldCheckout(id) =>
        match FindHold(db.holds, id)
        case Some(h) => if Unexpired(h, db.now) then Looked(HoldRow(h)) else Answered(Failed(HoldGone))
        case None => Answered(Failed(HoldGone))
  }

  /** The hold a commit works with: the row as it was read, the seats as they are now. */
  function AsFound(db: Db, row: Hold): Hold {
    match row.cart
    case Ga(_, _, _) => row
    case Reserved(_) =>
      match FindHold(db.holds, row.id)
      case Some(h) => if h.cart.Reserved? then row.(cart := h.cart) else row.(cart := Reserved([]))
      case None => row.(cart := Reserved([]))
  }

  /** The product a commit sells: the row as it was read, the covered events as they are now. */
  function AsListed(db: Db, product: nat, listing: Product): Product {
    listing.(events := if product in db.products then db.products[product].events else listing.events)
  }

  /** The fulfill call, and the fall-back to the winner when the session already has
      an order: a failed create rolls everything back. */
  function Outcomes(db: Db, d: Delivery, read: Read): (Db, Outcome) {
    var winner := FindOrder(db.orders, d.session);
    match read
    case GiftAmount(amount) =>
      if winner.Some? then (db, Existing(winner.value))
      else (FulfillDonation(db, amount, Stripe, d.ref, Some(d.session)), Created(|db.orders|))
    case Listing(product, listing) =>
      if !listing.active then (db, Failed(ProductInactive))
      else if winner.Some? then (db, Existing(winner.value))
      else
        var listed := db.(products := db.products[product := AsListed(db, product, listing)]);
        (FulfillPass(listed, product, Stripe, d.ref, Some(d.session)).value.(products := db.products),
            Created(|db.orders|))
    case HoldRow(row) =>
      if !Unexpired(row, db.now) then (db, Failed(HoldGone))
      else if winner.Some? then (db, Existing(winner.value))
      else
        match FulfillHold(db, AsFound(db, row), Stripe, d.ref, Some(d.session))
        case Err(e) => (db, Failed(e))
        case Ok(after) => (after, Created(|db.orders|))
  }

  function Take(w: World, step: Step): World {
    match step
    case Arrive(session, what, ref) => w.(deliveries := w.deliveries + [Delivery(session, what, ref, Arrived)])
    case Look(i) =>
      if i < |w.deliveries| && w.deliveries[i].phase.Arrived?
      then w.(deliveries := w.deliveries[i := w.deliveries[i].(phase := AfterLook(w.db, w.deliveries[i]))])
      else w
    case Finish(i) =>
      if i < |w.deliveries| && w.deliveries[i].phase.Looked?
      then
        var (db, outcome) := Outcomes(w.db, w.deliveries[i], w.deliveries[i].phase.read);
        World(db, w.deliveries[i := w.deliveries[i].(phase := Answered(outcome))])
      else w
    case Other(a) => if a.Deliver? then w else w.(db := System.Next(w.db, a))
  }

  function Run(w: World, steps: seq<Step>): World {
    if steps == [] then w else Take(Run(w, steps[..|steps| - 1]), steps[|steps| - 1])
  }

  // --- counting ---------------------------------------------------------

  function PaidBy(session: string): Order -> int { (o: Order) => if o.checkout == Some(session) then 1 else 0 }

  function CreatedFor(session: string): Delivery -> int {
    (d: Delivery) => if d.session == session && d.phase.Answered? && d.phase.outcome.Created? then 1 else 0
  }

  ghost predicate AnswersOk(orders: seq<Order>, deliveries: seq<Delivery>) {
    forall i :: 0 <= i < |deliveries| && deliveries[i].phase.Answered? ==>
      match deliveries[i].phase.outcome
      case Failed(_) => true
      case Created(o) => o < |orders| && orders[o].checkout == Some(deliveries[i].session)
      case Existing(o) => o < |orders| && orders[o].checkout == Some(deliveries[i].session)
  }

  ghost predicate Inv(w: World) {
    && Ledger.CheckoutsOk(w.db.orders)
    && AnswersOk(w.db.orders, w.deliveries)
    && (forall session :: Sum(w.deliveries, CreatedFor(session)) == Sum(w.db.orders, PaidBy(session)))
  }

  // --- everything else leaves sessions alone ----------------------------

  /** Orders keep their session, and new ones have none. */
  ghost predicate SessionsKept(a: seq<Order>, b: seq<Order>) {
    && |a| <= |b|
    && (forall i :: 0 <= i < |a| ==> b[i].checkout == a[i].checkout)
    && (forall i :: |a| <= i < |b| ==> b[i].checkout.None?)
  }

  lemma CountKept(a: seq<Order>, b: seq<Order>, session: string)
    requires SessionsKept(a, b)
    ensures Sum(b, PaidBy(session)) == Sum(a, PaidBy(session))
  {
    assert b == b[..|a|] + b[|a|..];
    SumConcat(b[..|a|], b[|a|..], PaidBy(session));
    SumZero(b[|a|..], PaidBy(session));
    SumSame(b[..|a|], PaidBy(session), a, PaidBy(session));
  }

  lemma ReversalsKeepSessions(db: Db, a: System.Action)
    requires a.Refund? || a.Cancel?
    ensures SessionsKept(db.orders, System.Next(db, a).orders)
  {
    hide Sum, Filter, RestoredPasses, Voided, PassSpent, FirstSucceeded;
  }

  lemma SalesKeepSessions(db: Db, a: System.Action)
    requires a.TestCheckout? || a.UsePass? || a.GiveDirectly? || a.SellPass?
    ensures SessionsKept(db.orders, System.Next(db, a).orders)
  {
    hide Sum, Filter, InventoryFailure, RedemptionFailure, NewTickets, NewRedemptions, FindHold;
  }

  lemma OthersKeepSessions(db: Db, a: System.Action)
    requires !a.Deliver?
    ensures SessionsKept(db.orders, System.Next(db, a).orders)
  {
    if a.Refund? || a.Cancel? {
      ReversalsKeepSessions(db, a);
      hide System.Next;
    } else if a.TestCheckout? || a.UsePass? || a.GiveDirectly? || a.SellPass? {
      SalesKeepSessions(db, a);
      hide System.Next;
    } else {
      hide Sum, Filter, SeatsOnChart, Taken, FindTier, FindHold, Promotions.ValidateCode;
    }
  }

  // --- the invariant ----------------------------------------------------

  lemma KeptOrders(w: World, db: Db)
    requires Inv(w) && SessionsKept(w.db.orders, db.orders)
    ensures Inv(w.(db := db))
  {
    forall session ensures Sum(db.orders, PaidBy(session)) == Sum(w.db.orders, PaidBy(session)) {
      CountKept(w.db.orders, db.orders, session);
    }
    hide Sum;
  }

  lemma AnswerKeeps(w: World, i: nat, phase: Phase)
    requires Inv(w) && i < |w.deliveries| && !w.deliveries[i].phase.Answered?
    requires phase.Answered? ==> !phase.outcome.Created?
    requires phase.Answered? && phase.outcome.Existing? ==>
        FindOrder(w.db.orders, w.deliveries[i].session) == Some(phase.outcome.order)
    ensures Inv(w.(deliveries := w.deliveries[i := w.deliveries[i].(phase := phase)]))
  {
    var d := w.deliveries[i].(phase := phase);
    forall session ensures Sum(w.deliveries[i := d], CreatedFor(session)) == Sum(w.deliveries, CreatedFor(session)) {
      SumUpdate(w.deliveries, CreatedFor(session), i, d);
    }
    Ledger.FindOrderIs(w.db.orders, d.session);
    hide Sum;
  }

  /** What a commit that creates does to the orders. */
  lemma CreateAppends(db: Db, d: Delivery, read: Read)
    requires Outcomes(db, d, read).1.Created?
    ensures var after := Outcomes(db, d, read).0;
            && Outcomes(db, d, read).1.order == |db.orders| && FindOrder(db.orders, d.session).None?
            && |after.orders| == |db.orders| + 1 && after.orders[..|db.orders|] == db.orders
            && after.orders[|db.orders|].checkout == Some(d.session)
  {
    hide Filter, InventoryFailure, NewTickets, FindOrder;
  }

  lemma CreateKeeps(w: World, i: nat, db: Db)
    requires Inv(w) && i < |w.deliveries| && !w.deliveries[i].phase.Answered?
    requires FindOrder(w.db.orders, w.deliveries[i].session).None?
    requires |db.orders| == |w.db.orders| + 1 && db.orders[..|w.db.orders|] == w.db.orders
    requires db.orders[|w.db.orders|].checkout == Some(w.deliveries[i].session)
    ensures Inv(World(db, w.deliveries[i := w.deliveries[i].(phase := Answered(Created(|w.db.orders|)))]))
  {
    var d := w.deliveries[i].(phase := Answered(Created(|w.db.orders|)));
    var order := db.orders[|w.db.orders|];
    assert db.orders == w.db.orders + [order];
    Ledger.FindOrderIs(w.db.orders, d.session);
    forall session ensures Sum(w.deliveries[i := d], CreatedFor(session)) == Sum(db.orders, PaidBy(session)) {
      SumUpdate(w.deliveries, CreatedFor(session), i, d);
      SumAppend(w.db.orders, order, PaidBy(session));
    }
    hide Sum;
  }

  lemma TakeKeeps(w: World, step: Step)
    requires Inv(w)
    ensures Inv(Take(w, step))
  {
    hide Inv, System.Next;
    match step
    case Arrive(session, what, ref) => ArriveKeeps(w, Delivery(session, what, ref, Arrived));
    case Look(i) =>
      if i < |w.deliveries| && w.deliveries[i].phase.Arrived? { AnswerKeeps(w, i, AfterLook(w.db, w.deliveries[i])); }
    case Finish(i) =>
      if i < |w.deliveries| && w.deliveries[i].phase.Looked? { FinishKeeps(w, i); }
    case Other(a) =>
      if !a.Deliver? {
        OthersKeepSessions(w.db, a);
        KeptOrders(w, System.Next(w.db, a));
      }
  }

  lemma ArriveKeeps(w: World, d: Delivery)
    requires Inv(w) && d.phase.Arrived?
    ensures Inv(w.(deliveries := w.deliveries + [d]))
  {
    forall session ensures Sum(w.deliveries + [d], CreatedFor(session)) == Sum(w.deliveries, CreatedFor(session)) {
      SumAppend(w.deliveries, d, CreatedFor(session));
    }
    hide Sum;
  }

  lemma FailureChangesNothing(db: Db, d: Delivery, read: Read)
    requires !Outcomes(db, d, read).1.Created?
    ensures Outcomes(db, d, read).0 == db
    ensures var out := Outcomes(db, d, read).1; out.Existing? ==> FindOrder(db.orders, d.session) == Some(out.order)
  {
    hide FulfillHold, FindOrder;
  }

  lemma FinishKeeps(w: World, i: nat)
    requires Inv(w) && i < |w.deliveries| && w.deliveries[i].phase.Looked?
    ensures Inv(Take(w, Finish(i)))
  {
    hide Inv, Outcomes;
    var d := w.deliveries[i];
    var (db, outcome) := Outcomes(w.db, d, d.phase.read);
    if outcome.Created? {
      CreateAppends(w.db, d, d.phase.read);
      CreateKeeps(w, i, db);
    } else {
      FailureChangesNothing(w.db, d, d.phase.read);
      AnswerKeeps(w, i, Answered(outcome));
    }
  }

  lemma {:induction false} AlwaysInv(w: World, steps: seq<Step>)
    requires Inv(w)
    ensures Inv(Run(w, steps))
  {
    if steps != [] {
      AlwaysInv(w, steps[..|steps| - 1]);
      TakeKeeps(Run(w, steps[..|steps| - 1]), steps[|steps| - 1]);
    }
  }

  // --- idempotence ------------------------------------------------------

  lemma {:induction false} AtMostOnePaid(orders: seq<Order>, session: string)
    requires Ledger.CheckoutsOk(orders)
    ensures 0 <= Sum(orders, PaidBy(session)) <= 1
    ensures Sum(orders, PaidBy(session)) == 1 <==> FindOrder(orders, session).Some?
  {
    if orders != [] {
      var init := orders[..|orders| - 1];
      AtMostOnePaid(init, session);
      Ledger.FindOrderIs(init, session);
    }
  }

  lemma OpeningInv(db: Db)
    requires System.Opening(db)
    ensures Inv(World(db, []))
  {}

  /** Of any number of deliveries of a session, in any interleaving with anything:
      at most one order has the session; exactly one delivery says it created it
      if it exists, and none otherwise; every other one names that order or failed. */
  lemma EachSessionIsPaidOnce(start: Db, steps: seq<Step>, session: string)
    requires System.Opening(start)
    ensures var w := Run(World(start, []), steps); var o := FindOrder(w.db.orders, session);
            && (forall i, j :: 0 <= i < j < |w.db.orders| ==>
                  !(w.db.orders[i].checkout == Some(session) && w.db.orders[j].checkout == Some(session)))
            && Sum(w.deliveries, CreatedFor(session)) == (if o.Some? then 1 else 0)
            && (forall d ::
                  d in w.deliveries && d.session == session && d.phase.Answered? && !d.phase.outcome.Failed? ==>
                  o == Some(d.phase.outcome.order))
  {
    OpeningInv(start);
    AlwaysInv(World(start, []), steps);
    hide Inv, Sum, Run, FindOrder, System.Opening;
    PaidOnce(Run(World(start, []), steps), session);
  }

  lemma AnswerNames(w: World, d: Delivery)
    requires Inv(w) && d in w.deliveries && d.phase.Answered? && !d.phase.outcome.Failed?
    ensures FindOrder(w.db.orders, d.session) == Some(d.phase.outcome.order)
  {
    Ledger.FindOrderIs(w.db.orders, d.session);
    hide Sum, FindOrder;
    var i :| 0 <= i < |w.deliveries| && w.deliveries[i] == d;
    assert w.db.orders[d.phase.outcome.order].checkout == Some(d.session);
  }

  lemma PaidOnce(w: World, session: string)
    requires Inv(w)
    ensures var o := FindOrder(w.db.orders, session);
            && (forall i, j :: 0 <= i < j < |w.db.orders| ==>
                  !(w.db.orders[i].checkout == Some(session) && w.db.orders[j].checkout == Some(session)))
            && Sum(w.deliveries, CreatedFor(session)) == (if o.Some? then 1 else 0)
            && (forall d ::
                  d in w.deliveries && d.session == session && d.phase.Answered? && !d.phase.outcome.Failed? ==>
                  o == Some(d.phase.outcome.order))
  {
    AtMostOnePaid(w.db.orders, session);
    forall d | d in w.deliveries && d.session == session && d.phase.Answered? && !d.phase.outcome.Failed?
      ensures FindOrder(w.db.orders, session) == Some(d.phase.outcome.order)
    {
      AnswerNames(w, d);
    }
    hide Sum, FindOrder, AnswersOk;
  }

  /** The session a step works for, if it is a step of a delivery. */
  predicate StepOf(w: World, step: Step, session: string) {
    (step.Look? || step.Finish?) && step.delivery < |w.deliveries| && w.deliveries[step.delivery].session == session
  }

  /** How many steps of the session's deliveries changed the database. */
  function Effects(w: World, steps: seq<Step>, session: string): nat {
    if steps == [] then 0
    else
      var before, step := Run(w, steps[..|steps| - 1]), steps[|steps| - 1];
      Effects(w, steps[..|steps| - 1], session)
      + if StepOf(before, step, session) && Take(before, step).db != before.db then 1 else 0
  }

  /** One step, against the number of orders of a session. */
  lemma StepEffect(w: World, step: Step, session: string)
    requires Inv(w)
    ensures Sum(Take(w, step).db.orders, PaidBy(session)) ==
            Sum(w.db.orders, PaidBy(session)) + if StepOf(w, step, session) && Take(w, step).db != w.db then 1 else 0
  {
    hide Inv, Outcomes, Sum, System.Next;
    if step.Other? && !step.action.Deliver? {
      OthersKeepSessions(w.db, step.action);
      CountKept(w.db.orders, System.Next(w.db, step.action).orders, session);
    } else if step.Finish? && step.delivery < |w.deliveries| && w.deliveries[step.delivery].phase.Looked? {
      var d := w.deliveries[step.delivery];
      var (db, outcome) := Outcomes(w.db, d, d.phase.read);
      if outcome.Created? {
        CreateAppends(w.db, d, d.phase.read);
        assert db.orders == w.db.orders + [db.orders[|w.db.orders|]];
        SumAppend(w.db.orders, db.orders[|w.db.orders|], PaidBy(session));
      } else {
        FailureChangesNothing(w.db, d, d.phase.read);
      }
    }
  }

  /** Inventory is consumed once: of all the steps of all the deliveries of a session
      exactly one changes the database if its order exists, and none otherwise. */
  lemma {:induction false} SessionActsOnce(start: Db, steps: seq<Step>, session: string)
    requires System.Opening(start)
    ensures var w := Run(World(start, []), steps);
            && Effects(World(start, []), steps, session) == Sum(w.db.orders, PaidBy(session))
            && Effects(World(start, []), steps, session) == (if FindOrder(w.db.orders, session).Some? then 1 else 0)
  {
    OpeningInv(start);
    AlwaysInv(World(start, []), steps);
    AtMostOnePaid(Run(World(start, []), steps).db.orders, session);
    hide Take, StepOf, System.Opening;
    if steps != [] {
      SessionActsOnce(start, steps[..|steps| - 1], session);
      AlwaysInv(World(start, []), steps[..|steps| - 1]);
      StepEffect(Run(World(start, []), steps[..|steps| - 1]), steps[|steps| - 1], session);
    }
  }

  // --- serial order -----------------------------------------------------

  /** What a delivery read still stands. */
  predicate Untouched(db: Db, read: Read) {
    match read
    case HoldRow(row) => FindHold(db.holds, row.id) == Some(row)
    case GiftAmount(_) => true
    case Listing(product, listing) => product in db.products && db.products[product] == AsListed(db, product, listing)
  }

  /** A delivery was asked for what it read. */
  predicate Reads(d: Delivery) {
    d.phase.Looked? ==>
      match d.phase.read
      case HoldRow(row) => d.what == HoldCheckout(row.id)
      case GiftAmount(amount) => d.what == GiftCheckout(Some(amount))
      case Listing(product, _) => d.what == PassCheckout(product)
  }

  /** No commit creates an order from a hold or product that was changed since it was read. */
  predicate Fresh(w: World, step: Step) {
    step.Finish? && step.delivery < |w.deliveries| && w.deliveries[step.delivery].phase.Looked?
    && Outcomes(w.db, w.deliveries[step.delivery], w.deliveries[step.delivery].phase.read).1.Created? ==>
      Untouched(w.db, w.deliveries[step.delivery].phase.read)
  }

  /** The one transaction a step amounts to, if it has any effect. */
  function Serial(w: World, step: Step): seq<System.Action> {
    match step
    case Finish(i) =>
      if i < |w.deliveries| && w.deliveries[i].phase.Looked?
         && Outcomes(w.db, w.deliveries[i], w.deliveries[i].phase.read).1.Created?
      then [System.Deliver(w.deliveries[i].session, w.deliveries[i].what, w.deliveries[i].ref)]
      else []
    case Other(a) => if a.Deliver? then [] else [a]
    case _ => []
  }

  function Serialized(w: World, steps: seq<Step>): seq<System.Action> {
    if steps == [] then []
    else Serialized(w, steps[..|steps| - 1]) + Serial(Run(w, steps[..|steps| - 1]), steps[|steps| - 1])
  }

  lemma FreshIsAtomic(db: Db, d: Delivery, read: Read)
    requires Reads(d) && d.phase == Looked(read) && Untouched(db, read) && Outcomes(db, d, read).1.Created?
    ensures Outcomes(db, d, read).0 == System.Next(db, System.Deliver(d.session, d.what, d.ref))
  {
    hide InventoryFailure, Mint, SaleOrder, FindOrder;
    Carts.FindHoldIn(db.holds, 0);
    match read
    case HoldRow(row) => assert AsFound(db, row) == row;
    case GiftAmount(_) =>
    case Listing(product, listing) =>
      assert db.products[product := AsListed(db, product, listing)] == db.products;
  }

  ghost predicate AllRead(w: World) { forall i :: 0 <= i < |w.deliveries| ==> Reads(w.deliveries[i]) }

  lemma TakeReads(w: World, step: Step)
    requires AllRead(w)
    ensures AllRead(Take(w, step))
  {
    hide System.Next, Outcomes, FindOrder;
    if step.Look? && step.delivery < |w.deliveries| && w.deliveries[step.delivery].what.HoldCheckout? {
      Carts.FindHoldIn(w.db.holds, w.deliveries[step.delivery].what.hold);
    }
  }

  lemma StepIsSerial(w: World, step: Step)
    requires AllRead(w) && Fresh(w, step)
    ensures Serial(w, step) == [] ==> Take(w, step).db == w.db
    ensures Serial(w, step) != [] ==>
            |Serial(w, step)| == 1 && Take(w, step).db == System.Next(w.db, Serial(w, step)[0])
  {
    hide System.Next, Outcomes;
    if step.Finish? && step.delivery < |w.deliveries| && w.deliveries[step.delivery].phase.Looked? {
      var d := w.deliveries[step.delivery];
      if Outcomes(w.db, d, d.phase.read).1.Created? {
        FreshIsAtomic(w.db, d, d.phase.read);
      } else {
        FailureChangesNothing(w.db, d, d.phase.read);
      }
    }
  }

  /** As long as no order is created from a stale read, every interleaving of split
      deliveries leaves the database that some run of whole transactions leaves, and
      so everything proved of such runs holds of it. */
  lemma {:induction false} InterleavingsAreSerial(start: Db, steps: seq<Step>)
    requires System.Opening(start)
    requires forall k :: 0 <= k < |steps| ==> Fresh(Run(World(start, []), steps[..k]), steps[k])
    ensures Run(World(start, []), steps).db == System.Run(start, Serialized(World(start, []), steps))
    ensures AllRead(Run(World(start, []), steps)) && Consistency.Consistent(Run(World(start, []), steps).db)
  {
    hide Fresh, Serial, Take, System.Next, Consistency.Consistent;
    if steps != [] {
      var n, w := |steps| - 1, World(start, []);
      forall k | 0 <= k < n ensures Fresh(Run(w, steps[..n][..k]), steps[..n][k]) {
        assert steps[..n][..k] == steps[..k];
      }
      InterleavingsAreSerial(start, steps[..n]);
      var before := Run(w, steps[..n]);
      TakeReads(before, steps[n]);
      StepIsSerial(before, steps[n]);
      if Serial(before, steps[n]) == [] {
        assert Serialized(w, steps) == Serialized(w, steps[..n]);
      } else {
        assert Serial(before, steps[n]) == [Serial(before, steps[n])[0]];
        System.RunAppend(start, Serialized(w, steps[..n]), Serial(before, steps[n])[0]);
      }
    }
    Consistency.AlwaysConsistent(start, Serialized(World(start, []), steps));
  }

  // --- a delivery alone -------------------------------------------------

  /** Database and answer are those of the whole delivery. */
  ghost predicate AnswersAs(db: Db, d: Delivery, after: Db, outcome: Outcome) {
    match System.Attempt(db, System.Deliver(d.session, d.what, d.ref))
    case Err(e) => after == db && outcome == Failed(e)
    case Ok(done) =>
      && after == done
      && match outcome
         case Existing(o) => o < |db.orders| && db.orders[o].checkout == Some(d.session) && done == db
         case Created(o) =>
           && o == |db.orders| < |done.orders|
           && forall i :: 0 <= i < |db.orders| ==> db.orders[i].checkout != Some(d.session)
         case Failed(_) => false
  }

  lemma LookThenFinish(db: Db, d: Delivery)
    requires d.phase.Arrived?
    ensures match AfterLook(db, d)
            case Arrived => false
            case Answered(outcome) => AnswersAs(db, d, db, outcome)
            case Looked(read) => AnswersAs(db, d, Outcomes(db, d, read).0, Outcomes(db, d, read).1)
  {
    Ledger.FindOrderIs(db.orders, d.session);
    if d.what.HoldCheckout? {
      Carts.FindHoldIn(db.holds, d.what.hold);
      if FindHold(db.holds, d.what.hold).Some? { FoundIsAsRead(db, d.what.hold); }
    } else if d.what.PassCheckout? && d.what.product in db.products {
      assert db.products[d.what.product := db.products[d.what.product]] == db.products;
    }
    hide FindOrder, FindHold, InventoryFailure, NewTickets, TakeFrom, Filter, AsFound, SaleOrder;
  }

  lemma FoundIsAsRead(db: Db, id: nat)
    requires FindHold(db.holds, id).Some?
    ensures var row := FindHold(db.holds, id).value; AsFound(db, row) == row
  {
    Carts.FindHoldIn(db.holds, id);
  }

  /** A delivery that arrives, reads and commits with nothing in between does what the
      whole delivery does, and answers it, whatever other deliveries are about. */
  lemma DeliveryIsAtomic(w: World, session: string, what: Checkout, ref: string)
    ensures var d, i := Delivery(session, what, ref, Arrived), |w.deliveries|;
            var after := Run(w, [Arrive(session, what, ref)] + [Look(i)] + [Finish(i)]);
            && |after.deliveries| == i + 1 && after.deliveries[..i] == w.deliveries
            && after.deliveries[i] == d.(phase := after.deliveries[i].phase)
            && after.deliveries[i].phase.Answered?
            && AnswersAs(w.db, d, after.db, after.deliveries[i].phase.outcome)
  {
    var d, i := Delivery(session, what, ref, Arrived), |w.deliveries|;
    var steps := [Arrive(session, what, ref)] + [Look(i)] + [Finish(i)];
    assert steps[..2] == [Arrive(session, what, ref)] + [Look(i)] && steps[..2][..1] == [Arrive(session, what, ref)];
    assert steps[..2][..1][..0] == [];
    hide AfterLook, Outcomes, AnswersAs;
    assert Run(w, steps[..2][..1]) == w.(deliveries := w.deliveries + [d]);
    assert Run(w, steps[..2]) == w.(deliveries := w.deliveries + [d.(phase := AfterLook(w.db, d))]);
    LookThenFinish(w.db, d);
  }
}

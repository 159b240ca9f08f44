/** What no later step can change: the past of orders, tickets and passes, and
    what the door scanner may admit. */
module History {
  import opened Tables
  import opened Schema
  import opened System
  import Holds
  import Fulfilment
  import opened Scanning
  import Inventory
  import Passes
  import Ledger
  import Consistency

  // --- the past is fixed ------------------------------------------------

  /** Sold lines, totals and payments stay; PAID may become CANCELLED or REFUNDED,
      and those two are final. */
  predicate OrderContinues(a: Order, b: Order) {
    && b == a.(status := b.status, payments := b.payments)
    && a.payments <= b.payments
    && (b.status == a.status || (!a.status.Cancelled? && !a.status.Refunded?
          && (b.status.Cancelled? || b.status.Refunded?)))
  }

  function Rank(s: TicketStatus): nat {
    match s
    case Valid => 0
    case Used => 1
    case Void => 2
  }

  /** A ticket only moves VALID, USED, VOID, and its scan time is written once. */
  predicate TicketContinues(a: Ticket, b: Ticket) {
    && b == a.(status := b.status, usedAt := b.usedAt)
    && Rank(a.status) <= Rank(b.status)
    && (a.usedAt.Some? ==> b.usedAt == a.usedAt)
  }

  /** A sold pass keeps its terms, coverage and window. */
  predicate PassContinues(a: PassPurchase, b: PassPurchase) {
    b == a.(balance := b.balance, status := b.status)
  }

  ghost predicate OrdersContinue(a: seq<Order>, b: seq<Order>) {
    |a| <= |b| && forall i :: 0 <= i < |a| ==> OrderContinues(a[i], b[i])
  }

  /** Tickets minted later belong to orders made later. */
  ghost predicate TicketsContinue(a: seq<Ticket>, b: seq<Ticket>, orders: nat) {
    && |a| <= |b|
    && (forall i :: 0 <= i < |a| ==> TicketContinues(a[i], b[i]))
    && (forall i :: |a| <= i < |b| ==> b[i].order >= orders)
  }

  ghost predicate PassesContinue(a: seq<PassPurchase>, b: seq<PassPurchase>) {
    |a| <= |b| && forall i :: 0 <= i < |a| ==> PassContinues(a[i], b[i])
  }

  ghost predicate Continues(before: Db, after: Db) {
    && before.now <= after.now
    && OrdersContinue(before.orders, after.orders)
    && TicketsContinue(before.tickets, after.tickets, |before.orders|)
    && PassesContinue(before.passes, after.passes)
  }

  lemma ContinuesTransitive(a: Db, b: Db, c: Db)
    requires Continues(a, b) && Continues(b, c)
    ensures Continues(a, c)
  {}

  lemma Reflexive(db: Db)
    ensures Continues(db, db)
  {}

  lemma OrderUpdateContinues(orders: seq<Order>, o: nat, x: Order)
    requires o < |orders| && OrderContinues(orders[o], x)
    ensures OrdersContinue(orders, orders[o := x])
  {}

  lemma PassesPointwise(a: seq<PassPurchase>, b: seq<PassPurchase>)
    requires |a| <= |b| && forall i :: 0 <= i < |a| ==> b[i] == a[i].(balance := b[i].balance, status := b[i].status)
    ensures PassesContinue(a, b)
  {}

  lemma ReverseContinues(db: Db, o: nat, status: OrderStatus)
    requires o < |db.orders| && !db.orders[o].status.Cancelled? && !db.orders[o].status.Refunded?
    requires status.Cancelled? || status.Refunded?
    ensures Continues(db, Fulfilment.Reverse(db, o, status))
  {
    hide Sum, Filter, Fulfilment.SpentOn, PassesContinue, OrdersContinue;
    PassesPointwise(db.passes, Fulfilment.RestoredPasses(db.passes, db.redemptions, o));
    OrderUpdateContinues(db.orders, o, db.orders[o].(status := status));
  }

  lemma RefundContinues(db: Db, o: nat, stripe: Option<string>)
    requires o < |db.orders| && db.orders[o].status.Paid? && Fulfilment.RefundOrder(db, o, stripe).Ok?
    ensures Continues(db, Fulfilment.RefundOrder(db, o, stripe).value)
  {
    hide Sum, Filter, Fulfilment.SpentOn, Fulfilment.PassSpent, PassesContinue, OrdersContinue;
    var after := Fulfilment.RefundOrder(db, o, stripe).value;
    PassesPointwise(db.passes, after.passes);
    assert after.orders == db.orders[o := after.orders[o]];
    OrderUpdateContinues(db.orders, o, after.orders[o]);
  }

  lemma MintContinues(db: Db, h: Hold, order: Order)
    ensures Continues(db, Fulfilment.Mint(db, h, order))
  {
    hide Filter;
  }

  lemma CheckoutContinues(db: Db, a: Action)
    requires a.TestCheckout? || a.Deliver? || a.UsePass? || a.GiveDirectly? || a.SellPass?
    ensures Continues(db, Next(db, a))
  {
    hide OrdersContinue, TicketsContinue, PassesContinue, Fulfilment.Mint, Fulfilment.InventoryFailure;
    Reflexive(db);
    match a
    case TestCheckout(hold, ref) =>
      if Attempt(db, a).Ok? { HoldCheckoutContinues(db, Holds.FindHold(db.holds, hold).value, Test, ref, None); }
    case Deliver(checkout, what, ref) =>
      if Attempt(db, a).Ok? && Fulfilment.FindOrder(db.orders, checkout).None? {
        match what
        case HoldCheckout(hold) => HoldCheckoutContinues(db, Holds.FindHold(db.holds, hold).value, Stripe, ref,
            Some(checkout));
        case GiftCheckout(amount) => AppendContinues(db, Next(db, a));
        case PassCheckout(product) => AppendContinues(db, Next(db, a));
      }
    case UsePass(hold, pass) =>
      if Attempt(db, a).Ok? { RedeemContinues(db, Holds.FindHold(db.holds, hold).value, pass); }
    case GiveDirectly(amount, ref) => AppendContinues(db, Next(db, a));
    case SellPass(product, ref) => if Attempt(db, a).Ok? { AppendContinues(db, Next(db, a)); }
  }

  lemma AppendContinues(db: Db, after: Db)
    requires |after.orders| >= |db.orders| && after.orders[..|db.orders|] == db.orders
    requires after.tickets == db.tickets && after.now == db.now
    requires |after.passes| >= |db.passes| && after.passes[..|db.passes|] == db.passes
    ensures Continues(db, after)
  {
    assert forall i :: 0 <= i < |db.orders| ==> after.orders[i] == after.orders[..|db.orders|][i];
    assert forall i :: 0 <= i < |db.passes| ==> after.passes[i] == after.passes[..|db.passes|][i];
  }

  lemma HoldCheckoutContinues(db: Db, h: Hold, provider: Provider, ref: string, checkout: Option<string>)
    requires Fulfilment.FulfillHold(db, h, provider, ref, checkout).Ok?
    ensures Continues(db, Fulfilment.FulfillHold(db, h, provider, ref, checkout).value)
  {
    hide OrdersContinue, TicketsContinue;
    MintContinues(db, h, Fulfilment.SaleOrder(h, provider, ref, checkout));
  }

  lemma RedeemContinues(db: Db, h: Hold, pass: nat)
    requires Fulfilment.RedeemPass(db, h, pass).Ok?
    ensures Continues(db, Fulfilment.RedeemPass(db, h, pass).value)
  {
    hide OrdersContinue, TicketsContinue;
    MintContinues(db, h, Fulfilment.RedemptionOrder(h, pass));
  }

  lemma ScanContinues(db: Db, t: nat, signed: bool)
    requires Ledger.ScansOk(db.tickets)
    ensures Continues(db, Scanning.AfterScan(db, t, signed))
  {
    Reflexive(db);
    hide OrdersContinue, PassesContinue;
  }

  lemma ReversalContinues(db: Db, a: Action)
    requires a.Refund? || a.Cancel?
    ensures Continues(db, Next(db, a))
  {
    Reflexive(db);
    hide Continues, Fulfilment.Reverse;
    match a
    case Refund(o, stripe) =>
      if Attempt(db, a).Ok? && db.orders[o].status.Paid? { RefundContinues(db, o, stripe); }
      hide Fulfilment.RefundOrder;
    case Cancel(o) =>
      if Attempt(db, a).Ok? && !db.orders[o].status.Cancelled? && !db.orders[o].status.Refunded? {
        ReverseContinues(db, o, Cancelled);
      }
  }

  lemma StepContinues(db: Db, a: Action)
    requires Ledger.ScansOk(db.tickets)
    ensures Continues(db, Next(db, a))
  {
    Reflexive(db);
    hide Scanning.AfterScan, OrdersContinue, TicketsContinue, PassesContinue;
    if a.Refund? || a.Cancel? {
      hide Continues, Next;
      ReversalContinues(db, a);
    } else if a.Scan? {
      hide Continues;
      ScanContinues(db, a.ticket, a.signed);
    } else if a.TestCheckout? || a.Deliver? || a.UsePass? || a.GiveDirectly? || a.SellPass? {
      hide Continues, Next;
      CheckoutContinues(db, a);
    }
  }

  lemma ScansAreOk(db: Db)
    requires Consistency.Consistent(db)
    ensures Ledger.ScansOk(db.tickets)
  {}

  /** Whatever is done from a consistent state on, its orders, tickets and passes
      only continue. */
  lemma {:induction false} RunContinues(db: Db, actions: seq<Action>)
    requires Consistency.Consistent(db)
    ensures Continues(db, Run(db, actions)) && Consistency.Consistent(Run(db, actions))
  {
    hide Continues, Consistency.Consistent;
    if actions == [] {
      Reflexive(db);
    } else {
      var before, a := Run(db, actions[..|actions| - 1]), actions[|actions| - 1];
      RunContinues(db, actions[..|actions| - 1]);
      Consistency.StepKeepsConsistent(before, a);
      ScansAreOk(before);
      StepContinues(before, a);
      ContinuesTransitive(db, before, Next(before, a));
    }
  }

  lemma SumFixed(a: seq<Ticket>, b: seq<Ticket>, w: Ticket -> int)
    requires |a| <= |b|
    requires forall i :: 0 <= i < |b| ==> w(b[i]) == if i < |a| then w(a[i]) else 0
    ensures Sum(b, w) == Sum(a, w)
  {
    assert b == b[..|a|] + b[|a|..];
    SumConcat(b[..|a|], b[|a|..], w);
    SumZero(b[|a|..], w);
    SumSame(b[..|a|], w, a, w);
  }

  /** The tickets an order was given are its tickets for good. */
  lemma TicketsOfOrderFixed(before: Db, after: Db, o: nat)
    requires Continues(before, after) && o < |before.orders|
    ensures Sum(after.tickets, Passes.TicketsOn(o)) == Sum(before.tickets, Passes.TicketsOn(o))
    ensures Sum(after.tickets, Inventory.SeatlessOf(o)) == Sum(before.tickets, Inventory.SeatlessOf(o))
  {
    hide Sum, OrdersContinue, PassesContinue;
    SumFixed(before.tickets, after.tickets, Passes.TicketsOn(o));
    SumFixed(before.tickets, after.tickets, Inventory.SeatlessOf(o));
  }

  // --- orders -----------------------------------------------------------

  lemma NetMoneyIs(o: Order)
    requires Ledger.PaymentsOk(o)
    ensures Ledger.NetMoney(o) == (if o.status.Refunded? then 0 else o.total)
  {
    if |o.payments| == 1 {
      SumConst(o.payments, Ledger.Signed(), o.total);
    } else {
      assert o.payments == [o.payments[0]] + [o.payments[1]];
      SumConcat([o.payments[0]], [o.payments[1]], Ledger.Signed());
      SumConst([o.payments[0]], Ledger.Signed(), o.total);
      SumConst([o.payments[1]], Ledger.Signed(), -o.total);
    }
  }

  lemma RowsOnlyOnPaid(db: Db, r: Redemption)
    requires Passes.PassesOk(db.passes, db.redemptions, db.orders, db.tickets) && r in db.redemptions
    ensures r.order < |db.orders| && db.orders[r.order].status.Paid?
  {
    var i :| 0 <= i < |db.redemptions| && db.redemptions[i] == r;
    assert Passes.RowOk(db.redemptions[i], db.passes, db.orders, db.tickets);
  }

  /** Over any run: PAID orders have only live tickets, the others only void ones
      and no redemption; the money kept is the total unless REFUNDED, then nothing. */
  lemma OrderLifecycle(start: Db, actions: seq<Action>, o: nat)
    requires Opening(start) && o < |Run(start, actions).orders|
    ensures var db := Run(start, actions); var order := db.orders[o];
            && !order.status.Pending?
            && (forall i :: 0 <= i < |db.tickets| && db.tickets[i].order == o ==>
                  (Holds.Live(db.tickets[i]) <==> order.status.Paid?))
            && (!order.status.Paid? ==> forall r :: r in db.redemptions ==> r.order != o)
            && Ledger.NetMoney(order) == (if order.status.Refunded? then 0 else order.total)
  {
    var db := Run(start, actions);
    Consistency.AlwaysConsistent(start, actions);
    assert Ledger.PaymentsOk(db.orders[o]) by { hide Inventory.InventoryOk, Passes.PassesOk; }
    NetMoneyIs(db.orders[o]);
    hide Passes.PassesOk, Ledger.OrdersPaid, Ledger.OrdersAdd;
    forall r | r in db.redemptions && r.order == o ensures db.orders[o].status.Paid? { RowsOnlyOnPaid(db, r); }
  }

  lemma VoidIsIdempotent(db: Db, o: nat)
    requires Inventory.TicketsOk(db.orders, db.tickets) && o < |db.orders| && !db.orders[o].status.Paid?
    ensures Fulfilment.VoidOrder(db, o) == db
  {
    SumZero(db.tickets, Fulfilment.LiveGaOf(o));
    assert MapRows(db.tickets, Fulfilment.Voided(o)) == db.tickets;
  }

  lemma NoFurtherReversal(db: Db, o: nat, stripe: Option<string>)
    requires Consistency.Consistent(db) && o < |db.orders| && !db.orders[o].status.Paid?
    ensures Next(db, Cancel(o)) == db && Next(db, Refund(o, stripe)) == db
  {
    Consistency.NeverPending(db, o);
    hide Consistency.Consistent, Fulfilment.Reverse;
  }

  lemma NeverRevived(db: Db, o: nat, actions: seq<Action>)
    requires Consistency.Consistent(db) && o < |db.orders| && !db.orders[o].status.Paid?
    ensures o < |Run(db, actions).orders| && Run(db, actions).orders[o] == db.orders[o]
  {
    RunContinues(db, actions);
    Consistency.OrderIsOk(db, o);
    hide Consistency.Consistent, Run;
    assert OrderContinues(db.orders[o], Run(db, actions).orders[o]);
    Consistency.OrderIsOk(Run(db, actions), o);
  }

  /** A CANCELLED or REFUNDED order is never touched again: cancelling, refunding
      or voiding it changes nothing, and no run brings it back. */
  lemma ReversedIsFinal(db: Db, o: nat, stripe: Option<string>, actions: seq<Action>)
    requires Consistency.Consistent(db) && o < |db.orders| && !db.orders[o].status.Paid?
    ensures Next(db, Cancel(o)) == db && Next(db, Refund(o, stripe)) == db && Fulfilment.VoidOrder(db, o) == db
    ensures o < |Run(db, actions).orders| && Run(db, actions).orders[o] == db.orders[o]
  {
    NoFurtherReversal(db, o, stripe);
    NeverRevived(db, o, actions);
    VoidIsIdempotent(db, o) by { hide Passes.PassesOk, Ledger.OrdersPaid, Ledger.OrdersAdd, Next; }
    hide Consistency.Consistent, Next, Run;
  }

  // --- the door ---------------------------------------------------------

  /** How many scans of a ticket said "admit" in a run. */
  function Admissions(db: Db, actions: seq<Action>, ticket: nat): nat {
    if actions == [] then 0
    else
      var init, a := actions[..|actions| - 1], actions[|actions| - 1];
      Admissions(db, init, ticket)
      + if a.Scan? && a.ticket == ticket && Verdict(Run(db, init), ticket, a.signed).Admit? then 1 else 0
  }

  /** After an admission the ticket is no longer VALID, and it stays so. */
  lemma NoLongerValid(db: Db, a: Action, ticket: nat)
    requires Consistency.Consistent(db)
    requires (ticket < |db.tickets| && !db.tickets[ticket].status.Valid?)
          || (a.Scan? && a.ticket == ticket && Verdict(db, ticket, a.signed).Admit?)
    ensures ticket < |Next(db, a).tickets| && !Next(db, a).tickets[ticket].status.Valid?
  {
    ScansAreOk(db);
    hide Consistency.Consistent;
    if a.Scan? {
      hide Sum, Filter;
    } else {
      StepContinues(db, a);
      hide Next;
      assert TicketContinues(db.tickets[ticket], Next(db, a).tickets[ticket]);
    }
  }

  /** Nobody gets in twice on one ticket. */
  lemma {:induction false} AdmittedAtMostOnce(db: Db, actions: seq<Action>, ticket: nat)
    requires Consistency.Consistent(db)
    ensures Admissions(db, actions, ticket) <= 1
    ensures Admissions(db, actions, ticket) == 1 ==>
      ticket < |Run(db, actions).tickets| && !Run(db, actions).tickets[ticket].status.Valid?
  {
    hide Consistency.Consistent, Next;
    if actions != [] {
      var init, a := actions[..|actions| - 1], actions[|actions| - 1];
      AdmittedAtMostOnce(db, init, ticket);
      RunContinues(db, init);
      if Admissions(db, actions, ticket) > 0 { NoLongerValid(Run(db, init), a, ticket); }
    }
  }

  /** A scan admits exactly a signed, VALID ticket inside its window; it records
      the time and changes nothing else, and any other scan changes nothing. */
  lemma ScanIs(db: Db, ticket: nat, signed: bool)
    requires ticket < |db.tickets| && db.tickets[ticket].perf in db.perfs
    ensures var startsAt := db.perfs[db.tickets[ticket].perf].startsAt;
            Verdict(db, ticket, signed).Admit? <==>
              signed && db.tickets[ticket].status.Valid? && startsAt - 3600 <= db.now <= startsAt + 14400
    ensures Verdict(db, ticket, signed).Admit? ==>
      AfterScan(db, ticket, signed).tickets[ticket] == db.tickets[ticket].(status := Used, usedAt := Some(db.now))
      && forall i :: 0 <= i < |db.tickets| && i != ticket ==> AfterScan(db, ticket, signed).tickets[i] == db.tickets[i]
    ensures !Verdict(db, ticket, signed).Admit? ==> AfterScan(db, ticket, signed) == db
  {}

  /** Every recorded scan lies in the window of its performance. */
  ghost predicate ScansInWindow(db: Db) {
    forall i :: 0 <= i < |db.tickets| && db.tickets[i].usedAt.Some? ==>
      && db.tickets[i].perf in db.perfs
      && db.perfs[db.tickets[i].perf].startsAt - OPENS_BEFORE <= db.tickets[i].usedAt.value
         <= db.perfs[db.tickets[i].perf].startsAt + CLOSES_AFTER
  }

  predicate NotRescheduling(db: Db, a: Action) {
    a.SavePerformance? && a.perf in db.perfs ==> a.form.startsAt == db.perfs[a.perf].startsAt
  }

  /** Tickets keep their scan times, and new ones have none. */
  ghost predicate Unscanned(a: seq<Ticket>, b: seq<Ticket>) {
    && |a| <= |b|
    && (forall i :: 0 <= i < |a| ==> b[i].usedAt == a[i].usedAt && b[i].perf == a[i].perf)
    && (forall i :: |a| <= i < |b| ==> b[i].usedAt.None?)
  }

  lemma MintUnscanned(tickets: seq<Ticket>, h: Hold, o: nat)
    ensures Unscanned(tickets, tickets) && Unscanned(tickets, tickets + Fulfilment.NewTickets(h, o))
  {}

  lemma CheckoutUnscanned(db: Db, a: Action)
    requires a.TestCheckout? || a.Deliver? || a.UsePass? || a.GiveDirectly? || a.SellPass?
    ensures Unscanned(db.tickets, Next(db, a).tickets)
  {
    hide Sum, Filter, Fulfilment.NewTickets, Fulfilment.InventoryFailure, Fulfilment.NewRedemptions, Unscanned;
    var id := if a.TestCheckout? || a.UsePass? then a.hold
              else if a.Deliver? && a.what.HoldCheckout? then a.what.hold else 0;
    match Holds.FindHold(db.holds, id)
    case Some(h) => MintUnscanned(db.tickets, h, |db.orders|);
    case None => MintUnscanned(db.tickets, Hold(0, 0, "", 0, Reserved([]), None, None), 0);
  }

  lemma ReversalUnscanned(db: Db, a: Action)
    requires a.Refund? || a.Cancel?
    ensures Unscanned(db.tickets, Next(db, a).tickets)
  {
    hide Sum, Filter, Fulfilment.RestoredPasses, Fulfilment.PassSpent;
  }

  lemma StepUnscanned(db: Db, a: Action)
    requires !a.Scan?
    ensures Unscanned(db.tickets, Next(db, a).tickets)
  {
    if a.Refund? || a.Cancel? { ReversalUnscanned(db, a); }
    else if a.TestCheckout? || a.Deliver? || a.UsePass? || a.GiveDirectly? || a.SellPass? { CheckoutUnscanned(db, a); }
    else { MintUnscanned(db.tickets, Hold(0, 0, "", 0, Reserved([]), None, None), 0); }
  }

  lemma StepKeepsStarts(db: Db, a: Action)
    requires NotRescheduling(db, a)
    ensures forall p :: p in db.perfs ==>
            p in Next(db, a).perfs && Next(db, a).perfs[p].startsAt == db.perfs[p].startsAt
  {
    hide Sum, Filter, Fulfilment.InventoryFailure, Fulfilment.RedemptionFailure, Fulfilment.FindOrder, Holds.FindHold;
    hide Fulfilment.NewTickets, Fulfilment.NewRedemptions, Fulfilment.RestoredPasses, Fulfilment.PassSpent, Holds.Taken;
  }

  lemma StepKeepsWindow(db: Db, a: Action)
    requires ScansInWindow(db) && NotRescheduling(db, a)
    ensures ScansInWindow(Next(db, a))
  {
    if !a.Scan? {
      StepUnscanned(db, a);
      StepKeepsStarts(db, a);
      hide Next;
    }
  }

  /** In runs that do not move a performance, every scan time is within an hour
      before and four hours after its start. */
  lemma {:induction false} ScannedInWindow(start: Db, actions: seq<Action>)
    requires Opening(start)
    requires forall k :: 0 <= k < |actions| ==> NotRescheduling(Run(start, actions[..k]), actions[k])
    ensures ScansInWindow(Run(start, actions))
  {
    if actions != [] {
      var n := |actions| - 1;
      var init := actions[..n];
      forall k | 0 <= k < n ensures NotRescheduling(Run(start, init[..k]), init[k]) {
        assert init[..k] == actions[..k];
      }
      ScannedInWindow(start, init);
      hide ScansInWindow;
      StepKeepsWindow(Run(start, init), actions[n]);
    }
  }

  /** Step `k` of the run admitted the ticket, at its recorded time, inside the window
      its performance had then. */
  ghost predicate AdmittedAt(start: Db, actions: seq<Action>, ticket: nat, k: nat, time: int) {
    && k < |actions| && actions[k].Scan? && actions[k].ticket == ticket
    && var db := Run(start, actions[..k]);
       && ticket < |db.tickets| && db.tickets[ticket].perf in db.perfs && db.now == time
       && var startsAt := db.perfs[db.tickets[ticket].perf].startsAt;
          startsAt - OPENS_BEFORE <= time <= startsAt + CLOSES_AFTER
  }

  /** Over any run, rescheduling or not, every recorded scan was made by an admission
      inside the window in force at that moment. */
  lemma {:induction false} EveryScanWasInItsWindow(start: Db, actions: seq<Action>, ticket: nat) returns (k: nat)
    requires Opening(start) && ticket < |Run(start, actions).tickets|
    requires Run(start, actions).tickets[ticket].usedAt.Some?
    ensures AdmittedAt(start, actions, ticket, k, Run(start, actions).tickets[ticket].usedAt.value)
  {
    var n := |actions| - 1;
    var init, a := actions[..n], actions[n];
    var before := Run(start, init);
    if a.Scan? && a.ticket == ticket && Verdict(before, ticket, a.signed).Admit? {
      k := n;
    } else {
      ScanTimeKept(before, a, ticket);
      hide Next;
      k := EveryScanWasInItsWindow(start, init, ticket);
      assert init[..k] == actions[..k];
    }
  }

  lemma ScanTimeKept(db: Db, a: Action, ticket: nat)
    requires !(a.Scan? && a.ticket == ticket && Verdict(db, ticket, a.signed).Admit?)
    requires ticket < |Next(db, a).tickets| && Next(db, a).tickets[ticket].usedAt.Some?
    ensures ticket < |db.tickets| && db.tickets[ticket].usedAt == Next(db, a).tickets[ticket].usedAt
  {
    if !a.Scan? {
      StepUnscanned(db, a);
      hide Next;
    }
  }

  function UsedGa(p: nat): Ticket -> int {
    (t: Ticket) => if t.perf == p && t.status.Used? && t.seat.None? then 1 else 0
  }

  /** No more people are let in on general admission than were sold. */
  lemma UsedAtMostSold(start: Db, actions: seq<Action>, p: nat)
    requires Opening(start) && p in Run(start, actions).allocs
    ensures 0 <= Sum(Run(start, actions).tickets, UsedGa(p)) <= Run(start, actions).allocs[p].sold
  {
    var db := Run(start, actions);
    Consistency.AlwaysConsistent(start, actions);
    SumNonNegative(db.tickets, UsedGa(p));
    SumLeq(db.tickets, UsedGa(p), db.tickets, Inventory.LiveGa(p));
  }
}

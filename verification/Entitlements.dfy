/** Season and flex passes over every run: credits are conserved, events are
    admitted once, and undoing a redemption is exact. */
module Entitlements {
  import opened Tables
  import opened Schema
  import opened System
  import opened Fulfilment
  import opened Passes
  import Holds
  import Inventory
  import Ledger
  import Carts
  import Consistency
  import History

  // --- flex credits -----------------------------------------------------

  lemma PassIsOk(db: Db, p: nat)
    requires Consistency.Consistent(db) && p < |db.passes|
    ensures PassOk(p, db.passes, db.redemptions, db.orders)
  {
    hide Inventory.InventoryOk, Carts.CartTablesOk, Ledger.OrdersPaid, Ledger.OrdersAdd, PassOk;
  }

  lemma RowIsOk(db: Db, r: Redemption)
    requires Consistency.Consistent(db) && r in db.redemptions
    ensures RowOk(r, db.passes, db.orders, db.tickets)
  {
    hide Inventory.InventoryOk, Carts.CartTablesOk, Ledger.OrdersPaid, Ledger.OrdersAdd, PassOk, RowOk;
    var i :| 0 <= i < |db.redemptions| && db.redemptions[i] == r;
    assert RowOk(db.redemptions[i], db.passes, db.orders, db.tickets);
  }

  /** Over any run a flex pass's balance plus the credits of its live redemptions
      is what was bought; short of a refund it is EXHAUSTED exactly when the balance
      is 0; a REFUNDED pass has no redemption left. */
  lemma CreditsAreConserved(start: Db, actions: seq<Action>, p: nat)
    requires Opening(start) && p < |Run(start, actions).passes| && Run(start, actions).passes[p].terms.Flex?
    ensures var db := Run(start, actions); var pass := db.passes[p];
            && pass.balance.Some? && pass.balance.value + Sum(db.redemptions, UsedBy(p)) == pass.terms.credits
            && (!pass.status.Withdrawn? ==> (pass.status.Exhausted? <==> pass.balance.value == 0))
            && (pass.status.Withdrawn? ==> forall r :: r in db.redemptions ==> r.pass != p)
  {
    var db := Run(start, actions);
    Consistency.AlwaysConsistent(start, actions);
    hide Consistency.Consistent;
    PassIsOk(db, p);
    forall r | r in db.redemptions && r.pass == p ensures !db.passes[p].status.Withdrawn? { RowIsOk(db, r); }
  }

  /** Over any run the pass an order sold is REFUNDED exactly when the order is, and
      then none of its redemptions is live. */
  lemma RefundedPassIsUnused(start: Db, actions: seq<Action>, p: nat)
    requires Opening(start) && p < |Run(start, actions).passes|
    ensures var db := Run(start, actions); var pass := db.passes[p];
            && pass.order < |db.orders|
            && (pass.status.Withdrawn? <==> db.orders[pass.order].status.Refunded?)
            && (pass.status.Withdrawn? ==> forall r :: r in db.redemptions ==> r.pass != p)
  {
    var db := Run(start, actions);
    Consistency.AlwaysConsistent(start, actions);
    hide Consistency.Consistent;
    PassIsOk(db, p);
    forall r | r in db.redemptions && r.pass == p ensures !db.passes[p].status.Withdrawn? { RowIsOk(db, r); }
  }

  /** A PAID order that sold passes is refused a refund for being used exactly when
      one of its passes has a live redemption, before any money is asked for. */
  lemma UsedPassBlocksRefundIff(db: Db, o: nat, stripe: Option<string>)
    requires Consistency.Consistent(db) && o < |db.orders| && db.orders[o].status.Paid?
    ensures RefundOrder(db, o, stripe) == Err(PassUsed) <==>
            exists p :: 0 <= p < |db.passes| && db.passes[p].order == o && exists r ::
                r in db.redemptions && r.pass == p
  {
    hide FirstSucceeded, Reverse;
    if p :| 0 <= p < |db.passes| && db.passes[p].order == o && exists r :: r in db.redemptions && r.pass == p {
      PassIsOk(db, p);
    }
    hide Consistency.Consistent, SoldAPass;
  }

  /** What pass_report adds up over the ACTIVE passes. */
  function ActiveCredits(): PassPurchase -> int {
    (p: PassPurchase) => if p.status.Active? && p.terms.Flex? then p.balance.GetOr(0) else 0
  }

  /** Credits of the flex passes that were not refunded. */
  function SoldCredits(): PassPurchase -> int {
    (p: PassPurchase) => if !p.status.Withdrawn? && p.terms.Flex? then p.terms.credits else 0
  }

  function PassKey(): Redemption -> nat { (r: Redemption) => r.pass }

  function Credits(): Redemption -> int { (r: Redemption) => r.creditsUsed }

  lemma OutstandingOf(db: Db, p: nat)
    requires Consistency.Consistent(db) && p < |db.passes|
    ensures ActiveCredits()(db.passes[p])
            == SoldCredits()(db.passes[p]) - GroupSum(db.redemptions, PassKey(), Credits())(p)
  {
    hide Consistency.Consistent;
    PassIsOk(db, p);
    SumSame(db.redemptions, Keyed(PassKey(), Credits(), p), db.redemptions, UsedBy(p));
    if db.passes[p].terms.Season? || db.passes[p].status.Withdrawn? {
      forall i | 0 <= i < |db.redemptions| ensures UsedBy(p)(db.redemptions[i]) == 0 {
        RowIsOk(db, db.redemptions[i]);
      }
      SumZero(db.redemptions, UsedBy(p));
    }
  }

  lemma {:induction false} OutstandingUpTo(db: Db, n: nat)
    requires Consistency.Consistent(db) && n <= |db.passes|
    ensures Sum(db.passes[..n], ActiveCredits())
            == Sum(db.passes[..n], SoldCredits()) - SumTo(n, GroupSum(db.redemptions, PassKey(), Credits()))
  {
    hide Consistency.Consistent;
    if n > 0 {
      OutstandingUpTo(db, n - 1);
      OutstandingOf(db, n - 1);
      assert db.passes[..n][..n - 1] == db.passes[..n - 1];
    }
  }

  /** The liability report's flex credits outstanding are the credits sold on
      passes not refunded, less every credit redeemed. */
  lemma ReportIsSoldLessRedeemed(start: Db, actions: seq<Action>)
    requires Opening(start)
    ensures var db := Run(start, actions);
            Sum(db.passes, ActiveCredits()) == Sum(db.passes, SoldCredits()) - Sum(db.redemptions, Credits())
  {
    var db := Run(start, actions);
    Consistency.AlwaysConsistent(start, actions);
    hide Consistency.Consistent;
    OutstandingUpTo(db, |db.passes|);
    assert db.passes[..|db.passes|] == db.passes;
    forall i | 0 <= i < |db.redemptions| ensures PassKey()(db.redemptions[i]) < |db.passes| {
      RowIsOk(db, db.redemptions[i]);
    }
    SumByKey(db.redemptions, PassKey(), Credits(), |db.passes|);
  }

  /** The pass_report loop. */
  method OutstandingFlexCredits(passes: seq<PassPurchase>) returns (total: int)
    ensures total == Sum(passes, ActiveCredits())
  {
    total := 0;
    for i := 0 to |passes|
      invariant total == Sum(passes[..i], ActiveCredits())
    {
      assert passes[..i + 1][..i] == passes[..i];
      if passes[i].status.Active? {
        if passes[i].terms.Flex? { total := total + passes[i].balance.GetOr(0); }
      }
    }
    assert passes[..|passes|] == passes;
  }

  // --- season passes ----------------------------------------------------

  /** A season pass is never redeemed twice for an event, so the database's
      uniqueness constraint on its rows is never what stops a redemption; and what
      it has left is exactly its covered events not redeemed yet. */
  lemma SeasonAdmitsOnce(start: Db, actions: seq<Action>, p: nat)
    requires Opening(start) && p < |Run(start, actions).passes| && Run(start, actions).passes[p].terms.Season?
    ensures var db := Run(start, actions);
            && (forall i, j ::
                  0 <= i < j < |db.redemptions| && db.redemptions[i].pass == p && db.redemptions[j].pass == p ==>
                  db.redemptions[i].event != db.redemptions[j].event)
            && (db.passes[p].covered != {} ==>
                  && RedeemedEvents(db.redemptions, p) <= db.passes[p].covered
                  && RemainingAdmissions(db, p) == Some(|db.passes[p].covered - RedeemedEvents(db.redemptions, p)|))
  {
    var db := Run(start, actions);
    Consistency.AlwaysConsistent(start, actions);
    Consistency.PassesAreOk(db);
    hide Consistency.Consistent;
    if db.passes[p].covered != {} { RemainingIsUnredeemed(db, p); }
    forall r | r in db.redemptions && r.pass == p ensures r.creditsUsed == 0 { RowIsOk(db, r); }
  }

  /** What a flex pass has left is what was bought less what was redeemed; only a season
      pass for all events has no number. */
  lemma FlexRemaining(start: Db, actions: seq<Action>, p: nat)
    requires Opening(start) && p < |Run(start, actions).passes|
    ensures var db := Run(start, actions);
            match db.passes[p].terms
            case Flex(credits) => RemainingAdmissions(db, p) == Some(credits - Sum(db.redemptions, UsedBy(p)))
            case Season => RemainingAdmissions(db, p).None? <==> db.passes[p].covered == {}
  {
    hide Consistency.Consistent, Run, Opening;
    Consistency.AlwaysConsistent(start, actions);
    PassIsOk(Run(start, actions), p);
  }

  // --- undoing a redemption order ---------------------------------------

  predicate Undoes(undo: Action, o: nat) {
    undo == Cancel(o) || (undo.Refund? && undo.order == o)
  }

  /** A PAID order that spent a pass and sold none. */
  predicate IsSpending(order: Order) {
    order.status.Paid? && |order.payments| == 1 && order.payments[0].provider.PassCredit?
        && order.payments[0].status.Succeeded?
    && !SoldAPass(order)
  }

  /** Cancelling and refunding it come to the same: Stripe is not asked, and no
      pass is withdrawn. */
  lemma UndoIsReverse(db: Db, o: nat, undo: Action)
    requires o < |db.orders| && IsSpending(db.orders[o]) && Undoes(undo, o)
    ensures var after := Next(db, undo);
            && after.allocs == VoidOrder(db, o).allocs && after.tickets == MapRows(db.tickets, Voided(o))
            && after.passes == RestoredPasses(db.passes, db.redemptions, o)
                 && after.redemptions == Filter(db.redemptions, NotOn(o))
            && |after.orders| == |db.orders| && !after.orders[o].status.Paid?
  {
    hide Filter, Sum, RestoredPasses, SoldAPass;
    assert FirstSucceeded(db.orders[o].payments) == Some(db.orders[o].payments[0]);
  }

  // --- redeem, then undo ------------------------------------------------

  lemma RowsUndone(db: Db, h: Hold, pass: nat)
    requires PassesOk(db.passes, db.redemptions, db.orders, db.tickets) && RedeemPass(db, h, pass).Ok?
    ensures Filter(RedeemPass(db, h, pass).value.redemptions, NotOn(|db.orders|)) == db.redemptions
  {
    FilterConcat(db.redemptions, RowsFor(db, h, pass), NotOn(|db.orders|));
    FilterKeepsAll(db.redemptions, NotOn(|db.orders|));
    FilterNone(RowsFor(db, h, pass), NotOn(|db.orders|));
  }

  /** Credits the new order's rows hold, pass by pass. */
  lemma NewCredits(db: Db, h: Hold, pass: nat, p: nat)
    requires PassesOk(db.passes, db.redemptions, db.orders, db.tickets) && RedeemPass(db, h, pass).Ok?
    ensures var rows := RedeemPass(db, h, pass).value.redemptions;
            && (SpentOn(rows, |db.orders|, p) <==> p == pass)
            && (p == pass ==>
                  Sum(rows, CreditsOn(|db.orders|, p)) == CreditsPerTicket(db.passes[pass]) * TicketCount(h.cart))
  {
    var o, rows := |db.orders|, RowsFor(db, h, pass);
    SumConcat(db.redemptions, rows, CreditsOn(o, p));
    SumZero(db.redemptions, CreditsOn(o, p));
    NewRowSums(h, pass, o, |db.tickets|, db.perfs[h.perf].event, CreditsPerTicket(db.passes[pass]));
    if p == pass {
      SumSame(rows, CreditsOn(o, p), rows, UsedBy(pass));
      assert rows[0] in db.redemptions + rows;
    }
    forall r | r in db.redemptions ensures r.order != o {
      var i :| 0 <= i < |db.redemptions| && db.redemptions[i] == r;
      assert RowOk(db.redemptions[i], db.passes, db.orders, db.tickets);
    }
  }

  lemma SpentThenRestored(p: PassPurchase, n: nat)
    requires n > 0 && p.status.Active? && (p.terms.Flex? ==> p.balance.Some? && n <= p.balance.value)
    ensures Restored(Spent(p, n), CreditsPerTicket(p) * n) == p
  {}

  lemma RedeemableParts(db: Db, h: Hold, pass: nat)
    requires RedeemPass(db, h, pass).Ok?
    ensures pass < |db.passes| && db.passes[pass].status.Active? && TicketCount(h.cart) > 0
    ensures db.passes[pass].terms.Flex? ==>
            db.passes[pass].balance.Some? && TicketCount(h.cart) <= db.passes[pass].balance.value
    ensures RedeemPass(db, h, pass).value.passes == db.passes[pass := Spent(db.passes[pass], TicketCount(h.cart))]
  {
    hide InventoryFailure, NewTickets, NewRedemptions, Filter;
  }

  lemma PassUndone(db: Db, h: Hold, pass: nat, p: nat)
    requires PassesOk(db.passes, db.redemptions, db.orders, db.tickets) && RedeemPass(db, h, pass).Ok?
    requires p < |db.passes|
    ensures RestoredPasses(RedeemPass(db, h, pass).value.passes, RedeemPass(db, h, pass).value.redemptions,
            |db.orders|)[p] == db.passes[p]
  {
    NewCredits(db, h, pass, p);
    RedeemableParts(db, h, pass);
    hide PassesOk, RedeemPass, Sum, SpentOn, Restored, Spent, CreditsPerTicket;
    if p == pass { SpentThenRestored(db.passes[p], TicketCount(h.cart)); }
  }

  lemma TicketsUndone(db: Db, h: Hold, perf: nat, seat: nat)
    requires Inventory.InventoryOk(db.allocs, db.orders, db.tickets)
    ensures var o := |db.orders|;
            Holds.Ticketed(MapRows(db.tickets + NewTickets(h, o), Voided(o)), perf, seat) <==>
                Holds.Ticketed(db.tickets, perf, seat)
  {
    var o, before := |db.orders|, db.tickets + NewTickets(h, |db.orders|);
    var after := MapRows(before, Voided(o));
    forall i | 0 <= i < |after|
      ensures after[i] == if i < |db.tickets| then db.tickets[i]
                          else NewTickets(h, o)[i - |db.tickets|].(status := Void)
    {}
    if t :| t in db.tickets && Holds.Occupies(t, perf, seat) {
      var i :| 0 <= i < |db.tickets| && db.tickets[i] == t;
      assert after[i] in after;
    }
    if t :| t in after && Holds.Occupies(t, perf, seat) {
      var i :| 0 <= i < |after| && after[i] == t;
      assert t in db.tickets;
    }
  }

  lemma MintFrees(db: Db, h: Hold)
    requires Inventory.InventoryOk(db.allocs, db.orders, db.tickets)
    ensures Sum(db.tickets + NewTickets(h, |db.orders|), LiveGaOf(|db.orders|)) == Inventory.CartGa(h.cart)
  {
    var o, minted := |db.orders|, NewTickets(h, |db.orders|);
    SumConcat(db.tickets, minted, LiveGaOf(o));
    SumZero(db.tickets, LiveGaOf(o));
    SumConst(minted, LiveGaOf(o), if h.cart.Ga? then 1 else 0);
    Inventory.NewTicketCounts(h, o);
  }

  lemma AllocsUndone(db: Db, h: Hold, redeemed: Db)
    requires Inventory.InventoryOk(db.allocs, db.orders, db.tickets) && InventoryFailure(db, h).None?
    requires |redeemed.orders| == |db.orders| + 1 && redeemed.orders[|db.orders|].perf == Some(h.perf)
    requires redeemed.tickets == db.tickets + NewTickets(h, |db.orders|) && redeemed.allocs == TakeFrom(db.allocs, h)
    ensures VoidOrder(redeemed, |db.orders|).allocs == db.allocs
  {
    MintFrees(db, h);
    hide Inventory.InventoryOk, Sum, Filter, Holds.Ticketed, NewTickets;
    assert VoidOrder(redeemed, |db.orders|).allocs.Keys == db.allocs.Keys;
  }

  /** The parts of the database a redemption writes. */
  lemma Redeemed(db: Db, h: Hold, pass: nat)
    requires RedeemPass(db, h, pass).Ok?
    ensures var redeemed := RedeemPass(db, h, pass).value;
            && redeemed.orders == db.orders + [RedemptionOrder(h, pass)] && IsSpending(RedemptionOrder(h, pass))
            && redeemed.tickets == db.tickets + NewTickets(h, |db.orders|)
            && redeemed.allocs == TakeFrom(db.allocs, h) && |redeemed.passes| == |db.passes|
            && InventoryFailure(db, h).None?
  {
    hide InventoryFailure, NewTickets, NewRedemptions, Filter;
  }

  /** Redeeming a pass for a hold and then cancelling or refunding the order gives
      back everything: GA `sold`, every seat, the pass with its balance and status,
      and the redemption rows that block a season event. */
  lemma RedeemThenUndo(db: Db, h: Hold, pass: nat, undo: Action)
    requires Consistency.Consistent(db) && h in db.holds && RedeemPass(db, h, pass).Ok?
    requires Undoes(undo, |db.orders|)
    ensures var after := Next(RedeemPass(db, h, pass).value, undo);
            && after.allocs == db.allocs
            && after.passes == db.passes
            && after.redemptions == db.redemptions
            && (forall perf, seat :: Holds.Ticketed(after.tickets, perf, seat) <==>
                  Holds.Ticketed(db.tickets, perf, seat))
            && |after.orders| > |db.orders| && !after.orders[|db.orders|].status.Paid?
  {
    Consistency.PassesAreOk(db);
    Consistency.InventoryIsOk(db);
    var redeemed, o := RedeemPass(db, h, pass).value, |db.orders|;
    Redeemed(db, h, pass);
    hide Consistency.Consistent, InventoryFailure, RedemptionOrder, RedeemPass, NewTickets, Next, PassesOk;
    hide Inventory.InventoryOk, Holds.Ticketed, Filter, Sum, TakeFrom, RestoredPasses, VoidOrder, IsSpending;
    UndoIsReverse(redeemed, o, undo);
    RowsUndone(db, h, pass);
    OrderPerf(h, pass);
    AllocsUndone(db, h, redeemed);
    PassesUndone(db, h, pass);
    forall perf, seat
      ensures Holds.Ticketed(MapRows(redeemed.tickets, Voided(o)), perf, seat) <==>
              Holds.Ticketed(db.tickets, perf, seat)
    {
      TicketsUndone(db, h, perf, seat);
    }
  }

  lemma OrderPerf(h: Hold, pass: nat)
    ensures RedemptionOrder(h, pass).perf == Some(h.perf)
  {}

  lemma PassesUndone(db: Db, h: Hold, pass: nat)
    requires PassesOk(db.passes, db.redemptions, db.orders, db.tickets) && RedeemPass(db, h, pass).Ok?
    ensures var redeemed := RedeemPass(db, h, pass).value;
            RestoredPasses(redeemed.passes, redeemed.redemptions, |db.orders|) == db.passes
  {
    var redeemed := RedeemPass(db, h, pass).value;
    Redeemed(db, h, pass);
    hide PassesOk, RedeemPass, SpentOn, Sum;
    forall p | 0 <= p < |db.passes|
      ensures RestoredPasses(redeemed.passes, redeemed.redemptions, |db.orders|)[p] == db.passes[p]
    {
      PassUndone(db, h, pass, p);
    }
  }

  // --- with anything in between -----------------------------------------

  /** Credits a PAID redemption order holds on its pass. */
  lemma CreditsHeld(db: Db, o: nat, p: nat)
    requires Consistency.Consistent(db) && o < |db.orders| && db.orders[o].status.Paid?
    requires |db.orders[o].payments| > 0 && db.orders[o].payments[0].provider == PassCredit(p) && p < |db.passes|
    ensures Sum(db.redemptions, CreditsOn(o, p)) == CreditsPerTicket(db.passes[p]) * Sum(db.tickets, TicketsOn(o))
  {
    Consistency.PassesAreOk(db);
    hide Consistency.Consistent;
    var c := CreditsPerTicket(db.passes[p]);
    forall i | 0 <= i < |db.redemptions|
      ensures CreditsOn(o, p)(db.redemptions[i]) == if c == 1 then RowsOn(o)(db.redemptions[i]) else 0
    {
      assert RowOk(db.redemptions[i], db.passes, db.orders, db.tickets);
    }
    if c == 1 {
      SumSame(db.redemptions, CreditsOn(o, p), db.redemptions, RowsOn(o));
    } else {
      SumZero(db.redemptions, CreditsOn(o, p));
    }
  }

  lemma SpendingOrder(db: Db, o: nat)
    requires Consistency.Consistent(db) && o < |db.orders| && db.orders[o].status.Paid? && IsRedemption(db.orders[o])
    ensures IsSpending(db.orders[o])
  {
    hide Inventory.InventoryOk, PassesOk, Ledger.PromosOk, Carts.CartTablesOk;
    assert Ledger.PaymentsOk(db.orders[o]) && Ledger.TotalsOk(db.orders[o]);
  }

  lemma UndoneBalance(db: Db, o: nat, p: nat)
    requires PassesOk(db.passes, db.redemptions, db.orders, db.tickets) && p < |db.passes|
    requires Sum(db.redemptions, CreditsOn(o, p)) == CreditsPerTicket(db.passes[p]) * Sum(db.tickets, TicketsOn(o))
    requires db.passes[p].terms.Flex?
    ensures Balance(RestoredPasses(db.passes, db.redemptions, o)[p])
            == Balance(db.passes[p]) + Sum(db.tickets, TicketsOn(o))
  {
    assert PassOk(p, db.passes, db.redemptions, db.orders);
    RestoredSums(db.redemptions, o, p);
    hide PassesOk, Sum, SpentOn;
  }

  lemma UndoneSold(db: Db, o: nat, q: nat)
    requires Inventory.InventoryOk(db.allocs, db.orders, db.tickets) && o < |db.orders|
    requires db.orders[o].status.Paid? && q in db.allocs
    ensures q in VoidOrder(db, o).allocs
    ensures VoidOrder(db, o).allocs[q].sold ==
            db.allocs[q].sold - if db.orders[o].perf == Some(q) then Sum(db.tickets, Inventory.SeatlessOf(o)) else 0
  {
    Inventory.FreedIsSold(db.orders, db.tickets, o);
    Inventory.FloorNeverClamps(db, o);
    hide Sum;
  }

  /** Undoing a PAID redemption order, whenever that happens: its pass gets exactly
      a credit per ticket back, GA `sold` drops by its seatless tickets, and no row
      of the order is left to block an event. */
  lemma UndoGivesBack(db: Db, o: nat, p: nat, undo: Action)
    requires Consistency.Consistent(db) && o < |db.orders| && db.orders[o].status.Paid? && Undoes(undo, o)
    requires |db.orders[o].payments| > 0 && db.orders[o].payments[0].provider == PassCredit(p) && p < |db.passes|
    ensures var after := Next(db, undo);
            && |after.passes| == |db.passes|
            && (db.passes[p].terms.Flex? ==>
                  Balance(after.passes[p]) == Balance(db.passes[p]) + Sum(db.tickets, TicketsOn(o)))
            && (forall r :: r in after.redemptions <==> r in db.redemptions && r.order != o)
            && (forall q :: q in db.allocs ==>
                  q in after.allocs
                  && after.allocs[q].sold == db.allocs[q].sold -
                     if db.orders[o].perf == Some(q) then Sum(db.tickets, Inventory.SeatlessOf(o)) else 0)
  {
    Consistency.PassesAreOk(db);
    CreditsHeld(db, o, p);
    SpendingOrder(db, o);
    Consistency.InventoryIsOk(db);
    hide Consistency.Consistent, PassesOk, Inventory.InventoryOk, Sum, Filter, VoidOrder, CreditsPerTicket, Balance;
    UndoIsReverse(db, o, undo);
    hide Next;
    FilterMembers(db.redemptions, NotOn(o));
    if db.passes[p].terms.Flex? { UndoneBalance(db, o, p); }
    forall q | q in db.allocs
      ensures q in VoidOrder(db, o).allocs
      ensures VoidOrder(db, o).allocs[q].sold
              == db.allocs[q].sold - if db.orders[o].perf == Some(q) then Sum(db.tickets,
                  Inventory.SeatlessOf(o)) else 0
    {
      UndoneSold(db, o, q);
    }
  }

  /** Redeem, let anything happen, then undo: as long as the order is still PAID,
      the undoing gives the pass back exactly what redeeming took from it, and
      leaves no redemption of the order behind. */
  lemma RedeemAnythingUndo(db: Db, h: Hold, p: nat, between: seq<Action>, undo: Action)
    requires Consistency.Consistent(db) && h in db.holds && RedeemPass(db, h, p).Ok? && Undoes(undo, |db.orders|)
    requires var later := Run(RedeemPass(db, h, p).value, between);
        |db.orders| < |later.orders| && later.orders[|db.orders|].status.Paid?
    ensures var o, redeemed := |db.orders|, RedeemPass(db, h, p).value;
            var later := Run(redeemed, between); var after := Next(later, undo);
            && p < |after.passes| == |later.passes|
            && (db.passes[p].terms.Flex? ==>
                  && Balance(db.passes[p]) - Balance(redeemed.passes[p]) == TicketCount(h.cart)
                  && Balance(after.passes[p]) - Balance(later.passes[p]) == TicketCount(h.cart))
            && (forall r :: r in after.redemptions ==> r.order != o)
  {
    var o, redeemed := |db.orders|, RedeemPass(db, h, p).value;
    Consistency.RedeemKeeps(db, h, p);
    Consistency.PassesAreOk(db);
    PassIsOk(db, p);
    Consistency.InventoryIsOk(db);
    RedeemMovesCredits(db, h, p);
    NewFace(db, h, p);
    History.RunContinues(redeemed, between);
    var later := Run(redeemed, between);
    LaterPayments(redeemed, later, o, p);
    History.TicketsOfOrderFixed(redeemed, later, o);
    UndoGivesBack(later, o, p, undo);
    hide Consistency.Consistent, History.Continues, PassesOk, PassOk, Inventory.InventoryOk, Sum, Filter, Run, Next;
  }

  lemma LaterPayments(redeemed: Db, later: Db, o: nat, p: nat)
    requires History.Continues(redeemed, later) && o < |redeemed.orders| && p < |redeemed.passes|
    requires |redeemed.orders[o].payments| > 0 && redeemed.orders[o].payments[0].provider == PassCredit(p)
    ensures |later.orders[o].payments| > 0 && later.orders[o].payments[0].provider == PassCredit(p)
    ensures p < |later.passes| && later.passes[p].terms == redeemed.passes[p].terms
  {
    assert History.OrderContinues(redeemed.orders[o], later.orders[o])
        && History.PassContinues(redeemed.passes[p], later.passes[p]);
  }
}

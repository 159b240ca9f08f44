/** What pass balances, redemptions and orders keep in step. */
module Passes {
  import opened Tables
  import opened Schema
  import opened Fulfilment
  import opened Inventory

  // --- counting ---------------------------------------------------------

  /** Credits the live redemptions of a pass have used. */
  function UsedBy(pass: nat): Redemption -> int {
    (r: Redemption) => if r.pass == pass then r.creditsUsed else 0
  }

  function RowsOn(o: nat): Redemption -> int { (r: Redemption) => if r.order == o then 1 else 0 }

  function FaceOn(o: nat): Redemption -> int { (r: Redemption) => if r.order == o then r.faceValue else 0 }

  function TicketsOn(o: nat): Ticket -> int { (t: Ticket) => if t.order == o then 1 else 0 }

  function LineAmount(): Item -> int { (i: Item) => i.unit * i.qty }

  function LineTotal(order: Order): int { Sum(order.items, LineAmount()) }

  /** The order spent a pass instead of money. */
  predicate IsRedemption(order: Order) { |order.payments| > 0 && order.payments[0].provider.PassCredit? }

  function Balance(p: PassPurchase): int { p.balance.GetOr(0) }

  function RedeemedEvents(redemptions: seq<Redemption>, pass: nat): set<nat> {
    set r | r in redemptions && r.pass == pass :: r.event
  }

  // --- invariants -------------------------------------------------------

  /** Balance plus used credits is what was bought; EXHAUSTED means an empty
      balance; REFUNDED follows the order that sold the pass. */
  ghost predicate PassOk(p: nat, passes: seq<PassPurchase>, redemptions: seq<Redemption>, orders: seq<Order>)
    requires p < |passes|
  {
    var pass := passes[p];
    && pass.order < |orders| && SoldAPass(orders[pass.order])
    && (pass.status.Withdrawn? <==> orders[pass.order].status.Refunded?)
    && (match pass.terms
        case Flex(n) => pass.balance.Some? && pass.balance.value + Sum(redemptions, UsedBy(p)) == n
                        && (pass.status.Withdrawn? || (pass.status.Exhausted? <==> pass.balance.value == 0))
        case Season => pass.balance.None? && !pass.status.Exhausted?)
  }

  ghost predicate RowOk(r: Redemption, passes: seq<PassPurchase>, orders: seq<Order>, tickets: seq<Ticket>) {
    && r.order < |orders| && orders[r.order].status.Paid? && IsRedemption(orders[r.order])
    && orders[r.order].payments[0].provider.pass == r.pass
    && r.ticket < |tickets| && tickets[r.ticket].order == r.order && tickets[r.ticket].seat == r.seat
    && r.pass < |passes| && !passes[r.pass].status.Withdrawn?
    && r.creditsUsed == CreditsPerTicket(passes[r.pass])
    && (passes[r.pass].covered != {} ==> r.event in passes[r.pass].covered)
  }

  /** The ticket of a redemption is its own, and a season pass admits once per event. */
  ghost predicate RowsApart(redemptions: seq<Redemption>) {
    forall i, j :: 0 <= i < j < |redemptions| ==>
      && redemptions[i].ticket != redemptions[j].ticket
      && (redemptions[i].creditsUsed == 0 && redemptions[j].creditsUsed == 0 ==>
            !(redemptions[i].pass == redemptions[j].pass && redemptions[i].event == redemptions[j].event))
  }

  /** A PAID redemption order has one row per ticket, worth its lines. */
  ghost predicate FacesOk(redemptions: seq<Redemption>, orders: seq<Order>, tickets: seq<Ticket>) {
    forall o :: 0 <= o < |orders| && orders[o].status.Paid? && IsRedemption(orders[o]) ==>
      Sum(redemptions, RowsOn(o)) == Sum(tickets, TicketsOn(o)) && Sum(redemptions, FaceOn(o)) == LineTotal(orders[o])
  }

  ghost predicate PassesOk(passes: seq<PassPurchase>, redemptions: seq<Redemption>, orders: seq<Order>,
      tickets: seq<Ticket>) {
    && (forall p :: 0 <= p < |passes| ==> PassOk(p, passes, redemptions, orders))
    && (forall i :: 0 <= i < |redemptions| ==> RowOk(redemptions[i], passes, orders, tickets))
    && RowsApart(redemptions)
    && FacesOk(redemptions, orders, tickets)
  }

  // --- new orders -------------------------------------------------------

  /** An order that spends no pass, with its tickets, changes nothing here. */
  lemma OrderKeepsPasses(db: Db, order: Order, minted: seq<Ticket>)
    requires PassesOk(db.passes, db.redemptions, db.orders, db.tickets)
    requires !IsRedemption(order) && forall i :: 0 <= i < |minted| ==> minted[i].order == |db.orders|
    ensures PassesOk(db.passes, db.redemptions, db.orders + [order], db.tickets + minted)
  {
    forall o: nat | o < |db.orders| ensures Sum(db.tickets + minted, TicketsOn(o)) == Sum(db.tickets, TicketsOn(o)) {
      SumConcat(db.tickets, minted, TicketsOn(o));
      SumZero(minted, TicketsOn(o));
    }
    forall p: nat | p < |db.passes| ensures PassOk(p, db.passes, db.redemptions, db.orders + [order]) {
      assert PassOk(p, db.passes, db.redemptions, db.orders);
    }
  }

  lemma SaleKeepsPasses(db: Db, order: Order, pass: PassPurchase)
    requires PassesOk(db.passes, db.redemptions, db.orders, db.tickets)
    requires !IsRedemption(order) && order.status.Paid? && SoldAPass(order)
    requires pass.order == |db.orders| && pass.status.Active?
    requires match pass.terms case Flex(n) => pass.balance == Some(n) case Season => pass.balance.None?
    ensures PassesOk(db.passes + [pass], db.redemptions, db.orders + [order], db.tickets)
  {
    OrderKeepsPasses(db, order, []);
    assert db.tickets + [] == db.tickets;
    SumZero(db.redemptions, UsedBy(|db.passes|));
    forall p: nat | p <= |db.passes| ensures PassOk(p, db.passes + [pass], db.redemptions, db.orders + [order]) {
      if p < |db.passes| { assert PassOk(p, db.passes, db.redemptions, db.orders + [order]); }
    }
  }

  lemma NewRowSums(h: Hold, pass: nat, o: nat, firstTicket: nat, event: nat, credits: nat)
    ensures var rows := NewRedemptions(h, pass, o, firstTicket, event, credits);
            && |rows| == TicketCount(h.cart)
            && Sum(rows, RowsOn(o)) == |rows|
            && Sum(rows, FaceOn(o)) == Sum(TicketItems(h.cart), LineAmount())
            && Sum(rows, UsedBy(pass)) == credits * |rows|
  {
    var rows := NewRedemptions(h, pass, o, firstTicket, event, credits);
    SumConst(rows, RowsOn(o), 1);
    SumConst(rows, UsedBy(pass), credits);
    if h.cart.Ga? {
      SumConst(rows, FaceOn(o), h.cart.unit);
      SumConst(TicketItems(h.cart), LineAmount(), h.cart.unit * h.cart.qty);
    } else {
      SumSame(rows, FaceOn(o), TicketItems(h.cart), LineAmount());
    }
  }

  function RowsFor(db: Db, h: Hold, pass: nat): seq<Redemption>
    requires pass < |db.passes| && h.perf in db.perfs
  {
    NewRedemptions(h, pass, |db.orders|, |db.tickets|, db.perfs[h.perf].event, CreditsPerTicket(db.passes[pass]))
  }

  /** Redeeming moves credits from the balance to the rows; the clamp at the
      decrement is never met. */
  lemma RedeemMovesCredits(db: Db, h: Hold, pass: nat)
    requires RedeemPass(db, h, pass).Ok? && PassOk(pass, db.passes, db.redemptions, db.orders)
    ensures var after := RedeemPass(db, h, pass).value; PassOk(pass, after.passes, after.redemptions, after.orders)
    ensures db.passes[pass].terms.Flex? ==> db.passes[pass].balance.value >= TicketCount(h.cart)
  {
    SumConcat(db.redemptions, RowsFor(db, h, pass), UsedBy(pass));
    NewRowSums(h, pass, |db.orders|, |db.tickets|, db.perfs[h.perf].event, CreditsPerTicket(db.passes[pass]));
  }

  lemma RedeemSparesOthers(db: Db, h: Hold, pass: nat, p: nat)
    requires RedeemPass(db, h, pass).Ok? && p < |db.passes| && p != pass
    requires PassOk(p, db.passes, db.redemptions, db.orders)
    ensures var after := RedeemPass(db, h, pass).value; PassOk(p, after.passes, after.redemptions, after.orders)
  {
    SumConcat(db.redemptions, RowsFor(db, h, pass), UsedBy(p));
    SumZero(RowsFor(db, h, pass), UsedBy(p));
  }

  lemma NewRowOk(db: Db, h: Hold, pass: nat, k: nat)
    requires RedeemPass(db, h, pass).Ok? && k < |RowsFor(db, h, pass)|
    ensures var after := RedeemPass(db, h, pass).value;
            RowOk(RowsFor(db, h, pass)[k], after.passes, after.orders, after.tickets)
  {
    NewTicketCounts(h, |db.orders|);
    assert RedeemPass(db, h, pass).value.tickets[|db.tickets| + k] == NewTickets(h, |db.orders|)[k];
  }

  lemma OldRowOk(db: Db, h: Hold, pass: nat, r: Redemption)
    requires RowOk(r, db.passes, db.orders, db.tickets) && RedeemPass(db, h, pass).Ok?
    ensures var after := RedeemPass(db, h, pass).value; RowOk(r, after.passes, after.orders, after.tickets)
  {}

  lemma NewRowsApart(db: Db, h: Hold, pass: nat)
    requires PassesOk(db.passes, db.redemptions, db.orders, db.tickets) && RedeemPass(db, h, pass).Ok?
    ensures RowsApart(db.redemptions + RowsFor(db, h, pass))
  {
    var rows := RowsFor(db, h, pass);
    forall i, j | 0 <= i < |db.redemptions| && 0 <= j < |rows|
      ensures db.redemptions[i].ticket != rows[j].ticket
      ensures rows[j].creditsUsed == 0 ==> !(db.redemptions[i].pass == pass && db.redemptions[i].event == rows[j].event)
    {
      assert RowOk(db.redemptions[i], db.passes, db.orders, db.tickets) && db.redemptions[i] in db.redemptions;
    }
  }

  lemma RedeemKeepsRows(db: Db, h: Hold, pass: nat)
    requires PassesOk(db.passes, db.redemptions, db.orders, db.tickets)
    requires RedeemPass(db, h, pass).Ok?
    ensures var after := RedeemPass(db, h, pass).value;
            && (forall i :: 0 <= i < |after.redemptions| ==>
                  RowOk(after.redemptions[i], after.passes, after.orders, after.tickets))
            && RowsApart(after.redemptions)
  {
    hide RowOk, RowsApart;
    var after, n := RedeemPass(db, h, pass).value, |db.redemptions|;
    NewRowsApart(db, h, pass);
    forall i: nat | i < |after.redemptions|
      ensures RowOk(after.redemptions[i], after.passes, after.orders, after.tickets)
    {
      if i < n { OldRowOk(db, h, pass, db.redemptions[i]); } else { NewRowOk(db, h, pass, i - n); }
    }
  }

  lemma RedeemKeepsFace(db: Db, h: Hold, pass: nat, o: nat)
    requires RedeemPass(db, h, pass).Ok? && o < |db.orders|
    ensures var after := RedeemPass(db, h, pass).value;
            && Sum(after.redemptions, RowsOn(o)) == Sum(db.redemptions, RowsOn(o))
            && Sum(after.redemptions, FaceOn(o)) == Sum(db.redemptions, FaceOn(o))
            && Sum(after.tickets, TicketsOn(o)) == Sum(db.tickets, TicketsOn(o))
  {
    var rows, minted := RowsFor(db, h, pass), NewTickets(h, |db.orders|);
    SumConcat(db.redemptions, rows, RowsOn(o));
    SumConcat(db.redemptions, rows, FaceOn(o));
    SumConcat(db.tickets, minted, TicketsOn(o));
    SumZero(rows, RowsOn(o));
    SumZero(rows, FaceOn(o));
    SumZero(minted, TicketsOn(o));
  }

  lemma NewFace(db: Db, h: Hold, pass: nat)
    requires TicketsOk(db.orders, db.tickets)
    requires PassesOk(db.passes, db.redemptions, db.orders, db.tickets) && RedeemPass(db, h, pass).Ok?
    ensures var after, o := RedeemPass(db, h, pass).value, |db.orders|;
            && Sum(after.redemptions, RowsOn(o)) == Sum(after.tickets, TicketsOn(o)) == TicketCount(h.cart)
            && Sum(after.redemptions, FaceOn(o)) == LineTotal(after.orders[o])
  {
    var o, rows, minted := |db.orders|, RowsFor(db, h, pass), NewTickets(h, |db.orders|);
    SumConcat(db.redemptions, rows, RowsOn(o));
    SumConcat(db.redemptions, rows, FaceOn(o));
    SumConcat(db.tickets, minted, TicketsOn(o));
    SumZero(db.redemptions, RowsOn(o));
    SumZero(db.redemptions, FaceOn(o));
    SumZero(db.tickets, TicketsOn(o));
    NewTicketCounts(h, o);
    NewRowSums(h, pass, o, |db.tickets|, db.perfs[h.perf].event, CreditsPerTicket(db.passes[pass]));
    SumConst(minted, TicketsOn(o), 1);
  }

  lemma RedeemKeepsFaces(db: Db, h: Hold, pass: nat)
    requires TicketsOk(db.orders, db.tickets)
    requires PassesOk(db.passes, db.redemptions, db.orders, db.tickets)
    requires RedeemPass(db, h, pass).Ok?
    ensures var after := RedeemPass(db, h, pass).value; FacesOk(after.redemptions, after.orders, after.tickets)
  {
    var after := RedeemPass(db, h, pass).value;
    NewFace(db, h, pass);
    forall o: nat | o < |db.orders| && after.orders[o].status.Paid? && IsRedemption(after.orders[o])
      ensures Sum(after.redemptions, RowsOn(o)) == Sum(after.tickets, TicketsOn(o))
      ensures Sum(after.redemptions, FaceOn(o)) == LineTotal(after.orders[o])
    {
      RedeemKeepsFace(db, h, pass, o);
      assert after.orders[o] == db.orders[o];
    }
  }

  lemma RedeemKeepsPasses(db: Db, h: Hold, pass: nat)
    requires InventoryOk(db.allocs, db.orders, db.tickets)
    requires PassesOk(db.passes, db.redemptions, db.orders, db.tickets)
    requires RedeemPass(db, h, pass).Ok?
    ensures var after := RedeemPass(db, h, pass).value;
            PassesOk(after.passes, after.redemptions, after.orders, after.tickets)
  {
    var after := RedeemPass(db, h, pass).value;
    forall p: nat | p < |after.passes| ensures PassOk(p, after.passes, after.redemptions, after.orders) {
      assert PassOk(p, db.passes, db.redemptions, db.orders);
      if p == pass { RedeemMovesCredits(db, h, pass); } else { RedeemSparesOthers(db, h, pass, p); }
    }
    RedeemKeepsRows(db, h, pass);
    RedeemKeepsFaces(db, h, pass);
  }

  // --- reversing --------------------------------------------------------

  /** Deleting an order's rows takes exactly its credits off each pass. */
  lemma RestoredSums(redemptions: seq<Redemption>, o: nat, p: nat)
    ensures Sum(Filter(redemptions, NotOn(o)), UsedBy(p))
            == Sum(redemptions, UsedBy(p)) - Sum(redemptions, CreditsOn(o, p))
    ensures Sum(redemptions, CreditsOn(o, p)) >= 0
    ensures !SpentOn(redemptions, o, p) ==> Sum(redemptions, CreditsOn(o, p)) == 0
  {
    var rest := (r: Redemption) => if r.order != o then UsedBy(p)(r) else 0;
    SumFilter(redemptions, NotOn(o), UsedBy(p), rest);
    SumSplit(redemptions, UsedBy(p), redemptions, rest, redemptions, CreditsOn(o, p));
    SumNonNegative(redemptions, CreditsOn(o, p));
    if !SpentOn(redemptions, o, p) {
      assert forall i :: 0 <= i < |redemptions| ==> redemptions[i] in redemptions;
      SumZero(redemptions, CreditsOn(o, p));
    }
  }

  /** A flex pass spent on the order gets at least one credit back. */
  lemma SpentCredits(db: Db, o: nat, p: nat)
    requires PassesOk(db.passes, db.redemptions, db.orders, db.tickets)
    requires p < |db.passes| && SpentOn(db.redemptions, o, p)
    ensures !db.passes[p].status.Withdrawn?
    ensures db.passes[p].terms.Flex? ==> Sum(db.redemptions, CreditsOn(o, p)) > 0
    ensures db.passes[p].terms.Season? ==> Sum(db.redemptions, CreditsOn(o, p)) == 0
  {
    var r :| r in db.redemptions && r.order == o && r.pass == p;
    var i :| 0 <= i < |db.redemptions| && db.redemptions[i] == r;
    assert RowOk(db.redemptions[i], db.passes, db.orders, db.tickets);
    if db.passes[p].terms.Flex? {
      SumAtLeast(db.redemptions, CreditsOn(o, p), i);
    } else {
      SumZero(db.redemptions, CreditsOn(o, p));
    }
  }

  lemma RestoreKeepsBalance(db: Db, o: nat, p: nat, orders: seq<Order>)
    requires PassesOk(db.passes, db.redemptions, db.orders, db.tickets) && p < |db.passes|
    requires db.passes[p].order < |db.orders| == |orders| && SoldAPass(orders[db.passes[p].order])
    requires orders[db.passes[p].order].status.Refunded? <==> db.orders[db.passes[p].order].status.Refunded?
    ensures PassOk(p, RestoredPasses(db.passes, db.redemptions, o), Filter(db.redemptions, NotOn(o)), orders)
  {
    assert PassOk(p, db.passes, db.redemptions, db.orders);
    RestoredSums(db.redemptions, o, p);
    if SpentOn(db.redemptions, o, p) { SpentCredits(db, o, p); }
  }

  lemma FilteredRows(db: Db, o: nat)
    requires PassesOk(db.passes, db.redemptions, db.orders, db.tickets)
    ensures RowsApart(Filter(db.redemptions, NotOn(o)))
    ensures forall i :: 0 <= i < |Filter(db.redemptions, NotOn(o))| ==>
      Filter(db.redemptions, NotOn(o))[i] in db.redemptions && Filter(db.redemptions, NotOn(o))[i].order != o
  {
    var kept := Filter(db.redemptions, NotOn(o));
    FilterMembers(db.redemptions, NotOn(o));
    assert forall i :: 0 <= i < |kept| ==> kept[i] in kept;
    forall i: nat, j: nat | i < j < |kept|
      ensures kept[i].ticket != kept[j].ticket
      ensures kept[i].creditsUsed == 0 && kept[j].creditsUsed == 0 ==>
              !(kept[i].pass == kept[j].pass && kept[i].event == kept[j].event)
    {
      var a, b := FilterPair(db.redemptions, NotOn(o), i, j);
    }
  }

  lemma FilteredFaces(db: Db, o: nat, order: Order, tickets: seq<Ticket>)
    requires PassesOk(db.passes, db.redemptions, db.orders, db.tickets)
    requires o < |db.orders| && !order.status.Paid?
    requires |tickets| == |db.tickets| && forall i :: 0 <= i < |tickets| ==> tickets[i].order == db.tickets[i].order
    ensures FacesOk(Filter(db.redemptions, NotOn(o)), db.orders[o := order], tickets)
  {
    var kept := Filter(db.redemptions, NotOn(o));
    forall q: nat | q < |db.orders| && q != o && db.orders[q].status.Paid? && IsRedemption(db.orders[q])
      ensures Sum(kept, RowsOn(q)) == Sum(tickets, TicketsOn(q)) && Sum(kept, FaceOn(q)) == LineTotal(db.orders[q])
    {
      SumFilter(db.redemptions, NotOn(o), RowsOn(q), RowsOn(q));
      SumFilter(db.redemptions, NotOn(o), FaceOn(q), FaceOn(q));
      SumSame(tickets, TicketsOn(q), db.tickets, TicketsOn(q));
    }
  }

  /** Cancelling: the order keeps its lines, so a pass it sold keeps its status. */
  lemma CancelKeepsPasses(db: Db, o: nat)
    requires PassesOk(db.passes, db.redemptions, db.orders, db.tickets)
    requires o < |db.orders| && db.orders[o].status.Paid?
    ensures var after := Reverse(db, o, Cancelled);
            PassesOk(after.passes, after.redemptions, after.orders, after.tickets)
  {
    var after := Reverse(db, o, Cancelled);
    forall p: nat | p < |after.passes| ensures PassOk(p, after.passes, after.redemptions, after.orders) {
      assert PassOk(p, db.passes, db.redemptions, db.orders);
      RestoreKeepsBalance(db, o, p, after.orders);
    }
    FilteredRows(db, o);
    FilteredFaces(db, o, after.orders[o], after.tickets);
    forall i | 0 <= i < |after.redemptions|
      ensures RowOk(after.redemptions[i], after.passes, after.orders, after.tickets)
    {
      CancelKeepsRow(db, o, i);
    }
    hide Filter, Sum, RestoredPasses, PassOk, RowOk, RowsApart, FacesOk;
  }

  lemma CancelKeepsRow(db: Db, o: nat, i: nat)
    requires PassesOk(db.passes, db.redemptions, db.orders, db.tickets)
    requires o < |db.orders| && i < |Reverse(db, o, Cancelled).redemptions|
    ensures var after := Reverse(db, o, Cancelled);
            RowOk(after.redemptions[i], after.passes, after.orders, after.tickets)
  {
    var after := Reverse(db, o, Cancelled);
    FilterMembers(db.redemptions, NotOn(o));
    assert after.redemptions[i] in after.redemptions;
    var k :| 0 <= k < |db.redemptions| && db.redemptions[k] == after.redemptions[i];
    assert RowOk(db.redemptions[k], db.passes, db.orders, db.tickets);
    hide Filter, Sum;
  }

  /** Refunding: a pass the order sold has no live redemption, and is withdrawn. */
  lemma RefundKeepsPasses(db: Db, o: nat, stripe: Option<string>)
    requires PassesOk(db.passes, db.redemptions, db.orders, db.tickets)
    requires o < |db.orders| && db.orders[o].status.Paid? && |db.orders[o].payments| > 0
    requires RefundOrder(db, o, stripe).Ok?
    ensures var after := RefundOrder(db, o, stripe).value;
            PassesOk(after.passes, after.redemptions, after.orders, after.tickets)
  {
    var after := RefundOrder(db, o, stripe).value;
    FilteredRows(db, o);
    FilteredFaces(db, o, after.orders[o], after.tickets);
    forall p: nat | p < |after.passes| ensures PassOk(p, after.passes, after.redemptions, after.orders) {
      RefundKeepsBalance(db, o, stripe, p);
    }
    forall i | 0 <= i < |after.redemptions|
      ensures RowOk(after.redemptions[i], after.passes, after.orders, after.tickets)
    {
      RefundKeepsRow(db, o, stripe, after.redemptions[i]);
    }
  }

  /** A pass with a live redemption is not one the refunded order sold. */
  lemma NotSoldByRefunded(db: Db, o: nat, stripe: Option<string>, r: Redemption)
    requires PassesOk(db.passes, db.redemptions, db.orders, db.tickets)
    requires o < |db.orders| && db.orders[o].status.Paid? && RefundOrder(db, o, stripe).Ok?
    requires r in db.redemptions && r.pass < |db.passes|
    ensures db.passes[r.pass].order != o
  {
    if db.passes[r.pass].order == o {
      assert PassOk(r.pass, db.passes, db.redemptions, db.orders);
      assert PassSpent(db, o);
    }
  }

  lemma RefundKeepsRow(db: Db, o: nat, stripe: Option<string>, r: Redemption)
    requires PassesOk(db.passes, db.redemptions, db.orders, db.tickets)
    requires o < |db.orders| && db.orders[o].status.Paid? && |db.orders[o].payments| > 0
    requires RefundOrder(db, o, stripe).Ok? && r in db.redemptions && r.order != o
    ensures var after := RefundOrder(db, o, stripe).value; RowOk(r, after.passes, after.orders, after.tickets)
  {
    var k :| 0 <= k < |db.redemptions| && db.redemptions[k] == r;
    assert RowOk(r, db.passes, db.orders, db.tickets);
    NotSoldByRefunded(db, o, stripe, r);
    hide PassesOk, SoldAPass, PassSpent, Sum, Filter;
  }

  lemma RefundKeepsBalance(db: Db, o: nat, stripe: Option<string>, p: nat)
    requires PassesOk(db.passes, db.redemptions, db.orders, db.tickets)
    requires o < |db.orders| && db.orders[o].status.Paid?
    requires RefundOrder(db, o, stripe).Ok? && p < |db.passes|
    ensures var after := RefundOrder(db, o, stripe).value; PassOk(p, after.passes, after.redemptions, after.orders)
  {
    var after := RefundOrder(db, o, stripe).value;
    assert PassOk(p, db.passes, db.redemptions, db.orders);
    RestoredSums(db.redemptions, o, p);
    if db.passes[p].order != o {
      RestoreKeepsBalance(db, o, p, after.orders);
    } else if SpentOn(db.redemptions, o, p) {
      assert PassSpent(db, o);
    }
  }

  // --- what follows -----------------------------------------------------

  /** remaining_admissions; None where the code reports no numeric cap. */
  function RemainingAdmissions(db: Db, p: nat): Option<int>
    requires p < |db.passes|
  {
    var pass := db.passes[p];
    if pass.terms.Flex? then pass.balance
    else if pass.covered == {} then None
    else Some(Max(|pass.covered| - |RedeemedEvents(db.redemptions, p)|, 0))
  }

  lemma RedeemedWithinCovered(db: Db, p: nat)
    requires PassesOk(db.passes, db.redemptions, db.orders, db.tickets)
    requires p < |db.passes| && db.passes[p].covered != {}
    ensures RedeemedEvents(db.redemptions, p) <= db.passes[p].covered
  {
    forall e | e in RedeemedEvents(db.redemptions, p) ensures e in db.passes[p].covered {
      var r :| r in db.redemptions && r.pass == p && r.event == e;
      var i :| 0 <= i < |db.redemptions| && db.redemptions[i] == r;
      assert RowOk(db.redemptions[i], db.passes, db.orders, db.tickets);
    }
  }

  lemma DifferenceSize(a: set<nat>, b: set<nat>)
    requires b <= a
    ensures |a - b| == |a| - |b|
  {
    assert a == (a - b) + b;
  }

  /** A bounded season pass has exactly its unredeemed covered events left. */
  lemma RemainingIsUnredeemed(db: Db, p: nat)
    requires PassesOk(db.passes, db.redemptions, db.orders, db.tickets)
    requires p < |db.passes| && db.passes[p].terms.Season? && db.passes[p].covered != {}
    ensures RedeemedEvents(db.redemptions, p) <= db.passes[p].covered
    ensures RemainingAdmissions(db, p) == Some(|db.passes[p].covered - RedeemedEvents(db.redemptions, p)|)
  {
    RedeemedWithinCovered(db, p);
    DifferenceSize(db.passes[p].covered, RedeemedEvents(db.redemptions, p));
  }
}

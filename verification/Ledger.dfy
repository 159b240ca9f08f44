/** What an order's total, lines and payments say to each other, and what promo
    counters and checkout sessions count. */
module Ledger {
  import opened Tables
  import opened Schema
  import opened Holds
  import opened Fulfilment
  import opened Passes
  import Carts

  function TicketAmount(): Item -> int { (i: Item) => if i.kind.TicketLine? then i.unit * i.qty else 0 }

  function GiftAmount(): Item -> int { (i: Item) => if i.kind.DonationLine? then i.unit * i.qty else 0 }

  function TicketGross(order: Order): int { Sum(order.items, TicketAmount()) }

  function Gifts(order: Order): int { Sum(order.items, GiftAmount()) }

  /** Money in minus money out. */
  function Signed(): Payment -> int { (p: Payment) => if p.status.Succeeded? then p.amount else -p.amount }

  function NetMoney(order: Order): int { Sum(order.payments, Signed()) }

  // --- invariants -------------------------------------------------------

  /** One payment of the total; a refund adds its exact reversal. */
  ghost predicate PaymentsOk(o: Order) {
    && !o.status.Pending?
    && |o.payments| == (if o.status.Refunded? then 2 else 1)
    && o.payments[0].amount == o.total && o.payments[0].status.Succeeded?
    && (o.status.Refunded? ==> o.payments[1].amount == o.total && o.payments[1].status.Reversed?
                               && o.payments[1].provider == o.payments[0].provider)
  }

  ghost predicate TotalsOk(o: Order) {
    if IsRedemption(o) then
      && o.total == 0 == o.discount && o.promo.None? && LineTotal(o) == TicketGross(o)
      && (forall i :: 0 <= i < |o.items| ==> o.items[i].kind.TicketLine?)
    else if o.perf.Some? then
      && LineTotal(o) == TicketGross(o) + Gifts(o)
      && o.total == Max(TicketGross(o) - o.discount, 0) + Gifts(o)
      && (if o.promo.Some? then 0 <= o.discount < TicketGross(o) else o.discount == 0)
    else
      o.discount == 0 && o.promo.None? && LineTotal(o) == o.total
  }

  ghost predicate OrdersPaid(orders: seq<Order>) {
    forall i :: 0 <= i < |orders| ==> PaymentsOk(orders[i])
  }

  ghost predicate OrdersAdd(orders: seq<Order>) {
    forall i :: 0 <= i < |orders| ==> TotalsOk(orders[i])
  }

  function UsedCode(code: string): Order -> int { (o: Order) => if o.promo == Some(code) then 1 else 0 }

  /** A code's counter is the number of orders it was paid with. */
  ghost predicate PromosOk(promos: map<string, Promo>, orders: seq<Order>, holds: seq<Hold>) {
    && (forall c :: c in promos ==> promos[c].count == Sum(orders, UsedCode(c)))
    && (forall i :: 0 <= i < |orders| && orders[i].promo.Some? ==> orders[i].promo.value in promos)
    && (forall h :: h in holds && h.promo.Some? ==> h.promo.value.code in promos)
  }

  /** unique_stripe_checkout_session_per_org. */
  ghost predicate CheckoutsOk(orders: seq<Order>) {
    forall i, j :: 0 <= i < j < |orders| && orders[i].checkout.Some? ==> orders[i].checkout != orders[j].checkout
  }

  /** A ticket has a scan time exactly once it was used, and keeps it if voided. */
  ghost predicate ScansOk(tickets: seq<Ticket>) {
    forall i :: 0 <= i < |tickets| ==>
      (tickets[i].status.Valid? ==> tickets[i].usedAt.None?) && (tickets[i].status.Used? ==> tickets[i].usedAt.Some?)
  }

  // --- orders -----------------------------------------------------------

  lemma CartLines(cart: Cart)
    ensures Sum(TicketItems(cart), LineAmount()) == Sum(TicketItems(cart), TicketAmount())
    ensures Sum(TicketItems(cart), GiftAmount()) == 0
    ensures Sum(TicketItems(cart), TicketAmount()) ==
            match cart case Ga(qty, unit, _) => unit * qty case Reserved(seats) => Sum(seats, SeatUnit())
  {
    var items := TicketItems(cart);
    SumSame(items, LineAmount(), items, TicketAmount());
    SumZero(items, GiftAmount());
    match cart
    case Ga(qty, unit, _) => SumConst(items, TicketAmount(), unit * qty);
    case Reserved(seats) => SumSame(items, TicketAmount(), seats, SeatUnit());
  }

  /** The order of a cart within its money bounds adds up. */
  lemma SaleOrderAdds(h: Hold, provider: Provider, ref: string, checkout: Option<string>)
    requires Carts.MoneyOk(h) && !provider.PassCredit?
    ensures var o := SaleOrder(h, provider, ref, checkout);
            PaymentsOk(o) && TotalsOk(o) && TicketGross(o) == HoldTotal(h) && Gifts(o) == Donation(h)
  {
    var o := SaleOrder(h, provider, ref, checkout);
    var gift := DonationItems(Donation(h));
    CartLines(h.cart);
    SumConcat(TicketItems(h.cart), gift, LineAmount());
    SumConcat(TicketItems(h.cart), gift, TicketAmount());
    SumConcat(TicketItems(h.cart), gift, GiftAmount());
    if gift != [] {
      SumConst(gift, LineAmount(), Donation(h));
      SumConst(gift, TicketAmount(), 0);
      SumConst(gift, GiftAmount(), Donation(h));
    }
  }

  lemma RedemptionOrderAdds(h: Hold, pass: nat)
    ensures PaymentsOk(RedemptionOrder(h, pass)) && TotalsOk(RedemptionOrder(h, pass))
  {
    CartLines(h.cart);
  }

  lemma PlainOrderAdds(total: int, checkout: Option<string>, kind: ItemKind, provider: Provider, ref: string)
    requires !provider.PassCredit?
    ensures PaymentsOk(PlainOrder(total, checkout, kind, provider, ref))
    ensures TotalsOk(PlainOrder(total, checkout, kind, provider, ref))
  {
    SumConst(PlainOrder(total, checkout, kind, provider, ref).items, LineAmount(), total);
  }

  /** A new status, and the payments that go with it. */
  lemma ReversedOrderAdds(o: Order, after: Order)
    requires PaymentsOk(o) && o.status.Paid?
    requires after == o.(status := Cancelled)
          || exists ref :: after == o.(status := Refunded,
              payments := o.payments + [Payment(o.payments[0].provider, o.total, Reversed, ref)])
    ensures PaymentsOk(after) && (TotalsOk(o) ==> TotalsOk(after))
  {}

  // --- promos -----------------------------------------------------------

  lemma CodeCount(promos: map<string, Promo>, orders: seq<Order>, order: Order,
          applied: Option<AppliedPromo>, c: string)
    requires c in promos && promos[c].count == Sum(orders, UsedCode(c))
    requires order.promo == match applied case Some(p) => Some(p.code) case None => None
    ensures c in Counted(promos, applied) && Counted(promos, applied)[c].count == Sum(orders + [order], UsedCode(c))
  {
    SumAppend(orders, order, UsedCode(c));
  }

  lemma OrderKeepsPromos(promos: map<string, Promo>, orders: seq<Order>, holds: seq<Hold>, left: seq<Hold>,
        order: Order, applied: Option<AppliedPromo>)
    requires PromosOk(promos, orders, holds)
    requires forall h :: h in left ==> h in holds
    requires order.promo == match applied case Some(p) => Some(p.code) case None => None
    requires applied.Some? ==> applied.value.code in promos
    ensures PromosOk(Counted(promos, applied), orders + [order], left)
  {
    hide Sum;
    assert Counted(promos, applied).Keys == promos.Keys;
    forall c | c in Counted(promos, applied)
      ensures Counted(promos, applied)[c].count == Sum(orders + [order], UsedCode(c))
    {
      CodeCount(promos, orders, order, applied, c);
    }
  }

  lemma HeldCodeExists(promos: map<string, Promo>, orders: seq<Order>, holds: seq<Hold>, h: Hold)
    requires PromosOk(promos, orders, holds) && h in holds && h.promo.Some?
    ensures h.promo.value.code in promos
  {}

  lemma StatusKeepsPromos(promos: map<string, Promo>, orders: seq<Order>, holds: seq<Hold>, o: nat, order: Order)
    requires PromosOk(promos, orders, holds) && o < |orders| && order.promo == orders[o].promo
    ensures PromosOk(promos, orders[o := order], holds)
  {
    forall c | c in promos ensures Sum(orders[o := order], UsedCode(c)) == Sum(orders, UsedCode(c)) {
      SumUpdate(orders, UsedCode(c), o, order);
    }
  }

  lemma SavePromoKeepsPromos(promos: map<string, Promo>, orders: seq<Order>, holds: seq<Hold>, code: string,
          promo: Promo)
    requires PromosOk(promos, orders, holds)
    requires promo.count == if code in promos then promos[code].count else 0
    ensures PromosOk(promos[code := promo], orders, holds)
  {
    if code !in promos { SumZero(orders, UsedCode(code)); }
  }

  lemma {:induction false} FindOrderIs(orders: seq<Order>, session: string)
    ensures var o := FindOrder(orders, session); o.Some? ==>
            o.value < |orders| && orders[o.value].checkout == Some(session)
    ensures FindOrder(orders, session).None? ==> forall i :: 0 <= i < |orders| ==> orders[i].checkout != Some(session)
  {
    if orders != [] { FindOrderIs(orders[..|orders| - 1], session); }
  }
}

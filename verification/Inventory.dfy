/** What tickets, orders and allocations keep in step: one live ticket per seat,
    and `sold` counting the seatless ones. */
module Inventory {
  import opened Tables
  import opened Schema
  import opened Holds
  import opened Fulfilment

  // --- counting ---------------------------------------------------------

  function SeatlessOf(o: nat): Ticket -> int {
    (t: Ticket) => if t.order == o && t.seat.None? then 1 else 0
  }

  /** Live seatless tickets of a performance. */
  function LiveGa(perf: nat): Ticket -> int {
    (t: Ticket) => if t.perf == perf && Live(t) && t.seat.None? then 1 else 0
  }

  function GaLine(): Item -> int {
    (i: Item) => if i.kind.TicketLine? && i.seat.None? then i.qty else 0
  }

  function GaQty(order: Order): int { Sum(order.items, GaLine()) }

  /** GA quantity an order holds while it is PAID. */
  function PaidGa(perf: nat): Order -> int {
    (o: Order) => if o.status.Paid? && o.perf == Some(perf) then GaQty(o) else 0
  }

  // --- invariants -------------------------------------------------------

  /** A ticket belongs to an order of its performance, and is live exactly while
      that order is PAID. */
  ghost predicate TicketsOk(orders: seq<Order>, tickets: seq<Ticket>) {
    forall i :: 0 <= i < |tickets| ==>
      && tickets[i].order < |orders|
      && orders[tickets[i].order].perf == Some(tickets[i].perf)
      && (Live(tickets[i]) <==> orders[tickets[i].order].status.Paid?)
  }

  /** An order has as many seatless tickets as its lines say. */
  ghost predicate LinesOk(orders: seq<Order>, tickets: seq<Ticket>) {
    forall o :: 0 <= o < |orders| ==> Sum(tickets, SeatlessOf(o)) == GaQty(orders[o])
  }

  /** `sold` is the number of live seatless tickets, and the GA quantity of the
      PAID orders, and within the capacity. */
  ghost predicate SoldOk(allocs: map<nat, Allocation>, orders: seq<Order>, tickets: seq<Ticket>) {
    && (forall p :: p in allocs ==>
          allocs[p].sold == Sum(tickets, LiveGa(p)) == Sum(orders, PaidGa(p)) <= allocs[p].capacity)
    && (forall i :: 0 <= i < |tickets| && tickets[i].seat.None? ==> tickets[i].perf in allocs)
  }

  /** No two live tickets of a performance share a seat. */
  ghost predicate SeatsOk(tickets: seq<Ticket>) {
    forall i, j :: 0 <= i < j < |tickets| && tickets[i].seat.Some? && Live(tickets[i]) && Live(tickets[j]) ==>
      !(tickets[i].perf == tickets[j].perf && tickets[i].seat == tickets[j].seat)
  }

  ghost predicate InventoryOk(allocs: map<nat, Allocation>, orders: seq<Order>, tickets: seq<Ticket>) {
    TicketsOk(orders, tickets) && LinesOk(orders, tickets) && SoldOk(allocs, orders, tickets) && SeatsOk(tickets)
  }

  ghost predicate SeatsDistinct(cart: Cart) {
    cart.Reserved? ==> forall i, j :: 0 <= i < j < |cart.seats| ==> cart.seats[i].seat != cart.seats[j].seat
  }

  // --- minting ----------------------------------------------------------

  function CartGa(cart: Cart): nat { if cart.Ga? then cart.qty else 0 }

  lemma NewTicketCounts(h: Hold, o: nat)
    ensures |NewTickets(h, o)| == TicketCount(h.cart)
    ensures Sum(NewTickets(h, o), SeatlessOf(o)) == CartGa(h.cart)
    ensures Sum(NewTickets(h, o), LiveGa(h.perf)) == CartGa(h.cart)
  {
    var c := if h.cart.Ga? then 1 else 0;
    SumConst(NewTickets(h, o), SeatlessOf(o), c);
    SumConst(NewTickets(h, o), LiveGa(h.perf), c);
  }

  /** The order's seatless ticket lines are the cart's, whatever else it sells. */
  ghost predicate OrderFor(order: Order, h: Hold) {
    && order.perf == Some(h.perf) && order.status.Paid?
    && |order.items| >= |TicketItems(h.cart)| && order.items[..|TicketItems(h.cart)|] == TicketItems(h.cart)
    && forall i :: |TicketItems(h.cart)| <= i < |order.items| ==> !order.items[i].kind.TicketLine?
  }

  lemma OrderForGaQty(order: Order, h: Hold)
    requires OrderFor(order, h)
    ensures GaQty(order) == CartGa(h.cart)
  {
    var n := |TicketItems(h.cart)|;
    SumConcat(order.items[..n], order.items[n..], GaLine());
    assert order.items[..n] + order.items[n..] == order.items;
    SumZero(order.items[n..], GaLine());
    if h.cart.Ga? {
      SumConst(TicketItems(h.cart), GaLine(), CartGa(h.cart));
    } else {
      SumZero(TicketItems(h.cart), GaLine());
    }
  }

  lemma NoTicketsYet(orders: seq<Order>, tickets: seq<Ticket>, o: nat)
    requires TicketsOk(orders, tickets) && o >= |orders|
    ensures Sum(tickets, SeatlessOf(o)) == 0
  {
    SumZero(tickets, SeatlessOf(o));
  }

  lemma MintLines(orders: seq<Order>, tickets: seq<Ticket>, h: Hold, order: Order)
    requires TicketsOk(orders, tickets) && LinesOk(orders, tickets) && OrderFor(order, h)
    ensures LinesOk(orders + [order], tickets + NewTickets(h, |orders|))
  {
    var n := |orders|;
    var minted := NewTickets(h, n);
    forall o: nat | o < n + 1 ensures Sum(tickets + minted, SeatlessOf(o)) == GaQty((orders + [order])[o]) {
      SumConcat(tickets, minted, SeatlessOf(o));
      if o < n {
        SumZero(minted, SeatlessOf(o));
      } else {
        NoTicketsYet(orders, tickets, n);
        NewTicketCounts(h, n);
        OrderForGaQty(order, h);
      }
    }
  }

  lemma MintedSums(db: Db, h: Hold, order: Order, p: nat)
    requires OrderFor(order, h)
    ensures Sum(db.tickets + NewTickets(h, |db.orders|), LiveGa(p))
            == Sum(db.tickets, LiveGa(p)) + if p == h.perf then CartGa(h.cart) else 0
    ensures Sum(db.orders + [order], PaidGa(p)) == Sum(db.orders, PaidGa(p)) + if p == h.perf then CartGa(h.cart) else 0
  {
    SumConcat(db.tickets, NewTickets(h, |db.orders|), LiveGa(p));
    SumAppend(db.orders, order, PaidGa(p));
    OrderForGaQty(order, h);
    if p == h.perf {
      NewTicketCounts(h, |db.orders|);
    } else {
      SumZero(NewTickets(h, |db.orders|), LiveGa(p));
    }
  }

  lemma MintSold(db: Db, h: Hold, order: Order)
    requires SoldOk(db.allocs, db.orders, db.tickets) && OrderFor(order, h)
    requires InventoryFailure(db, h).None?
    ensures SoldOk(Mint(db, h, order).allocs, db.orders + [order], db.tickets + NewTickets(h, |db.orders|))
  {
    hide Sum, OrderFor, Ticketed;
    forall p | p in db.allocs
      ensures Sum(db.tickets + NewTickets(h, |db.orders|), LiveGa(p))
              == Sum(db.tickets, LiveGa(p)) + if p == h.perf then CartGa(h.cart) else 0
      ensures Sum(db.orders + [order], PaidGa(p))
              == Sum(db.orders, PaidGa(p)) + if p == h.perf then CartGa(h.cart) else 0
    {
      MintedSums(db, h, order, p);
    }
  }

  lemma MintSeats(db: Db, h: Hold, o: nat)
    requires SeatsOk(db.tickets) && SeatsDistinct(h.cart) && InventoryFailure(db, h).None?
    ensures SeatsOk(db.tickets + NewTickets(h, o))
  {
    var minted, n := NewTickets(h, o), |db.tickets|;
    var all := db.tickets + minted;
    forall i, j | 0 <= i < j < n + |minted| && all[i].seat.Some? && Live(all[i]) && Live(all[j])
      ensures !(all[i].perf == all[j].perf && all[i].seat == all[j].seat)
    {
      if i < n <= j {
        var t := minted[j - n];
        if t.seat.Some? {
          assert h.cart.seats[j - n] in h.cart.seats && t.seat.value in SeatIds(h.cart);
          assert !Ticketed(db.tickets, h.perf, t.seat.value);
          assert db.tickets[i] in db.tickets;
        }
      }
    }
  }

  lemma MintKeepsInventory(db: Db, h: Hold, order: Order)
    requires InventoryOk(db.allocs, db.orders, db.tickets) && OrderFor(order, h)
    requires InventoryFailure(db, h).None? && SeatsDistinct(h.cart)
    ensures var after := Mint(db, h, order); InventoryOk(after.allocs, after.orders, after.tickets)
  {
    MintLines(db.orders, db.tickets, h, order);
    MintSold(db, h, order);
    MintSeats(db, h, |db.orders|);
  }

  /** An order without tickets: a gift or a pass. */
  lemma PlainKeepsInventory(allocs: map<nat, Allocation>, orders: seq<Order>, tickets: seq<Ticket>, order: Order)
    requires InventoryOk(allocs, orders, tickets)
    requires forall i :: 0 <= i < |order.items| ==> !order.items[i].kind.TicketLine?
    ensures InventoryOk(allocs, orders + [order], tickets)
  {
    SumZero(order.items, GaLine());
    NoTicketsYet(orders, tickets, |orders|);
    forall p | p in allocs ensures Sum(orders + [order], PaidGa(p)) == Sum(orders, PaidGa(p)) {
      SumAppend(orders, order, PaidGa(p));
    }
  }

  // --- reversing --------------------------------------------------------

  /** A PAID order frees exactly the seatless tickets its lines sold. */
  lemma FreedIsSold(orders: seq<Order>, tickets: seq<Ticket>, o: nat)
    requires TicketsOk(orders, tickets) && LinesOk(orders, tickets)
    requires o < |orders| && orders[o].status.Paid?
    ensures Sum(tickets, LiveGaOf(o)) == GaQty(orders[o])
  {
    SumSame(tickets, LiveGaOf(o), tickets, SeatlessOf(o));
  }

  lemma VoidedSums(orders: seq<Order>, tickets: seq<Ticket>, o: nat, p: nat)
    requires TicketsOk(orders, tickets) && o < |orders|
    ensures Sum(tickets, LiveGa(p)) ==
            Sum(MapRows(tickets, Voided(o)), LiveGa(p))
                + if orders[o].perf == Some(p) then Sum(tickets, LiveGaOf(o)) else 0
  {
    var after := MapRows(tickets, Voided(o));
    if orders[o].perf == Some(p) {
      SumSplit(tickets, LiveGa(p), after, LiveGa(p), tickets, LiveGaOf(o));
    } else {
      SumSame(tickets, LiveGa(p), after, LiveGa(p));
    }
  }

  /** Voiding never frees more than was sold: the floor at zero is never met. */
  lemma FloorNeverClamps(db: Db, o: nat)
    requires InventoryOk(db.allocs, db.orders, db.tickets) && o < |db.orders|
    ensures db.orders[o].perf.Some? && db.orders[o].perf.value in db.allocs ==>
            0 <= Sum(db.tickets, LiveGaOf(o)) <= db.allocs[db.orders[o].perf.value].sold
    ensures db.orders[o].perf.None? || db.orders[o].perf.value !in db.allocs ==> Sum(db.tickets, LiveGaOf(o)) == 0
  {
    SumNonNegative(db.tickets, LiveGaOf(o));
    if db.orders[o].perf.Some? && db.orders[o].perf.value in db.allocs {
      SumLeq(db.tickets, LiveGaOf(o), db.tickets, LiveGa(db.orders[o].perf.value));
    } else {
      SumZero(db.tickets, LiveGaOf(o));
    }
  }

  /** A PAID order leaving that status, on each side of the `sold` equation. */
  lemma ReversedSums(orders: seq<Order>, tickets: seq<Ticket>, o: nat, order: Order, p: nat)
    requires TicketsOk(orders, tickets) && LinesOk(orders, tickets)
    requires o < |orders| && orders[o].status.Paid? && !order.status.Paid?
    ensures Sum(MapRows(tickets, Voided(o)), LiveGa(p)) - Sum(tickets, LiveGa(p))
            == Sum(orders[o := order], PaidGa(p)) - Sum(orders, PaidGa(p))
            == if orders[o].perf == Some(p) then -Sum(tickets, LiveGaOf(o)) else 0
  {
    VoidedSums(orders, tickets, o, p);
    SumUpdate(orders, PaidGa(p), o, order);
    FreedIsSold(orders, tickets, o);
  }

  lemma ReversedLines(orders: seq<Order>, tickets: seq<Ticket>, o: nat, order: Order)
    requires LinesOk(orders, tickets) && o < |orders| && order.items == orders[o].items
    ensures LinesOk(orders[o := order], MapRows(tickets, Voided(o)))
  {
    var after := MapRows(tickets, Voided(o));
    forall q: nat | q < |orders| ensures Sum(after, SeatlessOf(q)) == GaQty(orders[o := order][q]) {
      SumSame(after, SeatlessOf(q), tickets, SeatlessOf(q));
    }
  }

  lemma ReversedTickets(orders: seq<Order>, tickets: seq<Ticket>, o: nat, order: Order)
    requires TicketsOk(orders, tickets) && SeatsOk(tickets)
    requires o < |orders| && order.perf == orders[o].perf && orders[o].status.Paid? && !order.status.Paid?
    ensures TicketsOk(orders[o := order], MapRows(tickets, Voided(o))) && SeatsOk(MapRows(tickets, Voided(o)))
  {}

  lemma ReversedSold(db: Db, o: nat, order: Order)
    requires InventoryOk(db.allocs, db.orders, db.tickets)
    requires o < |db.orders| && db.orders[o].status.Paid? && !order.status.Paid?
    ensures SoldOk(VoidOrder(db, o).allocs, db.orders[o := order], MapRows(db.tickets, Voided(o)))
  {
    var after := VoidOrder(db, o);
    FloorNeverClamps(db, o);
    forall p | p in after.allocs
      ensures after.allocs[p].sold == Sum(after.tickets, LiveGa(p))
              == Sum(db.orders[o := order], PaidGa(p)) <= after.allocs[p].capacity
    {
      ReversedSums(db.orders, db.tickets, o, order, p);
    }
  }

  lemma ReverseKeepsInventory(db: Db, o: nat, status: OrderStatus)
    requires InventoryOk(db.allocs, db.orders, db.tickets)
    requires o < |db.orders| && db.orders[o].status.Paid? && !status.Paid?
    ensures var after := Reverse(db, o, status); InventoryOk(after.allocs, after.orders, after.tickets)
  {
    var order := db.orders[o].(status := status);
    ReversedTickets(db.orders, db.tickets, o, order);
    ReversedLines(db.orders, db.tickets, o, order);
    ReversedSold(db, o, order);
  }

  /** Rewriting an order's payments changes nothing here. */
  lemma PaymentsKeepInventory(allocs: map<nat, Allocation>, orders: seq<Order>, tickets: seq<Ticket>, o: nat,
          order: Order)
    requires InventoryOk(allocs, orders, tickets) && o < |orders|
    requires order.perf == orders[o].perf && order.status == orders[o].status && order.items == orders[o].items
    ensures InventoryOk(allocs, orders[o := order], tickets)
  {
    forall p | p in allocs ensures Sum(orders[o := order], PaidGa(p)) == Sum(orders, PaidGa(p)) {
      SumUpdate(orders, PaidGa(p), o, order);
    }
  }

  // --- scanning and capacity --------------------------------------------

  lemma ScanKeepsInventory(allocs: map<nat, Allocation>, orders: seq<Order>, tickets: seq<Ticket>, k: nat, t: Ticket)
    requires InventoryOk(allocs, orders, tickets) && k < |tickets|
    requires t.order == tickets[k].order && t.perf == tickets[k].perf && t.seat == tickets[k].seat
    requires (Live(t) <==> Live(tickets[k]))
    ensures InventoryOk(allocs, orders, tickets[k := t])
  {
    forall p | p in allocs ensures Sum(tickets[k := t], LiveGa(p)) == Sum(tickets, LiveGa(p)) {
      SumUpdate(tickets, LiveGa(p), k, t);
    }
    forall o: nat | o < |orders| ensures Sum(tickets[k := t], SeatlessOf(o)) == Sum(tickets, SeatlessOf(o)) {
      SumUpdate(tickets, SeatlessOf(o), k, t);
    }
  }

  /** A capacity edit the form accepts. */
  lemma CapacityKeepsInventory(allocs: map<nat, Allocation>, orders: seq<Order>, tickets: seq<Ticket>, p: nat, c: nat)
    requires InventoryOk(allocs, orders, tickets) && p in allocs && allocs[p].sold <= c
    ensures InventoryOk(allocs[p := allocs[p].(capacity := c)], orders, tickets)
  {}

  /** A performance without an allocation has sold nothing, so it can get one. */
  lemma NewAllocation(allocs: map<nat, Allocation>, orders: seq<Order>, tickets: seq<Ticket>, p: nat, c: nat)
    requires InventoryOk(allocs, orders, tickets) && p !in allocs
    ensures InventoryOk(allocs[p := Allocation(c, 0)], orders, tickets)
  {
    SumZero(tickets, LiveGa(p));
    forall o: nat | o < |orders| ensures PaidGa(p)(orders[o]) == 0 {
      if orders[o].perf == Some(p) { SumZero(tickets, SeatlessOf(o)); }
    }
    SumZero(orders, PaidGa(p));
  }
}

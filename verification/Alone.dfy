/** The two grains agree: a seat transaction of `SeatLocks` that nobody interrupts does what
    its action does in the transition system. */
module Alone {
  import opened Tables
  import opened Schema
  import System
  import opened SeatLocks
  import Holds
  import Fulfilment
  import Carts
  import Inventory
  import Passes
  import Ledger
  import Consistency
  import Answers
  import Availability
  import Effects
  import Charges
  import Pricing

  // --- two pictures of one box office -----------------------------------

  /** A hold as seat-row locking sees it. */
  function Row(): Hold -> SeatHold {
    (h: Hold) => SeatHold(h.id, h.perf, h.session, Holds.SeatIds(h.cart), h.expiresAt)
  }

  /** The same clock and holds, and the same seats ticketed. */
  ghost predicate Matches(db: Db, s: State) {
    && s.now == db.now && s.nextHold == db.nextHold && s.holds == MapRows(db.holds, Row())
    && forall perf, seat: nat :: Ticketed(s.tickets, perf, seat) <==> Holds.Ticketed(db.tickets, perf, seat)
  }

  lemma {:induction false} FilterMapped<T, U>(rows: seq<T>, f: T -> U, keep: T -> bool, kept: U -> bool)
    requires forall i :: 0 <= i < |rows| ==> keep(rows[i]) == kept(f(rows[i]))
    ensures MapRows(Filter(rows, keep), f) == Filter(MapRows(rows, f), kept)
  {
    if rows != [] {
      var init := rows[..|rows| - 1];
      FilterMapped(init, f, keep, kept);
      assert MapRows(rows, f)[..|rows| - 1] == MapRows(init, f);
    }
  }

  lemma SameHeldByOther(db: Db, s: State, session: string, seat: nat)
    requires Matches(db, s)
    ensures HeldByOther(s.holds, s.now, session, seat) <==> Holds.HeldByOther(db.holds, db.now, session, seat)
  {
    hide Holds.SeatIds, Ticketed, Holds.Ticketed;
    if HeldByOther(s.holds, s.now, session, seat) {
      var r :| r in s.holds && r.expiresAt > s.now && r.session != session && seat in r.seats;
      var i :| 0 <= i < |s.holds| && s.holds[i] == r;
      assert db.holds[i] in db.holds;
    }
    if Holds.HeldByOther(db.holds, db.now, session, seat) {
      var h :| h in db.holds && Holds.Unexpired(h, db.now) && h.session != session && seat in Holds.SeatIds(h.cart);
      var i :| 0 <= i < |db.holds| && db.holds[i] == h;
      assert s.holds[i] in s.holds;
    }
  }

  // --- a transaction alone ----------------------------------------------

  /** The transaction has written what it writes if its seats are free, and nothing otherwise. */
  predicate EndsAs(s: State, txn: Txn, after: State) {
    var done := if SeatsFree(s, txn) then Written(s, txn) else s;
    after.now == s.now && after.tickets == done.tickets && after.holds == done.holds && after.nextHold == done.nextHold
  }

  /** Locks and phases do not matter to what a transaction finds and writes. */
  lemma SameEnd(s: State, u: State, txn: Txn, locked: Txn, after: State)
    requires u == s.(txns := u.txns, locks := u.locks) && locked == txn.(phase := locked.phase)
    requires EndsAs(u, locked, after)
    ensures EndsAs(s, txn, after)
  {
    assert SeatsFree(u, locked) == SeatsFree(s, txn) by { hide Ticketed, HeldByOther; }
    hide SeatsFree, Filter;
  }

  lemma FinishesAlone(s: State, p: nat)
    requires p < |s.txns| && s.txns[p].phase == Locking(|s.txns[p].seats|)
    ensures var txn := s.txns[p]; var after := Take(Take(s, Recheck(p)), Commit(p));
            EndsAs(s, txn, after) && after.locks == (map x | x in s.locks && s.locks[x] != p :: s.locks[x])
  {
    hide SeatsFree, Filter;
  }

  /** From its first lock to its end, whoever owns other rows meanwhile. */
  lemma RunsAlone(s: State, p: nat)
    requires p < |s.txns| && s.txns[p].phase == Locking(0) && Ascending(s.txns[p].seats)
    requires forall x :: x in s.txns[p].seats ==> x !in s.locks
    requires forall x :: x in s.locks ==> s.locks[x] != p
    ensures var txn := s.txns[p]; var after := Run(s, Paying(p, |txn.seats|));
            EndsAs(s, txn, after) && after.locks == s.locks
  {
    hide Take, Run, SeatsFree, Filter, Ascending, EndsAs;
    var n, txn := |s.txns[p].seats|, s.txns[p];
    LocksAll(s, p, n);
    var locked := Run(s, Locks(p, n));
    RunTwo(s, Locks(p, n), Recheck(p), Commit(p));
    FinishesAlone(locked, p);
    hide Locks;
    assert txn.seats[..n] == txn.seats;
    SameEnd(s, locked, txn, locked.txns[p], Run(s, Paying(p, n)));
    assert (map x | x in locked.locks && locked.locks[x] != p :: locked.locks[x]) == s.locks;
  }

  lemma RunTwo(s: State, steps: seq<Step>, a: Step, b: Step)
    ensures Run(s, steps + [a] + [b]) == Take(Take(Run(s, steps), a), b)
  {
    hide Take;
    assert (steps + [a] + [b])[..|steps| + 1] == steps + [a] && (steps + [a])[..|steps|] == steps;
  }

  /** A whole transaction: its first step, then the locks, the re-check and the commit. */
  function Whole(first: Step, p: nat, n: nat): seq<Step> { [first] + Paying(p, n) }

  lemma {:induction false} BeginsAlone(s: State, first: Step, txn: Txn)
    requires Take(s, first) == s.(txns := s.txns + [txn]) && txn.phase == Locking(0) && Ascending(txn.seats)
    requires LocksOk(s.txns, s.locks) && forall x :: x in txn.seats ==> x !in s.locks
    ensures var after := Run(s, Whole(first, |s.txns|, |txn.seats|));
            EndsAs(s, txn, after) && after.locks == s.locks
  {
    hide Take, Run, SeatsFree, Ascending, EndsAs, Paying, Filter, LocksOk;
    var p, begun := |s.txns|, Take(s, first);
    NewOwnsNothing(s);
    RunsAlone(begun, p);
    RunConcat(s, [first], Paying(p, |txn.seats|));
    RunFirst(s, first);
    SameEnd(s, begun, txn, txn, Run(begun, Paying(p, |txn.seats|)));
  }

  lemma NewOwnsNothing(s: State)
    requires LocksOk(s.txns, s.locks)
    ensures forall x :: x in s.locks ==> s.locks[x] < |s.txns|
  {}

  lemma RunFirst(s: State, first: Step)
    ensures Run(s, [first]) == Take(s, first)
  {
    hide Take;
    assert [first][..0] == [];
  }

  // --- set_reserved_hold ------------------------------------------------

  lemma SelectFreeIff(db: Db, s: State, perf: nat, session: string, seats: seq<nat>)
    requires Matches(db, s)
    ensures SeatsFree(s, Txn(Select(perf, session), seats, Locking(0))) <==>
            forall id :: id in SeatSet(seats) ==>
              !Answers.SeatGone(db.tickets, perf, id) && !Availability.HeldAnywhere(db, session, id)
  {
    forall id: nat
      ensures Ticketed(s.tickets, perf, id) <==> Answers.SeatGone(db.tickets, perf, id)
      ensures HeldByOther(s.holds, s.now, session, id) <==> Availability.HeldAnywhere(db, session, id)
    {
      Answers.SeatGoneIff(db.tickets, perf, id);
      SameHeldByOther(db, s, session, id);
      Availability.HeldIff(db, session, id);
    }
    hide Ticketed, HeldByOther, Answers.SeatGone, Availability.HeldAnywhere, Matches;
  }

  /** Selecting seats that are on the chart, priced and not blocked: locked, re-checked and
      written alone, it ends as the one transaction of the system does, whether that
      accepts the selection or not, and leaves no lock. */
  lemma SelectIsAtomic(db: Db, s: State, perf: nat, session: string, seats: seq<nat>)
    requires Consistency.Consistent(db) && Matches(db, s) && LocksOk(s.txns, s.locks)
    requires perf in db.perfs && seats != [] && Ascending(seats) && forall x :: x in seats ==> x !in s.locks
    requires var checks := Availability.SeatChecks(db, perf, session, SeatSet(seats)); !checks[1].0 && !checks[3].0
    requires forall x :: x in seats ==> (perf, x) !in db.blocks
    ensures var after := Run(s, Whole(BeginSelect(perf, session, seats), |s.txns|, |seats|));
            && Matches(System.Next(db, System.SetReservedHold(perf, session, SeatSet(seats))), after)
            && after.locks == s.locks
  {
    hide Consistency.Consistent, Run, SeatsFree, Ascending, LocksOk, Availability.SeatChecks, System.Next;
    hide System.Attempt, Matches, SeatSet, EndsAs;
    var ids, txn := SeatSet(seats), Txn(Select(perf, session), seats, Locking(0));
    BeginsAlone(s, BeginSelect(perf, session, seats), txn);
    SameSeats(seats);
    AcceptedIffFree(db, s, perf, session, seats);
    var next := System.Next(db, System.SetReservedHold(perf, session, ids));
    if SeatsFree(s, txn) {
      SelectedRows(db, s, perf, session, seats);
    } else {
      RefusedIs(db, perf, session, ids);
    }
    EndMatches(db, next, s, txn, Run(s, Whole(BeginSelect(perf, session, seats), |s.txns|, |seats|)));
  }

  lemma SameSeats(seats: seq<nat>)
    ensures forall x :: x in SeatSet(seats) <==> x in seats
    ensures seats != [] ==> SeatSet(seats) != {}
  {
    if seats != [] { assert seats[0] in SeatSet(seats); }
  }

  lemma RefusedIs(db: Db, perf: nat, session: string, ids: set<nat>)
    requires System.Attempt(db, System.SetReservedHold(perf, session, ids)).Err?
    ensures System.Next(db, System.SetReservedHold(perf, session, ids)) == db
  {
    hide System.Attempt;
  }

  lemma AcceptedIffFree(db: Db, s: State, perf: nat, session: string, seats: seq<nat>)
    requires Matches(db, s) && perf in db.perfs && SeatSet(seats) != {}
    requires var checks := Availability.SeatChecks(db, perf, session, SeatSet(seats)); !checks[1].0 && !checks[3].0
    requires forall x :: x in SeatSet(seats) ==> (perf, x) !in db.blocks
    ensures System.Attempt(db, System.SetReservedHold(perf, session, SeatSet(seats))).Ok? <==>
            SeatsFree(s, Txn(Select(perf, session), seats, Locking(0)))
  {
    var ids := SeatSet(seats);
    SelectFreeIff(db, s, perf, session, seats);
    Availability.SeatsAnswer(db, perf, session, ids);
    hide System.Attempt, SeatsFree, Answers.SeatGone, Availability.HeldAnywhere, Matches, SeatSet, Pricing.Unpriced;
    hide Availability.OnChart;
    var checks := Availability.SeatChecks(db, perf, session, ids);
    assert !checks[0].0 && !checks[1].0 && !checks[3].0;
    assert checks[2].0 <==> !SeatsFree(s, Txn(Select(perf, session), seats, Locking(0)));
  }

  lemma SelectedRows(db: Db, s: State, perf: nat, session: string, seats: seq<nat>)
    requires Consistency.Consistent(db) && Matches(db, s) && SeatSet(seats) != {}
    requires System.Attempt(db, System.SetReservedHold(perf, session, SeatSet(seats))).Ok?
    ensures var txn := Txn(Select(perf, session), seats, Locking(0));
            Matches(System.Next(db, System.SetReservedHold(perf, session, SeatSet(seats))), Written(s, txn))
  {
    var ids := SeatSet(seats);
    VenueIsOk(db);
    hide Consistency.Consistent, Pricing.VenueOk, SeatSet, Holds.SetReservedHold, Matches;
    Carts.ReservedCartIsFree(db, perf, session, ids);
    Effects.CartIsAsked(db, perf, session, ids);
    ReplacedMatches(db, s, perf, session, seats, Carts.ReservedCart(db, perf, ids));
  }

  lemma ReplacedMatches(db: Db, s: State, perf: nat, session: string, seats: seq<nat>, cart: Cart)
    requires Matches(db, s) && Holds.SeatIds(cart) == SeatSet(seats)
    ensures Matches(Holds.Replaced(db, perf, session, cart), Written(s, Txn(Select(perf, session), seats, Locking(0))))
  {
    FilterMapped(db.holds, Row(), Holds.NotOf(perf, session), OtherThan(perf, session));
    hide Ticketed, Holds.Ticketed, Filter, SeatSet, Holds.SeatIds;
    var h := Hold(db.nextHold, perf, session, db.now + 600, cart, None, None);
    MapAppend(Holds.Cleared(db.holds, perf, session), h);
  }

  lemma MapAppend(holds: seq<Hold>, h: Hold)
    ensures MapRows(holds + [h], Row()) == MapRows(holds, Row()) + [Row()(h)]
  {}

  lemma VenueIsOk(db: Db)
    requires Consistency.Consistent(db)
    ensures Pricing.VenueOk(db.book)
  {
    hide Inventory.InventoryOk, Passes.PassesOk, Ledger.PromosOk, Pricing.VenueOk;
  }

  // --- _fulfill_reserved ------------------------------------------------

  lemma {:induction false} HoldPerfIs(holds: seq<SeatHold>, h: SeatHold)
    requires h in holds && forall x :: x in holds && x.id == h.id ==> x == h
    ensures HoldPerf(holds, h.id) == h.perf
  {
    if holds[0].id != h.id { HoldPerfIs(holds[1..], h); }
  }

  lemma OneRow(db: Db, s: State, h: Hold)
    requires Consistency.Consistent(db) && Matches(db, s) && h in db.holds
    ensures Row()(h) in s.holds && forall x :: x in s.holds && x.id == h.id ==> x == Row()(h)
  {
    var k :| 0 <= k < |db.holds| && db.holds[k] == h;
    assert s.holds[k] in s.holds;
    hide Holds.SeatIds, Consistency.Consistent;
    forall x | x in s.holds && x.id == h.id ensures x == Row()(h) {
      var i :| 0 <= i < |s.holds| && s.holds[i] == x;
      assert db.holds[i] in db.holds;
      Availability.SameId(db, db.holds[i], h);
    }
  }

  /** Whether a payment may begin is whether its hold has not run out. */
  lemma BeginsIff(db: Db, s: State, h: Hold, seats: seq<nat>)
    requires Consistency.Consistent(db) && Matches(db, s) && h in db.holds
    requires Ascending(seats) && SeatSet(seats) == Holds.SeatIds(h.cart)
    ensures HoldPerf(s.holds, h.id) == h.perf
    ensures Enabled(s, BeginFulfil(h.id, seats)) <==> h.expiresAt > db.now
  {
    OneRow(db, s, h);
    hide Consistency.Consistent, Holds.SeatIds, SeatSet, Ascending;
    HoldPerfIs(s.holds, Row()(h));
  }

  lemma PayFreeIff(db: Db, s: State, h: Hold, seats: seq<nat>)
    requires Matches(db, s) && h.cart.Reserved? && SeatSet(seats) == Holds.SeatIds(h.cart)
    ensures SeatsFree(s, Txn(Fulfil(h.perf, h.id), seats, Locking(0))) <==> Fulfilment.InventoryFailure(db, h).None?
  {
    hide Ticketed, Holds.Ticketed, Holds.SeatIds;
    assert forall x :: x in seats <==> x in SeatSet(seats);
  }

  /** Paying for a hold of seats: begun if the hold has not run out, locked, re-checked and
      written alone, it ends as the one transaction of the system does, and leaves no lock. */
  lemma PayIsAtomic(db: Db, s: State, h: Hold, seats: seq<nat>, ref: string)
    requires Consistency.Consistent(db) && Matches(db, s) && LocksOk(s.txns, s.locks)
    requires h in db.holds && h.cart.Reserved? && Ascending(seats) && SeatSet(seats) == Holds.SeatIds(h.cart)
    requires forall x :: x in seats ==> x !in s.locks
    ensures var after := Run(s, Whole(BeginFulfil(h.id, seats), |s.txns|, |seats|));
            Matches(System.Next(db, System.TestCheckout(h.id, ref)), after) && after.locks == s.locks
  {
    hide Consistency.Consistent, Run, SeatsFree, LocksOk, Ascending, SeatSet, System.Next, Matches;
    var first, txn := BeginFulfil(h.id, seats), Txn(Fulfil(h.perf, h.id), seats, Locking(0));
    BeginsIff(db, s, h, seats);
    PayFreeIff(db, s, h, seats);
    PaidIs(db, h, ref);
    if h.expiresAt > db.now {
      BeginsAlone(s, first, txn);
      if SeatsFree(s, txn) { PaidRows(db, s, h, seats, ref); }
      EndMatches(db, System.Next(db, System.TestCheckout(h.id, ref)), s, txn,
                 Run(s, Whole(first, |s.txns|, |seats|)));
    } else {
      NothingBegins(s, first, |seats|);
    }
  }

  lemma EndMatches(db: Db, next: Db, s: State, txn: Txn, after: State)
    requires Matches(db, s) && EndsAs(s, txn, after)
    requires if SeatsFree(s, txn) then Matches(next, Written(s, txn)) else next == db
    ensures Matches(next, after)
  {
    hide SeatsFree, Filter;
  }

  lemma PaidIs(db: Db, h: Hold, ref: string)
    requires Consistency.Consistent(db) && h in db.holds
    ensures var after := System.Next(db, System.TestCheckout(h.id, ref));
            if h.expiresAt > db.now && Fulfilment.InventoryFailure(db, h).None? then
              after.now == db.now && after.nextHold == db.nextHold
              && after.holds == Filter(db.holds, Fulfilment.NotRow(h.id))
              && after.tickets == db.tickets + Fulfilment.NewTickets(h, |db.orders|)
            else after == db
  {
    Charges.UniqueHold(db, h);
    hide Consistency.Consistent, Holds.FindHold, Filter, Fulfilment.NewTickets, Fulfilment.InventoryFailure;
    hide Fulfilment.SaleOrder;
  }

  lemma PaidRows(db: Db, s: State, h: Hold, seats: seq<nat>, ref: string)
    requires Consistency.Consistent(db) && Matches(db, s) && h in db.holds
    requires h.cart.Reserved? && SeatSet(seats) == Holds.SeatIds(h.cart)
    requires h.expiresAt > db.now && Fulfilment.InventoryFailure(db, h).None?
    ensures var txn := Txn(Fulfil(h.perf, h.id), seats, Locking(0));
            Matches(System.Next(db, System.TestCheckout(h.id, ref)), Written(s, txn))
  {
    PaidIs(db, h, ref);
    IssuedIs(s.tickets, seats, h.perf);
    Effects.SaleTickets(db, h);
    FilterMapped(db.holds, Row(), Fulfilment.NotRow(h.id), OtherId(h.id));
    hide Consistency.Consistent, System.Next, Ticketed, Holds.Ticketed, Filter, Holds.SeatIds;
    hide Fulfilment.NewTickets, Fulfilment.InventoryFailure;
    assert forall x :: x in seats <==> x in SeatSet(seats);
  }

  lemma {:induction false} NothingBegins(s: State, first: Step, n: nat)
    requires first.BeginFulfil? && !Enabled(s, first)
    ensures Run(s, Whole(first, |s.txns|, n)) == s
  {
    hide Take;
    RunConcat(s, [first], Paying(|s.txns|, n));
    RunFirst(s, first);
    assert Take(s, first) == s by { NotTaken(s, first); }
    RunTwo(s, Locks(|s.txns|, n), Recheck(|s.txns|), Commit(|s.txns|));
    NoLocksTaken(s, n);
    NotTaken(s, Recheck(|s.txns|));
    NotTaken(s, Commit(|s.txns|));
  }

  lemma NotTaken(s: State, step: Step)
    requires !Enabled(s, step)
    ensures Take(s, step) == s
  {}

  lemma {:induction false} NoLocksTaken(s: State, n: nat)
    ensures Run(s, Locks(|s.txns|, n)) == s
  {
    if n > 0 {
      assert Locks(|s.txns|, n)[..n - 1] == Locks(|s.txns|, n - 1);
      NoLocksTaken(s, n - 1);
    }
  }
}

/** Promo caps below the grain of transactions: a delivery that read a hold with a
    code counts a use of it even if the hold was given up since. */
module StaleCodes {
  import opened Tables
  import opened Schema
  import opened Holds
  import opened Fulfilment
  import opened Webhooks
  import opened PromoCaps
  import System
  import Inventory
  import Passes
  import Ledger
  import Consistency
  import StaleReads

  // --- one commit -------------------------------------------------------

  predicate Carries(h: Hold, code: string) { h.promo.Some? && h.promo.value.code == code }

  /** Deleting a hold by its id takes just its weight off a sum. */
  lemma {:induction false} SumWithout(holds: seq<Hold>, id: nat, w: Hold -> int)
    requires forall i, j :: 0 <= i < j < |holds| ==> holds[i].id != holds[j].id
    ensures Sum(Filter(holds, NotRow(id)), w) ==
            Sum(holds, w) - match FindHold(holds, id) case Some(h) => w(h) case None => 0
  {
    if holds != [] {
      var init, last := holds[..|holds| - 1], holds[|holds| - 1];
      SumWithout(init, id, w);
      SumAppend(Filter(init, NotRow(id)), last, w);
      if last.id == id { FilterKeepsAll(init, NotRow(id)); }
    }
  }

  lemma IdsDistinct(db: Db)
    requires Consistency.Sound(db)
    ensures forall i, j :: 0 <= i < j < |db.holds| ==> db.holds[i].id != db.holds[j].id
  {
    hide Inventory.InventoryOk, Passes.PassesOk, Ledger.PromosOk;
  }

  /** The hold of a row that still stands, and still carries the code. */
  predicate StillCarries(db: Db, row: Hold, code: string) {
    FindHold(db.holds, row.id).Some? && Carries(FindHold(db.holds, row.id).value, code)
  }

  /** A delivery counts the code its row carried. The uses made and still possible grow
      with it exactly when its row carried the code and its hold no longer does; they
      shrink exactly when it is the other way round. */
  lemma StaleUse(db: Db, d: Delivery, row: Hold, code: string)
    requires Consistency.Sound(db) && StaleReads.Known(db, row) && code in db.promos
    requires Outcomes(db, d, HoldRow(row)).1.Created?
    ensures var after := Outcomes(db, d, HoldRow(row)).0;
            && code in after.promos && after.promos[code].cap == db.promos[code].cap
            && after.promos[code].count == db.promos[code].count + (if Carries(row, code) then 1 else 0)
            && Potential(after, code) == Potential(db, code) + (if Carries(row, code) then 1 else 0)
                                         - (if StillCarries(db, row, code) then 1 else 0)
  {
    StaleReads.CreatedIsMint(db, d, row);
    IdsDistinct(db);
    hide Consistency.Sound;
    SumWithout(db.holds, row.id, Carrying(code, db.now));
    if FindHold(db.holds, row.id).Some? { StaleReads.StandingFound(db, row); }
    hide StaleReads.Known, Outcomes, Sum, Filter, FindHold, SaleOrder, InventoryFailure, NewTickets, TakeFrom;
  }

  // --- every interleaving -----------------------------------------------

  /** Deliveries that have read a hold with the code and have not committed. */
  function InMemory(code: string): Delivery -> int {
    (d: Delivery) => if d.phase.Looked? && d.phase.read.HoldRow? && Carries(d.phase.read.row, code) then 1 else 0
  }

  /** Uses made, and those that holds and deliveries can still make. */
  function WorldPotential(w: World, code: string): int
    requires code in w.db.promos
  {
    Potential(w.db, code) + Sum(w.deliveries, InMemory(code))
  }

  /** A step at which a delivery reads a hold with the code. */
  predicate ReadsCode(w: World, step: Step, code: string) {
    step.Look? && step.delivery < |w.deliveries| && w.deliveries[step.delivery].phase.Arrived?
    && InMemory(code)(w.deliveries[step.delivery].(phase := AfterLook(w.db, w.deliveries[step.delivery]))) == 1
  }

  function CodeReads(w: World, steps: seq<Step>, code: string): nat {
    if steps == [] then 0
    else
      CodeReads(w, steps[..|steps| - 1], code)
      + if ReadsCode(Run(w, steps[..|steps| - 1]), steps[|steps| - 1], code) then 1 else 0
  }

  predicate Lifts(w: World, step: Step, code: string) { step.Other? && RaisesCap(w.db, step.action, code) }

  lemma FinishPotential(w: World, i: nat, code: string)
    requires Consistency.Sound(w.db) && StaleReads.AllKnown(w) && AtCap(w.db, code)
    requires i < |w.deliveries| && w.deliveries[i].phase.Looked?
    ensures AtCap(Take(w, Finish(i)).db, code)
    ensures WorldPotential(Take(w, Finish(i)), code) <= WorldPotential(w, code)
  {
    var d := w.deliveries[i];
    var (db, outcome) := Outcomes(w.db, d, d.phase.read);
    var done := d.(phase := Answered(outcome));
    SumUpdate(w.deliveries, InMemory(code), i, done);
    if !outcome.Created? {
      FailureChangesNothing(w.db, d, d.phase.read);
    } else if d.phase.read.HoldRow? {
      StaleReads.KnownAt(w, i);
      StaleUse(w.db, d, d.phase.read.row, code);
    } else {
      PlainPotential(w.db, d, d.phase.read, code);
    }
    hide Consistency.Sound, StaleReads.AllKnown, Outcomes, Sum, Potential;
  }

  lemma PlainPotential(db: Db, d: Delivery, read: Read, code: string)
    requires !read.HoldRow? && code in db.promos
    ensures var after := Outcomes(db, d, read).0;
            after.promos == db.promos && Potential(after, code) == Potential(db, code)
  {
    hide FindOrder, Sum;
  }

  lemma LookPotential(w: World, i: nat, code: string)
    requires code in w.db.promos && i < |w.deliveries| && w.deliveries[i].phase.Arrived?
    ensures WorldPotential(Take(w, Look(i)), code)
            == WorldPotential(w, code) + if ReadsCode(w, Look(i), code) then 1 else 0
  {
    var d := w.deliveries[i];
    SumUpdate(w.deliveries, InMemory(code), i, d.(phase := AfterLook(w.db, d)));
    hide Sum, AfterLook, Potential;
  }

  lemma ArrivePotential(w: World, session: string, what: Checkout, ref: string, code: string)
    requires code in w.db.promos
    ensures WorldPotential(Take(w, Arrive(session, what, ref)), code) == WorldPotential(w, code)
  {
    SumAppend(w.deliveries, Delivery(session, what, ref, Arrived), InMemory(code));
    hide Sum, Potential;
  }

  lemma TakePotential(w: World, step: Step, code: string)
    requires Consistency.Sound(w.db) && StaleReads.AllKnown(w) && AtCap(w.db, code) && !Lifts(w, step, code)
    ensures AtCap(Take(w, step).db, code)
    ensures WorldPotential(Take(w, step), code) <= WorldPotential(w, code) + if ReadsCode(w, step, code) then 1 else 0
  {
    hide Consistency.Sound, StaleReads.AllKnown, Outcomes, System.Next, Potential, Sum, RaisesCap, AfterLook;
    match step
    case Arrive(session, what, ref) => ArrivePotential(w, session, what, ref, code);
    case Look(i) => if i < |w.deliveries| && w.deliveries[i].phase.Arrived? { LookPotential(w, i, code); }
    case Finish(i) => if i < |w.deliveries| && w.deliveries[i].phase.Looked? { FinishPotential(w, i, code); }
    case Other(a) => if !a.Deliver? { PotentialNeverGrows(w.db, a, code); }
  }

  lemma MemoryCounts(deliveries: seq<Delivery>, code: string)
    ensures Sum(deliveries, InMemory(code)) >= 0
  {
    SumNonNegative(deliveries, InMemory(code));
  }

  /** In every interleaving, once a code is at its cap its counter ends at most at what
      it was, plus the unexpired holds and the deliveries that carried the code then,
      plus one for every later read of a hold that carries it. */
  lemma {:induction false} OvershootWithStaleReads(w: World, steps: seq<Step>, code: string)
    requires Consistency.Sound(w.db) && StaleReads.AllKnown(w) && AtCap(w.db, code)
    requires forall k :: 0 <= k < |steps| ==> !Lifts(Run(w, steps[..k]), steps[k], code)
    ensures Consistency.Sound(Run(w, steps).db) && StaleReads.AllKnown(Run(w, steps)) && AtCap(Run(w, steps).db, code)
    ensures WorldPotential(Run(w, steps), code) <= WorldPotential(w, code) + CodeReads(w, steps, code)
    ensures Run(w, steps).db.promos[code].count <= w.db.promos[code].count
              + Sum(w.db.holds, Carrying(code, w.db.now)) + Sum(w.deliveries, InMemory(code))
                  + CodeReads(w, steps, code)
  {
    hide Consistency.Sound, StaleReads.AllKnown, Lifts, Take, ReadsCode;
    if steps != [] {
      var n := |steps| - 1;
      forall k | 0 <= k < n ensures !Lifts(Run(w, steps[..n][..k]), steps[..n][k], code) {
        assert steps[..n][..k] == steps[..k];
      }
      OvershootWithStaleReads(w, steps[..n], code);
      StaleReads.TakeKeepsSound(Run(w, steps[..n]), steps[n]);
      TakePotential(Run(w, steps[..n]), steps[n], code);
    }
    var after := Run(w, steps);
    MemoryCounts(after.deliveries, code);
    SumNonNegative(after.db.holds, Carrying(code, after.db.now));
    hide Run, Sum;
  }
}

/** The box office as a transition system: every transaction is one action, and a
    transaction that raises leaves the database as it was. */
module System {
  import opened Tables
  import opened Schema
  import Holds
  import Fulfilment
  import Pricing
  import Scanning

  datatype Action =
    | Tick(seconds: nat)
    | SetGaHold(perf: nat, session: string, tier: nat, quantity: int)
    | SetReservedHold(perf: nat, session: string, ids: set<nat>)
    | Release(perf: nat, session: string)
    | ReleaseById(session: string, hold: nat)
    | Sweep
    | ApplyPromo(session: string, hold: nat, code: string)
    | RemovePromo(session: string, hold: nat)
    | SetDonation(session: string, hold: nat, amount: int)
    | ClearDonation(session: string, hold: nat)
    | TestCheckout(hold: nat, ref: string)
    | GiveDirectly(amount: int, ref: string)
    | SellPass(product: nat, ref: string)
    | Deliver(checkout: string, what: Fulfilment.Checkout, ref: string)
    | UsePass(hold: nat, pass: nat)
    | Refund(order: nat, stripe: Option<string>)
    | Cancel(order: nat)
    | Scan(ticket: nat, signed: bool)
    | SavePerformance(perf: nat, form: Performance, capacity: Option<nat>)
    | SavePrices(book: PriceBook)
    | SaveBlocks(blocks: set<(nat, nat)>)
    | SavePromo(code: string, promo: Promo)
    | SaveProduct(product: nat, listing: Product)

  /** PerformanceForm.clean and save: a capacity may not go below what is sold;
      the event of an existing performance is not on the form. */
  function EditPerformance(db: Db, perf: nat, form: Performance, capacity: Option<nat>): Result<Db, Failure> {
    if capacity.Some? && perf in db.perfs && perf in db.allocs && capacity.value < db.allocs[perf].sold then
      Err(CapacityBelowSold)
    else
      Ok(db.(perfs := db.perfs[perf := if perf in db.perfs then form.(event := db.perfs[perf].event) else form],
             allocs := match capacity
                       case None => db.allocs
                       case Some(c) =>
                         db.allocs[perf := if perf in db.allocs then db.allocs[perf].(capacity := c) else Allocation(c,
                             0)]))
  }

  /** A promo form edits the terms of a code, never its redemption count. */
  function EditPromo(db: Db, code: string, promo: Promo): Db {
    db.(promos := db.promos[code := promo.(count := if code in db.promos then db.promos[code].count else 0)])
  }

  function FulfillById(db: Db, hold: nat, ref: string): Result<Db, Failure> {
    match Holds.FindHold(db.holds, hold)
    case None => Err(HoldGone)
    case Some(h) => Fulfilment.FulfillHold(db, h, Test, ref, None)
  }

  function RedeemById(db: Db, hold: nat, pass: nat): Result<Db, Failure> {
    match Holds.FindHold(db.holds, hold)
    case None => Err(HoldGone)
    case Some(h) => Fulfilment.RedeemPass(db, h, pass)
  }

  function Attempt(db: Db, a: Action): Result<Db, Failure> {
    match a
    case Tick(seconds) => Ok(db.(now := db.now + seconds))
    case SetGaHold(perf, session, tier, quantity) => Holds.SetGaHold(db, perf, session, tier, quantity)
    case SetReservedHold(perf, session, ids) => Holds.SetReservedHold(db, perf, session, ids)
    case Release(perf, session) => Ok(Holds.Release(db, perf, session))
    case ReleaseById(session, hold) => Ok(Holds.ReleaseById(db, session, hold))
    case Sweep => Ok(Holds.Sweep(db))
    case ApplyPromo(session, hold, code) => Holds.ApplyPromo(db, session, hold, code)
    case RemovePromo(session, hold) => Ok(Holds.RemovePromo(db, session, hold))
    case SetDonation(session, hold, amount) => Holds.SetDonation(db, session, hold, amount)
    case ClearDonation(session, hold) => Ok(Holds.ClearDonation(db, session, hold))
    case TestCheckout(hold, ref) => FulfillById(db, hold, ref)
    case GiveDirectly(amount, ref) => Ok(Fulfilment.FulfillDonation(db, amount, Test, ref, None))
    case SellPass(product, ref) => Fulfilment.FulfillPass(db, product, Test, ref, None)
    case Deliver(checkout, what, ref) =>
      (match Fulfilment.Deliver(db, checkout, what, ref) case Ok(d) => Ok(d.db) case Err(e) => Err(e))
    case UsePass(hold, pass) => RedeemById(db, hold, pass)
    case Refund(order, stripe) => Fulfilment.RefundOrder(db, order, stripe)
    case Cancel(order) => Fulfilment.CancelOrder(db, order)
    case Scan(ticket, signed) => Ok(Scanning.AfterScan(db, ticket, signed))
    case SavePerformance(perf, form, capacity) => EditPerformance(db, perf, form, capacity)
    case SavePrices(book) => if Pricing.VenueOk(book) then Ok(db.(book := book)) else Err(BrokenKeys)
    case SaveBlocks(blocks) => Ok(db.(blocks := blocks))
    case SavePromo(code, promo) => Ok(EditPromo(db, code, promo))
    case SaveProduct(product, listing) => Ok(db.(products := db.products[product := listing]))
  }

  function Next(db: Db, a: Action): Db {
    match Attempt(db, a)
    case Ok(after) => after
    case Err(_) => db
  }

  function Run(db: Db, actions: seq<Action>): Db {
    if actions == [] then db else Next(Run(db, actions[..|actions| - 1]), actions[|actions| - 1])
  }

  /** A box office before its first sale: any clock, catalogue and capacities. */
  ghost predicate Opening(db: Db) {
    && db.holds == [] && db.orders == [] && db.tickets == [] && db.passes == [] && db.redemptions == []
    && (forall p :: p in db.allocs ==> p in db.perfs && db.allocs[p].sold == 0)
    && (forall c :: c in db.promos ==> db.promos[c].count == 0)
    && Pricing.VenueOk(db.book)
  }

  lemma RunAppend(db: Db, actions: seq<Action>, a: Action)
    ensures Run(db, actions + [a]) == Next(Run(db, actions), a)
  {
    assert (actions + [a])[..|actions|] == actions;
  }
}

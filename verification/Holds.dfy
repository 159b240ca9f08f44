/** Carts: what a hold is worth, what is available, and the transactions that
    create and edit holds (orders/services.py). */
module Holds {
  import opened Tables
  import opened Schema
  import Pricing
  import Promotions

  const HOLD_SECONDS := 600
  const MAX_DONATION := 1000000

  // --- reading a hold ---------------------------------------------------

  predicate Unexpired(h: Hold, now: int) { h.expiresAt > now }

  function SeatUnit(): HeldSeat -> int { (s: HeldSeat) => s.unit }

  function SeatIds(cart: Cart): set<nat> {
    match cart
    case Ga(_, _, _) => {}
    case Reserved(seats) => set s | s in seats :: s.seat
  }

  /** hold_total. */
  function HoldTotal(h: Hold): int {
    match h.cart
    case Ga(qty, unit, _) => unit * qty
    case Reserved(seats) => Sum(seats, SeatUnit())
  }

  /** hold_discount. */
  function Discount(h: Hold): int {
    match h.promo
    case Some(p) => p.discount
    case None => 0
  }

  /** hold_donation. */
  function Donation(h: Hold): int { h.donation.GetOr(0) }

  /** hold_grand_total. */
  function GrandTotal(h: Hold): int { Max(HoldTotal(h) - Discount(h), 0) + Donation(h) }

  /** hold_currency; `org` is the organization's own currency. */
  function HoldCurrency(h: Hold, org: string): string {
    match h.cart
    case Ga(_, _, currency) => currency
    case Reserved(seats) => if seats == [] then org else seats[0].currency.GetOr(org)
  }

  function FindHold(holds: seq<Hold>, id: nat): Option<Hold> {
    if holds == [] then None
    else if holds[|holds| - 1].id == id then Some(holds[|holds| - 1])
    else FindHold(holds[..|holds| - 1], id)
  }

  // --- availability -----------------------------------------------------

  predicate Live(t: Ticket) { !t.status.Void? }

  predicate Occupies(t: Ticket, perf: nat, seat: nat) {
    Live(t) && t.perf == perf && t.seat == Some(seat)
  }

  predicate Ticketed(tickets: seq<Ticket>, perf: nat, seat: nat) {
    exists t :: t in tickets && Occupies(t, perf, seat)
  }

  /** An unexpired hold of a session other than `session` has the seat, on any performance. */
  predicate HeldByOther(holds: seq<Hold>, now: int, session: string, seat: nat) {
    exists h :: h in holds && Unexpired(h, now) && h.session != session && seat in SeatIds(h.cart)
  }

  /** The quantity a hold takes from a performance, unless `except` owns it. */
  function GaHeld(perf: nat, now: int, except: Option<string>): Hold -> int {
    (h: Hold) =>
      if h.perf == perf && h.cart.Ga? && Unexpired(h, now) && Some(h.session) != except then h.cart.qty else 0
  }

  /** _active_ga_held_qty. */
  function ActiveGaHeld(db: Db, perf: nat, except: Option<string>): int {
    Sum(db.holds, GaHeld(perf, db.now, except))
  }

  /** ga_available. */
  function GaAvailable(db: Db, perf: nat, except: Option<string>): int {
    if perf !in db.allocs then 0
    else Max(db.allocs[perf].capacity - db.allocs[perf].sold - ActiveGaHeld(db, perf, except), 0)
  }

  datatype SeatState = Blocked | Unavailable | HeldByYou | Available

  /** A hold on the performance puts the seat in held_by_you / held_by_others. */
  predicate HeldHere(db: Db, perf: nat, seat: nat, session: Option<string>, mine: bool) {
    exists h :: h in db.holds && h.perf == perf && Unexpired(h, db.now) && seat in SeatIds(h.cart)
                && (mine <==> Some(h.session) == session)
  }

  /** reserved_seat_states, for one seat of the chart. */
  function SeatStateOf(db: Db, perf: nat, session: Option<string>, seat: nat): SeatState {
    if (perf, seat) in db.blocks then Blocked
    else if Ticketed(db.tickets, perf, seat) || HeldHere(db, perf, seat, session, false) then Unavailable
    else if HeldHere(db, perf, seat, session, true) then HeldByYou
    else Available
  }

  predicate Selectable(s: SeatState) { s.HeldByYou? || s.Available? }

  // --- creating and releasing holds -------------------------------------

  function NotOf(perf: nat, session: string): Hold -> bool {
    (h: Hold) => !(h.perf == perf && h.session == session)
  }

  /** _clear_session_hold. */
  function Cleared(holds: seq<Hold>, perf: nat, session: string): seq<Hold> {
    Filter(holds, NotOf(perf, session))
  }

  /** release_hold. */
  function Release(db: Db, perf: nat, session: string): Db {
    db.(holds := Cleared(db.holds, perf, session))
  }

  function NotId(id: nat, session: string): Hold -> bool {
    (h: Hold) => !(h.id == id && h.session == session)
  }

  /** release_hold_by_id. */
  function ReleaseById(db: Db, session: string, id: nat): Db {
    db.(holds := Filter(db.holds, NotId(id, session)))
  }

  function UnexpiredAt(now: int): Hold -> bool { (h: Hold) => Unexpired(h, now) }

  /** The release_expired_holds command. */
  function Sweep(db: Db): Db {
    db.(holds := Filter(db.holds, UnexpiredAt(db.now)))
  }

  function Replaced(db: Db, perf: nat, session: string, cart: Cart): Db {
    db.(holds := Cleared(db.holds, perf, session)
                 + [Hold(db.nextHold, perf, session, db.now + HOLD_SECONDS, cart, None, None)],
        nextHold := db.nextHold + 1)
  }

  function FindTier(tiers: seq<PriceTier>, id: nat): Option<PriceTier> {
    if tiers == [] then None
    else if tiers[0].id == id then Some(tiers[0])
    else FindTier(tiers[1..], id)
  }

  /** set_ga_hold. */
  function SetGaHold(db: Db, perf: nat, session: string, tier: nat, quantity: int): Result<Db, Failure> {
    if perf !in db.perfs then Err(NoPerformance)
    else if quantity <= 0 then Ok(Release(db, perf, session))
    else if FindTier(db.book.tiers, tier).None? then Err(NoTier)
    else if perf !in db.allocs then Err(NoAllocation)
    else
      var available := db.allocs[perf].capacity - db.allocs[perf].sold - ActiveGaHeld(db, perf, Some(session));
      if quantity > available then Err(if available <= 0 then SoldOut else TooFew(available))
      else
        var t := FindTier(db.book.tiers, tier).value;
        Ok(Replaced(db, perf, session, Ga(quantity, t.amount, t.currency)))
  }

  function Requested(ids: set<nat>, chart: nat): Seat -> bool {
    (s: Seat) => s.id in ids && s.chart == chart
  }

  function SeatsOnChart(book: PriceBook, chart: Option<nat>, ids: set<nat>): seq<Seat> {
    if chart.None? then [] else Filter(book.seats, Requested(ids, chart.value))
  }

  /** A requested seat cannot be had: ticketed here, held by another session
      anywhere, or blocked here. */
  predicate Taken(db: Db, perf: nat, session: string, seat: nat) {
    Ticketed(db.tickets, perf, seat) || HeldByOther(db.holds, db.now, session, seat) || (perf, seat) in db.blocks
  }

  function HeldAt(p: Pricing.Price, seat: nat): HeldSeat {
    HeldSeat(seat, p.amount, match p.source case FromZone(_) => None case FromTier(_, c) => Some(c))
  }

  /** The row a seat gets on a new hold; only priced seats are asked for. */
  function ToHeldSeat(book: PriceBook, perf: nat): Seat -> HeldSeat {
    (s: Seat) => match Pricing.BulkPrice(book, perf, s)
                 case Some(p) => HeldAt(p, s.id)
                 case None => HeldSeat(s.id, 0, None)
  }

  /** set_reserved_hold. */
  function SetReservedHold(db: Db, perf: nat, session: string, ids: set<nat>): Result<Db, Failure> {
    if perf !in db.perfs then Err(NoPerformance)
    else if ids == {} then Ok(Release(db, perf, session))
    else
      var seats := SeatsOnChart(db.book, db.perfs[perf].chart, ids);
      if exists id :: id in ids && forall s :: s in seats ==> s.id != id then Err(NotInChart)
      else if exists id :: id in ids && Taken(db, perf, session, id) then Err(SeatUnavailable)
      else if exists s :: s in seats && Pricing.BulkPrice(db.book, perf, s).None? then Err(NotPriced)
      else Ok(Replaced(db, perf, session, Reserved(MapRows(seats, ToHeldSeat(db.book, perf)))))
  }

  // --- editing a hold ---------------------------------------------------

  function WithPromo(id: nat, p: Option<AppliedPromo>): Hold -> Hold {
    (h: Hold) => if h.id == id then h.(promo := p) else h
  }

  function WithDonation(id: nat, d: Option<int>): Hold -> Hold {
    (h: Hold) => if h.id == id then h.(donation := d) else h
  }

  /** The session's hold of that id, unexpired. */
  function CartOf(db: Db, session: string, id: nat): Option<Hold> {
    match FindHold(db.holds, id)
    case Some(h) => if h.session == session && Unexpired(h, db.now) then Some(h) else None
    case None => None
  }

  /** apply_promo_code; `code` is already normalized. */
  function ApplyPromo(db: Db, session: string, id: nat, code: string): Result<Db, Failure> {
    match CartOf(db, session, id)
    case None => Err(HoldGone)
    case Some(h) =>
      if code !in db.promos then Err(BadPromo(UnknownCode))
      else
        var promo, subtotal := db.promos[code], HoldTotal(h);
        match Promotions.ValidateCode(promo, subtotal, HoldCurrency(h, db.currency), db.now)
        case Some(why) => Err(BadPromo(why))
        case None =>
          var applied := AppliedPromo(code, Promotions.ComputeDiscount(promo, subtotal));
          Ok(db.(holds := MapRows(db.holds, WithPromo(id, Some(applied)))))
  }

  /** remove_promo_code: no expiry test, and a missing hold is not an error. */
  function RemovePromo(db: Db, session: string, id: nat): Db {
    match FindHold(db.holds, id)
    case Some(h) => if h.session == session then db.(holds := MapRows(db.holds, WithPromo(id, None))) else db
    case None => db
  }

  /** set_hold_donation. */
  function SetDonation(db: Db, session: string, id: nat, amount: int): Result<Db, Failure> {
    if CartOf(db, session, id).None? then Err(HoldGone)
    else if amount <= 0 || amount > MAX_DONATION then Err(BadDonation)
    else Ok(db.(holds := MapRows(db.holds, WithDonation(id, Some(amount)))))
  }

  /** clear_hold_donation. */
  function ClearDonation(db: Db, session: string, id: nat): Db {
    match FindHold(db.holds, id)
    case Some(h) => if h.session == session then db.(holds := MapRows(db.holds, WithDonation(id, None))) else db
    case None => db
  }
}

/** The rows of the box office database, for one theater. Amounts are integer
    cents, percentages hundredths of a percent, times whole seconds. A row's
    primary key is its position in its table, except where it has an `id`. */
module Schema {
  import opened Tables

  /** A PositiveIntegerField that every writer keeps above zero. */
  type Pos = n: int | 0 < n witness 1

  // --- events -----------------------------------------------------------

  datatype Performance = Performance(event: nat, startsAt: int, chart: Option<nat>)

  datatype Allocation = Allocation(capacity: nat, sold: nat)

  datatype Section = Section(id: nat, chart: nat)

  datatype Seat = Seat(id: nat, section: nat, chart: nat)

  datatype PriceTier = PriceTier(
    id: nat, amount: int, currency: string, performance: Option<nat>, section: Option<nat>)

  datatype Zone = Zone(
    id: nat, performance: nat, template: Option<nat>, name: string, amount: int, seats: set<nat>)

  /** What prices are resolved from: the venue's sections and seats, the tiers
      and the zones, each in the order its queryset returns. */
  datatype PriceBook = PriceBook(
    sections: seq<Section>, seats: seq<Seat>, tiers: seq<PriceTier>, zones: seq<Zone>)

  // --- promotions -------------------------------------------------------

  datatype PromoKind = Percent | Fixed

  datatype Promo = Promo(
    kind: PromoKind, value: nat, currency: Option<string>, startsAt: Option<int>, endsAt: Option<int>,
    cap: Option<nat>, count: nat, minOrder: Option<int>, active: bool)

  // --- orders -----------------------------------------------------------

  datatype HeldSeat = HeldSeat(seat: nat, unit: int, currency: Option<string>)

  datatype Cart =
    | Ga(qty: Pos, unit: int, currency: string)
    | Reserved(seats: seq<HeldSeat>)

  datatype AppliedPromo = AppliedPromo(code: string, discount: int)

  datatype Hold = Hold(
    id: nat, perf: nat, session: string, expiresAt: int, cart: Cart,
    promo: Option<AppliedPromo>, donation: Option<int>)

  datatype ItemKind = TicketLine | DonationLine | PassLine

  datatype Item = Item(kind: ItemKind, seat: Option<nat>, qty: nat, unit: int)

  datatype Provider = Stripe | Test | PassCredit(pass: nat)

  datatype PaymentStatus = Succeeded | Reversed

  datatype Payment = Payment(provider: Provider, amount: int, status: PaymentStatus, ref: string)

  datatype OrderStatus = Pending | Paid | Cancelled | Refunded

  datatype Order = Order(
    perf: Option<nat>, promo: Option<string>, discount: int, total: int, status: OrderStatus,
    checkout: Option<string>, items: seq<Item>, payments: seq<Payment>)

  datatype TicketStatus = Valid | Used | Void

  datatype Ticket = Ticket(
    order: nat, perf: nat, seat: Option<nat>, status: TicketStatus, usedAt: Option<int>)

  // --- passes -----------------------------------------------------------

  /** A flex product has a positive credit count, a season product has none. */
  datatype PassTerms = Flex(credits: Pos) | Season

  datatype Product = Product(
    terms: PassTerms, price: nat, validFrom: Option<int>, validUntil: Option<int>,
    events: set<nat>, active: bool)

  datatype PassStatus = Active | Exhausted | Withdrawn

  datatype PassPurchase = PassPurchase(
    product: nat, order: nat, terms: PassTerms, balance: Option<nat>,
    validFrom: Option<int>, validUntil: Option<int>, covered: set<nat>, status: PassStatus)

  datatype Redemption = Redemption(
    pass: nat, order: nat, ticket: nat, perf: nat, event: nat, seat: Option<nat>,
    faceValue: int, creditsUsed: nat)

  // --- the database -----------------------------------------------------

  datatype Db = Db(
    now: int,
    currency: string,
    perfs: map<nat, Performance>,
    allocs: map<nat, Allocation>,
    blocks: set<(nat, nat)>,
    book: PriceBook,
    promos: map<string, Promo>,
    products: map<nat, Product>,
    holds: seq<Hold>,
    nextHold: nat,
    orders: seq<Order>,
    tickets: seq<Ticket>,
    passes: seq<PassPurchase>,
    redemptions: seq<Redemption>)

  /** Why a transaction raised, and so rolled back. */
  datatype Failure =
    | SoldOut | TooFew(available: int) | SeatUnavailable | NotInChart | NotPriced | NoTier
    | NoAllocation | NoPerformance | BrokenKeys | CapacityBelowSold
    | HoldGone | AvailabilityChanged
    | BadPromo(why: PromoFailure) | BadDonation
    | BadAmount | ProductInactive | NoProduct
    | PassNotUsable(reason: PassFailure)
    | PassUsed | RefundRejected
    | NotFound

  datatype PromoFailure =
    | UnknownCode | Inactive | NotStarted | Ended | CapReached | BelowMinimum | WrongCurrency | TooLarge

  datatype PassFailure =
    | HasPromo | HasDonation | NotActive | NotCovered | NothingHeld | NotEnoughCredits
    | OneSeatOnly | AlreadyUsedForEvent
}

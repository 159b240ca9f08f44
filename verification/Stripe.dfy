/** What a hosted checkout asks the card for, in the currency's minor unit, and
    how that reconciles with what the order records (payments/services.py). */
module Stripe {
  import opened Tables
  import opened Schema
  import opened Holds
  import opened System
  import Carts
  import Consistency
  import Fulfilment
  import Promotions

  // --- minor units ------------------------------------------------------

  const ZERO_DECIMAL: set<string> := {
    "BIF", "CLP", "DJF", "GNF", "JPY", "KMF", "KRW", "MGA", "PYG", "RWF", "UGX", "VND", "VUV", "XAF", "XOF", "XPF"
  }

  const THREE_DECIMAL: set<string> := {"BHD", "JOD", "KWD", "OMR", "TND"}

  function Lower(code: string): string { MapRows(code, LowerLetter()) }

  function LowerLetter(): char -> char { (c: char) => if 'A' <= c <= 'Z' then c + 32 as char else c }

  predicate IsZeroDecimal(code: string) { Promotions.Upper(code) in ZERO_DECIMAL }

  predicate IsThreeDecimal(code: string) { !IsZeroDecimal(code) && Promotions.Upper(code) in THREE_DECIMAL }

  /** Decimal.to_integral_value of cents/100: the nearest integer, ties to even. */
  function RoundHalfEven(cents: int): (r: int)
    ensures -50 <= 100 * r - cents <= 50
    ensures 100 * r - cents == 50 || 100 * r - cents == -50 ==> r % 2 == 0
  {
    var q, rest := cents / 100, cents % 100;
    if rest < 50 || (rest == 50 && q % 2 == 0) then q else q + 1
  }

  /** _to_minor_units of an amount in cents. */
  function ToMinor(cents: int, code: string): int {
    if IsZeroDecimal(code) then RoundHalfEven(cents)
    else if IsThreeDecimal(code) then cents * 10 / 10 * 10
    else cents
  }

  /** Minor units to the cent, where a minor unit is no larger than a cent. */
  function PerCent(code: string): int { if IsThreeDecimal(code) then 10 else 1 }

  lemma ToMinorIsExact(cents: int, code: string)
    requires !IsZeroDecimal(code)
    ensures ToMinor(cents, code) == PerCent(code) * cents
  {}

  // --- the checkout session ---------------------------------------------

  datatype StripeLine = StripeLine(quantity: int, currency: string, unit: int)

  datatype Session = Session(currency: string, lines: seq<StripeLine>, coupon: Option<int>, fee: Option<int>)

  function Line(quantity: int, cents: int, code: string): StripeLine {
    StripeLine(quantity, Lower(code), ToMinor(cents, code))
  }

  function SeatLine(org: string): HeldSeat -> StripeLine {
    (s: HeldSeat) => Line(1, s.unit, s.currency.GetOr(org))
  }

  function TicketLines(cart: Cart, org: string): seq<StripeLine> {
    match cart
    case Ga(qty, unit, code) => [Line(qty, unit, code)]
    case Reserved(seats) => MapRows(seats, SeatLine(org))
  }

  function GiftLines(h: Hold, org: string): seq<StripeLine> {
    if Donation(h) <= 0 then [] else [Line(1, Donation(h), HoldCurrency(h, org))]
  }

  /** _line_items_for_hold. */
  method LineItemsForHold(h: Hold, org: string) returns (lines: seq<StripeLine>)
    ensures lines == TicketLines(h.cart, org) + GiftLines(h, org)
  {
    hide ToMinor, Lower, HoldCurrency;
    if h.cart.Ga? {
      lines := [Line(h.cart.qty, h.cart.unit, h.cart.currency)];
    } else {
      lines := [];
      var seats := h.cart.seats;
      for i := 0 to |seats|
        invariant lines == TicketLines(Reserved(seats[..i]), org)
      {
        var code := if seats[i].currency.Some? then seats[i].currency.value else org;
        lines := lines + [Line(1, seats[i].unit, code)];
      }
      assert seats[..|seats|] == seats;
    }
    if Donation(h) > 0 {
      lines := lines + [Line(1, Donation(h), HoldCurrency(h, org))];
    }
  }

  /** The percentage part of application_fee_amount; `percent` is hundredths of a percent. */
  function PercentFee(total: int, percent: int, code: string): int {
    if IsZeroDecimal(code) then Promotions.RoundHalfUp(total * percent, 1000000)
    else if IsThreeDecimal(code) then Promotions.RoundHalfUp(total * percent, 1000) / 10 * 10
    else Promotions.RoundHalfUp(total * percent, 10000)
  }

  /** application_fee_amount. */
  function ApplicationFee(total: int, percent: int, fixed: int, code: string): Option<int> {
    var fee := PercentFee(total, percent, code) + fixed;
    if fee <= 0 then None else Some(fee)
  }

  /** The parameters create_checkout_session sends to Stripe. */
  function CheckoutSession(h: Hold, org: string, percent: int, fixed: int, now: int): Result<Session, Failure> {
    var code, lines := HoldCurrency(h, org), TicketLines(h.cart, org) + GiftLines(h, org);
    if !Unexpired(h, now) then Err(HoldGone)
    else if lines == [] then Err(NotFound)
    else
      var off := ToMinor(Discount(h), code);
      Ok(Session(code, lines, if off > 0 then Some(off) else None, ApplicationFee(GrandTotal(h), percent, fixed, code)))
  }

  function LineMinor(): StripeLine -> int { (l: StripeLine) => l.quantity * l.unit }

  /** What Stripe collects for a session: its lines, less its coupon. */
  function Charge(s: Session): int { Sum(s.lines, LineMinor()) - s.coupon.GetOr(0) }

  // --- reconciliation ---------------------------------------------------

  /** Every seat is charged in the one currency the hold is charged in. */
  predicate OneCurrency(h: Hold, org: string) {
    h.cart.Reserved? ==> forall s :: s in h.cart.seats ==> s.currency.GetOr(org) == HoldCurrency(h, org)
  }

  lemma ProductMinor(qty: int, unit: int, code: string)
    requires !IsZeroDecimal(code)
    ensures qty * ToMinor(unit, code) == PerCent(code) * (unit * qty)
  {
    ToMinorIsExact(unit, code);
  }

  lemma {:induction false} ScaledSum(seats: seq<HeldSeat>, org: string, code: string)
    requires !IsZeroDecimal(code) && forall s :: s in seats ==> s.currency.GetOr(org) == code
    ensures Sum(MapRows(seats, SeatLine(org)), LineMinor()) == PerCent(code) * Sum(seats, SeatUnit())
  {
    if seats != [] {
      var init, last := seats[..|seats| - 1], seats[|seats| - 1];
      ScaledSum(init, org, code);
      assert MapRows(seats, SeatLine(org))[..|seats| - 1] == MapRows(init, SeatLine(org));
      ToMinorIsExact(last.unit, code);
    }
  }

  lemma TicketLinesScale(h: Hold, org: string)
    requires OneCurrency(h, org) && !IsZeroDecimal(HoldCurrency(h, org))
    ensures Sum(TicketLines(h.cart, org), LineMinor()) == PerCent(HoldCurrency(h, org)) * HoldTotal(h)
  {
    match h.cart
    case Ga(qty, unit, code) =>
      ProductMinor(qty, unit, code);
      SumConst(TicketLines(h.cart, org), LineMinor(), qty * ToMinor(unit, code));
    case Reserved(seats) => ScaledSum(seats, org, HoldCurrency(h, org));
  }

  lemma GiftLinesScale(h: Hold, org: string)
    requires !IsZeroDecimal(HoldCurrency(h, org)) && Donation(h) >= 0
    ensures Sum(GiftLines(h, org), LineMinor()) == PerCent(HoldCurrency(h, org)) * Donation(h)
  {
    ToMinorIsExact(Donation(h), HoldCurrency(h, org));
    if Donation(h) > 0 { SumConst(GiftLines(h, org), LineMinor(), ToMinor(Donation(h), HoldCurrency(h, org))); }
  }

  lemma PercentFeeBound(total: nat, percent: nat, code: string)
    requires percent <= 10000 && !IsZeroDecimal(code)
    ensures 0 <= PercentFee(total, percent, code) <= ToMinor(total, code)
  {
    ToMinorIsExact(total, code);
    Promotions.MulMonotone(percent, 10000, total);
    if IsThreeDecimal(code) {
      var r := Promotions.RoundHalfUp(total * percent, 1000);
      assert 2 * (1000 * r - total * percent) <= 1000;
    } else {
      var r := Promotions.RoundHalfUp(total * percent, 10000);
      assert 2 * (10000 * r - total * percent) <= 10000;
    }
  }

  /** `fee` is `share` millionths of a unit, rounded half up: to whole units, to cents, or
      in thousandths down to a multiple of ten. */
  predicate Rounds(fee: int, share: int, code: string) {
    if Promotions.Upper(code) in ZERO_DECIMAL then 1000000 * fee <= share + 500000 < 1000000 * (fee + 1)
    else if Promotions.Upper(code) in THREE_DECIMAL then
      fee % 10 == 0 && 1000 * fee <= share + 500 < 1000 * (fee + 10)
    else 10000 * fee <= share + 5000 < 10000 * (fee + 1)
  }

  /** `fee` is the share `percent`, in hundredths of a percent, of `total` cents. */
  predicate IsShare(fee: int, total: int, percent: int, code: string) { Rounds(fee, total * percent, code) }

  /** The fee is the one amount that is the rounded share, and the fixed part in minor
      units on top; a fee of nothing is left out. */
  lemma FeeIs(total: nat, percent: nat, fixed: int, code: string)
    ensures exists share :: IsShare(share, total, percent, code)
    ensures forall share :: IsShare(share, total, percent, code) ==>
              ApplicationFee(total, percent, fixed, code) == if share + fixed > 0 then Some(share + fixed) else None
  {
    ShareIs(total, percent, code);
    hide PercentFee;
    forall share | IsShare(share, total, percent, code) ensures share == PercentFee(total, percent, code) {
      OneShare(share, PercentFee(total, percent, code), total * percent, code);
    }
    hide IsShare;
  }

  lemma ShareIs(total: nat, percent: nat, code: string)
    ensures IsShare(PercentFee(total, percent, code), total, percent, code)
  {
    var n := total * percent;
    assert n >= 0;
    hide Promotions.Upper;
  }

  lemma OneShare(a: int, b: int, share: int, code: string)
    requires Rounds(a, share, code) && Rounds(b, share, code)
    ensures a == b
  {
    hide Promotions.Upper;
  }

  /** What stops a session: the hold is over, or there is nothing on it to pay for. */
  function SessionChecks(h: Hold, now: int): seq<(bool, Failure)> {
    [(h.expiresAt <= now, HoldGone),
     (h.cart == Reserved([]) && (h.donation.None? || h.donation.value <= 0), NotFound)]
  }

  lemma SessionAnswer(h: Hold, org: string, percent: int, fixed: int, now: int)
    ensures FirstFailing(Failed(CheckoutSession(h, org, percent, fixed, now)), SessionChecks(h, now))
  {
    hide ApplicationFee, ToMinor, Lower, HoldCurrency;
    var checks := SessionChecks(h, now);
    if CheckoutSession(h, org, percent, fixed, now).Err? { assert checks[0].0 || checks[1].0; }
  }

  /** A line is for `quantity` of an amount, in the currency's own minor unit. */
  predicate IsLine(l: StripeLine, quantity: int, cents: int, code: string) {
    l.quantity == quantity && l.currency == Lower(code) && l.unit == ToMinor(cents, code)
  }

  /** The lines of a session: the GA tickets, or every held seat in order at the price and
      in the currency it is held in, and last the gift if there is one. The coupon is the
      discount, and the fee is on what is left to pay. */
  lemma SessionLinesAre(h: Hold, org: string, percent: int, fixed: int, now: int)
    requires CheckoutSession(h, org, percent, fixed, now).Ok?
    ensures var s := CheckoutSession(h, org, percent, fixed, now).value;
            && s.currency == (match h.cart
                              case Ga(_, _, code) => code
                              case Reserved(seats) => if seats == [] then org else seats[0].currency.GetOr(org))
            && (var off := ToMinor(Discount(h), s.currency); s.coupon == if off > 0 then Some(off) else None)
            && s.fee == ApplicationFee(GrandTotal(h), percent, fixed, s.currency)
    ensures var s := CheckoutSession(h, org, percent, fixed, now).value;
            var tickets := if h.cart.Ga? then 1 else |h.cart.seats|;
            && |s.lines| == tickets + (if Donation(h) > 0 then 1 else 0)
            && (h.cart.Ga? ==> IsLine(s.lines[0], h.cart.qty, h.cart.unit, h.cart.currency))
            && (h.cart.Reserved? ==> forall k :: 0 <= k < |h.cart.seats| ==>
                  IsLine(s.lines[k], 1, h.cart.seats[k].unit, h.cart.seats[k].currency.GetOr(org)))
            && (Donation(h) > 0 ==> IsLine(s.lines[tickets], 1, Donation(h), s.currency))
  {
    hide ApplicationFee, ToMinor, Lower;
  }

  lemma SessionReconciles(h: Hold, org: string, percent: nat, fixed: int, now: int)
    requires Carts.MoneyOk(h) && OneCurrency(h, org) && !IsZeroDecimal(HoldCurrency(h, org))
    requires CheckoutSession(h, org, percent, fixed, now).Ok?
    ensures var s := CheckoutSession(h, org, percent, fixed, now).value; var due := ToMinor(GrandTotal(h), s.currency);
            && (Charge(s) == due <==> HoldTotal(h) >= 0)
            && s.coupon.GetOr(0) == ToMinor(Discount(h), s.currency)
            && (h.promo.Some? ==> s.coupon.GetOr(0) < Sum(TicketLines(h.cart, org), LineMinor()))
            && (percent <= 10000 ==> 0 <= PercentFee(GrandTotal(h), percent, s.currency) <= due)
  {
    var code := HoldCurrency(h, org);
    TicketLinesScale(h, org);
    GiftLinesScale(h, org);
    SumConcat(TicketLines(h.cart, org), GiftLines(h, org), LineMinor());
    ToMinorIsExact(Discount(h), code);
    ToMinorIsExact(GrandTotal(h), code);
    if percent <= 10000 { PercentFeeBound(GrandTotal(h), percent, code); }
    hide PercentFee, ToMinor, IsZeroDecimal, IsThreeDecimal, Sum, TicketLines, GiftLines, HoldCurrency;
  }

  lemma HeldMoney(start: Db, actions: seq<Action>, h: Hold)
    requires Opening(start) && h in Run(start, actions).holds
    ensures Carts.MoneyOk(h)
  {
    Consistency.AlwaysConsistent(start, actions);
    Carts.HeldIsOk(Run(start, actions), h);
  }

  /** Over any run, of any hold in one two- or three-decimal currency: a session opened
      on it charges exactly what an order of the hold as it is now would record, unless
      the tickets are priced below zero; a coupon stays inside the ticket lines and so
      never reaches the gift; and a percentage fee of at most 100 is at most the charge.
      What the order records after the page was paid is in `Settlement`. */
  lemma SessionChargesItsHold(start: Db, actions: seq<Action>, h: Hold, percent: nat, fixed: int, ref: string)
    requires Opening(start)
    ensures var db := Run(start, actions); var org := start.currency;
            h in db.holds && OneCurrency(h, org) && !IsZeroDecimal(HoldCurrency(h, org))
            && CheckoutSession(h, org, percent, fixed, db.now).Ok? ==>
              var s := CheckoutSession(h, org, percent, fixed, db.now).value;
              var due := ToMinor(Fulfilment.SaleOrder(h, Provider.Stripe, ref, None).total, s.currency);
              && (Charge(s) == due <==> HoldTotal(h) >= 0)
              && (h.promo.Some? ==> s.coupon.GetOr(0) < Sum(TicketLines(h.cart, org), LineMinor()))
              && (percent <= 10000 ==> 0 <= PercentFee(GrandTotal(h), percent, s.currency) <= due)
  {
    var db, org := Run(start, actions), start.currency;
    if h in db.holds && OneCurrency(h, org) && !IsZeroDecimal(HoldCurrency(h, org))
       && CheckoutSession(h, org, percent, fixed, db.now).Ok? {
      HeldMoney(start, actions, h);
      SessionReconciles(h, org, percent, fixed, db.now);
      hide Run, CheckoutSession, Charge, PercentFee, ToMinor;
    }
  }

  // --- zero-decimal currencies ------------------------------------------

  lemma {:induction false} RoundedSum(seats: seq<HeldSeat>, org: string, code: string)
    requires IsZeroDecimal(code) && forall s :: s in seats ==> s.currency.GetOr(org) == code
    ensures -50 * |seats| <= 100 * Sum(MapRows(seats, SeatLine(org)), LineMinor()) - Sum(seats,
            SeatUnit()) <= 50 * |seats|
  {
    if seats != [] {
      var init, last := seats[..|seats| - 1], seats[|seats| - 1];
      RoundedSum(init, org, code);
      assert MapRows(seats, SeatLine(org))[..|seats| - 1] == MapRows(init, SeatLine(org));
    }
  }

  lemma RoundedLine(qty: nat, unit: int, r: int)
    requires -50 <= 100 * r - unit <= 50
    ensures -50 * qty <= 100 * (qty * r) - unit * qty <= 50 * qty
  {
    assert 100 * (qty * r) - unit * qty == (100 * r - unit) * qty;
    Promotions.MulMonotone(-50, 100 * r - unit, qty);
    Promotions.MulMonotone(100 * r - unit, 50, qty);
  }

  lemma TicketLinesRound(h: Hold, org: string)
    requires OneCurrency(h, org) && IsZeroDecimal(HoldCurrency(h, org))
    ensures var n := Fulfilment.TicketCount(h.cart);
            -50 * n <= 100 * Sum(TicketLines(h.cart, org), LineMinor()) - HoldTotal(h) <= 50 * n
  {
    match h.cart
    case Ga(qty, unit, code) =>
      RoundedLine(qty, unit, ToMinor(unit, code));
      SumConst(TicketLines(h.cart, org), LineMinor(), qty * ToMinor(unit, code));
    case Reserved(seats) => RoundedSum(seats, org, HoldCurrency(h, org));
  }

  /** In a zero-decimal currency every line and the coupon round on their own: the
      charge is within half a unit per ticket, and one more for gift and coupon,
      of what the order records. */
  lemma ZeroDecimalDrift(h: Hold, org: string, percent: int, fixed: int, now: int)
    requires Carts.MoneyOk(h) && OneCurrency(h, org) && IsZeroDecimal(HoldCurrency(h, org)) && HoldTotal(h) >= 0
    requires CheckoutSession(h, org, percent, fixed, now).Ok?
    ensures var s := CheckoutSession(h, org, percent, fixed, now).value;
            var slack := 50 * (Fulfilment.TicketCount(h.cart) + 2);
            -slack <= 100 * Charge(s) - GrandTotal(h) <= slack
  {
    var code := HoldCurrency(h, org);
    TicketLinesRound(h, org);
    SumConcat(TicketLines(h.cart, org), GiftLines(h, org), LineMinor());
    if Donation(h) > 0 { SumConst(GiftLines(h, org), LineMinor(), ToMinor(Donation(h), code)); }
    hide Sum, TicketLines, OneCurrency, HoldCurrency, IsZeroDecimal, ApplicationFee;
  }

  /** In whole units nothing rounds: the charge is exact in these currencies too. */
  predicate WholeUnits(h: Hold) {
    && (match h.cart case Ga(_, unit, _) => unit % 100 == 0 case Reserved(seats) => forall s :: s in seats ==>
          s.unit % 100 == 0)
    && Discount(h) % 100 == 0 && Donation(h) % 100 == 0
  }

  lemma {:induction false} WholeSum(seats: seq<HeldSeat>, org: string, code: string)
    requires IsZeroDecimal(code) && forall s :: s in seats ==> s.currency.GetOr(org) == code && s.unit % 100 == 0
    ensures 100 * Sum(MapRows(seats, SeatLine(org)), LineMinor()) == Sum(seats, SeatUnit())
  {
    if seats != [] {
      var init, last := seats[..|seats| - 1], seats[|seats| - 1];
      WholeSum(init, org, code);
      assert MapRows(seats, SeatLine(org))[..|seats| - 1] == MapRows(init, SeatLine(org));
    }
  }

  lemma WholeLines(h: Hold, org: string)
    requires OneCurrency(h, org) && IsZeroDecimal(HoldCurrency(h, org)) && WholeUnits(h)
    ensures 100 * Sum(TicketLines(h.cart, org), LineMinor()) == HoldTotal(h)
  {
    match h.cart
    case Ga(qty, unit, code) =>
      var r := ToMinor(unit, code);
      SumConst(TicketLines(h.cart, org), LineMinor(), qty * r);
      hide IsZeroDecimal, Sum;
      assert unit == 100 * r;
      assert unit * qty == 100 * (qty * r);
    case Reserved(seats) => WholeSum(seats, org, HoldCurrency(h, org));
  }

  lemma WholeUnitsAreExact(h: Hold, org: string, percent: int, fixed: int, now: int)
    requires Carts.MoneyOk(h) && OneCurrency(h, org) && IsZeroDecimal(HoldCurrency(h, org)) && HoldTotal(h) >= 0
    requires WholeUnits(h)
    requires CheckoutSession(h, org, percent, fixed, now).Ok?
    ensures 100 * Charge(CheckoutSession(h, org, percent, fixed, now).value) == GrandTotal(h)
  {
    WholeLines(h, org);
    SumConcat(TicketLines(h.cart, org), GiftLines(h, org), LineMinor());
    if Donation(h) > 0 { SumConst(GiftLines(h, org), LineMinor(), ToMinor(Donation(h), HoldCurrency(h, org))); }
    hide Sum, TicketLines, OneCurrency, HoldCurrency, IsZeroDecimal, ApplicationFee, HoldTotal;
  }

  lemma WholeDiscount(h: Hold, code: string)
    requires WholeUnits(h) && IsZeroDecimal(code)
    ensures 100 * ToMinor(Discount(h), code) == Discount(h)
  {}

  /** In whole units the coupon stays inside the ticket lines there too. */
  lemma WholeUnitsKeepTheCouponInside(h: Hold, org: string)
    requires Carts.MoneyOk(h) && OneCurrency(h, org) && IsZeroDecimal(HoldCurrency(h, org)) && WholeUnits(h)
    requires h.promo.Some?
    ensures ToMinor(Discount(h), HoldCurrency(h, org)) < Sum(TicketLines(h.cart, org), LineMinor())
  {
    WholeLines(h, org);
    WholeDiscount(h, HoldCurrency(h, org));
    hide WholeUnits, IsZeroDecimal, HoldCurrency, Sum, OneCurrency, ToMinor;
  }

  /** Any zero-decimal hold of one ticket at 1.00 with 0.99 off: the coupon takes the
      whole ticket line, although the code left something to charge. */
  lemma CouponReachesItsLines(code: string)
    requires IsZeroDecimal(code)
    ensures var h := Hold(0, 0, "s", 600, Ga(1, 100, code), Some(AppliedPromo("C", 99)), None);
            && Carts.MoneyOk(h) && OneCurrency(h, code) && HoldCurrency(h, code) == code && GrandTotal(h) == 1
            && CheckoutSession(h, code, 0, 0, 0).Ok?
            && Charge(CheckoutSession(h, code, 0, 0, 0).value) == 0
            && ToMinor(Discount(h), code) == Sum(TicketLines(h.cart, code), LineMinor()) == 1
  {
    SumConst([Line(1, 100, code)], LineMinor(), 1);
    hide IsZeroDecimal, Lower;
  }

  /** The coupon of every hold in one currency stays inside its ticket lines exactly
      when that currency has minor units. */
  lemma CouponStaysInsideIff(code: string)
    ensures (forall h: Hold, org: string ::
               Carts.MoneyOk(h) && OneCurrency(h, org) && HoldCurrency(h, org) == code && h.promo.Some? ==>
                 ToMinor(Discount(h), code) < Sum(TicketLines(h.cart, org), LineMinor()))
            <==> !IsZeroDecimal(code)
  {
    if IsZeroDecimal(code) {
      CouponReachesItsLines(code);
    } else {
      forall h: Hold, org: string | Carts.MoneyOk(h) && OneCurrency(h, org) && HoldCurrency(h,
          org) == code && h.promo.Some?
        ensures ToMinor(Discount(h), code) < Sum(TicketLines(h.cart, org), LineMinor())
      {
        TicketLinesScale(h, org);
        ToMinorIsExact(Discount(h), code);
      }
    }
    hide ToMinor, IsZeroDecimal, Sum, TicketLines, OneCurrency;
  }

  // --- the fee in zero-decimal currencies -------------------------------

  /** The largest percentage fee of a total is the total itself, rounded half up. */
  lemma FullRateFee(total: nat, percent: nat, code: string)
    requires IsZeroDecimal(code) && percent <= 10000
    ensures PercentFee(total, percent, code) <= (total + 50) / 100 == PercentFee(total, 10000, code)
  {
    Promotions.MulMonotone(percent, 10000, total);
    Promotions.RoundMonotone(total * percent, total * 10000, 1000000);
    hide IsZeroDecimal;
  }

  /** At a known rate of at most 100 percent the fee takes more than the converted total
      exactly when the rate is 100 and the total is such a half. */
  lemma FeeExceedsTotalIff(total: nat, percent: nat, code: string)
    requires IsZeroDecimal(code) && percent <= 10000
    ensures PercentFee(total, percent, code) > ToMinor(total, code) <==> percent == 10000 && total % 200 == 50
  {
    if percent < 10000 { Promotions.MulMonotone(percent, 9999, total); }
    FullRateFee(total, percent, code);
    hide IsZeroDecimal;
  }

  /** A fee of at most 100 percent stays within the converted total, whatever the rate,
      exactly when the total is not half a unit above an even number of units: there
      the charge rounds to even and a full fee rounds up. */
  lemma FeeWithinTotalIff(total: nat, code: string)
    requires IsZeroDecimal(code)
    ensures (forall percent: nat :: percent <= 10000 ==> PercentFee(total, percent, code) <= ToMinor(total, code))
            <==> total % 200 != 50
  {
    hide PercentFee, IsZeroDecimal, ToMinor;
    forall percent: nat | percent <= 10000
      ensures PercentFee(total, percent, code) > ToMinor(total, code) <==> percent == 10000 && total % 200 == 50
    {
      FeeExceedsTotalIff(total, percent, code);
    }
    FeeExceedsTotalIff(total, 10000, code);
  }

  /** A fee of at most 100 percent is within the converted total, at every total and
      rate, exactly when the currency has minor units. */
  lemma FeeWithinEveryTotalIff(code: string)
    ensures (forall total: nat, percent: nat :: percent <= 10000 ==>
            PercentFee(total, percent, code) <= ToMinor(total, code))
            <==> !IsZeroDecimal(code)
  {
    if IsZeroDecimal(code) {
      FeeWithinTotalIff(50, code);
    } else {
      forall total: nat, percent: nat | percent <= 10000
        ensures PercentFee(total, percent, code) <= ToMinor(total, code)
      {
        PercentFeeBound(total, percent, code);
      }
    }
    hide PercentFee, ToMinor, IsZeroDecimal;
  }

  /** In whole units a fee of at most 100 percent is at most what Stripe collects. */
  lemma WholeUnitsKeepTheFeeInside(h: Hold, org: string, percent: nat, fixed: int, now: int)
    requires Carts.MoneyOk(h) && OneCurrency(h, org) && IsZeroDecimal(HoldCurrency(h, org)) && HoldTotal(h) >= 0
    requires WholeUnits(h)
    requires percent <= 10000 && CheckoutSession(h, org, percent, fixed, now).Ok?
    ensures 0 <= PercentFee(GrandTotal(h), percent,
            HoldCurrency(h, org)) <= Charge(CheckoutSession(h, org, percent, fixed, now).value)
  {
    WholeUnitsAreExact(h, org, percent, fixed, now);
    hide CheckoutSession, Charge, WholeUnits, IsZeroDecimal, OneCurrency, HoldCurrency, PercentFee;
    WholeFee(GrandTotal(h), percent, HoldCurrency(h, org), Charge(CheckoutSession(h, org, percent, fixed, now).value));
  }

  lemma WholeFee(total: nat, percent: nat, code: string, charge: int)
    requires IsZeroDecimal(code) && percent <= 10000 && total == 100 * charge
    ensures 0 <= PercentFee(total, percent, code) <= charge
  {
    FullRateFee(total, percent, code);
    Promotions.MulMonotone(0, percent, total);
    hide IsZeroDecimal;
  }

  /** A ticket at half a unit with a full fee: nothing is charged and the fee is one. */
  lemma FeeExceedsCharge(code: string)
    requires IsZeroDecimal(code)
    ensures var h := Hold(0, 0, "s", 600, Ga(1, 50, code), None, None);
            && CheckoutSession(h, code, 10000, 0, 0).Ok?
            && var s := CheckoutSession(h, code, 10000, 0, 0).value; Charge(s) == 0 && s.fee == Some(1)
  {
    SumConst([Line(1, 50, code)], LineMinor(), 0);
    hide IsZeroDecimal, Lower;
  }

  /** A percentage fee of at most 100 is at most what is collected, for every hold in
      one currency not priced below zero, exactly when it is not zero-decimal. */
  lemma FeeWithinChargeIff(code: string)
    ensures (forall h: Hold, org: string, percent: nat, fixed: int, now: int ::
               FeeCase(h, org, percent, fixed, now, code) ==> FeeInside(h, org, percent, fixed, now))
            <==> !IsZeroDecimal(code)
  {
    if IsZeroDecimal(code) {
      var h := Hold(0, 0, "s", 600, Ga(1, 50, code), None, None);
      FeeExceedsCharge(code);
      FullRateFee(50, 10000, code);
      hide PercentFee, IsZeroDecimal, ToMinor, CheckoutSession, Charge;
      assert FeeCase(h, code, 10000, 0, 0, code) && !FeeInside(h, code, 10000, 0, 0);
    } else {
      forall h: Hold, org: string, percent: nat, fixed: int, now: int | FeeCase(h, org, percent, fixed, now, code)
        ensures FeeInside(h, org, percent, fixed, now)
      {
        SessionReconciles(h, org, percent, fixed, now);
      }
      hide FeeCase, FeeInside, IsZeroDecimal;
    }
  }

  ghost predicate FeeCase(h: Hold, org: string, percent: nat, fixed: int, now: int, code: string) {
    && Carts.MoneyOk(h) && OneCurrency(h, org) && HoldCurrency(h, org) == code && HoldTotal(h) >= 0
    && percent <= 10000 && CheckoutSession(h, org, percent, fixed, now).Ok?
  }

  predicate FeeInside(h: Hold, org: string, percent: nat, fixed: int, now: int)
    requires CheckoutSession(h, org, percent, fixed, now).Ok?
  {
    PercentFee(GrandTotal(h), percent,
        HoldCurrency(h, org)) <= Charge(CheckoutSession(h, org, percent, fixed, now).value)
  }
}

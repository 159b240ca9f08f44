/** Discount arithmetic and code validation (promotions/services.py). */
module Promotions {
  import opened Tables
  import opened Schema

  /** Decimal.quantize with ROUND_HALF_UP of the rational n/d: ties go away from zero. */
  function RoundHalfUp(n: int, d: int): (r: int)
    requires d > 0
    ensures -d <= 2 * (d * r - n) <= d
    ensures n >= 0 ==> r >= 0
  {
    if n >= 0 then DivRound(n, d) else -DivRound(-n, d)
  }

  function DivRound(n: int, d: int): (r: int)
    requires d > 0 && n >= 0
    ensures -d < 2 * (d * r - n) <= d && r >= 0
  {
    var q := (2 * n + d) / (2 * d);
    assert 2 * n + d == 2 * d * q + (2 * n + d) % (2 * d);
    assert 2 * d * q == 2 * (d * q);
    q
  }

  /** compute_discount. */
  function ComputeDiscount(promo: Promo, subtotal: int): int {
    var discount :=
      match promo.kind
      case Percent => RoundHalfUp(subtotal * promo.value, 10000)
      case Fixed => if promo.value <= subtotal then promo.value else subtotal;
    if discount < 0 then 0 else discount
  }

  /** str.upper, of a currency code. */
  function Upper(code: string): string { MapRows(code, UpperLetter()) }

  function UpperLetter(): char -> char { (c: char) => if 'a' <= c <= 'z' then c - 32 as char else c }

  /** validate_code: the first check that fails, in the order they are made. */
  function ValidateCode(promo: Promo, subtotal: int, currency: string, now: int): Option<PromoFailure> {
    if !promo.active then Some(Inactive)
    else if promo.startsAt.Some? && now < promo.startsAt.value then Some(NotStarted)
    else if promo.endsAt.Some? && now > promo.endsAt.value then Some(Ended)
    else if promo.cap.Some? && promo.count >= promo.cap.value then Some(CapReached)
    else if promo.minOrder.Some? && subtotal < promo.minOrder.value then Some(BelowMinimum)
    else if promo.kind.Fixed? && promo.currency.Some? && Upper(promo.currency.value) != Upper(currency) then
      Some(WrongCurrency)
    else if ComputeDiscount(promo, subtotal) >= subtotal then Some(TooLarge)
    else None
  }

  lemma MulMonotone(a: int, b: int, v: nat)
    requires a <= b
    ensures a * v <= b * v
  {}

  /** A percentage discount is within half a cent of the exact share. */
  lemma PercentIsNearest(promo: Promo, subtotal: nat)
    requires promo.kind.Percent?
    ensures -10000 <= 2 * (10000 * ComputeDiscount(promo, subtotal) - subtotal * promo.value) <= 10000
  {
    assert subtotal * promo.value >= 0;
  }

  lemma CancelFactor(d: int, r: int, q: int)
    requires d > 0 && d * r < d * q + d
    ensures r <= q
  {
    if r >= q + 1 {
      MulMonotone(q + 1, r, d);
    }
  }

  lemma RoundMonotone(m: int, n: int, d: int)
    requires d > 0 && 0 <= m <= n
    ensures RoundHalfUp(m, d) <= RoundHalfUp(n, d)
  {
    CancelFactor(d, DivRound(m, d), DivRound(n, d));
  }

  /** A larger cart never gets a smaller discount. */
  lemma DiscountMonotone(promo: Promo, small: int, large: int)
    requires small <= large
    ensures ComputeDiscount(promo, small) <= ComputeDiscount(promo, large)
  {
    if promo.kind.Percent? {
      MulMonotone(small, large, promo.value);
      if small * promo.value >= 0 {
        RoundMonotone(small * promo.value, large * promo.value, 10000);
      }
    }
  }

  lemma DiscountWithinCart(promo: Promo, subtotal: nat)
    requires promo.kind.Percent? ==> promo.value <= 10000
    ensures 0 <= ComputeDiscount(promo, subtotal) <= subtotal
  {
    if promo.kind.Percent? {
      var n, r := subtotal * promo.value, RoundHalfUp(subtotal * promo.value, 10000);
      assert n <= 10000 * subtotal by { MulMonotone(promo.value, 10000, subtotal); }
      assert 2 * (10000 * r - n) <= 10000;
    }
  }

  /** A code never takes off more than the cart, whatever the cart, exactly when
      it is a fixed code or a percentage of at most 100. */
  lemma DiscountNeverExceedsCartIff(promo: Promo)
    ensures (forall s: nat :: ComputeDiscount(promo, s) <= s) <==> (promo.kind.Percent? ==> promo.value <= 10000)
  {
    if promo.kind.Percent? && promo.value > 10000 {
      PercentIsNearest(promo, 10000);
      assert ComputeDiscount(promo, 10000) > 10000;
    } else {
      forall s: nat ensures ComputeDiscount(promo, s) <= s { DiscountWithinCart(promo, s); }
    }
  }

  /** What a code that validates is worth: something between nothing and the
      whole cart, so that there is always money left to charge. */
  lemma ValidatedDiscountLeavesACharge(promo: Promo, subtotal: int, currency: string, now: int)
    requires ValidateCode(promo, subtotal, currency, now) == None
    ensures 0 <= ComputeDiscount(promo, subtotal) < subtotal
  {}

  // --- said over the rows -----------------------------------------------

  /** A fixed code takes its value off, but never more than the cart. */
  lemma FixedIsTheLesser(promo: Promo, subtotal: int)
    requires promo.kind.Fixed?
    ensures subtotal >= 0 ==>
      && ComputeDiscount(promo, subtotal) <= promo.value && ComputeDiscount(promo, subtotal) <= subtotal
      && (ComputeDiscount(promo, subtotal) == promo.value || ComputeDiscount(promo, subtotal) == subtotal)
    ensures subtotal < 0 ==> ComputeDiscount(promo, subtotal) == 0
  {}

  /** A cart that a code would leave nothing to charge on: one worth nothing, one no
      larger than a fixed code, or one whose percentage rounds up to the whole. */
  predicate Swallowed(promo: Promo, subtotal: int) {
    || subtotal <= 0
    || (promo.kind.Fixed? && promo.value >= subtotal)
    || (promo.kind.Percent? && subtotal * promo.value + 5000 >= 10000 * subtotal)
  }

  lemma SwallowedIff(promo: Promo, subtotal: int)
    ensures ComputeDiscount(promo, subtotal) >= subtotal <==> Swallowed(promo, subtotal)
  {
    if promo.kind.Percent? && subtotal > 0 {
      var n := subtotal * promo.value;
      assert n >= 0;
      var r := DivRound(n, 10000);
      assert 20000 * r <= 2 * n + 10000 < 20000 * r + 20000;
    }
  }

  /** What speaks against a code, in the order it is looked at. */
  function CodeChecks(promo: Promo, subtotal: int, currency: string, now: int): seq<(bool, PromoFailure)> {
    [(!promo.active, Inactive),
     (promo.startsAt.Some? && promo.startsAt.value > now, NotStarted),
     (promo.endsAt.Some? && promo.endsAt.value < now, Ended),
     (promo.cap.Some? && promo.cap.value <= promo.count, CapReached),
     (promo.minOrder.Some? && promo.minOrder.value > subtotal, BelowMinimum),
     (promo.kind.Fixed? && promo.currency.Some? && Upper(promo.currency.value) != Upper(currency), WrongCurrency),
     (Swallowed(promo, subtotal), TooLarge)]
  }

  /** A code is refused for the first check that fails, and accepted if none does. */
  lemma CodeAnswer(promo: Promo, subtotal: int, currency: string, now: int)
    ensures FirstFailing(ValidateCode(promo, subtotal, currency, now), CodeChecks(promo, subtotal, currency, now))
  {
    SwallowedIff(promo, subtotal);
    hide ComputeDiscount, Swallowed, Upper;
    var checks := CodeChecks(promo, subtotal, currency, now);
    if ValidateCode(promo, subtotal, currency, now).Some? {
      assert checks[0].0 || checks[1].0 || checks[2].0 || checks[3].0 || checks[4].0 || checks[5].0 || checks[6].0;
    }
  }
}

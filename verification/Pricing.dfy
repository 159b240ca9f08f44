/** Reserved-seat price resolution: the per-seat rule (events/pricing.py) and the
    bulk form every money path uses (orders/services.py). */
module Pricing {
  import opened Tables
  import opened Schema

  datatype Source = FromZone(zone: nat) | FromTier(tier: nat, currency: string)

  datatype Price = Price(amount: int, source: Source)

  // --- the simple form --------------------------------------------------

  predicate TierMatches(t: PriceTier, performance: Option<nat>, section: nat) {
    t.performance == performance && t.section == Some(section)
  }

  /** `.first()` of the tiers for a section and a performance (or for the chart). */
  function FirstTier(tiers: seq<PriceTier>, performance: Option<nat>, section: nat): Option<PriceTier> {
    if tiers == [] then None
    else if TierMatches(tiers[0], performance, section) then Some(tiers[0])
    else FirstTier(tiers[1..], performance, section)
  }

  /** resolve_seat_tier: the performance's override, else the chart-wide default. */
  function ResolveSeatTier(book: PriceBook, perf: nat, section: nat): Option<PriceTier> {
    match FirstTier(book.tiers, Some(perf), section)
    case Some(t) => Some(t)
    case None => FirstTier(book.tiers, None, section)
  }

  predicate Covers(z: Zone, perf: nat, seat: nat) {
    z.performance == perf && seat in z.seats
  }

  /** `.first()` of the performance's zones that hold the seat. */
  function FirstZone(zones: seq<Zone>, perf: nat, seat: nat): Option<Zone> {
    if zones == [] then None
    else
      match FirstZone(zones[..|zones| - 1], perf, seat)
      case Some(z) => Some(z)
      case None =>
        var z := zones[|zones| - 1];
        if Covers(z, perf, seat) then Some(z) else None
  }

  function PriceFrom(zone: Option<Zone>, tier: Option<PriceTier>): Option<Price> {
    match zone
    case Some(z) => Some(Price(z.amount, FromZone(z.id)))
    case None =>
      match tier
      case Some(t) => Some(Price(t.amount, FromTier(t.id, t.currency)))
      case None => None
  }

  /** resolve_seat_price; None where the code raises PricingError. */
  function ResolveSeatPrice(book: PriceBook, perf: nat, seat: Seat): Option<Price> {
    PriceFrom(FirstZone(book.zones, perf, seat.id), ResolveSeatTier(book, perf, seat.section))
  }

  // --- the bulk form ----------------------------------------------------

  /** The zone the dictionary loop leaves for a seat: the last one wins. */
  function LastZone(zones: seq<Zone>, perf: nat, seat: nat): Option<Zone> {
    if zones == [] then None
    else
      var z := zones[|zones| - 1];
      if Covers(z, perf, seat) then Some(z) else LastZone(zones[..|zones| - 1], perf, seat)
  }

  function BulkPrice(book: PriceBook, perf: nat, seat: Seat): Option<Price> {
    PriceFrom(LastZone(book.zones, perf, seat.id), ResolveSeatTier(book, perf, seat.section))
  }

  /** Foreign keys and primary keys of the venue tables. */
  predicate VenueOk(book: PriceBook) {
    && (forall i :: 0 <= i < |book.seats| ==> Section(book.seats[i].section, book.seats[i].chart) in book.sections)
    && (forall i, j :: 0 <= i < j < |book.seats| ==> book.seats[i].id != book.seats[j].id)
  }

  /** What a seat -> zone dictionary must hold for a performance. */
  ghost predicate ZoneIndex(index: map<nat, Zone>, zones: seq<Zone>, perf: nat) {
    forall s: nat :: LastZone(zones, perf, s) == if s in index then Some(index[s]) else None
  }

  /** zones_by_seat_id. */
  method ZonesBySeatId(book: PriceBook, perf: nat) returns (index: map<nat, Zone>)
    ensures ZoneIndex(index, book.zones, perf)
  {
    index := map[];
    for i := 0 to |book.zones|
      invariant ZoneIndex(index, book.zones[..i], perf)
    {
      var z := book.zones[i];
      ghost var before := index;
      if z.performance == perf {
        var todo := z.seats;
        while todo != {}
          invariant todo <= z.seats
          invariant forall s: nat :: (s in index <==> s in before || s in z.seats - todo)
          invariant forall s: nat :: s in index ==> index[s] == if s in z.seats - todo then z else before[s]
          decreases |todo|
        {
          var s :| s in todo;
          index := index[s := z];
          todo := todo - {s};
        }
      }
      assert book.zones[..i + 1][..i] == book.zones[..i];
    }
    assert book.zones[..|book.zones|] == book.zones;
  }

  /** price_tiers_by_section: every section of the chart that a tier resolves for. */
  method PriceTiersBySection(book: PriceBook, perf: nat, chart: nat) returns (tiers: map<nat, PriceTier>)
    ensures forall s :: Section(s, chart) in book.sections ==>
      ResolveSeatTier(book, perf, s) == if s in tiers then Some(tiers[s]) else None
  {
    tiers := map[];
    for i := 0 to |book.sections|
      invariant forall s :: s in tiers ==> ResolveSeatTier(book, perf, s) == Some(tiers[s])
      invariant forall s :: Section(s, chart) in book.sections[..i] && s !in tiers ==>
          ResolveSeatTier(book, perf, s) == None
    {
      var section := book.sections[i];
      if section.chart == chart {
        var tier := ResolveSeatTier(book, perf, section.id);
        if tier.Some? {
          tiers := tiers[section.id := tier.value];
        }
      }
    }
  }

  /** resolve_reserved_prices: every seat of the chart, keyed by its id. */
  method ResolveReservedPrices(book: PriceBook, perf: nat, chart: nat) returns (prices: map<nat, Price>)
    requires VenueOk(book)
    ensures forall i :: 0 <= i < |book.seats| && book.seats[i].chart == chart ==>
      var seat := book.seats[i];
      BulkPrice(book, perf, seat) == if seat.id in prices then Some(prices[seat.id]) else None
    ensures forall s :: s in prices ==>
            exists i :: 0 <= i < |book.seats| && book.seats[i].id == s && book.seats[i].chart == chart
  {
    var tiersBySection := PriceTiersBySection(book, perf, chart);
    var zonesBySeat := ZonesBySeatId(book, perf);
    prices := map[];
    for i := 0 to |book.seats|
      invariant forall j :: 0 <= j < i && book.seats[j].chart == chart ==>
        var seat := book.seats[j];
        BulkPrice(book, perf, seat) == if seat.id in prices then Some(prices[seat.id]) else None
      invariant forall s :: s in prices ==>
          exists j :: 0 <= j < i && book.seats[j].id == s && book.seats[j].chart == chart
    {
      var seat := book.seats[i];
      if seat.chart == chart {
        if seat.id in zonesBySeat {
          var z := zonesBySeat[seat.id];
          prices := prices[seat.id := Price(z.amount, FromZone(z.id))];
        } else if seat.section in tiersBySection {
          var t := tiersBySection[seat.section];
          prices := prices[seat.id := Price(t.amount, FromTier(t.id, t.currency))];
        }
      }
    }
  }

  // --- agreement --------------------------------------------------------

  /** "A seat belongs to at most one zone per performance." */
  ghost predicate AtMostOneZone(zones: seq<Zone>, perf: nat) {
    forall i, j :: 0 <= i < j < |zones| && zones[i].performance == perf && zones[j].performance == perf ==>
      zones[i].seats !! zones[j].seats
  }

  ghost predicate ZoneIdsDistinct(zones: seq<Zone>) {
    forall i, j :: 0 <= i < j < |zones| ==> zones[i].id != zones[j].id
  }

  lemma {:induction false} FirstZoneIsLeast(zones: seq<Zone>, perf: nat, seat: nat, k: nat)
    requires k < |zones| && Covers(zones[k], perf, seat)
    requires forall i :: 0 <= i < k ==> !Covers(zones[i], perf, seat)
    ensures FirstZone(zones, perf, seat) == Some(zones[k])
  {
    var init := zones[..|zones| - 1];
    if k < |init| {
      FirstZoneIsLeast(init, perf, seat, k);
    } else {
      NoZone(init, perf, seat);
    }
  }

  lemma {:induction false} NoZone(zones: seq<Zone>, perf: nat, seat: nat)
    requires forall i :: 0 <= i < |zones| ==> !Covers(zones[i], perf, seat)
    ensures FirstZone(zones, perf, seat) == None == LastZone(zones, perf, seat)
  {
    if zones != [] { NoZone(zones[..|zones| - 1], perf, seat); }
  }

  lemma {:induction false} LastZoneIsGreatest(zones: seq<Zone>, perf: nat, seat: nat, k: nat)
    requires k < |zones| && Covers(zones[k], perf, seat)
    requires forall i :: k < i < |zones| ==> !Covers(zones[i], perf, seat)
    ensures LastZone(zones, perf, seat) == Some(zones[k])
  {
    if k < |zones| - 1 {
      LastZoneIsGreatest(zones[..|zones| - 1], perf, seat, k);
    }
  }

  lemma LeastCovering(zones: seq<Zone>, perf: nat, seat: nat, i: nat) returns (k: nat)
    requires i < |zones| && Covers(zones[i], perf, seat)
    ensures k <= i && Covers(zones[k], perf, seat)
    ensures forall j :: 0 <= j < k ==> !Covers(zones[j], perf, seat)
  {
    k := 0;
    while !Covers(zones[k], perf, seat)
      invariant k <= i
      invariant forall j :: 0 <= j < k ==> !Covers(zones[j], perf, seat)
      decreases i - k
    {
      k := k + 1;
    }
  }

  lemma GreatestCovering(zones: seq<Zone>, perf: nat, seat: nat, i: nat) returns (k: nat)
    requires i < |zones| && Covers(zones[i], perf, seat)
    ensures i <= k < |zones| && Covers(zones[k], perf, seat)
    ensures forall j :: k < j < |zones| ==> !Covers(zones[j], perf, seat)
  {
    k := |zones| - 1;
    while !Covers(zones[k], perf, seat)
      invariant i <= k < |zones|
      decreases k
      invariant forall j :: k < j < |zones| ==> !Covers(zones[j], perf, seat)
    {
      k := k - 1;
    }
  }

  /** The bulk form gives every seat the price and the source the simple form
      gives it, exactly when no seat is in two zones of the performance. */
  lemma BulkAgreesIff(book: PriceBook, perf: nat)
    requires ZoneIdsDistinct(book.zones)
    ensures (forall seat: Seat :: BulkPrice(book, perf, seat) == ResolveSeatPrice(book, perf, seat))
            <==> AtMostOneZone(book.zones, perf)
  {
    var zones := book.zones;
    if AtMostOneZone(zones, perf) {
      forall seat: Seat ensures BulkPrice(book, perf, seat) == ResolveSeatPrice(book, perf, seat) {
        if i: nat :| i < |zones| && Covers(zones[i], perf, seat.id) {
          var a := LeastCovering(zones, perf, seat.id, i);
          var b := GreatestCovering(zones, perf, seat.id, i);
          FirstZoneIsLeast(zones, perf, seat.id, a);
          LastZoneIsGreatest(zones, perf, seat.id, b);
          assert a == b;
        } else {
          NoZone(zones, perf, seat.id);
        }
      }
    } else {
      var i, j :| 0 <= i < j < |zones| && zones[i].performance == perf && zones[j].performance == perf
        && !(zones[i].seats !! zones[j].seats);
      var s :| s in zones[i].seats && s in zones[j].seats;
      var a := LeastCovering(zones, perf, s, i);
      var b := GreatestCovering(zones, perf, s, j);
      FirstZoneIsLeast(zones, perf, s, a);
      LastZoneIsGreatest(zones, perf, s, b);
      assert BulkPrice(book, perf, Seat(s, 0, 0)) != ResolveSeatPrice(book, perf, Seat(s, 0, 0));
    }
  }

  // --- said over the rows -----------------------------------------------

  /** The row is a price of the section for that performance, or for the whole chart. */
  predicate Prices(tiers: seq<PriceTier>, k: int, performance: Option<nat>, section: nat) {
    0 <= k < |tiers| && tiers[k].section == Some(section) && tiers[k].performance == performance
  }

  lemma {:induction false} FirstTierIs(tiers: seq<PriceTier>, performance: Option<nat>, section: nat)
    ensures match FirstTier(tiers, performance, section)
            case None => forall k :: !Prices(tiers, k, performance, section)
            case Some(t) => exists k :: Prices(tiers, k, performance, section) && tiers[k] == t
                                        && forall j :: 0 <= j < k ==> !Prices(tiers, j, performance, section)
  {
    if tiers != [] {
      var rest := tiers[1..];
      FirstTierIs(rest, performance, section);
      if TierMatches(tiers[0], performance, section) {
        assert Prices(tiers, 0, performance, section);
      } else if FirstTier(rest, performance, section).Some? {
        var k :| Prices(rest, k, performance, section) && rest[k] == FirstTier(rest, performance, section).value
          && forall j :: 0 <= j < k ==> !Prices(rest, j, performance, section);
        assert Prices(tiers, k + 1, performance, section);
        forall j | 0 <= j < k + 1 ensures !Prices(tiers, j, performance, section) {
          assert j > 0 ==> Prices(tiers, j, performance, section) == Prices(rest, j - 1, performance, section);
        }
      } else {
        forall k ensures !Prices(tiers, k, performance, section) {
          assert k > 0 ==> Prices(tiers, k, performance, section) == Prices(rest, k - 1, performance, section);
        }
      }
    }
  }

  /** The first row that prices the section, for the performance if there is one, else
      for the whole chart. */
  ghost predicate TierRow(book: PriceBook, perf: nat, section: nat, k: int) {
    && 0 <= k < |book.tiers|
    && (Prices(book.tiers, k, Some(perf), section)
        || (Prices(book.tiers, k, None, section) && forall j :: !Prices(book.tiers, j, Some(perf), section)))
    && forall j :: 0 <= j < k ==> !Prices(book.tiers, j, book.tiers[k].performance, section)
  }

  /** A section's tier is the performance's override; only without one is it the chart's
      default, and only without either is there none. */
  lemma OverrideBeforeDefault(book: PriceBook, perf: nat, section: nat)
    ensures match ResolveSeatTier(book, perf, section)
            case None =>
              forall k :: !Prices(book.tiers, k, Some(perf), section) && !Prices(book.tiers, k, None, section)
            case Some(t) => exists k :: TierRow(book, perf, section, k) && book.tiers[k] == t
  {
    FirstTierIs(book.tiers, Some(perf), section);
    FirstTierIs(book.tiers, None, section);
    hide FirstTier;
    if ResolveSeatTier(book, perf, section).Some? {
      var performance := if FirstTier(book.tiers, Some(perf), section).Some? then Some(perf) else None;
      var k :| Prices(book.tiers, k, performance, section)
        && book.tiers[k] == FirstTier(book.tiers, performance, section).value
        && forall j :: 0 <= j < k ==> !Prices(book.tiers, j, performance, section);
      assert TierRow(book, perf, section, k);
    }
  }

  /** The zone of the performance that decides the price of a seat: the last one that has
      the seat in the bulk form, the first one in the per-seat form. */
  ghost predicate ZoneRow(zones: seq<Zone>, perf: nat, seat: nat, z: int, bulk: bool) {
    && 0 <= z < |zones| && zones[z].performance == perf && seat in zones[z].seats
    && forall j :: 0 <= j < |zones| && (if bulk then j > z else j < z) ==>
         !(zones[j].performance == perf && seat in zones[j].seats)
  }

  /** The price a seat has: that of its zone, or else that of its section. */
  ghost predicate PricedBy(book: PriceBook, perf: nat, seat: Seat, p: Price, bulk: bool) {
    || (exists z :: ZoneRow(book.zones, perf, seat.id, z, bulk)
                    && p == Price(book.zones[z].amount, FromZone(book.zones[z].id)))
    || ((forall z :: 0 <= z < |book.zones| ==> !(book.zones[z].performance == perf && seat.id in book.zones[z].seats))
        && exists k :: TierRow(book, perf, seat.section, k)
                       && p == Price(book.tiers[k].amount, FromTier(book.tiers[k].id, book.tiers[k].currency)))
  }

  /** No zone of the performance has the seat, and no row prices its section. */
  ghost predicate Unpriced(book: PriceBook, perf: nat, seat: Seat) {
    && (forall z :: 0 <= z < |book.zones| ==> !(book.zones[z].performance == perf && seat.id in book.zones[z].seats))
    && (forall k :: !Prices(book.tiers, k, Some(perf), seat.section) && !Prices(book.tiers, k, None, seat.section))
  }

  /** The zone of a seat decides its price, before the performance's override, before
      the chart's default; both forms refuse exactly the seats that have none of them. */
  lemma PriceIs(book: PriceBook, perf: nat, seat: Seat)
    ensures match BulkPrice(book, perf, seat)
            case None => Unpriced(book, perf, seat)
            case Some(p) => PricedBy(book, perf, seat, p, true) && !Unpriced(book, perf, seat)
    ensures match ResolveSeatPrice(book, perf, seat)
            case None => Unpriced(book, perf, seat)
            case Some(p) => PricedBy(book, perf, seat, p, false) && !Unpriced(book, perf, seat)
  {
    OverrideBeforeDefault(book, perf, seat.section);
    hide ResolveSeatTier;
    var zones := book.zones;
    if i: nat :| i < |zones| && Covers(zones[i], perf, seat.id) {
      var a := LeastCovering(zones, perf, seat.id, i);
      var b := GreatestCovering(zones, perf, seat.id, i);
      FirstZoneIsLeast(zones, perf, seat.id, a);
      LastZoneIsGreatest(zones, perf, seat.id, b);
      assert ZoneRow(zones, perf, seat.id, a, false) && ZoneRow(zones, perf, seat.id, b, true);
    } else {
      NoZone(zones, perf, seat.id);
      if ResolveSeatTier(book, perf, seat.section).Some? {
        var k :| TierRow(book, perf, seat.section, k)
          && book.tiers[k] == ResolveSeatTier(book, perf, seat.section).value;
      }
    }
  }

  /** The rows that price the sections for a performance are the same, in the same order. */
  ghost predicate SameOverrides(tiers: seq<PriceTier>, edited: seq<PriceTier>, perf: nat) {
    |tiers| == |edited|
    && forall k :: 0 <= k < |tiers| && (tiers[k].performance == Some(perf) || edited[k].performance == Some(perf)) ==>
         tiers[k] == edited[k]
  }

  lemma {:induction false} SameOverride(tiers: seq<PriceTier>, edited: seq<PriceTier>, perf: nat, section: nat)
    requires SameOverrides(tiers, edited, perf)
    ensures FirstTier(tiers, Some(perf), section) == FirstTier(edited, Some(perf), section)
  {
    if tiers != [] { SameOverride(tiers[1..], edited[1..], perf, section); }
  }

  /** So an edit of chart-wide prices, or of other performances', changes no price of a
      performance that overrides the section. */
  lemma DefaultsCannotReachAnOverride(book: PriceBook, tiers: seq<PriceTier>, perf: nat, seat: Seat, k: int)
    requires SameOverrides(book.tiers, tiers, perf) && Prices(book.tiers, k, Some(perf), seat.section)
    ensures BulkPrice(book.(tiers := tiers), perf, seat) == BulkPrice(book, perf, seat)
    ensures ResolveSeatPrice(book.(tiers := tiers), perf, seat) == ResolveSeatPrice(book, perf, seat)
  {
    SameOverride(book.tiers, tiers, perf, seat.section);
    FirstTierIs(book.tiers, Some(perf), seat.section);
  }
}

/** Pricing-zone mutations (events/zones.py) and the invariant they keep: a seat is
    in at most one zone per performance. */
module Zones {
  import opened Tables
  import opened Schema
  import opened Pricing

  datatype Template = Template(id: nat, name: string)

  datatype ZoneFailure = NoSeats | AmbiguousTemplate

  datatype Table = Table(zones: seq<Zone>, nextId: nat)

  // --- specification ----------------------------------------------------

  predicate IsFor(z: Zone, perf: nat, template: nat) {
    z.performance == perf && z.template == Some(template)
  }

  function Matching(perf: nat, template: nat): Zone -> int {
    (z: Zone) => if IsFor(z, perf, template) then 1 else 0
  }

  function MatchCount(zones: seq<Zone>, perf: nat, template: nat): int {
    Sum(zones, Matching(perf, template))
  }

  /** What apply_zone makes of one zone row, once the target row exists. */
  function Applied(perf: nat, ids: set<nat>, amount: int, t: Template): Zone -> Zone {
    (z: Zone) =>
      if IsFor(z, perf, t.id) then z.(name := t.name, amount := amount, seats := z.seats + ids)
      else if z.performance == perf then z.(seats := z.seats - ids)
      else z
  }

  /** apply_zone. `get_or_create` fails when a clone left two zones of one template. */
  function ApplyZone(db: Table, perf: nat, ids: set<nat>, amount: int, t: Template): Result<Table, ZoneFailure> {
    if ids == {} then Err(NoSeats)
    else if MatchCount(db.zones, perf, t.id) > 1 then Err(AmbiguousTemplate)
    else
      var target := if MatchCount(db.zones, perf,
          t.id) == 1 then [] else [Zone(db.nextId, perf, Some(t.id), t.name, amount, {})];
      Ok(Table(MapRows(db.zones + target, Applied(perf, ids, amount, t)), db.nextId + |target|))
  }

  /** remove_seats_from_zone. */
  function RemoveSeats(db: Table, zone: nat, ids: set<nat>): Table {
    db.(zones := MapRows(db.zones, (z: Zone) => if z.id == zone then z.(seats := z.seats - ids) else z))
  }

  function OtherThan(zone: nat): Zone -> bool {
    (z: Zone) => z.id != zone
  }

  /** delete_zone. */
  function DeleteZone(db: Table, zone: nat): Table {
    db.(zones := Filter(db.zones, OtherThan(zone)))
  }

  function On(perf: nat): Zone -> bool {
    (z: Zone) => z.performance == perf
  }

  function OfPerformance(zones: seq<Zone>, perf: nat): seq<Zone> {
    Filter(zones, On(perf))
  }

  /** clone_zones_from_performance; `chart` is the target's own seat ids. */
  function CloneZones(db: Table, target: nat, source: nat, chart: set<nat>): Table {
    var from := OfPerformance(db.zones, source);
    Table(db.zones + Copies(from, target, db.nextId, chart), db.nextId + |from|)
  }

  function Copies(from: seq<Zone>, target: nat, firstId: nat, chart: set<nat>): seq<Zone> {
    seq(|from|, k requires 0 <= k < |from| =>
      Zone(firstId + k, target, from[k].template, from[k].name, from[k].amount, from[k].seats * chart))
  }

  // --- the service ------------------------------------------------------

  class ZoneService {
    var zones: seq<Zone>
    var nextId: nat

    function Snapshot(): Table
      reads this
    {
      Table(zones, nextId)
    }

    constructor ()
      ensures Snapshot() == Table([], 0)
    {
      zones, nextId := [], 0;
    }

    method Apply(perf: nat, ids: set<nat>, amount: int, template: Template) returns (r: Result<nat, ZoneFailure>)
      modifies this
      ensures match ApplyZone(old(Snapshot()), perf, ids, amount, template)
              case Err(e) => r == Err(e) && Snapshot() == old(Snapshot())
              case Ok(db) => Snapshot() == db && r.Ok? &&
                             exists z :: z in zones && z.id == r.value && IsFor(z, perf, template.id) && ids <= z.seats
    {
      if ids == {} { return Err(NoSeats); }
      // get_or_create
      var found, at := 0, 0;
      for i := 0 to |zones|
        invariant found == MatchCount(zones[..i], perf, template.id)
        invariant found > 0 ==> at < i && IsFor(zones[at], perf, template.id)
        invariant 0 <= found <= 1 ==> forall j :: 0 <= j < i && IsFor(zones[j], perf, template.id) ==>
            found == 1 && j == at
        invariant found >= 0
      {
        assert zones[..i + 1][..i] == zones[..i];
        if IsFor(zones[i], perf, template.id) {
          found, at := found + 1, i;
        }
      }
      assert zones[..|zones|] == zones;
      if found > 1 { return Err(AmbiguousTemplate); }
      ghost var base := zones + if found == 1 then [] else [Zone(nextId, perf, Some(template.id), template.name, amount,
          {})];
      if found == 0 {
        at := |zones|;
        zones := zones + [Zone(nextId, perf, Some(template.id), template.name, amount, {})];
        nextId := nextId + 1;
      } else {
        zones := zones[at := zones[at].(name := template.name, amount := amount)];
      }
      // Pull the seats out of every other zone of the performance.
      ghost var priced, next := zones, nextId;
      for i := 0 to |zones|
        invariant nextId == next && |zones| == |priced|
        invariant forall j :: 0 <= j < |zones| ==>
          zones[j] == if j < i && j != at && priced[j].performance == perf
                      then priced[j].(seats := priced[j].seats - ids) else priced[j]
      {
        if i != at && zones[i].performance == perf {
          zones := zones[i := zones[i].(seats := zones[i].seats - ids)];
        }
      }
      zones := zones[at := zones[at].(seats := zones[at].seats + ids)];
      assert zones == MapRows(base, Applied(perf, ids, amount, template));
      assert zones[at] in zones;
      return Ok(zones[at].id);
    }

    method Remove(zone: nat, ids: set<nat>)
      modifies this
      ensures Snapshot() == RemoveSeats(old(Snapshot()), zone, ids)
    {
      for i := 0 to |zones|
        invariant nextId == old(nextId) && |zones| == |old(zones)|
        invariant forall j :: 0 <= j < |zones| ==>
          zones[j] == if j < i && old(zones)[j].id == zone then old(zones)[j].(seats := old(zones)[j].seats - ids)
                      else old(zones)[j]
      {
        if zones[i].id == zone {
          zones := zones[i := zones[i].(seats := zones[i].seats - ids)];
        }
      }
      assert zones == RemoveSeats(old(Snapshot()), zone, ids).zones;
    }

    method Delete(zone: nat)
      modifies this
      ensures Snapshot() == DeleteZone(old(Snapshot()), zone) && nextId == old(nextId)
      ensures forall z :: z in zones <==> z in old(zones) && z.id != zone
      ensures ZonesOk(old(Snapshot())) ==> ZonesOk(Snapshot())
    {
      if ZonesOk(Snapshot()) { DeleteKeepsZones(Snapshot(), zone); }
      FilterMembers(zones, OtherThan(zone));
      zones := Filter(zones, OtherThan(zone));
    }

    method Clone(target: nat, source: nat, chart: set<nat>) returns (created: seq<Zone>)
      modifies this
      ensures Snapshot() == CloneZones(old(Snapshot()), target, source, chart)
      ensures zones == old(zones) + created
      ensures forall z :: z in created ==> z.performance == target && z.seats <= chart
    {
      created := [];
      var from := OfPerformance(zones, source);
      ghost var first := nextId;
      for k := 0 to |from|
        invariant nextId == first + k
        invariant created == Copies(from, target, first, chart)[..k]
        invariant zones == old(zones) + created
        invariant forall z :: z in created ==> z.performance == target && z.seats <= chart
      {
        var copy := Zone(nextId, target, from[k].template, from[k].name, from[k].amount, from[k].seats * chart);
        assert copy == Copies(from, target, first, chart)[k];
        zones := zones + [copy];
        created := created + [copy];
        nextId := nextId + 1;
      }
    }
  }

  // --- the invariant over runs ------------------------------------------

  /** Every performance's zones are disjoint, and ids are fresh. */
  ghost predicate ZonesOk(db: Table) {
    && (forall i, j :: 0 <= i < j < |db.zones| && db.zones[i].performance == db.zones[j].performance ==>
          db.zones[i].seats !! db.zones[j].seats)
    && ZoneIdsDistinct(db.zones)
    && forall i :: 0 <= i < |db.zones| ==> db.zones[i].id < db.nextId
  }

  lemma {:induction false} AtMostOneMatch(zones: seq<Zone>, perf: nat, template: nat)
    requires MatchCount(zones, perf, template) <= 1
    ensures forall i, j :: 0 <= i < j < |zones| ==>
            !(IsFor(zones[i], perf, template) && IsFor(zones[j], perf, template))
  {
    var one := Matching(perf, template);
    forall i, j | 0 <= i < j < |zones| && IsFor(zones[i], perf, template) && IsFor(zones[j], perf, template)
      ensures false
    {
      SumAtLeast(zones[..j], one, i);
      SumConcat(zones[..j + 1], zones[j + 1..], one);
      assert zones[..j + 1] + zones[j + 1..] == zones && zones[..j + 1][..j] == zones[..j];
      SumNonNegative(zones[j + 1..], one);
    }
  }

  lemma {:induction false} SomeMatch(zones: seq<Zone>, perf: nat, template: nat)
    requires MatchCount(zones, perf, template) < 1
    ensures forall i :: 0 <= i < |zones| ==> !IsFor(zones[i], perf, template)
  {
    var one := Matching(perf, template);
    forall i: nat | i < |zones| && IsFor(zones[i], perf, template) ensures false { SumAtLeast(zones, one, i); }
  }

  /** The row that apply_zone gets or creates takes in every requested seat. */
  lemma AppliedCovers(db: Table, perf: nat, ids: set<nat>, amount: int, t: Template) returns (k: nat)
    requires ZonesOk(db) && ApplyZone(db, perf, ids, amount, t).Ok?
    ensures var zones := ApplyZone(db, perf, ids, amount, t).value.zones;
            k < |zones| && IsFor(zones[k], perf, t.id) && zones[k].amount == amount && ids <= zones[k].seats
  {
    if MatchCount(db.zones, perf, t.id) == 1 {
      if forall i :: 0 <= i < |db.zones| ==>
          !IsFor(db.zones[i], perf, t.id) { SumZero(db.zones, Matching(perf, t.id)); }
      k :| 0 <= k < |db.zones| && IsFor(db.zones[k], perf, t.id);
    } else {
      SumNonNegative(db.zones, Matching(perf, t.id));
      k := |db.zones|;
    }
  }

  lemma ApplyKeepsZones(db: Table, perf: nat, ids: set<nat>, amount: int, t: Template)
    requires ZonesOk(db) && ApplyZone(db, perf, ids, amount, t).Ok?
    ensures ZonesOk(ApplyZone(db, perf, ids, amount, t).value)
    // The requested seats all end up in a zone of this template at this price, and in no other.
    ensures var zones := ApplyZone(db, perf, ids, amount, t).value.zones;
            && (exists z :: z in zones && IsFor(z, perf, t.id) && z.amount == amount && ids <= z.seats)
            && (forall z, s :: z in zones && s in ids && Covers(z, perf, s) ==>
                  IsFor(z, perf, t.id) && z.amount == amount)
  {
    AtMostOneMatch(db.zones, perf, t.id);
    if MatchCount(db.zones, perf, t.id) < 1 { SomeMatch(db.zones, perf, t.id); }
    var k := AppliedCovers(db, perf, ids, amount, t);
    assert ApplyZone(db, perf, ids, amount, t).value.zones[k] in ApplyZone(db, perf, ids, amount, t).value.zones;
  }

  /** In a table with one zone per seat the zone that covers a seat prices it. */
  lemma CoveredPrice(book: PriceBook, perf: nat, seat: Seat, k: nat)
    requires AtMostOneZone(book.zones, perf) && k < |book.zones| && Covers(book.zones[k], perf, seat.id)
    ensures BulkPrice(book, perf, seat) == Some(Price(book.zones[k].amount, FromZone(book.zones[k].id)))
  {
    LastZoneIsGreatest(book.zones, perf, seat.id, k);
  }

  /** The bulk form prices these seats from one zone. */
  ghost predicate PricedFrom(book: PriceBook, perf: nat, ids: set<nat>, amount: int, zone: nat) {
    forall seat: Seat :: seat.id in ids ==> BulkPrice(book, perf, seat) == Some(Price(amount, FromZone(zone)))
  }

  /** After apply_zone every requested seat has the new price, from the template's zone. */
  lemma ApplyPricesTheSeats(db: Table, perf: nat, ids: set<nat>, amount: int, t: Template, book: PriceBook)
    requires ZonesOk(db) && ApplyZone(db, perf, ids, amount, t).Ok?
    requires book.zones == ApplyZone(db, perf, ids, amount, t).value.zones
    ensures exists target: nat :: PricedFrom(book, perf, ids, amount, target)
  {
    ApplyKeepsZones(db, perf, ids, amount, t);
    var k := AppliedCovers(db, perf, ids, amount, t);
    var target := book.zones[k].id;
    hide ApplyZone;
    forall seat: Seat | seat.id in ids ensures BulkPrice(book, perf, seat) == Some(Price(amount, FromZone(target))) {
      CoveredPrice(book, perf, seat, k);
    }
    assert PricedFrom(book, perf, ids, amount, target);
  }

  lemma DeleteKeepsZones(db: Table, zone: nat)
    requires ZonesOk(db)
    ensures ZonesOk(DeleteZone(db, zone))
    ensures forall z :: z in DeleteZone(db, zone).zones <==> z in db.zones && z.id != zone
  {
    var kept := Filter(db.zones, OtherThan(zone));
    forall i: nat, j: nat | i < j < |kept|
      ensures kept[i].id != kept[j].id
      ensures (kept[i].performance == kept[j].performance ==> kept[i].seats !! kept[j].seats)
    {
      var a, b := FilterPair(db.zones, OtherThan(zone), i, j);
    }
    FilterMembers(db.zones, OtherThan(zone));
    assert forall i :: 0 <= i < |kept| ==> kept[i] in db.zones;
  }

  /** Deleting a zone sends its seats back to their section's price, and changes the
      price of no other seat. */
  lemma DeleteFallsBackToTiers(db: Table, z: Zone, before: PriceBook, after: PriceBook, seat: Seat)
    requires ZonesOk(db) && z in db.zones && before.zones == db.zones
    requires after == before.(zones := DeleteZone(db, z.id).zones)
    ensures BulkPrice(after, z.performance, seat) ==
            if seat.id in z.seats then PriceFrom(None, ResolveSeatTier(before, z.performance, seat.section))
            else BulkPrice(before, z.performance, seat)
  {
    var perf := z.performance;
    DeleteKeepsZones(db, z.id);
    SameTiers(before, after, perf, seat.section);
    if i: nat :| i < |after.zones| && Covers(after.zones[i], perf, seat.id) {
      assert after.zones[i] in after.zones;
      var j :| 0 <= j < |db.zones| && db.zones[j] == after.zones[i];
      var k :| 0 <= k < |db.zones| && db.zones[k] == z;
      CoveredPrice(after, perf, seat, i);
      CoveredPrice(before, perf, seat, j);
      assert seat.id !in z.seats;
    } else {
      NoZone(after.zones, perf, seat.id);
      if seat.id !in z.seats { OnlyCoveredByDeleted(db, z, perf, seat.id); }
    }
  }

  lemma SameTiers(before: PriceBook, after: PriceBook, perf: nat, section: nat)
    requires after.tiers == before.tiers
    ensures ResolveSeatTier(after, perf, section) == ResolveSeatTier(before, perf, section)
  {}

  lemma OnlyCoveredByDeleted(db: Table, z: Zone, perf: nat, seat: nat)
    requires ZonesOk(db) && z in db.zones && seat !in z.seats
    requires forall i :: 0 <= i < |DeleteZone(db, z.id).zones| ==> !Covers(DeleteZone(db, z.id).zones[i], perf, seat)
    ensures LastZone(db.zones, perf, seat) == None
  {
    FilterMembers(db.zones, OtherThan(z.id));
    forall i | 0 <= i < |db.zones| ensures !Covers(db.zones[i], perf, seat) {
      if db.zones[i].id != z.id {
        assert db.zones[i] in db.zones && db.zones[i] in DeleteZone(db, z.id).zones;
      } else {
        var k :| 0 <= k < |db.zones| && db.zones[k] == z;
        assert i == k;
      }
    }
    NoZone(db.zones, perf, seat);
  }

  /** No seat the clone copies is already in a zone of the target. */
  ghost predicate CloneIsClear(db: Table, target: nat, source: nat, chart: set<nat>) {
    forall a, b :: a in db.zones && b in db.zones && a.performance == source && b.performance == target ==>
      a.seats * chart * b.seats == {}
  }

  /** Two rows of the table after a clear clone, in order. */
  lemma ClonePair(db: Table, target: nat, source: nat, chart: set<nat>, i: nat, j: nat)
    requires ZonesOk(db) && CloneIsClear(db, target, source, chart)
    requires i < j < |CloneZones(db, target, source, chart).zones|
    ensures var zones := CloneZones(db, target, source, chart).zones;
            zones[i].id != zones[j].id && (zones[i].performance == zones[j].performance ==>
                zones[i].seats !! zones[j].seats)
  {
    var from, n := OfPerformance(db.zones, source), |db.zones|;
    if i >= n {
      var a, b := FilterPair(db.zones, On(source), i - n, j - n);
      FilterMember(db.zones, On(source), from[i - n]);
      FilterMember(db.zones, On(source), from[j - n]);
      assert from[i - n] in from && from[j - n] in from;
    } else if j >= n {
      FilterMember(db.zones, On(source), from[j - n]);
      assert from[j - n] in from && db.zones[i] in db.zones;
      if db.zones[i].performance == target { ClearRow(db, target, source, chart, from[j - n], db.zones[i]); }
    }
  }

  lemma ClearRow(db: Table, target: nat, source: nat, chart: set<nat>, copied: Zone, z: Zone)
    requires CloneIsClear(db, target, source, chart)
    requires copied in db.zones && z in db.zones && copied.performance == source && z.performance == target
    ensures z.seats !! copied.seats * chart
  {
    var clash := copied.seats * chart * z.seats;
    assert forall s :: s in z.seats && s in copied.seats * chart ==> s in clash;
  }

  /** A copied seat that the target already had in a zone ends up in two. */
  lemma CloneClash(db: Table, target: nat, source: nat, chart: set<nat>, a: Zone, b: Zone)
    requires a in db.zones && b in db.zones && a.performance == source && b.performance == target
    requires a.seats * chart * b.seats != {}
    ensures !ZonesOk(CloneZones(db, target, source, chart))
  {
    var from, after := OfPerformance(db.zones, source), CloneZones(db, target, source, chart);
    FilterMember(db.zones, On(source), a);
    var k :| 0 <= k < |from| && from[k] == a;
    var i :| 0 <= i < |db.zones| && db.zones[i] == b;
    var s :| s in a.seats * chart * b.seats;
    assert after.zones[i] == b && s in after.zones[i].seats && s in after.zones[|db.zones| + k].seats;
  }

  /** The code does not clear the target first, so a clone keeps "one zone per
      seat" exactly when the target had no zone on any copied seat. */
  lemma CloneKeepsZonesIff(db: Table, target: nat, source: nat, chart: set<nat>)
    requires ZonesOk(db)
    ensures ZonesOk(CloneZones(db, target, source, chart)) <==> CloneIsClear(db, target, source, chart)
  {
    var after := CloneZones(db, target, source, chart);
    if CloneIsClear(db, target, source, chart) {
      forall i: nat, j: nat | i < j < |after.zones|
        ensures after.zones[i].id != after.zones[j].id
        ensures after.zones[i].performance == after.zones[j].performance ==>
                after.zones[i].seats !! after.zones[j].seats
      {
        ClonePair(db, target, source, chart, i, j);
      }
    } else {
      var a, b :| a in db.zones && b in db.zones && a.performance == source && b.performance == target
                  && a.seats * chart * b.seats != {};
      CloneClash(db, target, source, chart, a, b);
    }
  }

  // --- two zones of one template ----------------------------------------

  lemma TwoMatches(zones: seq<Zone>, perf: nat, template: nat, i: nat, j: nat)
    requires i < j < |zones| && IsFor(zones[i], perf, template) && IsFor(zones[j], perf, template)
    ensures MatchCount(zones, perf, template) > 1
  {
    var one := Matching(perf, template);
    SumAtLeast(zones[..j], one, i);
    SumAtLeast(zones[j..], one, 0);
    SumConcat(zones[..j], zones[j..], one);
    assert zones[..j] + zones[j..] == zones;
  }

  /** apply_zone cannot find its zone exactly when the performance has two of the template. */
  lemma ApplyFailsIff(db: Table, perf: nat, ids: set<nat>, amount: int, t: Template)
    ensures ApplyZone(db, perf, ids, amount, t) == Err(AmbiguousTemplate) <==>
              ids != {} && exists i, j :: 0 <= i < j < |db.zones|
                                          && IsFor(db.zones[i], perf, t.id) && IsFor(db.zones[j], perf, t.id)
  {
    if MatchCount(db.zones, perf, t.id) <= 1 {
      AtMostOneMatch(db.zones, perf, t.id);
    } else if forall i, j :: 0 <= i < j < |db.zones| ==>
        !(IsFor(db.zones[i], perf, t.id) && IsFor(db.zones[j], perf, t.id)) {
      SingleMatch(db.zones, perf, t.id);
    }
  }

  lemma {:induction false} SingleMatch(zones: seq<Zone>, perf: nat, template: nat)
    requires forall i, j :: 0 <= i < j < |zones| ==>
        !(IsFor(zones[i], perf, template) && IsFor(zones[j], perf, template))
    ensures MatchCount(zones, perf, template) <= 1
  {
    if zones != [] {
      var init := zones[..|zones| - 1];
      if IsFor(zones[|zones| - 1], perf, template) {
        SumZero(init, Matching(perf, template));
      } else {
        SingleMatch(init, perf, template);
      }
    }
  }

  lemma CloneMatches(db: Table, target: nat, source: nat, chart: set<nat>, template: nat)
    ensures MatchCount(CloneZones(db, target, source, chart).zones, target, template)
            == MatchCount(db.zones, target, template) + MatchCount(db.zones, source, template)
  {
    var from := OfPerformance(db.zones, source);
    var copies := Copies(from, target, db.nextId, chart);
    forall k | 0 <= k < |from| ensures from[k].performance == source {
      FilterMember(db.zones, On(source), from[k]);
    }
    SumConcat(db.zones, copies, Matching(target, template));
    SumSame(copies, Matching(target, template), from, Matching(source, template));
    SumFilter(db.zones, On(source), Matching(source, template), Matching(source, template));
  }

  /** After a clone apply_zone cannot be used for a template on the target exactly when
      target and source had more than one zone of it between them, however disjoint
      their seats: nothing makes performance and template unique. */
  lemma CloneMakesAmbiguousIff(db: Table, target: nat, source: nat, chart: set<nat>, ids: set<nat>, amount: int,
      t: Template)
    ensures ApplyZone(CloneZones(db, target, source, chart), target, ids, amount, t) == Err(AmbiguousTemplate) <==>
              ids != {} && MatchCount(db.zones, target, t.id) + MatchCount(db.zones, source, t.id) > 1
  {
    CloneMatches(db, target, source, chart, t.id);
    hide CloneZones, MatchCount;
  }

  datatype ZoneAction =
    | Apply(perf: nat, ids: set<nat>, amount: int, template: Template)
    | Remove(zone: nat, ids: set<nat>)
    | Delete(zone: nat)
    | Clone(target: nat, source: nat, chart: set<nat>)

  function Step(db: Table, a: ZoneAction): Table {
    match a
    case Apply(perf, ids, amount, t) =>
      (match ApplyZone(db, perf, ids, amount, t) case Ok(after) => after case Err(_) => db)
    case Remove(zone, ids) => RemoveSeats(db, zone, ids)
    case Delete(zone) => DeleteZone(db, zone)
    case Clone(target, source, chart) => CloneZones(db, target, source, chart)
  }

  function Run(db: Table, actions: seq<ZoneAction>): Table {
    if actions == [] then db else Step(Run(db, actions[..|actions| - 1]), actions[|actions| - 1])
  }

  /** Every clone of the run had a clear target when it was made. */
  ghost predicate ClonesClear(db: Table, actions: seq<ZoneAction>) {
    forall k :: 0 <= k < |actions| && actions[k].Clone? ==>
      CloneIsClear(Run(db, actions[..k]), actions[k].target, actions[k].source, actions[k].chart)
  }

  /** Over any run of zone edits whose clones were clear, a seat is in at most
      one zone per performance, so the bulk and the simple prices agree. */
  lemma {:induction false} BulkAgreesAlways(actions: seq<ZoneAction>, book: PriceBook, perf: nat)
    requires ClonesClear(Table([], 0), actions)
    requires book.zones == Run(Table([], 0), actions).zones
    ensures ZonesOk(Run(Table([], 0), actions))
    ensures forall seat: Seat :: BulkPrice(book, perf, seat) == ResolveSeatPrice(book, perf, seat)
  {
    RunKeepsZones(Table([], 0), actions);
    BulkAgreesIff(book, perf);
  }

  lemma {:induction false} RunKeepsZones(db: Table, actions: seq<ZoneAction>)
    requires ZonesOk(db) && ClonesClear(db, actions)
    ensures ZonesOk(Run(db, actions))
  {
    if actions != [] {
      var n := |actions| - 1;
      var init := actions[..n];
      forall k | 0 <= k < n && init[k].Clone?
        ensures CloneIsClear(Run(db, init[..k]), init[k].target, init[k].source, init[k].chart)
      {
        assert init[..k] == actions[..k] && actions[k].Clone?;
      }
      RunKeepsZones(db, init);
      var before := Run(db, init);
      match actions[n]
      case Apply(perf, ids, amount, t) =>
        if ApplyZone(before, perf, ids, amount, t).Ok? { ApplyKeepsZones(before, perf, ids, amount, t); }
      case Remove(zone, ids) =>
      case Delete(zone) => DeleteKeepsZones(before, zone);
      case Clone(target, source, chart) => CloneKeepsZonesIff(before, target, source, chart);
    }
  }

  lemma AppliedOnce(db: Table, perf: nat, ids: set<nat>, amount: int, t: Template)
    requires ids != {} && forall i :: 0 <= i < |db.zones| ==> db.zones[i].performance != perf
    ensures ApplyZone(db, perf, ids, amount, t) ==
            Ok(Table(db.zones + [Zone(db.nextId, perf, Some(t.id), t.name, amount, ids)], db.nextId + 1))
  {
    SumZero(db.zones, Matching(perf, t.id));
    hide Sum;
    assert {} + ids == ids;
    assert MapRows(db.zones + [Zone(db.nextId, perf, Some(t.id), t.name, amount, {})], Applied(perf, ids, amount, t))
        == db.zones + [Zone(db.nextId, perf, Some(t.id), t.name, amount, ids)];
  }

  /** It happens to zones as they should be: two performances get a zone of one template
      on different seats, one is cloned to the other, and there apply_zone is stuck. */
  lemma CloneCanStickApply(
    target: nat, source: nat, a: nat, b: nat, cents: int, t: Template, chart: set<nat>, ids: set<nat>, amount: int)
    requires target != source && a != b && ids != {}
    ensures var db := Run(Table([], 0),
            [Apply(source, {a}, cents, t)] + [Apply(target, {b}, cents, t)] + [Clone(target, source, chart)]);
            ZonesOk(db) && ApplyZone(db, target, ids, amount, t) == Err(AmbiguousTemplate)
  {
    var s, u := Zone(0, source, Some(t.id), t.name, cents, {a}), Zone(1, target, Some(t.id), t.name, cents, {b});
    TwoThenClone(target, source, a, b, cents, t, chart);
    TwoApart(s, u, target, source, chart, t.id);
    hide Run, ApplyZone, CloneZones, ZonesOk, CloneIsClear, MatchCount;
    CloneKeepsZonesIff(Table([s, u], 2), target, source, chart);
    CloneMakesAmbiguousIff(Table([s, u], 2), target, source, chart, ids, amount, t);
  }

  lemma TwoThenClone(target: nat, source: nat, a: nat, b: nat, cents: int, t: Template, chart: set<nat>)
    requires target != source
    ensures var s, u := Zone(0, source, Some(t.id), t.name, cents, {a}),
            Zone(1, target, Some(t.id), t.name, cents, {b});
            Run(Table([], 0), [Apply(source, {a}, cents, t)] + [Apply(target, {b}, cents, t)]
                + [Clone(target, source, chart)])
            == CloneZones(Table([s, u], 2), target, source, chart)
  {
    var s, u := Zone(0, source, Some(t.id), t.name, cents, {a}), Zone(1, target, Some(t.id), t.name, cents, {b});
    RunThree(Table([], 0), Apply(source, {a}, cents, t), Apply(target, {b}, cents, t), Clone(target, source, chart));
    AppliedOnce(Table([], 0), source, {a}, cents, t);
    AppliedOnce(Table([s], 1), target, {b}, cents, t);
    hide Run, ApplyZone, CloneZones;
    assert [] + [s] == [s] && [s] + [u] == [s, u];
  }

  lemma TwoApart(s: Zone, u: Zone, target: nat, source: nat, chart: set<nat>, template: nat)
    requires IsFor(s, source, template) && IsFor(u, target, template) && target != source && s.seats !! u.seats
        && s.id == 0 && u.id == 1
    ensures ZonesOk(Table([s, u], 2)) && CloneIsClear(Table([s, u], 2), target, source, chart)
    ensures MatchCount([s, u], target, template) + MatchCount([s, u], source, template) > 1
  {
    SumAtLeast([s, u], Matching(target, template), 1);
    SumAtLeast([s, u], Matching(source, template), 0);
  }

  lemma RunThree(db: Table, a: ZoneAction, b: ZoneAction, c: ZoneAction)
    ensures Run(db, [a] + [b] + [c]) == Step(Step(Step(db, a), b), c)
  {
    hide Step;
    assert ([a] + [b] + [c])[..2] == [a] + [b] && ([a] + [b])[..1] == [a] && [a][..0] == [];
    assert Run(db, [a]) == Step(db, a) && Run(db, [a] + [b]) == Step(Step(db, a), b);
  }
}

/** Seat-row locking, one step at a time: set_reserved_hold and _fulfill_reserved as
    transactions that lock their seats in primary-key order, re-check, write and
    commit, interleaved in any way. Writes become visible, and locks are given up,
    at the commit; the re-check reads committed rows. */
module SeatLocks {
  import opened Tables

  const HOLD_SECONDS := 600

  datatype SeatHold = SeatHold(id: nat, perf: nat, session: string, seats: set<nat>, expiresAt: int)

  datatype SeatTicket = SeatTicket(perf: nat, seat: nat, live: bool)

  /** Select is set_reserved_hold, Fulfil is _fulfill_reserved of a hold it has read. */
  datatype Job = Select(perf: nat, session: string) | Fulfil(perf: nat, hold: nat)

  /** Locking(k) owns its first k seats; Checked owns them all and has re-checked. */
  datatype Phase = Locking(k: nat) | Checked | Finished

  datatype Txn = Txn(job: Job, seats: seq<nat>, phase: Phase)

  datatype State = State(
    now: int, txns: seq<Txn>, locks: map<nat, nat>, tickets: seq<SeatTicket>, holds: seq<SeatHold>, nextHold: nat)

  datatype Step =
    | BeginSelect(perf: nat, session: string, seats: seq<nat>)
    | BeginFulfil(hold: nat, seats: seq<nat>)
    | Lock(txn: nat)
    | Recheck(txn: nat)
    | Commit(txn: nat)
    | Rollback(txn: nat)
    | Tick(seconds: nat)
    | VoidTicket(ticket: nat)
    | DropHold(hold: nat)

  // --- steps ------------------------------------------------------------

  /** ORDER BY pk over a set of rows. */
  predicate Ascending(seats: seq<nat>) {
    forall i, j :: 0 <= i < j < |seats| ==> seats[i] < seats[j]
  }

  /** The seats a transaction owns now. */
  function Owned(t: Txn): seq<nat> {
    match t.phase
    case Locking(k) => if k <= |t.seats| then t.seats[..k] else t.seats
    case Checked => t.seats
    case Finished => []
  }

  predicate Ticketed(tickets: seq<SeatTicket>, perf: nat, seat: nat) {
    exists t :: t in tickets && t.live && t.perf == perf && t.seat == seat
  }

  predicate HeldByOther(holds: seq<SeatHold>, now: int, session: string, seat: nat) {
    exists h :: h in holds && h.expiresAt > now && h.session != session && seat in h.seats
  }

  /** The re-check made once every seat is locked. */
  predicate SeatsFree(s: State, t: Txn) {
    && (forall seat :: seat in t.seats ==> !Ticketed(s.tickets, t.job.perf, seat))
    && (t.job.Select? ==> forall seat :: seat in t.seats ==> !HeldByOther(s.holds, s.now, t.job.session, seat))
  }

  function Enter(s: State, t: nat, phase: Phase): State
    requires t < |s.txns|
  {
    s.(txns := s.txns[t := s.txns[t].(phase := phase)])
  }

  /** Commit and rollback give up every lock of the transaction. */
  function End(s: State, t: nat): State
    requires t < |s.txns|
  {
    Enter(s.(locks := map seat | seat in s.locks && s.locks[seat] != t :: s.locks[seat]), t, Finished)
  }

  function OtherThan(perf: nat, session: string): SeatHold -> bool {
    (h: SeatHold) => !(h.perf == perf && h.session == session)
  }

  function OtherId(id: nat): SeatHold -> bool { (h: SeatHold) => h.id != id }

  function IssuedFor(perf: nat): nat -> SeatTicket { (seat: nat) => SeatTicket(perf, seat, true) }

  function SeatSet(seats: seq<nat>): set<nat> { set x | x in seats }

  /** What a transaction writes. */
  function Written(s: State, t: Txn): State {
    match t.job
    case Select(perf, session) =>
      s.(holds := Filter(s.holds, OtherThan(perf, session))
                  + [SeatHold(s.nextHold, perf, session, SeatSet(t.seats), s.now + HOLD_SECONDS)],
         nextHold := s.nextHold + 1)
    case Fulfil(perf, hold) =>
      s.(tickets := s.tickets + MapRows(t.seats, IssuedFor(perf)), holds := Filter(s.holds, OtherId(hold)))
  }

  /** An unexpired hold of exactly these seats: what fulfill_hold tests before it locks. */
  predicate IsHeld(s: State, hold: nat, seats: seq<nat>, perf: nat) {
    exists h :: h in s.holds && h.id == hold && h.perf == perf && h.expiresAt > s.now && h.seats == SeatSet(seats)
  }

  function HoldPerf(holds: seq<SeatHold>, id: nat): nat {
    if holds == [] then 0 else if holds[0].id == id then holds[0].perf else HoldPerf(holds[1..], id)
  }

  predicate WantsLock(t: Txn) { t.phase.Locking? && t.phase.k < |t.seats| }

  /** A step of a transaction that may be taken now; Lock waits while the row is taken. */
  predicate Enabled(s: State, step: Step) {
    match step
    case BeginSelect(_, _, seats) => Ascending(seats) && seats != []
    case BeginFulfil(hold, seats) => Ascending(seats) && IsHeld(s, hold, seats, HoldPerf(s.holds, hold))
    case Lock(t) => t < |s.txns| && WantsLock(s.txns[t]) && s.txns[t].seats[s.txns[t].phase.k] !in s.locks
    case Recheck(t) => t < |s.txns| && s.txns[t].phase == Locking(|s.txns[t].seats|)
    case Commit(t) => t < |s.txns| && s.txns[t].phase.Checked?
    case Rollback(t) => t < |s.txns| && !s.txns[t].phase.Finished?
    case VoidTicket(i) => i < |s.tickets|
    case _ => true
  }

  function Take(s: State, step: Step): State {
    if !Enabled(s, step) then s
    else
      match step
      case BeginSelect(perf, session, seats) => s.(txns := s.txns + [Txn(Select(perf, session), seats, Locking(0))])
      case BeginFulfil(hold, seats) =>
        s.(txns := s.txns + [Txn(Fulfil(HoldPerf(s.holds, hold), hold), seats, Locking(0))])
      case Lock(t) =>
        var k := s.txns[t].phase.k;
        Enter(s.(locks := s.locks[s.txns[t].seats[k] := t]), t, Locking(k + 1))
      case Recheck(t) => if SeatsFree(s, s.txns[t]) then Enter(s, t, Checked) else End(s, t)
      case Commit(t) => End(Written(s, s.txns[t]), t)
      case Rollback(t) => End(s, t)
      case Tick(seconds) => s.(now := s.now + seconds)
      case VoidTicket(i) => s.(tickets := s.tickets[i := s.tickets[i].(live := false)])
      case DropHold(id) => s.(holds := Filter(s.holds, OtherId(id)))
  }

  function Run(s: State, steps: seq<Step>): State {
    if steps == [] then s else Take(Run(s, steps[..|steps| - 1]), steps[|steps| - 1])
  }

  function Start(now: int): State { State(now, [], map[], [], [], 0) }

  // --- invariant --------------------------------------------------------

  ghost predicate TxnsOk(txns: seq<Txn>) {
    forall t :: 0 <= t < |txns| ==>
        Ascending(txns[t].seats) && (txns[t].phase.Locking? ==> txns[t].phase.k <= |txns[t].seats|)
  }

  /** The lock table is exactly what the transactions own. */
  ghost predicate LocksOk(txns: seq<Txn>, locks: map<nat, nat>) {
    && (forall seat :: seat in locks ==> locks[seat] < |txns| && seat in Owned(txns[locks[seat]]))
    && (forall t, seat :: 0 <= t < |txns| && seat in Owned(txns[t]) ==> seat in locks && locks[seat] == t)
  }

  /** At most one live ticket per performance and seat. */
  ghost predicate OneTicket(tickets: seq<SeatTicket>) {
    forall i, j :: 0 <= i < j < |tickets| && tickets[i].live && tickets[j].live ==>
      !(tickets[i].perf == tickets[j].perf && tickets[i].seat == tickets[j].seat)
  }

  /** Unexpired holds of different sessions share no seat. */
  ghost predicate HoldsApart(holds: seq<SeatHold>, now: int) {
    forall a, b :: a in holds && b in holds && a.expiresAt > now && b.expiresAt > now && a.session != b.session ==>
      a.seats !! b.seats
  }

  /** What a transaction found at its re-check still stands when it commits. */
  ghost predicate ChecksStand(s: State) {
    forall t :: 0 <= t < |s.txns| && s.txns[t].phase.Checked? ==> SeatsFree(s, s.txns[t])
  }

  ghost predicate Inv(s: State) {
    TxnsOk(s.txns) && LocksOk(s.txns, s.locks) && OneTicket(s.tickets) && HoldsApart(s.holds, s.now) && ChecksStand(s)
  }

  /** No two transactions own the same seat. */
  lemma OwnersDiffer(s: State, t: nat, u: nat)
    requires LocksOk(s.txns, s.locks) && t < |s.txns| && u < |s.txns| && t != u
    ensures forall seat :: seat in Owned(s.txns[t]) ==> seat !in Owned(s.txns[u])
  {
    forall seat | seat in Owned(s.txns[t]) ensures seat !in Owned(s.txns[u]) {
      assert s.locks[seat] == t;
    }
  }

  lemma EndFreesLocks(s: State, t: nat)
    requires TxnsOk(s.txns) && LocksOk(s.txns, s.locks) && t < |s.txns|
    ensures TxnsOk(End(s, t).txns) && LocksOk(End(s, t).txns, End(s, t).locks)
  {
    hide Ascending;
    assert Owned(End(s, t).txns[t]) == [];
  }

  lemma EndKeeps(s: State, t: nat)
    requires Inv(s) && t < |s.txns|
    ensures Inv(End(s, t))
  {
    EndFreesLocks(s, t);
    hide Ticketed, HeldByOther, TxnsOk, LocksOk, HoldsApart, OneTicket;
    assert forall u :: 0 <= u < |s.txns| && s.txns[u].phase.Checked? ==> SeatsFree(s, s.txns[u]);
  }

  lemma LockTakes(s: State, t: nat)
    requires TxnsOk(s.txns) && LocksOk(s.txns, s.locks) && Enabled(s, Lock(t))
    ensures TxnsOk(Take(s, Lock(t)).txns) && LocksOk(Take(s, Lock(t)).txns, Take(s, Lock(t)).locks)
  {
    hide Ascending;
    var k, after := s.txns[t].phase.k, Take(s, Lock(t));
    assert after.txns[t].seats[..k + 1] == s.txns[t].seats[..k] + [s.txns[t].seats[k]];
    assert forall seat :: seat in Owned(after.txns[t]) <==> seat in Owned(s.txns[t]) || seat == s.txns[t].seats[k];
    assert forall u :: 0 <= u < |s.txns| && u != t ==> after.txns[u] == s.txns[u];
  }

  lemma LockKeeps(s: State, t: nat)
    requires Inv(s) && Enabled(s, Lock(t))
    ensures Inv(Take(s, Lock(t)))
  {
    LockTakes(s, t);
    hide Ticketed, HeldByOther, TxnsOk, LocksOk, HoldsApart, OneTicket;
    assert forall u :: 0 <= u < |s.txns| && s.txns[u].phase.Checked? ==> SeatsFree(s, s.txns[u]);
  }

  lemma CheckedOwnsAll(s: State, t: nat)
    requires TxnsOk(s.txns) && LocksOk(s.txns, s.locks) && Enabled(s, Recheck(t))
    ensures TxnsOk(Enter(s, t, Checked).txns) && LocksOk(Enter(s, t, Checked).txns, s.locks)
  {
    hide Ascending;
    var after := Enter(s, t, Checked);
    assert s.txns[t].seats[..|s.txns[t].seats|] == s.txns[t].seats;
    assert forall u :: 0 <= u < |s.txns| ==> Owned(after.txns[u]) == Owned(s.txns[u]);
  }

  lemma RecheckKeeps(s: State, t: nat)
    requires Inv(s) && Enabled(s, Recheck(t))
    ensures Inv(Take(s, Recheck(t)))
  {
    if SeatsFree(s, s.txns[t]) {
      CheckedOwnsAll(s, t);
      hide Ticketed, HeldByOther, TxnsOk, LocksOk, HoldsApart, OneTicket;
      var after := Enter(s, t, Checked);
      assert forall u :: 0 <= u < |s.txns| && s.txns[u].phase.Checked? ==> SeatsFree(s, s.txns[u]);
      assert SeatsFree(after, after.txns[t]);
    } else {
      EndKeeps(s, t);
      hide Inv, SeatsFree, End;
    }
  }

  /** Fewer unexpired holds and live tickets leave every invariant standing. */
  lemma LessKeeps(s: State, after: State)
    requires Inv(s) && after.txns == s.txns && after.locks == s.locks && after.now >= s.now
    requires forall h :: h in after.holds ==> h in s.holds
    requires |after.tickets| == |s.tickets|
    requires forall i :: 0 <= i < |s.tickets| ==>
        after.tickets[i] == s.tickets[i] || after.tickets[i] == s.tickets[i].(live := false)
    ensures Inv(after)
  {
    assert forall x :: x in after.tickets && x.live ==> x in s.tickets;
    forall t | 0 <= t < |s.txns| && s.txns[t].phase.Checked? ensures SeatsFree(after, s.txns[t]) {
      assert SeatsFree(s, s.txns[t]);
    }
  }

  lemma BeginKeeps(s: State, txn: Txn)
    requires Inv(s) && txn.phase == Locking(0) && Ascending(txn.seats)
    ensures Inv(s.(txns := s.txns + [txn]))
  {
    var after := s.(txns := s.txns + [txn]);
    hide Ticketed, HeldByOther;
    assert forall t :: 0 <= t < |s.txns| ==> after.txns[t] == s.txns[t];
    assert Owned(txn) == [];
    assert forall t :: 0 <= t < |s.txns| && s.txns[t].phase.Checked? ==> SeatsFree(s, s.txns[t]);
  }

  // --- commits ----------------------------------------------------------

  lemma SelectApart(s: State, t: nat)
    requires Inv(s) && Enabled(s, Commit(t)) && s.txns[t].job.Select?
    ensures HoldsApart(Written(s, s.txns[t]).holds, s.now)
  {
    var txn := s.txns[t];
    FilterMembers(s.holds, OtherThan(txn.job.perf, txn.job.session));
    assert SeatsFree(s, txn);
    forall a | a in s.holds && a.expiresAt > s.now && a.session != txn.job.session
      ensures a.seats !! SeatSet(txn.seats)
    {
      forall seat | seat in txn.seats
        ensures seat !in a.seats
      {
        assert !HeldByOther(s.holds, s.now, txn.job.session, seat);
      }
    }
  }

  /** Another transaction's checks survive a selection: it selected other seats. */
  lemma SelectKeepsChecks(s: State, t: nat, u: nat)
    requires Inv(s) && Enabled(s, Commit(t)) && s.txns[t].job.Select?
    requires u < |s.txns| && u != t && s.txns[u].phase.Checked?
    ensures SeatsFree(Written(s, s.txns[t]), s.txns[u])
  {
    var txn, other, after := s.txns[t], s.txns[u], Written(s, s.txns[t]);
    FilterMembers(s.holds, OtherThan(txn.job.perf, txn.job.session));
    OwnersDiffer(s, u, t);
    assert SeatsFree(s, other);
    if other.job.Select? {
      forall seat | seat in other.seats ensures !HeldByOther(after.holds, s.now, other.job.session, seat) {
        assert seat in Owned(other) && seat !in Owned(txn) && !HeldByOther(s.holds, s.now, other.job.session, seat);
      }
    }
  }

  lemma IssueKeepsOneTicket(s: State, t: nat)
    requires Inv(s) && Enabled(s, Commit(t)) && s.txns[t].job.Fulfil?
    ensures OneTicket(Written(s, s.txns[t]).tickets)
  {
    var txn := s.txns[t];
    assert SeatsFree(s, txn);
    forall i, j | 0 <= i < |s.tickets| && 0 <= j < |txn.seats| && s.tickets[i].live && s.tickets[i].perf == txn.job.perf
      ensures s.tickets[i].seat != txn.seats[j]
    {
      assert s.tickets[i] in s.tickets && !Ticketed(s.tickets, txn.job.perf, txn.seats[j]);
    }
  }

  lemma IssueKeepsChecks(s: State, t: nat, u: nat)
    requires Inv(s) && Enabled(s, Commit(t)) && s.txns[t].job.Fulfil?
    requires u < |s.txns| && u != t && s.txns[u].phase.Checked?
    ensures SeatsFree(Written(s, s.txns[t]), s.txns[u])
  {
    var txn, other, after := s.txns[t], s.txns[u], Written(s, s.txns[t]);
    FilterMembers(s.holds, OtherId(txn.job.hold));
    OwnersDiffer(s, u, t);
    assert SeatsFree(s, other);
    forall seat | seat in other.seats ensures !Ticketed(after.tickets, other.job.perf, seat) {
      assert seat in Owned(other) && seat !in Owned(txn) && !Ticketed(s.tickets, other.job.perf, seat);
    }
  }

  lemma CommitKeeps(s: State, t: nat)
    requires Inv(s) && Enabled(s, Commit(t))
    ensures Inv(Take(s, Commit(t)))
  {
    var txn := s.txns[t];
    var wrote := Written(s, txn);
    var after := End(wrote, t);
    if txn.job.Select? { SelectApart(s, t); } else { IssueKeepsOneTicket(s, t);
        FilterMembers(s.holds, OtherId(txn.job.hold)); }
    forall u | 0 <= u < |s.txns| && u != t && s.txns[u].phase.Checked? ensures SeatsFree(wrote, s.txns[u]) {
      if txn.job.Select? { SelectKeepsChecks(s, t, u); } else { IssueKeepsChecks(s, t, u); }
    }
    EndKeeps(s, t);
    hide Ticketed, HeldByOther, Written;
  }

  lemma TakeKeeps(s: State, step: Step)
    requires Inv(s)
    ensures Inv(Take(s, step))
  {
    hide Inv, End, SeatsFree, Written, IsHeld;
    if Enabled(s, step) {
      match step
      case BeginSelect(perf, session, seats) => BeginKeeps(s, Txn(Select(perf, session), seats, Locking(0)));
      case BeginFulfil(hold, seats) => BeginKeeps(s, Txn(Fulfil(HoldPerf(s.holds, hold), hold), seats, Locking(0)));
      case Lock(t) => LockKeeps(s, t);
      case Recheck(t) => RecheckKeeps(s, t);
      case Commit(t) => CommitKeeps(s, t);
      case Rollback(t) => EndKeeps(s, t);
      case Tick(_) => LessKeeps(s, Take(s, step));
      case VoidTicket(_) => LessKeeps(s, Take(s, step));
      case DropHold(id) =>
        FilterMembers(s.holds, OtherId(id));
        LessKeeps(s, Take(s, step));
    }
  }

  lemma {:induction false} AlwaysInv(now: int, steps: seq<Step>)
    ensures Inv(Run(Start(now), steps))
  {
    if steps != [] {
      AlwaysInv(now, steps[..|steps| - 1]);
      TakeKeeps(Run(Start(now), steps[..|steps| - 1]), steps[|steps| - 1]);
    }
  }

  /** Whatever the interleaving: no seat has two live tickets for a performance, no
      two sessions have unexpired holds on one seat, and no re-check goes stale
      before the commit that relies on it. */
  lemma NoInterleavingOversells(now: int, steps: seq<Step>)
    ensures var s := Run(Start(now), steps);
            && (forall i, j :: 0 <= i < j < |s.tickets| && s.tickets[i].live && s.tickets[j].live ==>
                  !(s.tickets[i].perf == s.tickets[j].perf && s.tickets[i].seat == s.tickets[j].seat))
            && (forall a, b ::
                  && a in s.holds && b in s.holds && a.expiresAt > s.now && b.expiresAt > s.now
                  && a.session != b.session ==>
                  a.seats !! b.seats)
            && (forall t :: 0 <= t < |s.txns| && s.txns[t].phase.Checked? ==> SeatsFree(s, s.txns[t]))
  {
    AlwaysInv(now, steps);
  }

  // --- what the finer grain costs ---------------------------------------

  /** No unexpired hold has a seat with a live ticket for its performance. */
  ghost predicate HeldFree(s: State) {
    forall h, seat: nat :: h in s.holds && h.expiresAt > s.now && seat in h.seats ==> !Ticketed(s.tickets, h.perf, seat)
  }

  /** Ids are unique, and a session has one hold per performance. */
  ghost predicate HoldKeys(holds: seq<SeatHold>, nextHold: nat) {
    && (forall h :: h in holds ==> h.id < nextHold)
    && (forall a, b :: a in holds && b in holds && (a.id == b.id || (a.perf == b.perf && a.session == b.session)) ==>
          a == b)
  }

  /** A payment whose hold still stands. */
  predicate InTime(s: State, t: Txn) { t.job.Fulfil? && IsHeld(s, t.job.hold, t.seats, t.job.perf) }

  /** No unexpired hold but the one being paid for has any of its seats. */
  ghost predicate NobodyElseHolds(s: State, t: Txn)
    requires t.job.Fulfil?
  {
    forall h, seat: nat ::
      h in s.holds && h.id != t.job.hold && h.perf == t.job.perf && h.expiresAt > s.now && seat in h.seats ==>
        seat !in t.seats
  }

  /** A step that is not a payment committing over somebody else's hold. */
  ghost predicate TakesNoHeldSeat(s: State, step: Step) {
    step.Commit? && Enabled(s, step) && s.txns[step.txn].job.Fulfil? ==> NobodyElseHolds(s, s.txns[step.txn])
  }

  /** Payments are of holds that were made. */
  ghost predicate JobsKnown(txns: seq<Txn>, nextHold: nat) {
    forall t :: 0 <= t < |txns| && txns[t].job.Fulfil? ==> txns[t].job.hold < nextHold
  }

  ghost predicate KeyInv(s: State) { Inv(s) && HoldKeys(s.holds, s.nextHold) && JobsKnown(s.txns, s.nextHold) }

  ghost predicate FreeInv(s: State) { KeyInv(s) && HeldFree(s) }

  lemma FewerHolds(s: State, after: State)
    requires KeyInv(s) && Inv(after) && after.now >= s.now && after.nextHold == s.nextHold
    requires JobsKnown(after.txns, s.nextHold)
    requires forall h :: h in after.holds ==> h in s.holds
    requires forall x :: x in after.tickets && x.live ==> x in s.tickets
    ensures KeyInv(after) && (HeldFree(s) ==> HeldFree(after))
  {
    hide Inv, JobsKnown;
    if HeldFree(s) {
      forall h, seat: nat | h in after.holds && h.expiresAt > after.now && seat in h.seats
        ensures !Ticketed(after.tickets, h.perf, seat)
      {
        assert !Ticketed(s.tickets, h.perf, seat);
      }
    }
  }

  lemma SelectFree(s: State, t: nat)
    requires KeyInv(s) && Enabled(s, Commit(t)) && s.txns[t].job.Select?
    ensures var after := Take(s, Commit(t));
            HoldKeys(after.holds, after.nextHold) && JobsKnown(after.txns, after.nextHold)
                && (HeldFree(s) ==> HeldFree(after))
  {
    var txn := s.txns[t];
    FilterMembers(s.holds, OtherThan(txn.job.perf, txn.job.session));
    assert SeatsFree(s, txn);
    hide Ticketed, Inv;
  }

  /** A payment's commit leaves every held seat free exactly when nobody else holds
      one of its seats: the check it could make under its locks and does not. */
  lemma HeldStaysFreeIff(s: State, t: nat)
    requires FreeInv(s) && Enabled(s, Commit(t)) && s.txns[t].job.Fulfil?
    ensures HeldFree(Take(s, Commit(t))) <==> NobodyElseHolds(s, s.txns[t])
  {
    var txn, after := s.txns[t], Take(s, Commit(t));
    FilterMembers(s.holds, OtherId(txn.job.hold));
    IssuedIs(s.tickets, txn.seats, txn.job.perf);
    hide Inv, HoldKeys, JobsKnown, Ticketed;
    assert after.now == s.now && forall h :: h in after.holds <==> h in s.holds && h.id != txn.job.hold;
    if HeldFree(after) {
      forall h, seat: nat |
        h in s.holds && h.id != txn.job.hold && h.perf == txn.job.perf && h.expiresAt > s.now && seat in h.seats
        ensures seat !in txn.seats
      {
        assert !Ticketed(after.tickets, h.perf, seat);
      }
    }
    if NobodyElseHolds(s, txn) {
      forall h, seat: nat | h in after.holds && h.expiresAt > s.now && seat in h.seats
        ensures !Ticketed(after.tickets, h.perf, seat)
      {
        assert !Ticketed(s.tickets, h.perf, seat);
      }
    }
  }

  lemma IssuedIs(tickets: seq<SeatTicket>, seats: seq<nat>, perf: nat)
    ensures forall p, seat: nat :: Ticketed(tickets + MapRows(seats, IssuedFor(perf)), p, seat) <==>
              Ticketed(tickets, p, seat) || (p == perf && seat in seats)
  {
    var issued := MapRows(seats, IssuedFor(perf));
    forall p, seat: nat
      ensures Ticketed(tickets + issued, p, seat) <==> Ticketed(tickets, p, seat) || (p == perf && seat in seats)
    {
      assert forall t :: t in tickets + issued <==> t in tickets || t in issued;
      if p == perf && seat in seats {
        var i :| 0 <= i < |seats| && seats[i] == seat;
        assert issued[i] in issued;
      }
    }
  }

  lemma IssueKeys(s: State, t: nat)
    requires KeyInv(s) && Enabled(s, Commit(t)) && s.txns[t].job.Fulfil?
    ensures var after := Take(s, Commit(t));
            HoldKeys(after.holds, after.nextHold) && JobsKnown(after.txns, after.nextHold)
  {
    FilterMembers(s.holds, OtherId(s.txns[t].job.hold));
    hide Inv;
  }

  lemma BeginKeys(s: State, step: Step)
    requires KeyInv(s) && (step.BeginSelect? || step.BeginFulfil?)
    ensures JobsKnown(Take(s, step).txns, s.nextHold)
  {
    hide Inv;
  }

  lemma TakeKeepsKeys(s: State, step: Step)
    requires KeyInv(s)
    ensures KeyInv(Take(s, step))
    ensures !(step.Commit? && Enabled(s, step) && s.txns[step.txn].job.Fulfil?) && HeldFree(s) ==>
            HeldFree(Take(s, step))
  {
    TakeKeeps(s, step);
    if Enabled(s, step) {
      match step
      case Commit(t) =>
        if s.txns[t].job.Select? { SelectFree(s, t); } else { IssueKeys(s, t); }
        hide Inv, Take, Ticketed, HoldKeys, SeatsFree;
      case DropHold(id) =>
        FilterMembers(s.holds, OtherId(id));
        FewerHolds(s, Take(s, step)) by { hide Inv, HoldKeys, HeldFree; }
        hide Take, KeyInv;
      case BeginSelect(_, _, _) =>
        BeginKeys(s, step);
        hide Inv, HoldKeys, HeldFree, SeatsFree, JobsKnown;
        FewerHolds(s, Take(s, step));
      case BeginFulfil(_, _) =>
        BeginKeys(s, step);
        hide Inv, HoldKeys, HeldFree, SeatsFree, JobsKnown;
        FewerHolds(s, Take(s, step));
      case _ =>
        hide Inv, HoldKeys, HeldFree, SeatsFree;
        FewerHolds(s, Take(s, step));
    }
  }

  lemma TakeKeepsFreeIff(s: State, step: Step)
    requires FreeInv(s)
    ensures HeldFree(Take(s, step)) <==> TakesNoHeldSeat(s, step)
  {
    if step.Commit? && Enabled(s, step) && s.txns[step.txn].job.Fulfil? {
      HeldStaysFreeIff(s, step.txn);
    } else {
      TakeKeepsKeys(s, step);
    }
    hide Take, HeldFree, NobodyElseHolds, KeyInv;
  }

  lemma {:induction false} AlwaysKeys(now: int, steps: seq<Step>)
    ensures KeyInv(Run(Start(now), steps))
  {
    hide Take, Inv;
    if steps == [] {
      AlwaysInv(now, steps);
    } else {
      AlwaysKeys(now, steps[..|steps| - 1]);
      TakeKeepsKeys(Run(Start(now), steps[..|steps| - 1]), steps[|steps| - 1]);
    }
  }

  lemma NextFreeIff(now: int, steps: seq<Step>, k: nat)
    requires k < |steps| && HeldFree(Run(Start(now), steps[..k]))
    ensures HeldFree(Run(Start(now), steps[..k + 1])) <==> TakesNoHeldSeat(Run(Start(now), steps[..k]), steps[k])
  {
    AlwaysKeys(now, steps[..k]);
    TakeKeepsFreeIff(Run(Start(now), steps[..k]), steps[k]);
    assert steps[..k + 1][..k] == steps[..k];
    hide HeldFree, TakesNoHeldSeat, Take, KeyInv;
  }

  lemma {:induction false} FreeSoFar(now: int, steps: seq<Step>, k: nat)
    requires k <= |steps| && forall j :: 0 <= j < k ==> TakesNoHeldSeat(Run(Start(now), steps[..j]), steps[j])
    ensures HeldFree(Run(Start(now), steps[..k]))
  {
    if k > 0 {
      hide Run, HeldFree, TakesNoHeldSeat;
      FreeSoFar(now, steps, k - 1);
      NextFreeIff(now, steps, k - 1);
    }
  }

  /** Throughout a run no held seat is ticketed exactly when no payment of the run
      commits over somebody else's unexpired hold. */
  lemma HeldFreeThroughoutIff(now: int, steps: seq<Step>)
    ensures (forall k :: 0 <= k <= |steps| ==> HeldFree(Run(Start(now), steps[..k])))
            <==> (forall k :: 0 <= k < |steps| ==> TakesNoHeldSeat(Run(Start(now), steps[..k]), steps[k]))
  {
    hide Run, HeldFree, TakesNoHeldSeat;
    if forall k :: 0 <= k <= |steps| ==> HeldFree(Run(Start(now), steps[..k])) {
      forall k | 0 <= k < |steps| ensures TakesNoHeldSeat(Run(Start(now), steps[..k]), steps[k]) {
        NextFreeIff(now, steps, k);
      }
    }
    if forall k :: 0 <= k < |steps| ==> TakesNoHeldSeat(Run(Start(now), steps[..k]), steps[k]) {
      forall k | 0 <= k <= |steps| ensures HeldFree(Run(Start(now), steps[..k])) { FreeSoFar(now, steps, k); }
    }
  }

  /** A payment that commits does so while the hold it pays for still stands. */
  predicate PaysInTime(s: State, step: Step) {
    step.Commit? && Enabled(s, step) && s.txns[step.txn].job.Fulfil? ==> InTime(s, s.txns[step.txn])
  }

  /** A payment made in time takes nobody else's seat. */
  lemma InTimeTakesNoHeldSeat(s: State, step: Step)
    requires KeyInv(s) && PaysInTime(s, step)
    ensures TakesNoHeldSeat(s, step)
  {}

  /** So as long as every payment commits before its hold runs out or is given up, no
      held seat is ever ticketed to someone else, and the re-check of a payment made
      in time never fails. */
  lemma PaidInTimeIsHonoured(now: int, steps: seq<Step>)
    requires forall k :: 0 <= k < |steps| ==> PaysInTime(Run(Start(now), steps[..k]), steps[k])
    ensures HeldFree(Run(Start(now), steps))
    ensures var s := Run(Start(now), steps);
            forall t :: 0 <= t < |s.txns| && InTime(s, s.txns[t]) ==> SeatsFree(s, s.txns[t])
  {
    hide Inv, PaysInTime, TakesNoHeldSeat;
    forall k | 0 <= k < |steps| ensures TakesNoHeldSeat(Run(Start(now), steps[..k]), steps[k]) {
      AlwaysKeys(now, steps[..k]);
      InTimeTakesNoHeldSeat(Run(Start(now), steps[..k]), steps[k]);
    }
    HeldFreeThroughoutIff(now, steps);
    assert steps[..|steps|] == steps;
    hide Run;
  }

  /** One session selects one seat, with nobody in between. */
  function Selecting(perf: nat, session: string, seat: nat, t: nat): seq<Step> {
    [BeginSelect(perf, session, [seat]), Lock(t), Recheck(t), Commit(t)]
  }

  lemma RunFour(s: State, a: Step, b: Step, c: Step, d: Step)
    ensures Run(s, [a, b, c, d]) == Take(Take(Take(Take(s, a), b), c), d)
  {
    hide Take;
    assert [a, b, c, d][..3] == [a, b, c] && [a, b, c][..2] == [a, b] && [a, b][..1] == [a] && [a][..0] == [];
    assert Run(s, [a]) == Take(s, a) && Run(s, [a, b]) == Take(Take(s, a), b);
  }

  lemma LockAlone(s: State, txn: Txn, seat: nat)
    requires txn.seats == [seat] && txn.phase == Locking(0) && seat !in s.locks
    ensures Take(s.(txns := s.txns + [txn]), Lock(|s.txns|))
            == s.(txns := s.txns + [txn.(phase := Locking(1))], locks := s.locks[seat := |s.txns|])
  {}

  lemma RecheckAlone(s: State, txn: Txn)
    requires txn.phase == Locking(|txn.seats|) && SeatsFree(s, txn)
    ensures Take(s.(txns := s.txns + [txn]), Recheck(|s.txns|)) == s.(txns := s.txns + [txn.(phase := Checked)])
  {
    var after := s.(txns := s.txns + [txn]);
    hide Ticketed, HeldByOther;
    assert SeatsFree(after, txn);
  }

  lemma CommitAlone(s: State, txn: Txn, seat: nat)
    requires txn.seats == [seat] && txn.phase.Checked? && seat !in s.locks && forall x :: x in s.locks ==>
        s.locks[x] < |s.txns|
    ensures Take(s.(txns := s.txns + [txn], locks := s.locks[seat := |s.txns|]), Commit(|s.txns|))
            == Written(s, txn).(txns := s.txns + [txn.(phase := Finished)])
  {
    hide Filter, MapRows;
    var ready := s.(txns := s.txns + [txn], locks := s.locks[seat := |s.txns|]);
    assert (map x | x in ready.locks && ready.locks[x] != |s.txns| :: ready.locks[x]) == s.locks;
  }

  lemma SelectingAlone(s: State, perf: nat, session: string, seat: nat)
    requires seat !in s.locks && !Ticketed(s.tickets, perf, seat) && !HeldByOther(s.holds, s.now, session, seat)
    requires forall x :: x in s.locks ==> s.locks[x] < |s.txns|
    ensures var txn := Txn(Select(perf, session), [seat], Finished);
            var after := Run(s, Selecting(perf, session, seat, |s.txns|));
            after == Written(s, txn).(txns := s.txns + [txn])
  {
    var t, txn := |s.txns|, Txn(Select(perf, session), [seat], Locking(0));
    RunFour(s, BeginSelect(perf, session, [seat]), Lock(t), Recheck(t), Commit(t));
    LockAlone(s, txn, seat);
    RecheckAlone(s.(locks := s.locks[seat := t]), txn.(phase := Locking(1)));
    CommitAlone(s, txn.(phase := Checked), seat);
    assert Take(s, BeginSelect(perf, session, [seat])) == s.(txns := s.txns + [txn]);
    hide Take, Run, Ticketed, HeldByOther;
  }

  lemma {:induction false} RunConcat(s: State, a: seq<Step>, b: seq<Step>)
    ensures Run(s, a + b) == Run(Run(s, a), b)
  {
    if b == [] {
      assert a + b == a;
    } else {
      var init := b[..|b| - 1];
      assert (a + b)[..|a + b| - 1] == a + init;
      RunConcat(s, a, init);
    }
  }

  /** A payment locks its seats one after the other, re-checks and commits. */
  function Locks(p: nat, n: nat): seq<Step> { seq(n, _ => Lock(p)) }

  function Paying(p: nat, n: nat): seq<Step> { Locks(p, n) + [Recheck(p)] + [Commit(p)] }

  lemma {:induction false} LocksAll(s: State, p: nat, k: nat)
    requires p < |s.txns| && s.txns[p].phase == Locking(0) && k <= |s.txns[p].seats| && Ascending(s.txns[p].seats)
    requires forall x :: x in s.txns[p].seats ==> x !in s.locks
    ensures var after := Run(s, Locks(p, k));
            && after == s.(txns := s.txns[p := s.txns[p].(phase := Locking(k))], locks := after.locks)
            && (forall x :: x in after.locks <==> x in s.locks || x in s.txns[p].seats[..k])
            && forall x :: x in after.locks ==> after.locks[x] == if x in s.locks then s.locks[x] else p
  {
    if k == 0 {
      assert s.txns[p := s.txns[p].(phase := Locking(0))] == s.txns;
    } else {
      LocksAll(s, p, k - 1);
      var before := Run(s, Locks(p, k - 1));
      assert Locks(p, k)[..k - 1] == Locks(p, k - 1);
      assert s.txns[p].seats[..k] == s.txns[p].seats[..k - 1] + [s.txns[p].seats[k - 1]];
      assert Enabled(before, Lock(p));
    }
  }

  lemma FinishesPaying(s: State, p: nat)
    requires p < |s.txns| && s.txns[p].job.Fulfil? && s.txns[p].phase == Locking(|s.txns[p].seats|)
    requires forall x :: x in s.txns[p].seats ==> !Ticketed(s.tickets, s.txns[p].job.perf, x)
    ensures var txn := s.txns[p]; var after := Take(Take(s, Recheck(p)), Commit(p));
            && after.tickets == s.tickets + MapRows(txn.seats, IssuedFor(txn.job.perf))
            && after.holds == Filter(s.holds, OtherId(txn.job.hold)) && after.now == s.now
  {
    hide Ticketed, Filter;
    assert SeatsFree(s, s.txns[p]);
  }

  /** A payment alone, from its first lock to its tickets. */
  lemma PayingAlone(s: State, p: nat)
    requires p < |s.txns| && s.txns[p].job.Fulfil? && s.txns[p].phase == Locking(0) && Ascending(s.txns[p].seats)
    requires forall x :: x in s.txns[p].seats ==> x !in s.locks && !Ticketed(s.tickets, s.txns[p].job.perf, x)
    ensures var txn := s.txns[p]; var after := Run(s, Paying(p, |txn.seats|));
            && after.tickets == s.tickets + MapRows(txn.seats, IssuedFor(txn.job.perf))
            && after.holds == Filter(s.holds, OtherId(txn.job.hold)) && after.now == s.now
  {
    var n := |s.txns[p].seats|;
    LocksAll(s, p, n);
    var locked := Run(s, Locks(p, n));
    RunConcat(s, Locks(p, n), [Recheck(p)]);
    RunConcat(s, Locks(p, n) + [Recheck(p)], [Commit(p)]);
    hide Take, Ticketed, Filter, Locks, Ascending;
    FinishesPaying(locked, p);
    assert Run(locked, [Recheck(p)]) == Take(locked, Recheck(p));
    assert Run(Take(locked, Recheck(p)), [Commit(p)]) == Take(Take(locked, Recheck(p)), Commit(p));
    hide Run;
  }

  lemma NewHoldSurvives(s: State, perf: nat, session: string, seat: nat, hold: nat)
    requires hold < s.nextHold
    ensures var h := SeatHold(s.nextHold, perf, session, {seat}, s.now + HOLD_SECONDS);
            h in Filter(Written(s, Txn(Select(perf, session), [seat], Finished)).holds, OtherId(hold))
  {
    var h := SeatHold(s.nextHold, perf, session, {seat}, s.now + HOLD_SECONDS);
    var written := Written(s, Txn(Select(perf, session), [seat], Finished));
    assert SeatSet([seat]) == {seat};
    assert written.holds[|written.holds| - 1] == h;
    FilterMember(written.holds, OtherId(hold), h);
  }

  /** In any reachable state, a payment that has not locked anything yet and whose
      seats are free to be selected can be overtaken: any session not kept out by a
      hold takes one of its seats, and the payment then tickets the seat over that
      session's unexpired hold. */
  lemma LatePaymentTakesAHeldSeat(now: int, steps: seq<Step>, p: nat, session: string, seat: nat)
    requires var s := Run(Start(now), steps);
             && p < |s.txns| && s.txns[p].job.Fulfil? && s.txns[p].phase == Locking(0) && seat in s.txns[p].seats
             && (forall x :: x in s.txns[p].seats ==> x !in s.locks && !Ticketed(s.tickets, s.txns[p].job.perf, x))
             && !HeldByOther(s.holds, s.now, session, seat)
    ensures var s := Run(Start(now), steps); var txn := s.txns[p];
            var end := Run(Start(now), steps + Selecting(txn.job.perf, session, seat, |s.txns|)
                + Paying(p, |txn.seats|));
            && (exists h ::
                  && h in end.holds && h.session == session && h.expiresAt > end.now
                  && seat in h.seats && h.perf == txn.job.perf)
            && Ticketed(end.tickets, txn.job.perf, seat) && !HeldFree(end)
  {
    var s := Run(Start(now), steps);
    var txn, selecting := s.txns[p], Selecting(s.txns[p].job.perf, session, seat, |s.txns|);
    AlwaysKeys(now, steps);
    RunConcat(Start(now), steps, selecting);
    RunConcat(Start(now), steps + selecting, Paying(p, |txn.seats|));
    SelectingAlone(s, txn.job.perf, session, seat);
    var lost := Run(s, selecting);
    PayingAlone(lost, p);
    var end := Run(lost, Paying(p, |txn.seats|));
    var h := SeatHold(s.nextHold, txn.job.perf, session, {seat}, s.now + HOLD_SECONDS);
    NewHoldSurvives(s, txn.job.perf, session, seat, txn.job.hold);
    IssuedIs(lost.tickets, txn.seats, txn.job.perf);
    hide Run, Ticketed, Filter, Selecting, Paying, Inv, HeldByOther;
    assert h in end.holds && Ticketed(end.tickets, h.perf, seat);
  }

  /** A session selects a seat, starts to pay, and waits until its hold is over. */
  function Waiting(perf: nat, session: string, seat: nat): seq<Step> {
    Selecting(perf, session, seat, 0) + [BeginFulfil(0, [seat])] + [Tick(HOLD_SECONDS)]
  }

  lemma WaitingIs(now: int, perf: nat, seat: nat, session: string)
    ensures var s := Run(Start(now), Waiting(perf, session, seat));
            && s.txns == [Txn(Select(perf, session), [seat], Finished), Txn(Fulfil(perf, 0), [seat], Locking(0))]
            && s.locks == map[] && s.tickets == [] && forall other :: !HeldByOther(s.holds, s.now, other, seat)
  {
    var held := FirstHeld(now, perf, seat, session);
    SelectedFirst(now, perf, seat, session);
    StartsPaying(held, perf, session, seat);
    var selecting := Selecting(perf, session, seat, 0);
    RunConcat(Start(now), selecting, [BeginFulfil(0, [seat])]);
    RunConcat(Start(now), selecting + [BeginFulfil(0, [seat])], [Tick(HOLD_SECONDS)]);
    hide Take, Run, Selecting, HeldByOther;
  }

  function FirstHeld(now: int, perf: nat, seat: nat, session: string): State {
    var bought, hold := Txn(Select(perf, session), [seat], Finished),
        SeatHold(0, perf, session, {seat}, now + HOLD_SECONDS);
    State(now, [bought], map[], [], [hold], 1)
  }

  lemma SelectedFirst(now: int, perf: nat, seat: nat, session: string)
    ensures Run(Start(now), Selecting(perf, session, seat, 0)) == FirstHeld(now, perf, seat, session)
  {
    SelectingAlone(Start(now), perf, session, seat);
    hide Run, Take;
    assert SeatSet([seat]) == {seat};
  }

  /** Such a state is at the end of any hold: from there, without another tick, the
      payment that waited can ticket its seat over somebody else's hold. */
  lemma EveryPaymentCanBeLate(now: int, perf: nat, seat: nat, first: string, second: string)
    ensures exists later: seq<Step> ::
              && !HeldFree(Run(Start(now), Waiting(perf, first, seat) + later))
              && forall i :: 0 <= i < |later| ==> !later[i].Tick? && !later[i].DropHold?
  {
    var waiting := Waiting(perf, first, seat);
    WaitingIs(now, perf, seat, first);
    hide Waiting, Run, HeldByOther, HeldFree;
    LatePaymentTakesAHeldSeat(now, waiting, 1, second, seat);
    var later := Selecting(perf, second, seat, 2) + Paying(1, 1);
    assert waiting + Selecting(perf, second, seat, 2) + Paying(1, 1) == waiting + later;
  }

  lemma StartsPaying(held: State, perf: nat, session: string, seat: nat)
    requires held.txns == [Txn(Select(perf, session), [seat], Finished)] && held.locks == map[] && held.tickets == []
    requires held.holds == [SeatHold(0, perf, session, {seat}, held.now + HOLD_SECONDS)]
    ensures var s := Run(Run(held, [BeginFulfil(0, [seat])]), [Tick(HOLD_SECONDS)]);
            && s == held.(now := held.now + HOLD_SECONDS,
                 txns := held.txns + [Txn(Fulfil(perf, 0), [seat], Locking(0))])
            && forall other :: !HeldByOther(s.holds, s.now, other, seat)
  {
    assert SeatSet([seat]) == {seat};
    assert held.holds[0] in held.holds && IsHeld(held, 0, [seat], perf);
    assert Run(held, [BeginFulfil(0, [seat])]) == Take(held, BeginFulfil(0, [seat]));
  }

  // --- no deadlock ------------------------------------------------------

  /** The step a transaction would take next. */
  function NextOf(t: nat, txn: Txn): Step {
    match txn.phase
    case Locking(k) => if k < |txn.seats| then Lock(t) else Recheck(t)
    case _ => Commit(t)
  }

  predicate CanMove(s: State, t: nat) {
    t < |s.txns| && !s.txns[t].phase.Finished? && Enabled(s, NextOf(t, s.txns[t]))
  }

  function Ceiling(txns: seq<Txn>): nat {
    if txns == [] then 0
    else
      var rest, seats := Ceiling(txns[1..]), txns[0].seats;
      if seats != [] && seats[|seats| - 1] > rest then seats[|seats| - 1] else rest
  }

  lemma {:induction false} UnderCeiling(txns: seq<Txn>, t: nat, i: nat)
    requires TxnsOk(txns) && t < |txns| && i < |txns[t].seats|
    ensures txns[t].seats[i] <= Ceiling(txns)
  {
    if t > 0 { UnderCeiling(txns[1..], t - 1, i); }
  }

  /** Follow the owner of the row waited for: each waits for a higher row, so the
      chain ends in a transaction that can move. */
  lemma {:induction false} Mover(s: State, t: nat) returns (m: nat)
    requires Inv(s) && t < |s.txns| && !s.txns[t].phase.Finished?
    ensures CanMove(s, m)
    decreases Ceiling(s.txns) - (if WantsLock(s.txns[t]) then s.txns[t].seats[s.txns[t].phase.k] else 0)
  {
    if CanMove(s, t) {
      m := t;
    } else {
      var k := s.txns[t].phase.k;
      var seat := s.txns[t].seats[k];
      var owner := s.locks[seat];
      var held := s.txns[owner];
      if WantsLock(held) {
        var i :| 0 <= i < held.phase.k && held.seats[i] == seat;
        UnderCeiling(s.txns, owner, held.phase.k);
        m := Mover(s, owner);
      } else {
        m := owner;
      }
    }
  }

  /** Steps a transaction still has to take. */
  function Work(): Txn -> int {
    (t: Txn) =>
      match t.phase
      case Locking(k) => |t.seats| - k + 2
      case Checked => 1
      case Finished => 0
  }

  function Remaining(s: State): int { Sum(s.txns, Work()) }

  lemma MoveWorks(s: State, t: nat)
    requires Inv(s) && CanMove(s, t)
    ensures Remaining(Take(s, NextOf(t, s.txns[t]))) < Remaining(s)
  {
    var after := Take(s, NextOf(t, s.txns[t]));
    SumUpdate(s.txns, Work(), t, after.txns[t]);
    hide Sum;
    assert after.txns == s.txns[t := after.txns[t]];
  }

  ghost predicate AllFinished(s: State) { forall t :: 0 <= t < |s.txns| ==> s.txns[t].phase.Finished? }

  predicate OwnStep(step: Step) { step.Lock? || step.Recheck? || step.Commit? }

  lemma RunFrom(s: State, step: Step, rest: seq<Step>)
    ensures Run(s, [step] + rest) == Run(Take(s, step), rest)
  {
    if rest == [] {
      assert ([step] + rest)[..0] == [];
    } else {
      RunFrom(s, step, rest[..|rest| - 1]);
      assert ([step] + rest)[..|rest|] == [step] + rest[..|rest| - 1];
    }
  }

  /** No deadlock: from any reachable state every transaction can be brought to its
      end without rolling one back, in no more steps than they have work left. */
  lemma {:induction false} Drain(s: State) returns (steps: seq<Step>)
    requires Inv(s)
    ensures AllFinished(Run(s, steps)) && |steps| <= Remaining(s)
    ensures forall i :: 0 <= i < |steps| ==> OwnStep(steps[i])
    decreases Remaining(s)
  {
    SumNonNegative(s.txns, Work());
    if AllFinished(s) {
      steps := [];
    } else {
      var t :| 0 <= t < |s.txns| && !s.txns[t].phase.Finished?;
      var m := Mover(s, t);
      var step := NextOf(m, s.txns[m]);
      MoveWorks(s, m);
      TakeKeeps(s, step);
      var rest := Drain(Take(s, step));
      RunFrom(s, step, rest);
      steps := [step] + rest;
    }
  }

  lemma NeverDeadlocked(now: int, steps: seq<Step>) returns (finish: seq<Step>)
    ensures AllFinished(Run(Run(Start(now), steps), finish)) && forall i :: 0 <= i < |finish| ==> OwnStep(finish[i])
  {
    AlwaysInv(now, steps);
    finish := Drain(Run(Start(now), steps));
  }

  /** The order matters. If two transactions could begin with the same two rows in
      opposite orders, then after one lock each neither could ever move again. */
  lemma {:induction false} UnorderedLocksDeadlock(s: State, x: nat, y: nat, steps: seq<Step>)
    requires x != y && s.locks == map[] && |s.txns| == 2
    requires s.txns[0].seats == [x, y] && s.txns[1].seats == [y, x] && s.txns[0].phase == s.txns[1].phase == Locking(0)
    requires forall i :: 0 <= i < |steps| ==> OwnStep(steps[i])
    ensures var stuck := Take(Take(s, Lock(0)), Lock(1));
            && stuck.txns[0].phase == stuck.txns[1].phase == Locking(1)
            && Run(stuck, steps) == stuck
  {
    var stuck := Take(Take(s, Lock(0)), Lock(1));
    if steps != [] {
      var init, last := steps[..|steps| - 1], steps[|steps| - 1];
      forall i | 0 <= i < |init| ensures OwnStep(init[i]) { assert init[i] == steps[i]; }
      UnorderedLocksDeadlock(s, x, y, init);
      assert OwnStep(last) && !Enabled(stuck, last);
    }
  }
}

/** Ticket redemption at the door (scanning/services.py). */
module Scanning {
  import opened Tables
  import opened Schema

  const OPENS_BEFORE := 3600
  const CLOSES_AFTER := 14400

  datatype ScanResult = Admit | BadSignature | NoTicket | IsVoid | AlreadyUsed | TooEarly | TooLate

  /** redeem_ticket's verdict. `signed` is the signature check, an abstract predicate here. */
  function Verdict(db: Db, ticket: nat, signed: bool): ScanResult {
    if !signed then BadSignature
    else if ticket >= |db.tickets| || db.tickets[ticket].perf !in db.perfs then NoTicket
    else
      var t := db.tickets[ticket];
      var startsAt := db.perfs[t.perf].startsAt;
      if t.status.Void? then IsVoid
      else if t.status.Used? then AlreadyUsed
      else if db.now < startsAt - OPENS_BEFORE then TooEarly
      else if db.now > startsAt + CLOSES_AFTER then TooLate
      else Admit
  }

  function AfterScan(db: Db, ticket: nat, signed: bool): Db {
    if Verdict(db, ticket, signed).Admit?
    then db.(tickets := db.tickets[ticket := db.tickets[ticket].(status := Used, usedAt := Some(db.now))])
    else db
  }

  /** What the door looks at, in order; a ticket is admitted if nothing is wrong. */
  function DoorChecks(db: Db, ticket: nat, signed: bool): seq<(bool, ScanResult)> {
    var known := ticket < |db.tickets| && db.tickets[ticket].perf in db.perfs;
    [(!signed, BadSignature),
     (!known, NoTicket),
     (known && db.tickets[ticket].status == Void, IsVoid),
     (known && db.tickets[ticket].status == Used, AlreadyUsed),
     (known && db.perfs[db.tickets[ticket].perf].startsAt > db.now + 3600, TooEarly),
     (known && db.perfs[db.tickets[ticket].perf].startsAt + 14400 < db.now, TooLate)]
  }

  function Refusal(r: ScanResult): Option<ScanResult> { if r.Admit? then None else Some(r) }

  lemma DoorAnswer(db: Db, ticket: nat, signed: bool)
    ensures FirstFailing(Refusal(Verdict(db, ticket, signed)), DoorChecks(db, ticket, signed))
  {
    var checks := DoorChecks(db, ticket, signed);
    if !Verdict(db, ticket, signed).Admit? {
      assert checks[0].0 || checks[1].0 || checks[2].0 || checks[3].0 || checks[4].0 || checks[5].0;
    }
  }
}

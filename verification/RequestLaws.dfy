/** Laws about one request over whole runs: its reservations stand or fall together and it is
charged at most once. */
module RequestLaws {
  import opened Model
  import opened Ledger

  function RowsFor(rs: seq<Reservation>, r: RequestId): seq<Reservation> {
    if rs == [] then []
    else if rs[0].requestId == r then [rs[0]] + RowsFor(rs[1..], r)
    else RowsFor(rs[1..], r)
  }

  lemma {:induction false} RowsForAppend(rs: seq<Reservation>, ss: seq<Reservation>, r: RequestId)
    ensures RowsFor(rs + ss, r) == RowsFor(rs, r) + RowsFor(ss, r)
  {
    if rs == [] {
      assert rs + ss == ss;
    } else {
      assert (rs + ss)[1..] == rs[1..] + ss;
      RowsForAppend(rs[1..], ss, r);
    }
  }

  lemma {:induction false} RowsForUniform(rs: seq<Reservation>, q: RequestId, r: RequestId)
    requires forall i :: 0 <= i < |rs| ==> rs[i].requestId == q
    ensures RowsFor(rs, r) == if q == r then rs else []
  {
    if rs != [] {
      RowsForUniform(rs[1..], q, r);
    }
  }

  lemma {:induction false} RowsForWithout(rs: seq<Reservation>, q: RequestId, r: RequestId)
    ensures RowsFor(Without(rs, q), r) == if q == r then [] else RowsFor(rs, r)
  {
    if rs != [] {
      RowsForWithout(rs[1..], q, r);
    }
  }

  lemma {:induction false} RowsForUnexpired(rs: seq<Reservation>, now: Instant, r: RequestId)
    ensures RowsFor(Unexpired(rs, now), r) == Unexpired(RowsFor(rs, r), now)
  {
    if rs != [] {
      RowsForUnexpired(rs[1..], now, r);
    }
  }

  lemma {:induction false} UnexpiredUniform(rs: seq<Reservation>, now: Instant, expiry: Instant)
    requires forall i :: 0 <= i < |rs| ==> rs[i].expiresAt == expiry
    ensures Unexpired(rs, now) == if expiry <= now then [] else rs
  {
    if rs != [] {
      UnexpiredUniform(rs[1..], now, expiry);
    }
  }

  lemma {:induction false} FirstIsFirst(rs: seq<Reservation>, r: RequestId)
    ensures First(rs, r) == if RowsFor(rs, r) == [] then None else Some(RowsFor(rs, r)[0])
  {
    if rs != [] {
      FirstIsFirst(rs[1..], r);
    }
  }

  /** The rows a step inserts for a request. */
  function Inserted(db: Db, s: Step, r: RequestId): seq<Reservation> {
    if s.Reserve? && s.requestId == r && Apply(db, s) != db
    then NewReservations(Candidates(db.budgets, s.rows, s.matches), r, s.estimate, s.expiresAt)
    else []
  }

  /** The whole set of rows that the last admission of a request inserted, less those that
      went with a deleted budget. */
  function Booked(steps: seq<Step>, r: RequestId): seq<Reservation> {
    if steps == [] then []
    else
      var db, s := Run(steps[..|steps| - 1]), steps[|steps| - 1];
      var added := Inserted(db, s, r);
      var before := Booked(steps[..|steps| - 1], r);
      if added != [] then added
      else if Deletes(db, s) then ReservationsOf(before, (db.budgets - s.ids).Keys)
      else before
  }

  predicate Deletes(db: Db, s: Step) {
    s.Delete? && Apply(db, s) != db
  }

  /** A completion of the request that found a reservation and was not rolled back. */
  predicate Charges(db: Db, s: Step, r: RequestId) {
    s.Complete? && s.requestId == r && First(db.reservations, r).Some?
    && First(Apply(db, s).reservations, r).None?
  }

  ghost function Admissions(steps: seq<Step>, r: RequestId): nat {
    if steps == [] then 0
    else Admissions(steps[..|steps| - 1], r)
         + if Inserted(Run(steps[..|steps| - 1]), steps[|steps| - 1], r) != [] then 1 else 0
  }

  ghost function Completions(steps: seq<Step>, r: RequestId): nat {
    if steps == [] then 0
    else Completions(steps[..|steps| - 1], r)
         + if Charges(Run(steps[..|steps| - 1]), steps[|steps| - 1], r) then 1 else 0
  }

  /** How one step changes the rows of a request. */
  lemma {:induction false} StepRows(db: Db, s: Step, r: RequestId)
    ensures var rows, rows' := RowsFor(db.reservations, r), RowsFor(Apply(db, s).reservations, r);
      match s
      case Reserve(_, _, _, _, _) => rows' == rows + Inserted(db, s, r)
      case Complete(_, _, _, _) => rows' == if Charges(db, s, r) then [] else rows
      case Cleanup(now) => rows' == Unexpired(rows, now)
      case Delete(ids) =>
        rows' == if Deletes(db, s) then ReservationsOf(rows, (db.budgets - ids).Keys) else rows
      case _ => rows' == rows
  {
    match s
    case Reserve(q, ids, matches, estimate, expiresAt) =>
      var added := NewReservations(Candidates(db.budgets, ids, matches), q, estimate, expiresAt);
      RowsForAppend(db.reservations, added, r);
      RowsForUniform(added, q, r);
    case Complete(q, _, _, _) =>
      RowsForWithout(db.reservations, q, r);
      FirstIsFirst(db.reservations, r);
      FirstIsFirst(Apply(db, s).reservations, r);
    case Cleanup(now) => RowsForUnexpired(db.reservations, now, r);
    case Delete(ids) => RowsForKept(db.reservations, (db.budgets - ids).Keys, r);
    case _ =>
  }

  lemma {:induction false} RowsForKept(rs: seq<Reservation>, kept: set<Id>, r: RequestId)
    ensures RowsFor(ReservationsOf(rs, kept), r) == ReservationsOf(RowsFor(rs, r), kept)
  {
    if rs != [] {
      RowsForKept(rs[1..], kept, r);
    }
  }

  /** Every effective charge uses up one admission: request ids may be reused, budgets deleted and
      completions repeated, but here they read and commit in one step. */
  lemma {:induction false} ChargesUseUpAdmissions(steps: seq<Step>, r: RequestId)
    ensures Completions(steps, r) + (if RowsFor(Run(steps).reservations, r) != [] then 1 else 0)
      <= Admissions(steps, r)
  {
    if steps != [] {
      var pre, s := steps[..|steps| - 1], steps[|steps| - 1];
      ChargesUseUpAdmissions(pre, r);
      StepRows(Run(pre), s, r);
      FirstIsFirst(Run(pre).reservations, r);
    }
  }

  /** A completion that does not count as a charge changes nothing at all: a repeated
      end-of-stream message, or one that comes after the reservation expired. */
  lemma {:induction false} OtherCompletionsDoNothing(db: Db, s: Step)
    requires s.Complete? && !Charges(db, s, s.requestId)
    ensures Apply(db, s) == db
  {
    RowsForWithout(db.reservations, s.requestId, s.requestId);
    FirstIsFirst(Without(db.reservations, s.requestId), s.requestId);
  }

  ghost predicate ReservedOnce(steps: seq<Step>, r: RequestId) {
    forall i, j :: 0 <= i < j < |steps| ==> !(IsReserve(steps[i], r) && IsReserve(steps[j], r))
  }

  predicate IsReserve(s: Step, r: RequestId) {
    s.Reserve? && s.requestId == r
  }

  ghost predicate NeverReserved(steps: seq<Step>, r: RequestId) {
    forall i :: 0 <= i < |steps| ==> !IsReserve(steps[i], r)
  }

  lemma {:induction false} NothingBooked(steps: seq<Step>, r: RequestId)
    requires NeverReserved(steps, r)
    ensures Admissions(steps, r) == 0 && Booked(steps, r) == []
  {
    if steps != [] {
      NothingBooked(steps[..|steps| - 1], r);
    }
  }

  /** With unique request ids, and completions that do not overlap, a request is charged at most
      once. */
  lemma {:induction false} ChargedAtMostOnce(steps: seq<Step>, r: RequestId)
    requires ReservedOnce(steps, r)
    ensures Completions(steps, r) <= Admissions(steps, r) <= 1
  {
    ChargesUseUpAdmissions(steps, r);
    AdmittedAtMostOnce(steps, r);
  }

  lemma {:induction false} AdmittedAtMostOnce(steps: seq<Step>, r: RequestId)
    requires ReservedOnce(steps, r)
    ensures Admissions(steps, r) <= 1
  {
    if steps != [] {
      var pre, s := steps[..|steps| - 1], steps[|steps| - 1];
      if IsReserve(s, r) {
        NothingBooked(pre, r);
      } else {
        AdmittedAtMostOnce(pre, r);
      }
    }
  }

  /** All or nothing: with unique request ids, a request's live rows are the whole set it
      reserved, less what went with deleted budgets, or none. */
  lemma {:induction false} AllOrNothing(steps: seq<Step>, r: RequestId)
    requires ReservedOnce(steps, r)
    ensures var rows := RowsFor(Run(steps).reservations, r); rows == [] || rows == Booked(steps, r)
  {
    if steps != [] {
      var pre, s := steps[..|steps| - 1], steps[|steps| - 1];
      AllOrNothing(pre, r);
      StepRows(Run(pre), s, r);
      if IsReserve(s, r) {
        NothingBooked(pre, r);
        ChargesUseUpAdmissions(pre, r);
      } else if s.Cleanup? {
        var expiry := BookedTogether(pre, r);
        if RowsFor(Run(pre).reservations, r) != [] {
          UnexpiredUniform(Booked(pre, r), s.now, expiry);
        }
      }
    }
  }

  /** The rows of one admission share their expiry. */
  lemma {:induction false} BookedTogether(steps: seq<Step>, r: RequestId) returns (expiry: Instant)
    ensures forall i :: 0 <= i < |Booked(steps, r)| ==> Booked(steps, r)[i].expiresAt == expiry
  {
    expiry := 0;
    if steps != [] {
      var db, s := Run(steps[..|steps| - 1]), steps[|steps| - 1];
      if Inserted(db, s, r) != [] {
        expiry := s.expiresAt;
      } else {
        expiry := BookedTogether(steps[..|steps| - 1], r);
        if Deletes(db, s) {
          KeptShareExpiry(Booked(steps[..|steps| - 1], r), (db.budgets - s.ids).Keys, expiry);
        }
      }
    }
  }

  lemma {:induction false} KeptShareExpiry(rs: seq<Reservation>, kept: set<Id>, expiry: Instant)
    requires forall i :: 0 <= i < |rs| ==> rs[i].expiresAt == expiry
    ensures forall i :: 0 <= i < |ReservationsOf(rs, kept)| ==> ReservationsOf(rs, kept)[i].expiresAt == expiry
  {
    if rs != [] {
      KeptShareExpiry(rs[1..], kept, expiry);
    }
  }
}

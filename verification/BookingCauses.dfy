/**
 Who did it: every change of a booking's or a trip's status has exactly the causes
 the product knows, and behind every write of a two-step call stands an earlier
 question by the driver of that very trip, asked when he was entitled to.
 */
module BookingCauses {
  import opened Prelude
  import opened Bookings
  import opened BookingInvariants
  import opened BookingRuns
  import opened BookingRules

  // ---------------------------------------------------------------- one step

  /** The guarded write that uses up the ticket. */
  function WriteOf(t: Ticket): Step {
    match t
    case Creating(_, _, _, _, _) => BookingDoes(Books(t))
    case Rejecting(_, _) => BookingDoes(Rejects(t))
    case MarkingNoShow(_, _, _) => BookingDoes(ClaimsNoShow(t))
    case MarkingViewed(_, _) => BookingDoes(StampsViewed(t))
    case Withdrawing(_, _) => TripDoes(Withdraws(t))
    case Finishing(_, _) => TripDoes(Finishes(t))
  }

  ghost predicate Writes(s: System, st: Step, t: Ticket) { t in s.tickets && st == WriteOf(t) }

  predicate Waits(row: Booking) { row.status == Pending || row.status == Viewed }

  predicate Running(trip: Trip) { trip.status == Active || trip.status == Direct }

  /** The step accepts another passenger's request and thereby takes the trip's last seats. */
  ghost predicate SoldOutBy(s: System, st: Step, i: Id)
    requires i < |s.db.bookings| && s.db.bookings[i].trip < |s.db.trips|
  {
    && st.BookingDoes? && st.booking.Accepts? && st.booking.booking < |s.db.bookings|
    && var taken := s.db.bookings[st.booking.booking]; var trip := s.db.trips[s.db.bookings[i].trip];
       taken.trip == s.db.bookings[i].trip && taken.passenger != s.db.bookings[i].passenger
       && st.booking.driver == trip.driver && taken.seats == trip.available
  }

  /** The step accepts another request of the same passenger. */
  ghost predicate SeatedBy(s: System, st: Step, i: Id)
    requires i < |s.db.bookings|
  {
    && st.BookingDoes? && st.booking.Accepts? && st.booking.booking < |s.db.bookings| && st.booking.booking != i
    && s.db.bookings[st.booking.booking].passenger == s.db.bookings[i].passenger
    && Waits(s.db.bookings[st.booking.booking])
  }

  /** Why booking `i` may have the status `to` after the step. */
  ghost predicate Cause(s: System, st: Step, i: Id, to: BookingStatus)
    requires i < |s.db.bookings| && s.db.bookings[i].trip < |s.db.trips|
  {
    var row := s.db.bookings[i]; var trip := s.db.trips[row.trip];
    match to
    case Pending => false
    case Viewed => row.status == Pending && Writes(s, st, MarkingViewed(i, trip.driver))
    case Accepted =>
      Waits(row) && st == BookingDoes(Accepts(i, trip.driver)) && trip.status == Active && row.seats <= trip.available
    case Rejected => Waits(row) && Writes(s, st, Rejecting(i, trip.driver))
    case Expired =>
      && Waits(row)
      && (|| (st == CronDoes(Expires) && row.expiresAt.Some? && row.expiresAt.value < s.now)
          || SoldOutBy(s, st, i))
    case CancelledByPassenger =>
      || (Alive(row) && st == BookingDoes(Cancels(i, row.passenger)) && s.now <= trip.departure - 7_200_000)
      || (Waits(row) && SeatedBy(s, st, i))
    case CancelledLate => Alive(row) && st == BookingDoes(Cancels(i, row.passenger)) && s.now > trip.departure - 7_200_000
    case CancelledByDriver =>
      && Alive(row)
      && (|| (st == BookingDoes(Cancels(i, trip.driver)) && trip.driver != row.passenger)
          || (Running(trip) && st == TripDoes(ForceCancels(row.trip)))
          || (Running(trip) && Writes(s, st, Withdrawing(row.trip, trip.driver))))
    case NoShow => row.status == Accepted && trip.departure <= s.now && Writes(s, st, MarkingNoShow(i, trip.driver, row.passenger))
    case Completed =>
      && row.status == Accepted && Running(trip)
      && (|| (st == CronDoes(Closes) && RideOver(trip, s.now))
          || (trip.departure <= s.now && Writes(s, st, Finishing(row.trip, trip.driver))))
  }

  lemma AcceptCause(s: System, st: Step, i: Id)
    requires i < |s.db.bookings| && s.db.bookings[i].trip < |s.db.trips| && st.BookingDoes? && st.booking.Accepts?
    ensures i < |Exec(s, st).db.bookings|
    ensures var to := Exec(s, st).db.bookings[i].status; to != s.db.bookings[i].status ==> Cause(s, st, i, to)
  {
  }

  lemma CancelCause(s: System, st: Step, i: Id)
    requires i < |s.db.bookings| && s.db.bookings[i].trip < |s.db.trips| && st.BookingDoes? && st.booking.Cancels?
    ensures i < |Exec(s, st).db.bookings|
    ensures var to := Exec(s, st).db.bookings[i].status; to != s.db.bookings[i].status ==> Cause(s, st, i, to)
  {
  }

  lemma BookingCause(s: System, st: Step, i: Id)
    requires i < |s.db.bookings| && s.db.bookings[i].trip < |s.db.trips| && TicketsSound(s) && st.BookingDoes?
    ensures i < |Exec(s, st).db.bookings|
    ensures var to := Exec(s, st).db.bookings[i].status; to != s.db.bookings[i].status ==> Cause(s, st, i, to)
  {
    match st.booking
    case Accepts(_, _) => AcceptCause(s, st, i);
    case Cancels(_, _) => CancelCause(s, st, i);
    case Books(t) =>
    case Rejects(t) => if t in s.tickets { assert TicketSound(s, t); }
    case ClaimsNoShow(t) => if t in s.tickets { assert TicketSound(s, t); }
    case StampsViewed(t) => if t in s.tickets { assert TicketSound(s, t); }
  }

  lemma TripCause(s: System, st: Step, i: Id)
    requires i < |s.db.bookings| && s.db.bookings[i].trip < |s.db.trips| && TicketsSound(s) && st.TripDoes?
    ensures i < |Exec(s, st).db.bookings|
    ensures var to := Exec(s, st).db.bookings[i].status; to != s.db.bookings[i].status ==> Cause(s, st, i, to)
  {
    match st.trip
    case ForceCancels(t) => WithdrawTakes(s.db, t, i);
    case Withdraws(t) => if t in s.tickets && t.Withdrawing? { assert TicketSound(s, t); WithdrawTakes(s.db, t.trip, i); }
    case Finishes(t) => if t in s.tickets && t.Finishing? { assert TicketSound(s, t); FinishTakes(s.db, t.trip, i); }
    case _ => OthersKeepRow(s, st.trip, i);
  }

  lemma WithdrawTakes(db: Db, k: Id, i: Id)
    requires i < |db.bookings|
    ensures var db' := Withdraw(db, k).0; var row := db.bookings[i];
            && |db'.bookings| == |db.bookings|
            && (db'.bookings[i].status != row.status ==>
                  && k < |db.trips| && Running(db.trips[k]) && row.trip == k && Alive(row)
                  && db'.bookings[i].status == CancelledByDriver)
  {
  }

  lemma FinishTakes(db: Db, k: Id, i: Id)
    requires i < |db.bookings|
    ensures var db' := Finish(db, k); var row := db.bookings[i];
            && |db'.bookings| == |db.bookings|
            && (db'.bookings[i].status != row.status ==>
                  && k < |db.trips| && Running(db.trips[k]) && row.trip == k && row.status == Accepted
                  && db'.bookings[i].status == Completed)
  {
  }

  lemma OthersKeepRow(s: System, st: TripStep, i: Id)
    requires i < |s.db.bookings| && (st.Publishes? || st.OfferAccepted? || st.Adjusts?)
    ensures i < |ExecTrip(s, st).db.bookings| && ExecTrip(s, st).db.bookings[i] == s.db.bookings[i]
  {
  }

  lemma CronCause(s: System, st: Step, i: Id)
    requires i < |s.db.bookings| && s.db.bookings[i].trip < |s.db.trips| && st.CronDoes?
    ensures i < |Exec(s, st).db.bookings|
    ensures var to := Exec(s, st).db.bookings[i].status; to != s.db.bookings[i].status ==> Cause(s, st, i, to)
  {
    ExpireExactly(s.db, s.now);
    CloseExactly(s.db, s.now);
  }

  /**
   MAIN. No status changes by itself: whatever a booking becomes in a step of any
   safe state, the step is one of the few that may do it, done by the one who may.
   */
  lemma StatusHasCause(s: System, st: Step, i: Id)
    requires Safe(s) && i < |s.db.bookings|
    ensures i < |Exec(s, st).db.bookings|
    ensures var to := Exec(s, st).db.bookings[i].status; to != s.db.bookings[i].status ==> Cause(s, st, i, to)
  {
    match st
    case TripDoes(_) => TripCause(s, st, i);
    case BookingDoes(_) => BookingCause(s, st, i);
    case CronDoes(_) => CronCause(s, st, i);
    case _ =>
  }

  /** Why trip `t` may have the status `to` after the step. */
  ghost predicate EndCause(s: System, st: Step, t: Id, to: TripStatus)
    requires t < |s.db.trips|
  {
    var trip := s.db.trips[t];
    && Running(trip)
    && match to
       case Finished =>
         || (st == CronDoes(Closes) && RideOver(trip, s.now))
         || (trip.departure <= s.now && Writes(s, st, Finishing(t, trip.driver)))
       case Withdrawn => st == TripDoes(ForceCancels(t)) || Writes(s, st, Withdrawing(t, trip.driver))
       case _ => false
  }

  /** MAIN. A trip ends by its driver's own call, by an admin, or by the closing job once the ride is over - never earlier. */
  lemma EndHasCause(s: System, st: Step, t: Id)
    requires Safe(s) && t < |s.db.trips|
    ensures t < |Exec(s, st).db.trips|
    ensures var to := Exec(s, st).db.trips[t].status; to != s.db.trips[t].status ==> EndCause(s, st, t, to)
  {
    match st
    case TripDoes(step) => TripEndCause(s, st, t);
    case BookingDoes(step) => BookingsKeepTripStatus(s, step, t);
    case CronDoes(job) => CloseExactly(s.db, s.now);
    case _ =>
  }

  lemma TripEndCause(s: System, st: Step, t: Id)
    requires TicketsSound(s) && t < |s.db.trips| && st.TripDoes?
    ensures t < |Exec(s, st).db.trips|
    ensures var to := Exec(s, st).db.trips[t].status; to != s.db.trips[t].status ==> EndCause(s, st, t, to)
  {
    match st.trip
    case ForceCancels(k) => WithdrawEnds(s.db, k, t);
    case Withdraws(k) => if k in s.tickets && k.Withdrawing? { assert TicketSound(s, k); WithdrawEnds(s.db, k.trip, t); }
    case Finishes(k) => if k in s.tickets && k.Finishing? { assert TicketSound(s, k); FinishEnds(s.db, k.trip, t); }
    case _ => OthersKeepTripStatus(s, st.trip, t);
  }

  lemma WithdrawEnds(db: Db, k: Id, t: Id)
    requires t < |db.trips|
    ensures var db' := Withdraw(db, k).0;
            && |db'.trips| == |db.trips|
            && (db'.trips[t].status != db.trips[t].status ==> t == k && Running(db.trips[t]) && db'.trips[t].status == Withdrawn)
  {
  }

  lemma FinishEnds(db: Db, k: Id, t: Id)
    requires t < |db.trips|
    ensures var db' := Finish(db, k);
            && |db'.trips| == |db.trips|
            && (db'.trips[t].status != db.trips[t].status ==> t == k && Running(db.trips[t]) && db'.trips[t].status == Finished)
  {
  }

  lemma OthersKeepTripStatus(s: System, st: TripStep, t: Id)
    requires t < |s.db.trips| && (st.Publishes? || st.OfferAccepted? || st.Adjusts?)
    ensures t < |ExecTrip(s, st).db.trips| && ExecTrip(s, st).db.trips[t].status == s.db.trips[t].status
  {
  }

  lemma BookingsKeepTripStatus(s: System, st: BookingStep, t: Id)
    requires t < |s.db.trips|
    ensures t < |ExecBooking(s, st).db.trips| && ExecBooking(s, st).db.trips[t].status == s.db.trips[t].status
  {
    match st
    case Accepts(b, driver) => AcceptKeepsTripStatus(s.db, b, driver, t);
    case Cancels(b, user) => CancelKeepsTripStatus(s.db, b, user, s.now, t);
    case _ => assert ExecBooking(s, st).db.trips == s.db.trips;
  }

  lemma AcceptKeepsTripStatus(db: Db, b: Id, driver: Id, t: Id)
    requires t < |db.trips|
    ensures var db' := Accept(db, b, driver).0; |db'.trips| == |db.trips| && db'.trips[t].status == db.trips[t].status
  {
  }

  lemma CancelKeepsTripStatus(db: Db, b: Id, user: Id, now: int, t: Id)
    requires t < |db.trips|
    ensures var db' := Cancel(db, b, user, now).0; |db'.trips| == |db.trips| && db'.trips[t].status == db.trips[t].status
  {
  }

  /** How a new row comes about: from a request the rules allow, or from an offer taken up in time. */
  ghost predicate Born(s: System, st: Step, row: Booking) {
    || ( && st.BookingDoes? && st.booking.Books? && st.booking.ticket in s.tickets && st.booking.ticket.Creating?
         && var t := st.booking.ticket;
            && TripTakes(s.db, t.trip, t.passenger, t.seats, t.asked) && PassengerFree(s.db, t.trip, t.passenger)
            && row == Booking(t.trip, t.passenger, t.seats, Pending, Some(t.asked + 3_600_000), None, t.key))
    || ( && st.TripDoes? && st.trip.OfferAccepted? && s.now < st.trip.departure && 1 <= st.trip.seats
         && st.trip.passenger < |s.db.users| && st.trip.driver < |s.db.users|
         && row == Booking(|s.db.trips|, st.trip.passenger, st.trip.seats, Accepted, None, None, None))
  }

  /** MAIN. A step adds one booking at most, and only by a request or an offer; a request lives an hour from when it was asked. */
  lemma BookingsAreBorn(s: System, st: Step)
    ensures var bs, after := s.db.bookings, Exec(s, st).db.bookings;
            && |bs| <= |after| <= |bs| + 1
            && (|after| > |bs| ==> Born(s, st, after[|bs|]))
  {
    match st
    case BookingDoes(b) => if b.Books? { BookedIsBorn(s, st); } else { RowCountSame(s, b); }
    case TripDoes(t) => if t.OfferAccepted? { OfferIsBorn(s, st); } else { TripRowCountSame(s, t); }
    case _ =>
  }

  lemma BookedIsBorn(s: System, st: Step)
    requires st.BookingDoes? && st.booking.Books?
    ensures var bs, after := s.db.bookings, Exec(s, st).db.bookings;
            |after| == |bs| || (|after| == |bs| + 1 && Born(s, st, after[|bs|]))
  {
    var t := st.booking.ticket;
    if t.Creating? { CreateSucceedsExactly(s.db, t.trip, t.passenger, t.seats, t.key, t.asked); }
  }

  lemma OfferIsBorn(s: System, st: Step)
    requires st.TripDoes? && st.trip.OfferAccepted?
    ensures var bs, after := s.db.bookings, Exec(s, st).db.bookings;
            |after| == |bs| || (|after| == |bs| + 1 && Born(s, st, after[|bs|]))
  {
  }

  lemma RowCountSame(s: System, st: BookingStep)
    requires !st.Books?
    ensures |ExecBooking(s, st).db.bookings| == |s.db.bookings|
  {
  }

  lemma TripRowCountSame(s: System, st: TripStep)
    requires !st.OfferAccepted?
    ensures |ExecTrip(s, st).db.bookings| == |s.db.bookings|
  {
  }

  // ---------------------------------------------------------------- behind a write, a question

  function AskOf(t: Ticket): AskStep {
    match t
    case Creating(trip, passenger, seats, key, _) => ToBook(trip, passenger, seats, key)
    case Rejecting(b, driver) => ToReject(b, driver)
    case MarkingNoShow(b, driver, _) => ToMarkNoShow(b, driver)
    case MarkingViewed(b, driver) => ToMarkViewed(b, driver)
    case Withdrawing(t, driver) => ToEnd(t, driver, false)
    case Finishing(t, driver) => ToEnd(t, driver, true)
  }

  /** What entitled the caller of the ticket when he asked. */
  ghost predicate Entitled(s: System, t: Ticket) {
    match t
    case Creating(_, passenger, seats, key, asked) =>
      && 1 <= seats <= 4 && asked == s.now
      && (key.Some? ==> forall i :: 0 <= i < |s.db.bookings| ==> s.db.bookings[i].key != key)
    case Rejecting(b, driver) => Drives(s.db, b, driver) && Waits(s.db.bookings[b])
    case MarkingNoShow(b, driver, passenger) =>
      && Drives(s.db, b, driver) && s.db.bookings[b].status == Accepted && s.db.bookings[b].passenger == passenger
      && s.db.trips[s.db.bookings[b].trip].departure <= s.now
    case MarkingViewed(b, driver) =>
      Drives(s.db, b, driver) && s.db.bookings[b].status == Pending && s.db.bookings[b].viewedAt == None
    case Withdrawing(k, driver) => DrivesTrip(s.db, k, driver) && Running(s.db.trips[k])
    case Finishing(k, driver) => DrivesTrip(s.db, k, driver) && Running(s.db.trips[k]) && s.db.trips[k].departure <= s.now
  }

  /** Asking yields the ticket exactly when entitled; a call that is not changes nothing. */
  lemma AskExactly(s: System, t: Ticket)
    requires t.Creating? ==> t.asked == s.now
    requires t.MarkingNoShow? && t.booking < |s.db.bookings| ==> t.passenger == s.db.bookings[t.booking].passenger
    ensures Exec(s, Asks(AskOf(t))) == if Entitled(s, t) then s.(tickets := s.tickets + multiset{t}) else s
  {
    match t
    case Creating(_, passenger, _, key, _) => KeyFree(s.db, passenger, key);
    case Rejecting(b, driver) => RejectAllowedExactly(s.db, b, driver);
    case MarkingNoShow(b, driver, _) => NoShowAllowedExactly(s.db, b, driver, s.now);
    case MarkingViewed(b, driver) => ViewAllowedExactly(s.db, b, driver);
    case Withdrawing(k, driver) => EndAllowedExactly(s.db, k, driver, false, s.now);
    case Finishing(k, driver) => EndAllowedExactly(s.db, k, driver, true, s.now);
  }

  /** A ticket that was not there before the step was asked for by it. */
  lemma NewTicketAsked(s: System, st: Step, t: Ticket)
    requires t in Exec(s, st).tickets && t !in s.tickets
    ensures st == Asks(AskOf(t)) && Entitled(s, t)
  {
    if !st.Asks? { OldTickets(s, st, t); }
    TicketOfAsk(s, st.ask, t);
    AskExactly(s, t);
  }

  lemma TicketOfAsk(s: System, st: AskStep, t: Ticket)
    requires t in ExecAsk(s, st).tickets && t !in s.tickets
    ensures st == AskOf(t) && (t.Creating? ==> t.asked == s.now)
    ensures t.MarkingNoShow? && t.booking < |s.db.bookings| ==> t.passenger == s.db.bookings[t.booking].passenger
  {
  }

  /** Step `j` of the run is the question behind ticket `t`, asked by someone entitled. */
  ghost predicate AskedAt(s: System, steps: seq<Step>, j: nat, t: Ticket) {
    j < |steps| && steps[j] == Asks(AskOf(t)) && Entitled(Run(s, steps[..j]), t)
  }

  lemma RunPrefix(s: System, steps: seq<Step>, j: nat)
    requires steps != [] && j < |steps|
    ensures Run(s, steps[..j + 1]) == Run(Exec(s, steps[0]), steps[1..][..j])
  {
    assert steps[..j + 1][1..] == steps[1..][..j];
  }

  lemma {:induction false} HeldWasAsked(s: System, steps: seq<Step>, t: Ticket) returns (j: nat)
    requires t in Run(s, steps).tickets && t !in s.tickets
    ensures AskedAt(s, steps, j, t)
    decreases |steps|
  {
    var next := Exec(s, steps[0]);
    if t in next.tickets {
      NewTicketAsked(s, steps[0], t);
      assert Run(s, steps[..0]) == s;
      j := 0;
    } else {
      var k := HeldWasAsked(next, steps[1..], t);
      RunPrefix(s, steps, k);
      j := k + 1;
    }
  }

  /** The part of the run before step `k`. */
  function Before(now: int, steps: seq<Step>, k: nat): System
    requires k <= |steps|
  {
    Run(Start(now), steps[..k])
  }

  lemma WrittenWasAsked(now: int, steps: seq<Step>, k: nat, t: Ticket) returns (j: nat)
    requires k < |steps| && t in Before(now, steps, k).tickets
    ensures j < k && AskedAt(Start(now), steps, j, t)
  {
    j := HeldWasAsked(Start(now), steps[..k], t);
    assert steps[..k][..j] == steps[..j];
  }

  /**
   MAIN. In every run from empty tables: a booking that becomes a no-show, rejected or
   viewed, and a trip its driver withdraws or completes, goes back to an earlier
   question by the driver of that trip, asked when the rows entitled him to.
   */
  lemma DriverAskedFirst(now: int, steps: seq<Step>, k: nat, i: Id)
    requires k < |steps| && i < |Before(now, steps, k).db.bookings|
    ensures var s := Before(now, steps, k); var row := s.db.bookings[i];
            && row.trip < |s.db.trips| && i < |Exec(s, steps[k]).db.bookings|
            && var driver := s.db.trips[row.trip].driver; var to := Exec(s, steps[k]).db.bookings[i].status;
               to != row.status ==>
                 && (to == NoShow ==> exists j | 0 <= j < k :: AskedAt(Start(now), steps, j, MarkingNoShow(i, driver, row.passenger)))
                 && (to == Rejected ==> exists j | 0 <= j < k :: AskedAt(Start(now), steps, j, Rejecting(i, driver)))
                 && (to == Viewed ==> exists j | 0 <= j < k :: AskedAt(Start(now), steps, j, MarkingViewed(i, driver)))
  {
    StartSafe(now);
    RunSafe(Start(now), steps[..k]);
    var s := Before(now, steps, k);
    StatusHasCause(s, steps[k], i);
    var row := s.db.bookings[i];
    var driver, to := s.db.trips[row.trip].driver, Exec(s, steps[k]).db.bookings[i].status;
    if to != row.status {
      if to == NoShow { var j := WrittenWasAsked(now, steps, k, MarkingNoShow(i, driver, row.passenger)); }
      if to == Rejected { var j := WrittenWasAsked(now, steps, k, Rejecting(i, driver)); }
      if to == Viewed { var j := WrittenWasAsked(now, steps, k, MarkingViewed(i, driver)); }
    }
  }

  /** MAIN. A trip finishes in a run by the closing job after the ride, or because its driver asked to complete it after departure. */
  lemma FinishedInTime(now: int, steps: seq<Step>, k: nat, t: Id)
    requires k < |steps| && t < |Before(now, steps, k).db.trips|
    ensures var s := Before(now, steps, k); var trip := s.db.trips[t];
            && t < |Exec(s, steps[k]).db.trips|
            && var to := Exec(s, steps[k]).db.trips[t].status;
               to != trip.status ==>
                 && (to == Finished ==>
                       || (steps[k] == CronDoes(Closes) && trip.departure + trip.durationMs + 7_200_000 < s.now)
                       || exists j | 0 <= j < k :: AskedAt(Start(now), steps, j, Finishing(t, trip.driver)))
                 && (to == Withdrawn ==>
                       || steps[k] == TripDoes(ForceCancels(t))
                       || exists j | 0 <= j < k :: AskedAt(Start(now), steps, j, Withdrawing(t, trip.driver)))
  {
    StartSafe(now);
    RunSafe(Start(now), steps[..k]);
    var s := Before(now, steps, k);
    EndHasCause(s, steps[k], t);
    var trip := s.db.trips[t];
    if Writes(s, steps[k], Finishing(t, trip.driver)) { var j := WrittenWasAsked(now, steps, k, Finishing(t, trip.driver)); }
    if Writes(s, steps[k], Withdrawing(t, trip.driver)) { var j := WrittenWasAsked(now, steps, k, Withdrawing(t, trip.driver)); }
  }

  lemma {:induction false} ClaimWasMade(s: System, steps: seq<Step>, i: Id) returns (k: nat)
    requires Claims(s, steps, i) > 0
    ensures k < |steps| && ClaimsAccepted(Run(s, steps[..k]), steps[k], i)
    decreases |steps|
  {
    if ClaimsAccepted(s, steps[0], i) {
      assert Run(s, steps[..0]) == s;
      k := 0;
    } else {
      var j := ClaimWasMade(Exec(s, steps[0]), steps[1..], i);
      RunPrefix(s, steps, j);
      k := j + 1;
    }
  }

  /**
   MAIN. Behind every half-star charge of every run stands a question by the driver of
   that booking's trip, asked while the booking was accepted and after departure.
   */
  lemma ChargedOnTheDriversWord(now: int, steps: seq<Step>, i: Id)
    requires TimesCharged(Run(Start(now), steps).past.charges, i, 50) > 0
    ensures var db := Run(Start(now), steps).db;
            && i < |db.bookings| && db.bookings[i].trip < |db.trips|
            && exists j | 0 <= j < |steps| ::
                 AskedAt(Start(now), steps, j, MarkingNoShow(i, db.trips[db.bookings[i].trip].driver, db.bookings[i].passenger))
  {
    ChargedExactlyForTheAct(now, steps, i);
    var k := ClaimWasMade(Start(now), steps, i);
    var s, db := Before(now, steps, k), Run(Start(now), steps).db;
    var t := steps[k].booking.ticket;
    var j := WrittenWasAsked(now, steps, k, t);
    StartSafe(now);
    RunSafe(Start(now), steps[..k]);
    assert TicketSound(s, t);
    RunSplit(Start(now), steps, k);
    RunSafe(s, steps[k..]);
    assert RowMoves(s.db, db, i);
    assert TripMoves(s.db, db, s.db.bookings[i].trip);
    assert t == MarkingNoShow(i, db.trips[db.bookings[i].trip].driver, db.bookings[i].passenger);
  }

  lemma {:induction false} RunSplit(s: System, steps: seq<Step>, k: nat)
    requires k <= |steps|
    ensures Run(Run(s, steps[..k]), steps[k..]) == Run(s, steps)
    decreases k
  {
    if k == 0 {
      assert steps[..0] == [] && steps[0..] == steps;
    } else {
      RunPrefix(s, steps, k - 1);
      assert steps[1..][k - 1..] == steps[k..];
      RunSplit(Exec(s, steps[0]), steps[1..], k - 1);
    }
  }
}

/**
 Whole runs of the marketplace: any number of callers and cron jobs, interleaved
 transaction by transaction. A call that reads first and writes later is two
 steps; between them it is a ticket, and any other step may happen.
 */
module BookingRuns {
  import opened Prelude
  import opened Bookings
  import opened BookingInvariants

  /** A call between its stale read and its guarded transaction, with its caller and what it carries across. */
  datatype Ticket =
    | Creating(trip: Id, passenger: Id, seats: nat, key: Option<string>, asked: int)
    | Rejecting(booking: Id, driver: Id)
    | MarkingNoShow(booking: Id, driver: Id, passenger: Id)
    | MarkingViewed(booking: Id, driver: Id)
    | Withdrawing(trip: Id, driver: Id)
    | Finishing(trip: Id, driver: Id)

  datatype Charged = Charged(booking: Id, user: Id, amount: nat)

  /**
   What happened, kept beside the tables so that statements can refer to it; no
   step reads it. `manual[t]` is the net of the driver's hand adjustments of trip
   t, `private[t]` whether t was born from an accepted offer.
   */
  datatype History = History(manual: seq<int>, private: seq<bool>, charges: seq<Charged>)

  datatype System = System(db: Db, now: int, tickets: multiset<Ticket>, past: History)

  datatype UserStep =
    | SignsUp
    | Flags(user: Id, blocked: bool, deleted: bool)
    | Recalculates(user: Id, average: int)

  datatype TripStep =
    | Publishes(driver: Id, total: nat, departure: int, durationMs: nat)
    | OfferAccepted(passenger: Id, driver: Id, seats: nat, departure: int, durationMs: nat)
    | Adjusts(trip: Id, driver: Id, up: bool)
    | ForceCancels(trip: Id)
    | Withdraws(ticket: Ticket)
    | Finishes(ticket: Ticket)

  datatype AskStep =
    | ToBook(trip: Id, passenger: Id, seats: nat, key: Option<string>)
    | ToReject(booking: Id, driver: Id)
    | ToMarkNoShow(booking: Id, driver: Id)
    | ToMarkViewed(booking: Id, driver: Id)
    | ToEnd(trip: Id, driver: Id, completing: bool)

  datatype BookingStep =
    | Books(ticket: Ticket)
    | Accepts(booking: Id, driver: Id)
    | Cancels(booking: Id, user: Id)
    | Rejects(ticket: Ticket)
    | ClaimsNoShow(ticket: Ticket)
    | StampsViewed(ticket: Ticket)

  datatype CronStep = Expires | Closes

  datatype Step =
    | Tick(ms: nat)
    | UserDoes(user: UserStep)
    | TripDoes(trip: TripStep)
    | Asks(ask: AskStep)
    | BookingDoes(booking: BookingStep)
    | CronDoes(job: CronStep)

  // ---------------------------------------------------------------- execution

  function Take(s: System, t: Ticket): System { s.(tickets := s.tickets - multiset{t}) }

  function Hold(s: System, t: Ticket): System { s.(tickets := s.tickets + multiset{t}) }

  function ExecUser(s: System, st: UserStep): System {
    match st
    case SignsUp => s.(db := SignUp(s.db))
    case Flags(u, blocked, deleted) => s.(db := SetFlags(s.db, u, blocked, deleted))
    case Recalculates(u, average) => s.(db := Recalculate(s.db, u, average))
  }

  function Delta(up: bool): int { if up then 1 else -1 }

  function NewTrip(p: History, private: bool): History {
    p.(manual := p.manual + [0], private := p.private + [private])
  }

  function ExecTrip(s: System, st: TripStep): System {
    match st
    case Publishes(driver, total, departure, durationMs) =>
      if driver < |s.db.users|
      then s.(db := Publish(s.db, driver, total, departure, durationMs), past := NewTrip(s.past, false))
      else s
    case OfferAccepted(passenger, driver, seats, departure, durationMs) =>
      if driver < |s.db.users| && passenger < |s.db.users| && s.now < departure && seats >= 1
      then s.(db := AcceptOffer(s.db, passenger, driver, seats, departure, durationMs), past := NewTrip(s.past, true))
      else s
    case Adjusts(t, driver, up) =>
      var (db', r) := AdjustSeats(s.db, t, driver, Delta(up));
      if r.Done? && t < |s.past.manual|
      then s.(db := db', past := s.past.(manual := s.past.manual[t := s.past.manual[t] + Delta(up)]))
      else s
    case ForceCancels(t) => s.(db := Withdraw(s.db, t).0)
    case Withdraws(t) =>
      if t in s.tickets && t.Withdrawing? then Take(s, t).(db := Withdraw(s.db, t.trip).0) else s
    case Finishes(t) =>
      if t in s.tickets && t.Finishing? then Take(s, t).(db := Finish(s.db, t.trip)) else s
  }

  function ExecAsk(s: System, st: AskStep): System {
    match st
    case ToBook(t, passenger, seats, key) =>
      if 1 <= seats <= 4 && ReplayOf(s.db, passenger, key).None?
      then Hold(s, Creating(t, passenger, seats, key, s.now)) else s
    case ToReject(b, driver) =>
      if RejectCheck(s.db, b, driver) == Ignored then Hold(s, Rejecting(b, driver)) else s
    case ToMarkNoShow(b, driver) =>
      if NoShowCheck(s.db, b, driver, s.now) == Ignored
      then Hold(s, MarkingNoShow(b, driver, s.db.bookings[b].passenger)) else s
    case ToMarkViewed(b, driver) =>
      if ViewCheck(s.db, b, driver) then Hold(s, MarkingViewed(b, driver)) else s
    case ToEnd(t, driver, completing) =>
      if EndCheck(s.db, t, driver, completing, s.now) == Ignored
      then Hold(s, if completing then Finishing(t, driver) else Withdrawing(t, driver)) else s
  }

  /** The charge a successful cancel makes, if any. */
  function CancelCharge(db: Db, b: Id, user: Id, now: int): seq<Charged> {
    if Cancel(db, b, user, now).1.Done? && db.bookings[b].status == Accepted && db.bookings[b].passenger != user
    then [Charged(b, db.trips[db.bookings[b].trip].driver, DRIVER_CANCEL_PENALTY)] else []
  }

  function NoShowCharge(db: Db, b: Id, passenger: Id): seq<Charged> {
    if NoShowClaim(db, b, passenger).1.Done? then [Charged(b, passenger, NO_SHOW_PENALTY)] else []
  }

  function ExecBooking(s: System, st: BookingStep): System {
    match st
    case Books(t) =>
      if t in s.tickets && t.Creating?
      then Take(s, t).(db := Create(s.db, t.trip, t.passenger, t.seats, t.key, t.asked).0) else s
    case Accepts(b, driver) => s.(db := Accept(s.db, b, driver).0)
    case Cancels(b, user) =>
      s.(db := Cancel(s.db, b, user, s.now).0,
         past := s.past.(charges := s.past.charges + CancelCharge(s.db, b, user, s.now)))
    case Rejects(t) =>
      if t in s.tickets && t.Rejecting? then Take(s, t).(db := RejectFlip(s.db, t.booking).0) else s
    case ClaimsNoShow(t) =>
      if t in s.tickets && t.MarkingNoShow?
      then Take(s, t).(db := NoShowClaim(s.db, t.booking, t.passenger).0,
                       past := s.past.(charges := s.past.charges + NoShowCharge(s.db, t.booking, t.passenger)))
      else s
    case StampsViewed(t) =>
      if t in s.tickets && t.MarkingViewed? then Take(s, t).(db := ViewFlip(s.db, t.booking, s.now)) else s
  }

  function ExecCron(s: System, st: CronStep): System {
    match st
    case Expires => s.(db := ExpireDue(s.db, s.now))
    case Closes => s.(db := AutoComplete(s.db, s.now))
  }

  function Exec(s: System, st: Step): System {
    match st
    case Tick(ms) => s.(now := s.now + ms)
    case UserDoes(u) => ExecUser(s, u)
    case TripDoes(t) => ExecTrip(s, t)
    case Asks(a) => ExecAsk(s, a)
    case BookingDoes(b) => ExecBooking(s, b)
    case CronDoes(c) => ExecCron(s, c)
  }

  function Run(s: System, steps: seq<Step>): System
    decreases |steps|
  {
    if steps == [] then s else Run(Exec(s, steps[0]), steps[1..])
  }

  /** Empty tables, nobody in flight. */
  function Start(now: int): System { System(Db([], [], []), now, multiset{}, History([], [], [])) }

  // ---------------------------------------------------------------- the system invariant

  /** Seats on sale + seats taken = the car, up to what the driver moved by hand. */
  ghost predicate SeatsConserved(s: System) {
    && |s.past.manual| == |s.past.private| == |s.db.trips|
    && (forall t :: 0 <= t < |s.db.trips| && !s.past.private[t] && s.db.trips[t].status != Withdrawn ==>
          s.db.trips[t].available + Seats(s.db.bookings, t, TAKEN) == s.db.trips[t].total + s.past.manual[t])
    && (forall t :: 0 <= t < |s.db.trips| && s.past.private[t] ==>
          s.db.trips[t].available == 0 && s.db.trips[t].status != Active)
    && (forall t :: 0 <= t < |s.db.trips| && s.db.trips[t].status == Direct ==> s.past.private[t])
  }

  function ChargedTo(cs: seq<Charged>, u: Id): nat {
    if cs == [] then 0
    else ChargedTo(cs[..|cs| - 1], u) + (if cs[|cs| - 1].user == u then cs[|cs| - 1].amount else 0)
  }

  /** A charge names the one reason it can have. */
  ghost predicate ChargeJustified(db: Db, c: Charged) {
    && c.booking < |db.bookings| && db.bookings[c.booking].trip < |db.trips|
    && ( || (db.bookings[c.booking].status == NoShow && c.user == db.bookings[c.booking].passenger && c.amount == 50)
         || (db.bookings[c.booking].status == CancelledByDriver && c.user == db.trips[db.bookings[c.booking].trip].driver
             && c.amount == 30))
  }

  ghost predicate ChargedOnce(db: Db, cs: seq<Charged>) {
    && (forall k :: 0 <= k < |cs| ==> ChargeJustified(db, cs[k]))
    && (forall j, k :: 0 <= j < k < |cs| ==> cs[j].booking != cs[k].booking)
    && (forall i :: 0 <= i < |db.bookings| && db.bookings[i].status == NoShow ==> exists k :: 0 <= k < |cs| && cs[k].booking == i)
  }

  ghost predicate PenaltiesAddUp(s: System) {
    forall u :: 0 <= u < |s.db.users| ==> s.db.users[u].penalty == ChargedTo(s.past.charges, u)
  }

  /** The caller drives the trip of the booking he is deciding on. */
  ghost predicate DrivesBooking(db: Db, b: Id, driver: Id) {
    b < |db.bookings| && db.bookings[b].trip < |db.trips| && db.trips[db.bookings[b].trip].driver == driver
  }

  ghost predicate DrivesTrip(db: Db, t: Id, driver: Id) { t < |db.trips| && db.trips[t].driver == driver }

  /** What a stale read established that no later step can undo. */
  ghost predicate TicketSound(s: System, t: Ticket) {
    match t
    case Creating(_, _, seats, _, _) => seats >= 1
    case Rejecting(b, driver) => DrivesBooking(s.db, b, driver)
    case MarkingViewed(b, driver) => DrivesBooking(s.db, b, driver)
    case MarkingNoShow(b, driver, passenger) =>
      && DrivesBooking(s.db, b, driver) && s.db.bookings[b].passenger == passenger
      && s.db.trips[s.db.bookings[b].trip].departure <= s.now
    case Withdrawing(k, driver) => DrivesTrip(s.db, k, driver)
    case Finishing(k, driver) => DrivesTrip(s.db, k, driver) && s.db.trips[k].departure <= s.now
  }

  ghost predicate NoShowsDeparted(s: System) {
    forall i :: 0 <= i < |s.db.bookings| && s.db.bookings[i].status == NoShow && s.db.bookings[i].trip < |s.db.trips| ==>
      s.db.trips[s.db.bookings[i].trip].departure <= s.now
  }

  ghost predicate TicketsSound(s: System) { forall t :: t in s.tickets ==> TicketSound(s, t) }

  ghost predicate Safe(s: System) {
    && Valid(s.db) && SeatsConserved(s) && ChargedOnce(s.db, s.past.charges)
    && PenaltiesAddUp(s) && TicketsSound(s) && NoShowsDeparted(s)
  }

  // ---------------------------------------------------------------- tables

  ghost predicate TablesStep(s: System, s': System) {
    Valid(s'.db) && Moves(s.db, s'.db) && s'.now >= s.now
  }

  lemma UsersOnly(db: Db, db': Db)
    requires Valid(db) && db'.trips == db.trips && db'.bookings == db.bookings && |db.users| <= |db'.users|
    ensures Valid(db') && Moves(db, db')
  {
    assert Moves(db, db');
    RowsKeepUniqueness(db, db');
    RowsStayLinked(db, db');
    forall i | 0 <= i < |db'.bookings| ensures Settled(db', i) { assert Settled(db, i); }
    forall t | 0 <= t < |db'.trips| ensures Fits(db', t) { assert Fits(db, t); }
  }

  lemma TripTables(s: System, st: TripStep)
    requires Valid(s.db)
    ensures TablesStep(s, ExecTrip(s, st))
  {
    match st
    case Publishes(driver, total, departure, durationMs) => PublishKeeps(s.db, driver, total, departure, durationMs);
    case OfferAccepted(passenger, driver, seats, departure, durationMs) =>
      AcceptOfferKeeps(s.db, passenger, driver, seats, departure, durationMs);
    case Adjusts(t, driver, up) => AdjustKeeps(s.db, t, driver, Delta(up));
    case ForceCancels(t) => WithdrawKeeps(s.db, t);
    case Withdraws(t) => if t.Withdrawing? { WithdrawKeeps(s.db, t.trip); }
    case Finishes(t) => if t.Finishing? { FinishKeeps(s.db, t.trip); }
  }

  lemma BookingTables(s: System, st: BookingStep)
    requires Valid(s.db)
    ensures TablesStep(s, ExecBooking(s, st))
  {
    match st
    case Books(t) => if t.Creating? { CreateKeeps(s.db, t.trip, t.passenger, t.seats, t.key, t.asked); }
    case Accepts(b, driver) => AcceptKeeps(s.db, b, driver);
    case Cancels(b, user) => CancelKeeps(s.db, b, user, s.now);
    case Rejects(t) => if t.Rejecting? { RejectKeeps(s.db, t.booking); }
    case ClaimsNoShow(t) => if t.MarkingNoShow? { NoShowKeeps(s.db, t.booking, t.passenger); }
    case StampsViewed(t) => if t.MarkingViewed? { ViewKeeps(s.db, t.booking, s.now); }
  }

  /** Every transaction keeps the tables valid, and every row moves along its graph. */
  lemma TablesKept(s: System, st: Step)
    requires Valid(s.db)
    ensures TablesStep(s, Exec(s, st))
  {
    match st
    case Tick(ms) =>
    case UserDoes(u) => UsersOnly(s.db, ExecUser(s, u).db);
    case TripDoes(t) => TripTables(s, t);
    case Asks(a) =>
    case BookingDoes(b) => BookingTables(s, b);
    case CronDoes(c) => ExpireKeeps(s.db, s.now); AutoCompleteKeeps(s.db, s.now);
  }

  // ---------------------------------------------------------------- seats

  /** What a step adds to the hand-adjustment ledger of trip `t`. */
  function HandMoved(s: System, st: Step, t: Id): int {
    if st.TripDoes? && st.trip.Adjusts? && st.trip.trip == t
       && AdjustSeats(s.db, t, st.trip.driver, Delta(st.trip.up)).1.Done?
    then Delta(st.trip.up) else 0
  }

  lemma TripBalanced(s: System, st: TripStep, t: Id)
    requires Valid(s.db) && t < |s.db.trips| && |s.past.manual| == |s.db.trips|
    ensures Balanced(s.db, ExecTrip(s, st).db, t, HandMoved(s, TripDoes(st), t))
  {
    match st
    case Publishes(driver, total, departure, durationMs) => PublishBalanced(s.db, driver, total, departure, durationMs, t);
    case OfferAccepted(passenger, driver, seats, departure, durationMs) =>
      AcceptOfferBalanced(s.db, passenger, driver, seats, departure, durationMs, t);
    case Adjusts(k, driver, up) =>
    case ForceCancels(k) => WithdrawBalanced(s.db, k, t);
    case Withdraws(k) => if k.Withdrawing? { WithdrawBalanced(s.db, k.trip, t); }
    case Finishes(k) => if k.Finishing? { FinishBalanced(s.db, k.trip, t); }
  }

  lemma BookingBalanced(s: System, st: BookingStep, t: Id)
    requires Valid(s.db) && t < |s.db.trips|
    ensures Balanced(s.db, ExecBooking(s, st).db, t, 0)
  {
    match st
    case Books(k) => if k.Creating? { CreateBalanced(s.db, k.trip, k.passenger, k.seats, k.key, k.asked, t); }
    case Accepts(b, driver) => AcceptBalanced(s.db, b, driver, t);
    case Cancels(b, user) => CancelBalanced(s.db, b, user, s.now, t);
    case Rejects(k) => if k.Rejecting? { SameTakenBalanced(s.db, RejectFlip(s.db, k.booking).0, t); }
    case ClaimsNoShow(k) => if k.MarkingNoShow? { SameTakenBalanced(s.db, NoShowClaim(s.db, k.booking, k.passenger).0, t); }
    case StampsViewed(k) => if k.MarkingViewed? { SameTakenBalanced(s.db, ViewFlip(s.db, k.booking, s.now), t); }
  }

  lemma StepBalanced(s: System, st: Step, t: Id)
    requires Valid(s.db) && t < |s.db.trips| && |s.past.manual| == |s.db.trips|
    ensures Balanced(s.db, Exec(s, st).db, t, HandMoved(s, st, t))
  {
    match st
    case Tick(ms) =>
    case UserDoes(u) =>
    case TripDoes(k) => TripBalanced(s, k, t);
    case Asks(a) =>
    case BookingDoes(b) => BookingBalanced(s, b, t);
    case CronDoes(c) => SameTakenBalanced(s.db, ExpireDue(s.db, s.now), t); AutoCompleteBalanced(s.db, s.now, t);
  }

  /** How the history of trips grows beside the table. */
  ghost predicate HistoryStep(s: System, st: Step, s': System) {
    && |s.past.manual| == |s.past.private| == |s.db.trips| <= |s'.db.trips|
    && |s'.past.manual| == |s'.past.private| == |s'.db.trips|
    && (forall t :: 0 <= t < |s.db.trips| ==> s'.past.private[t] == s.past.private[t])
    && (forall t :: 0 <= t < |s.db.trips| ==> s'.past.manual[t] == s.past.manual[t] + HandMoved(s, st, t))
    && (forall t :: |s.db.trips| <= t < |s'.db.trips| ==>
          && s'.past.manual[t] == 0
          && (s'.past.private[t] ==> s'.db.trips[t].available == 0 && s'.db.trips[t].status == Direct)
          && (!s'.past.private[t] ==> s'.db.trips[t].status == Active && s'.db.trips[t].available == s'.db.trips[t].total
                                      && s'.db.bookings == s.db.bookings))
  }

  lemma EndingHistory(s: System, st: TripStep)
    requires st.ForceCancels? || st.Withdraws? || st.Finishes?
    ensures ExecTrip(s, st).past == s.past && |ExecTrip(s, st).db.trips| == |s.db.trips|
  {
  }

  lemma OfferHistory(s: System, st: TripStep)
    requires |s.past.manual| == |s.past.private| == |s.db.trips| && st.OfferAccepted?
    ensures HistoryStep(s, TripDoes(st), ExecTrip(s, st))
  {
  }

  lemma AdjustHistory(s: System, st: TripStep)
    requires |s.past.manual| == |s.past.private| == |s.db.trips| && st.Adjusts?
    ensures HistoryStep(s, TripDoes(st), ExecTrip(s, st))
  {
  }

  lemma TripHistory(s: System, st: TripStep)
    requires |s.past.manual| == |s.past.private| == |s.db.trips|
    ensures HistoryStep(s, TripDoes(st), ExecTrip(s, st))
  {
    if st.OfferAccepted? { OfferHistory(s, st); }
    else if st.Adjusts? { AdjustHistory(s, st); }
    else if !st.Publishes? { EndingHistory(s, st); }
  }

  /** Nothing done to a booking creates a trip or touches the trips' history. */
  lemma BookingHistory(s: System, st: BookingStep)
    ensures var s' := ExecBooking(s, st);
            && |s'.db.trips| == |s.db.trips|
            && s'.past.manual == s.past.manual && s'.past.private == s.past.private
  {
  }

  lemma StepHistory(s: System, st: Step)
    requires |s.past.manual| == |s.past.private| == |s.db.trips|
    ensures HistoryStep(s, st, Exec(s, st))
  {
    match st
    case TripDoes(t) => TripHistory(s, t);
    case BookingDoes(b) => BookingHistory(s, b);
    case _ =>
  }

  lemma SeatsKept(s: System, st: Step)
    requires Valid(s.db) && SeatsConserved(s)
    ensures SeatsConserved(Exec(s, st))
  {
    var s' := Exec(s, st);
    StepHistory(s, st);
    TablesKept(s, st);
    forall t | 0 <= t < |s'.db.trips|
      ensures !s'.past.private[t] && s'.db.trips[t].status != Withdrawn ==>
                s'.db.trips[t].available + Seats(s'.db.bookings, t, TAKEN) == s'.db.trips[t].total + s'.past.manual[t]
      ensures s'.past.private[t] ==> s'.db.trips[t].available == 0 && s'.db.trips[t].status != Active
      ensures s'.db.trips[t].status == Direct ==> s'.past.private[t]
    {
      if t < |s.db.trips| {
        StepBalanced(s, st, t);
        assert TripMoves(s.db, s'.db, t);
      } else if !s'.past.private[t] {
        SeatsOfNone(s.db.bookings, t, TAKEN);
      }
    }
  }

  // ---------------------------------------------------------------- charges

  lemma ChargedToAppend(cs: seq<Charged>, c: Charged, u: Id)
    ensures ChargedTo(cs + [c], u) == ChargedTo(cs, u) + (if c.user == u then c.amount else 0)
  {
    assert (cs + [c])[..|cs|] == cs;
  }

  lemma {:induction false} NothingCharged(cs: seq<Charged>, u: Id)
    requires forall k :: 0 <= k < |cs| ==> cs[k].user != u
    ensures ChargedTo(cs, u) == 0
  {
    if cs != [] { NothingCharged(cs[..|cs| - 1], u); }
  }

  /** A step that charges nobody and marks no no-show keeps every old charge justified. */
  lemma NoNewCharge(db: Db, db': Db, cs: seq<Charged>)
    requires RowsLinked(db) && Moves(db, db') && RowsLinked(db') && ChargedOnce(db, cs)
    requires forall i :: 0 <= i < |db'.bookings| && db'.bookings[i].status == NoShow ==>
               i < |db.bookings| && db.bookings[i].status == NoShow
    ensures ChargedOnce(db', cs)
  {
    forall k | 0 <= k < |cs| ensures ChargeJustified(db', cs[k]) {
      var b := cs[k].booking;
      assert ChargeJustified(db, cs[k]);
      assert RowMoves(db, db', b);
      assert TripMoves(db, db', db.bookings[b].trip);
    }
  }

  /** One more charge, for a booking whose status just became the charge's reason. */
  lemma OneNewCharge(db: Db, db': Db, cs: seq<Charged>, c: Charged)
    requires RowsLinked(db) && Moves(db, db') && RowsLinked(db') && ChargedOnce(db, cs)
    requires c.booking < |db.bookings| && db.bookings[c.booking].status == Accepted
    requires ChargeJustified(db', c)
    requires |db'.bookings| == |db.bookings|
    requires forall i :: 0 <= i < |db.bookings| && i != c.booking ==> db'.bookings[i] == db.bookings[i]
    ensures ChargedOnce(db', cs + [c])
  {
    var all := cs + [c];
    forall k | 0 <= k < |all| ensures ChargeJustified(db', all[k]) {
      if k < |cs| {
        var b := cs[k].booking;
        assert ChargeJustified(db, cs[k]);
        assert TripMoves(db, db', db.bookings[b].trip);
      }
    }
    forall j, k | 0 <= j < k < |all| ensures all[j].booking != all[k].booking {
      assert ChargeJustified(db, cs[j]);
    }
    forall i | 0 <= i < |db'.bookings| && db'.bookings[i].status == NoShow
      ensures exists k :: 0 <= k < |all| && all[k].booking == i
    {
      if i == c.booking { assert all[|cs|].booking == i; }
      else {
        var k :| 0 <= k < |cs| && cs[k].booking == i;
        assert all[k].booking == i;
      }
    }
  }

  lemma CancelCharges(s: System, b: Id, user: Id)
    requires Valid(s.db) && ChargedOnce(s.db, s.past.charges)
    ensures var s' := ExecBooking(s, Cancels(b, user)); ChargedOnce(s'.db, s'.past.charges)
  {
    var s' := ExecBooking(s, Cancels(b, user));
    CancelKeeps(s.db, b, user, s.now);
    var c := CancelCharge(s.db, b, user, s.now);
    if c == [] {
      assert s'.past.charges == s.past.charges;
      NoNewCharge(s.db, s'.db, s.past.charges);
    } else {
      OneNewCharge(s.db, s'.db, s.past.charges, c[0]);
    }
  }

  lemma NoShowCharges(s: System, t: Ticket)
    requires Valid(s.db) && ChargedOnce(s.db, s.past.charges) && TicketsSound(s)
    requires t in s.tickets && t.MarkingNoShow?
    ensures var s' := ExecBooking(s, ClaimsNoShow(t)); ChargedOnce(s'.db, s'.past.charges)
  {
    var s' := ExecBooking(s, ClaimsNoShow(t));
    NoShowKeeps(s.db, t.booking, t.passenger);
    assert TicketSound(s, t);
    var c := NoShowCharge(s.db, t.booking, t.passenger);
    if c == [] {
      assert s'.past.charges == s.past.charges;
      NoNewCharge(s.db, s'.db, s.past.charges);
    } else {
      OneNewCharge(s.db, s'.db, s.past.charges, c[0]);
    }
  }

  /** No booking enters the no-show status between the two tables. */
  ghost predicate NoNewNoShow(db: Db, db': Db) {
    forall i :: 0 <= i < |db'.bookings| && db'.bookings[i].status == NoShow ==>
      i < |db.bookings| && db.bookings[i].status == NoShow
  }

  lemma BookingNoShows(s: System, st: BookingStep)
    requires !st.ClaimsNoShow?
    ensures NoNewNoShow(s.db, ExecBooking(s, st).db)
  {
    match st
    case Books(t) =>
    case Accepts(b, driver) => AcceptNoShows(s.db, b, driver);
    case Cancels(b, user) => CancelNoShows(s.db, b, user, s.now);
    case Rejects(t) =>
    case StampsViewed(t) =>
  }

  lemma AcceptNoShows(db: Db, b: Id, driver: Id)
    ensures NoNewNoShow(db, Accept(db, b, driver).0)
  {
  }

  lemma CancelNoShows(db: Db, b: Id, user: Id, now: int)
    ensures NoNewNoShow(db, Cancel(db, b, user, now).0)
  {
  }

  lemma TripNoShows(s: System, st: TripStep)
    ensures NoNewNoShow(s.db, ExecTrip(s, st).db)
  {
    match st
    case Publishes(driver, total, departure, durationMs) =>
    case OfferAccepted(passenger, driver, seats, departure, durationMs) =>
    case Adjusts(t, driver, up) =>
    case ForceCancels(t) => EndNoShows(s.db, t);
    case Withdraws(t) => if t.Withdrawing? { EndNoShows(s.db, t.trip); }
    case Finishes(t) => if t.Finishing? { EndNoShows(s.db, t.trip); }
  }

  lemma EndNoShows(db: Db, t: Id)
    ensures NoNewNoShow(db, Withdraw(db, t).0) && NoNewNoShow(db, Finish(db, t))
  {
  }

  /** Only the claim of a no-show puts a booking into that status. */
  lemma NoShowOnlyByClaim(s: System, st: Step)
    requires !(st.BookingDoes? && st.booking.ClaimsNoShow?)
    ensures NoNewNoShow(s.db, Exec(s, st).db)
  {
    match st
    case TripDoes(t) => TripNoShows(s, t);
    case BookingDoes(b) => BookingNoShows(s, b);
    case _ =>
  }

  lemma BookingCharges(s: System, st: BookingStep)
    requires Valid(s.db) && ChargedOnce(s.db, s.past.charges) && TicketsSound(s)
    ensures ChargedOnce(ExecBooking(s, st).db, ExecBooking(s, st).past.charges)
  {
    match st
    case Cancels(b, user) => CancelCharges(s, b, user);
    case ClaimsNoShow(t) => if t in s.tickets && t.MarkingNoShow? { NoShowCharges(s, t); }
    case _ =>
      BookingTables(s, st);
      BookingNoShows(s, st);
      NoNewCharge(s.db, ExecBooking(s, st).db, s.past.charges);
  }

  lemma TripChargesSame(s: System, st: TripStep)
    ensures ExecTrip(s, st).past.charges == s.past.charges
  {
  }

  lemma ChargesKept(s: System, st: Step)
    requires Valid(s.db) && ChargedOnce(s.db, s.past.charges) && TicketsSound(s)
    ensures ChargedOnce(Exec(s, st).db, Exec(s, st).past.charges)
  {
    match st
    case BookingDoes(b) => BookingCharges(s, b);
    case TripDoes(t) =>
      TripChargesSame(s, t);
      TripTables(s, t);
      TripNoShows(s, t);
      NoNewCharge(s.db, ExecTrip(s, t).db, s.past.charges);
    case _ =>
      TablesKept(s, st);
      NoShowOnlyByClaim(s, st);
      NoNewCharge(s.db, Exec(s, st).db, s.past.charges);
  }

  // ---------------------------------------------------------------- penalties

  /** One user's penalty and visible rating move by exactly what the step charged. */
  ghost predicate UserCharged(s: System, s': System, u: Id) {
    && u < |s.db.users| <= |s'.db.users|
    && ChargedTo(s.past.charges, u) <= ChargedTo(s'.past.charges, u)
    && var due := ChargedTo(s'.past.charges, u) - ChargedTo(s.past.charges, u);
       && s'.db.users[u].penalty == s.db.users[u].penalty + due
       && (s.db.users[u].rating >= 0 ==> s'.db.users[u].rating == Max(0, s.db.users[u].rating - due))
  }

  lemma CancelUserCharged(s: System, b: Id, user: Id, u: Id)
    requires u < |s.db.users|
    ensures UserCharged(s, ExecBooking(s, Cancels(b, user)), u)
  {
    var s' := ExecBooking(s, Cancels(b, user));
    var c := CancelCharge(s.db, b, user, s.now);
    if c == [] { assert s'.past.charges == s.past.charges; } else { ChargedToAppend(s.past.charges, c[0], u); }
  }

  lemma NoShowUserCharged(s: System, t: Ticket, u: Id)
    requires u < |s.db.users|
    ensures UserCharged(s, ExecBooking(s, ClaimsNoShow(t)), u)
  {
    var s' := ExecBooking(s, ClaimsNoShow(t));
    if t in s.tickets && t.MarkingNoShow? {
      var c := NoShowCharge(s.db, t.booking, t.passenger);
      if c == [] { assert s'.past.charges == s.past.charges; } else { ChargedToAppend(s.past.charges, c[0], u); }
    }
  }

  lemma BookingUsersSame(s: System, st: BookingStep)
    requires !st.Cancels? && !st.ClaimsNoShow?
    ensures ExecBooking(s, st).db.users == s.db.users && ExecBooking(s, st).past == s.past
  {
  }

  lemma BookingUserCharged(s: System, st: BookingStep, u: Id)
    requires u < |s.db.users|
    ensures UserCharged(s, ExecBooking(s, st), u)
  {
    match st
    case Cancels(b, user) => CancelUserCharged(s, b, user, u);
    case ClaimsNoShow(t) => NoShowUserCharged(s, t, u);
    case _ => BookingUsersSame(s, st);
  }

  lemma TripUsersSame(s: System, st: TripStep)
    ensures ExecTrip(s, st).db.users == s.db.users
  {
  }

  lemma StepUserCharged(s: System, st: Step, u: Id)
    requires u < |s.db.users|
    requires !(st.UserDoes? && st.user.Recalculates? && st.user.user == u)
    ensures UserCharged(s, Exec(s, st), u)
  {
    match st
    case BookingDoes(b) => BookingUserCharged(s, b, u);
    case TripDoes(t) => TripUsersSame(s, t); TripChargesSame(s, t);
    case _ =>
  }

  lemma UserPenaltiesKept(s: System, st: UserStep)
    requires RowsLinked(s.db) && ChargedOnce(s.db, s.past.charges) && PenaltiesAddUp(s)
    ensures PenaltiesAddUp(ExecUser(s, st))
  {
    forall k | 0 <= k < |s.past.charges| ensures s.past.charges[k].user != |s.db.users| {
      assert ChargeJustified(s.db, s.past.charges[k]);
    }
    NothingCharged(s.past.charges, |s.db.users|);
  }

  lemma UsersOnlyBySignUp(s: System, st: Step)
    requires !st.UserDoes?
    ensures |Exec(s, st).db.users| == |s.db.users|
  {
    match st
    case TripDoes(t) => TripUsersSame(s, t);
    case BookingDoes(b) => if !b.Cancels? && !b.ClaimsNoShow? { BookingUsersSame(s, b); }
    case _ =>
  }

  lemma PenaltiesKept(s: System, st: Step)
    requires Valid(s.db) && ChargedOnce(s.db, s.past.charges) && PenaltiesAddUp(s)
    ensures PenaltiesAddUp(Exec(s, st))
  {
    if st.UserDoes? {
      UserPenaltiesKept(s, st.user);
    } else {
      var s' := Exec(s, st);
      UsersOnlyBySignUp(s, st);
      forall u | 0 <= u < |s'.db.users| ensures s'.db.users[u].penalty == ChargedTo(s'.past.charges, u) {
        StepUserCharged(s, st, u);
      }
    }
  }

  // ---------------------------------------------------------------- stale reads

  /** What a ticket carries stays true whatever else happens. */
  lemma TicketStable(s: System, s': System, t: Ticket)
    requires TicketSound(s, t) && Moves(s.db, s'.db) && s'.now >= s.now
    ensures TicketSound(s', t)
  {
    if t.Rejecting? || t.MarkingNoShow? || t.MarkingViewed? {
      assert RowMoves(s.db, s'.db, t.booking);
      assert TripMoves(s.db, s'.db, s.db.bookings[t.booking].trip);
    } else if t.Withdrawing? || t.Finishing? {
      assert TripMoves(s.db, s'.db, t.trip);
    }
  }

  lemma NewTicketSound(s: System, st: AskStep, t: Ticket)
    requires Valid(s.db) && t in ExecAsk(s, st).tickets && t !in s.tickets
    ensures TicketSound(s, t)
  {
  }

  lemma OldTickets(s: System, st: Step, t: Ticket)
    requires !st.Asks? && t in Exec(s, st).tickets
    ensures t in s.tickets
  {
  }

  lemma TicketsKept(s: System, st: Step)
    requires Valid(s.db) && TicketsSound(s)
    ensures TicketsSound(Exec(s, st))
  {
    var s' := Exec(s, st);
    TablesKept(s, st);
    forall t | t in s'.tickets ensures TicketSound(s', t) {
      if t !in s.tickets {
        if !st.Asks? { OldTickets(s, st, t); }
        NewTicketSound(s, st.ask, t);
      }
      TicketStable(s, s', t);
    }
  }

  lemma NoShowsKept(s: System, st: Step)
    requires Valid(s.db) && TicketsSound(s) && NoShowsDeparted(s)
    ensures NoShowsDeparted(Exec(s, st))
  {
    var s' := Exec(s, st);
    TablesKept(s, st);
    if !(st.BookingDoes? && st.booking.ClaimsNoShow?) { NoShowOnlyByClaim(s, st); }
    forall i | 0 <= i < |s'.db.bookings| && s'.db.bookings[i].status == NoShow && s'.db.bookings[i].trip < |s'.db.trips|
      ensures s'.db.trips[s'.db.bookings[i].trip].departure <= s'.now
    {
      assert RowMoves(s.db, s'.db, i);
      assert TripMoves(s.db, s'.db, s.db.bookings[i].trip);
      if s.db.bookings[i].status != NoShow { assert TicketSound(s, st.booking.ticket); }
    }
  }

  // ---------------------------------------------------------------- every run

  lemma StepSafe(s: System, st: Step)
    requires Safe(s)
    ensures Safe(Exec(s, st)) && Moves(s.db, Exec(s, st).db)
  {
    TablesKept(s, st);
    SeatsKept(s, st);
    ChargesKept(s, st);
    PenaltiesKept(s, st);
    TicketsKept(s, st);
    NoShowsKept(s, st);
  }

  lemma MovesCompose(a: Db, b: Db, c: Db)
    requires Moves(a, b) && Moves(b, c)
    ensures Moves(a, c)
  {
    forall i | 0 <= i < |a.bookings| ensures RowMoves(a, c, i) { assert RowMoves(a, b, i) && RowMoves(b, c, i); }
    forall t | 0 <= t < |a.trips| ensures TripMoves(a, c, t) { assert TripMoves(a, b, t) && TripMoves(b, c, t); }
  }

  /** Safety is kept by every run, and every row only ever moves along its graph. */
  lemma {:induction false} RunSafe(s: System, steps: seq<Step>)
    requires Safe(s)
    ensures Safe(Run(s, steps)) && Moves(s.db, Run(s, steps).db)
    decreases |steps|
  {
    if steps != [] {
      var next := Exec(s, steps[0]);
      StepSafe(s, steps[0]);
      RunSafe(next, steps[1..]);
      MovesCompose(s.db, next.db, Run(s, steps).db);
    }
  }

  lemma StartSafe(now: int)
    ensures Safe(Start(now))
  {
  }

  /**
   MAIN. Whatever the interleaving: no trip is oversold, and on every published
   trip that was not withdrawn, the seats on sale plus the seats of its accepted,
   no-show and completed bookings are the whole car plus the driver's own net
   hand adjustment. With no hand adjustment they are exactly the whole car.
   */
  lemma SeatsNeverLost(now: int, steps: seq<Step>, t: Id)
    requires t < |Run(Start(now), steps).db.trips|
    ensures var s := Run(Start(now), steps); var trip := s.db.trips[t];
            && 0 <= trip.available <= trip.total - Seats(s.db.bookings, t, {Accepted})
            && t < |s.past.manual| == |s.past.private|
            && (!s.past.private[t] && trip.status != Withdrawn ==>
                  trip.available + Seats(s.db.bookings, t, {Accepted, NoShow, Completed}) == trip.total + s.past.manual[t])
  {
    StartSafe(now);
    RunSafe(Start(now), steps);
    assert Fits(Run(Start(now), steps).db, t);
  }

  /** A trip's hand ledger is the sum of the successful adjustments of the run. */
  function HandTotal(s: System, steps: seq<Step>, t: Id): int
    decreases |steps|
  {
    if steps == [] then 0 else HandMoved(s, steps[0], t) + HandTotal(Exec(s, steps[0]), steps[1..], t)
  }

  lemma {:induction false} LedgerIsHandTotal(s: System, steps: seq<Step>, t: Id)
    requires Safe(s) && t < |s.db.trips|
    ensures var s' := Run(s, steps);
            t < |s'.past.manual| && s'.past.manual[t] == s.past.manual[t] + HandTotal(s, steps, t)
            && t < |s'.past.private| && s'.past.private[t] == s.past.private[t]
    decreases |steps|
  {
    if steps != [] {
      StepSafe(s, steps[0]);
      StepHistory(s, steps[0]);
      LedgerIsHandTotal(Exec(s, steps[0]), steps[1..], t);
    }
  }

  /** A decided booking never changes status again, in any run. */
  lemma TerminalForever(s: System, steps: seq<Step>, i: Id)
    requires Safe(s) && i < |s.db.bookings| && Terminal(s.db.bookings[i].status)
    ensures i < |Run(s, steps).db.bookings|
    ensures Run(s, steps).db.bookings[i].status == s.db.bookings[i].status
  {
    RunSafe(s, steps);
    assert RowMoves(s.db, Run(s, steps).db, i);
  }

  /** No passenger ever has two live bookings on one trip. */
  lemma NeverTwoLive(now: int, steps: seq<Step>, i: Id, j: Id)
    requires i < j < |Run(Start(now), steps).db.bookings|
    requires var bs := Run(Start(now), steps).db.bookings; bs[i].trip == bs[j].trip && bs[i].passenger == bs[j].passenger
    ensures var bs := Run(Start(now), steps).db.bookings; !(Live(bs[i].status) && Live(bs[j].status))
  {
    StartSafe(now);
    RunSafe(Start(now), steps);
    assert !BothLive(Run(Start(now), steps).db.bookings, i, j);
  }

  /**
   Idempotency over whole runs: once booking `i` holds key `k`, replaying the key -
   for any trip and seat count, after any further run - returns `i` to its own
   passenger, refuses everyone else, and changes nothing.
   */
  lemma ReplayAlwaysReturnsTheBooking(
      s: System, steps: seq<Step>, i: Id, k: string, t: Id, passenger: Id, seats: nat, now: int)
    requires Safe(s) && i < |s.db.bookings| && s.db.bookings[i].key == Some(k)
    ensures var db := Run(s, steps).db;
            var answer := if passenger == s.db.bookings[i].passenger then Reused(i) else Refused(KeyMismatch);
            && ReplayOf(db, passenger, Some(k)) == Some(answer)
            && (t < |db.trips| ==> Create(db, t, passenger, seats, Some(k), now) == (db, answer))
  {
    RunSafe(s, steps);
    var db := Run(s, steps).db;
    assert RowMoves(s.db, db, i);
    var found := FindKey(db.bookings, k);
    assert db.bookings[i].key == Some(k);
    assert !SameKey(db.bookings, i, found.value) || found.value <= i;
    assert !SameKey(db.bookings, found.value, i) || i <= found.value;
    assert found == Some(i);
  }

  /**
   Penalties, in any interleaving: no booking is charged twice, every charge is
   for a no-show (50 to the passenger) or a driver's cancel (30 to the driver),
   every no-show was charged and happened after departure, and each penalty
   column is the sum of its charges.
   */
  lemma PenaltiesChargedOnce(now: int, steps: seq<Step>)
    ensures var s := Run(Start(now), steps);
            && ChargedOnce(s.db, s.past.charges) && PenaltiesAddUp(s) && NoShowsDeparted(s)
  {
    StartSafe(now);
    RunSafe(Start(now), steps);
  }

  // Charges against the acts that earn them: read off the steps, not off the log.

  /** The driver cancels booking `i` of his own trip while it is accepted. */
  predicate DriverDrops(s: System, st: Step, i: Id) {
    && st.BookingDoes? && st.booking.Cancels? && st.booking.booking == i
    && i < |s.db.bookings| && s.db.bookings[i].status == Accepted && s.db.bookings[i].trip < |s.db.trips|
    && st.booking.user == s.db.trips[s.db.bookings[i].trip].driver && st.booking.user != s.db.bookings[i].passenger
  }

  /** A no-show claim for booking `i` is written while it is accepted. */
  predicate ClaimsAccepted(s: System, st: Step, i: Id) {
    && st.BookingDoes? && st.booking.ClaimsNoShow? && st.booking.ticket in s.tickets && st.booking.ticket.MarkingNoShow?
    && st.booking.ticket.booking == i && i < |s.db.bookings| && s.db.bookings[i].status == Accepted
  }

  function Drops(s: System, steps: seq<Step>, i: Id): nat
    decreases |steps|
  {
    if steps == [] then 0 else (if DriverDrops(s, steps[0], i) then 1 else 0) + Drops(Exec(s, steps[0]), steps[1..], i)
  }

  function Claims(s: System, steps: seq<Step>, i: Id): nat
    decreases |steps|
  {
    if steps == [] then 0 else (if ClaimsAccepted(s, steps[0], i) then 1 else 0) + Claims(Exec(s, steps[0]), steps[1..], i)
  }

  /** How often booking `i` was charged `amount`. */
  function TimesCharged(cs: seq<Charged>, i: Id, amount: nat): nat {
    if cs == [] then 0
    else
      var last := cs[|cs| - 1];
      TimesCharged(cs[..|cs| - 1], i, amount) + (if last.booking == i && last.amount == amount then 1 else 0)
  }

  lemma TimesAppend(cs: seq<Charged>, c: Charged, i: Id, amount: nat)
    ensures TimesCharged(cs + [c], i, amount) ==
      TimesCharged(cs, i, amount) + (if c.booking == i && c.amount == amount then 1 else 0)
  {
    assert (cs + [c])[..|cs|] == cs;
  }

  lemma {:induction false} ChargedAtMostOnce(cs: seq<Charged>, i: Id, amount: nat)
    requires forall j, k :: 0 <= j < k < |cs| ==> cs[j].booking != cs[k].booking
    ensures TimesCharged(cs, i, amount) <= 1
    ensures (forall k :: 0 <= k < |cs| ==> cs[k].booking != i) ==> TimesCharged(cs, i, amount) == 0
  {
    if cs != [] { ChargedAtMostOnce(cs[..|cs| - 1], i, amount); }
  }

  lemma CancelTimes(s: System, b: Id, user: Id, i: Id)
    requires Valid(s.db)
    ensures var cs := ExecBooking(s, Cancels(b, user)).past.charges; var st := BookingDoes(Cancels(b, user));
            && TimesCharged(cs, i, 30) == TimesCharged(s.past.charges, i, 30) + (if DriverDrops(s, st, i) then 1 else 0)
            && TimesCharged(cs, i, 50) == TimesCharged(s.past.charges, i, 50)
  {
    var c := CancelCharge(s.db, b, user, s.now);
    if c == [] {
      assert s.past.charges + c == s.past.charges;
    } else {
      TimesAppend(s.past.charges, c[0], i, 30);
      TimesAppend(s.past.charges, c[0], i, 50);
    }
  }

  lemma ClaimTimes(s: System, t: Ticket, i: Id)
    ensures var cs := ExecBooking(s, ClaimsNoShow(t)).past.charges; var st := BookingDoes(ClaimsNoShow(t));
            && TimesCharged(cs, i, 50) == TimesCharged(s.past.charges, i, 50) + (if ClaimsAccepted(s, st, i) then 1 else 0)
            && TimesCharged(cs, i, 30) == TimesCharged(s.past.charges, i, 30)
  {
    if t in s.tickets && t.MarkingNoShow? {
      var c := NoShowCharge(s.db, t.booking, t.passenger);
      if c == [] {
        assert s.past.charges + c == s.past.charges;
      } else {
        TimesAppend(s.past.charges, c[0], i, 30);
        TimesAppend(s.past.charges, c[0], i, 50);
      }
    }
  }

  lemma StepTimes(s: System, st: Step, i: Id)
    requires Valid(s.db)
    ensures var cs := Exec(s, st).past.charges;
            && TimesCharged(cs, i, 30) == TimesCharged(s.past.charges, i, 30) + (if DriverDrops(s, st, i) then 1 else 0)
            && TimesCharged(cs, i, 50) == TimesCharged(s.past.charges, i, 50) + (if ClaimsAccepted(s, st, i) then 1 else 0)
  {
    match st
    case BookingDoes(b) =>
      match b {
        case Cancels(k, user) => CancelTimes(s, k, user, i);
        case ClaimsNoShow(t) => ClaimTimes(s, t, i);
        case _ => BookingUsersSame(s, b);
      }
    case TripDoes(t) => TripChargesSame(s, t);
    case _ =>
  }

  lemma {:induction false} RunTimes(s: System, steps: seq<Step>, i: Id)
    requires Safe(s)
    ensures var cs := Run(s, steps).past.charges;
            && TimesCharged(cs, i, 30) == TimesCharged(s.past.charges, i, 30) + Drops(s, steps, i)
            && TimesCharged(cs, i, 50) == TimesCharged(s.past.charges, i, 50) + Claims(s, steps, i)
    decreases |steps|
  {
    if steps != [] {
      StepSafe(s, steps[0]);
      StepTimes(s, steps[0], i);
      RunTimes(Exec(s, steps[0]), steps[1..], i);
    }
  }

  /**
   MAIN. Over every run, each booking is charged 0.3 exactly as often as its driver
   cancelled it while it was accepted, 0.5 exactly as often as a no-show was claimed
   on it while it was accepted, and either happens at most once.
   */
  lemma ChargedExactlyForTheAct(now: int, steps: seq<Step>, i: Id)
    ensures var cs := Run(Start(now), steps).past.charges;
            && TimesCharged(cs, i, 30) == Drops(Start(now), steps, i) <= 1
            && TimesCharged(cs, i, 50) == Claims(Start(now), steps, i) <= 1
  {
    StartSafe(now);
    RunSafe(Start(now), steps);
    RunTimes(Start(now), steps, i);
    ChargedAtMostOnce(Run(Start(now), steps).past.charges, i, 30);
    ChargedAtMostOnce(Run(Start(now), steps).past.charges, i, 50);
  }

  ghost predicate NeverRecalculated(steps: seq<Step>, u: Id) {
    forall k :: 0 <= k < |steps| && steps[k].UserDoes? && steps[k].user.Recalculates? ==> steps[k].user.user != u
  }

  /**
   Between two recalculations the visible rating, clamped at zero after every
   single charge, is what one clamp of the whole sum would give.
   */
  lemma {:induction false} ClampedRatingIsOneClamp(s: System, steps: seq<Step>, u: Id)
    requires Safe(s) && u < |s.db.users| && s.db.users[u].rating >= 0 && NeverRecalculated(steps, u)
    ensures UserCharged(s, Run(s, steps), u)
    decreases |steps|
  {
    if steps != [] {
      assert steps[0] == steps[..][0];
      StepUserCharged(s, steps[0], u);
      StepSafe(s, steps[0]);
      forall k | 0 <= k < |steps[1..]| ensures steps[1..][k] == steps[k + 1] {}
      ClampedRatingIsOneClamp(Exec(s, steps[0]), steps[1..], u);
    }
  }
}

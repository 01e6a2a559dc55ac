/**
 When a sold-out trip can still hold undecided requests. Accepting the last seats
 expires the rest, but the driver's hand adjustment takes a seat off sale without
 looking at the requests: exactly that step breaks the rule, and only when it
 takes the last free seat while a request waits.
 */
module BookingSoldOut {
  import opened Prelude
  import opened Bookings
  import opened BookingInvariants
  import opened BookingRuns

  ghost predicate QuietAt(db: Db, i: Id)
    requires i < |db.bookings|
  {
    Undecided(db.bookings[i].status) && db.bookings[i].trip < |db.trips| ==> db.trips[db.bookings[i].trip].available > 0
  }

  /** No request waits on a trip without free seats. */
  ghost predicate Quiet(db: Db) { forall i :: 0 <= i < |db.bookings| ==> QuietAt(db, i) }

  /** The one step that breaks the rule: what its caller can check beforehand. */
  predicate PullsLastSeat(s: System, st: Step) {
    && st.TripDoes? && st.trip.Adjusts? && !st.trip.up
    && st.trip.trip < |s.db.trips|
    && s.db.trips[st.trip.trip].driver == st.trip.driver
    && s.db.trips[st.trip.trip].status == Active
    && s.db.trips[st.trip.trip].available == 1
    && exists i :: 0 <= i < |s.db.bookings| && s.db.bookings[i].trip == st.trip.trip && Undecided(s.db.bookings[i].status)
  }

  /** Bookings only move on, and no sale counter falls to zero. */
  lemma QuietByMoves(db: Db, db': Db)
    requires RowsLinked(db) && Quiet(db) && RowsMove(db, db') && |db'.bookings| == |db.bookings| && |db'.trips| >= |db.trips|
    requires forall t :: 0 <= t < |db.trips| && db.trips[t].available > 0 ==> db'.trips[t].available > 0
    ensures Quiet(db')
  {
    forall i | 0 <= i < |db'.bookings| ensures QuietAt(db', i) {
      assert QuietAt(db, i) && RowMoves(db, db', i);
    }
  }

  lemma AcceptQuiet(db: Db, b: Id, driver: Id)
    requires Valid(db) && Quiet(db)
    ensures Quiet(Accept(db, b, driver).0)
  {
    if Accept(db, b, driver).1.Done? {
      var db' := Accept(db, b, driver).0;
      forall i | 0 <= i < |db'.bookings| ensures QuietAt(db', i) { assert QuietAt(db, i); }
    }
  }

  lemma CreateQuiet(db: Db, t: Id, passenger: Id, seats: nat, key: Option<string>, now: int)
    requires Valid(db) && Quiet(db) && seats >= 1
    ensures Quiet(Create(db, t, passenger, seats, key, now).0)
  {
    var (db', r) := Create(db, t, passenger, seats, key, now);
    if r.Done? {
      CreateAdmits(db, t, passenger, seats, key, now);
      forall i | 0 <= i < |db'.bookings| ensures QuietAt(db', i) {
        if i < |db.bookings| { assert QuietAt(db, i); }
      }
    } else {
      assert db' == db;
    }
  }

  lemma CancelQuiet(db: Db, b: Id, user: Id, now: int)
    requires Valid(db) && Quiet(db)
    ensures Quiet(Cancel(db, b, user, now).0)
  {
    CancelKeeps(db, b, user, now);
    QuietByMoves(db, Cancel(db, b, user, now).0);
  }

  lemma BookingQuiet(s: System, st: BookingStep)
    requires Valid(s.db) && TicketsSound(s) && Quiet(s.db)
    ensures Quiet(ExecBooking(s, st).db)
  {
    match st
    case Books(t) =>
      if t in s.tickets && t.Creating? {
        assert TicketSound(s, t);
        CreateQuiet(s.db, t.trip, t.passenger, t.seats, t.key, t.asked);
      }
    case Accepts(b, driver) => AcceptQuiet(s.db, b, driver);
    case Cancels(b, user) => CancelQuiet(s.db, b, user, s.now);
    case Rejects(t) => if t.Rejecting? { RejectKeeps(s.db, t.booking); QuietByMoves(s.db, RejectFlip(s.db, t.booking).0); }
    case ClaimsNoShow(t) =>
      if t.MarkingNoShow? {
        NoShowKeeps(s.db, t.booking, t.passenger);
        QuietByMoves(s.db, NoShowClaim(s.db, t.booking, t.passenger).0);
      }
    case StampsViewed(t) =>
      if t.MarkingViewed? { ViewKeeps(s.db, t.booking, s.now); QuietByMoves(s.db, ViewFlip(s.db, t.booking, s.now)); }
  }

  lemma AdjustQuiet(s: System, t: Id, driver: Id, up: bool)
    requires Valid(s.db) && Quiet(s.db) && |s.past.manual| == |s.db.trips|
    ensures var st := Adjusts(t, driver, up); Quiet(ExecTrip(s, st).db) <==> !PullsLastSeat(s, TripDoes(st))
  {
    var st := Adjusts(t, driver, up);
    var db' := ExecTrip(s, st).db;
    if PullsLastSeat(s, TripDoes(st)) {
      var i :| 0 <= i < |s.db.bookings| && s.db.bookings[i].trip == t && Undecided(s.db.bookings[i].status);
      assert Fits(s.db, t);
      assert db'.trips[t].available == 0;
      assert !QuietAt(db', i);
    } else {
      forall i | 0 <= i < |db'.bookings| ensures QuietAt(db', i) { assert QuietAt(s.db, i); }
    }
  }

  lemma OfferQuiet(db: Db, passenger: Id, driver: Id, seats: nat, departure: int, durationMs: nat)
    requires Valid(db) && Quiet(db)
    ensures Quiet(AcceptOffer(db, passenger, driver, seats, departure, durationMs))
  {
    var db' := AcceptOffer(db, passenger, driver, seats, departure, durationMs);
    forall i | 0 <= i < |db'.bookings| ensures QuietAt(db', i) {
      if i < |db.bookings| { assert QuietAt(db, i); }
    }
  }

  lemma WithdrawQuiet(db: Db, t: Id)
    requires Valid(db) && Quiet(db)
    ensures Quiet(Withdraw(db, t).0)
  {
    WithdrawKeeps(db, t);
    QuietByMoves(db, Withdraw(db, t).0);
  }

  lemma FinishQuiet(db: Db, t: Id)
    requires Valid(db) && Quiet(db)
    ensures Quiet(Finish(db, t))
  {
    FinishKeeps(db, t);
    QuietByMoves(db, Finish(db, t));
  }

  lemma TripQuiet(s: System, st: TripStep)
    requires Valid(s.db) && Quiet(s.db) && |s.past.manual| == |s.db.trips|
    ensures Quiet(ExecTrip(s, st).db) <==> !PullsLastSeat(s, TripDoes(st))
  {
    match st
    case Publishes(driver, total, departure, durationMs) =>
      PublishKeeps(s.db, driver, total, departure, durationMs);
      QuietByMoves(s.db, Publish(s.db, driver, total, departure, durationMs));
    case OfferAccepted(passenger, driver, seats, departure, durationMs) =>
      OfferQuiet(s.db, passenger, driver, seats, departure, durationMs);
    case Adjusts(t, driver, up) => AdjustQuiet(s, t, driver, up);
    case ForceCancels(t) => WithdrawQuiet(s.db, t);
    case Withdraws(t) => if t.Withdrawing? { WithdrawQuiet(s.db, t.trip); }
    case Finishes(t) => if t.Finishing? { FinishQuiet(s.db, t.trip); }
  }

  lemma StepQuiet(s: System, st: Step)
    requires Safe(s) && Quiet(s.db)
    ensures Quiet(Exec(s, st).db) <==> !PullsLastSeat(s, st)
  {
    match st
    case Tick(ms) =>
    case Asks(a) =>
    case UserDoes(u) => QuietByMoves(s.db, ExecUser(s, u).db);
    case TripDoes(t) => TripQuiet(s, t);
    case BookingDoes(b) => BookingQuiet(s, b);
    case CronDoes(c) =>
      ExpireKeeps(s.db, s.now);
      QuietByMoves(s.db, ExpireDue(s.db, s.now));
      AutoCompleteKeeps(s.db, s.now);
      QuietByMoves(s.db, AutoComplete(s.db, s.now));
  }

  ghost predicate QuietThroughout(s: System, steps: seq<Step>)
    decreases |steps|
  {
    Quiet(s.db) && (steps != [] ==> QuietThroughout(Exec(s, steps[0]), steps[1..]))
  }

  ghost predicate NeverPullsLastSeat(s: System, steps: seq<Step>)
    decreases |steps|
  {
    steps != [] ==> !PullsLastSeat(s, steps[0]) && NeverPullsLastSeat(Exec(s, steps[0]), steps[1..])
  }

  /**
   MAIN. Over a whole run from a quiet state, no request ever waits on a sold-out
   trip if and only if no step pulls the last seat from under a waiting request.
   */
  lemma {:induction false} SoldOutMeansDecided(s: System, steps: seq<Step>)
    requires Safe(s) && Quiet(s.db)
    ensures QuietThroughout(s, steps) <==> NeverPullsLastSeat(s, steps)
    decreases |steps|
  {
    if steps != [] {
      StepQuiet(s, steps[0]);
      StepSafe(s, steps[0]);
      if Quiet(Exec(s, steps[0]).db) { SoldOutMeansDecided(Exec(s, steps[0]), steps[1..]); }
    }
  }

  /** Two users sign up, one publishes a one-seat trip, the other asks for the seat. */
  function OneAsks(): seq<Step> {
    [UserDoes(SignsUp), UserDoes(SignsUp), TripDoes(Publishes(0, 1, 100, 0)), Asks(ToBook(0, 1, 1, None)),
     BookingDoes(Books(Creating(0, 1, 1, None, 0)))]
  }

  /** What these steps come to. */
  function OneWaiting(): System {
    System(Db([Trip(0, Active, 1, 1, 100, 0)],
              [Booking(0, 1, 1, Pending, Some(PENDING_TTL), None, None)],
              [User(false, false, 0, 0), User(false, false, 0, 0)]),
           0, multiset{}, History([0], [false], []))
  }

  /** The trip on sale, nobody asking yet. */
  function OneOnSale(): System { OneWaiting().(db := OneWaiting().db.(bookings := [])) }

  lemma RunFirst(s: System, st: Step, rest: seq<Step>, next: System)
    requires Exec(s, st) == next
    ensures Run(s, [st] + rest) == Run(next, rest)
  {
    assert ([st] + rest)[1..] == rest;
  }

  lemma SaleReached(rest: seq<Step>)
    ensures Run(Start(0), [UserDoes(SignsUp)] + ([UserDoes(SignsUp)] + ([TripDoes(Publishes(0, 1, 100, 0))] + rest)))
            == Run(OneOnSale(), rest)
  {
    var u := User(false, false, 0, 0);
    var s1, s2 := Start(0).(db := Db([], [], [u])), Start(0).(db := Db([], [], [u, u]));
    RunFirst(Start(0), UserDoes(SignsUp), [UserDoes(SignsUp)] + ([TripDoes(Publishes(0, 1, 100, 0))] + rest), s1);
    RunFirst(s1, UserDoes(SignsUp), [TripDoes(Publishes(0, 1, 100, 0))] + rest, s2);
    RunFirst(s2, TripDoes(Publishes(0, 1, 100, 0)), rest, OneOnSale());
  }

  lemma RequestReached(rest: seq<Step>)
    ensures Run(OneOnSale(), [Asks(ToBook(0, 1, 1, None))] + ([BookingDoes(Books(Creating(0, 1, 1, None, 0)))] + rest))
            == Run(OneWaiting(), rest)
  {
    var s, t := OneOnSale(), Creating(0, 1, 1, None, 0);
    var held := Hold(s, t);
    RunFirst(s, Asks(ToBook(0, 1, 1, None)), [BookingDoes(Books(t))] + rest, held);
    assert held.tickets == multiset{t} && Take(held, t).tickets == multiset{};
    assert CreateRefusal(s.db, 0, 1, 1, 0).None?;
    RunFirst(held, BookingDoes(Books(t)), rest, OneWaiting());
  }

  lemma WaitingReached()
    ensures Run(Start(0), OneAsks()) == OneWaiting() && Safe(OneWaiting())
  {
    var ask: seq<Step> := [Asks(ToBook(0, 1, 1, None))] + ([BookingDoes(Books(Creating(0, 1, 1, None, 0)))] + []);
    SaleReached(ask);
    RequestReached([]);
    assert [UserDoes(SignsUp)] + ([UserDoes(SignsUp)] + ([TripDoes(Publishes(0, 1, 100, 0))] + ask)) == OneAsks();
    StartSafe(0);
    RunSafe(Start(0), OneAsks());
  }

  /** The rule is not kept by every run from the empty tables: the driver takes the one asked-for seat off sale. */
  lemma HandAdjustmentBreaksTheRule()
    ensures var s := Run(Start(0), OneAsks()); Quiet(s.db) && !Quiet(Exec(s, TripDoes(Adjusts(0, 0, false))).db)
  {
    WaitingReached();
    OneRequestIsPulled();
  }

  lemma OneRequestIsPulled()
    requires Safe(OneWaiting())
    ensures Quiet(OneWaiting().db) && !Quiet(Exec(OneWaiting(), TripDoes(Adjusts(0, 0, false))).db)
  {
    assert QuietAt(OneWaiting().db, 0);
    assert OneWaiting().db.bookings[0].trip == 0;
    StepQuiet(OneWaiting(), TripDoes(Adjusts(0, 0, false)));
  }
}

/**
 The rules of every transaction, stated over the row fields and the numbers the
 product promises: when a call succeeds, what it leaves, and why it refuses. None
 of the statements uses the functions that define the transactions.
 */
module BookingRules {
  import opened Prelude
  import opened Bookings
  import opened BookingInvariants
  import opened BookingOutcomes

  // ---------------------------------------------------------------- create

  /** The requests of `passenger` nobody has decided yet. */
  ghost function Waiting(bs: seq<Booking>, passenger: Id): set<Id> {
    set i | 0 <= i < |bs| && bs[i].passenger == passenger && (bs[i].status == Pending || bs[i].status == Viewed)
  }

  /** A request waits for the driver or a seat is held. */
  predicate Alive(row: Booking) { row.status == Pending || row.status == Viewed || row.status == Accepted }

  /** Midnight in Bishkek, six hours ahead of UTC, on or before the instant. */
  function Midnight(at: int): int { at - (at + 21_600_000) % 86_400_000 }

  /** Booking `i` is alive on a trip of `driver` that leaves on the Bishkek day of `at`. */
  predicate RidesThatDay(db: Db, i: Id, driver: Id, at: int)
    requires i < |db.bookings|
  {
    && Alive(db.bookings[i])
    && db.bookings[i].trip < |db.trips| && db.trips[db.bookings[i].trip].driver == driver
    && Midnight(at) <= db.trips[db.bookings[i].trip].departure < Midnight(at) + 86_400_000
  }

  ghost predicate TripTakes(db: Db, t: Id, passenger: Id, seats: nat, now: int) {
    && t < |db.trips| && passenger < |db.users|
    && var trip := db.trips[t];
       && trip.status == Active && trip.driver != passenger && now < trip.departure && seats <= trip.available
       && trip.driver < |db.users| && !db.users[trip.driver].blocked && !db.users[trip.driver].deleted
  }

  ghost predicate PassengerFree(db: Db, t: Id, passenger: Id)
    requires t < |db.trips|
  {
    && (forall i :: 0 <= i < |db.bookings| && db.bookings[i].trip == t && db.bookings[i].passenger == passenger ==>
          !Alive(db.bookings[i]))
    && |Waiting(db.bookings, passenger)| <= 2
    && (forall i :: 0 <= i < |db.bookings| && db.bookings[i].passenger == passenger ==>
          !RidesThatDay(db, i, db.trips[t].driver, db.trips[t].departure))
  }

  lemma {:induction false} CountIsCardinality(bs: seq<Booking>, passenger: Id)
    ensures PendingCount(bs, passenger) == |Waiting(bs, passenger)|
  {
    if bs == [] {
      assert Waiting(bs, passenger) == {};
    } else {
      var n := |bs| - 1;
      CountIsCardinality(bs[..n], passenger);
      WaitingLast(bs, passenger);
    }
  }

  lemma WaitingLast(bs: seq<Booking>, passenger: Id)
    requires bs != []
    ensures var n := |bs| - 1;
            Waiting(bs, passenger) == if bs[n].passenger == passenger && Undecided(bs[n].status)
                                      then Waiting(bs[..n], passenger) + {n} else Waiting(bs[..n], passenger)
    ensures |bs| - 1 !in Waiting(bs[..|bs| - 1], passenger)
  {
  }

  /** Two instants share a Bishkek day exactly when one lies in the day that starts at the other's midnight. */
  lemma DayIsInterval(a: int, b: int)
    ensures BishkekDay(a) == BishkekDay(b) <==> Midnight(b) <= a < Midnight(b) + 86_400_000
  {
  }

  lemma SameDayIsInterval(db: Db, passenger: Id, driver: Id, at: int)
    ensures HasSameDriverSameDay(db, passenger, driver, BishkekDay(at)) <==>
      exists i :: 0 <= i < |db.bookings| && db.bookings[i].passenger == passenger && RidesThatDay(db, i, driver, at)
  {
    forall i | 0 <= i < |db.bookings| && db.bookings[i].trip < |db.trips|
      ensures BishkekDay(db.trips[db.bookings[i].trip].departure) == BishkekDay(at) <==>
        Midnight(at) <= db.trips[db.bookings[i].trip].departure < Midnight(at) + 86_400_000
    {
      DayIsInterval(db.trips[db.bookings[i].trip].departure, at);
    }
    if HasSameDriverSameDay(db, passenger, driver, BishkekDay(at)) {
      var i :| 0 <= i < |db.bookings| && db.bookings[i].passenger == passenger
               && Live(db.bookings[i].status)
               && db.bookings[i].trip < |db.trips|
               && db.trips[db.bookings[i].trip].driver == driver
               && BishkekDay(db.trips[db.bookings[i].trip].departure) == BishkekDay(at);
      assert RidesThatDay(db, i, driver, at);
    }
  }

  /**
   MAIN. A request is inserted exactly when the trip can take it - active, somebody
   else's, in the future, with the seats, its driver neither blocked nor deleted -
   the passenger has nothing alive on it, at most two requests waiting anywhere, and
   no ride with that driver on that Bishkek day, and nobody used the key.
   */
  lemma CreateSucceedsExactly(db: Db, t: Id, passenger: Id, seats: nat, key: Option<string>, now: int)
    ensures Create(db, t, passenger, seats, key, now).1.Done? <==>
      && TripTakes(db, t, passenger, seats, now) && PassengerFree(db, t, passenger)
      && (key.Some? ==> forall i :: 0 <= i < |db.bookings| ==> db.bookings[i].key != key)
  {
    CountIsCardinality(db.bookings, passenger);
    if t < |db.trips| {
      SameDayIsInterval(db, passenger, db.trips[t].driver, db.trips[t].departure);
      KeyFree(db, passenger, key);
      RefusedExactly(db, t, passenger, seats, now);
    }
  }

  lemma KeyFree(db: Db, passenger: Id, key: Option<string>)
    ensures ReplayOf(db, passenger, key).None? <==>
      (key.Some? ==> forall i :: 0 <= i < |db.bookings| ==> db.bookings[i].key != key)
  {
  }

  lemma RefusedExactly(db: Db, t: Id, passenger: Id, seats: nat, now: int)
    requires t < |db.trips|
    ensures CreateRefusal(db, t, passenger, seats, now).None? && passenger < |db.users| <==>
      TripTakes(db, t, passenger, seats, now) && PassengerFree(db, t, passenger)
  {
    CountIsCardinality(db.bookings, passenger);
    SameDayIsInterval(db, passenger, db.trips[t].driver, db.trips[t].departure);
    assert HasLive(db.bookings, t, passenger) <==>
      exists i :: 0 <= i < |db.bookings| && db.bookings[i].trip == t && db.bookings[i].passenger == passenger && Alive(db.bookings[i]);
  }

  /** What each refusal claims is true of the rows. */
  ghost predicate TrueOf(db: Db, t: Id, passenger: Id, seats: nat, key: Option<string>, now: int, e: Error) {
    match e
    case NotFound =>
      || t >= |db.trips| || passenger >= |db.users|
      || db.trips[t].driver >= |db.users| || db.users[db.trips[t].driver].deleted
    case KeyMismatch =>
      key.Some? && exists i :: 0 <= i < |db.bookings| && db.bookings[i].key == key && db.bookings[i].passenger != passenger
    case TripNotActive => t < |db.trips| && (db.trips[t].status != Active || db.trips[t].departure <= now)
    case OwnTrip => t < |db.trips| && db.trips[t].driver == passenger
    case DriverBlocked => t < |db.trips| && db.trips[t].driver < |db.users| && db.users[db.trips[t].driver].blocked
    case SeatsNotAvailable => t < |db.trips| && db.trips[t].available < seats
    case AlreadyBooked =>
      exists i :: 0 <= i < |db.bookings| && db.bookings[i].trip == t && db.bookings[i].passenger == passenger && Alive(db.bookings[i])
    case TooManyPending => |Waiting(db.bookings, passenger)| >= 3
    case SameDriverSameDay =>
      t < |db.trips| && exists i :: 0 <= i < |db.bookings| && db.bookings[i].passenger == passenger
                                    && RidesThatDay(db, i, db.trips[t].driver, db.trips[t].departure)
    case _ => false
  }

  lemma RefusalTrue(db: Db, t: Id, passenger: Id, seats: nat, key: Option<string>, now: int)
    requires t < |db.trips|
    ensures var e := CreateRefusal(db, t, passenger, seats, now);
            e.Some? ==> TrueOf(db, t, passenger, seats, key, now, e.value)
  {
    if HasLive(db.bookings, t, passenger) {
      var i :| 0 <= i < |db.bookings| && db.bookings[i].trip == t && db.bookings[i].passenger == passenger && Live(db.bookings[i].status);
      assert Alive(db.bookings[i]);
    }
    CountIsCardinality(db.bookings, passenger);
    SameDayIsInterval(db, passenger, db.trips[t].driver, db.trips[t].departure);
  }

  /** A refused create changes nothing and names a reason that holds; a reused one names a row of his with that key. */
  lemma CreateRefusesTruly(db: Db, t: Id, passenger: Id, seats: nat, key: Option<string>, now: int)
    ensures var (db', r) := Create(db, t, passenger, seats, key, now);
            match r
            case Refused(e) => db' == db && TrueOf(db, t, passenger, seats, key, now, e)
            case Reused(i) => db' == db && i < |db.bookings| && key.Some? && db.bookings[i].key == key
                              && db.bookings[i].passenger == passenger
            case Done(i) => i == |db.bookings|
            case Ignored => false
  {
    if t < |db.trips| { RefusalTrue(db, t, passenger, seats, key, now); }
  }

  /** The clearest reason first: a second request for the same trip is told so, not that the day is taken. */
  lemma ClearestReasonFirst(db: Db, t: Id, passenger: Id, seats: nat, now: int, i: Id)
    requires TripTakes(db, t, passenger, seats, now)
    requires i < |db.bookings| && db.bookings[i].trip == t && db.bookings[i].passenger == passenger && Alive(db.bookings[i])
    ensures RidesThatDay(db, i, db.trips[t].driver, db.trips[t].departure)
    ensures Create(db, t, passenger, seats, None, now) == (db, Refused(AlreadyBooked))
  {
  }

  // ---------------------------------------------------------------- the stale reads

  /** `user` drives the trip booking `b` is on. */
  ghost predicate Drives(db: Db, b: Id, user: Id) {
    b < |db.bookings| && db.bookings[b].trip < |db.trips| && db.trips[db.bookings[b].trip].driver == user
  }

  /** A no-show may be claimed exactly by the trip's driver, on an accepted booking, once the trip has left. */
  lemma NoShowAllowedExactly(db: Db, b: Id, user: Id, now: int)
    ensures NoShowCheck(db, b, user, now) == Ignored <==>
      Drives(db, b, user) && db.bookings[b].status == Accepted && db.trips[db.bookings[b].trip].departure <= now
    ensures b < |db.bookings| && db.bookings[b].trip < |db.trips| && !Drives(db, b, user) ==>
      NoShowCheck(db, b, user, now) == Refused(NotOwner)
    ensures Drives(db, b, user) && db.bookings[b].status != Accepted ==> NoShowCheck(db, b, user, now) == Refused(NotAccepted)
    ensures Drives(db, b, user) && db.bookings[b].status == Accepted && db.trips[db.bookings[b].trip].departure > now ==>
      NoShowCheck(db, b, user, now) == Refused(NotDeparted)
  {
  }

  /** A request may be rejected exactly by the trip's driver, while it waits. */
  lemma RejectAllowedExactly(db: Db, b: Id, user: Id)
    ensures RejectCheck(db, b, user) == Ignored <==>
      Drives(db, b, user) && (db.bookings[b].status == Pending || db.bookings[b].status == Viewed)
    ensures b < |db.bookings| && db.bookings[b].trip < |db.trips| && !Drives(db, b, user) ==>
      RejectCheck(db, b, user) == Refused(NotOwner)
    ensures Drives(db, b, user) && !(db.bookings[b].status == Pending || db.bookings[b].status == Viewed) ==>
      RejectCheck(db, b, user) == Refused(NotPending)
  {
  }

  /** A request may be stamped exactly for the trip's driver, while it is pending and unseen. */
  lemma ViewAllowedExactly(db: Db, b: Id, user: Id)
    ensures ViewCheck(db, b, user) <==>
      Drives(db, b, user) && db.bookings[b].status == Pending && db.bookings[b].viewedAt == None
  {
  }

  /** A trip may be ended exactly by its driver, while it is active or direct, and completed only once it has left. */
  lemma EndAllowedExactly(db: Db, t: Id, user: Id, completing: bool, now: int)
    ensures EndCheck(db, t, user, completing, now) == Ignored <==>
      && t < |db.trips| && db.trips[t].driver == user && (db.trips[t].status == Active || db.trips[t].status == Direct)
      && (completing ==> db.trips[t].departure <= now)
    ensures t < |db.trips| && db.trips[t].driver != user ==> EndCheck(db, t, user, completing, now) == Refused(NotOwner)
  {
  }

  // ---------------------------------------------------------------- the guarded writes

  /** A claim wins exactly on an accepted booking: that row is a no-show, `passenger` pays half a star, nothing else changes. */
  lemma NoShowOutcome(db: Db, b: Id, passenger: Id)
    requires passenger < |db.users|
    ensures var (db', r) := NoShowClaim(db, b, passenger);
            && (r.Done? <==> b < |db.bookings| && db.bookings[b].status == Accepted)
            && (!r.Done? ==> db' == db)
            && (r.Done? ==> && OnlyRow(db, db', b) && db'.bookings[b] == db.bookings[b].(status := NoShow)
                            && db'.trips == db.trips && OnlyCharged(db, db', passenger, 50))
  {
  }

  /** A reject wins exactly on a waiting request, and changes its status alone. */
  lemma RejectOutcome(db: Db, b: Id)
    ensures var (db', r) := RejectFlip(db, b);
            && (r.Done? <==> b < |db.bookings| && (db.bookings[b].status == Pending || db.bookings[b].status == Viewed))
            && (!r.Done? ==> db' == db)
            && (r.Done? ==> && OnlyRow(db, db', b) && db'.bookings[b] == db.bookings[b].(status := Rejected)
                            && db'.trips == db.trips && db'.users == db.users)
  {
  }

  /** The stamp lands exactly on a pending request, with the moment of the write. */
  lemma ViewOutcome(db: Db, b: Id, now: int)
    ensures var db' := ViewFlip(db, b, now);
            if b < |db.bookings| && db.bookings[b].status == Pending
            then OnlyRow(db, db', b) && db'.bookings[b] == db.bookings[b].(status := Viewed, viewedAt := Some(now))
                 && db'.trips == db.trips && db'.users == db.users
            else db' == db
  {
  }

  // ---------------------------------------------------------------- the cron jobs

  /** The expiry job expires exactly the waiting requests whose time is over, and changes nothing else. */
  lemma ExpireExactly(db: Db, now: int)
    ensures var db' := ExpireDue(db, now);
            && db'.trips == db.trips && db'.users == db.users && |db'.bookings| == |db.bookings|
            && forall i :: 0 <= i < |db.bookings| ==>
                 var row := db.bookings[i];
                 if (row.status == Pending || row.status == Viewed) && row.expiresAt.Some? && row.expiresAt.value < now
                 then db'.bookings[i] == row.(status := Expired) else db'.bookings[i] == row
  {
  }

  /** Two hours after the ride is over: departure, its duration, and 7 200 000 ms more have passed. */
  predicate RideOver(trip: Trip, now: int) { trip.departure + trip.durationMs + 7_200_000 < now }

  /**
   MAIN. The closing job finishes exactly the active and direct trips whose ride has
   been over for two hours, completes exactly their accepted bookings, and changes
   nothing else.
   */
  lemma CloseExactly(db: Db, now: int)
    ensures var db' := AutoComplete(db, now);
            && db'.users == db.users && |db'.trips| == |db.trips| && |db'.bookings| == |db.bookings|
            && (forall t :: 0 <= t < |db.trips| ==>
                  var trip := db.trips[t];
                  if (trip.status == Active || trip.status == Direct) && RideOver(trip, now)
                  then db'.trips[t] == trip.(status := Finished) else db'.trips[t] == trip)
            && (forall i :: 0 <= i < |db.bookings| ==>
                  var row := db.bookings[i];
                  if row.status == Accepted && row.trip < |db.trips| && db'.trips[row.trip] != db.trips[row.trip]
                  then db'.bookings[i] == row.(status := Completed) else db'.bookings[i] == row)
  {
  }

  // ---------------------------------------------------------------- the trip's own operations

  /** A withdrawal succeeds exactly on an active or direct trip, and takes every booking alive on it and nothing else. */
  lemma WithdrawOutcome(db: Db, t: Id)
    ensures var (db', r) := Withdraw(db, t);
            && (r.Done? <==> t < |db.trips| && (db.trips[t].status == Active || db.trips[t].status == Direct))
            && (!r.Done? ==> db' == db)
            && (r.Done? ==>
                  && db'.users == db.users && |db'.bookings| == |db.bookings|
                  && db'.trips == db.trips[t := db.trips[t].(status := Withdrawn)]
                  && forall i :: 0 <= i < |db.bookings| ==>
                       if db.bookings[i].trip == t && Alive(db.bookings[i])
                       then db'.bookings[i] == db.bookings[i].(status := CancelledByDriver) else db'.bookings[i] == db.bookings[i])
  {
  }

  /** Completing an active or direct trip completes its accepted bookings and nothing else; any other trip stays. */
  lemma FinishOutcome(db: Db, t: Id)
    ensures var db' := Finish(db, t);
            if t < |db.trips| && (db.trips[t].status == Active || db.trips[t].status == Direct)
            then
              && db'.users == db.users && |db'.bookings| == |db.bookings|
              && db'.trips == db.trips[t := db.trips[t].(status := Finished)]
              && forall i :: 0 <= i < |db.bookings| ==>
                   if db.bookings[i].trip == t && db.bookings[i].status == Accepted
                   then db'.bookings[i] == db.bookings[i].(status := Completed) else db'.bookings[i] == db.bookings[i]
            else db' == db
  {
  }

  /**
   The driver moves a seat on or off sale exactly on his own active trip, and only
   between none and what the accepted bookings leave of the car.
   */
  lemma AdjustOutcome(db: Db, t: Id, driver: Id, delta: int)
    requires delta == 1 || delta == -1
    ensures var (db', r) := AdjustSeats(db, t, driver, delta);
            && (r.Done? <==>
                  && t < |db.trips| && db.trips[t].driver == driver && db.trips[t].status == Active
                  && 0 <= db.trips[t].available + delta
                  && db.trips[t].available + delta + Seats(db.bookings, t, {Accepted}) <= db.trips[t].total)
            && (!r.Done? ==> db' == db)
            && (r.Done? ==> OnlyCounter(db, db', t, delta) && db'.bookings == db.bookings && db'.users == db.users)
  {
  }

  /** Recomputing a rating moves the visible rating of one user alone, into one to five stars. */
  lemma RecalculateOutcome(db: Db, u: Id, average: int)
    requires u < |db.users|
    ensures var db' := Recalculate(db, u, average); var score := average - db.users[u].penalty;
            && db'.trips == db.trips && db'.bookings == db.bookings && |db'.users| == |db.users|
            && (forall k :: 0 <= k < |db.users| && k != u ==> db'.users[k] == db.users[k])
            && db'.users[u] == db.users[u].(rating := db'.users[u].rating)
            && 100 <= db'.users[u].rating <= 500
            && (100 <= score <= 500 ==> db'.users[u].rating == score)
            && (score < 100 ==> db'.users[u].rating == 100) && (score > 500 ==> db'.users[u].rating == 500)
  {
  }

  /** An admin's flags land on the one user, and cost him nothing. */
  lemma FlagsOutcome(db: Db, u: Id, blocked: bool, deleted: bool)
    requires u < |db.users|
    ensures var db' := SetFlags(db, u, blocked, deleted);
            && db'.trips == db.trips && db'.bookings == db.bookings && |db'.users| == |db.users|
            && db'.users[u] == User(blocked, deleted, db.users[u].rating, db.users[u].penalty)
            && forall k :: 0 <= k < |db.users| && k != u ==> db'.users[k] == db.users[k]
  {
  }

  /** A published trip has all its seats on sale; an accepted offer's trip has none, and its passenger holds them. */
  lemma NewTripOutcome(db: Db, passenger: Id, driver: Id, seats: nat, departure: int, durationMs: nat)
    requires driver < |db.users| && passenger < |db.users|
    ensures var db' := Publish(db, driver, seats, departure, durationMs);
            && db'.bookings == db.bookings && db'.users == db.users
            && db'.trips == db.trips + [Trip(driver, Active, seats, seats, departure, durationMs)]
    ensures var db' := AcceptOffer(db, passenger, driver, seats, departure, durationMs);
            && db'.users == db.users
            && db'.trips == db.trips + [Trip(driver, Direct, seats, 0, departure, durationMs)]
            && db'.bookings == db.bookings + [Booking(|db.trips|, passenger, seats, Accepted, None, None, None)]
  {
  }
}

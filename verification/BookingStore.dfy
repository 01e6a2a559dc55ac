/**
 The bookings, trips and cron services over one mutable store. Each method is one
 committed transaction (or the stale read before one), written statement by
 statement as the service runs it, and proved to have exactly the effect that
 module Bookings describes; what every run of those effects keeps is proved there.
 */
module BookingStore {
  import opened Prelude
  import opened Bookings
  import opened BookingInvariants

  class Store {
    var trips: seq<Trip>
    var bookings: seq<Booking>
    var users: seq<User>

    ghost function Tables(): Db reads this { Db(trips, bookings, users) }

    constructor ()
      ensures Tables() == Db([], [], []) && Valid(Tables())
    {
      trips, bookings, users := [], [], [];
    }

    // -------------------------------------------------------------- bookings service

    method Create(t: Id, passenger: Id, seats: nat, key: Option<string>, now: int) returns (r: Reply)
      requires Valid(Tables())
      modifies this`bookings
      ensures (Tables(), r) == Bookings.Create(old(Tables()), t, passenger, seats, key, now)
      ensures Valid(Tables())
    {
      ghost var before := Tables();
      CreateKeeps(before, t, passenger, seats, key, now);
      if t >= |trips| { return Refused(NotFound); }
      var trip := trips[t];
      if key.Some? {
        var prior := FindKey(bookings, key.value);
        if prior.Some? {
          if bookings[prior.value].passenger != passenger { return Refused(KeyMismatch); }
          return Reused(prior.value);
        }
      }
      if trip.status != Active { return Refused(TripNotActive); }
      if trip.driver == passenger { return Refused(OwnTrip); }
      if trip.driver >= |users| || users[trip.driver].deleted { return Refused(NotFound); }
      if users[trip.driver].blocked { return Refused(DriverBlocked); }
      if trip.departure <= now { return Refused(TripNotActive); }
      if trip.available < seats { return Refused(SeatsNotAvailable); }
      if HasLive(bookings, t, passenger) { return Refused(AlreadyBooked); }
      if PendingCount(bookings, passenger) >= MAX_PENDING { return Refused(TooManyPending); }
      if HasSameDriverSameDay(Db(trips, bookings, users), passenger, trip.driver, BishkekDay(trip.departure)) {
        return Refused(SameDriverSameDay);
      }
      if passenger >= |users| { return Refused(NotFound); }
      r := Done(|bookings|);
      bookings := bookings + [Booking(t, passenger, seats, Pending, Some(now + PENDING_TTL), None, key)];
    }

    method Accept(b: Id, driver: Id) returns (r: Reply)
      requires Valid(Tables())
      modifies this`bookings, this`trips
      ensures (Tables(), r) == Bookings.Accept(old(Tables()), b, driver)
      ensures Valid(Tables())
    {
      ghost var before := Tables();
      if b >= |bookings| { return Refused(NotFound); }
      var bk := bookings[b];
      if bk.status != Pending && bk.status != Viewed { return Refused(NotPending); }
      if bk.trip >= |trips| { return Refused(NotFound); }
      var trip := trips[bk.trip];
      if trip.driver != driver { return Refused(NotOwner); }
      if trip.status != Active { return Refused(TripNotActive); }
      if trip.available < bk.seats { return Refused(SeatsNotAvailable); }

      bookings := bookings[b := bk.(status := Accepted)];
      var remaining := trip.available - bk.seats;
      trips := trips[bk.trip := trip.(available := remaining)];
      // The passenger's other requests, on any trip, are withdrawn.
      var rows := bookings;
      bookings := seq(|rows|, i requires 0 <= i < |rows| =>
        if rows[i].passenger == bk.passenger && Undecided(rows[i].status) && i != b
        then rows[i].(status := CancelledByPassenger) else rows[i]);
      // Sold out: the trip's other requests expire.
      if remaining == 0 {
        var left := bookings;
        bookings := seq(|left|, i requires 0 <= i < |left| =>
          if left[i].trip == bk.trip && Undecided(left[i].status) && i != b
          then left[i].(status := Expired) else left[i]);
      }
      assert bookings == Bookings.Accept(before, b, driver).0.bookings;
      AcceptKeeps(before, b, driver);
      return Done(b);
    }

    /** The read that `reject` decides on; the row may change before RejectWrite. */
    method RejectRead(b: Id, driver: Id) returns (r: Reply)
      ensures r == RejectCheck(Tables(), b, driver)
    {
      if b >= |bookings| || bookings[b].trip >= |trips| { return Refused(NotFound); }
      if trips[bookings[b].trip].driver != driver { return Refused(NotOwner); }
      if bookings[b].status != Pending && bookings[b].status != Viewed { return Refused(NotPending); }
      return Ignored;
    }

    method RejectWrite(b: Id) returns (r: Reply)
      requires Valid(Tables())
      modifies this`bookings
      ensures (Tables(), r) == RejectFlip(old(Tables()), b)
      ensures Valid(Tables())
    {
      ghost var before := Tables();
      RejectKeeps(before, b);
      var count := 0;
      if b < |bookings| && Undecided(bookings[b].status) {
        bookings := bookings[b := bookings[b].(status := Rejected)];
        count := 1;
      }
      if count != 1 { return Refused(StateChanged); }
      return Done(b);
    }

    method Cancel(b: Id, user: Id, now: int) returns (r: Reply)
      requires Valid(Tables())
      modifies this
      ensures (Tables(), r) == Bookings.Cancel(old(Tables()), b, user, now)
      ensures Valid(Tables())
    {
      ghost var before := Tables();
      if b >= |bookings| { return Refused(NotFound); }
      var bk := bookings[b];
      if bk.trip >= |trips| { return Refused(NotFound); }
      var trip := trips[bk.trip];
      var isPassenger := bk.passenger == user;
      var isDriver := trip.driver == user;
      if !isPassenger && !isDriver { return Refused(NotParticipant); }
      if !Live(bk.status) { return Refused(NotLive); }

      var status := CancelledByDriver;
      if isPassenger {
        status := if trip.departure - now < LATE_CANCEL_CUTOFF then CancelledLate else CancelledByPassenger;
      }
      bookings := bookings[b := bk.(status := status)];
      if bk.status == Accepted && trip.status == Active {
        trips := trips[bk.trip := trip.(available := trip.available + bk.seats)];
      }
      if isDriver && !isPassenger && bk.status == Accepted {
        users := ChargeUser(users, trip.driver, DRIVER_CANCEL_PENALTY);
      }
      CancelKeeps(before, b, user, now);
      return Done(b);
    }

    method NoShowRead(b: Id, driver: Id, now: int) returns (r: Reply, passenger: Id)
      ensures r == NoShowCheck(Tables(), b, driver, now)
      ensures r == Ignored ==> b < |bookings| && passenger == bookings[b].passenger
    {
      passenger := 0;
      if b >= |bookings| || bookings[b].trip >= |trips| { return Refused(NotFound), passenger; }
      var trip := trips[bookings[b].trip];
      if trip.driver != driver { return Refused(NotOwner), passenger; }
      if bookings[b].status != Accepted { return Refused(NotAccepted), passenger; }
      if trip.departure > now { return Refused(NotDeparted), passenger; }
      return Ignored, bookings[b].passenger;
    }

    method NoShowWrite(b: Id, passenger: Id) returns (r: Reply)
      requires Valid(Tables())
      modifies this`bookings, this`users
      ensures (Tables(), r) == NoShowClaim(old(Tables()), b, passenger)
      ensures Valid(Tables())
    {
      NoShowKeeps(Tables(), b, passenger);
      if b >= |bookings| || bookings[b].status != Accepted { return Refused(NotAccepted); }
      bookings := bookings[b := bookings[b].(status := NoShow)];
      users := ChargeUser(users, passenger, NO_SHOW_PENALTY);
      return Done(b);
    }

    method ViewedRead(b: Id, driver: Id) returns (goOn: bool)
      ensures goOn == ViewCheck(Tables(), b, driver)
    {
      if b >= |bookings| || bookings[b].trip >= |trips| { return false; }
      if trips[bookings[b].trip].driver != driver { return false; }
      if bookings[b].viewedAt.Some? { return false; }
      return bookings[b].status == Pending;
    }

    method ViewedWrite(b: Id, now: int)
      requires Valid(Tables())
      modifies this`bookings
      ensures Tables() == ViewFlip(old(Tables()), b, now)
      ensures Valid(Tables())
    {
      ViewKeeps(Tables(), b, now);
      if b < |bookings| && bookings[b].status == Pending {
        bookings := bookings[b := bookings[b].(viewedAt := Some(now), status := Viewed)];
      }
    }

    // -------------------------------------------------------------- cron jobs

    /** The guarded update of the expiry job, row by row; it returns the bookings it expired. */
    method ExpireBookings(now: int) returns (expired: seq<Id>)
      requires Valid(Tables())
      modifies this`bookings
      ensures Tables() == ExpireDue(old(Tables()), now)
      ensures Valid(Tables())
      ensures forall i :: i in expired <==> 0 <= i < |bookings| == |old(bookings)| && bookings[i] != old(bookings)[i]
    {
      ghost var before := Tables();
      expired := [];
      for i := 0 to |bookings|
        invariant |bookings| == |before.bookings| && trips == before.trips && users == before.users
        invariant forall k :: 0 <= k < i ==> bookings[k] == ExpireRow(before.bookings[k], now)
        invariant forall k :: i <= k < |bookings| ==> bookings[k] == before.bookings[k]
        invariant forall k :: k in expired <==> 0 <= k < i && bookings[k] != before.bookings[k]
      {
        var row := bookings[i];
        if (row.status == Pending || row.status == Viewed) && row.expiresAt.Some? && row.expiresAt.value < now {
          bookings := bookings[i := row.(status := Expired)];
          expired := expired + [i];
        }
      }
      assert bookings == ExpireDue(before, now).bookings;
      ExpireKeeps(before, now);
    }

    /**
     The closing job: the trips past their time are completed and their ids returned,
     and by these ids their accepted bookings are completed too.
     */
    method AutoCompleteTrips(now: int) returns (closed: seq<Id>)
      requires Valid(Tables())
      modifies this`bookings, this`trips
      ensures Tables() == AutoComplete(old(Tables()), now)
      ensures Valid(Tables())
      ensures forall t :: t in closed <==> 0 <= t < |old(trips)| && DueToClose(old(trips)[t], now)
    {
      ghost var before := Tables();
      closed := CloseTrips(now);
      if closed != [] { CompleteOn(closed); }
      assert trips == AutoComplete(before, now).trips;
      assert bookings == AutoComplete(before, now).bookings by {
        forall i | 0 <= i < |bookings| ensures bookings[i] == AutoComplete(before, now).bookings[i] {
          assert before.bookings[i].trip in closed <==> DueToClose(before.trips[before.bookings[i].trip], now);
        }
      }
      AutoCompleteKeeps(before, now);
    }

    method CloseTrips(now: int) returns (closed: seq<Id>)
      modifies this`trips
      ensures |trips| == |old(trips)|
      ensures forall t :: 0 <= t < |trips| ==>
        trips[t] == if DueToClose(old(trips)[t], now) then old(trips)[t].(status := Finished) else old(trips)[t]
      ensures forall t :: t in closed <==> 0 <= t < |old(trips)| && DueToClose(old(trips)[t], now)
    {
      ghost var was := trips;
      closed := [];
      for t := 0 to |trips|
        invariant |trips| == |was|
        invariant forall k :: 0 <= k < t ==> trips[k] == if DueToClose(was[k], now) then was[k].(status := Finished) else was[k]
        invariant forall k :: t <= k < |trips| ==> trips[k] == was[k]
        invariant forall k :: k in closed <==> 0 <= k < t && DueToClose(was[k], now)
      {
        if DueToClose(trips[t], now) {
          trips := trips[t := trips[t].(status := Finished)];
          closed := closed + [t];
        }
      }
    }

    /** The accepted bookings of the given trips are completed. */
    method CompleteOn(closed: seq<Id>)
      modifies this`bookings
      ensures |bookings| == |old(bookings)|
      ensures forall i :: 0 <= i < |bookings| ==>
        bookings[i] == if old(bookings)[i].trip in closed && old(bookings)[i].status == Accepted
                       then old(bookings)[i].(status := Completed) else old(bookings)[i]
    {
      ghost var was := bookings;
      for i := 0 to |bookings|
        invariant |bookings| == |was|
        invariant forall k :: 0 <= k < i ==>
          bookings[k] == if was[k].trip in closed && was[k].status == Accepted then was[k].(status := Completed) else was[k]
        invariant forall k :: i <= k < |bookings| ==> bookings[k] == was[k]
      {
        if bookings[i].trip in closed && bookings[i].status == Accepted {
          bookings := bookings[i := bookings[i].(status := Completed)];
        }
      }
    }

    // -------------------------------------------------------------- trips service and admin

    method PublishTrip(driver: Id, total: nat, departure: int, durationMs: nat)
      requires Valid(Tables())
      modifies this`trips
      ensures Tables() == Publish(old(Tables()), driver, total, departure, durationMs)
      ensures Valid(Tables())
    {
      PublishKeeps(Tables(), driver, total, departure, durationMs);
      if driver < |users| { trips := trips + [Trip(driver, Active, total, total, departure, durationMs)]; }
    }

    /** forceCancel, and the guarded transaction of the driver's own cancel. */
    method CancelTrip(t: Id) returns (r: Reply)
      requires Valid(Tables())
      modifies this`bookings, this`trips
      ensures (Tables(), r) == Withdraw(old(Tables()), t)
      ensures Valid(Tables())
    {
      WithdrawKeeps(Tables(), t);
      if t >= |trips| { return Refused(NotFound); }
      if trips[t].status != Active && trips[t].status != Direct { return Refused(TripNotActive); }
      trips := trips[t := trips[t].(status := Withdrawn)];
      var rows := bookings;
      bookings := seq(|rows|, i requires 0 <= i < |rows| =>
        if rows[i].trip == t && Live(rows[i].status) then rows[i].(status := CancelledByDriver) else rows[i]);
      assert bookings == Withdraw(old(Tables()), t).0.bookings;
      return Done(t);
    }

    /** The guarded transaction of the driver's complete. */
    method CompleteTrip(t: Id)
      requires Valid(Tables())
      modifies this`bookings, this`trips
      ensures Tables() == Finish(old(Tables()), t)
      ensures Valid(Tables())
    {
      FinishKeeps(Tables(), t);
      if t >= |trips| || !Open(trips[t].status) { return; }
      trips := trips[t := trips[t].(status := Finished)];
      var rows := bookings;
      bookings := seq(|rows|, i requires 0 <= i < |rows| =>
        if rows[i].trip == t && rows[i].status == Accepted then rows[i].(status := Completed) else rows[i]);
    }

    method AdjustSeats(t: Id, driver: Id, delta: int) returns (r: Reply)
      requires delta == 1 || delta == -1
      requires Valid(Tables())
      modifies this`trips
      ensures (Tables(), r) == Bookings.AdjustSeats(old(Tables()), t, driver, delta)
      ensures Valid(Tables())
    {
      AdjustKeeps(Tables(), t, driver, delta);
      if t >= |trips| { return Refused(NotFound); }
      var trip := trips[t];
      if trip.driver != driver { return Refused(NotOwner); }
      if trip.status != Active { return Refused(TripNotActive); }
      var next := trip.available + delta;
      var max := trip.total - Seats(bookings, t, HELD);
      if next < 0 || next > max { return Refused(SeatsOutOfRange); }
      trips := trips[t := trip.(available := next)];
      return Done(t);
    }
  }
}

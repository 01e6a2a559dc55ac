/**
 The rows that carry a booking's life - trips, bookings and the users they
 charge - and what every committed transaction of the repository does to them.

 A table is a sequence: a row's id is its position, so an insert appends and an
 id that was never issued is out of range. Times are milliseconds; ratings and
 penalties are hundredths, as the two-decimal columns store them.
 */
module Bookings {
  import opened Prelude

  type Id = nat

  const PENDING_TTL: int := 60 * 60_000
  const LATE_CANCEL_CUTOFF: int := 2 * 60 * 60_000
  const CLOSE_SLACK: int := 2 * 60 * 60_000
  const BISHKEK_OFFSET: int := 6 * 60 * 60_000
  const DAY: int := 24 * 60 * 60_000
  const MAX_PENDING: nat := 3
  const DRIVER_CANCEL_PENALTY: nat := 30
  const NO_SHOW_PENALTY: nat := 50

  datatype TripStatus = Active | Direct | Finished | Withdrawn

  datatype Trip = Trip(
    driver: Id, status: TripStatus, total: nat, available: int, departure: int, durationMs: nat)

  datatype BookingStatus =
    | Pending | Viewed | Accepted | Rejected | Expired
    | CancelledByPassenger | CancelledByDriver | CancelledLate | NoShow | Completed

  datatype Booking = Booking(
    trip: Id, passenger: Id, seats: nat, status: BookingStatus,
    expiresAt: Option<int>, viewedAt: Option<int>, key: Option<string>)

  datatype User = User(blocked: bool, deleted: bool, rating: int, penalty: int)

  datatype Db = Db(trips: seq<Trip>, bookings: seq<Booking>, users: seq<User>)

  datatype Error =
    | NotFound | KeyMismatch | TripNotActive | OwnTrip | DriverBlocked | SeatsNotAvailable
    | AlreadyBooked | TooManyPending | SameDriverSameDay | NotPending | NotOwner | NotParticipant
    | NotLive | NotAccepted | NotDeparted | SeatsOutOfRange | StateChanged

  datatype Reply = Done(id: Id) | Reused(id: Id) | Ignored | Refused(error: Error)

  // ---------------------------------------------------------------- status classes

  predicate Undecided(s: BookingStatus) { s == Pending || s == Viewed }

  predicate Live(s: BookingStatus) { Undecided(s) || s == Accepted }

  predicate Open(s: TripStatus) { s == Active || s == Direct }

  const TAKEN: set<BookingStatus> := {Accepted, NoShow, Completed}
  const HELD: set<BookingStatus> := {Accepted}

  // ---------------------------------------------------------------- aggregates

  function Weight(b: Booking, t: Id, kinds: set<BookingStatus>): nat {
    if b.trip == t && b.status in kinds then b.seats else 0
  }

  /** SUM(seats_count) over the bookings of trip `t` whose status is in `kinds`. */
  function Seats(bs: seq<Booking>, t: Id, kinds: set<BookingStatus>): nat {
    if bs == [] then 0
    else Seats(bs[..|bs| - 1], t, kinds) + Weight(bs[|bs| - 1], t, kinds)
  }

  function PendingCount(bs: seq<Booking>, passenger: Id): nat {
    if bs == [] then 0
    else PendingCount(bs[..|bs| - 1], passenger)
         + (if bs[|bs| - 1].passenger == passenger && Undecided(bs[|bs| - 1].status) then 1 else 0)
  }

  /** The row an idempotency key belongs to. */
  function FindKey(bs: seq<Booking>, key: string): (r: Option<Id>)
    ensures r.Some? ==> r.value < |bs| && bs[r.value].key == Some(key)
    ensures r.None? ==> forall i :: 0 <= i < |bs| ==> bs[i].key != Some(key)
  {
    if bs == [] then None
    else if bs[|bs| - 1].key == Some(key) then Some(|bs| - 1)
    else FindKey(bs[..|bs| - 1], key)
  }

  predicate HasLive(bs: seq<Booking>, t: Id, passenger: Id) {
    exists i :: 0 <= i < |bs| && bs[i].trip == t && bs[i].passenger == passenger && Live(bs[i].status)
  }

  /** The Asia/Bishkek calendar day (UTC+6) an instant falls on. */
  function BishkekDay(at: int): int { (at + BISHKEK_OFFSET) / DAY }

  predicate HasSameDriverSameDay(db: Db, passenger: Id, driver: Id, day: int) {
    exists i :: 0 <= i < |db.bookings| && db.bookings[i].passenger == passenger
             && Live(db.bookings[i].status)
             && db.bookings[i].trip < |db.trips|
             && db.trips[db.bookings[i].trip].driver == driver
             && BishkekDay(db.trips[db.bookings[i].trip].departure) == day
  }

  // ---------------------------------------------------------------- creating a booking

  /** The lookup `create` makes for a replayed key; None means: go on. */
  function ReplayOf(db: Db, passenger: Id, key: Option<string>): Option<Reply> {
    if key.None? then None
    else
      var prior := FindKey(db.bookings, key.value);
      if prior.None? then None
      else if db.bookings[prior.value].passenger != passenger then Some(Refused(KeyMismatch))
      else Some(Reused(prior.value))
  }

  /** Why the locked trip `t` cannot take this booking, checked in the source's order. */
  function CreateRefusal(db: Db, t: Id, passenger: Id, seats: nat, now: int): Option<Error>
    requires t < |db.trips|
  {
    var trip := db.trips[t];
    if trip.status != Active then Some(TripNotActive)
    else if trip.driver == passenger then Some(OwnTrip)
    else if trip.driver >= |db.users| || db.users[trip.driver].deleted then Some(NotFound)
    else if db.users[trip.driver].blocked then Some(DriverBlocked)
    else if trip.departure <= now then Some(TripNotActive)
    else if trip.available < seats then Some(SeatsNotAvailable)
    else if HasLive(db.bookings, t, passenger) then Some(AlreadyBooked)
    else if PendingCount(db.bookings, passenger) >= MAX_PENDING then Some(TooManyPending)
    else if HasSameDriverSameDay(db, passenger, trip.driver, BishkekDay(trip.departure)) then Some(SameDriverSameDay)
    else None
  }

  /** The transaction of `create`; `now` was read before the trip row was locked. */
  function Create(db: Db, t: Id, passenger: Id, seats: nat, key: Option<string>, now: int): (Db, Reply) {
    if t >= |db.trips| then (db, Refused(NotFound))
    else
      var replay := ReplayOf(db, passenger, key);
      if replay.Some? then (db, replay.value)
      else
        var refusal := CreateRefusal(db, t, passenger, seats, now);
        if refusal.Some? then (db, Refused(refusal.value))
        else if passenger >= |db.users| then (db, Refused(NotFound))
        else
          var row := Booking(t, passenger, seats, Pending, Some(now + PENDING_TTL), None, key);
          (db.(bookings := db.bookings + [row]), Done(|db.bookings|))
  }

  // ---------------------------------------------------------------- deciding a booking

  /** What one booking row becomes when booking `b` is accepted on its trip. */
  function AcceptRow(row: Booking, i: Id, b: Id, accepted: Booking, nowFull: bool): Booking {
    if i == b then row.(status := Accepted)
    else if row.passenger == accepted.passenger && Undecided(row.status) then row.(status := CancelledByPassenger)
    else if nowFull && row.trip == accepted.trip && Undecided(row.status) then row.(status := Expired)
    else row
  }

  function Accept(db: Db, b: Id, driver: Id): (Db, Reply) {
    if b >= |db.bookings| then (db, Refused(NotFound))
    else
      var bk := db.bookings[b];
      if !Undecided(bk.status) then (db, Refused(NotPending))
      else if bk.trip >= |db.trips| then (db, Refused(NotFound))
      else
        var trip := db.trips[bk.trip];
        if trip.driver != driver then (db, Refused(NotOwner))
        else if trip.status != Active then (db, Refused(TripNotActive))
        else if trip.available < bk.seats then (db, Refused(SeatsNotAvailable))
        else
          var left := trip.available - bk.seats;
          (db.(trips := db.trips[bk.trip := trip.(available := left)],
               bookings := seq(|db.bookings|, i requires 0 <= i < |db.bookings| =>
                               AcceptRow(db.bookings[i], i, b, bk, left == 0))),
           Done(b))
  }

  /** The stale read of `reject`: anything but Ignored ends the call. */
  function RejectCheck(db: Db, b: Id, driver: Id): Reply {
    if b >= |db.bookings| || db.bookings[b].trip >= |db.trips| then Refused(NotFound)
    else if db.trips[db.bookings[b].trip].driver != driver then Refused(NotOwner)
    else if !Undecided(db.bookings[b].status) then Refused(NotPending)
    else Ignored
  }

  /** The guarded write of `reject`. */
  function RejectFlip(db: Db, b: Id): (Db, Reply) {
    if b < |db.bookings| && Undecided(db.bookings[b].status)
    then (db.(bookings := db.bookings[b := db.bookings[b].(status := Rejected)]), Done(b))
    else (db, Refused(StateChanged))
  }

  /** Charging a user: the penalty column grows, the visible rating drops but not below zero. */
  function Charge(u: User, amount: nat): User {
    u.(penalty := u.penalty + amount, rating := Max(0, u.rating - amount))
  }

  function ChargeUser(users: seq<User>, u: Id, amount: nat): seq<User> {
    if u < |users| then users[u := Charge(users[u], amount)] else users
  }

  function CancelStatus(asPassenger: bool, toDeparture: int): BookingStatus {
    if !asPassenger then CancelledByDriver
    else if toDeparture < LATE_CANCEL_CUTOFF then CancelledLate
    else CancelledByPassenger
  }

  function Cancel(db: Db, b: Id, user: Id, now: int): (Db, Reply) {
    if b >= |db.bookings| || db.bookings[b].trip >= |db.trips| then (db, Refused(NotFound))
    else
      var bk := db.bookings[b];
      var trip := db.trips[bk.trip];
      if bk.passenger != user && trip.driver != user then (db, Refused(NotParticipant))
      else if !Live(bk.status) then (db, Refused(NotLive))
      else
        var held := bk.status == Accepted;
        (Db(if held && trip.status == Active
            then db.trips[bk.trip := trip.(available := trip.available + bk.seats)] else db.trips,
            db.bookings[b := bk.(status := CancelStatus(bk.passenger == user, trip.departure - now))],
            if held && bk.passenger != user
            then ChargeUser(db.users, trip.driver, DRIVER_CANCEL_PENALTY) else db.users),
         Done(b))
  }

  function NoShowCheck(db: Db, b: Id, driver: Id, now: int): Reply {
    if b >= |db.bookings| || db.bookings[b].trip >= |db.trips| then Refused(NotFound)
    else if db.trips[db.bookings[b].trip].driver != driver then Refused(NotOwner)
    else if db.bookings[b].status != Accepted then Refused(NotAccepted)
    else if db.trips[db.bookings[b].trip].departure > now then Refused(NotDeparted)
    else Ignored
  }

  /** The guarded transaction of `noShow`; `passenger` comes from the stale read. */
  function NoShowClaim(db: Db, b: Id, passenger: Id): (Db, Reply) {
    if b < |db.bookings| && db.bookings[b].status == Accepted
    then (db.(bookings := db.bookings[b := db.bookings[b].(status := NoShow)],
              users := ChargeUser(db.users, passenger, NO_SHOW_PENALTY)), Done(b))
    else (db, Refused(NotAccepted))
  }

  /** Whether `markViewed` goes on to its write. */
  predicate ViewCheck(db: Db, b: Id, driver: Id) {
    && b < |db.bookings| && db.bookings[b].trip < |db.trips|
    && db.trips[db.bookings[b].trip].driver == driver
    && db.bookings[b].viewedAt.None?
    && db.bookings[b].status == Pending
  }

  function ViewFlip(db: Db, b: Id, now: int): Db {
    if b < |db.bookings| && db.bookings[b].status == Pending
    then db.(bookings := db.bookings[b := db.bookings[b].(status := Viewed, viewedAt := Some(now))])
    else db
  }

  // ---------------------------------------------------------------- the cron jobs

  function ExpireRow(row: Booking, now: int): Booking {
    if Undecided(row.status) && row.expiresAt.Some? && row.expiresAt.value < now
    then row.(status := Expired) else row
  }

  function ExpireDue(db: Db, now: int): Db {
    db.(bookings := seq(|db.bookings|, i requires 0 <= i < |db.bookings| => ExpireRow(db.bookings[i], now)))
  }

  predicate DueToClose(trip: Trip, now: int) {
    Open(trip.status) && trip.departure + trip.durationMs + CLOSE_SLACK < now
  }

  function AutoComplete(db: Db, now: int): Db {
    db.(trips := seq(|db.trips|, i requires 0 <= i < |db.trips| =>
                     if DueToClose(db.trips[i], now) then db.trips[i].(status := Finished) else db.trips[i]),
        bookings := seq(|db.bookings|, i requires 0 <= i < |db.bookings| =>
                        if db.bookings[i].trip < |db.trips| && DueToClose(db.trips[db.bookings[i].trip], now)
                           && db.bookings[i].status == Accepted
                        then db.bookings[i].(status := Completed) else db.bookings[i]))
  }

  // ---------------------------------------------------------------- the trip's own operations

  /** Ends trip `t`: its bookings whose status satisfies the test move to `to`. */
  function EndRow(row: Booking, t: Id, onlyAccepted: bool, to: BookingStatus): Booking {
    if row.trip == t && (if onlyAccepted then row.status == Accepted else Live(row.status))
    then row.(status := to) else row
  }

  function EndTrip(db: Db, t: Id, status: TripStatus, onlyAccepted: bool, to: BookingStatus): Db
    requires t < |db.trips|
  {
    db.(trips := db.trips[t := db.trips[t].(status := status)],
        bookings := seq(|db.bookings|, i requires 0 <= i < |db.bookings| =>
                        EndRow(db.bookings[i], t, onlyAccepted, to)))
  }

  /** Withdrawing a trip, by an admin (forceCancel) or in the guarded write of the driver's cancel. */
  function Withdraw(db: Db, t: Id): (Db, Reply) {
    if t >= |db.trips| then (db, Refused(NotFound))
    else if !Open(db.trips[t].status) then (db, Refused(TripNotActive))
    else (EndTrip(db, t, Withdrawn, false, CancelledByDriver), Done(t))
  }

  /** The stale read of the driver's trip cancel (`completing` false) and complete (true). */
  function EndCheck(db: Db, t: Id, driver: Id, completing: bool, now: int): Reply {
    if t >= |db.trips| then Refused(NotFound)
    else if db.trips[t].driver != driver then Refused(NotOwner)
    else if !Open(db.trips[t].status) then Refused(TripNotActive)
    else if completing && db.trips[t].departure > now then Refused(NotDeparted)
    else Ignored
  }

  /** The guarded transaction of the driver's complete; losing the race is a silent success. */
  function Finish(db: Db, t: Id): Db {
    if t < |db.trips| && Open(db.trips[t].status)
    then EndTrip(db, t, Finished, true, Completed) else db
  }

  function AdjustSeats(db: Db, t: Id, driver: Id, delta: int): (Db, Reply)
    requires delta == 1 || delta == -1
  {
    if t >= |db.trips| then (db, Refused(NotFound))
    else
      var trip := db.trips[t];
      if trip.driver != driver then (db, Refused(NotOwner))
      else if trip.status != Active then (db, Refused(TripNotActive))
      else
        var next := trip.available + delta;
        if next < 0 || next > trip.total - Seats(db.bookings, t, HELD) then (db, Refused(SeatsOutOfRange))
        else (db.(trips := db.trips[t := trip.(available := next)]), Done(t))
  }

  /** Publishing a trip: every seat is on sale. */
  function Publish(db: Db, driver: Id, total: nat, departure: int, durationMs: nat): Db {
    if driver >= |db.users| then db
    else db.(trips := db.trips + [Trip(driver, Active, total, total, departure, durationMs)])
  }

  /** Accepting a driver's offer: a private trip born full, with its booking already accepted. */
  function AcceptOffer(db: Db, passenger: Id, driver: Id, seats: nat, departure: int, durationMs: nat): Db {
    if driver >= |db.users| || passenger >= |db.users| then db
    else db.(trips := db.trips + [Trip(driver, Direct, seats, 0, departure, durationMs)],
             bookings := db.bookings + [Booking(|db.trips|, passenger, seats, Accepted, None, None, None)])
  }

  // ---------------------------------------------------------------- users

  /** Signing up: no rating, no penalty. */
  function SignUp(db: Db): Db { db.(users := db.users + [User(false, false, 0, 0)]) }

  function SetFlags(db: Db, u: Id, blocked: bool, deleted: bool): Db {
    if u >= |db.users| then db
    else db.(users := db.users[u := db.users[u].(blocked := blocked, deleted := deleted)])
  }

  /** Recomputing a visible rating from an average score: the penalty stays subtracted. */
  function Recalculate(db: Db, u: Id, average: int): Db {
    if u >= |db.users| then db
    else db.(users := db.users[u := db.users[u].(rating := Min(500, Max(100, average - db.users[u].penalty)))])
  }
}

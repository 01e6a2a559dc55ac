/** What every committed transaction keeps, one lemma per transaction. */
module BookingInvariants {
  import opened Prelude
  import opened Bookings

  // ---------------------------------------------------------------- the invariant

  ghost predicate RowsLinked(db: Db) {
    && (forall i :: 0 <= i < |db.bookings| ==> db.bookings[i].trip < |db.trips|)
    && (forall i :: 0 <= i < |db.bookings| ==> db.bookings[i].passenger < |db.users|)
    && (forall t :: 0 <= t < |db.trips| ==> db.trips[t].driver < |db.users|)
  }

  /** What is on sale and what accepted bookings hold fit the car. */
  ghost predicate Fits(db: Db, t: Id)
    requires t < |db.trips|
  {
    0 <= db.trips[t].available && db.trips[t].available + Seats(db.bookings, t, HELD) <= db.trips[t].total
  }

  /** No trip sells a seat twice. */
  ghost predicate NeverOversold(db: Db) { forall t :: 0 <= t < |db.trips| ==> Fits(db, t) }

  ghost predicate Settled(db: Db, i: Id)
    requires i < |db.bookings|
  {
    db.bookings[i].trip < |db.trips| ==>
      && (db.trips[db.bookings[i].trip].status == Finished ==> db.bookings[i].status != Accepted)
      && (db.trips[db.bookings[i].trip].status == Withdrawn ==> !Live(db.bookings[i].status))
  }

  /** A closed trip holds nobody in `accepted`; a withdrawn one has no live booking at all. */
  ghost predicate ClosedTripsSettled(db: Db) { forall i :: 0 <= i < |db.bookings| ==> Settled(db, i) }

  predicate BothLive(bs: seq<Booking>, i: Id, j: Id)
    requires i < |bs| && j < |bs|
  {
    bs[i].trip == bs[j].trip && bs[i].passenger == bs[j].passenger && Live(bs[i].status) && Live(bs[j].status)
  }

  /** No passenger has two live bookings on one trip. */
  ghost predicate OneLiveBooking(db: Db) {
    forall i, j :: 0 <= i < j < |db.bookings| ==> !BothLive(db.bookings, i, j)
  }

  predicate SameKey(bs: seq<Booking>, i: Id, j: Id)
    requires i < |bs| && j < |bs|
  {
    bs[i].key.Some? && bs[i].key == bs[j].key
  }

  ghost predicate KeysUnique(db: Db) {
    forall i, j :: 0 <= i < j < |db.bookings| ==> !SameKey(db.bookings, i, j)
  }

  ghost predicate Valid(db: Db) {
    RowsLinked(db) && NeverOversold(db) && ClosedTripsSettled(db) && OneLiveBooking(db) && KeysUnique(db)
  }

  // ---------------------------------------------------------------- what a step may change

  predicate Terminal(s: BookingStatus) { !Live(s) }

  /** Where a booking's status can be after any number of steps. */
  predicate MayBecome(a: BookingStatus, b: BookingStatus) {
    a == b || match a
              case Pending => true
              case Viewed => b != Pending
              case Accepted => b in {CancelledByPassenger, CancelledByDriver, CancelledLate, NoShow, Completed}
              case _ => false
  }

  predicate TripMayBecome(a: TripStatus, b: TripStatus) {
    a == b || (Open(a) && (b == Finished || b == Withdrawn))
  }

  ghost predicate RowMoves(db: Db, db': Db, i: Id)
    requires i < |db.bookings| && i < |db'.bookings|
  {
    var a, b := db.bookings[i], db'.bookings[i];
    && b.trip == a.trip && b.passenger == a.passenger && b.seats == a.seats && b.key == a.key
    && MayBecome(a.status, b.status)
  }

  ghost predicate TripMoves(db: Db, db': Db, t: Id)
    requires t < |db.trips| && t < |db'.trips|
  {
    var a, b := db.trips[t], db'.trips[t];
    && b.driver == a.driver && b.total == a.total && b.departure == a.departure
    && TripMayBecome(a.status, b.status)
  }

  ghost predicate RowsMove(db: Db, db': Db) {
    && |db.bookings| <= |db'.bookings|
    && forall i :: 0 <= i < |db.bookings| ==> RowMoves(db, db', i)
  }

  ghost predicate TripsMove(db: Db, db': Db) {
    && |db.trips| <= |db'.trips|
    && forall t :: 0 <= t < |db.trips| ==> TripMoves(db, db', t)
  }

  /** Rows are never deleted, keep their identity, and only move along the graphs. */
  ghost predicate Moves(db: Db, db': Db) {
    RowsMove(db, db') && TripsMove(db, db') && |db.users| <= |db'.users|
  }

  // ---------------------------------------------------------------- seat sums

  /** Two tables whose rows weigh the same except row `k`. */
  lemma {:induction false} SeatsChange(bs: seq<Booking>, cs: seq<Booking>, t: Id, kinds: set<BookingStatus>, k: nat)
    requires |bs| == |cs|
    requires forall i :: 0 <= i < |bs| && i != k ==> Weight(bs[i], t, kinds) == Weight(cs[i], t, kinds)
    ensures k >= |bs| ==> Seats(cs, t, kinds) == Seats(bs, t, kinds)
    ensures k < |bs| ==> Seats(cs, t, kinds) == Seats(bs, t, kinds) - Weight(bs[k], t, kinds) + Weight(cs[k], t, kinds)
  {
    if bs != [] {
      var n := |bs| - 1;
      SeatsChange(bs[..n], cs[..n], t, kinds, k);
    }
  }

  lemma {:induction false} SeatsOfNone(bs: seq<Booking>, t: Id, kinds: set<BookingStatus>)
    requires forall i :: 0 <= i < |bs| ==> Weight(bs[i], t, kinds) == 0
    ensures Seats(bs, t, kinds) == 0
  {
    if bs != [] { SeatsOfNone(bs[..|bs| - 1], t, kinds); }
  }

  lemma SeatsAppend(bs: seq<Booking>, row: Booking, t: Id, kinds: set<BookingStatus>)
    ensures Seats(bs + [row], t, kinds) == Seats(bs, t, kinds) + Weight(row, t, kinds)
  {
    assert (bs + [row])[..|bs|] == bs;
  }

  lemma {:induction false} SeatsAtLeast(bs: seq<Booking>, t: Id, kinds: set<BookingStatus>, k: nat)
    requires k < |bs|
    ensures Weight(bs[k], t, kinds) <= Seats(bs, t, kinds)
  {
    var n := |bs| - 1;
    if k < n { assert bs[..n][k] == bs[k]; SeatsAtLeast(bs[..n], t, kinds, k); }
  }

  lemma {:induction false} SeatsDrop(bs: seq<Booking>, cs: seq<Booking>, t: Id, kinds: set<BookingStatus>)
    requires |bs| == |cs|
    requires forall i :: 0 <= i < |bs| ==> Weight(cs[i], t, kinds) <= Weight(bs[i], t, kinds)
    ensures Seats(cs, t, kinds) <= Seats(bs, t, kinds)
  {
    if bs != [] {
      var n := |bs| - 1;
      SeatsDrop(bs[..n], cs[..n], t, kinds);
    }
  }

  // ---------------------------------------------------------------- general transfer lemmas

  /** Rows that keep identity and never come alive again keep the uniqueness parts. */
  lemma RowsKeepUniqueness(db: Db, db': Db)
    requires OneLiveBooking(db) && KeysUnique(db)
    requires |db'.bookings| == |db.bookings| && RowsMove(db, db')
    ensures OneLiveBooking(db') && KeysUnique(db')
  {
    forall i, j | 0 <= i < j < |db'.bookings|
      ensures !BothLive(db'.bookings, i, j) && !SameKey(db'.bookings, i, j)
    {
      assert RowMoves(db, db', i) && RowMoves(db, db', j);
      assert !BothLive(db.bookings, i, j) && !SameKey(db.bookings, i, j);
    }
  }

  /** Appending a row that clashes with no live booking and no key. */
  lemma AppendKeepsUniqueness(db: Db, db': Db, row: Booking)
    requires db'.bookings == db.bookings + [row]
    requires OneLiveBooking(db) && KeysUnique(db)
    requires forall i :: 0 <= i < |db.bookings| && db.bookings[i].trip == row.trip && db.bookings[i].passenger == row.passenger ==>
               !Live(db.bookings[i].status)
    requires forall i :: 0 <= i < |db.bookings| && db.bookings[i].key.Some? ==> db.bookings[i].key != row.key
    ensures OneLiveBooking(db') && KeysUnique(db')
  {
    forall i, j | 0 <= i < j < |db'.bookings|
      ensures !BothLive(db'.bookings, i, j) && !SameKey(db'.bookings, i, j)
    {
      assert db'.bookings[i] == db.bookings[i];
      if j < |db.bookings| { assert !BothLive(db.bookings, i, j) && !SameKey(db.bookings, i, j); }
    }
  }

  /** Existing rows are linked as before and the trips of the rows stay. */
  lemma RowsStayLinked(db: Db, db': Db)
    requires RowsLinked(db) && Moves(db, db') && |db'.bookings| == |db.bookings| && |db'.trips| == |db.trips|
    ensures RowsLinked(db')
  {
    forall i | 0 <= i < |db'.bookings|
      ensures db'.bookings[i].trip < |db'.trips| && db'.bookings[i].passenger < |db'.users|
    {
      assert RowMoves(db, db', i);
    }
    forall t | 0 <= t < |db'.trips| ensures db'.trips[t].driver < |db'.users| { assert TripMoves(db, db', t); }
  }

  /** Bookings move, trips stay as they are, and no status becomes `accepted`. */
  lemma RowsOnly(db: Db, db': Db)
    requires Valid(db) && db'.trips == db.trips && |db'.users| == |db.users|
    requires |db'.bookings| == |db.bookings| && RowsMove(db, db')
    requires forall i :: 0 <= i < |db.bookings| && db'.bookings[i].status == Accepted ==> db.bookings[i].status == Accepted
    ensures Valid(db') && Moves(db, db')
  {
    RowsKeepUniqueness(db, db');
    assert TripsMove(db, db');
    RowsStayLinked(db, db');
    forall i | 0 <= i < |db'.bookings| ensures Settled(db', i) { assert RowMoves(db, db', i) && Settled(db, i); }
    forall t | 0 <= t < |db'.trips| ensures Fits(db', t) {
      assert Fits(db, t);
      forall i | 0 <= i < |db.bookings| ensures Weight(db'.bookings[i], t, HELD) <= Weight(db.bookings[i], t, HELD) {
        assert RowMoves(db, db', i);
      }
      SeatsDrop(db.bookings, db'.bookings, t, HELD);
    }
  }

  // ---------------------------------------------------------------- one lemma per transaction

  /** What a successful create has established about the rows it joins. */
  lemma CreateAdmits(db: Db, t: Id, passenger: Id, seats: nat, key: Option<string>, now: int)
    requires KeysUnique(db)
    requires Create(db, t, passenger, seats, key, now).1.Done?
    ensures var db' := Create(db, t, passenger, seats, key, now).0;
            && t < |db.trips| && db.trips[t].status == Active && passenger < |db.users|
            && db.trips[t].available >= seats && passenger != db.trips[t].driver && now < db.trips[t].departure
            && db' == db.(bookings := db.bookings + [Booking(t, passenger, seats, Pending, Some(now + 3_600_000), None, key)])
    ensures forall i :: 0 <= i < |db.bookings| && db.bookings[i].trip == t && db.bookings[i].passenger == passenger ==> !Live(db.bookings[i].status)
    ensures forall i :: 0 <= i < |db.bookings| && db.bookings[i].key.Some? ==> db.bookings[i].key != key
  {
    assert CreateRefusal(db, t, passenger, seats, now).None?;
    assert !HasLive(db.bookings, t, passenger);
  }

  lemma CreateMoves(db: Db, db': Db, row: Booking)
    requires RowsLinked(db) && ClosedTripsSettled(db) && db' == db.(bookings := db.bookings + [row])
    requires row.trip < |db.trips| && db.trips[row.trip].status == Active && row.passenger < |db.users|
    ensures Moves(db, db') && RowsLinked(db') && ClosedTripsSettled(db')
  {
    forall i | 0 <= i < |db'.bookings| ensures Settled(db', i) {
      if i < |db.bookings| { assert Settled(db, i); }
    }
  }

  lemma CreateFits(db: Db, db': Db, row: Booking)
    requires NeverOversold(db) && row.status != Accepted && db' == db.(bookings := db.bookings + [row])
    ensures NeverOversold(db')
  {
    forall u | 0 <= u < |db'.trips| ensures Fits(db', u) {
      assert Fits(db, u);
      SeatsAppend(db.bookings, row, u, HELD);
    }
  }

  lemma CreateKeeps(db: Db, t: Id, passenger: Id, seats: nat, key: Option<string>, now: int)
    requires Valid(db)
    ensures var db' := Create(db, t, passenger, seats, key, now).0; Valid(db') && Moves(db, db')
  {
    var (db', r) := Create(db, t, passenger, seats, key, now);
    if r.Done? {
      CreateAdmits(db, t, passenger, seats, key, now);
      var row := db'.bookings[|db.bookings|];
      AppendKeepsUniqueness(db, db', row);
      CreateMoves(db, db', row);
      CreateFits(db, db', row);
    } else {
      assert db' == db;
    }
  }

  /** Accepting moves `seats` from sale to held on one trip, and nothing on any other. */
  lemma AcceptSeats(db: Db, b: Id, driver: Id, t: Id)
    requires Accept(db, b, driver).1.Done?
    ensures var db' := Accept(db, b, driver).0; var s := db.bookings[b].seats;
            && Seats(db'.bookings, t, HELD) == Seats(db.bookings, t, HELD) + (if t == db.bookings[b].trip then s else 0)
            && Seats(db'.bookings, t, TAKEN) == Seats(db.bookings, t, TAKEN) + (if t == db.bookings[b].trip then s else 0)
  {
    var db' := Accept(db, b, driver).0;
    SeatsChange(db.bookings, db'.bookings, t, HELD, b);
    SeatsChange(db.bookings, db'.bookings, t, TAKEN, b);
  }

  lemma AcceptMoves(db: Db, b: Id, driver: Id)
    requires RowsLinked(db) && Accept(db, b, driver).1.Done?
    ensures Moves(db, Accept(db, b, driver).0)
  {
  }

  lemma AcceptSettles(db: Db, b: Id, driver: Id)
    requires ClosedTripsSettled(db) && Accept(db, b, driver).1.Done?
    ensures ClosedTripsSettled(Accept(db, b, driver).0)
  {
    var db' := Accept(db, b, driver).0;
    forall i | 0 <= i < |db'.bookings| ensures Settled(db', i) { assert Settled(db, i); }
  }

  lemma AcceptFits(db: Db, b: Id, driver: Id)
    requires NeverOversold(db) && Accept(db, b, driver).1.Done?
    ensures NeverOversold(Accept(db, b, driver).0)
  {
    var db' := Accept(db, b, driver).0;
    forall t | 0 <= t < |db'.trips| ensures Fits(db', t) {
      assert Fits(db, t);
      AcceptSeats(db, b, driver, t);
    }
  }

  lemma AcceptKeeps(db: Db, b: Id, driver: Id)
    requires Valid(db)
    ensures var db' := Accept(db, b, driver).0; Valid(db') && Moves(db, db')
  {
    if Accept(db, b, driver).1.Done? {
      var db' := Accept(db, b, driver).0;
      AcceptMoves(db, b, driver);
      AcceptSettles(db, b, driver);
      AcceptFits(db, b, driver);
      RowsKeepUniqueness(db, db');
      RowsStayLinked(db, db');
    }
  }

  lemma RejectKeeps(db: Db, b: Id)
    requires Valid(db)
    ensures var db' := RejectFlip(db, b).0; Valid(db') && Moves(db, db')
  {
    RowsOnly(db, RejectFlip(db, b).0);
  }

  lemma NoShowKeeps(db: Db, b: Id, passenger: Id)
    requires Valid(db)
    ensures var db' := NoShowClaim(db, b, passenger).0; Valid(db') && Moves(db, db')
  {
    RowsOnly(db, NoShowClaim(db, b, passenger).0);
  }

  lemma ViewKeeps(db: Db, b: Id, now: int)
    requires Valid(db)
    ensures var db' := ViewFlip(db, b, now); Valid(db') && Moves(db, db')
  {
    RowsOnly(db, ViewFlip(db, b, now));
  }

  lemma ExpireKeeps(db: Db, now: int)
    requires Valid(db)
    ensures var db' := ExpireDue(db, now); Valid(db') && Moves(db, db')
  {
    RowsOnly(db, ExpireDue(db, now));
  }

  lemma CancelSeats(db: Db, b: Id, user: Id, now: int, t: Id)
    requires Cancel(db, b, user, now).1.Done?
    ensures var db' := Cancel(db, b, user, now).0; var bk := db.bookings[b];
            var back := if t == bk.trip && bk.status == Accepted then bk.seats else 0;
            && Seats(db'.bookings, t, HELD) == Seats(db.bookings, t, HELD) - back
            && Seats(db'.bookings, t, TAKEN) == Seats(db.bookings, t, TAKEN) - back
  {
    var db' := Cancel(db, b, user, now).0;
    SeatsChange(db.bookings, db'.bookings, t, HELD, b);
    SeatsChange(db.bookings, db'.bookings, t, TAKEN, b);
  }

  lemma CancelFits(db: Db, b: Id, user: Id, now: int)
    requires NeverOversold(db) && Cancel(db, b, user, now).1.Done?
    ensures NeverOversold(Cancel(db, b, user, now).0)
  {
    var db' := Cancel(db, b, user, now).0;
    forall t | 0 <= t < |db'.trips| ensures Fits(db', t) {
      assert Fits(db, t);
      CancelSeats(db, b, user, now, t);
    }
  }

  lemma CancelMoves(db: Db, b: Id, user: Id, now: int)
    requires ClosedTripsSettled(db) && Cancel(db, b, user, now).1.Done?
    ensures var db' := Cancel(db, b, user, now).0; Moves(db, db') && ClosedTripsSettled(db')
  {
    var db' := Cancel(db, b, user, now).0;
    forall i | 0 <= i < |db'.bookings| ensures Settled(db', i) { assert Settled(db, i); }
  }

  lemma CancelKeeps(db: Db, b: Id, user: Id, now: int)
    requires Valid(db)
    ensures var db' := Cancel(db, b, user, now).0; Valid(db') && Moves(db, db')
  {
    if Cancel(db, b, user, now).1.Done? {
      var db' := Cancel(db, b, user, now).0;
      CancelMoves(db, b, user, now);
      CancelFits(db, b, user, now);
      RowsKeepUniqueness(db, db');
      RowsStayLinked(db, db');
    }
  }

  /** Completing an accepted booking leaves it among the taken seats. */
  lemma AutoCompleteSeats(db: Db, now: int, t: Id)
    ensures var db' := AutoComplete(db, now);
            && Seats(db'.bookings, t, HELD) <= Seats(db.bookings, t, HELD)
            && Seats(db'.bookings, t, TAKEN) == Seats(db.bookings, t, TAKEN)
  {
    var db' := AutoComplete(db, now);
    SeatsDrop(db.bookings, db'.bookings, t, HELD);
    SeatsChange(db.bookings, db'.bookings, t, TAKEN, |db.bookings|);
  }

  lemma AutoCompleteMoves(db: Db, now: int)
    requires ClosedTripsSettled(db)
    ensures var db' := AutoComplete(db, now); Moves(db, db') && ClosedTripsSettled(db')
  {
    var db' := AutoComplete(db, now);
    forall i | 0 <= i < |db'.bookings| ensures Settled(db', i) { assert Settled(db, i); }
  }

  lemma AutoCompleteKeeps(db: Db, now: int)
    requires Valid(db)
    ensures var db' := AutoComplete(db, now); Valid(db') && Moves(db, db')
  {
    var db' := AutoComplete(db, now);
    AutoCompleteMoves(db, now);
    RowsKeepUniqueness(db, db');
    RowsStayLinked(db, db');
    forall t | 0 <= t < |db'.trips| ensures Fits(db', t) {
      assert Fits(db, t);
      AutoCompleteSeats(db, now, t);
    }
  }

  /** The two ways a trip ends. */
  ghost predicate Ending(status: TripStatus, onlyAccepted: bool, to: BookingStatus) {
    || (status == Finished && onlyAccepted && to == Completed)
    || (status == Withdrawn && !onlyAccepted && to == CancelledByDriver)
  }

  lemma EndTripSeats(db: Db, t: Id, status: TripStatus, onlyAccepted: bool, to: BookingStatus, u: Id)
    requires t < |db.trips| && Ending(status, onlyAccepted, to)
    ensures var db' := EndTrip(db, t, status, onlyAccepted, to);
            && Seats(db'.bookings, u, HELD) <= Seats(db.bookings, u, HELD)
            && (u != t || status == Finished ==> Seats(db'.bookings, u, TAKEN) == Seats(db.bookings, u, TAKEN))
  {
    var db' := EndTrip(db, t, status, onlyAccepted, to);
    SeatsDrop(db.bookings, db'.bookings, u, HELD);
    if u != t || status == Finished { SeatsChange(db.bookings, db'.bookings, u, TAKEN, |db.bookings|); }
  }

  lemma EndTripMoves(db: Db, t: Id, status: TripStatus, onlyAccepted: bool, to: BookingStatus)
    requires ClosedTripsSettled(db) && t < |db.trips| && Open(db.trips[t].status) && Ending(status, onlyAccepted, to)
    ensures var db' := EndTrip(db, t, status, onlyAccepted, to); Moves(db, db') && ClosedTripsSettled(db')
  {
    var db' := EndTrip(db, t, status, onlyAccepted, to);
    forall i | 0 <= i < |db'.bookings| ensures Settled(db', i) { assert Settled(db, i); }
  }

  lemma EndTripKeeps(db: Db, t: Id, status: TripStatus, onlyAccepted: bool, to: BookingStatus)
    requires Valid(db) && t < |db.trips| && Open(db.trips[t].status) && Ending(status, onlyAccepted, to)
    ensures var db' := EndTrip(db, t, status, onlyAccepted, to); Valid(db') && Moves(db, db')
  {
    var db' := EndTrip(db, t, status, onlyAccepted, to);
    EndTripMoves(db, t, status, onlyAccepted, to);
    RowsKeepUniqueness(db, db');
    RowsStayLinked(db, db');
    forall u | 0 <= u < |db'.trips| ensures Fits(db', u) {
      assert Fits(db, u);
      EndTripSeats(db, t, status, onlyAccepted, to, u);
    }
  }

  lemma WithdrawKeeps(db: Db, t: Id)
    requires Valid(db)
    ensures Valid(Withdraw(db, t).0) && Moves(db, Withdraw(db, t).0)
  {
    if t < |db.trips| && Open(db.trips[t].status) { EndTripKeeps(db, t, Withdrawn, false, CancelledByDriver); }
  }

  lemma FinishKeeps(db: Db, t: Id)
    requires Valid(db)
    ensures Valid(Finish(db, t)) && Moves(db, Finish(db, t))
  {
    if t < |db.trips| && Open(db.trips[t].status) { EndTripKeeps(db, t, Finished, true, Completed); }
  }

  /** A trip row whose sale counter alone changes, within its bounds. */
  lemma CounterKeeps(db: Db, t: Id, next: int, db': Db)
    requires Valid(db) && t < |db.trips| && 0 <= next <= db.trips[t].total - Seats(db.bookings, t, HELD)
    requires db' == db.(trips := db.trips[t := db.trips[t].(available := next)])
    ensures Valid(db') && Moves(db, db')
  {
    assert Moves(db, db');
    RowsKeepUniqueness(db, db');
    RowsStayLinked(db, db');
    forall i | 0 <= i < |db'.bookings| ensures Settled(db', i) { assert Settled(db, i); }
    forall u | 0 <= u < |db'.trips| ensures Fits(db', u) { assert Fits(db, u); }
  }

  lemma AdjustKeeps(db: Db, t: Id, driver: Id, delta: int)
    requires Valid(db) && (delta == 1 || delta == -1)
    ensures var db' := AdjustSeats(db, t, driver, delta).0; Valid(db') && Moves(db, db')
  {
    var (db', r) := AdjustSeats(db, t, driver, delta);
    if r.Done? { CounterKeeps(db, t, db.trips[t].available + delta, db'); }
  }

  lemma PublishKeeps(db: Db, driver: Id, total: nat, departure: int, durationMs: nat)
    requires Valid(db)
    ensures var db' := Publish(db, driver, total, departure, durationMs); Valid(db') && Moves(db, db')
  {
    var db' := Publish(db, driver, total, departure, durationMs);
    assert Moves(db, db');
    RowsKeepUniqueness(db, db');
    SeatsOfNone(db.bookings, |db.trips|, HELD);
    forall i | 0 <= i < |db'.bookings| ensures Settled(db', i) { assert Settled(db, i); }
    forall t | 0 <= t < |db'.trips| ensures Fits(db', t) {
      if t < |db.trips| { assert Fits(db, t); }
    }
  }

  lemma AcceptOfferSeats(db: Db, passenger: Id, driver: Id, seats: nat, departure: int, durationMs: nat, t: Id)
    requires RowsLinked(db) && driver < |db.users| && passenger < |db.users|
    ensures var db' := AcceptOffer(db, passenger, driver, seats, departure, durationMs);
            && Seats(db'.bookings, t, HELD) == (if t == |db.trips| then seats else Seats(db.bookings, t, HELD))
            && Seats(db'.bookings, t, TAKEN) == (if t == |db.trips| then seats else Seats(db.bookings, t, TAKEN))
  {
    var row := Booking(|db.trips|, passenger, seats, Accepted, None, None, None);
    SeatsAppend(db.bookings, row, t, HELD);
    SeatsAppend(db.bookings, row, t, TAKEN);
    if t == |db.trips| { SeatsOfNone(db.bookings, t, HELD); SeatsOfNone(db.bookings, t, TAKEN); }
  }

  lemma AcceptOfferMoves(db: Db, passenger: Id, driver: Id, seats: nat, departure: int, durationMs: nat)
    requires RowsLinked(db) && ClosedTripsSettled(db) && driver < |db.users| && passenger < |db.users|
    ensures var db' := AcceptOffer(db, passenger, driver, seats, departure, durationMs);
            Moves(db, db') && RowsLinked(db') && ClosedTripsSettled(db')
  {
    var db' := AcceptOffer(db, passenger, driver, seats, departure, durationMs);
    forall i | 0 <= i < |db'.bookings| ensures Settled(db', i) {
      if i < |db.bookings| { assert Settled(db, i); }
    }
  }

  lemma AcceptOfferFits(db: Db, passenger: Id, driver: Id, seats: nat, departure: int, durationMs: nat)
    requires RowsLinked(db) && NeverOversold(db) && driver < |db.users| && passenger < |db.users|
    ensures NeverOversold(AcceptOffer(db, passenger, driver, seats, departure, durationMs))
  {
    var db' := AcceptOffer(db, passenger, driver, seats, departure, durationMs);
    forall t | 0 <= t < |db'.trips| ensures Fits(db', t) {
      AcceptOfferSeats(db, passenger, driver, seats, departure, durationMs, t);
      if t < |db.trips| { assert Fits(db, t); }
    }
  }

  lemma AcceptOfferKeeps(db: Db, passenger: Id, driver: Id, seats: nat, departure: int, durationMs: nat)
    requires Valid(db)
    ensures var db' := AcceptOffer(db, passenger, driver, seats, departure, durationMs); Valid(db') && Moves(db, db')
  {
    var db' := AcceptOffer(db, passenger, driver, seats, departure, durationMs);
    if driver < |db.users| && passenger < |db.users| {
      AcceptOfferMoves(db, passenger, driver, seats, departure, durationMs);
      AcceptOfferFits(db, passenger, driver, seats, departure, durationMs);
      AppendKeepsUniqueness(db, db', db'.bookings[|db.bookings|]);
    } else {
      assert db' == db;
    }
  }

  // ---------------------------------------------------------------- the seat ledger of one trip

  /**
   A step's effect on trip `t`: sale counter plus taken seats moves by `delta`
   unless the trip is private or withdrawn, and only an active trip's counter moves.
   */
  ghost predicate Balanced(db: Db, db': Db, t: Id, delta: int) {
    && t < |db.trips| && t < |db'.trips|
    && (db.trips[t].status != Direct && db'.trips[t].status != Withdrawn ==>
          db'.trips[t].available + Seats(db'.bookings, t, TAKEN) == db.trips[t].available + Seats(db.bookings, t, TAKEN) + delta)
    && (db.trips[t].status != Active ==> db'.trips[t].available == db.trips[t].available)
  }

  /** Bookings that move without entering or leaving the taken set, trips untouched. */
  lemma SameTakenBalanced(db: Db, db': Db, t: Id)
    requires t < |db.trips| && db'.trips == db.trips && |db'.bookings| == |db.bookings|
    requires forall i :: 0 <= i < |db.bookings| ==> Weight(db'.bookings[i], t, TAKEN) == Weight(db.bookings[i], t, TAKEN)
    ensures Balanced(db, db', t, 0)
  {
    SeatsChange(db.bookings, db'.bookings, t, TAKEN, |db.bookings|);
  }

  lemma CreateBalanced(db: Db, t: Id, passenger: Id, seats: nat, key: Option<string>, now: int, u: Id)
    requires u < |db.trips|
    ensures Balanced(db, Create(db, t, passenger, seats, key, now).0, u, 0)
  {
    var (db', r) := Create(db, t, passenger, seats, key, now);
    if db' != db {
      var row := Booking(t, passenger, seats, Pending, Some(now + PENDING_TTL), None, key);
      SeatsAppend(db.bookings, row, u, TAKEN);
    }
  }

  lemma AcceptBalanced(db: Db, b: Id, driver: Id, t: Id)
    requires t < |db.trips|
    ensures Balanced(db, Accept(db, b, driver).0, t, 0)
  {
    if Accept(db, b, driver).1.Done? { AcceptSeats(db, b, driver, t); }
  }

  lemma CancelBalanced(db: Db, b: Id, user: Id, now: int, t: Id)
    requires ClosedTripsSettled(db) && t < |db.trips|
    ensures Balanced(db, Cancel(db, b, user, now).0, t, 0)
  {
    if Cancel(db, b, user, now).1.Done? {
      CancelSeats(db, b, user, now, t);
      assert Settled(db, b);
    }
  }

  lemma AutoCompleteBalanced(db: Db, now: int, t: Id)
    requires t < |db.trips|
    ensures Balanced(db, AutoComplete(db, now), t, 0)
  {
    AutoCompleteSeats(db, now, t);
  }

  lemma WithdrawBalanced(db: Db, k: Id, t: Id)
    requires t < |db.trips|
    ensures Balanced(db, Withdraw(db, k).0, t, 0)
  {
    if k < |db.trips| && Open(db.trips[k].status) { EndTripSeats(db, k, Withdrawn, false, CancelledByDriver, t); }
  }

  lemma FinishBalanced(db: Db, k: Id, t: Id)
    requires t < |db.trips|
    ensures Balanced(db, Finish(db, k), t, 0)
  {
    if k < |db.trips| && Open(db.trips[k].status) { EndTripSeats(db, k, Finished, true, Completed, t); }
  }

  lemma PublishBalanced(db: Db, driver: Id, total: nat, departure: int, durationMs: nat, t: Id)
    requires t < |db.trips|
    ensures Balanced(db, Publish(db, driver, total, departure, durationMs), t, 0)
  {
  }

  lemma AcceptOfferBalanced(db: Db, passenger: Id, driver: Id, seats: nat, departure: int, durationMs: nat, t: Id)
    requires RowsLinked(db) && t < |db.trips|
    ensures Balanced(db, AcceptOffer(db, passenger, driver, seats, departure, durationMs), t, 0)
  {
    if driver < |db.users| && passenger < |db.users| {
      AcceptOfferSeats(db, passenger, driver, seats, departure, durationMs, t);
    }
  }
}

/**
 What callers can rely on: when accept and cancel succeed and what they leave, that
 of all writers racing on a booking one wins, that a missed cron pass is made up
 for, and that a withdrawn trip stays empty.
 */
module BookingOutcomes {
  import opened Prelude
  import opened Bookings
  import opened BookingInvariants
  import opened BookingRuns

  /** Bookings other than `b` are as they were. */
  ghost predicate OnlyRow(db: Db, db': Db, b: Id) {
    |db'.bookings| == |db.bookings| && forall i :: 0 <= i < |db.bookings| && i != b ==> db'.bookings[i] == db.bookings[i]
  }

  /** Trips other than `t` are as they were; `t` has `delta` more seats on sale and nothing else changed. */
  ghost predicate OnlyCounter(db: Db, db': Db, t: Id, delta: int) {
    && |db'.trips| == |db.trips|
    && forall k :: 0 <= k < |db.trips| ==>
         db'.trips[k] == if k == t then db.trips[k].(available := db.trips[k].available + delta) else db.trips[k]
  }

  /** A booking keeps everything but its status and its viewing stamp. */
  ghost predicate SameButStatus(a: Booking, b: Booking) {
    b == a.(status := b.status, viewedAt := b.viewedAt)
  }

  /** User `u` lost `amount` hundredths, the visible rating not below zero; nobody else changed. */
  ghost predicate OnlyCharged(db: Db, db': Db, u: Id, amount: nat) {
    && u < |db.users| == |db'.users|
    && db'.users[u].penalty == db.users[u].penalty + amount && db'.users[u].rating == Max(0, db.users[u].rating - amount)
    && db'.users[u].blocked == db.users[u].blocked && db'.users[u].deleted == db.users[u].deleted
    && forall k :: 0 <= k < |db.users| && k != u ==> db'.users[k] == db.users[k]
  }

  // ---------------------------------------------------------------- accept

  /** A driver's accept succeeds exactly on his own active trip, on a waiting request the free seats cover. */
  lemma AcceptSucceedsExactly(db: Db, b: Id, driver: Id)
    requires Valid(db)
    ensures Accept(db, b, driver).1.Done? <==>
      && b < |db.bookings| && (db.bookings[b].status == Pending || db.bookings[b].status == Viewed)
      && var trip := db.trips[db.bookings[b].trip];
         trip.driver == driver && trip.status == Active && db.bookings[b].seats <= trip.available
    ensures !Accept(db, b, driver).1.Done? ==> Accept(db, b, driver).0 == db
  {
  }

  /**
   After an accept the passenger waits nowhere else, a sold-out trip has no
   waiting request, the seats left the counter of that trip only, and no decided
   booking was touched.
   */
  lemma AcceptDecides(db: Db, b: Id, driver: Id)
    requires Valid(db) && Accept(db, b, driver).1.Done?
    ensures var db' := Accept(db, b, driver).0; var bk := db.bookings[b];
            && db'.bookings[b] == bk.(status := Accepted)
            && OnlyCounter(db, db', bk.trip, 0 - bk.seats) && db'.users == db.users
            && |db'.bookings| == |db.bookings|
            && (forall i :: 0 <= i < |db.bookings| && i != b && db.bookings[i].passenger == bk.passenger ==>
                  !Undecided(db'.bookings[i].status))
            && (db'.trips[bk.trip].available == 0 ==>
                  forall i :: 0 <= i < |db.bookings| && db.bookings[i].trip == bk.trip ==> !Undecided(db'.bookings[i].status))
            && (forall i :: 0 <= i < |db.bookings| && !Undecided(db.bookings[i].status) ==> db'.bookings[i] == db.bookings[i])
            && (forall i :: 0 <= i < |db.bookings| ==> SameButStatus(db.bookings[i], db'.bookings[i]))
  {
  }

  /** A stranger's waiting request survives an accept exactly when it is on another trip or seats remain. */
  lemma AcceptSpares(db: Db, b: Id, driver: Id, i: Id)
    requires Valid(db) && Accept(db, b, driver).1.Done? && i < |db.bookings| && i != b && Undecided(db.bookings[i].status)
    requires db.bookings[i].passenger != db.bookings[b].passenger
    ensures var db' := Accept(db, b, driver).0;
            && i < |db'.bookings|
            && (db'.bookings[i] == db.bookings[i] <==>
                  db.bookings[i].trip != db.bookings[b].trip || db'.trips[db.bookings[b].trip].available > 0)
            && (db'.bookings[i] != db.bookings[i] ==> db'.bookings[i].status == Expired)
  {
  }

  // ---------------------------------------------------------------- cancel

  /**
   Cancelling: who may, what the booking becomes, whether seats return and
   whether the driver is charged - all by the booking's status at that moment.
   */
  lemma CancelOutcome(db: Db, b: Id, user: Id, now: int)
    requires Valid(db)
    ensures var (db', r) := Cancel(db, b, user, now);
            && (r.Done? <==> b < |db.bookings| && db.bookings[b].status in {Pending, Viewed, Accepted}
                             && (user == db.bookings[b].passenger || user == db.trips[db.bookings[b].trip].driver))
            && (!r.Done? ==> db' == db)
    ensures var (db', r) := Cancel(db, b, user, now);
            r.Done? ==>
              var bk := db.bookings[b]; var trip := db.trips[bk.trip]; var mine := user == bk.passenger;
              && OnlyRow(db, db', b) && SameButStatus(bk, db'.bookings[b])
              && (db'.bookings[b].status == CancelledByDriver <==> !mine)
              && (db'.bookings[b].status == CancelledLate <==> mine && now > trip.departure - 7_200_000)
              && (db'.bookings[b].status == CancelledByPassenger <==> mine && now <= trip.departure - 7_200_000)
              && OnlyCounter(db, db', bk.trip, if bk.status == Accepted && trip.status == Active then bk.seats else 0)
              && (if bk.status == Accepted && !mine
                  then OnlyCharged(db, db', trip.driver, 30) else db'.users == db.users)
  {
  }

  /** Accepting and then cancelling by the passenger gives the seats back and charges nobody. */
  lemma CancelUndoesAccept(db: Db, b: Id, driver: Id, now: int)
    requires Valid(db) && Accept(db, b, driver).1.Done?
    ensures var db1 := Accept(db, b, driver).0; var (db2, r) := Cancel(db1, b, db.bookings[b].passenger, now);
            r.Done? && db2.trips == db.trips && db2.users == db.users
  {
  }

  // ---------------------------------------------------------------- create

  /** A create adds one waiting request with an hour to live, and leaves at most three of the passenger's waiting. */
  lemma CreateOutcome(db: Db, t: Id, passenger: Id, seats: nat, key: Option<string>, now: int)
    requires Valid(db)
    ensures var (db', r) := Create(db, t, passenger, seats, key, now);
            && (!r.Done? ==> db' == db)
            && (r.Done? ==>
                  && r == Done(|db.bookings|)
                  && db'.bookings == db.bookings + [Booking(t, passenger, seats, Pending, Some(now + 3_600_000), None, key)]
                  && PendingCount(db'.bookings, passenger) <= 3
                  && !db.users[db.trips[t].driver].blocked && !db.users[db.trips[t].driver].deleted)
  {
  }

  // ---------------------------------------------------------------- one writer wins

  /** The step takes booking `i` out of waiting. */
  predicate Decides(s: System, st: Step, i: Id) {
    && i < |s.db.bookings| && Undecided(s.db.bookings[i].status)
    && i < |Exec(s, st).db.bookings| && !Undecided(Exec(s, st).db.bookings[i].status)
  }

  /** The step takes booking `i` out of accepted. */
  predicate Settles(s: System, st: Step, i: Id) {
    && i < |s.db.bookings| && s.db.bookings[i].status == Accepted
    && i < |Exec(s, st).db.bookings| && Exec(s, st).db.bookings[i].status != Accepted
  }

  function Decisions(s: System, steps: seq<Step>, i: Id): nat
    decreases |steps|
  {
    if steps == [] then 0 else (if Decides(s, steps[0], i) then 1 else 0) + Decisions(Exec(s, steps[0]), steps[1..], i)
  }

  function Settlements(s: System, steps: seq<Step>, i: Id): nat
    decreases |steps|
  {
    if steps == [] then 0 else (if Settles(s, steps[0], i) then 1 else 0) + Settlements(Exec(s, steps[0]), steps[1..], i)
  }

  /** From a booking's row on: it is decided once or never, and settled once or never, as its last status shows. */
  lemma {:induction false} CountsFollowStatus(s: System, steps: seq<Step>, i: Id)
    requires Safe(s) && i < |s.db.bookings|
    ensures i < |Run(s, steps).db.bookings|
    ensures var a, b := s.db.bookings[i].status, Run(s, steps).db.bookings[i].status;
            && Decisions(s, steps, i) == (if Undecided(a) && !Undecided(b) then 1 else 0)
            && Settlements(s, steps, i) <= 1
            && (a == Accepted ==> Settlements(s, steps, i) == (if b == Accepted then 0 else 1))
            && (Terminal(a) || Undecided(b) || b == Accepted ==> Settlements(s, steps, i) == 0)
    decreases |steps|
  {
    if steps != [] {
      var next := Exec(s, steps[0]);
      StepSafe(s, steps[0]);
      assert RowMoves(s.db, next.db, i);
      CountsFollowStatus(next, steps[1..], i);
      RunSafe(next, steps[1..]);
      assert RowMoves(next.db, Run(next, steps[1..]).db, i);
    }
  }

  lemma {:induction false} CountsAtMostOnce(s: System, steps: seq<Step>, i: Id)
    requires Safe(s)
    ensures Decisions(s, steps, i) <= 1 && Settlements(s, steps, i) <= 1
    decreases |steps|
  {
    if i < |s.db.bookings| {
      CountsFollowStatus(s, steps, i);
    } else if steps != [] {
      StepSafe(s, steps[0]);
      CountsAtMostOnce(Exec(s, steps[0]), steps[1..], i);
    }
  }

  /**
   MAIN. However accepts, rejects, cancels on both sides, expiry, no-shows, closings
   and withdrawals race: in every run one step at most takes a booking out of waiting
   and one at most out of accepted. Every other writer finds it gone.
   */
  lemma OneWriterWins(now: int, steps: seq<Step>, i: Id)
    ensures Decisions(Start(now), steps, i) <= 1 && Settlements(Start(now), steps, i) <= 1
  {
    StartSafe(now);
    CountsAtMostOnce(Start(now), steps, i);
  }

  // ---------------------------------------------------------------- the cron jobs

  /** A missed expiry pass is made up for by the next: an earlier one changes nothing about its result. */
  lemma MissedExpiry(db: Db, earlier: int, now: int)
    requires earlier <= now
    ensures ExpireDue(ExpireDue(db, earlier), now) == ExpireDue(db, now)
  {
    var once := ExpireDue(db, earlier);
    forall i | 0 <= i < |db.bookings| ensures ExpireRow(once.bookings[i], now) == ExpireRow(db.bookings[i], now) {}
    assert ExpireDue(once, now).bookings == ExpireDue(db, now).bookings;
  }

  /** And so is a missed closing pass. */
  lemma MissedClosing(db: Db, earlier: int, now: int)
    requires RowsLinked(db) && earlier <= now
    ensures AutoComplete(AutoComplete(db, earlier), now) == AutoComplete(db, now)
  {
    var once, late := AutoComplete(db, earlier), AutoComplete(db, now);
    var twice := AutoComplete(once, now);
    forall t | 0 <= t < |db.trips| ensures twice.trips[t] == late.trips[t] {}
    forall i | 0 <= i < |db.bookings| ensures twice.bookings[i] == late.bookings[i] {
      assert once.trips[db.bookings[i].trip].status == Finished || once.trips[db.bookings[i].trip] == db.trips[db.bookings[i].trip];
    }
    assert twice.trips == late.trips && twice.bookings == late.bookings;
  }

  /** MAIN. Once withdrawn, a trip is never open again and no booking on it is ever live, whatever is still in flight. */
  lemma WithdrawnStaysEmpty(s: System, t: Id, steps: seq<Step>, i: Id)
    requires Safe(s) && Withdraw(s.db, t).1.Done?
    ensures var db := Run(Exec(s, TripDoes(ForceCancels(t))), steps).db;
            && t < |db.trips| && db.trips[t].status == Withdrawn
            && (i < |db.bookings| && db.bookings[i].trip == t ==> !Live(db.bookings[i].status))
  {
    var s' := Exec(s, TripDoes(ForceCancels(t)));
    StepSafe(s, TripDoes(ForceCancels(t)));
    RunSafe(s', steps);
    var db := Run(s', steps).db;
    assert TripMoves(s'.db, db, t);
    if i < |db.bookings| { assert Settled(db, i); }
  }
}

/**
 The admin login lockout: failures are counted per (email, ip) pair in a window,
 five lock the pair for fifteen minutes; a second counter per email only alerts.
 */
module AdminLockout {
  import opened Prelude
  import opened Windows

  const MAX_FAILS := 5
  const LOCK_MS := 15 * 60_000
  const ALERT_FAILS := 20

  datatype Pair = Pair(email: string, ip: string)

  /** `lockedUntil` 0 means not locked. */
  datatype Fail = Fail(count: nat, firstAt: int, lockedUntil: int)

  datatype Counters = Counters(pairs: map<Pair, Fail>, emails: map<string, Fail>)

  // ---------------------------------------------------------------- one counter

  /** The lock, or else the counting window, has elapsed. */
  predicate Expired(f: Fail, now: int) {
    if f.lockedUntil != 0 then now >= f.lockedUntil else now - f.firstAt >= LOCK_MS
  }

  function Swept<K>(m: map<K, Fail>, key: K, now: int): map<K, Fail> {
    if key in m && Expired(m[key], now) then m - {key} else m
  }

  function Current<K>(m: map<K, Fail>, key: K, now: int): Fail {
    if key in m && !Expired(m[key], now) then m[key] else Fail(0, now, 0)
  }

  /** One more failure on a counter that locks at `limit` (never, without one). */
  function Counted<K>(m: map<K, Fail>, key: K, now: int, limit: Option<nat>): map<K, Fail> {
    var f := Current(m, key, now);
    m[key := Fail(f.count + 1, f.firstAt, if limit.Some? && f.count + 1 >= limit.value then now + LOCK_MS else 0)]
  }

  // ---------------------------------------------------------------- one login

  /** What the password and code come to: wrong, right, or a misconfigured second factor. */
  datatype Verdict = Wrong | Right | Misconfigured

  datatype Outcome = LockedOut | Refused(alert: bool) | Broken | Admitted

  predicate Locked(s: Counters, pair: Pair, now: int) { Current(s.pairs, pair, now).lockedUntil > now }

  function Recorded(s: Counters, pair: Pair, now: int): Counters {
    Counters(Counted(s.pairs, pair, now, Some(MAX_FAILS)), Counted(s.emails, pair.email, now, None))
  }

  predicate Alerts(s: Counters, pair: Pair, now: int) { Current(s.emails, pair.email, now).count + 1 == ALERT_FAILS }

  /** A login that checks the lock at `check` and knows its verdict at `at`. */
  function Login(s: Counters, pair: Pair, check: int, at: int, verdict: Verdict): (Counters, Outcome) {
    var s' := s.(pairs := Swept(s.pairs, pair, check));
    if Locked(s, pair, check) then (s', LockedOut)
    else match verdict
      case Wrong => (Recorded(s', pair, at), Refused(Alerts(s', pair, at)))
      case Misconfigured => (s', Broken)
      case Right => (s'.(pairs := s'.pairs - {pair}), Admitted)
  }

  /** The process-wide counters. */
  class Lockout {
    var pairs: map<Pair, Fail>
    var emails: map<string, Fail>

    constructor ()
      ensures State() == Counters(map[], map[])
    {
      pairs, emails := map[], map[];
    }

    function State(): Counters
      reads this
    {
      Counters(pairs, emails)
    }

    method PairState(pair: Pair, now: int) returns (f: Fail)
      modifies this`pairs
      ensures f == Current(old(pairs), pair, now) && pairs == Swept(old(pairs), pair, now)
    {
      if pair !in pairs { return Fail(0, now, 0); }
      f := pairs[pair];
      var expired := if f.lockedUntil != 0 then now >= f.lockedUntil else now - f.firstAt >= LOCK_MS;
      if expired {
        pairs := pairs - {pair};
        f := Fail(0, now, 0);
      }
    }

    method EmailState(email: string, now: int) returns (f: Fail)
      modifies this`emails
      ensures f == Current(old(emails), email, now) && emails == Swept(old(emails), email, now)
    {
      if email !in emails { return Fail(0, now, 0); }
      f := emails[email];
      var expired := if f.lockedUntil != 0 then now >= f.lockedUntil else now - f.firstAt >= LOCK_MS;
      if expired {
        emails := emails - {email};
        f := Fail(0, now, 0);
      }
    }

    method RecordAdminFail(pair: Pair, now: int) returns (alert: bool)
      modifies this
      ensures State() == Recorded(old(State()), pair, now) && alert == Alerts(old(State()), pair, now)
    {
      var s := PairState(pair, now);
      var count := s.count + 1;
      var lockedUntil := if count >= MAX_FAILS then now + LOCK_MS else 0;
      pairs := pairs[pair := Fail(count, s.firstAt, lockedUntil)];
      var e := EmailState(pair.email, now);
      var emailCount := e.count + 1;
      emails := emails[pair.email := Fail(emailCount, e.firstAt, 0)];
      alert := emailCount == ALERT_FAILS;
    }

    method AdminLogin(pair: Pair, check: int, at: int, verdict: Verdict) returns (outcome: Outcome)
      modifies this
      ensures (State(), outcome) == Login(old(State()), pair, check, at, verdict)
    {
      var s := PairState(pair, check);
      if s.lockedUntil > check { return LockedOut; }
      match verdict
      case Wrong =>
        var alert := RecordAdminFail(pair, at);
        outcome := Refused(alert);
      case Misconfigured => outcome := Broken;
      case Right =>
        pairs := pairs - {pair};
        outcome := Admitted;
    }
  }

  // ---------------------------------------------------------------- runs

  datatype Attempt = Attempt(pair: Pair, check: int, at: int, verdict: Verdict)

  datatype Event = Failure(pair: Pair, at: int, alert: bool) | Success(pair: Pair)

  /** The counters, what happened so far, and the time. */
  datatype World = World(s: Counters, log: seq<Event>, now: int)

  /** One login after another; the clock never goes back. */
  function Exec(w: World, a: Attempt): World {
    if !(w.now <= a.check <= a.at) then w
    else
      var (s, outcome) := Login(w.s, a.pair, a.check, a.at, a.verdict);
      var log := match outcome
        case Refused(alert) => w.log + [Failure(a.pair, a.at, alert)]
        case Admitted => w.log + [Success(a.pair)]
        case _ => w.log;
      World(s, log, a.at)
  }

  function Reached(run: seq<Attempt>): World
    decreases |run|
  {
    if run == [] then World(Counters(map[], map[]), [], 1) else Exec(Reached(run[..|run| - 1]), run[|run| - 1])
  }

  /** The failures of a pair since its last successful login. */
  function Streak(log: seq<Event>, pair: Pair): seq<int> {
    if log == [] then []
    else
      var front, last := Streak(log[..|log| - 1], pair), log[|log| - 1];
      if last == Success(pair) then [] else if last.Failure? && last.pair == pair then front + [last.at] else front
  }

  /** All failures of an email, from any ip. */
  function Spray(log: seq<Event>, email: string): seq<int> {
    if log == [] then []
    else
      var front, last := Spray(log[..|log| - 1], email), log[|log| - 1];
      if last.Failure? && last.pair.email == email then front + [last.at] else front
  }

  // ---------------------------------------------------------------- the invariant of a counter

  ghost predicate Ordered(t: seq<int>, now: int) {
    (forall i, j :: 0 <= i <= j < |t| ==> t[i] <= t[j]) && (forall i :: 0 <= i < |t| ==> 1 <= t[i] <= now)
  }

  /** Nine failures in a row span at least the lock time. */
  ghost predicate Spaced(t: seq<int>) { forall i, j :: 0 <= i && i + 8 <= j < |t| ==> t[i] + LOCK_MS <= t[j] }

  /** A counter counts the last `count` failures, all inside one window. */
  ghost predicate Counts(f: Fail, t: seq<int>) {
    && 1 <= f.count <= |t| && f.firstAt == t[|t| - f.count] && t[|t| - 1] < f.firstAt + LOCK_MS
  }

  /** What a pair's counter says about its streak. */
  ghost predicate PairOk(m: map<Pair, Fail>, pair: Pair, t: seq<int>, now: int) {
    if pair in m then
      var f := m[pair]; var w := |t| - f.count;
      && Counts(f, t) && f.count <= MAX_FAILS
      && f.lockedUntil == (if f.count == MAX_FAILS then t[|t| - 1] + LOCK_MS else 0)
      && (w >= 4 ==> t[w - 4] + LOCK_MS <= t[w])
    else |t| >= 4 ==> t[|t| - 4] + LOCK_MS <= now
  }

  ghost predicate Tracked(w: World, pair: Pair) {
    var t := Streak(w.log, pair); Ordered(t, w.now) && Spaced(t) && PairOk(w.s.pairs, pair, t, w.now)
  }

  /** Sweeping and the passing of time keep a pair's counter honest. */
  lemma SweepOk(m: map<Pair, Fail>, pair: Pair, t: seq<int>, now: int, later: int)
    requires Ordered(t, now) && PairOk(m, pair, t, now) && now <= later
    ensures PairOk(Swept(m, pair, later), pair, t, later)
  {
  }

  /** Recording a failure of an unlocked pair. */
  lemma RecordOk(m: map<Pair, Fail>, pair: Pair, t: seq<int>, now: int)
    requires Ordered(t, now) && Spaced(t) && PairOk(m, pair, t, now) && 1 <= now
    requires pair in m ==> m[pair].count < MAX_FAILS && !Expired(m[pair], now)
    ensures PairOk(Counted(m, pair, now, Some(MAX_FAILS)), pair, t + [now], now)
    ensures Ordered(t + [now], now) && Spaced(t + [now])
  {
    var n, u := |t|, t + [now];
    if pair in m {
      var w := n - m[pair].count;
      assert n >= 8 ==> t[n - 8] <= t[w - 4] && t[w] <= now;
    }
    forall i, j | 0 <= i && i + 8 <= j < |u| ensures u[i] + LOCK_MS <= u[j] {
      if j == n { assert t[i] <= t[n - 8]; }
    }
  }

  /** An unlocked pair after the sweep has fewer than five failures on its counter. */
  lemma UnlockedCounts(s: Counters, pair: Pair, t: seq<int>, now: int, check: int)
    requires Ordered(t, now) && PairOk(s.pairs, pair, t, now) && now <= check && !Locked(s, pair, check)
    ensures var m := Swept(s.pairs, pair, check); pair in m ==> m[pair].count < MAX_FAILS && !Expired(m[pair], check)
  {
  }

  lemma StreakStep(log: seq<Event>, e: Event, pair: Pair)
    ensures Streak(log + [e], pair) ==
      if e == Success(pair) then [] else if e.Failure? && e.pair == pair then Streak(log, pair) + [e.at] else Streak(log, pair)
  {
    assert (log + [e])[..|log|] == log;
  }

  lemma WrongKeeps(w: World, a: Attempt)
    requires Tracked(w, a.pair) && 1 <= w.now <= a.check <= a.at && a.verdict == Wrong && !Locked(w.s, a.pair, a.check)
    ensures Tracked(Exec(w, a), a.pair)
  {
    var t := Streak(w.log, a.pair);
    var m := Swept(w.s.pairs, a.pair, a.check);
    var m' := Swept(m, a.pair, a.at);
    SweepOk(w.s.pairs, a.pair, t, w.now, a.check);
    SweepOk(m, a.pair, t, a.check, a.at);
    UnlockedCounts(w.s, a.pair, t, w.now, a.check);
    RecordOk(m', a.pair, t, a.at);
    SweptCounts(m, a.pair, a.at);
    StreakStep(w.log, Failure(a.pair, a.at, Alerts(w.s.(pairs := m), a.pair, a.at)), a.pair);
  }

  /** Counting after a sweep is counting. */
  lemma SweptCounts(m: map<Pair, Fail>, pair: Pair, now: int)
    ensures Counted(Swept(m, pair, now), pair, now, Some(MAX_FAILS)) == Counted(m, pair, now, Some(MAX_FAILS))
  {
  }

  lemma OthersKeep(w: World, a: Attempt, pair: Pair)
    requires Tracked(w, pair) && pair != a.pair
    ensures Tracked(Exec(w, a), pair)
  {
    OtherPairsUntouched(w.s, a.pair, a.check, a.at, a.verdict, pair);
    OthersStreak(w, a, pair);
    PairOkLater(w.s.pairs, Exec(w, a).s.pairs, pair, Streak(w.log, pair), w.now, Exec(w, a).now);
  }

  lemma PairOkLater(m: map<Pair, Fail>, m': map<Pair, Fail>, pair: Pair, t: seq<int>, now: int, later: int)
    requires PairOk(m, pair, t, now) && now <= later
    requires (pair in m' <==> pair in m) && (pair in m ==> m'[pair] == m[pair])
    ensures PairOk(m', pair, t, later)
  {
  }

  lemma OthersStreak(w: World, a: Attempt, pair: Pair)
    requires pair != a.pair
    ensures Streak(Exec(w, a).log, pair) == Streak(w.log, pair)
  {
    var w' := Exec(w, a);
    if w'.log != w.log { StreakStep(w.log, w'.log[|w.log|], pair); }
  }

  /** A locked pair, or a misconfigured second factor: only the sweep. */
  lemma SweepKeeps(w: World, a: Attempt)
    requires Tracked(w, a.pair) && w.now <= a.check <= a.at && (a.verdict == Misconfigured || Locked(w.s, a.pair, a.check))
    ensures Tracked(Exec(w, a), a.pair)
  {
    var t, m := Streak(w.log, a.pair), Swept(w.s.pairs, a.pair, a.check);
    SweepOk(w.s.pairs, a.pair, t, w.now, a.check);
    assert Exec(w, a) == World(w.s.(pairs := m), w.log, a.at);
    PairOkLater(m, m, a.pair, t, a.check, a.at);
  }

  lemma RightKeeps(w: World, a: Attempt)
    requires Tracked(w, a.pair) && w.now <= a.check <= a.at && a.verdict == Right && !Locked(w.s, a.pair, a.check)
    ensures Tracked(Exec(w, a), a.pair)
  {
    StreakStep(w.log, Success(a.pair), a.pair);
  }

  lemma AttemptKeeps(w: World, a: Attempt, pair: Pair)
    requires Tracked(w, pair) && 1 <= w.now
    ensures Tracked(Exec(w, a), pair) && 1 <= Exec(w, a).now
  {
    if pair != a.pair {
      OthersKeep(w, a, pair);
    } else if w.now <= a.check <= a.at {
      if a.verdict == Misconfigured || Locked(w.s, a.pair, a.check) {
        SweepKeeps(w, a);
      } else if a.verdict == Right {
        RightKeeps(w, a);
      } else {
        WrongKeeps(w, a);
      }
    }
  }

  lemma {:induction false} RunTracked(run: seq<Attempt>, pair: Pair)
    ensures Tracked(Reached(run), pair) && 1 <= Reached(run).now
    decreases |run|
  {
    if run != [] {
      RunTracked(run[..|run| - 1], pair);
      AttemptKeeps(Reached(run[..|run| - 1]), run[|run| - 1], pair);
    }
  }

  // ---------------------------------------------------------------- the bound

  lemma {:induction false} AtMostEight(t: seq<int>, now: int, lo: int)
    requires Ordered(t, now) && Spaced(t)
    ensures CountIn(t, lo, lo + LOCK_MS) <= 8
    decreases |t|
  {
    if t != [] {
      var n := |t|;
      if lo <= t[n - 1] < lo + LOCK_MS {
        var k := if n > 8 then n - 8 else 0;
        CountSplits(t, k, lo, lo + LOCK_MS);
        NoneIn(t[..k], lo, lo + LOCK_MS);
      } else {
        AtMostEight(t[..n - 1], now, lo);
      }
    }
  }

  /**
   MAIN. Between two successful logins of a pair, no half-open fifteen minutes hold
   more than eight recorded failures.
   */
  lemma EightInFifteenMinutes(run: seq<Attempt>, pair: Pair, lo: int)
    ensures CountIn(Streak(Reached(run).log, pair), lo, lo + 900_000) <= 8
  {
    RunTracked(run, pair);
    AtMostEight(Streak(Reached(run).log, pair), Reached(run).now, lo);
  }

  /** `k` wrong logins at one instant. */
  function Burst(pair: Pair, at: int, k: nat): seq<Attempt> { seq(k, i => Attempt(pair, at, at, Wrong)) }

  function Same(at: int, k: nat): seq<int> { seq(k, i => at) }

  /** The pair has this counter and this streak. */
  ghost predicate Stands(w: World, pair: Pair, f: Fail, t: seq<int>) {
    pair in w.s.pairs && w.s.pairs[pair] == f && Streak(w.log, pair) == t
  }

  lemma FirstFailure(w: World, pair: Pair, at: int)
    requires 1 <= w.now <= at && (pair in w.s.pairs ==> Expired(w.s.pairs[pair], at))
    ensures Stands(Exec(w, Attempt(pair, at, at, Wrong)), pair, Fail(1, at, 0), Streak(w.log, pair) + [at])
    ensures Exec(w, Attempt(pair, at, at, Wrong)).now == at
  {
    var s' := w.s.(pairs := Swept(w.s.pairs, pair, at));
    StreakStep(w.log, Failure(pair, at, Alerts(s', pair, at)), pair);
  }

  lemma NextFailure(w: World, pair: Pair, at: int, f: Fail, t: seq<int>)
    requires Stands(w, pair, f, t) && 1 <= w.now <= at && f.lockedUntil == 0 && at < f.firstAt + LOCK_MS
    ensures Stands(Exec(w, Attempt(pair, at, at, Wrong)), pair,
              Fail(f.count + 1, f.firstAt, if f.count + 1 >= MAX_FAILS then at + LOCK_MS else 0), t + [at])
    ensures Exec(w, Attempt(pair, at, at, Wrong)).now == at
  {
    var s' := w.s.(pairs := Swept(w.s.pairs, pair, at));
    StreakStep(w.log, Failure(pair, at, Alerts(s', pair, at)), pair);
  }

  lemma {:induction false} BurstCounts(run: seq<Attempt>, pair: Pair, at: int, k: nat, f: Fail, t: seq<int>)
    requires Stands(Reached(run), pair, f, t) && 1 <= Reached(run).now <= at && f.lockedUntil == 0
    requires at < f.firstAt + LOCK_MS && 0 < k && f.count + k <= MAX_FAILS
    ensures Stands(Reached(run + Burst(pair, at, k)), pair,
              Fail(f.count + k, f.firstAt, if f.count + k >= MAX_FAILS then at + LOCK_MS else 0), t + Same(at, k))
    ensures Reached(run + Burst(pair, at, k)).now == at
    decreases k
  {
    BurstGrows(run, pair, at, k);
    SameGrows(t, at, k);
    if k == 1 {
      NextFailure(Reached(run), pair, at, f, t);
    } else {
      BurstCounts(run, pair, at, k - 1, f, t);
      NextFailure(Reached(run + Burst(pair, at, k - 1)), pair, at, Fail(f.count + k - 1, f.firstAt, 0), t + Same(at, k - 1));
    }
  }

  lemma BurstGrows(run: seq<Attempt>, pair: Pair, at: int, k: nat)
    requires 0 < k
    ensures Reached(run + Burst(pair, at, k)) == Exec(Reached(run + Burst(pair, at, k - 1)), Attempt(pair, at, at, Wrong))
    ensures run + Burst(pair, at, 0) == run
  {
    var longer := run + Burst(pair, at, k);
    assert longer[..|longer| - 1] == run + Burst(pair, at, k - 1);
  }

  lemma SameGrows(t: seq<int>, at: int, k: nat)
    requires 0 < k
    ensures t + Same(at, k) == t + Same(at, k - 1) + [at] && t + Same(at, 0) == t
  {
  }

  /** One failure opens a window, three close it, five open the next one. */
  function EightFailures(pair: Pair): seq<Attempt> {
    Burst(pair, 1, 1) + Burst(pair, LOCK_MS, 3) + Burst(pair, 1 + LOCK_MS, 1) + Burst(pair, 1 + LOCK_MS, 4)
  }

  /** The window of the first burst, at its last failure. */
  lemma FirstWindow(pair: Pair)
    ensures var w := Reached(Burst(pair, 1, 1) + Burst(pair, LOCK_MS, 3));
            Stands(w, pair, Fail(4, 1, 0), [1] + Same(LOCK_MS, 3)) && w.now == LOCK_MS
  {
    BurstGrows([], pair, 1, 1);
    assert [] + Burst(pair, 1, 1) == Burst(pair, 1, 1);
    FirstFailure(Reached([]), pair, 1);
    assert [] + [1] == [1];
    BurstCounts(Burst(pair, 1, 1), pair, LOCK_MS, 3, Fail(1, 1, 0), [1]);
  }

  lemma EightFailuresStreak(pair: Pair)
    ensures var e := 1 + LOCK_MS;
            Streak(Reached(EightFailures(pair)).log, pair) == [1] + Same(LOCK_MS, 3) + [e] + Same(e, 4)
  {
    var e := 1 + LOCK_MS;
    var early := Burst(pair, 1, 1) + Burst(pair, LOCK_MS, 3);
    FirstWindow(pair);
    BurstGrows(early, pair, e, 1);
    FirstFailure(Reached(early), pair, e);
    BurstCounts(early + Burst(pair, e, 1), pair, e, 4, Fail(1, e, 0), [1] + Same(LOCK_MS, 3) + [e]);
  }

  lemma {:induction false} CountSame(t: seq<int>, at: int, k: nat, lo: int, hi: int)
    ensures CountIn(t + Same(at, k), lo, hi) == CountIn(t, lo, hi) + (if lo <= at < hi then k else 0)
    decreases k
  {
    var u := t + Same(at, k);
    if k == 0 {
      assert u == t;
    } else {
      assert u[..|u| - 1] == t + Same(at, k - 1);
      CountSame(t, at, k - 1, lo, hi);
    }
  }

  /** MAIN. Eight is reached: the bound is exact. */
  lemma EightHappen(pair: Pair)
    ensures CountIn(Streak(Reached(EightFailures(pair)).log, pair), 900_000, 1_800_000) == 8
  {
    var e, lo, hi := 1 + LOCK_MS, LOCK_MS, LOCK_MS + LOCK_MS;
    EightFailuresStreak(pair);
    assert Same(1, 1) == [1] && Same(e, 1) == [e] && [] + Same(1, 1) == [1];
    CountSame([], 1, 1, lo, hi);
    CountSame([1], LOCK_MS, 3, lo, hi);
    CountSame([1] + Same(LOCK_MS, 3), e, 1, lo, hi);
    CountSame([1] + Same(LOCK_MS, 3) + [e], e, 4, lo, hi);
  }

  // ---------------------------------------------------------------- what locking means

  /**
   MAIN. A pair is locked out only within fifteen minutes of a failure that was the
   fifth inside fifteen minutes with no success between.
   */
  lemma LockedOnlyAfterFive(run: seq<Attempt>, pair: Pair, check: int)
    requires Reached(run).now <= check && Locked(Reached(run).s, pair, check)
    ensures var t := Streak(Reached(run).log, pair); var n := |t|;
            n >= 5 && check < t[n - 1] + 900_000 && t[n - 1] < t[n - 5] + 900_000
  {
    RunTracked(run, pair);
  }

  /** MAIN. While locked every attempt is refused and no counter moves. */
  lemma LockedChangesNothing(w: World, a: Attempt)
    requires Locked(w.s, a.pair, a.check) && w.now <= a.check <= a.at && 0 <= a.check
    ensures Exec(w, a) == w.(now := a.at) && Login(w.s, a.pair, a.check, a.at, a.verdict).1 == LockedOut
  {
  }

  /** MAIN. A stranger cannot lock anybody out from elsewhere: other pairs never notice a login. */
  lemma OtherPairsUntouched(s: Counters, pair: Pair, check: int, at: int, verdict: Verdict, other: Pair)
    requires other != pair
    ensures var s' := Login(s, pair, check, at, verdict).0;
            (other in s'.pairs <==> other in s.pairs) && (other in s.pairs ==> s'.pairs[other] == s.pairs[other])
    ensures forall now :: Locked(Login(s, pair, check, at, verdict).0, other, now) == Locked(s, other, now)
  {
  }

  // ---------------------------------------------------------------- the email alert

  ghost predicate EmailOk(m: map<string, Fail>, email: string, t: seq<int>) {
    email in m ==> Counts(m[email], t) && m[email].lockedUntil == 0
  }

  /** Every alert in the log came at the twentieth failure of its email within fifteen minutes. */
  ghost predicate AlertJust(log: seq<Event>, k: nat)
    requires k < |log|
  {
    log[k].Failure? && log[k].alert ==>
      var t := Spray(log[..k + 1], log[k].pair.email);
      |t| >= 20 && t[|t| - 1] < t[|t| - 20] + 900_000
  }

  ghost predicate Sprayed(w: World) {
    && (forall email :: EmailOk(w.s.emails, email, Spray(w.log, email)))
    && (forall k :: 0 <= k < |w.log| ==> AlertJust(w.log, k))
  }

  lemma SprayStep(log: seq<Event>, e: Event, email: string)
    ensures Spray(log + [e], email) == if e.Failure? && e.pair.email == email then Spray(log, email) + [e.at] else Spray(log, email)
  {
    assert (log + [e])[..|log|] == log;
  }

  lemma OldAlertsStay(log: seq<Event>, e: Event, k: nat)
    requires k < |log| && AlertJust(log, k)
    ensures AlertJust(log + [e], k)
  {
    assert (log + [e])[..k + 1] == log[..k + 1];
  }

  /** The last failure is the one a counter counts next. */
  lemma EmailCounted(m: map<string, Fail>, email: string, t: seq<int>, at: int)
    requires EmailOk(m, email, t)
    ensures EmailOk(Counted(m, email, at, None), email, t + [at])
    ensures Current(m, email, at).count + 1 == ALERT_FAILS ==>
      |t + [at]| >= ALERT_FAILS && at < (t + [at])[|t| + 1 - ALERT_FAILS] + LOCK_MS
  {
  }

  lemma AttemptSprayed(w: World, a: Attempt)
    requires Sprayed(w)
    ensures Sprayed(Exec(w, a))
  {
    var w' := Exec(w, a);
    if w'.log != w.log {
      var e := w'.log[|w.log|];
      assert w'.log == w.log + [e];
      forall email ensures EmailOk(w'.s.emails, email, Spray(w'.log, email)) {
        SprayStep(w.log, e, email);
        assert EmailOk(w.s.emails, email, Spray(w.log, email));
        if e.Failure? && email == a.pair.email { EmailCounted(w.s.emails, email, Spray(w.log, email), a.at); }
      }
      forall k | 0 <= k < |w'.log| ensures AlertJust(w'.log, k) {
        if k < |w.log| { OldAlertsStay(w.log, e, k); } else { NewAlertJust(w, a, e); }
      }
    }
  }

  lemma NewAlertJust(w: World, a: Attempt, e: Event)
    requires Sprayed(w) && Exec(w, a).log == w.log + [e]
    ensures AlertJust(w.log + [e], |w.log|)
  {
    assert (w.log + [e])[..|w.log| + 1] == w.log + [e];
    if e.Failure? {
      SprayStep(w.log, e, a.pair.email);
      EmailCounted(w.s.emails, a.pair.email, Spray(w.log, a.pair.email), a.at);
    }
  }

  /** MAIN. An alert means twenty failures for the email in fifteen minutes, and the email counter never locks anyone. */
  lemma {:induction false} AlertMeansSpray(run: seq<Attempt>)
    ensures Sprayed(Reached(run))
    decreases |run|
  {
    if run != [] {
      AlertMeansSpray(run[..|run| - 1]);
      AttemptSprayed(Reached(run[..|run| - 1]), run[|run| - 1]);
    }
  }
}

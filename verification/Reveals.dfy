/**
 Phone reveals: every tap is a row, and a viewer may see only so many distinct
 people in any 24 hours. The cap depends on the viewer's age and travels.
 */
module Reveals {
  import opened Prelude

  const DAY_MS := 24 * 60 * 60 * 1000

  type User = nat

  datatype Row = Row(viewer: User, target: User, at: int)

  datatype Account = Account(createdAt: int, travelled: bool)

  /** The two daily caps and the age, in days, below which an account is young. */
  datatype Config = Config(newCap: nat, normalCap: nat, newDays: nat)

  // ---------------------------------------------------------------- the check

  /** The distinct people a viewer has been shown since a moment. */
  function Seen(rows: seq<Row>, viewer: User, since: int): set<User> {
    if rows == [] then {}
    else
      var last := rows[|rows| - 1];
      Seen(rows[..|rows| - 1], viewer, since) + (if last.viewer == viewer && last.at >= since then {last.target} else {})
  }

  lemma {:induction false} SeenMeans(rows: seq<Row>, viewer: User, since: int, target: User)
    ensures target in Seen(rows, viewer, since) <==> exists at :: at >= since && Row(viewer, target, at) in rows
  {
    if rows != [] {
      var front, last := rows[..|rows| - 1], rows[|rows| - 1];
      assert rows == front + [last];
      SeenMeans(front, viewer, since, target);
      if last == Row(viewer, target, last.at) && last.at >= since { assert Row(viewer, target, last.at) in rows; }
    }
  }

  predicate Young(c: Config, accounts: map<User, Account>, viewer: User, now: int) {
    viewer !in accounts || now - accounts[viewer].createdAt < c.newDays * DAY_MS
  }

  function DailyCap(c: Config, accounts: map<User, Account>, viewer: User, now: int): nat {
    if Young(c, accounts, viewer, now) then c.newCap
    else if accounts[viewer].travelled then c.normalCap
    else c.newCap
  }

  /** A tap is allowed for a person already shown today, or while the cap leaves room. */
  predicate Allowed(c: Config, rows: seq<Row>, accounts: map<User, Account>, viewer: User, target: User, now: int) {
    var seen := Seen(rows, viewer, now - DAY_MS);
    target in seen || |seen| < DailyCap(c, accounts, viewer, now)
  }

  /** The people the viewer was shown from the moment `since` on. */
  ghost predicate ShownSince(rows: seq<Row>, viewer: User, since: int, target: User) {
    exists i :: 0 <= i < |rows| && rows[i].viewer == viewer && rows[i].target == target && rows[i].at >= since
  }

  /**
   MAIN. A tap is allowed exactly for a person already shown in the last 24 hours, or
   while the people shown in them are fewer than the viewer's cap: the normal one for an
   account that exists, is `newDays` old and has travelled, and the new one for all others.
   */
  lemma AllowedExactly(c: Config, rows: seq<Row>, accounts: map<User, Account>, viewer: User, target: User, now: int, shown: set<User>)
    requires forall t :: t in shown <==> ShownSince(rows, viewer, now - 86_400_000, t)
    ensures var grown := viewer in accounts && now >= accounts[viewer].createdAt + c.newDays * 86_400_000 && accounts[viewer].travelled;
            Allowed(c, rows, accounts, viewer, target, now) <==>
              target in shown || |shown| < (if grown then c.normalCap else c.newCap)
  {
    forall t ensures t in Seen(rows, viewer, now - 86_400_000) <==> t in shown {
      SeenMeans(rows, viewer, now - 86_400_000, t);
      if ShownSince(rows, viewer, now - 86_400_000, t) {
        var i :| 0 <= i < |rows| && rows[i].viewer == viewer && rows[i].target == t && rows[i].at >= now - 86_400_000;
        assert Row(viewer, t, rows[i].at) in rows;
      }
    }
    assert Seen(rows, viewer, now - 86_400_000) == shown;
  }

  /** The audit table. */
  class Contacts {
    const config: Config
    var rows: seq<Row>

    constructor (config: Config)
      ensures rows == [] && this.config == config
    {
      this.config := config;
      rows := [];
    }

    /** Check and insert under the viewer's lock; the row is stamped at `at`, after the check at `now`. */
    method AuditWithinLimit(viewer: User, target: User, accounts: map<User, Account>, now: int, at: int) returns (allowed: bool)
      modifies this
      ensures allowed <==> Allowed(config, old(rows), accounts, viewer, target, now)
      ensures rows == if allowed then old(rows) + [Row(viewer, target, at)] else old(rows)
    {
      var since := now - DAY_MS;
      var seen: set<User> := {};
      for i := 0 to |rows|
        invariant rows == old(rows)
        invariant seen == Seen(rows[..i], viewer, since)
      {
        if rows[i].viewer == viewer && rows[i].at >= since { seen := seen + {rows[i].target}; }
        SeenSnoc(rows[..i], rows[i], viewer, since);
        assert rows[..i + 1] == rows[..i] + [rows[i]];
      }
      assert rows[..|rows|] == rows;
      if target !in seen {
        var cap := DailyCap(config, accounts, viewer, now);
        if |seen| >= cap { return false; }
      }
      rows := rows + [Row(viewer, target, at)];
      allowed := true;
    }
  }

  lemma SeenSnoc(rows: seq<Row>, row: Row, viewer: User, since: int)
    ensures Seen(rows + [row], viewer, since) ==
      Seen(rows, viewer, since) + (if row.viewer == viewer && row.at >= since then {row.target} else {})
  {
    assert (rows + [row])[..|rows|] == rows;
  }

  // ---------------------------------------------------------------- runs

  datatype System = System(clock: int, accounts: map<User, Account>, rows: seq<Row>)

  datatype Step =
    | Tick(d: nat)
    | Join(user: User)
    | Travel(user: User)                         // the first completed ride
    | Tap(viewer: User, target: User, lag: nat)  // the row is stamped `lag` after the check

  function Exec(c: Config, s: System, step: Step): System {
    match step
    case Tick(d) => s.(clock := s.clock + d)
    case Join(user) => if user in s.accounts then s else s.(accounts := s.accounts[user := Account(s.clock, false)])
    case Travel(user) =>
      if user in s.accounts then s.(accounts := s.accounts[user := s.accounts[user].(travelled := true)]) else s
    case Tap(viewer, target, lag) =>
      if Allowed(c, s.rows, s.accounts, viewer, target, s.clock)
      then s.(clock := s.clock + lag, rows := s.rows + [Row(viewer, target, s.clock + lag)])
      else s
  }

  function Reached(c: Config, steps: seq<Step>): System
    decreases |steps|
  {
    if steps == [] then System(0, map[], []) else Exec(c, Reached(c, steps[..|steps| - 1]), steps[|steps| - 1])
  }

  /** The distinct people shown to a viewer in the last 24 hours. */
  function Today(s: System, viewer: User): set<User> { Seen(s.rows, viewer, s.clock - DAY_MS) }

  function CapNow(c: Config, s: System, viewer: User): nat { DailyCap(c, s.accounts, viewer, s.clock) }

  predicate WithinCap(c: Config, s: System, viewer: User) { |Today(s, viewer)| <= CapNow(c, s, viewer) }

  lemma SubsetSize(a: set<User>, b: set<User>)
    requires a <= b
    ensures |a| <= |b|
  {
    if a != {} {
      var x :| x in a;
      SubsetSize(a - {x}, b - {x});
    }
  }

  lemma {:induction false} SeenShrinks(rows: seq<Row>, viewer: User, since: int, later: int)
    requires since <= later
    ensures Seen(rows, viewer, later) <= Seen(rows, viewer, since)
  {
    if rows != [] { SeenShrinks(rows[..|rows| - 1], viewer, since, later); }
  }

  /** Time only forgets reveals. */
  lemma SeenLater(rows: seq<Row>, viewer: User, since: int, later: int)
    requires since <= later
    ensures |Seen(rows, viewer, later)| <= |Seen(rows, viewer, since)|
  {
    SeenShrinks(rows, viewer, since, later);
    SubsetSize(Seen(rows, viewer, later), Seen(rows, viewer, since));
  }

  /** The cap only rises with age. */
  lemma CapRises(c: Config, accounts: map<User, Account>, who: User, now: int, later: int)
    requires c.newCap <= c.normalCap && now <= later
    ensures DailyCap(c, accounts, who, now) <= DailyCap(c, accounts, who, later)
  {
  }

  /** Waiting keeps the day's people within the cap: time forgets reveals and raises caps. */
  lemma WaitKeeps(c: Config, s: System, d: nat, who: User)
    requires c.newCap <= c.normalCap && WithinCap(c, s, who)
    ensures WithinCap(c, s.(clock := s.clock + d), who)
  {
    SeenLater(s.rows, who, s.clock - DAY_MS, s.clock + d - DAY_MS);
    CapRises(c, s.accounts, who, s.clock, s.clock + d);
  }

  /** An allowed tap, and the moment its row is stamped. */
  function Tapped(s: System, viewer: User, target: User, at: int): System {
    System(s.clock, s.accounts, s.rows + [Row(viewer, target, at)])
  }

  lemma AllowedTap(c: Config, s: System, viewer: User, target: User, lag: nat)
    requires Allowed(c, s.rows, s.accounts, viewer, target, s.clock)
    ensures var s1 := Tapped(s, viewer, target, s.clock + lag);
            Exec(c, s, Tap(viewer, target, lag)) == s1.(clock := s1.clock + lag)
  {
  }

  lemma TappedToday(s: System, viewer: User, target: User, at: int, who: User)
    requires s.clock <= at
    ensures Today(Tapped(s, viewer, target, at), who) == Today(s, who) + (if who == viewer then {target} else {})
  {
    SeenSnoc(s.rows, Row(viewer, target, at), who, s.clock - DAY_MS);
  }

  /** One more person where one is known already, or where the cap leaves room. */
  lemma OneMoreFits(seen: set<User>, target: User, cap: nat)
    requires |seen| <= cap && (target in seen || |seen| < cap)
    ensures |seen + {target}| <= cap
  {
    if target in seen { assert seen + {target} == seen; }
  }

  /** An allowed tap leaves the day's people within the cap, right after its check. */
  lemma TappedFits(c: Config, s: System, viewer: User, target: User, lag: nat, who: User)
    requires WithinCap(c, s, who) && Allowed(c, s.rows, s.accounts, viewer, target, s.clock)
    ensures WithinCap(c, Tapped(s, viewer, target, s.clock + lag), who)
  {
    TappedToday(s, viewer, target, s.clock + lag, who);
    if who == viewer {
      OneMoreFits(Today(s, who), target, CapNow(c, s, who));
    } else {
      assert Today(s, who) + {} == Today(s, who);
    }
  }

  lemma TapKeeps(c: Config, s: System, viewer: User, target: User, lag: nat, who: User)
    requires c.newCap <= c.normalCap && WithinCap(c, s, who)
    ensures WithinCap(c, Exec(c, s, Tap(viewer, target, lag)), who)
  {
    if Allowed(c, s.rows, s.accounts, viewer, target, s.clock) {
      AllowedTap(c, s, viewer, target, lag);
      TappedFits(c, s, viewer, target, lag, who);
      WaitKeeps(c, Tapped(s, viewer, target, s.clock + lag), lag, who);
    }
  }

  lemma StepKeeps(c: Config, s: System, step: Step, who: User)
    requires c.newCap <= c.normalCap && WithinCap(c, s, who)
    ensures WithinCap(c, Exec(c, s, step), who)
  {
    match step
    case Tick(d) => WaitKeeps(c, s, d, who);
    case Join(user) =>
    case Travel(user) =>
    case Tap(viewer, target, lag) => TapKeeps(c, s, viewer, target, lag, who);
  }

  lemma {:induction false} CapHolds(c: Config, steps: seq<Step>, who: User)
    requires c.newCap <= c.normalCap
    ensures WithinCap(c, Reached(c, steps), who)
    decreases |steps|
  {
    if steps != [] {
      CapHolds(c, steps[..|steps| - 1], who);
      StepKeeps(c, Reached(c, steps[..|steps| - 1]), steps[|steps| - 1], who);
    }
  }

  // ---------------------------------------------------------------- when the cap can fall

  /** Grow old without travelling, see `k` people, each once. */
  function Spree(c: Config, k: nat): seq<Step> {
    if k == 0 then [Join(0), Tick(c.newDays * DAY_MS)] else Spree(c, k - 1) + [Tap(0, k, 0)]
  }

  /** `k` different people. */
  function People(k: nat): (r: set<User>)
    ensures |r| == k && forall t :: t in r ==> 1 <= t <= k
  {
    if k == 0 then {} else People(k - 1) + {k}
  }

  /** Grown up, not travelled, and shown exactly `k` people today. */
  ghost predicate Shown(c: Config, s: System, k: nat) {
    s.clock == c.newDays * DAY_MS && s.accounts == map[0 := Account(0, false)] && Today(s, 0) == People(k)
  }

  lemma ReachedSnoc(c: Config, steps: seq<Step>, step: Step)
    ensures Reached(c, steps + [step]) == Exec(c, Reached(c, steps), step)
  {
    assert (steps + [step])[..|steps|] == steps;
  }

  lemma NewcomerGrowsUp(c: Config)
    ensures Shown(c, Reached(c, Spree(c, 0)), 0)
  {
    ReachedSnoc(c, [], Join(0));
    ReachedSnoc(c, [Join(0)], Tick(c.newDays * DAY_MS));
    assert [] + [Join(0)] == [Join(0)] && [Join(0)] + [Tick(c.newDays * DAY_MS)] == Spree(c, 0);
  }

  lemma RoomLeft(c: Config, s: System, k: nat, target: User)
    requires Shown(c, s, k) && k < c.newCap
    ensures Allowed(c, s.rows, s.accounts, 0, target, s.clock)
  {
    assert s.accounts[0] == Account(0, false);
    assert |Today(s, 0)| == k;
  }

  lemma TapShows(c: Config, s: System, k: nat)
    requires Shown(c, s, k) && Allowed(c, s.rows, s.accounts, 0, k + 1, s.clock)
    ensures Shown(c, Exec(c, s, Tap(0, k + 1, 0)), k + 1)
  {
    AllowedTap(c, s, 0, k + 1, 0);
    TappedShows(c, s, k);
    var s1 := Tapped(s, 0, k + 1, s.clock);
    assert s1.(clock := s1.clock + 0) == s1;
  }

  lemma TappedShows(c: Config, s: System, k: nat)
    requires Shown(c, s, k)
    ensures Shown(c, Tapped(s, 0, k + 1, s.clock), k + 1)
  {
    SeenSnoc(s.rows, Row(0, k + 1, s.clock), 0, s.clock - DAY_MS);
  }

  lemma {:induction false} SpreeShows(c: Config, k: nat)
    requires k <= c.newCap
    ensures Shown(c, Reached(c, Spree(c, k)), k)
  {
    if k == 0 {
      NewcomerGrowsUp(c);
    } else {
      SpreeShows(c, k - 1);
      ReachedSnoc(c, Spree(c, k - 1), Tap(0, k, 0));
      RoomLeft(c, Reached(c, Spree(c, k - 1)), k - 1, k);
      TapShows(c, Reached(c, Spree(c, k - 1)), k - 1);
    }
  }

  /** The spree followed by a first completed ride: the cap falls below what was shown. */
  lemma SpreeBreaks(c: Config)
    requires c.normalCap < c.newCap
    ensures !BoundedRun(c, Spree(c, c.newCap) + [Travel(0)], 0)
  {
    SpreeShows(c, c.newCap);
    ReachedSnoc(c, Spree(c, c.newCap), Travel(0));
  }

  predicate BoundedRun(c: Config, steps: seq<Step>, who: User) { WithinCap(c, Reached(c, steps), who) }

  /**
   MAIN. At every instant of every run the distinct people shown in the last 24
   hours are within the cap in force - exactly when a new account's cap is no
   larger than the normal one. Repeat taps add rows and refresh times unchecked.
   */
  lemma CapHoldsExactly(c: Config)
    ensures c.newCap <= c.normalCap <==>
      forall steps, who :: BoundedRun(c, steps, who)
  {
    if c.newCap <= c.normalCap {
      forall steps, who ensures BoundedRun(c, steps, who) { CapHolds(c, steps, who); }
    } else {
      SpreeBreaks(c);
    }
  }

  /** MAIN. A person shown within the day can always be shown again, whatever the cap. */
  lemma RepeatIsFree(c: Config, s: System, viewer: User, target: User, lag: nat)
    requires target in Today(s, viewer)
    ensures var s' := Exec(c, s, Tap(viewer, target, lag));
            |s'.rows| == |s.rows| + 1 && target in Seen(s'.rows, viewer, s'.clock) && (lag == 0 ==> Today(s', viewer) == Today(s, viewer))
  {
    SeenSnoc(s.rows, Row(viewer, target, s.clock + lag), viewer, s.clock + lag);
    SeenSnoc(s.rows, Row(viewer, target, s.clock + lag), viewer, s.clock - DAY_MS);
  }
}

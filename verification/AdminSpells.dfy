/**
 What the lockout's counters amount to, read off the log alone: when exactly a pair
 is locked, and when exactly an alert is raised.
 */
module AdminSpells {
  import opened Prelude
  import opened AdminLockout

  /** A spell of failures: it starts with one, and takes in each next one less than fifteen minutes after its first. */
  datatype Spell = Spell(count: nat, first: int)

  /** The spell the last of the failures belongs to. */
  function LastSpell(t: seq<int>): Spell {
    if t == [] then Spell(0, 0)
    else
      var s, x := LastSpell(t[..|t| - 1]), t[|t| - 1];
      if s.count == 0 || x - s.first >= 900_000 then Spell(1, x) else Spell(s.count + 1, s.first)
  }

  lemma SpellStep(t: seq<int>, x: int)
    ensures LastSpell(t + [x]) ==
      var s := LastSpell(t); if s.count == 0 || x - s.first >= 900_000 then Spell(1, x) else Spell(s.count + 1, s.first)
  {
    assert (t + [x])[..|t|] == t;
  }

  // ---------------------------------------------------------------- the lock

  /** The pair's counter holds its last spell, or the spell is over: fifteen minutes after the fifth failure, or after the first. */
  ghost predicate SpellKept(m: map<Pair, Fail>, pair: Pair, t: seq<int>, now: int) {
    var s := LastSpell(t);
    if t == [] then pair !in m
    else
      var last := t[|t| - 1];
      && 1 <= s.first <= last <= now && 1 <= s.count <= 5
      && (if pair in m then m[pair] == Fail(s.count, s.first, if s.count == 5 then last + 900_000 else 0)
          else if s.count == 5 then now >= last + 900_000 else now >= s.first + 900_000)
  }

  ghost predicate Kept(w: World, pair: Pair) { 1 <= w.now && SpellKept(w.s.pairs, pair, Streak(w.log, pair), w.now) }

  lemma SweptKept(m: map<Pair, Fail>, pair: Pair, t: seq<int>, now: int, later: int)
    requires SpellKept(m, pair, t, now) && now <= later
    ensures SpellKept(Swept(m, pair, later), pair, t, later)
    ensures pair in Swept(m, pair, later) ==> !Expired(m[pair], later)
  {
  }

  lemma RecordedKept(m: map<Pair, Fail>, pair: Pair, t: seq<int>, now: int)
    requires SpellKept(m, pair, t, now) && 1 <= now
    requires pair in m ==> m[pair].lockedUntil == 0 && !Expired(m[pair], now)
    ensures SpellKept(Counted(m, pair, now, Some(MAX_FAILS)), pair, t + [now], now)
  {
    SpellStep(t, now);
  }

  lemma WrongKept(w: World, a: Attempt)
    requires Kept(w, a.pair) && w.now <= a.check <= a.at && a.verdict == Wrong && !Locked(w.s, a.pair, a.check)
    ensures Kept(Exec(w, a), a.pair)
  {
    var t, m := Streak(w.log, a.pair), Swept(w.s.pairs, a.pair, a.check);
    SweptKept(w.s.pairs, a.pair, t, w.now, a.check);
    SweptKept(m, a.pair, t, a.check, a.at);
    RecordedKept(Swept(m, a.pair, a.at), a.pair, t, a.at);
    SweptCounts(m, a.pair, a.at);
    StreakStep(w.log, Failure(a.pair, a.at, Alerts(w.s.(pairs := m), a.pair, a.at)), a.pair);
  }

  lemma OtherKept(w: World, a: Attempt, pair: Pair)
    requires Kept(w, pair) && pair != a.pair
    ensures Kept(Exec(w, a), pair)
  {
    OtherPairsUntouched(w.s, a.pair, a.check, a.at, a.verdict, pair);
    OthersStreak(w, a, pair);
  }

  lemma SweepOnlyKept(w: World, a: Attempt)
    requires Kept(w, a.pair) && w.now <= a.check <= a.at && (a.verdict == Misconfigured || Locked(w.s, a.pair, a.check))
    ensures Kept(Exec(w, a), a.pair)
  {
    var t, m := Streak(w.log, a.pair), Swept(w.s.pairs, a.pair, a.check);
    SweptKept(w.s.pairs, a.pair, t, w.now, a.check);
    assert Exec(w, a) == World(w.s.(pairs := m), w.log, a.at);
  }

  lemma AttemptKept(w: World, a: Attempt, pair: Pair)
    requires Kept(w, pair)
    ensures Kept(Exec(w, a), pair)
  {
    if pair != a.pair {
      OtherKept(w, a, pair);
    } else if w.now <= a.check <= a.at {
      if a.verdict == Misconfigured || Locked(w.s, a.pair, a.check) {
        SweepOnlyKept(w, a);
      } else if a.verdict == Right {
        StreakStep(w.log, Success(a.pair), a.pair);
      } else {
        WrongKept(w, a);
      }
    }
  }

  lemma {:induction false} RunKept(run: seq<Attempt>, pair: Pair)
    ensures Kept(Reached(run), pair)
    decreases |run|
  {
    if run != [] {
      RunKept(run[..|run| - 1], pair);
      AttemptKept(Reached(run[..|run| - 1]), run[|run| - 1], pair);
    }
  }

  /**
   MAIN. After any run, a pair is locked exactly when its last spell of failures since
   its last success has five, and the fifth is less than fifteen minutes ago.
   */
  lemma LockedExactly(run: seq<Attempt>, pair: Pair, check: int)
    requires Reached(run).now <= check
    ensures var t := Streak(Reached(run).log, pair);
            Locked(Reached(run).s, pair, check) <==> LastSpell(t).count == 5 && t != [] && check < t[|t| - 1] + 900_000
  {
    RunKept(run, pair);
  }

  /** MAIN. A login not locked out is decided by its verdict: a wrong one is refused and counted, a right one clears the pair. */
  lemma VerdictDecides(run: seq<Attempt>, a: Attempt)
    requires Reached(run).now <= a.check <= a.at && !Locked(Reached(run).s, a.pair, a.check)
    ensures var w := Reached(run); var w' := Exec(w, a);
            match a.verdict
            case Wrong => |w'.log| == |w.log| + 1 && w'.log[|w.log|].Failure? && w'.log[|w.log|].pair == a.pair && w'.log[|w.log|].at == a.at
            case Right => w'.log == w.log + [Success(a.pair)] && a.pair !in w'.s.pairs && w'.s.emails == w.s.emails
            case Misconfigured => w'.log == w.log && w'.s.emails == w.s.emails
  {
  }

  // ---------------------------------------------------------------- the alert

  /** An email's counter holds the last spell of its failures from anywhere. */
  ghost predicate EmailKept(m: map<string, Fail>, email: string, t: seq<int>) {
    if t == [] then email !in m else email in m && m[email] == Fail(LastSpell(t).count, LastSpell(t).first, 0)
  }

  lemma CountedKept(m: map<string, Fail>, email: string, t: seq<int>, at: int)
    requires EmailKept(m, email, t)
    ensures EmailKept(Counted(m, email, at, None), email, t + [at])
    ensures Current(m, email, at).count + 1 == LastSpell(t + [at]).count
  {
    SpellStep(t, at);
    CountPositive(t);
  }

  lemma CountPositive(t: seq<int>)
    ensures t != [] ==> LastSpell(t).count >= 1
  {
  }

  /** Event `k` alerts exactly if it is the twentieth failure of its email's spell. */
  ghost predicate AlertRight(log: seq<Event>, k: nat)
    requires k < |log|
  {
    log[k].Failure? ==> (log[k].alert <==> LastSpell(Spray(log[..k + 1], log[k].pair.email)).count == 20)
  }

  ghost predicate Alarmed(w: World) {
    && (forall email :: EmailKept(w.s.emails, email, Spray(w.log, email)))
    && (forall k :: 0 <= k < |w.log| ==> AlertRight(w.log, k))
  }

  lemma OldAlertRight(log: seq<Event>, e: Event, k: nat)
    requires k < |log| && AlertRight(log, k)
    ensures AlertRight(log + [e], k)
  {
    assert (log + [e])[..k + 1] == log[..k + 1];
  }

  lemma NewAlertRight(w: World, a: Attempt, e: Event)
    requires Alarmed(w) && Exec(w, a).log == w.log + [e]
    ensures AlertRight(w.log + [e], |w.log|)
  {
    assert (w.log + [e])[..|w.log| + 1] == w.log + [e];
    if e.Failure? {
      SprayStep(w.log, e, a.pair.email);
      assert EmailKept(w.s.emails, a.pair.email, Spray(w.log, a.pair.email));
      CountedKept(w.s.emails, a.pair.email, Spray(w.log, a.pair.email), a.at);
    }
  }

  lemma AttemptAlarmed(w: World, a: Attempt)
    requires Alarmed(w)
    ensures Alarmed(Exec(w, a))
  {
    var w' := Exec(w, a);
    if w'.log != w.log {
      var e := w'.log[|w.log|];
      assert w'.log == w.log + [e];
      forall email ensures EmailKept(w'.s.emails, email, Spray(w'.log, email)) {
        SprayStep(w.log, e, email);
        assert EmailKept(w.s.emails, email, Spray(w.log, email));
        if e.Failure? && email == a.pair.email { CountedKept(w.s.emails, email, Spray(w.log, email), a.at); }
      }
      forall k | 0 <= k < |w'.log| ensures AlertRight(w'.log, k) {
        if k < |w.log| { OldAlertRight(w.log, e, k); } else { NewAlertRight(w, a, e); }
      }
    }
  }

  /** MAIN. In every run an alert is raised at exactly the twentieth failure of a spell of an email, from whatever addresses. */
  lemma {:induction false} AlertExactly(run: seq<Attempt>)
    ensures Alarmed(Reached(run))
    decreases |run|
  {
    if run != [] {
      AlertExactly(run[..|run| - 1]);
      AttemptAlarmed(Reached(run[..|run| - 1]), run[|run| - 1]);
    }
  }
}

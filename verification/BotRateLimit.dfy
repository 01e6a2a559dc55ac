/**
 The bot's flood guard: thirty updates a minute per user, one notice per burst,
 and a map of users that is pruned when it grows too large.
 */
module BotRateLimit {
  import opened Prelude
  import opened Windows
  import opened WindowLimiter

  const BOT_LIMIT := 30
  const BOT_WINDOW_MS := 60_000
  const MAX_TRACKED := 10_000

  datatype Entry = Entry(times: seq<int>, warned: bool)

  type Hits = map<int, Entry>

  /** What the user gets: the update passes, one notice, or silence. */
  datatype Reply = Passed | Noticed | Dropped

  predicate Stale(e: Entry, now: int) { e.times == [] || now - e.times[|e.times| - 1] > BOT_WINDOW_MS }

  function Pruned(hits: Hits, now: int): Hits { map id | id in hits && !Stale(hits[id], now) :: hits[id] }

  /** A map is pruned when it tracks more users than `most`; without a bound, never. */
  function Trimmed(most: Option<nat>, hits: Hits, now: int): Hits {
    if most.Some? && |hits| > most.value then Pruned(hits, now) else hits
  }

  function Serve(hits: Hits, id: int, now: int): (Hits, Reply) {
    var s := if id in hits then hits[id] else Entry([], false);
    var times := Shifted(s.times, now, BOT_WINDOW_MS);
    if |times| >= BOT_LIMIT then (hits[id := Entry(times, true)], if s.warned then Dropped else Noticed)
    else (hits[id := Entry(times + [now], false)], Passed)
  }

  class BotRateLimiter {
    var hits: Hits

    constructor ()
      ensures hits == map[]
    {
      hits := map[];
    }

    method Prune(now: int)
      modifies this
      ensures hits == Pruned(old(hits), now)
    {
      var ids: set<int> := hits.Keys;
      while ids != {}
        invariant ids <= old(hits).Keys
        invariant forall id :: id in hits <==> id in old(hits) && (id in ids || !Stale(old(hits)[id], now))
        invariant forall id :: id in hits ==> hits[id] == old(hits)[id]
        decreases |ids|
      {
        HasElement(ids);
        var id: int :| id in ids;
        if Stale(hits[id], now) { hits := hits - {id}; }
        ids := ids - {id};
      }
      assert forall id :: id in hits <==> id in Pruned(old(hits), now);
      assert forall id :: id in hits ==> hits[id] == Pruned(old(hits), now)[id];
    }

    method OnUpdate(id: int, now: int) returns (reply: Reply)
      modifies this
      ensures (hits, reply) == Serve(Trimmed(Some(10_000), old(hits), now), id, now)
    {
      if |hits| > MAX_TRACKED { Prune(now); }
      var s := if id in hits then hits[id] else Entry([], false);
      var times := s.times;
      ghost var k := 0;
      while times != [] && now - times[0] > BOT_WINDOW_MS
        invariant k <= |s.times| && times == s.times[k..]
        invariant Skip(s.times, now, BOT_WINDOW_MS, k) == Skip(s.times, now, BOT_WINDOW_MS, 0)
        decreases |times|
      {
        times := times[1..];
        k := k + 1;
      }
      if |times| >= BOT_LIMIT {
        hits := hits[id := Entry(times, true)];
        reply := if s.warned then Dropped else Noticed;
        return;
      }
      hits := hits[id := Entry(times + [now], false)];
      reply := Passed;
    }
  }

  /** MAIN. Pruning keeps exactly the users whose last pass is at most a minute old, as they were. */
  lemma PrunedExactly(hits: Hits, now: int)
    ensures forall id :: id in Pruned(hits, now) <==>
              id in hits && hits[id].times != [] && now <= hits[id].times[|hits[id].times| - 1] + 60_000
    ensures forall id :: id in Pruned(hits, now) ==> Pruned(hits, now)[id] == hits[id]
  {
  }

  lemma HasElement(s: set<int>)
    ensures s == {} || exists x :: x in s
  {
    if forall x :: x !in s { assert s == {}; }
  }

  // ---------------------------------------------------------------- runs

  datatype Update = Update(id: int, at: int)

  datatype Event = Event(id: int, at: int, reply: Reply)

  datatype Guard = Guard(hits: Hits, log: seq<Event>, now: int)

  /** An update at a moment that is not before the last one. */
  function Exec(most: Option<nat>, w: Guard, u: Update): Guard {
    if u.at < w.now then w
    else
      var (hits, reply) := Serve(Trimmed(most, w.hits, u.at), u.id, u.at);
      Guard(hits, w.log + [Event(u.id, u.at, reply)], u.at)
  }

  function Reached(most: Option<nat>, updates: seq<Update>): Guard
    decreases |updates|
  {
    if updates == [] then Guard(map[], [], 0) else Exec(most, Reached(most, updates[..|updates| - 1]), updates[|updates| - 1])
  }

  // ---------------------------------------------------------------- the answer from the log alone

  /** The moments a user's updates passed. */
  function Passes(log: seq<Event>, id: int): seq<int> {
    if log == [] then []
    else
      var front, last := Passes(log[..|log| - 1], id), log[|log| - 1];
      if last.id == id && last.reply == Passed then front + [last.at] else front
  }

  /** The user has had a notice since his last update that passed. */
  predicate NoticedSincePass(log: seq<Event>, id: int) {
    log != [] &&
    var last := log[|log| - 1];
    if last.id == id && last.reply != Dropped then last.reply == Noticed else NoticedSincePass(log[..|log| - 1], id)
  }

  /** What the guard promises, without its map. */
  function Promised(log: seq<Event>, id: int, at: int): Reply {
    if CountIn(Passes(log, id), at - 60_000, at + 1) < 30 then Passed
    else if NoticedSincePass(log, id) then Dropped
    else Noticed
  }

  lemma LogStep(log: seq<Event>, e: Event, id: int)
    ensures Passes(log + [e], id) == if e.id == id && e.reply == Passed then Passes(log, id) + [e.at] else Passes(log, id)
    ensures NoticedSincePass(log + [e], id) ==
      if e.id == id && e.reply != Dropped then e.reply == Noticed else NoticedSincePass(log, id)
  {
    assert (log + [e])[..|log|] == log;
  }

  /** What the map knows of a user: his recent passes and his notice - or he has no recent pass. */
  ghost predicate Knows(hits: Hits, log: seq<Event>, id: int, now: int) {
    if id in hits
    then Keeps(hits[id].times, Passes(log, id), now, BOT_WINDOW_MS) && hits[id].warned == NoticedSincePass(log, id)
    else Keeps([], Passes(log, id), now, BOT_WINDOW_MS)
  }

  lemma KeepsLater(times: seq<int>, passes: seq<int>, now: int, at: int)
    requires Keeps(times, passes, now, BOT_WINDOW_MS) && now <= at
    ensures Keeps(times, passes, at, BOT_WINDOW_MS)
  {
  }

  /** A stale user has no pass in the window. */
  lemma StaleForgets(e: Entry, passes: seq<int>, at: int)
    requires Keeps(e.times, passes, at, BOT_WINDOW_MS) && Stale(e, at)
    ensures Keeps([], passes, at, BOT_WINDOW_MS)
  {
    if e.times != [] {
      assert e.times[|e.times| - 1] == passes[|passes| - 1];
      forall i | 0 <= i < |passes| ensures at - passes[i] > BOT_WINDOW_MS { assert passes[i] <= passes[|passes| - 1]; }
    }
  }

  /** Pruning forgets only users with nothing in the window. */
  lemma TrimKnows(most: Option<nat>, hits: Hits, log: seq<Event>, id: int, now: int, at: int)
    requires Knows(hits, log, id, now) && now <= at
    ensures Knows(Trimmed(most, hits, at), log, id, at)
  {
    TrimmedHas(most, hits, id, at);
    if id !in hits {
      KeepsLater([], Passes(log, id), now, at);
    } else {
      KeepsLater(hits[id].times, Passes(log, id), now, at);
      if id !in Trimmed(most, hits, at) { StaleForgets(hits[id], Passes(log, id), at); }
    }
  }

  lemma TrimmedHas(most: Option<nat>, hits: Hits, id: int, at: int)
    ensures id in Trimmed(most, hits, at) ==> id in hits && Trimmed(most, hits, at)[id] == hits[id]
    ensures id in hits && id !in Trimmed(most, hits, at) ==> Stale(hits[id], at)
  {
  }

  /** How many of a known user's kept moments are left at `at`: his passes of the last window. */
  lemma KeptCounts(times: seq<int>, passes: seq<int>, at: int)
    requires Keeps(times, passes, at, BOT_WINDOW_MS)
    ensures var kept := Shifted(times, at, BOT_WINDOW_MS);
            && |kept| == CountIn(passes, at - BOT_WINDOW_MS, at + 1)
            && Keeps(kept, passes, at, BOT_WINDOW_MS) && Keeps(kept + [at], passes + [at], at, BOT_WINDOW_MS)
  {
    ShiftCounts(times, passes, at, at, BOT_WINDOW_MS);
    AcceptKeeps(Shifted(times, at, BOT_WINDOW_MS), passes, at, BOT_WINDOW_MS);
  }

  /** An answer from a map that knows the user is the promised one. */
  lemma ServePromised(hits: Hits, log: seq<Event>, id: int, at: int)
    requires Knows(hits, log, id, at)
    ensures Serve(hits, id, at).1 == Promised(log, id, at)
  {
    KeptCounts(if id in hits then hits[id].times else [], Passes(log, id), at);
  }

  /** Over the limit: the moments kept are the passes of the window, and the notice is noted. */
  lemma OverLimitKnows(hits: Hits, log: seq<Event>, id: int, at: int, kept: seq<int>, reply: Reply)
    requires Keeps(kept, Passes(log, id), at, BOT_WINDOW_MS)
    requires reply == Noticed || (reply == Dropped && NoticedSincePass(log, id))
    ensures Knows(hits[id := Entry(kept, true)], log + [Event(id, at, reply)], id, at)
  {
    LogStep(log, Event(id, at, reply), id);
  }

  /** Under it: one more pass, no notice since. */
  lemma UnderLimitKnows(hits: Hits, log: seq<Event>, id: int, at: int, kept: seq<int>)
    requires Keeps(kept + [at], Passes(log, id) + [at], at, BOT_WINDOW_MS)
    ensures Knows(hits[id := Entry(kept + [at], false)], log + [Event(id, at, Passed)], id, at)
  {
    LogStep(log, Event(id, at, Passed), id);
  }

  /** The user's moments still in the window at `at`. */
  function Recent(hits: Hits, id: int, at: int): seq<int> {
    Shifted(if id in hits then hits[id].times else [], at, BOT_WINDOW_MS)
  }

  lemma RecentKeeps(hits: Hits, log: seq<Event>, id: int, at: int)
    requires Knows(hits, log, id, at)
    ensures var kept := Recent(hits, id, at); var passes := Passes(log, id);
            Keeps(kept, passes, at, BOT_WINDOW_MS) && Keeps(kept + [at], passes + [at], at, BOT_WINDOW_MS)
    ensures id in hits && hits[id].warned ==> NoticedSincePass(log, id)
  {
    KeptCounts(if id in hits then hits[id].times else [], Passes(log, id), at);
  }

  lemma ServeOver(hits: Hits, id: int, at: int)
    requires |Recent(hits, id, at)| >= BOT_LIMIT
    ensures Serve(hits, id, at) ==
      (hits[id := Entry(Recent(hits, id, at), true)], if id in hits && hits[id].warned then Dropped else Noticed)
  {
  }

  lemma ServeUnder(hits: Hits, id: int, at: int)
    requires |Recent(hits, id, at)| < BOT_LIMIT
    ensures Serve(hits, id, at) == (hits[id := Entry(Recent(hits, id, at) + [at], false)], Passed)
  {
  }

  /** The map still knows the user after answering him. */
  lemma ServeKnows(hits: Hits, log: seq<Event>, id: int, at: int)
    requires Knows(hits, log, id, at)
    ensures Knows(Serve(hits, id, at).0, log + [Event(id, at, Serve(hits, id, at).1)], id, at)
  {
    RecentKeeps(hits, log, id, at);
    if |Recent(hits, id, at)| >= BOT_LIMIT {
      ServeOver(hits, id, at);
      OverLimitKnows(hits, log, id, at, Recent(hits, id, at), Serve(hits, id, at).1);
    } else {
      ServeUnder(hits, id, at);
      UnderLimitKnows(hits, log, id, at, Recent(hits, id, at));
    }
  }

  lemma OthersKnown(hits: Hits, log: seq<Event>, id: int, at: int, other: int)
    requires Knows(hits, log, other, at) && other != id
    ensures var (hits', reply) := Serve(hits, id, at); Knows(hits', log + [Event(id, at, reply)], other, at)
  {
    LogStep(log, Event(id, at, Serve(hits, id, at).1), other);
  }

  lemma {:induction false} RunKnows(most: Option<nat>, updates: seq<Update>, id: int)
    ensures var w := Reached(most, updates); Knows(w.hits, w.log, id, w.now)
    decreases |updates|
  {
    if updates != [] {
      var w, u := Reached(most, updates[..|updates| - 1]), updates[|updates| - 1];
      RunKnows(most, updates[..|updates| - 1], id);
      if w.now <= u.at {
        TrimKnows(most, w.hits, w.log, id, w.now, u.at);
        var hits := Trimmed(most, w.hits, u.at);
        if id == u.id { ServeKnows(hits, w.log, id, u.at); } else { OthersKnown(hits, w.log, u.id, u.at, id); }
      }
    }
  }

  /**
   MAIN. Whatever was pruned before, an update passes exactly when fewer than
   thirty of the user's updates passed in the last minute; over the limit he gets
   one notice and then silence until one passes again.
   */
  lemma RepliesAsPromised(most: Option<nat>, updates: seq<Update>, id: int, at: int)
    requires Reached(most, updates).now <= at
    ensures var w := Reached(most, updates);
            Serve(Trimmed(most, w.hits, at), id, at).1 == Promised(w.log, id, at)
  {
    var w := Reached(most, updates);
    RunKnows(most, updates, id);
    TrimKnows(most, w.hits, w.log, id, w.now, at);
    ServePromised(Trimmed(most, w.hits, at), w.log, id, at);
  }

  /** MAIN. Pruning is invisible: every decision and every notice is as with a map that is never pruned. */
  lemma {:induction false} PruningInvisible(most: Option<nat>, updates: seq<Update>)
    ensures Reached(most, updates).log == Reached(None, updates).log && Reached(most, updates).now == Reached(None, updates).now
    decreases |updates|
  {
    if updates != [] {
      var before, u := updates[..|updates| - 1], updates[|updates| - 1];
      PruningInvisible(most, before);
      if Reached(None, before).now <= u.at {
        RepliesAsPromised(most, before, u.id, u.at);
        RepliesAsPromised(None, before, u.id, u.at);
      }
    }
  }
}

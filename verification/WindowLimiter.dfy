/** The per-socket sliding-window limiter: at most `limit` accepted calls in any window. */
module WindowLimiter {
  import opened Windows

  /** How many moments, from `k` on, are too old to stay. */
  function Skip(times: seq<int>, now: int, windowMs: nat, k: nat): (r: nat)
    requires k <= |times|
    ensures k <= r <= |times|
    ensures forall i :: k <= i < r ==> now - times[i] > windowMs
    ensures r < |times| ==> now - times[r] <= windowMs
    decreases |times| - k
  {
    if k < |times| && now - times[k] > windowMs then Skip(times, now, windowMs, k + 1) else k
  }

  /** The moments left after the old ones are shifted out at the front. */
  function Shifted(times: seq<int>, now: int, windowMs: nat): seq<int> { times[Skip(times, now, windowMs, 0)..] }

  /** One call: the moments kept, and whether it is accepted. */
  function Hit(limit: nat, windowMs: nat, times: seq<int>, now: int): (seq<int>, bool) {
    var kept := Shifted(times, now, windowMs);
    if |kept| >= limit then (kept, false) else (kept + [now], true)
  }

  class Limiter {
    const limit: nat
    const windowMs: nat
    var times: seq<int>

    constructor (limit: nat, windowMs: nat)
      ensures times == [] && this.limit == limit && this.windowMs == windowMs
    {
      this.limit := limit;
      this.windowMs := windowMs;
      times := [];
    }

    method Call(now: int) returns (accepted: bool)
      modifies this
      ensures (times, accepted) == Hit(limit, windowMs, old(times), now)
    {
      ghost var k := 0;
      while times != [] && now - times[0] > windowMs
        invariant k <= |old(times)| && times == old(times)[k..]
        invariant Skip(old(times), now, windowMs, k) == Skip(old(times), now, windowMs, 0)
        decreases |times|
      {
        times := times[1..];
        k := k + 1;
      }
      if |times| >= limit { return false; }
      times := times + [now];
      accepted := true;
    }
  }

  // ---------------------------------------------------------------- what the kept moments mean

  ghost predicate Ordered(t: seq<int>, now: int) {
    (forall i, j :: 0 <= i <= j < |t| ==> t[i] <= t[j]) && (forall i :: 0 <= i < |t| ==> t[i] <= now)
  }

  /** `times` is the tail of all accepted calls, and what is missing is out of the window. */
  ghost predicate Keeps(times: seq<int>, accepted: seq<int>, now: int, windowMs: nat) {
    && Ordered(accepted, now)
    && |times| <= |accepted| && times == accepted[|accepted| - |times|..]
    && forall i :: 0 <= i < |accepted| - |times| ==> now - accepted[i] > windowMs
  }

  /** The accepted calls before `k` are out of the window, the others in it. */
  ghost predicate CutsAt(accepted: seq<int>, k: nat, at: int, windowMs: nat) {
    && k <= |accepted|
    && (forall i :: 0 <= i < k ==> at - accepted[i] > windowMs)
    && (forall i :: k <= i < |accepted| ==> at - accepted[i] <= windowMs)
  }

  /** Shifting the kept moments cuts the accepted calls at the edge of the window. */
  lemma ShiftCuts(times: seq<int>, accepted: seq<int>, now: int, at: int, windowMs: nat)
    requires Keeps(times, accepted, now, windowMs) && now <= at
    ensures CutsAt(accepted, |accepted| - |times| + Skip(times, at, windowMs, 0), at, windowMs)
  {
    var s := Skip(times, at, windowMs, 0);
    var gone := |accepted| - |times|;
    forall i | 0 <= i < gone + s ensures at - accepted[i] > windowMs {
      if i >= gone { assert accepted[i] == times[i - gone]; }
    }
    forall i | gone + s <= i < |accepted| ensures at - accepted[i] <= windowMs {
      assert times[s] == accepted[gone + s] <= accepted[i];
    }
  }

  /** Shifting at a later moment leaves exactly the accepted calls of the last window. */
  lemma ShiftCounts(times: seq<int>, accepted: seq<int>, now: int, at: int, windowMs: nat)
    requires Keeps(times, accepted, now, windowMs) && now <= at
    ensures Keeps(Shifted(times, at, windowMs), accepted, at, windowMs)
    ensures |Shifted(times, at, windowMs)| == CountIn(accepted, at - windowMs, at + 1)
  {
    var gone, s := |accepted| - |times|, Skip(times, at, windowMs, 0);
    ShiftCuts(times, accepted, now, at, windowMs);
    TailOfTail(accepted, gone, s);
    CutCounts(accepted, gone + s, at, windowMs);
  }

  lemma CutCounts(accepted: seq<int>, k: nat, at: int, windowMs: nat)
    requires Ordered(accepted, at) && CutsAt(accepted, k, at, windowMs)
    ensures CountIn(accepted, at - windowMs, at + 1) == |accepted| - k
  {
    RestIn(accepted, k, at - windowMs, at + 1);
  }

  lemma TailOfTail(t: seq<int>, a: nat, b: nat)
    requires a + b <= |t|
    ensures t[a..][b..] == t[a + b..]
  {
  }

  lemma AcceptKeeps(kept: seq<int>, accepted: seq<int>, at: int, windowMs: nat)
    requires Keeps(kept, accepted, at, windowMs)
    ensures Keeps(kept + [at], accepted + [at], at, windowMs)
  {
  }

  // ---------------------------------------------------------------- runs

  /** The limiter, every call it accepted so far, and the time of the last call. */
  datatype World = World(times: seq<int>, accepted: seq<int>, now: int)

  /** A call at a moment that is not before the last one. */
  function Exec(limit: nat, windowMs: nat, w: World, at: int): World {
    if at < w.now then w
    else
      var (times, ok) := Hit(limit, windowMs, w.times, at);
      World(times, if ok then w.accepted + [at] else w.accepted, at)
  }

  function Reached(limit: nat, windowMs: nat, calls: seq<int>): World
    decreases |calls|
  {
    if calls == [] then World([], [], 0) else Exec(limit, windowMs, Reached(limit, windowMs, calls[..|calls| - 1]), calls[|calls| - 1])
  }

  lemma CallKeeps(limit: nat, windowMs: nat, w: World, at: int)
    requires Keeps(w.times, w.accepted, w.now, windowMs) && w.now <= at
    ensures var w' := Exec(limit, windowMs, w, at); Keeps(w'.times, w'.accepted, at, windowMs)
    ensures Hit(limit, windowMs, w.times, at).1 <==> CountIn(w.accepted, at - windowMs, at + 1) < limit
  {
    ShiftCounts(w.times, w.accepted, w.now, at, windowMs);
    AcceptKeeps(Shifted(w.times, at, windowMs), w.accepted, at, windowMs);
  }

  lemma {:induction false} RunKeeps(limit: nat, windowMs: nat, calls: seq<int>)
    ensures var w := Reached(limit, windowMs, calls); Keeps(w.times, w.accepted, w.now, windowMs)
    decreases |calls|
  {
    if calls != [] {
      var w := Reached(limit, windowMs, calls[..|calls| - 1]);
      RunKeeps(limit, windowMs, calls[..|calls| - 1]);
      if w.now <= calls[|calls| - 1] { CallKeeps(limit, windowMs, w, calls[|calls| - 1]); }
    }
  }

  /** MAIN. After any calls, the next is accepted exactly when fewer than `limit` accepted ones lie in the last window. */
  lemma AcceptsExactly(limit: nat, windowMs: nat, calls: seq<int>, at: int)
    requires Reached(limit, windowMs, calls).now <= at
    ensures var w := Reached(limit, windowMs, calls);
            Hit(limit, windowMs, w.times, at).1 <==> CountIn(w.accepted, at - windowMs, at + 1) < limit
  {
    var w := Reached(limit, windowMs, calls);
    RunKeeps(limit, windowMs, calls);
    CallKeeps(limit, windowMs, w, at);
  }

  /** Accepting a call below the limit leaves every window within it. */
  lemma AcceptNotCrowded(limit: nat, windowMs: nat, accepted: seq<int>, at: int, lo: int)
    requires Ordered(accepted, at) && CountIn(accepted, at - windowMs, at + 1) < limit
    requires CountIn(accepted, lo, lo + windowMs + 1) <= limit
    ensures CountIn(accepted + [at], lo, lo + windowMs + 1) <= limit
  {
    CountSnoc(accepted, at, lo, lo + windowMs + 1);
    if lo <= at <= lo + windowMs { CountMono(accepted, lo, lo + windowMs + 1, at - windowMs, at + 1); }
  }

  /** MAIN. No closed interval of the window's length ever holds more than `limit` accepted calls. */
  lemma {:induction false} NeverCrowded(limit: nat, windowMs: nat, calls: seq<int>, lo: int)
    ensures CountIn(Reached(limit, windowMs, calls).accepted, lo, lo + windowMs + 1) <= limit
    decreases |calls|
  {
    if calls != [] {
      var before, at := calls[..|calls| - 1], calls[|calls| - 1];
      var w := Reached(limit, windowMs, before);
      NeverCrowded(limit, windowMs, before, lo);
      RunKeeps(limit, windowMs, before);
      if w.now <= at {
        CallKeeps(limit, windowMs, w, at);
        if Hit(limit, windowMs, w.times, at).1 { AcceptNotCrowded(limit, windowMs, w.accepted, at, lo); }
      }
    }
  }
}

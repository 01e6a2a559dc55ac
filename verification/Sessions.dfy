/**
 Refresh-token rows, the in-memory replay cache, and what one call of the session
 service does to them when nothing interleaves.

 A refresh token stands for its row; the token pair a refresh answers with stands
 for the row it minted. Ids come from a counter, which is what generating a UUID
 amounts to: never the same one twice.
 */
module Sessions {
  import opened Prelude

  type Id = nat

  const GRACE: int := 60_000
  const CACHE_MAX: nat := 5_000
  const CLEANUP_AGE: int := 24 * 60 * 60_000

  datatype Token = Token(
    user: Id, family: Id, used: Option<int>, revoked: Option<int>, next: Option<Id>, expires: int)

  type Tokens = map<Id, Token>

  datatype Entry = Entry(key: Id, pair: Id, at: int)

  // ---------------------------------------------------------------- the replay cache

  /** A Map keeps its entries in insertion order: the oldest insertion is first. */
  type Cache = seq<Entry>

  function Find(c: Cache, k: Id): (r: Option<Entry>)
    ensures r.Some? ==> r.value.key == k
  {
    if c == [] then None else if c[0].key == k then Some(c[0]) else Find(c[1..], k)
  }

  predicate Distinct(c: Cache) {
    c == [] || (Find(c[1..], c[0].key).None? && Distinct(c[1..]))
  }

  predicate IsFresh(e: Entry, now: int) { now - e.at < GRACE }

  function Sweep(c: Cache, now: int): Cache {
    if c == [] then [] else if IsFresh(c[0], now) then [c[0]] + Sweep(c[1..], now) else Sweep(c[1..], now)
  }

  function Drop(c: Cache, k: Id): Cache {
    if c == [] then [] else if c[0].key == k then Drop(c[1..], k) else [c[0]] + Drop(c[1..], k)
  }

  /** Setting a key that is already there keeps its place. */
  function Put(c: Cache, e: Entry): Cache {
    if c == [] then [e] else if c[0].key == e.key then [e] + c[1..] else [c[0]] + Put(c[1..], e)
  }

  /** Room for one more: sweep when full, then drop the oldest insertion if still full. */
  function MakeRoom(c: Cache, now: int): Cache {
    if |c| < CACHE_MAX then c
    else if |Sweep(c, now)| < CACHE_MAX then Sweep(c, now)
    else Sweep(c, now)[1..]
  }

  function CachePair(c: Cache, k: Id, pair: Id, now: int): Cache { Put(MakeRoom(c, now), Entry(k, pair, now)) }

  /** Whether remembering one more pair drops an entry that is still fresh. */
  predicate EvictsFresh(c: Cache, now: int) { |c| >= CACHE_MAX && |Sweep(c, now)| >= CACHE_MAX }

  function Lookup(c: Cache, k: Id, now: int): (Cache, Option<Id>) {
    var hit := Find(c, k);
    if hit.None? then (c, None)
    else if !IsFresh(hit.value, now) then (Drop(c, k), None)
    else (c, Some(hit.value.pair))
  }

  // ---------------------------------------------------------------- the calls

  datatype State = State(tokens: Tokens, cache: Cache, nextId: Id)

  datatype Answer = Pair(id: Id) | TokenNotFound | TokenRevoked | TokenRotated | ReuseDetected | TokenExpired | UserGone

  predicate Rotated(t: Token) { t.used.Some? || t.revoked.Some? }

  predicate InGrace(t: Token, now: int) { t.used.Some? && now - t.used.value < GRACE }

  /** UPDATE ... SET revoked_at = now WHERE family_id = f AND revoked_at IS NULL. */
  function RevokeFamily(ts: Tokens, f: Id, now: int): Tokens {
    map id | id in ts :: if ts[id].family == f && ts[id].revoked.None? then ts[id].(revoked := Some(now)) else ts[id]
  }

  function RevokeUser(ts: Tokens, user: Id, now: int): Tokens {
    map id | id in ts :: if ts[id].user == user && ts[id].revoked.None? then ts[id].(revoked := Some(now)) else ts[id]
  }

  function RevokeOne(ts: Tokens, id: Id, now: int): Tokens {
    if id in ts && ts[id].revoked.None? then ts[id := ts[id].(revoked := Some(now))] else ts
  }

  function SuccessorOf(ts: Tokens, t: Token): Option<Id> {
    if t.next.Some? && t.next.value in ts then t.next else None
  }

  /** A rotated or revoked token shown again outside the grace window. */
  function RejectStale(s: State, id: Id, now: int, enforce: bool): (State, Answer)
    requires id in s.tokens
  {
    var t := s.tokens[id];
    var succ := SuccessorOf(s.tokens, t);
    if t.used.None? then (s, TokenRevoked)
    else if succ.Some? && s.tokens[succ.value].used.Some? then
      if enforce then (s.(tokens := RevokeFamily(s.tokens, t.family, now), cache := Drop(s.cache, id)), ReuseDetected)
      else (s, TokenRotated)
    else if succ.Some? && enforce then (s.(tokens := RevokeOne(s.tokens, succ.value, now)), TokenRotated)
    else (s, TokenRotated)
  }

  /** Minting a pair for token `id` under id `m`, and remembering it. */
  function Mint(s: State, t: Token, id: Id, m: Id, now: int, ttl: nat): State {
    s.(tokens := s.tokens[m := Token(t.user, t.family, None, None, None, now + ttl)],
       cache := CachePair(s.cache, id, m, now))
  }

  function MarkUsed(t: Token, now: int, succ: Id): Token {
    t.(used := Some(now), revoked := Some(now), next := Some(succ))
  }

  /** One whole refresh; `active`: the user still exists and is not blocked. */
  function Refresh(s: State, id: Id, now: int, active: bool, enforce: bool, ttl: nat): (State, Answer) {
    if id !in s.tokens then (s, TokenNotFound)
    else
      var t := s.tokens[id];
      if Rotated(t) && !InGrace(t, now) then RejectStale(s, id, now, enforce)
      else
        var (cache, hit) := if Rotated(t) then Lookup(s.cache, id, now) else (s.cache, None);
        var s1 := s.(cache := cache);
        if hit.Some? then (s1, Pair(hit.value))
        else if t.expires <= now then (s1, TokenExpired)
        else
          var succ := s.nextId;
          var s2 := if Rotated(t) then s1.(nextId := succ + 1)
                    else s1.(nextId := succ + 1, tokens := s.tokens[id := MarkUsed(t, now, succ)]);
          if !active then (s2, UserGone)
          else if Rotated(t) then (Mint(s2.(nextId := succ + 2), t, id, succ + 1, now, ttl), Pair(succ + 1))
          else (Mint(s2, t, id, succ, now, ttl), Pair(succ))
  }

  /** A fresh login starts a family of its own. */
  function Login(s: State, user: Id, now: int, ttl: nat): State {
    s.(tokens := s.tokens[s.nextId := Token(user, s.nextId, None, None, None, now + ttl)], nextId := s.nextId + 1)
  }

  function Logout(s: State, id: Id, now: int): State { s.(tokens := RevokeOne(s.tokens, id, now)) }

  function LogoutAll(s: State, user: Id, now: int): State { s.(tokens := RevokeUser(s.tokens, user, now)) }

  /** The nightly job that deletes rows a day past their expiry. */
  function Cleanup(s: State, now: int): State {
    s.(tokens := map id | id in s.tokens && s.tokens[id].expires >= now - CLEANUP_AGE :: s.tokens[id])
  }

  /** A restarted process keeps the rows and loses the cache. */
  function Restart(s: State): State { s.(cache := []) }

  // ---------------------------------------------------------------- facts about the cache

  lemma {:induction false} FindSweep(c: Cache, k: Id, now: int)
    requires Distinct(c)
    ensures Find(Sweep(c, now), k) == (if Find(c, k).Some? && now - Find(c, k).value.at < 60_000 then Find(c, k) else None)
    ensures Distinct(Sweep(c, now)) && |Sweep(c, now)| <= |c|
  {
    if c != [] {
      FindSweep(c[1..], k, now);
      FindSweep(c[1..], c[0].key, now);
      var rest := Sweep(c[1..], now);
      assert ([c[0]] + rest)[1..] == rest;
    }
  }

  lemma {:induction false} FindDrop(c: Cache, k: Id, x: Id)
    requires Distinct(c)
    ensures Find(Drop(c, k), x) == (if x == k then None else Find(c, x))
    ensures Distinct(Drop(c, k)) && |Drop(c, k)| <= |c|
  {
    if c != [] {
      FindDrop(c[1..], k, x);
      FindDrop(c[1..], k, c[0].key);
      var rest := Drop(c[1..], k);
      assert ([c[0]] + rest)[1..] == rest;
    }
  }

  lemma {:induction false} FindPut(c: Cache, e: Entry, x: Id)
    requires Distinct(c)
    ensures Find(Put(c, e), x) == (if x == e.key then Some(e) else Find(c, x))
    ensures Distinct(Put(c, e))
    ensures |c| <= |Put(c, e)| <= |c| + 1
  {
    if c != [] {
      FindPut(c[1..], e, x);
      FindPut(c[1..], e, c[0].key);
      var rest := Put(c[1..], e);
      assert ([c[0]] + rest)[1..] == rest;
      assert ([e] + c[1..])[1..] == c[1..];
    }
  }

  /** What remembering a pair does to every key, and the bound on the cache. */
  lemma FindCachePair(c: Cache, k: Id, pair: Id, now: int, x: Id)
    requires Distinct(c) && |c| <= CACHE_MAX
    ensures var c' := CachePair(c, k, pair, now);
            && Distinct(c') && |c'| <= CACHE_MAX
            && Find(c', k) == Some(Entry(k, pair, now))
            && (x != k && Find(c', x).Some? ==> Find(c', x) == Find(c, x))
            && (x != k && !EvictsFresh(c, now) && Find(c, x).Some? && IsFresh(Find(c, x).value, now) ==> Find(c', x) == Find(c, x))
  {
    var room := MakeRoom(c, now);
    FindSweep(c, x, now);
    FindPut(room, Entry(k, pair, now), k);
    FindPut(room, Entry(k, pair, now), x);
  }

  lemma {:induction false} NothingToSweep(c: Cache, now: int)
    requires forall i :: 0 <= i < |c| ==> now - c[i].at < 60_000
    ensures Sweep(c, now) == c
  {
    if c != [] {
      NothingToSweep(c[1..], now);
      assert [c[0]] + c[1..] == c;
    }
  }

  /** With fewer than five thousand pairs, remembering another forgets none, however old. */
  lemma RoomForgetsNothing(c: Cache, k: Id, pair: Id, now: int, x: Id)
    requires Distinct(c) && |c| < 5_000 && x != k
    ensures Find(CachePair(c, k, pair, now), x) == Find(c, x)
  {
    FindPut(c, Entry(k, pair, now), x);
  }

  /** With five thousand pairs, none a minute old, remembering another forgets the one inserted first and no other. */
  lemma OldestIsForgotten(c: Cache, k: Id, pair: Id, now: int, x: Id)
    requires Distinct(c) && |c| == 5_000 && (forall i :: 0 <= i < |c| ==> now - c[i].at < 60_000) && x != k
    ensures Find(CachePair(c, k, pair, now), x) == if x == c[0].key then None else Find(c, x)
  {
    NothingToSweep(c, now);
    FindPut(c[1..], Entry(k, pair, now), x);
  }

  lemma FindLookup(c: Cache, k: Id, now: int, x: Id)
    requires Distinct(c)
    ensures var c' := Lookup(c, k, now).0;
            && Distinct(c') && |c'| <= |c|
            && (Find(c', x).Some? ==> Find(c', x) == Find(c, x))
            && (Find(c, x).Some? && IsFresh(Find(c, x).value, now) ==> Find(c', x) == Find(c, x))
  {
    FindDrop(c, k, x);
  }
}

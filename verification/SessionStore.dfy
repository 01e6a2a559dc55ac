/**
 The session service over its mutable state: the token table, and the module-level
 replay cache that is filled, swept and deleted from. Each method is proved to do
 exactly what module Sessions describes.
 */
module SessionStore {
  import opened Prelude
  import opened Sessions
  import SessionFamilies

  class Store {
    var tokens: Tokens
    var replayCache: Cache
    var nextId: Id

    ghost function Abs(): State reads this { State(tokens, replayCache, nextId) }

    constructor ()
      ensures Abs() == State(map[], [], 0)
      ensures forall now: int :: SessionFamilies.Ok(SessionFamilies.World(Abs(), now))
    {
      tokens, replayCache, nextId := map[], [], 0;
    }

    /** The sweep: walks the cache and deletes what is past its age. */
    method SweepCache(now: int)
      modifies this`replayCache
      ensures replayCache == Sweep(old(replayCache), now)
    {
      var i := 0;
      assert replayCache[..0] + Sweep(replayCache[0..], now) == Sweep(replayCache, now) by { assert replayCache[0..] == replayCache; }
      while i < |replayCache|
        invariant i <= |replayCache|
        invariant replayCache[..i] + Sweep(replayCache[i..], now) == Sweep(old(replayCache), now)
        decreases |replayCache| - i
      {
        var c, rest := replayCache, replayCache[i + 1..];
        assert c[i..][1..] == rest;
        if now - c[i].at >= GRACE {
          replayCache := c[..i] + rest;
          assert replayCache[i..] == rest && replayCache[..i] == c[..i];
        } else {
          i := i + 1;
          assert c[..i - 1] + ([c[i - 1]] + Sweep(rest, now)) == c[..i] + Sweep(rest, now);
        }
      }
      assert replayCache[..i] + [] == replayCache && replayCache[i..] == [];
    }

    method CachePair(rotated: Id, pair: Id, now: int)
      modifies this`replayCache
      ensures replayCache == Sessions.CachePair(old(replayCache), rotated, pair, now)
    {
      if |replayCache| >= CACHE_MAX {
        SweepCache(now);
        if |replayCache| >= CACHE_MAX { replayCache := replayCache[1..]; }
      }
      replayCache := Put(replayCache, Entry(rotated, pair, now));
    }

    method CachedPairWithinGrace(rotated: Id, now: int) returns (r: Option<Id>)
      modifies this`replayCache
      ensures (replayCache, r) == Lookup(old(replayCache), rotated, now)
    {
      var hit := Find(replayCache, rotated);
      if hit.None? { return None; }
      if now - hit.value.at >= GRACE {
        replayCache := Drop(replayCache, rotated);
        return None;
      }
      return Some(hit.value.pair);
    }

    method RejectStaleReplay(id: Id, now: int, enforce: bool) returns (r: Answer)
      requires id in tokens
      modifies this`tokens, this`replayCache
      ensures (Abs(), r) == RejectStale(old(Abs()), id, now, enforce)
    {
      var stored := tokens[id];
      if stored.used.None? { return TokenRevoked; }
      var successor := SuccessorOf(tokens, stored);
      if successor.Some? && tokens[successor.value].used.Some? {
        if !enforce { return TokenRotated; }
        tokens := RevokeFamily(tokens, stored.family, now);
        replayCache := Drop(replayCache, id);
        return ReuseDetected;
      }
      var live := successor.Some? && tokens[successor.value].revoked.None?;
      if live && enforce {
        tokens := tokens[successor.value := tokens[successor.value].(revoked := Some(now))];
      }
      return TokenRotated;
    }

    /** Inserting a row; a rotation passes its family and, if it won the mark, the reserved id. */
    method IssueTokenPair(user: Id, family: Option<Id>, tokenId: Option<Id>, now: int, ttl: nat) returns (m: Id)
      modifies this`tokens, this`nextId
      ensures m == (if tokenId.Some? then tokenId.value else old(nextId))
      ensures nextId == (if tokenId.Some? then old(nextId) else old(nextId) + 1)
      ensures tokens == old(tokens)[m := Token(user, if family.Some? then family.value else m, None, None, None, now + ttl)]
    {
      if tokenId.Some? { m := tokenId.value; } else { m := nextId; nextId := nextId + 1; }
      tokens := tokens[m := Token(user, if family.Some? then family.value else m, None, None, None, now + ttl)];
    }

    /** A login: a row whose family is itself. */
    method SignIn(user: Id, now: int, ttl: nat) returns (m: Id)
      requires SessionFamilies.Ok(SessionFamilies.World(Abs(), now))
      modifies this`tokens, this`nextId
      ensures Abs() == Login(old(Abs()), user, now, ttl)
      ensures SessionFamilies.Ok(SessionFamilies.World(Abs(), now))
    {
      SessionFamilies.LoginOk(SessionFamilies.World(Abs(), now), user, ttl);
      m := IssueTokenPair(user, None, None, now, ttl);
    }

    method Refresh(id: Id, now: int, active: bool, enforce: bool, ttl: nat) returns (r: Answer)
      requires SessionFamilies.Ok(SessionFamilies.World(Abs(), now))
      modifies this
      ensures (Abs(), r) == Sessions.Refresh(old(Abs()), id, now, active, enforce, ttl)
      ensures SessionFamilies.Ok(SessionFamilies.World(Abs(), now))
    {
      SessionFamilies.RefreshOk(SessionFamilies.World(Abs(), now), id, active, enforce, ttl);
      if id !in tokens { return TokenNotFound; }
      var stored := tokens[id];
      var alreadyRotated := stored.used.Some? || stored.revoked.Some?;
      var withinGrace := stored.used.Some? && now - stored.used.value < GRACE;
      if alreadyRotated {
        if !withinGrace { r := RejectStaleReplay(id, now, enforce); return; }
        var cached := CachedPairWithinGrace(id, now);
        if cached.Some? { return Pair(cached.value); }
      }
      if stored.expires <= now { return TokenExpired; }

      var successorId := nextId;
      nextId := nextId + 1;
      var isSuccessor := false;
      if !alreadyRotated {
        tokens := tokens[id := stored.(used := Some(now), revoked := Some(now), next := Some(successorId))];
        isSuccessor := true;
      }
      if !active { return UserGone; }
      var m := IssueTokenPair(stored.user, Some(stored.family), if isSuccessor then Some(successorId) else None, now, ttl);
      CachePair(id, m, now);
      return Pair(m);
    }

    method SignOut(id: Id, now: int)
      modifies this`tokens
      ensures Abs() == Logout(old(Abs()), id, now)
    {
      if id in tokens && tokens[id].revoked.None? { tokens := tokens[id := tokens[id].(revoked := Some(now))]; }
    }

    method SignOutEverywhere(user: Id, now: int)
      modifies this`tokens
      ensures Abs() == LogoutAll(old(Abs()), user, now)
    {
      tokens := RevokeUser(tokens, user, now);
    }
  }
}

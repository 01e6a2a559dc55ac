/**
 The rules of the session calls, stated over the token rows and the promised times:
 what each call answers, exactly which rows it touches, and why a row may change.
 */
module SessionRules {
  import opened Prelude
  import opened Sessions
  import opened SessionFamilies

  predicate Unrevoked(t: Token) { t.revoked == None }

  predicate Spent(t: Token) { t.used.Some? || t.revoked.Some? }

  /** Used less than a minute ago. */
  predicate JustUsed(t: Token, now: int) { t.used.Some? && now - t.used.value < 60_000 }

  /** The rows `hit` picks are revoked at `now` unless they were before; every other row stays as it was. */
  ghost predicate RevokedExactly(ts: Tokens, ts': Tokens, now: int, hit: Token -> bool) {
    && ts'.Keys == ts.Keys
    && forall x :: x in ts ==> ts'[x] == if hit(ts[x]) && Unrevoked(ts[x]) then ts[x].(revoked := Some(now)) else ts[x]
  }

  // ---------------------------------------------------------------- logout

  /**
   MAIN. Logging out everywhere leaves every token of that user revoked, the earlier
   revocation times standing, and no other user's token, no cached pair and no id touched.
   */
  lemma LogoutAllExactly(s: State, user: Id, now: int)
    ensures var s' := LogoutAll(s, user, now);
            && RevokedExactly(s.tokens, s'.tokens, now, (t: Token) => t.user == user)
            && (forall x :: x in s'.tokens && s'.tokens[x].user == user ==> s'.tokens[x].revoked.Some?)
            && (forall x :: x in s.tokens && s.tokens[x].revoked.Some? ==> s'.tokens[x] == s.tokens[x])
            && (forall x :: x in s.tokens && s.tokens[x].user != user ==> s'.tokens[x] == s.tokens[x])
            && s'.cache == s.cache && s'.nextId == s.nextId
  {
  }

  /** Logging out revokes the one token, once, and touches nothing else. */
  lemma LogoutExactly(s: State, id: Id, now: int)
    ensures var s' := Logout(s, id, now);
            && s'.tokens.Keys == s.tokens.Keys && s'.cache == s.cache && s'.nextId == s.nextId
            && (id in s.tokens ==> s'.tokens[id] == s.tokens[id].(revoked := if Unrevoked(s.tokens[id]) then Some(now) else s.tokens[id].revoked))
            && (forall x :: x in s.tokens && x != id ==> s'.tokens[x] == s.tokens[x])
  {
  }

  // ---------------------------------------------------------------- login and cleanup

  /** A login adds one live row in a family of its own. */
  lemma LoginExactly(w: World, user: Id, ttl: nat)
    requires Ok(w)
    ensures var s := w.state; var s' := Login(s, user, w.now, ttl);
            && s.nextId !in s.tokens && s'.tokens.Keys == s.tokens.Keys + {s.nextId}
            && s'.tokens[s.nextId] == Token(user, s.nextId, None, None, None, w.now + ttl)
            && (forall x :: x in s.tokens ==> s'.tokens[x] == s.tokens[x] && s.tokens[x].family != s.nextId)
            && s'.cache == s.cache && s'.nextId == s.nextId + 1
  {
    IdsBelowCounter(w);
    forall x | x in w.state.tokens ensures w.state.tokens[x].family != w.state.nextId {
      assert TokenOk(w.state.tokens, w.state.nextId, w.now, x);
    }
  }

  /** The nightly job deletes exactly the rows more than a day past their expiry. */
  lemma CleanupExactly(s: State, now: int)
    ensures var s' := Cleanup(s, now);
            && (forall x :: x in s'.tokens <==> x in s.tokens && now <= s.tokens[x].expires + 86_400_000)
            && (forall x :: x in s'.tokens ==> s'.tokens[x] == s.tokens[x])
            && s'.cache == s.cache && s'.nextId == s.nextId
  {
  }

  // ---------------------------------------------------------------- refresh

  /** The token can still lead to a pair: not spent, or used within the minute and its pair forgotten. */
  ghost predicate Redeemable(w: World, id: Id) {
    && id in w.state.tokens
    && (Spent(w.state.tokens[id]) ==> JustUsed(w.state.tokens[id], w.now) && Find(w.state.cache, id).None?)
  }

  ghost predicate SuccessorUsed(w: World, id: Id)
    requires id in w.state.tokens
  {
    var next := w.state.tokens[id].next;
    next.Some? && next.value in w.state.tokens && w.state.tokens[next.value].used.Some?
  }

  /** MAIN. Every answer a refresh can give, and exactly when it gives it. */
  lemma RefreshAnswersExactly(w: World, id: Id, active: bool, enforce: bool, ttl: nat)
    requires Ok(w)
    ensures var r := Refresh(w.state, id, w.now, active, enforce, ttl).1;
            && (r == TokenNotFound <==> id !in w.state.tokens)
            && (id in w.state.tokens ==>
                  var t := w.state.tokens[id]; var stale := t.used.Some? && w.now - t.used.value >= 60_000;
                  && (r == TokenRevoked <==> t.used == None && t.revoked.Some?)
                  && (r == ReuseDetected <==> stale && enforce && SuccessorUsed(w, id))
                  && (r == TokenRotated <==> stale && !(enforce && SuccessorUsed(w, id)))
                  && (r == TokenExpired <==> Redeemable(w, id) && t.expires <= w.now)
                  && (r == UserGone <==> Redeemable(w, id) && w.now < t.expires && !active)
                  && (r.Pair? <==> (Redeemable(w, id) && w.now < t.expires && active)
                                   || (JustUsed(t, w.now) && Find(w.state.cache, id).Some?)))
  {
    if id in w.state.tokens { assert TokenOk(w.state.tokens, w.state.nextId, w.now, id) && EntryOk(w, id); }
  }

  /** The refusals that touch no row. */
  lemma RefusalsTouchNothing(w: World, id: Id, active: bool, enforce: bool, ttl: nat)
    requires Ok(w)
    ensures var (s', r) := Refresh(w.state, id, w.now, active, enforce, ttl);
            && (r == TokenNotFound || r == TokenRevoked || r == TokenExpired ==> s' == w.state)
            && ((r == TokenRotated || r == ReuseDetected) && !enforce ==> s' == w.state)
            && (r == UserGone && Spent(w.state.tokens[id]) ==> s'.tokens == w.state.tokens)
  {
    if id in w.state.tokens { assert TokenOk(w.state.tokens, w.state.nextId, w.now, id) && EntryOk(w, id); }
  }

  /** A live token of a user who is gone is spent all the same, and nothing is minted for it. */
  lemma GoneUserSpendsTheToken(w: World, id: Id, enforce: bool, ttl: nat)
    requires Ok(w) && id in w.state.tokens && !Spent(w.state.tokens[id]) && w.now < w.state.tokens[id].expires
    ensures var (s', r) := Refresh(w.state, id, w.now, false, enforce, ttl);
            && r == UserGone && s'.tokens.Keys == w.state.tokens.Keys && s'.cache == w.state.cache
            && s'.tokens[id] == w.state.tokens[id].(used := Some(w.now), revoked := Some(w.now), next := s'.tokens[id].next)
            && s'.tokens[id].next.Some? && s'.tokens[id].next.value !in s'.tokens
            && (forall x :: x in w.state.tokens && x != id ==> s'.tokens[x] == w.state.tokens[x])
  {
    IdsBelowCounter(w);
  }

  /** A replay inside the minute whose pair was forgotten mints one fresh live token of that user and family, and spends nothing. */
  lemma ForgottenReplayMints(w: World, id: Id, enforce: bool, ttl: nat)
    requires Ok(w) && id in w.state.tokens && JustUsed(w.state.tokens[id], w.now)
    requires Find(w.state.cache, id).None? && w.now < w.state.tokens[id].expires
    ensures var t := w.state.tokens[id]; var (s', r) := Refresh(w.state, id, w.now, true, enforce, ttl);
            && r.Pair? && r.id !in w.state.tokens && s'.tokens.Keys == w.state.tokens.Keys + {r.id}
            && s'.tokens[r.id] == Token(t.user, t.family, None, None, None, w.now + ttl)
            && (forall x :: x in w.state.tokens ==> s'.tokens[x] == w.state.tokens[x])
            && Find(s'.cache, id) == Some(Entry(id, r.id, w.now))
  {
    assert TokenOk(w.state.tokens, w.state.nextId, w.now, id);
    IdsBelowCounter(w);
    RefreshMints(w, id, true, enforce, ttl);
    BeforeMintOk(w, id);
    FindCachePair(BeforeMint(w, id).0.cache, id, BeforeMint(w, id).1, w.now, id);
  }

  /**
   MAIN. A token shown again after its minute, in enforce mode: if its successor was
   used, exactly its family is revoked and its cached pair dropped; if the successor
   is there unused, exactly that row is; otherwise nothing changes.
   */
  lemma StaleReplayExactly(w: World, id: Id, active: bool, ttl: nat)
    requires Ok(w) && id in w.state.tokens && w.state.tokens[id].used.Some?
    requires w.now - w.state.tokens[id].used.value >= 60_000
    ensures var t := w.state.tokens[id]; var ts := w.state.tokens;
            var (s', r) := Refresh(w.state, id, w.now, active, true, ttl);
            && s'.nextId == w.state.nextId && t.next.Some?
            && (r == ReuseDetected <==> SuccessorUsed(w, id))
            && (if SuccessorUsed(w, id) then
                  && RevokedExactly(ts, s'.tokens, w.now, (row: Token) => row.family == t.family)
                  && (forall x: Id :: Find(s'.cache, x) == if x == id then None else Find(w.state.cache, x))
                else
                  && r == TokenRotated && s'.cache == w.state.cache && s'.tokens.Keys == ts.Keys
                  && (forall x :: x in ts ==>
                        s'.tokens[x] == if x == t.next.value && Unrevoked(ts[x]) then ts[x].(revoked := Some(w.now)) else ts[x]))
  {
    assert TokenOk(w.state.tokens, w.state.nextId, w.now, id);
    var s' := Refresh(w.state, id, w.now, active, true, ttl).0;
    if SuccessorUsed(w, id) {
      forall x: Id ensures Find(s'.cache, x) == if x == id then None else Find(w.state.cache, x) { FindDrop(w.state.cache, id, x); }
    }
  }

  // ---------------------------------------------------------------- why a row changes

  /** The step showed token `y` again after its minute, in enforce mode. */
  ghost predicate ShownStale(w: World, st: Step, y: Id) {
    && st.Refreshes? && st.enforce && st.id == y && y in w.state.tokens
    && w.state.tokens[y].used.Some? && w.now - w.state.tokens[y].used.value >= 60_000
  }

  /** Why an unrevoked row `x` may be revoked by the step. */
  ghost predicate RevokeCause(w: World, st: Step, x: Id)
    requires x in w.state.tokens
  {
    || st == LogsOut(x) || st == LogsOutAll(w.state.tokens[x].user)
    || (st.Refreshes? && st.id == x && w.now < w.state.tokens[x].expires)
    || (st.Refreshes? && ShownStale(w, st, st.id) && SuccessorUsed(w, st.id)
        && w.state.tokens[st.id].family == w.state.tokens[x].family)
    || (st.Refreshes? && ShownStale(w, st, st.id) && !SuccessorUsed(w, st.id) && w.state.tokens[st.id].next == Some(x))
  }

  /** A row changes only by being revoked, now, for one of these causes, and only a refresh of the row itself also spends it. */
  ghost predicate RowChange(w: World, st: Step, x: Id, t': Token)
    requires x in w.state.tokens
  {
    var t := w.state.tokens[x];
    t' != t ==>
      && Unrevoked(t) && t'.revoked == Some(w.now) && RevokeCause(w, st, x)
      && t' == t.(revoked := t'.revoked, used := t'.used, next := t'.next)
      && (t'.used != t.used || t'.next != t.next ==>
            st.Refreshes? && st.id == x && w.now < t.expires && t'.used == Some(w.now) && t'.next.Some? && t'.next.value !in w.state.tokens)
  }

  lemma RefreshRowChange(w: World, st: Step, x: Id)
    requires Ok(w) && st.Refreshes? && x in w.state.tokens
    ensures x in Exec(w, st).state.tokens && RowChange(w, st, x, Exec(w, st).state.tokens[x])
  {
    var id := st.id;
    if id in w.state.tokens {
      var t := w.state.tokens[id];
      assert TokenOk(w.state.tokens, w.state.nextId, w.now, id);
      IdsBelowCounter(w);
      if Spent(t) && !JustUsed(t, w.now) {
        if st.enforce && t.used.Some? { StaleReplayExactly(w, id, st.active, st.ttl); }
        else { RefusalsTouchNothing(w, id, st.active, st.enforce, st.ttl); }
      } else if Mints(w, id, st.active) {
        RefreshMints(w, id, st.active, st.enforce, st.ttl);
      }
    }
  }

  /** MAIN. No row of another user, family or token is ever touched: every change of every row in a step has its cause. */
  lemma ChangeHasCause(w: World, st: Step, x: Id)
    requires Ok(w) && x in w.state.tokens
    ensures if x in Exec(w, st).state.tokens then RowChange(w, st, x, Exec(w, st).state.tokens[x])
            else st == CleansUp && w.state.tokens[x].expires + 86_400_000 < w.now
  {
    if st.Refreshes? { RefreshRowChange(w, st, x); }
  }

  /** A new row: a login's, or the one a refresh mints for the user and family of the token shown. */
  lemma RowIsBorn(w: World, st: Step, x: Id)
    requires Ok(w) && x !in w.state.tokens && x in Exec(w, st).state.tokens
    ensures var t := Exec(w, st).state.tokens[x];
            && t.used == None && t.revoked == None && t.next == None
            && ( || (st.LogsIn? && t.user == st.user && t.family == x && t.expires == w.now + st.ttl)
                 || (st.Refreshes? && st.active && Redeemable(w, st.id) && w.now < w.state.tokens[st.id].expires
                     && t.user == w.state.tokens[st.id].user && t.family == w.state.tokens[st.id].family
                     && t.expires == w.now + st.ttl))
  {
    if st.Refreshes? {
      if st.id in w.state.tokens { assert EntryOk(w, st.id) && TokenOk(w.state.tokens, w.state.nextId, w.now, st.id); }
      if Mints(w, st.id, st.active) { RefreshMints(w, st.id, st.active, st.enforce, st.ttl); }
      else { NewRow(w, st, x); }
    }
  }
}

/**
 The same rules when calls interleave: what each resumption of a refresh decides, and
 why a row may change or appear in any step of a race.
 */
module SessionRaceRules {
  import opened Prelude
  import opened Sessions
  import opened SessionRaces

  predicate Spent(t: Token) { t.used.Some? || t.revoked.Some? }

  predicate JustUsed(t: Token, now: int) { t.used.Some? && now - t.used.value < 60_000 }

  /** A pair remembered less than a minute ago. */
  ghost predicate Remembered(w: World, id: Id) {
    Find(w.state.cache, id).Some? && w.now - Find(w.state.cache, id).value.at < 60_000
  }

  // ---------------------------------------------------------------- what a call decides

  /** After reading its row a call is judged, marks, mints or ends - by the row it read, the clock and the cache. */
  lemma DecidesExactly(w: World, c: nat)
    requires c in w.calls && w.calls[c].Loaded?
    ensures var Loaded(id, row) := w.calls[c]; var w' := Exec(w, Decides(c));
            var stale := Spent(row) && !JustUsed(row, w.now); var known := Spent(row) && Remembered(w, id);
            && w'.state.tokens == w.state.tokens
            && (c in w'.calls && w'.calls[c] == Judging(id, row) <==> stale)
            && (c !in w'.calls <==> !stale && (known || row.expires <= w.now))
            && (c in w'.calls && w'.calls[c] == Marking(id, row, w.state.nextId, w.now) <==> !Spent(row) && w.now < row.expires)
            && (c in w'.calls && w'.calls[c] == Minting(id, row, None) <==> Spent(row) && !stale && !known && w.now < row.expires)
  {
  }

  /** Losing the mark, a call answers with the winner's pair if it is remembered, and otherwise mints one without a place in the chain. */
  lemma LoserConverges(w: World, c: nat)
    requires c in w.calls && w.calls[c].Marking? && !WinsMark(w, c)
    ensures var call := w.calls[c]; var w' := Exec(w, Marks(c));
            && w'.state.tokens == w.state.tokens
            && (if Remembered(w, call.id) then c !in w'.calls
                else c in w'.calls && w'.calls[c] == Minting(call.id, call.row, None))
  {
  }

  /** A stale replay is judged by its successor: the family goes if it was used, the successor if it is live, in enforce mode alone. */
  lemma JudgesExactly(w: World, c: nat, enforce: bool)
    requires c in w.calls && w.calls[c].Judging?
    ensures var Judging(id, row) := w.calls[c]; var w' := Exec(w, Judges(c, enforce)); var ts := w.state.tokens;
            var there := enforce && row.used.Some? && row.next.Some? && row.next.value in ts;
            && w'.state == w.state
            && (c in w'.calls && w'.calls[c] == RevokingFamily(id, row.family) <==> there && ts[row.next.value].used.Some?)
            && (row.next.Some? ==> (c in w'.calls && w'.calls[c] == RevokingSuccessor(row.next.value) <==>
                                      there && ts[row.next.value].used == None && ts[row.next.value].revoked == None))
            && (!there ==> c !in w'.calls)
  {
  }

  /** A logout between the awaits of other calls does its whole work: one row, or every row of the user; no call notices. */
  lemma LogoutsAmidRaces(w: World, id: Id, user: Id)
    ensures var w' := Exec(w, LogsOut(id));
            && w'.calls == w.calls && w'.state.tokens.Keys == w.state.tokens.Keys
            && forall x :: x in w.state.tokens ==>
                 var t := w.state.tokens[x];
                 w'.state.tokens[x] == if x == id && t.revoked == None then t.(revoked := Some(w.now)) else t
    ensures var w' := Exec(w, LogsOutAll(user));
            && w'.calls == w.calls && w'.state.tokens.Keys == w.state.tokens.Keys
            && forall x :: x in w.state.tokens ==>
                 var t := w.state.tokens[x];
                 w'.state.tokens[x] == if t.user == user && t.revoked == None then t.(revoked := Some(w.now)) else t
  {
  }

  // ---------------------------------------------------------------- why a row changes

  /** Why an unrevoked row `x` may be revoked by the step. */
  ghost predicate RevokeCause(w: World, st: Step, x: Id)
    requires x in w.state.tokens
  {
    var t := w.state.tokens[x];
    || st == LogsOut(x) || st == LogsOutAll(t.user)
    || (st.Marks? && st.call in w.calls && w.calls[st.call].Marking? && w.calls[st.call].id == x && t.used == None)
    || (st.Revokes? && st.call in w.calls
        && ((w.calls[st.call].RevokingFamily? && w.calls[st.call].family == t.family)
            || (w.calls[st.call] == RevokingSuccessor(x) && t.used == None)))
  }

  /** The mark of a call: used and revoked at the call's moment, with the successor it reserved. */
  ghost predicate MarkedBy(w: World, st: Step, x: Id, t': Token)
    requires x in w.state.tokens
  {
    && st.Marks? && st.call in w.calls && w.calls[st.call].Marking? && w.calls[st.call].id == x
    && t' == w.state.tokens[x].(used := Some(w.calls[st.call].at), revoked := Some(w.calls[st.call].at), next := Some(w.calls[st.call].succ))
  }

  /** MAIN. Under every interleaving: a step revokes a row for one of these causes, marks it for one call, deletes it a day past its expiry, or leaves it alone. */
  lemma RacesTouchWithCause(w: World, st: Step, x: Id)
    requires Ok(w) && x in w.state.tokens
    ensures var t, ts' := w.state.tokens[x], Exec(w, st).state.tokens;
            if x !in ts' then st == CleansUp && t.expires + 86_400_000 < w.now
            else ts'[x] != t ==>
              && t.revoked == None && RevokeCause(w, st, x)
              && (ts'[x] == t.(revoked := Some(w.now)) || MarkedBy(w, st, x, ts'[x]))
  {
    RowsBelowCounter(w);
    if st.Mints? && st.call in w.calls { assert CallOk(w, st.call); }
  }

  /** MAIN. Under every interleaving a new row is a login's, or a live one a call mints for the user and family of the row it was shown. */
  lemma RaceRowIsBorn(w: World, st: Step, x: Id)
    requires Ok(w) && x !in w.state.tokens && x in Exec(w, st).state.tokens
    ensures var t := Exec(w, st).state.tokens[x];
            || (st.LogsIn? && t == Token(st.user, x, None, None, None, w.now + st.ttl))
            || (st.Mints? && st.active && st.call in w.calls && w.calls[st.call].Minting?
                && t == Token(w.calls[st.call].row.user, w.calls[st.call].row.family, None, None, None, w.now + st.ttl))
  {
  }
}

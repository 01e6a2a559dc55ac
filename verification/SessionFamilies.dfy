/**
 Whole runs of the session service in which each call completes before the next:
 one live token per family, one answer per rotation inside the grace window, and
 families that stay dead.
 */
module SessionFamilies {
  import opened Prelude
  import opened Sessions

  datatype Step =
    | Tick(ms: nat)
    | LogsIn(user: Id, ttl: nat)
    | Refreshes(id: Id, active: bool, enforce: bool, ttl: nat)
    | LogsOut(id: Id)
    | LogsOutAll(user: Id)
    | CleansUp
    | Restarts

  datatype World = World(state: State, now: int)

  function Exec(w: World, st: Step): World {
    match st
    case Tick(ms) => w.(now := w.now + ms)
    case LogsIn(user, ttl) => w.(state := Login(w.state, user, w.now, ttl))
    case Refreshes(id, active, enforce, ttl) => w.(state := Refresh(w.state, id, w.now, active, enforce, ttl).0)
    case LogsOut(id) => w.(state := Logout(w.state, id, w.now))
    case LogsOutAll(user) => w.(state := LogoutAll(w.state, user, w.now))
    case CleansUp => w.(state := Cleanup(w.state, w.now))
    case Restarts => w.(state := Restart(w.state))
  }

  function Run(w: World, steps: seq<Step>): World
    decreases |steps|
  {
    if steps == [] then w else Run(Exec(w, steps[0]), steps[1..])
  }

  // ---------------------------------------------------------------- well-formed worlds

  ghost predicate TokenOk(ts: Tokens, nextId: Id, now: int, id: Id)
    requires id in ts
  {
    var t := ts[id];
    && id < nextId && t.family < nextId
    && (t.used.Some? ==> t.used.value <= now && t.revoked.Some? && t.next.Some?)
    && (t.next.Some? ==> id < t.next.value < nextId && t.used.Some?)
    && (t.next.Some? && t.next.value in ts ==> ts[t.next.value].family == t.family && ts[t.next.value].user == t.user)
  }

  /** A cached rotation is of a used token, remembered no earlier than it was used. */
  ghost predicate EntryOk(w: World, k: Id) {
    Find(w.state.cache, k).Some? ==>
      && k < w.state.nextId && Find(w.state.cache, k).value.at <= w.now
      && (k in w.state.tokens ==> w.state.tokens[k].used.Some? && w.state.tokens[k].used.value <= Find(w.state.cache, k).value.at)
  }

  ghost predicate Ok(w: World) {
    && Distinct(w.state.cache) && |w.state.cache| <= CACHE_MAX
    && (forall id :: id in w.state.tokens ==> TokenOk(w.state.tokens, w.state.nextId, w.now, id))
    && (forall k: Id :: EntryOk(w, k))
  }

  /** Only revocations happen and cache entries only go away. */
  ghost predicate Shrinks(s: State, s': State, now: int) {
    && s'.nextId >= s.nextId && s'.tokens.Keys <= s.tokens.Keys
    && (forall id :: id in s'.tokens ==>
          s'.tokens[id] == s.tokens[id] || (s.tokens[id].revoked.None? && s'.tokens[id] == s.tokens[id].(revoked := Some(now))))
    && Distinct(s'.cache) && |s'.cache| <= |s.cache|
    && (forall k: Id :: Find(s'.cache, k).Some? ==> Find(s'.cache, k) == Find(s.cache, k))
  }

  lemma ShrinkOk(w: World, s': State)
    requires Ok(w) && Shrinks(w.state, s', w.now)
    ensures Ok(World(s', w.now))
  {
    forall id | id in s'.tokens ensures TokenOk(s'.tokens, s'.nextId, w.now, id) {
      assert TokenOk(w.state.tokens, w.state.nextId, w.now, id);
    }
    forall k: Id ensures EntryOk(World(s', w.now), k) { assert EntryOk(w, k); }
  }

  lemma RejectStaleShrinks(s: State, id: Id, now: int, enforce: bool)
    requires id in s.tokens && Distinct(s.cache)
    ensures Shrinks(s, RejectStale(s, id, now, enforce).0, now)
  {
    var s' := RejectStale(s, id, now, enforce).0;
    forall k: Id ensures Find(s'.cache, k).Some? ==> Find(s'.cache, k) == Find(s.cache, k) { FindDrop(s.cache, id, k); }
    FindDrop(s.cache, id, id);
  }

  lemma LookupShrinks(s: State, id: Id, now: int)
    requires Distinct(s.cache)
    ensures Shrinks(s, s.(cache := Lookup(s.cache, id, now).0), now)
  {
    var c' := Lookup(s.cache, id, now).0;
    forall k: Id ensures Find(c', k).Some? ==> Find(c', k) == Find(s.cache, k) { FindLookup(s.cache, id, now, k); }
    FindLookup(s.cache, id, now, id);
  }

  lemma IdsBelowCounter(w: World)
    requires Ok(w)
    ensures forall x :: x in w.state.tokens ==> x < w.state.nextId
  {
    forall x | x in w.state.tokens ensures x < w.state.nextId { assert TokenOk(w.state.tokens, w.state.nextId, w.now, x); }
  }

  /** Marking a live token used. */
  lemma MarkOk(w: World, id: Id)
    requires Ok(w) && id in w.state.tokens && !Rotated(w.state.tokens[id])
    ensures var s := w.state;
            Ok(World(s.(tokens := s.tokens[id := MarkUsed(s.tokens[id], w.now, s.nextId)], nextId := s.nextId + 1), w.now))
  {
    var s := w.state;
    var s' := s.(tokens := s.tokens[id := MarkUsed(s.tokens[id], w.now, s.nextId)], nextId := s.nextId + 1);
    IdsBelowCounter(w);
    forall x | x in s'.tokens ensures TokenOk(s'.tokens, s'.nextId, w.now, x) {
      assert TokenOk(s.tokens, s.nextId, w.now, x) && TokenOk(s.tokens, s.nextId, w.now, id);
    }
    forall k: Id ensures EntryOk(World(s', w.now), k) { assert EntryOk(w, k); }
  }

  /** Minting under an id no row has, for a used token. */
  lemma MintOk(w: World, id: Id, m: Id, ttl: nat)
    requires Ok(w) && id in w.state.tokens && w.state.tokens[id].used.Some?
    requires m < w.state.nextId && m !in w.state.tokens && Find(w.state.cache, m).None?
    requires forall x :: x in w.state.tokens && w.state.tokens[x].next == Some(m) ==>
      w.state.tokens[x].family == w.state.tokens[id].family && w.state.tokens[x].user == w.state.tokens[id].user
    ensures Ok(World(Mint(w.state, w.state.tokens[id], id, m, w.now, ttl), w.now))
  {
    var s := w.state;
    var s' := Mint(s, s.tokens[id], id, m, w.now, ttl);
    forall x | x in s'.tokens ensures TokenOk(s'.tokens, s'.nextId, w.now, x) {
      assert TokenOk(s.tokens, s.nextId, w.now, id);
      if x != m { assert TokenOk(s.tokens, s.nextId, w.now, x); }
    }
    FindCachePair(s.cache, id, m, w.now, id);
    forall k: Id ensures EntryOk(World(s', w.now), k) {
      assert EntryOk(w, k) && TokenOk(s.tokens, s.nextId, w.now, id);
      FindCachePair(s.cache, id, m, w.now, k);
    }
  }

  // ---------------------------------------------------------------- the shape of a refresh

  /** The row `Refresh` has before it mints, and the id it mints under. */
  function BeforeMint(w: World, id: Id): (State, Id)
    requires id in w.state.tokens
  {
    var s := w.state;
    if Rotated(s.tokens[id]) then (s.(cache := Lookup(s.cache, id, w.now).0, nextId := s.nextId + 2), s.nextId + 1)
    else (s.(nextId := s.nextId + 1, tokens := s.tokens[id := MarkUsed(s.tokens[id], w.now, s.nextId)]), s.nextId)
  }

  predicate Mints(w: World, id: Id, active: bool) {
    && id in w.state.tokens && active && w.now < w.state.tokens[id].expires
    && (Rotated(w.state.tokens[id]) ==>
          InGrace(w.state.tokens[id], w.now) && Lookup(w.state.cache, id, w.now).1.None?)
  }

  lemma BeforeMintOk(w: World, id: Id)
    requires Ok(w) && id in w.state.tokens && (Rotated(w.state.tokens[id]) ==> InGrace(w.state.tokens[id], w.now))
    ensures var (s', m) := BeforeMint(w, id);
            && Ok(World(s', w.now)) && id in s'.tokens && s'.tokens[id].used.Some?
            && m < s'.nextId && m !in s'.tokens && Find(s'.cache, m).None?
            && (forall x :: x in s'.tokens && s'.tokens[x].next == Some(m) ==> x == id)
  {
    var s := w.state;
    var (s', m) := BeforeMint(w, id);
    assert TokenOk(s.tokens, s.nextId, w.now, id);
    if Rotated(s.tokens[id]) {
      LookupShrinks(s, id, w.now);
      ShrinkOk(w, s');
    } else {
      MarkOk(w, id);
    }
    assert EntryOk(w, m);
    IdsBelowCounter(w);
    forall x | x in s'.tokens && s'.tokens[x].next == Some(m) ensures x == id { assert TokenOk(s.tokens, s.nextId, w.now, x); }
  }

  lemma RefreshMints(w: World, id: Id, active: bool, enforce: bool, ttl: nat)
    requires Mints(w, id, active)
    ensures var (s1, m) := BeforeMint(w, id);
            id in s1.tokens && s1.tokens[id].user == w.state.tokens[id].user && s1.tokens[id].family == w.state.tokens[id].family
            && Refresh(w.state, id, w.now, active, enforce, ttl) == (Mint(s1, s1.tokens[id], id, m, w.now, ttl), Pair(m))
  {
  }

  lemma RefreshOk(w: World, id: Id, active: bool, enforce: bool, ttl: nat)
    requires Ok(w)
    ensures Ok(World(Refresh(w.state, id, w.now, active, enforce, ttl).0, w.now))
  {
    if id in w.state.tokens {
      var t := w.state.tokens[id];
      if Rotated(t) && !InGrace(t, w.now) {
        RejectStaleShrinks(w.state, id, w.now, enforce);
        ShrinkOk(w, RejectStale(w.state, id, w.now, enforce).0);
      } else if Mints(w, id, active) {
        RefreshMints(w, id, active, enforce, ttl);
        BeforeMintOk(w, id);
        var (s1, m) := BeforeMint(w, id);
        MintOk(World(s1, w.now), id, m, ttl);
      } else if !Rotated(t) {
        MarkOk(w, id);
      } else {
        LookupShrinks(w.state, id, w.now);
        ShrinkOk(w, Refresh(w.state, id, w.now, active, enforce, ttl).0);
      }
    }
  }

  lemma LoginOk(w: World, user: Id, ttl: nat)
    requires Ok(w)
    ensures Ok(World(Login(w.state, user, w.now, ttl), w.now))
  {
    var s := w.state;
    var s' := Login(s, user, w.now, ttl);
    IdsBelowCounter(w);
    forall x | x in s'.tokens ensures TokenOk(s'.tokens, s'.nextId, w.now, x) {
      if x != s.nextId { assert TokenOk(s.tokens, s.nextId, w.now, x); }
    }
    forall k: Id ensures EntryOk(World(s', w.now), k) { assert EntryOk(w, k); }
  }

  lemma TickOk(w: World, ms: nat)
    requires Ok(w)
    ensures Ok(w.(now := w.now + ms))
  {
    var w' := w.(now := w.now + ms);
    forall x | x in w.state.tokens ensures TokenOk(w.state.tokens, w.state.nextId, w'.now, x) {
      assert TokenOk(w.state.tokens, w.state.nextId, w.now, x);
    }
    forall k: Id ensures EntryOk(w', k) { assert EntryOk(w, k); }
  }

  lemma StepOk(w: World, st: Step)
    requires Ok(w)
    ensures Ok(Exec(w, st)) && Exec(w, st).now >= w.now && Exec(w, st).state.nextId >= w.state.nextId
  {
    match st
    case Tick(ms) => TickOk(w, ms);
    case LogsIn(user, ttl) => LoginOk(w, user, ttl);
    case Refreshes(id, active, enforce, ttl) => RefreshOk(w, id, active, enforce, ttl);
    case LogsOut(id) => ShrinkOk(w, Logout(w.state, id, w.now));
    case LogsOutAll(user) => ShrinkOk(w, LogoutAll(w.state, user, w.now));
    case CleansUp => ShrinkOk(w, Cleanup(w.state, w.now));
    case Restarts => ShrinkOk(w, Restart(w.state));
  }

  /** The cache never holds more than its bound, evictions and restarts included. */
  lemma {:induction false} CacheBounded(w: World, steps: seq<Step>)
    requires Ok(w)
    ensures Ok(Run(w, steps)) && |Run(w, steps).state.cache| <= 5_000
    ensures Run(w, steps).now >= w.now && Run(w, steps).state.nextId >= w.state.nextId
    decreases |steps|
  {
    if steps != [] {
      StepOk(w, steps[0]);
      CacheBounded(Exec(w, steps[0]), steps[1..]);
    }
  }

  // ---------------------------------------------------------------- one hot token per family

  /** A token that can still lead to a new pair: live, or rotated within the grace window with no remembered pair. */
  ghost predicate Hot(w: World, id: Id) {
    id in w.state.tokens &&
    ( || w.state.tokens[id].revoked.None?
      || (InGrace(w.state.tokens[id], w.now) && Find(w.state.cache, id).None?))
  }

  /** Live tokens + unremembered rotations in grace are at most one per family. */
  ghost predicate OneHot(w: World) {
    forall a, b | a in w.state.tokens && b in w.state.tokens && Hot(w, a) && Hot(w, b) ::
      w.state.tokens[a].family == w.state.tokens[b].family ==> a == b
  }

  /** Steps after which the promise below still holds: no restart, no fresh entry evicted. */
  predicate Keeps(w: World, st: Step) {
    && !st.Restarts?
    && (st.Refreshes? && Mints(w, st.id, st.active) ==> !EvictsFresh(BeforeMint(w, st.id).0.cache, w.now))
  }

  /** Where the heat of a family comes from in one step. */
  ghost predicate HeatFrom(w: World, w': World, x: Id) {
    Hot(w', x) ==>
      || (Hot(w, x) && w'.state.tokens[x].family == w.state.tokens[x].family)
      || (x in w'.state.tokens && w'.state.tokens[x].family >= w.state.nextId)
      || (exists y :: y in w.state.tokens && Hot(w, y) && !Hot(w', y) && x in w'.state.tokens
                   && w'.state.tokens[x].family == w.state.tokens[y].family && x >= w.state.nextId)
  }

  lemma RejectStaleHeat(w: World, id: Id, enforce: bool, x: Id)
    requires Ok(w) && id in w.state.tokens && !InGrace(w.state.tokens[id], w.now)
    ensures HeatFrom(w, World(RejectStale(w.state, id, w.now, enforce).0, w.now), x)
  {
    RejectStaleShrinks(w.state, id, w.now, enforce);
    FindDrop(w.state.cache, id, x);
  }

  lemma MintHeat(w: World, id: Id, active: bool, enforce: bool, ttl: nat, x: Id)
    requires Ok(w) && Mints(w, id, active) && Keeps(w, Refreshes(id, active, enforce, ttl))
    ensures HeatFrom(w, World(Refresh(w.state, id, w.now, active, enforce, ttl).0, w.now), x)
  {
    var w' := World(Refresh(w.state, id, w.now, active, enforce, ttl).0, w.now);
    RefreshMints(w, id, active, enforce, ttl);
    BeforeMintOk(w, id);
    var (s1, m) := BeforeMint(w, id);
    assert TokenOk(w.state.tokens, w.state.nextId, w.now, id);
    FindLookup(w.state.cache, id, w.now, x);
    FindDrop(w.state.cache, id, id);
    FindCachePair(s1.cache, id, m, w.now, x);
    FindCachePair(s1.cache, id, m, w.now, id);
    assert EntryOk(w, id) && EntryOk(w, x);
    assert Hot(w, id) && !Hot(w', id);
  }

  lemma RefreshHeat(w: World, id: Id, active: bool, enforce: bool, ttl: nat, x: Id)
    requires Ok(w) && Keeps(w, Refreshes(id, active, enforce, ttl))
    ensures HeatFrom(w, World(Refresh(w.state, id, w.now, active, enforce, ttl).0, w.now), x)
  {
    if id in w.state.tokens {
      var t := w.state.tokens[id];
      if Rotated(t) && !InGrace(t, w.now) {
        RejectStaleHeat(w, id, enforce, x);
      } else if Mints(w, id, active) {
        MintHeat(w, id, active, enforce, ttl, x);
      } else {
        FindLookup(w.state.cache, id, w.now, x);
        assert EntryOk(w, x);
      }
    }
  }

  lemma StepHeat(w: World, st: Step, x: Id)
    requires Ok(w) && Keeps(w, st)
    ensures HeatFrom(w, Exec(w, st), x)
  {
    match st
    case Refreshes(id, active, enforce, ttl) => RefreshHeat(w, id, active, enforce, ttl, x);
    case LogsIn(user, ttl) =>
      if x in w.state.tokens { assert TokenOk(w.state.tokens, w.state.nextId, w.now, x); }
    case _ =>
  }

  predicate AllKeep(w: World, steps: seq<Step>)
    decreases |steps|
  {
    steps == [] || (Keeps(w, steps[0]) && AllKeep(Exec(w, steps[0]), steps[1..]))
  }

  lemma StepOneHot(w: World, st: Step)
    requires Ok(w) && OneHot(w) && Keeps(w, st)
    ensures OneHot(Exec(w, st))
  {
    var w' := Exec(w, st);
    forall a, b | a in w'.state.tokens && b in w'.state.tokens && Hot(w', a) && Hot(w', b)
      && w'.state.tokens[a].family == w'.state.tokens[b].family
      ensures a == b
    {
      StepHeat(w, st, a);
      StepHeat(w, st, b);
      NewRow(w, st, a);
      NewRow(w, st, b);
      if a in w.state.tokens { assert TokenOk(w.state.tokens, w.state.nextId, w.now, a); }
      if b in w.state.tokens { assert TokenOk(w.state.tokens, w.state.nextId, w.now, b); }
    }
  }

  /** A step creates at most one row, and keeps every other row's family. */
  lemma NewRow(w: World, st: Step, x: Id)
    requires Ok(w) && x in Exec(w, st).state.tokens
    ensures x in w.state.tokens ==> Exec(w, st).state.tokens[x].family == w.state.tokens[x].family
    ensures x !in w.state.tokens ==> x == Created(w, st)
  {
    if st.Refreshes? && Mints(w, st.id, st.active) { RefreshMints(w, st.id, st.active, st.enforce, st.ttl); }
  }

  function Created(w: World, st: Step): Id {
    if st.Refreshes? && st.id in w.state.tokens then BeforeMint(w, st.id).1 else w.state.nextId
  }

  /**
   MAIN. In every run without a restart and without evicting a fresh entry, a
   family never has two tokens that are live or can still mint: in particular at
   most one unrevoked token.
   */
  lemma {:induction false} OneLivePerFamily(w: World, steps: seq<Step>)
    requires Ok(w) && OneHot(w) && AllKeep(w, steps)
    ensures Ok(Run(w, steps)) && OneHot(Run(w, steps))
    ensures var ts := Run(w, steps).state.tokens;
            forall a, b | a in ts && b in ts && ts[a].revoked.None? && ts[b].revoked.None? ::
              ts[a].family == ts[b].family ==> a == b
    decreases |steps|
  {
    if steps != [] {
      StepOk(w, steps[0]);
      StepOneHot(w, steps[0]);
      OneLivePerFamily(Exec(w, steps[0]), steps[1..]);
    } else {
      forall a, b | a in w.state.tokens && b in w.state.tokens && w.state.tokens[a].revoked.None?
        && w.state.tokens[b].revoked.None? && w.state.tokens[a].family == w.state.tokens[b].family
        ensures a == b
      {
        assert Hot(w, a) && Hot(w, b);
      }
    }
  }

  /** MAIN, from an empty table: so it is in every such run of a new process. */
  lemma OneLiveFromTheStart(now: int, steps: seq<Step>)
    requires AllKeep(World(State(map[], [], 0), now), steps)
    ensures var ts := Run(World(State(map[], [], 0), now), steps).state.tokens;
            forall a, b | a in ts && b in ts && ts[a].revoked.None? && ts[b].revoked.None? ::
              ts[a].family == ts[b].family ==> a == b
  {
    OneLivePerFamily(World(State(map[], [], 0), now), steps);
  }

  /** A family with nothing hot left stays that way: it never has a live token again. */
  lemma {:induction false} ColdFamilyStaysCold(w: World, steps: seq<Step>, f: Id)
    requires Ok(w) && AllKeep(w, steps) && f < w.state.nextId
    requires forall x :: x in w.state.tokens && w.state.tokens[x].family == f ==> !Hot(w, x)
    ensures var ts := Run(w, steps).state.tokens; forall x :: x in ts && ts[x].family == f ==> ts[x].revoked.Some?
    decreases |steps|
  {
    if steps == [] {
      forall x | x in w.state.tokens && w.state.tokens[x].family == f ensures w.state.tokens[x].revoked.Some? {
        assert !Hot(w, x);
      }
    } else {
      var w' := Exec(w, steps[0]);
      StepOk(w, steps[0]);
      forall x | x in w'.state.tokens && w'.state.tokens[x].family == f ensures !Hot(w', x) { StepHeat(w, steps[0], x); }
      ColdFamilyStaysCold(w', steps[1..], f);
      assert Run(w, steps) == Run(w', steps[1..]);
    }
  }

  // ---------------------------------------------------------------- the same pair inside the grace window

  /** Rotation of `id`, used at `u`, is remembered as `pair` for as long as `u` is in grace. */
  ghost predicate Remembered(w: World, id: Id, u: int, pair: Id) {
    && id < w.state.nextId
    && (id in w.state.tokens ==> w.state.tokens[id].used == Some(u))
    && (w.now - u < GRACE ==>
          Find(w.state.cache, id).Some? && Find(w.state.cache, id).value.pair == pair && Find(w.state.cache, id).value.at >= u)
  }

  lemma AnswerIsRemembered(w: World, id: Id, active: bool, enforce: bool, ttl: nat)
    requires Ok(w) && Refresh(w.state, id, w.now, active, enforce, ttl).1.Pair?
    ensures var (s', r) := Refresh(w.state, id, w.now, active, enforce, ttl);
            id in s'.tokens && s'.tokens[id].used.Some? && InGrace(s'.tokens[id], w.now)
            && Remembered(World(s', w.now), id, s'.tokens[id].used.value, r.id)
  {
    assert TokenOk(w.state.tokens, w.state.nextId, w.now, id) && EntryOk(w, id);
    if Mints(w, id, active) {
      RefreshMints(w, id, active, enforce, ttl);
      BeforeMintOk(w, id);
      FindCachePair(BeforeMint(w, id).0.cache, id, BeforeMint(w, id).1, w.now, id);
    }
  }

  lemma MintRemembers(w: World, x: Id, active: bool, enforce: bool, ttl: nat, id: Id, u: int, pair: Id)
    requires Ok(w) && Remembered(w, id, u, pair) && Keeps(w, Refreshes(x, active, enforce, ttl)) && Mints(w, x, active)
    ensures Remembered(World(Refresh(w.state, x, w.now, active, enforce, ttl).0, w.now), id, u, pair)
  {
    RefreshMints(w, x, active, enforce, ttl);
    BeforeMintOk(w, x);
    var (s1, m) := BeforeMint(w, x);
    FindLookup(w.state.cache, x, w.now, id);
    FindCachePair(s1.cache, x, m, w.now, id);
  }

  lemma RefreshRemembers(w: World, x: Id, active: bool, enforce: bool, ttl: nat, id: Id, u: int, pair: Id)
    requires Ok(w) && Remembered(w, id, u, pair) && Keeps(w, Refreshes(x, active, enforce, ttl))
    ensures Remembered(World(Refresh(w.state, x, w.now, active, enforce, ttl).0, w.now), id, u, pair)
  {
    if x in w.state.tokens {
      if Mints(w, x, active) {
        MintRemembers(w, x, active, enforce, ttl, id, u, pair);
      } else {
        FindLookup(w.state.cache, x, w.now, id);
        FindDrop(w.state.cache, x, id);
      }
    }
  }

  lemma StepRemembers(w: World, st: Step, id: Id, u: int, pair: Id)
    requires Ok(w) && Remembered(w, id, u, pair) && Keeps(w, st)
    ensures Remembered(Exec(w, st), id, u, pair)
  {
    if st.Refreshes? { RefreshRemembers(w, st.id, st.active, st.enforce, st.ttl, id, u, pair); }
  }

  lemma {:induction false} RunRemembers(w: World, steps: seq<Step>, id: Id, u: int, pair: Id)
    requires Ok(w) && Remembered(w, id, u, pair) && AllKeep(w, steps)
    ensures Ok(Run(w, steps)) && Remembered(Run(w, steps), id, u, pair)
    decreases |steps|
  {
    if steps != [] {
      StepOk(w, steps[0]);
      StepRemembers(w, steps[0], id, u, pair);
      RunRemembers(Exec(w, steps[0]), steps[1..], id, u, pair);
    }
  }

  /**
   MAIN. Once a refresh of a token was answered with a pair, every refresh of that
   token that succeeds within the grace window of its use answers with the same
   pair and changes nothing, whatever happened in between (no restart, no eviction
   of a fresh entry).
   */
  lemma SamePairInGrace(w: World, id: Id, active: bool, enforce: bool, ttl: nat, steps: seq<Step>,
                        active': bool, enforce': bool, ttl': nat)
    requires Ok(w) && Refresh(w.state, id, w.now, active, enforce, ttl).1.Pair?
    requires AllKeep(World(Refresh(w.state, id, w.now, active, enforce, ttl).0, w.now), steps)
    ensures var (s1, first) := Refresh(w.state, id, w.now, active, enforce, ttl);
            var w2 := Run(World(s1, w.now), steps);
            id in w2.state.tokens && InGrace(w2.state.tokens[id], w2.now) ==>
              Refresh(w2.state, id, w2.now, active', enforce', ttl') == (w2.state, first)
  {
    AnswerIsRemembered(w, id, active, enforce, ttl);
    RefreshOk(w, id, active, enforce, ttl);
    var (s1, first) := Refresh(w.state, id, w.now, active, enforce, ttl);
    RunRemembers(World(s1, w.now), steps, id, s1.tokens[id].used.value, first.id);
  }

  /**
   MAIN. When a refresh succeeds: a live token of an active user before its expiry;
   a rotated one only in its grace window, from the cache or, forgotten, as a live one.
   */
  lemma RefreshSucceedsExactly(w: World, id: Id, active: bool, enforce: bool, ttl: nat)
    requires Ok(w)
    ensures var r := Refresh(w.state, id, w.now, active, enforce, ttl).1;
            r.Pair? <==>
              && id in w.state.tokens
              && var t := w.state.tokens[id]; var usable := active && w.now < t.expires;
                 if Rotated(t) then InGrace(t, w.now) && (Find(w.state.cache, id).Some? || usable) else usable
  {
    if id in w.state.tokens { assert TokenOk(w.state.tokens, w.state.nextId, w.now, id) && EntryOk(w, id); }
  }

  /** MAIN. A rotation spends its token, names a new one of the same family and user as its successor, and touches no other row. */
  lemma RotationHandsOver(w: World, id: Id, active: bool, enforce: bool, ttl: nat)
    requires Ok(w) && id in w.state.tokens && !Rotated(w.state.tokens[id])
    requires Refresh(w.state, id, w.now, active, enforce, ttl).1.Pair?
    ensures var t := w.state.tokens[id]; var (s', r) := Refresh(w.state, id, w.now, active, enforce, ttl);
            && r.id !in w.state.tokens && r.id != id
            && s'.tokens.Keys == w.state.tokens.Keys + {r.id}
            && s'.tokens[id] == t.(used := Some(w.now), revoked := Some(w.now), next := Some(r.id))
            && s'.tokens[r.id] == Token(t.user, t.family, None, None, None, w.now + ttl)
            && forall x :: x in w.state.tokens && x != id ==> s'.tokens[x] == w.state.tokens[x]
  {
    IdsBelowCounter(w);
    RefreshMints(w, id, active, enforce, ttl);
  }

  // ---------------------------------------------------------------- dead families

  /** Every token revoked, and every rotation past its grace window. */
  ghost predicate Dead(w: World, f: Id) {
    forall id :: id in w.state.tokens && w.state.tokens[id].family == f ==>
      w.state.tokens[id].revoked.Some? && !InGrace(w.state.tokens[id], w.now)
  }

  /** The rows of a family: same rows, unchanged, or fewer. */
  ghost predicate FamilyFrozen(ts: Tokens, ts': Tokens, f: Id) {
    forall id :: id in ts' && ts'[id].family == f ==> id in ts && ts'[id] == ts[id]
  }

  lemma ShrinkDead(w: World, s': State, f: Id)
    requires Dead(w, f) && Shrinks(w.state, s', w.now)
    ensures Dead(World(s', w.now), f) && FamilyFrozen(w.state.tokens, s'.tokens, f)
  {
  }

  lemma MintDead(w: World, id: Id, active: bool, enforce: bool, ttl: nat, f: Id)
    requires Ok(w) && Dead(w, f) && Mints(w, id, active)
    ensures var s' := Refresh(w.state, id, w.now, active, enforce, ttl).0;
            Dead(World(s', w.now), f) && FamilyFrozen(w.state.tokens, s'.tokens, f)
  {
    assert w.state.tokens[id].family != f;
    RefreshMints(w, id, active, enforce, ttl);
  }

  lemma StepDead(w: World, st: Step, f: Id)
    requires Ok(w) && Dead(w, f) && f < w.state.nextId
    ensures Dead(Exec(w, st), f) && FamilyFrozen(w.state.tokens, Exec(w, st).state.tokens, f)
  {
    match st
    case Refreshes(id, active, enforce, ttl) =>
      if id in w.state.tokens {
        var t := w.state.tokens[id];
        assert TokenOk(w.state.tokens, w.state.nextId, w.now, id);
        if Rotated(t) && !InGrace(t, w.now) {
          RejectStaleShrinks(w.state, id, w.now, enforce);
          ShrinkDead(w, RejectStale(w.state, id, w.now, enforce).0, f);
        } else if Mints(w, id, active) {
          MintDead(w, id, active, enforce, ttl, f);
        }
      }
    case _ =>
  }

  /**
   MAIN. A dead family stays dead: no later run - refreshes, replays, logouts,
   cleanups, clock steps, restarts, evictions, either reuse mode - creates a token
   in it or changes one.
   */
  lemma {:induction false} DeadStaysDead(w: World, steps: seq<Step>, f: Id)
    requires Ok(w) && Dead(w, f) && f < w.state.nextId
    ensures Dead(Run(w, steps), f) && FamilyFrozen(w.state.tokens, Run(w, steps).state.tokens, f)
    decreases |steps|
  {
    if steps != [] {
      StepOk(w, steps[0]);
      StepDead(w, steps[0], f);
      DeadStaysDead(Exec(w, steps[0]), steps[1..], f);
    }
  }

  /** A stale replay whose successor was used: the whole family goes, or in log mode nothing does. */
  lemma ReuseRevokesTheFamily(w: World, id: Id, active: bool, enforce: bool, ttl: nat)
    requires Ok(w) && id in w.state.tokens && w.state.tokens[id].used.Some? && !InGrace(w.state.tokens[id], w.now)
    ensures var t := w.state.tokens[id]; var (s', r) := Refresh(w.state, id, w.now, active, enforce, ttl);
            var reused := t.next.value in w.state.tokens && w.state.tokens[t.next.value].used.Some?;
            && !r.Pair?
            && (r == ReuseDetected <==> enforce && reused)
            && (!enforce ==> s' == w.state)
            && (enforce && reused ==>
                  forall x :: x in s'.tokens && s'.tokens[x].family == t.family ==> s'.tokens[x].revoked.Some?)
  {
    assert TokenOk(w.state.tokens, w.state.nextId, w.now, id);
  }

  /**
   Revoking a family is not the end of it at once: the next refresh of one of its
   tokens mints again exactly when that token is in its grace window, unexpired,
   its user active, and its pair no longer remembered.
   */
  lemma RevokedFamilyMintsExactlyWhenForgotten(w: World, id: Id, active: bool, enforce: bool, ttl: nat)
    requires Ok(w) && id in w.state.tokens
    requires forall x :: x in w.state.tokens && w.state.tokens[x].family == w.state.tokens[id].family ==> w.state.tokens[x].revoked.Some?
    ensures var t := w.state.tokens[id]; var ts := Refresh(w.state, id, w.now, active, enforce, ttl).0.tokens;
            (exists x :: x in ts && ts[x].family == t.family && ts[x].revoked.None?)
            <==> InGrace(t, w.now) && w.now < t.expires && active && Find(w.state.cache, id).None?
  {
    var t := w.state.tokens[id];
    assert TokenOk(w.state.tokens, w.state.nextId, w.now, id) && EntryOk(w, id);
    var ts := Refresh(w.state, id, w.now, active, enforce, ttl).0.tokens;
    if Mints(w, id, active) {
      RefreshMints(w, id, active, enforce, ttl);
      var m := BeforeMint(w, id).1;
      assert m in ts && ts[m].family == t.family && ts[m].revoked.None?;
    }
  }

  // ---------------------------------------------------------------- a revoked family that mints

  /** A login, a refresh, a logout everywhere, a restart, and some time. */
  function Forgotten(user: Id, ttl: nat, ms: nat): seq<Step> {
    [LogsIn(user, ttl), Refreshes(0, true, true, ttl), LogsOutAll(user), Restarts, Tick(ms)]
  }

  function Opened(user: Id, ttl: nat, now: int): World {
    World(State(map[0 := Token(user, 0, None, None, None, now + ttl)], [], 1), now)
  }

  function Turned(user: Id, ttl: nat, now: int): World {
    World(State(map[0 := Token(user, 0, Some(now), Some(now), Some(1), now + ttl), 1 := Token(user, 0, None, None, None, now + ttl)],
                [Entry(0, 1, now)], 2), now)
  }

  function LoggedOut(user: Id, ttl: nat, now: int): Tokens {
    map[0 := Token(user, 0, Some(now), Some(now), Some(1), now + ttl), 1 := Token(user, 0, None, Some(now), None, now + ttl)]
  }

  lemma OpenedTurns(user: Id, ttl: nat, now: int)
    requires ttl > 0
    ensures Exec(Opened(user, ttl, now), Refreshes(0, true, true, ttl)) == Turned(user, ttl, now)
  {
    var w := Opened(user, ttl, now);
    RefreshMints(w, 0, true, true, ttl);
    assert CachePair([], 0, 1, now) == [Entry(0, 1, now)];
    var s := Refresh(w.state, 0, now, true, true, ttl).0;
    assert s.tokens == Turned(user, ttl, now).state.tokens;
  }

  lemma ForgottenReached(user: Id, ttl: nat, ms: nat, now: int)
    requires ttl > 0
    ensures Run(World(State(map[], [], 0), now), Forgotten(user, ttl, ms)) == World(State(LoggedOut(user, ttl, now), [], 2), now + ms)
  {
    var st := Forgotten(user, ttl, ms);
    var w0 := World(State(map[], [], 0), now);
    assert Exec(w0, st[0]) == Opened(user, ttl, now);
    OpenedTurns(user, ttl, now);
    var w2 := Turned(user, ttl, now);
    assert LogoutAll(w2.state, user, now).tokens == LoggedOut(user, ttl, now);
    RunFive(w0, st);
  }

  lemma RunFive(w: World, st: seq<Step>)
    requires |st| == 5
    ensures Run(w, st) == Exec(Exec(Exec(Exec(Exec(w, st[0]), st[1]), st[2]), st[3]), st[4])
  {
    var w1 := Exec(w, st[0]);
    var w2 := Exec(w1, st[1]);
    var w3 := Exec(w2, st[2]);
    Peel(w, st);
    Peel(w1, st[1..]);
    Peel(w2, st[1..][1..]);
    Peel(w3, st[1..][1..][1..]);
    Peel(Exec(w3, st[3]), st[1..][1..][1..][1..]);
  }

  lemma Peel(w: World, st: seq<Step>)
    requires st != []
    ensures Run(w, st) == Run(Exec(w, st[0]), st[1..])
    ensures |st| == 1 ==> Run(w, st) == Exec(w, st[0])
  {
  }

  /**
   From the empty table: after a logout everywhere and a restart, every token is
   revoked, and a replay inside the minute still mints a live one.
   */
  lemma RevokedFamilyMintsAfterRestart(user: Id, ttl: nat, ms: nat, now: int)
    requires ms < 60_000 && ms < ttl
    ensures var w := Run(World(State(map[], [], 0), now), Forgotten(user, ttl, ms));
            var ts := Refresh(w.state, 0, w.now, true, true, ttl).0.tokens;
            && 0 in w.state.tokens && w.state.tokens[0].family == 0
            && (forall x :: x in w.state.tokens ==> w.state.tokens[x].revoked.Some?)
            && (exists x :: x in ts && ts[x].family == 0 && ts[x].revoked.None?)
  {
    var w0 := World(State(map[], [], 0), now);
    ForgottenReached(user, ttl, ms, now);
    CacheBounded(w0, Forgotten(user, ttl, ms));
    RevokedFamilyMintsExactlyWhenForgotten(Run(w0, Forgotten(user, ttl, ms)), 0, true, true, ttl);
  }
}

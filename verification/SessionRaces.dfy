/**
 Any number of refreshes in flight at once. Between two awaits of a call anything
 else may run: other refreshes, logouts, cleanups, a restart of the cache. A call
 is in one of the phases below; a step resumes one call from one await to the next.
 */
module SessionRaces {
  import opened Prelude
  import opened Sessions

  datatype Call =
    | Loaded(id: Id, row: Token)                        // the SELECT of the presented token has answered
    | Marking(id: Id, row: Token, succ: Id, at: int)    // its conditional UPDATE is on the way
    | Minting(id: Id, row: Token, won: Option<Id>)      // past every check; won: the id if this call won the mark
    | Remembering(id: Id, pair: Id)                     // its row is inserted, its pair not yet cached
    | Judging(id: Id, row: Token)                       // stale replay: its successor is being read
    | RevokingFamily(id: Id, family: Id)
    | RevokingSuccessor(succ: Id)

  datatype World = World(state: State, now: int, calls: map<nat, Call>)

  datatype Step =
    | Tick(ms: nat)
    | Arrives(call: nat, id: Id)
    | Decides(call: nat)
    | Marks(call: nat)
    | Mints(call: nat, active: bool, ttl: nat)
    | Remembers(call: nat)
    | Judges(call: nat, enforce: bool)
    | Revokes(call: nat)
    | LogsIn(user: Id, ttl: nat)
    | LogsOut(id: Id)
    | LogsOutAll(user: Id)
    | CleansUp
    | Restarts

  function Goes(w: World, c: nat, s: State, next: Call): World { w.(state := s, calls := w.calls[c := next]) }

  function Ends(w: World, c: nat, s: State): World { w.(state := s, calls := w.calls - {c}) }

  /** The continuation after the row was read: what the clock and the cache say now. */
  function Decide(w: World, c: nat): World
    requires c in w.calls && w.calls[c].Loaded?
  {
    var s := w.state;
    var Loaded(id, row) := w.calls[c];
    if Rotated(row) && !InGrace(row, w.now) then Goes(w, c, s, Judging(id, row))
    else
      var (cache, hit) := if Rotated(row) then Lookup(s.cache, id, w.now) else (s.cache, None);
      var s1 := s.(cache := cache);
      if hit.Some? || row.expires <= w.now then Ends(w, c, s1)
      else if Rotated(row) then Goes(w, c, s1.(nextId := s.nextId + 1), Minting(id, row, None))
      else Goes(w, c, s1.(nextId := s.nextId + 1), Marking(id, row, s.nextId, w.now))
  }

  predicate WinsMark(w: World, c: nat) {
    && c in w.calls && w.calls[c].Marking? && w.calls[c].id in w.state.tokens
    && w.state.tokens[w.calls[c].id].used.None? && w.state.tokens[w.calls[c].id].revoked.None?
  }

  /** The conditional UPDATE, and the continuation of the call that lost it. */
  function Mark(w: World, c: nat): World
    requires c in w.calls && w.calls[c].Marking?
  {
    var s := w.state;
    var Marking(id, row, succ, at) := w.calls[c];
    if WinsMark(w, c)
    then Goes(w, c, s.(tokens := s.tokens[id := MarkUsed(s.tokens[id], at, succ)]), Minting(id, row, Some(succ)))
    else
      var (cache, hit) := Lookup(s.cache, id, w.now);
      if hit.Some? then Ends(w, c, s.(cache := cache))
      else Goes(w, c, s.(cache := cache), Minting(id, row, None))
  }

  /** The user check and the INSERT. */
  function MintNow(w: World, c: nat, active: bool, ttl: nat): World
    requires c in w.calls && w.calls[c].Minting?
  {
    var s := w.state;
    var Minting(id, row, won) := w.calls[c];
    if !active then Ends(w, c, s)
    else
      var m := if won.Some? then won.value else s.nextId;
      Goes(w, c, s.(tokens := s.tokens[m := Token(row.user, row.family, None, None, None, w.now + ttl)],
                    nextId := if won.Some? then s.nextId else s.nextId + 1),
           Remembering(id, m))
  }

  function Remember(w: World, c: nat): World
    requires c in w.calls && w.calls[c].Remembering?
  {
    Ends(w, c, w.state.(cache := CachePair(w.state.cache, w.calls[c].id, w.calls[c].pair, w.now)))
  }

  /** The successor has been read: revoke the family, the successor, or nothing. */
  function Judge(w: World, c: nat, enforce: bool): World
    requires c in w.calls && w.calls[c].Judging?
  {
    var s := w.state;
    var Judging(id, row) := w.calls[c];
    var succ := SuccessorOf(s.tokens, row);
    if row.used.None? || succ.None? || !enforce then Ends(w, c, s)
    else if s.tokens[succ.value].used.Some? then Goes(w, c, s, RevokingFamily(id, row.family))
    else if s.tokens[succ.value].revoked.None? then Goes(w, c, s, RevokingSuccessor(succ.value))
    else Ends(w, c, s)
  }

  function Revoke(w: World, c: nat): World
    requires c in w.calls && (w.calls[c].RevokingFamily? || w.calls[c].RevokingSuccessor?)
  {
    var s := w.state;
    match w.calls[c]
    case RevokingFamily(id, f) =>
      Ends(w, c, s.(tokens := RevokeFamily(s.tokens, f, w.now), cache := Drop(s.cache, id)))
    case RevokingSuccessor(succ) =>
      if succ in s.tokens && s.tokens[succ].used.None? then Ends(w, c, s.(tokens := RevokeOne(s.tokens, succ, w.now)))
      else Ends(w, c, s)
  }

  function Exec(w: World, st: Step): World {
    match st
    case Tick(ms) => w.(now := w.now + ms)
    case Arrives(c, id) =>
      if c !in w.calls && id in w.state.tokens then w.(calls := w.calls[c := Loaded(id, w.state.tokens[id])]) else w
    case Decides(c) => if c in w.calls && w.calls[c].Loaded? then Decide(w, c) else w
    case Marks(c) => if c in w.calls && w.calls[c].Marking? then Mark(w, c) else w
    case Mints(c, active, ttl) => if c in w.calls && w.calls[c].Minting? then MintNow(w, c, active, ttl) else w
    case Remembers(c) => if c in w.calls && w.calls[c].Remembering? then Remember(w, c) else w
    case Judges(c, enforce) => if c in w.calls && w.calls[c].Judging? then Judge(w, c, enforce) else w
    case Revokes(c) =>
      if c in w.calls && (w.calls[c].RevokingFamily? || w.calls[c].RevokingSuccessor?) then Revoke(w, c) else w
    case LogsIn(user, ttl) => w.(state := Login(w.state, user, w.now, ttl))
    case LogsOut(id) => w.(state := Logout(w.state, id, w.now))
    case LogsOutAll(user) => w.(state := LogoutAll(w.state, user, w.now))
    case CleansUp => w.(state := Cleanup(w.state, w.now))
    case Restarts => w.(state := Restart(w.state))
  }

  function Run(w: World, steps: seq<Step>): World
    decreases |steps|
  {
    if steps == [] then w else Run(Exec(w, steps[0]), steps[1..])
  }

  function Start(now: int): World { World(State(map[], [], 0), now, map[]) }

  // ---------------------------------------------------------------- the invariant

  /** The id a call has set aside for a row it may insert. */
  function Reserved(c: Call): Option<Id> {
    match c
    case Marking(_, _, succ, _) => Some(succ)
    case Minting(_, _, won) => won
    case _ => None
  }

  /** The id of the token a call was presented with, while it still looks at that row. */
  function Presented(c: Call): Option<Id> {
    match c
    case Loaded(id, _) => Some(id)
    case Marking(id, _, _, _) => Some(id)
    case Minting(id, _, _) => Some(id)
    case _ => None
  }

  ghost predicate RowOk(ts: Tokens, nextId: Id, id: Id)
    requires id in ts
  {
    var t := ts[id];
    && id < nextId
    && (t.used.Some? ==> t.revoked.Some? && t.next.Some?)
    && (t.next.Some? ==> t.used.Some? && id < t.next.value < nextId)
    && (t.next.Some? && t.next.value in ts ==> ts[t.next.value].family == t.family && ts[t.next.value].user == t.user)
  }

  /** Successor ids are never shared. */
  ghost predicate NextsDistinct(ts: Tokens) {
    forall a, b | a in ts && b in ts && ts[a].next.Some? :: ts[a].next == ts[b].next ==> a == b
  }

  /** A call remembers the immutable part of its row, and what it reserved is still free for it alone. */
  ghost predicate CallOk(w: World, c: nat)
    requires c in w.calls
  {
    var call := w.calls[c];
    && (Presented(call).Some? ==> call.id < w.state.nextId && (call.id in w.state.tokens ==>
          w.state.tokens[call.id].user == call.row.user && w.state.tokens[call.id].family == call.row.family))
    && (Reserved(call).Some? ==> var m := Reserved(call).value;
          && call.id < m < w.state.nextId && m !in w.state.tokens
          && (forall x :: x in w.state.tokens && w.state.tokens[x].next == Some(m) ==> call.Minting? && x == call.id))
  }

  /** No id is reserved twice, and none that a call was presented with. */
  ghost predicate ReservedOnce(w: World) {
    forall c, d | c in w.calls && d in w.calls && Reserved(w.calls[c]).Some? ::
      (Reserved(w.calls[c]) == Reserved(w.calls[d]) ==> c == d) && Reserved(w.calls[c]) != Presented(w.calls[d])
  }

  ghost predicate Ok(w: World) {
    && (forall id :: id in w.state.tokens ==> RowOk(w.state.tokens, w.state.nextId, id))
    && NextsDistinct(w.state.tokens)
    && (forall c :: c in w.calls ==> CallOk(w, c))
    && ReservedOnce(w)
  }

  // ---------------------------------------------------------------- how rows may change

  /** Fields that are set stay set, with the value they were given. */
  ghost predicate OnlyOnce<T>(a: Option<T>, b: Option<T>) { a.Some? ==> b == a }

  ghost predicate RowGrows(ts: Tokens, ts': Tokens, id: Id)
    requires id in ts && id in ts'
  {
    && ts'[id].user == ts[id].user && ts'[id].family == ts[id].family && ts'[id].expires == ts[id].expires
    && OnlyOnce(ts[id].used, ts'[id].used) && OnlyOnce(ts[id].revoked, ts'[id].revoked) && OnlyOnce(ts[id].next, ts'[id].next)
  }

  /** Rows change only by setting empty fields; a new row takes a reserved or brand-new id. */
  ghost predicate Grows(w: World, w': World) {
    && w'.state.nextId >= w.state.nextId
    && (forall id :: id in w'.state.tokens && id in w.state.tokens ==> RowGrows(w.state.tokens, w'.state.tokens, id))
  }

  // ---------------------------------------------------------------- each kind of step keeps it

  lemma RowsBelowCounter(w: World)
    requires Ok(w)
    ensures forall id :: id in w.state.tokens ==> id < w.state.nextId
  {
    forall id | id in w.state.tokens ensures id < w.state.nextId { assert RowOk(w.state.tokens, w.state.nextId, id); }
  }

  /** Only revocations and deletions of rows; calls untouched or one of them gone. */
  lemma ShrinkOk(w: World, w': World)
    requires Ok(w) && w'.state.nextId >= w.state.nextId && w'.state.tokens.Keys <= w.state.tokens.Keys
    requires forall id :: id in w'.state.tokens ==>
      w'.state.tokens[id] == w.state.tokens[id]
      || (w.state.tokens[id].revoked.None? && w'.state.tokens[id] == w.state.tokens[id].(revoked := w'.state.tokens[id].revoked)
          && w'.state.tokens[id].revoked.Some?)
    requires forall c :: c in w'.calls ==> c in w.calls && w'.calls[c] == w.calls[c]
    ensures Ok(w') && Grows(w, w')
  {
    forall id | id in w'.state.tokens
      ensures RowOk(w'.state.tokens, w'.state.nextId, id) && RowGrows(w.state.tokens, w'.state.tokens, id)
    {
      assert RowOk(w.state.tokens, w.state.nextId, id);
    }
    forall c | c in w'.calls ensures CallOk(w', c) { assert CallOk(w, c); }
  }

  /** The rows stay; one call moves to a phase that reserves nothing new. */
  lemma CallMoves(w: World, w': World, c: nat)
    requires Ok(w) && w'.state.tokens == w.state.tokens && w'.state.nextId >= w.state.nextId
    requires c in w'.calls && (forall d :: d in w'.calls && d != c ==> d in w.calls && w'.calls[d] == w.calls[d])
    requires CallOk(w', c)
    requires Reserved(w'.calls[c]).Some? ==> Reserved(w'.calls[c]).value >= w.state.nextId
    requires Presented(w'.calls[c]).Some? ==> c in w.calls && Presented(w'.calls[c]) == Presented(w.calls[c])
    ensures Ok(w') && Grows(w, w')
  {
    forall id | id in w'.state.tokens
      ensures RowOk(w'.state.tokens, w'.state.nextId, id) && RowGrows(w.state.tokens, w'.state.tokens, id)
    {
      assert RowOk(w.state.tokens, w.state.nextId, id);
    }
    forall d | d in w'.calls && d != c ensures CallOk(w', d) { assert CallOk(w, d); }
    forall a, b | a in w'.calls && b in w'.calls && Reserved(w'.calls[a]).Some?
      ensures (Reserved(w'.calls[a]) == Reserved(w'.calls[b]) ==> a == b) && Reserved(w'.calls[a]) != Presented(w'.calls[b])
    {
      assert CallOk(w', a) && CallOk(w', b);
      if a in w.calls { assert CallOk(w, a); }
      if b in w.calls { assert CallOk(w, b); }
    }
  }

  lemma DecideOk(w: World, c: nat)
    requires Ok(w) && c in w.calls && w.calls[c].Loaded?
    ensures Ok(Decide(w, c)) && Grows(w, Decide(w, c))
  {
    var w' := Decide(w, c);
    assert CallOk(w, c);
    if c in w'.calls {
      RowsBelowCounter(w);
      assert CallOk(w', c) by {
        forall x | x in w.state.tokens && w.state.tokens[x].next.Some? ensures w.state.tokens[x].next.value < w.state.nextId {
          assert RowOk(w.state.tokens, w.state.nextId, x);
        }
      }
      CallMoves(w, w', c);
    } else {
      ShrinkOk(w, w');
    }
  }

  lemma WonMarkOk(w: World, c: nat)
    requires Ok(w) && WinsMark(w, c)
    ensures Ok(Mark(w, c)) && Grows(w, Mark(w, c))
  {
    var w' := Mark(w, c);
    var id, succ := w.calls[c].id, w.calls[c].succ;
    assert CallOk(w, c);
    forall x | x in w'.state.tokens
      ensures RowOk(w'.state.tokens, w'.state.nextId, x) && RowGrows(w.state.tokens, w'.state.tokens, x)
    {
      assert RowOk(w.state.tokens, w.state.nextId, x);
    }
    forall d | d in w'.calls ensures CallOk(w', d) {
      assert CallOk(w, d);
      assert d != c && Reserved(w.calls[d]).Some? ==> Reserved(w.calls[d]) != Reserved(w.calls[c]);
    }
    assert NextsDistinct(w'.state.tokens);
    assert ReservedOnce(w');
  }

  lemma LostMarkOk(w: World, c: nat)
    requires Ok(w) && c in w.calls && w.calls[c].Marking? && !WinsMark(w, c)
    ensures Ok(Mark(w, c)) && Grows(w, Mark(w, c))
  {
    var w' := Mark(w, c);
    assert CallOk(w, c);
    if c in w'.calls { assert CallOk(w', c); CallMoves(w, w', c); } else { ShrinkOk(w, w'); }
  }

  lemma InsertRows(w: World, w': World, m: Id, t: Token)
    requires m !in w.state.tokens && w'.state.tokens == w.state.tokens[m := t]
    requires forall x :: x in w.state.tokens ==> RowOk(w.state.tokens, w.state.nextId, x)
    requires t.used.None? && t.revoked.None? && t.next.None?
    requires m < w'.state.nextId && w.state.nextId <= w'.state.nextId
    requires forall x :: x in w.state.tokens && w.state.tokens[x].next == Some(m) ==>
      w.state.tokens[x].family == t.family && w.state.tokens[x].user == t.user
    ensures forall x :: x in w'.state.tokens ==> RowOk(w'.state.tokens, w'.state.nextId, x)
    ensures Grows(w, w')
  {
    forall x | x in w'.state.tokens
      ensures RowOk(w'.state.tokens, w'.state.nextId, x) && (x in w.state.tokens ==> RowGrows(w.state.tokens, w'.state.tokens, x))
    {
      if x != m { assert RowOk(w.state.tokens, w.state.nextId, x); }
    }
  }

  /** Inserting a row under `m`, which call `c` had reserved or nobody has seen. */
  lemma InsertOk(w: World, w': World, c: nat, m: Id, t: Token)
    requires Ok(w) && c in w.calls && c in w'.calls && w'.calls == w.calls[c := w'.calls[c]] && w'.calls[c].Remembering?
    requires m !in w.state.tokens && w'.state.tokens == w.state.tokens[m := t]
    requires t.used.None? && t.revoked.None? && t.next.None?
    requires m < w'.state.nextId && w.state.nextId <= w'.state.nextId
    requires m >= w.state.nextId || Reserved(w.calls[c]) == Some(m)
    requires forall x :: x in w.state.tokens && w.state.tokens[x].next == Some(m) ==>
      w.state.tokens[x].family == t.family && w.state.tokens[x].user == t.user
    ensures Ok(w') && Grows(w, w')
  {
    InsertRows(w, w', m, t);
    forall d | d in w'.calls ensures CallOk(w', d) {
      if d != c {
        assert CallOk(w, d) && CallOk(w, c);
        assert Presented(w.calls[d]) != Some(m) && Reserved(w.calls[d]) != Some(m);
      }
    }
  }

  lemma MintNowOk(w: World, c: nat, active: bool, ttl: nat)
    requires Ok(w) && c in w.calls && w.calls[c].Minting?
    ensures Ok(MintNow(w, c, active, ttl)) && Grows(w, MintNow(w, c, active, ttl))
  {
    var w' := MintNow(w, c, active, ttl);
    if !active {
      ShrinkOk(w, w');
    } else {
      var call := w.calls[c];
      var m := if call.won.Some? then call.won.value else w.state.nextId;
      assert CallOk(w, c);
      RowsBelowCounter(w);
      forall x | x in w.state.tokens && w.state.tokens[x].next == Some(m)
        ensures w.state.tokens[x].family == call.row.family && w.state.tokens[x].user == call.row.user
      {
        assert RowOk(w.state.tokens, w.state.nextId, x);
      }
      InsertOk(w, w', c, m, Token(call.row.user, call.row.family, None, None, None, w.now + ttl));
    }
  }

  lemma LoginOk(w: World, user: Id, ttl: nat)
    requires Ok(w)
    ensures var w' := Exec(w, LogsIn(user, ttl)); Ok(w') && Grows(w, w')
  {
    var w' := Exec(w, LogsIn(user, ttl));
    RowsBelowCounter(w);
    forall x | x in w'.state.tokens
      ensures RowOk(w'.state.tokens, w'.state.nextId, x) && (x in w.state.tokens ==> RowGrows(w.state.tokens, w'.state.tokens, x))
    {
      if x != w.state.nextId { assert RowOk(w.state.tokens, w.state.nextId, x); }
    }
    forall d | d in w'.calls ensures CallOk(w', d) { assert CallOk(w, d); }
  }

  lemma ArrivesOk(w: World, c: nat, id: Id)
    requires Ok(w) && c !in w.calls && id in w.state.tokens
    ensures var w' := Exec(w, Arrives(c, id)); Ok(w') && Grows(w, w')
  {
    var w' := Exec(w, Arrives(c, id));
    RowsBelowCounter(w);
    forall d | d in w'.calls ensures CallOk(w', d) { if d != c { assert CallOk(w, d); } }
    forall x | x in w.state.tokens ensures RowGrows(w.state.tokens, w'.state.tokens, x) {}
    forall a, b | a in w'.calls && b in w'.calls && Reserved(w'.calls[a]).Some?
      ensures (Reserved(w'.calls[a]) == Reserved(w'.calls[b]) ==> a == b) && Reserved(w'.calls[a]) != Presented(w'.calls[b])
    {
      assert a != c && CallOk(w, a);
    }
  }

  lemma JudgeOk(w: World, c: nat, enforce: bool)
    requires Ok(w) && c in w.calls && w.calls[c].Judging?
    ensures Ok(Judge(w, c, enforce)) && Grows(w, Judge(w, c, enforce))
  {
    var w' := Judge(w, c, enforce);
    if c in w'.calls { CallMoves(w, w', c); } else { ShrinkOk(w, w'); }
  }

  lemma StepOk(w: World, st: Step)
    requires Ok(w)
    ensures Ok(Exec(w, st)) && Grows(w, Exec(w, st))
  {
    match st
    case Arrives(c, id) => if c !in w.calls && id in w.state.tokens { ArrivesOk(w, c, id); } else { ShrinkOk(w, w); }
    case Decides(c) => if c in w.calls && w.calls[c].Loaded? { DecideOk(w, c); } else { ShrinkOk(w, w); }
    case Marks(c) =>
      if WinsMark(w, c) { WonMarkOk(w, c); }
      else if c in w.calls && w.calls[c].Marking? { LostMarkOk(w, c); }
      else { ShrinkOk(w, w); }
    case Mints(c, active, ttl) =>
      if c in w.calls && w.calls[c].Minting? { MintNowOk(w, c, active, ttl); } else { ShrinkOk(w, w); }
    case Judges(c, enforce) => if c in w.calls && w.calls[c].Judging? { JudgeOk(w, c, enforce); } else { ShrinkOk(w, w); }
    case LogsIn(user, ttl) => LoginOk(w, user, ttl);
    case _ => ShrinkOk(w, Exec(w, st));
  }

  // ---------------------------------------------------------------- every run

  lemma GrowsCompose(a: World, b: World, c: World)
    requires Grows(a, b) && Grows(b, c)
    requires forall id :: id in a.state.tokens && id in c.state.tokens ==> id in b.state.tokens
    ensures Grows(a, c)
  {
    forall id | id in c.state.tokens && id in a.state.tokens ensures RowGrows(a.state.tokens, c.state.tokens, id) {
      assert RowGrows(a.state.tokens, b.state.tokens, id) && RowGrows(b.state.tokens, c.state.tokens, id);
    }
  }

  /** An id that was issued and belongs to no one's reservation: it can never come back. */
  ghost predicate Spent(w: World, id: Id) {
    id < w.state.nextId && forall c :: c in w.calls ==> Reserved(w.calls[c]) != Some(id)
  }

  lemma RowsAreSpent(w: World, id: Id)
    requires Ok(w) && id in w.state.tokens
    ensures Spent(w, id)
  {
    assert RowOk(w.state.tokens, w.state.nextId, id);
    forall c | c in w.calls ensures Reserved(w.calls[c]) != Some(id) { assert CallOk(w, c); }
  }

  /** A deleted row never returns. */
  lemma StepSpent(w: World, st: Step, id: Id)
    requires Ok(w) && Spent(w, id)
    ensures Spent(Exec(w, st), id)
    ensures id !in w.state.tokens ==> id !in Exec(w, st).state.tokens
  {
    if st.Mints? && st.call in w.calls { assert Reserved(w.calls[st.call]) != Some(id); }
    var w' := Exec(w, st);
    forall c | c in w'.calls ensures Reserved(w'.calls[c]) != Some(id) {
      if c in w.calls { assert Reserved(w.calls[c]) != Some(id); }
    }
  }

  lemma {:induction false} RunOk(w: World, steps: seq<Step>)
    requires Ok(w)
    ensures Ok(Run(w, steps)) && Grows(w, Run(w, steps))
    ensures forall id :: Spent(w, id) ==> Spent(Run(w, steps), id) && (id !in w.state.tokens ==> id !in Run(w, steps).state.tokens)
    decreases |steps|
  {
    if steps == [] {
      ShrinkOk(w, w);
    } else {
      var next := Exec(w, steps[0]);
      StepOk(w, steps[0]);
      RunOk(next, steps[1..]);
      var last := Run(w, steps);
      forall id | Spent(w, id)
        ensures Spent(last, id) && (id !in w.state.tokens ==> id !in last.state.tokens)
      {
        StepSpent(w, steps[0], id);
      }
      forall id | id in w.state.tokens && id in last.state.tokens ensures id in next.state.tokens {
        RowsAreSpent(w, id);
        StepSpent(w, steps[0], id);
      }
      GrowsCompose(w, next, last);
    }
  }

  lemma StartOk(now: int)
    ensures Ok(Start(now))
  {
  }

  /**
   MAIN. In every state any interleaving can reach: a used token is revoked and
   names a successor; no two tokens name the same one; a successor that exists has
   its predecessor's family and user.
   */
  lemma RotationChainsSound(now: int, steps: seq<Step>, id: Id)
    requires id in Run(Start(now), steps).state.tokens
    ensures var ts := Run(Start(now), steps).state.tokens; var t := ts[id];
            && (t.used.Some? ==> t.revoked.Some? && t.next.Some?)
            && (t.next.Some? ==> forall other :: other in ts && other != id ==> ts[other].next != t.next)
            && (t.next.Some? && t.next.value in ts ==> ts[t.next.value].family == t.family && ts[t.next.value].user == t.user)
  {
    StartOk(now);
    RunOk(Start(now), steps);
    var w := Run(Start(now), steps);
    assert RowOk(w.state.tokens, w.state.nextId, id);
  }

  /** MAIN. used_at, revoked_at and replaced_by_id never change once set, nor do user, family and expiry. */
  lemma MarksAreForever(w: World, steps: seq<Step>, id: Id)
    requires Ok(w) && id in w.state.tokens && id in Run(w, steps).state.tokens
    ensures RowGrows(w.state.tokens, Run(w, steps).state.tokens, id)
  {
    RunOk(w, steps);
  }

  /** MAIN. At most one refresh of a token wins the mark: after one has, none ever does again. */
  lemma OneWinnerPerToken(w: World, c: nat, steps: seq<Step>, d: nat)
    requires Ok(w) && WinsMark(w, c)
    ensures var later := Run(Exec(w, Marks(c)), steps);
            WinsMark(later, d) ==> later.calls[d].id != w.calls[c].id
  {
    var id := w.calls[c].id;
    var next := Exec(w, Marks(c));
    StepOk(w, Marks(c));
    RowsAreSpent(next, id);
    RunOk(next, steps);
    var later := Run(next, steps);
    if id in later.state.tokens { assert RowGrows(next.state.tokens, later.state.tokens, id); }
  }

  /** Following successors `k` times, while they exist. */
  function Follow(ts: Tokens, id: Id, k: nat): Option<Id>
    decreases k
  {
    if id !in ts then None
    else if k == 0 then Some(id)
    else if ts[id].next.None? then None
    else Follow(ts, ts[id].next.value, k - 1)
  }

  lemma {:induction false} FollowRises(w: World, id: Id, k: nat)
    requires Ok(w) && Follow(w.state.tokens, id, k).Some?
    ensures Follow(w.state.tokens, id, k).value >= id + k
    decreases k
  {
    if k > 0 {
      assert RowOk(w.state.tokens, w.state.nextId, id);
      FollowRises(w, w.state.tokens[id].next.value, k - 1);
    }
  }

  /** MAIN. A chain of successors never returns to a token it has passed. */
  lemma ChainsNeverCycle(now: int, steps: seq<Step>, id: Id, k: nat)
    requires k > 0
    ensures Follow(Run(Start(now), steps).state.tokens, id, k) != Some(id)
  {
    StartOk(now);
    RunOk(Start(now), steps);
    if Follow(Run(Start(now), steps).state.tokens, id, k).Some? { FollowRises(Run(Start(now), steps), id, k); }
  }

  // ---------------------------------------------------------------- one call at a time

  /** One call resumed again and again; a step that does not fit its phase does nothing. */
  function Alone(id: Id, active: bool, enforce: bool, ttl: nat): seq<Step> {
    [Arrives(0, id), Decides(0), Marks(0), Mints(0, active, ttl), Remembers(0), Judges(0, enforce), Revokes(0)]
  }

  lemma MintsAndRemembers(w: World, id: Id, row: Token, won: Option<Id>, active: bool, enforce: bool, ttl: nat)
    requires w.calls == map[0 := Minting(id, row, won)]
    ensures var s' := if !active then w.state
                      else if won.Some? then Mint(w.state, row, id, won.value, w.now, ttl)
                      else Mint(w.state.(nextId := w.state.nextId + 1), row, id, w.state.nextId, w.now, ttl);
            var last := World(s', w.now, map[]);
            && Exec(Exec(w, Mints(0, active, ttl)), Remembers(0)) == last
            && Exec(last, Judges(0, enforce)) == last && Exec(last, Revokes(0)) == last
  {
    var last := Exec(Exec(w, Mints(0, active, ttl)), Remembers(0));
    assert last.calls == map[];
  }

  lemma AloneUnrotated(w: World, id: Id, active: bool, enforce: bool, ttl: nat)
    requires w.calls == map[] && id in w.state.tokens && !Rotated(w.state.tokens[id])
    ensures Run(w, Alone(id, active, enforce, ttl)) == World(Refresh(w.state, id, w.now, active, enforce, ttl).0, w.now, map[])
  {
    var s := Alone(id, active, enforce, ttl);
    RunSeven(w, s);
    var w1 := Exec(w, s[0]);
    assert w1.calls == map[0 := Loaded(id, w.state.tokens[id])];
    var w2 := Decide(w1, 0);
    if 0 in w2.calls {
      assert w2.calls == map[0 := Marking(id, w.state.tokens[id], w.state.nextId, w.now)];
      var w3 := Mark(w2, 0);
      assert w3.calls == map[0 := Minting(id, w.state.tokens[id], Some(w.state.nextId))];
      MintsAndRemembers(w3, id, w.state.tokens[id], Some(w.state.nextId), active, enforce, ttl);
    } else {
      assert w2.calls == map[];
      NobodyThere(w2, active, enforce, ttl);
    }
  }

  /** Where a replay in grace stands after its row is read: answered, or about to mint. */
  lemma InGraceDecides(w: World, id: Id, active: bool, enforce: bool, ttl: nat)
    requires w.calls == map[] && id in w.state.tokens && Rotated(w.state.tokens[id]) && InGrace(w.state.tokens[id], w.now)
    ensures var row := w.state.tokens[id];
            var s1 := w.state.(cache := Lookup(w.state.cache, id, w.now).0);
            Exec(Exec(w, Arrives(0, id)), Decides(0)) ==
              if Lookup(w.state.cache, id, w.now).1.Some? || row.expires <= w.now then World(s1, w.now, map[])
              else World(s1.(nextId := w.state.nextId + 1), w.now, map[0 := Minting(id, row, None)])
  {
    var row := w.state.tokens[id];
    var w1 := Exec(w, Arrives(0, id));
    assert w1.calls == map[0 := Loaded(id, row)];
    assert w1.calls - {0} == map[];
    assert w1.calls[0 := Minting(id, row, None)] == map[0 := Minting(id, row, None)];
  }

  lemma AloneInGrace(w: World, id: Id, active: bool, enforce: bool, ttl: nat)
    requires w.calls == map[] && id in w.state.tokens && Rotated(w.state.tokens[id]) && InGrace(w.state.tokens[id], w.now)
    ensures Run(w, Alone(id, active, enforce, ttl)) == World(Refresh(w.state, id, w.now, active, enforce, ttl).0, w.now, map[])
  {
    RunSeven(w, Alone(id, active, enforce, ttl));
    InGraceDecides(w, id, active, enforce, ttl);
    var w2 := Exec(Exec(w, Arrives(0, id)), Decides(0));
    if w2.calls == map[] {
      NobodyThere(w2, active, enforce, ttl);
    } else {
      assert Exec(w2, Marks(0)) == w2;
      MintsAndRemembers(w2, id, w.state.tokens[id], None, active, enforce, ttl);
    }
  }

  lemma AloneStale(w: World, id: Id, active: bool, enforce: bool, ttl: nat)
    requires w.calls == map[] && id in w.state.tokens && Rotated(w.state.tokens[id]) && !InGrace(w.state.tokens[id], w.now)
    requires RowOk(w.state.tokens, w.state.nextId, id)
    ensures Run(w, Alone(id, active, enforce, ttl)) == World(Refresh(w.state, id, w.now, active, enforce, ttl).0, w.now, map[])
  {
    var s := Alone(id, active, enforce, ttl);
    RunSeven(w, s);
    var w2 := Exec(Exec(w, s[0]), s[1]);
    assert w2.calls == map[0 := Judging(id, w.state.tokens[id])];
    assert Exec(Exec(Exec(w2, s[2]), s[3]), s[4]) == w2;
    var w7 := Exec(Exec(w2, s[5]), s[6]);
    assert w7.calls == map[];
    assert w7.state.tokens == Refresh(w.state, id, w.now, active, enforce, ttl).0.tokens;
  }

  /** With no call in flight, resuming one does nothing. */
  lemma NobodyThere(w: World, active: bool, enforce: bool, ttl: nat)
    requires w.calls == map[]
    ensures Exec(w, Marks(0)) == w && Exec(w, Mints(0, active, ttl)) == w && Exec(w, Remembers(0)) == w
    ensures Exec(w, Judges(0, enforce)) == w && Exec(w, Revokes(0)) == w
  {
  }

  /**
   The uninterrupted refresh of module Sessions is one of these interleavings, so
   everything above holds of it too.
   */
  lemma RefreshIsOneInterleaving(w: World, id: Id, active: bool, enforce: bool, ttl: nat)
    requires w.calls == map[] && id in w.state.tokens && RowOk(w.state.tokens, w.state.nextId, id)
    ensures Run(w, Alone(id, active, enforce, ttl)) == World(Refresh(w.state, id, w.now, active, enforce, ttl).0, w.now, map[])
  {
    if !Rotated(w.state.tokens[id]) { AloneUnrotated(w, id, active, enforce, ttl); }
    else if InGrace(w.state.tokens[id], w.now) { AloneInGrace(w, id, active, enforce, ttl); }
    else { AloneStale(w, id, active, enforce, ttl); }
  }

  lemma RunSeven(w: World, s: seq<Step>)
    requires |s| == 7
    ensures Run(w, s) == Exec(Exec(Exec(Exec(Exec(Exec(Exec(w, s[0]), s[1]), s[2]), s[3]), s[4]), s[5]), s[6])
  {
    RunPeels(w, s);
    RunPeels(Exec(w, s[0]), s[1..]);
    var w2 := Exec(Exec(w, s[0]), s[1]);
    assert s[1..][1..] == s[2..];
    RunPeels(w2, s[2..]);
    var w3 := Exec(w2, s[2]);
    assert s[2..][1..] == s[3..];
    RunPeels(w3, s[3..]);
    var w4 := Exec(w3, s[3]);
    assert s[3..][1..] == s[4..];
    RunPeels(w4, s[4..]);
    var w5 := Exec(w4, s[4]);
    assert s[4..][1..] == s[5..];
    RunPeels(w5, s[5..]);
    var w6 := Exec(w5, s[5]);
    assert s[5..][1..] == s[6..];
    RunPeels(w6, s[6..]);
    assert s[6..][1..] == [];
  }

  lemma RunPeels(w: World, s: seq<Step>)
    requires s != []
    ensures Run(w, s) == Run(Exec(w, s[0]), s[1..])
  {
  }
}

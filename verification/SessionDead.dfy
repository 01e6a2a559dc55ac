/**
 A dead family under split calls: refreshes that had read its rows before, and any
 number that arrive later, interleave with everything else and never revive it.
 */
module SessionDead {
  import opened Prelude
  import opened Sessions
  import opened SessionRaces

  /** Every token revoked, and every rotation past its grace window. */
  ghost predicate Dead(w: World, f: Id) {
    forall id :: id in w.state.tokens && w.state.tokens[id].family == f ==>
      w.state.tokens[id].revoked.Some? && !InGrace(w.state.tokens[id], w.now)
  }

  /** A call past the checks is not about this family; one still before them read a row the checks refuse. */
  predicate Harmless(call: Call, f: Id, now: int) {
    match call
    case Loaded(_, row) => row.family == f ==> Rotated(row) && !InGrace(row, now)
    case Marking(_, row, _, _) => row.family != f
    case Minting(_, row, _) => row.family != f
    case _ => true
  }

  ghost predicate NoneInFlight(w: World, f: Id) { forall c :: c in w.calls ==> Harmless(w.calls[c], f, w.now) }

  /** The rows of a family: unchanged, or fewer. */
  ghost predicate Frozen(ts: Tokens, ts': Tokens, f: Id) {
    forall id :: id in ts' && ts'[id].family == f ==> id in ts && ts'[id] == ts[id]
  }

  ghost predicate StillDead(w: World, w': World, f: Id) {
    Dead(w', f) && NoneInFlight(w', f) && Frozen(w.state.tokens, w'.state.tokens, f) && f < w'.state.nextId
  }

  /** Rows only revoked or removed, calls only ended or moved to a harmless phase. */
  lemma QuietStep(w: World, w': World, f: Id)
    requires Dead(w, f) && NoneInFlight(w, f) && f < w.state.nextId <= w'.state.nextId && w.now <= w'.now
    requires Frozen(w.state.tokens, w'.state.tokens, f)
    requires forall c :: c in w'.calls ==> (c in w.calls && w'.calls[c] == w.calls[c]) || Harmless(w'.calls[c], f, w'.now)
    ensures StillDead(w, w', f)
  {
    forall c | c in w'.calls ensures Harmless(w'.calls[c], f, w'.now) {
      if c in w.calls && w'.calls[c] == w.calls[c] { assert Harmless(w.calls[c], f, w.now); }
    }
  }

  lemma DecideDead(w: World, c: nat, f: Id)
    requires Dead(w, f) && NoneInFlight(w, f) && f < w.state.nextId && c in w.calls && w.calls[c].Loaded?
    ensures StillDead(w, Decide(w, c), f)
  {
    assert Harmless(w.calls[c], f, w.now);
    QuietStep(w, Decide(w, c), f);
  }

  lemma MarkDead(w: World, c: nat, f: Id)
    requires Dead(w, f) && NoneInFlight(w, f) && f < w.state.nextId && c in w.calls && w.calls[c].Marking?
    ensures StillDead(w, Mark(w, c), f)
  {
    assert Harmless(w.calls[c], f, w.now);
    QuietStep(w, Mark(w, c), f);
  }

  lemma MintDead(w: World, c: nat, active: bool, ttl: nat, f: Id)
    requires Dead(w, f) && NoneInFlight(w, f) && f < w.state.nextId && c in w.calls && w.calls[c].Minting?
    ensures StillDead(w, MintNow(w, c, active, ttl), f)
  {
    assert Harmless(w.calls[c], f, w.now);
    QuietStep(w, MintNow(w, c, active, ttl), f);
  }

  lemma ArriveDead(w: World, c: nat, id: Id, f: Id)
    requires Dead(w, f) && NoneInFlight(w, f) && f < w.state.nextId
    ensures StillDead(w, Exec(w, Arrives(c, id)), f)
  {
    QuietStep(w, Exec(w, Arrives(c, id)), f);
  }

  lemma JudgeDead(w: World, c: nat, enforce: bool, f: Id)
    requires Dead(w, f) && NoneInFlight(w, f) && f < w.state.nextId && c in w.calls && w.calls[c].Judging?
    ensures StillDead(w, Judge(w, c, enforce), f)
  {
    QuietStep(w, Judge(w, c, enforce), f);
  }

  lemma RevokeDead(w: World, c: nat, f: Id)
    requires Dead(w, f) && NoneInFlight(w, f) && f < w.state.nextId && c in w.calls
    requires w.calls[c].RevokingFamily? || w.calls[c].RevokingSuccessor?
    ensures StillDead(w, Revoke(w, c), f)
  {
    QuietStep(w, Revoke(w, c), f);
  }

  lemma StepDead(w: World, st: Step, f: Id)
    requires Dead(w, f) && NoneInFlight(w, f) && f < w.state.nextId
    ensures StillDead(w, Exec(w, st), f)
  {
    match st
    case Arrives(c, id) => ArriveDead(w, c, id, f);
    case Decides(c) => if c in w.calls && w.calls[c].Loaded? { DecideDead(w, c, f); }
    case Marks(c) => if c in w.calls && w.calls[c].Marking? { MarkDead(w, c, f); }
    case Mints(c, active, ttl) => if c in w.calls && w.calls[c].Minting? { MintDead(w, c, active, ttl, f); }
    case Judges(c, enforce) => if c in w.calls && w.calls[c].Judging? { JudgeDead(w, c, enforce, f); }
    case Revokes(c) =>
      if c in w.calls && (w.calls[c].RevokingFamily? || w.calls[c].RevokingSuccessor?) { RevokeDead(w, c, f); }
    case _ => QuietStep(w, Exec(w, st), f);
  }

  /**
   MAIN. A dead family with no call past its checks stays dead in every interleaving
   of split calls, restarts, deletions and logins: no row of it appears or changes.
   */
  lemma {:induction false} DeadUnderRaces(w: World, steps: seq<Step>, f: Id)
    requires Dead(w, f) && NoneInFlight(w, f) && f < w.state.nextId
    ensures StillDead(w, Run(w, steps), f)
    decreases |steps|
  {
    if steps != [] {
      StepDead(w, steps[0], f);
      DeadUnderRaces(Exec(w, steps[0]), steps[1..], f);
    }
  }
}

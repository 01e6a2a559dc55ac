/**
 The cron lease: any number of scheduler instances share one lock row per job.
 A run captures the time, asks for the row, runs, and deletes the row; each of
 these is its own step, any of them may fail, and an instance may die anywhere.
 */
module CronLock {
  import opened Prelude

  type Inst = string
  type JobName = string

  /** A lock row. */
  datatype Lock = Lock(until: int, owner: Inst)

  type Locks = map<JobName, Lock>

  // ---------------------------------------------------------------- the lock table

  predicate Free(locks: Locks, job: JobName, now: int) { job !in locks || locks[job].until < now }

  /** The conditional upsert: a missing or expired row is taken, a live one is left alone. */
  function Taken(locks: Locks, job: JobName, now: int, ttl: nat, me: Inst): Locks {
    if Free(locks, job, now) then locks[job := Lock(now + ttl, me)] else locks
  }

  predicate Mine(locks: Locks, job: JobName, me: Inst) { job in locks && locks[job].owner == me }

  /** The delete at the end of a run: only the instance's own row goes. */
  function Dropped(locks: Locks, job: JobName, me: Inst): Locks {
    if Mine(locks, job, me) then locks - {job} else locks
  }

  class LockTable {
    var rows: Locks

    constructor ()
      ensures rows == map[]
    {
      rows := map[];
    }

    method Acquire(job: JobName, now: int, ttl: nat, me: Inst) returns (acquired: bool)
      modifies this
      ensures rows == Taken(old(rows), job, now, ttl, me)
      ensures acquired <==> Free(old(rows), job, now)
      ensures acquired ==> rows[job] == Lock(now + ttl, me)
      ensures forall other :: other in old(rows) && other != job ==> other in rows && rows[other] == old(rows)[other]
    {
      var until := now + ttl;
      if job !in rows {
        rows := rows[job := Lock(until, me)];
        acquired := true;
      } else if rows[job].until < now {
        rows := rows[job := Lock(until, me)];
        acquired := true;
      } else {
        acquired := false;
      }
    }

    /** `stolen`: no row of ours was left to delete. */
    method Release(job: JobName, me: Inst) returns (stolen: bool)
      modifies this
      ensures rows == Dropped(old(rows), job, me)
      ensures stolen <==> !Mine(old(rows), job, me)
      ensures forall other :: other in old(rows) && old(rows)[other].owner != me ==> other in rows && rows[other] == old(rows)[other]
    {
      stolen := true;
      if job in rows && rows[job].owner == me {
        rows := rows - {job};
        stolen := false;
      }
    }
  }

  /** One instance: the jobs it has in flight, and the table it shares with the others. */
  class CronScheduler {
    const me: Inst
    const table: LockTable
    var inFlight: set<JobName>

    constructor (me: Inst, table: LockTable)
      ensures this.me == me && this.table == table && inFlight == {}
    {
      this.me := me;
      this.table := table;
      inFlight := {};
    }

    /** A tick starts a run unless one of this job is still in flight. */
    method Fire(job: JobName) returns (starts: bool)
      modifies this
      ensures starts <==> job !in old(inFlight)
      ensures inFlight == old(inFlight) + {job}
    {
      if job in inFlight {
        starts := false;
        assert inFlight == inFlight + {job};
      } else {
        inFlight := inFlight + {job};
        starts := true;
      }
    }

    /** A tick whose run nothing interrupts: it leaves no trace but a freed row. */
    method RunAlone(job: JobName, ttl: nat, now: int) returns (ran: bool)
      modifies this, table
      ensures ran <==> job !in old(inFlight) && Free(old(table.rows), job, now)
      ensures inFlight == old(inFlight)
      ensures table.rows == if ran then old(table.rows) - {job} else old(table.rows)
    {
      ran := false;
      var starts := Fire(job);
      if starts {
        ran := table.Acquire(job, now, ttl, me);
        if ran {
          var stolen := table.Release(job, me);
          assert !stolen;
        }
        inFlight := inFlight - {job};
      }
    }
  }

  // ---------------------------------------------------------------- the system

  datatype Phase = Asking(at: int) | Running(until: int) | Releasing(until: int) | Over

  datatype Run = Run(inst: Inst, job: JobName, ttl: nat, phase: Phase)

  datatype System = System(clock: int, locks: Locks, runs: seq<Run>, inFlight: set<(Inst, JobName)>)

  /** What one run does next. */
  datatype Move =
    | Upsert                     // the row is asked for and the answer comes back
    | UpsertFails(written: bool) // the call fails, with or without having written the row
    | JobEnds                    // the job returns or throws
    | Release(ok: bool)          // the row is deleted, or the delete fails

  datatype Step =
    | Tick(d: nat)
    | Fire(inst: Inst, job: JobName, ttl: nat)
    | Moves(r: nat, move: Move)
    | Crash(inst: Inst)

  function Advanced(s: System, r: nat, phase: Phase): System
    requires r < |s.runs|
  {
    s.(runs := s.runs[r := s.runs[r].(phase := phase)])
  }

  /** A run is over: its promise settles and leaves the in-flight set. */
  function Settled(s: System, r: nat): System
    requires r < |s.runs|
  {
    Advanced(s, r, Over).(inFlight := s.inFlight - {(s.runs[r].inst, s.runs[r].job)})
  }

  function ExecMove(s: System, r: nat, move: Move): System
    requires r < |s.runs|
  {
    var run := s.runs[r];
    match (run.phase, move)
    case (Asking(at), Upsert) =>
      if Free(s.locks, run.job, at)
      then Advanced(s, r, Running(at + run.ttl)).(locks := Taken(s.locks, run.job, at, run.ttl, run.inst))
      else Settled(s, r)
    case (Asking(at), UpsertFails(written)) =>
      Settled(s, r).(locks := if written then Taken(s.locks, run.job, at, run.ttl, run.inst) else s.locks)
    case (Running(until), JobEnds) => Advanced(s, r, Releasing(until))
    case (Releasing(until), Release(ok)) =>
      Settled(s, r).(locks := if ok then Dropped(s.locks, run.job, run.inst) else s.locks)
    case _ => s
  }

  function Died(run: Run, inst: Inst): Run { if run.inst == inst then run.(phase := Over) else run }

  function Exec(s: System, step: Step): System {
    match step
    case Tick(d) => s.(clock := s.clock + d)
    case Fire(inst, job, ttl) =>
      if (inst, job) in s.inFlight then s
      else s.(runs := s.runs + [Run(inst, job, ttl, Asking(s.clock))], inFlight := s.inFlight + {(inst, job)})
    case Moves(r, move) => if r < |s.runs| then ExecMove(s, r, move) else s
    case Crash(inst) =>
      s.(runs := seq(|s.runs|, i requires 0 <= i < |s.runs| => Died(s.runs[i], inst)),
         inFlight := set p | p in s.inFlight && p.0 != inst)
  }

  function Initial(): System { System(0, map[], [], {}) }

  function Reached(steps: seq<Step>): System
    decreases |steps|
  {
    if steps == [] then Initial() else Exec(Reached(steps[..|steps| - 1]), steps[|steps| - 1])
  }

  // ---------------------------------------------------------------- the invariant

  /** While its lease lasts, a run owns the row of its job. */
  ghost predicate Holds(s: System, r: nat)
    requires r < |s.runs|
  {
    var run := s.runs[r];
    match run.phase
    case Asking(at) => at <= s.clock
    case Running(until) => s.clock <= until ==> run.job in s.locks && s.locks[run.job] == Lock(until, run.inst)
    case Releasing(until) => s.clock <= until ==> run.job in s.locks && s.locks[run.job] == Lock(until, run.inst)
    case Over => true
  }

  /** A live run is in flight. */
  ghost predicate Flying(s: System, r: nat)
    requires r < |s.runs|
  {
    s.runs[r].phase != Over ==> (s.runs[r].inst, s.runs[r].job) in s.inFlight
  }

  /** Two runs of one job in one instance: at most one is live. */
  ghost predicate Apart(s: System, q: nat, r: nat)
    requires q < |s.runs| && r < |s.runs|
  {
    s.runs[q].inst == s.runs[r].inst && s.runs[q].job == s.runs[r].job && s.runs[q].phase != Over && s.runs[r].phase != Over
    ==> q == r
  }

  ghost predicate AllHold(s: System) { forall r :: 0 <= r < |s.runs| ==> Holds(s, r) }

  ghost predicate OneEach(s: System) {
    && (forall r :: 0 <= r < |s.runs| ==> Flying(s, r))
    && (forall q, r :: 0 <= q < |s.runs| && 0 <= r < |s.runs| ==> Apart(s, q, r))
  }

  lemma MoveHolds(s: System, r: nat, move: Move)
    requires AllHold(s) && OneEach(s) && r < |s.runs|
    ensures AllHold(ExecMove(s, r, move))
  {
    var s' := ExecMove(s, r, move);
    forall q | 0 <= q < |s'.runs| ensures Holds(s', q) {
      assert Holds(s, q) && Holds(s, r) && Apart(s, q, r);
    }
  }

  lemma MoveOneEach(s: System, r: nat, move: Move)
    requires OneEach(s) && r < |s.runs|
    ensures OneEach(ExecMove(s, r, move))
  {
    var s' := ExecMove(s, r, move);
    forall q | 0 <= q < |s'.runs| ensures Flying(s', q) { assert Flying(s, q) && Apart(s, q, r); }
    forall p, q | 0 <= p < |s'.runs| && 0 <= q < |s'.runs| ensures Apart(s', p, q) { assert Apart(s, p, q); }
  }

  lemma StepKeeps(s: System, step: Step)
    requires AllHold(s) && OneEach(s)
    ensures AllHold(Exec(s, step)) && OneEach(Exec(s, step))
  {
    var s' := Exec(s, step);
    if step.Moves? {
      if step.r < |s.runs| { MoveHolds(s, step.r, step.move); MoveOneEach(s, step.r, step.move); }
    } else {
      forall r | 0 <= r < |s'.runs| ensures Holds(s', r) && Flying(s', r) {
        if r < |s.runs| { assert Holds(s, r) && Flying(s, r); }
      }
      forall p, q | 0 <= p < |s'.runs| && 0 <= q < |s'.runs| ensures Apart(s', p, q) {
        if p < |s.runs| { assert Flying(s, p); }
        if q < |s.runs| { assert Flying(s, q); }
        if p < |s.runs| && q < |s.runs| { assert Apart(s, p, q); }
      }
    }
  }

  lemma {:induction false} RunSafe(steps: seq<Step>)
    ensures AllHold(Reached(steps)) && OneEach(Reached(steps))
    decreases |steps|
  {
    if steps != [] {
      RunSafe(steps[..|steps| - 1]);
      StepKeeps(Reached(steps[..|steps| - 1]), steps[|steps| - 1]);
    }
  }

  // ---------------------------------------------------------------- mutual exclusion

  predicate IsRunning(s: System, r: nat, job: JobName) { r < |s.runs| && s.runs[r].job == job && s.runs[r].phase.Running? }

  /** The run is still going after its lease ended. */
  predicate Overruns(s: System, r: nat) { r < |s.runs| && s.runs[r].phase.Running? && s.runs[r].phase.until < s.clock }

  /**
   MAIN. Whatever the interleaving, crashes and failed calls: when two runs of one
   job go on at once, at least one of them has overrun its lease.
   */
  lemma TogetherOnlyByOverrun(steps: seq<Step>, q: nat, r: nat, job: JobName)
    requires IsRunning(Reached(steps), q, job) && IsRunning(Reached(steps), r, job) && q != r
    ensures Overruns(Reached(steps), q) || Overruns(Reached(steps), r)
  {
    var s := Reached(steps);
    RunSafe(steps);
    assert Holds(s, q) && Holds(s, r) && Apart(s, q, r);
  }

  /** MAIN. If no run ever overruns its lease, no job ever runs twice at once. */
  lemma MutualExclusion(steps: seq<Step>)
    requires forall n, r: nat :: 0 <= n <= |steps| ==> !Overruns(Reached(steps[..n]), r)
    ensures forall n, q: nat, r: nat, job :: 0 <= n <= |steps| && IsRunning(Reached(steps[..n]), q, job) && IsRunning(Reached(steps[..n]), r, job)
              ==> q == r
  {
    forall n, q: nat, r: nat, job |
      0 <= n <= |steps| && IsRunning(Reached(steps[..n]), q, job) && IsRunning(Reached(steps[..n]), r, job) && q != r
      ensures false
    {
      TogetherOnlyByOverrun(steps[..n], q, r, job);
    }
  }

  /** MAIN. One instance never runs a job over itself, even when its runs overrun. */
  lemma NeverOverItself(steps: seq<Step>, q: nat, r: nat, job: JobName)
    requires IsRunning(Reached(steps), q, job) && IsRunning(Reached(steps), r, job)
    requires Reached(steps).runs[q].inst == Reached(steps).runs[r].inst
    ensures q == r
  {
    RunSafe(steps);
    assert Apart(Reached(steps), q, r);
  }

  /** A call that fails ends the run and leaves the rows as they were, unless it was written before it failed. */
  lemma FailedCalls(s: System, r: nat)
    requires r < |s.runs|
    ensures var run := s.runs[r]; var s' := Exec(s, Moves(r, UpsertFails(false)));
            run.phase.Asking? ==> s'.locks == s.locks && s'.runs[r].phase == Over && (run.inst, run.job) !in s'.inFlight
    ensures var run := s.runs[r]; var s' := Exec(s, Moves(r, UpsertFails(true)));
            run.phase.Asking? ==>
              && s'.runs[r].phase == Over && (run.inst, run.job) !in s'.inFlight
              && s'.locks == if run.job !in s.locks || s.locks[run.job].until < run.phase.at
                             then s.locks[run.job := Lock(run.phase.at + run.ttl, run.inst)] else s.locks
    ensures var run := s.runs[r]; var s' := Exec(s, Moves(r, Release(false)));
            run.phase.Releasing? ==> s'.locks == s.locks && s'.runs[r].phase == Over && (run.inst, run.job) !in s'.inFlight
  {
  }

  // ---------------------------------------------------------------- releasing and recovering

  /** The instance a step belongs to. */
  predicate StepOf(s: System, step: Step, inst: Inst) {
    match step
    case Tick(d) => false
    case Fire(i, job, ttl) => i == inst
    case Moves(r, move) => r < |s.runs| && s.runs[r].inst == inst
    case Crash(i) => i == inst
  }

  /**
   MAIN. In every reachable state no step takes away a lock another instance holds
   and whose lease lasts - and a release takes away no foreign lock at all.
   */
  lemma OthersLockSurvives(steps: seq<Step>, step: Step, job: JobName, holder: Inst)
    requires Mine(Reached(steps).locks, job, holder) && !StepOf(Reached(steps), step, holder)
    requires Reached(steps).clock <= Reached(steps).locks[job].until || (step.Moves? && step.move.Release?)
    ensures Mine(Exec(Reached(steps), step).locks, job, holder)
    ensures Exec(Reached(steps), step).locks[job] == Reached(steps).locks[job]
  {
    RunSafe(steps);
    if step.Moves? && step.r < |Reached(steps).runs| { assert Holds(Reached(steps), step.r); }
  }

  /** MAIN. A release that finds no row of its own means the run had outlived its lease. */
  lemma StolenMeansOverran(steps: seq<Step>, r: nat)
    requires r < |Reached(steps).runs| && Reached(steps).runs[r].phase.Releasing?
    requires !Mine(Reached(steps).locks, Reached(steps).runs[r].job, Reached(steps).runs[r].inst)
    ensures Reached(steps).runs[r].phase.until < Reached(steps).clock
  {
    RunSafe(steps);
    assert Holds(Reached(steps), r);
  }

  /**
   MAIN (recovery). A tick followed by its upsert starts the job exactly when the
   instance is not already at it and the row is missing or expired: a crashed
   holder delays the job until its lease ends, and no longer.
   */
  lemma ExpiredCanBeTaken(steps: seq<Step>, inst: Inst, job: JobName, ttl: nat)
    ensures var s := Reached(steps); var n := |s.runs|;
            var s2 := Exec(Exec(s, Fire(inst, job, ttl)), Moves(n, Upsert));
            && (IsRunning(s2, n, job) <==> (inst, job) !in s.inFlight && (job !in s.locks || s.locks[job].until < s.clock))
            && (IsRunning(s2, n, job) ==> s2.locks[job] == Lock(s.clock + ttl, inst))
  {
    var s := Reached(steps);
    assert Exec(s, Fire(inst, job, ttl)).runs[..|s.runs|] == s.runs;
  }

  lemma ReachedSnoc(steps: seq<Step>, step: Step)
    ensures Reached(steps + [step]) == Exec(Reached(steps), step)
  {
    assert (steps + [step])[..|steps|] == steps;
  }

  /**
   MAIN (crash). An instance dies in the middle of a run whose lease lasts. Whoever
   tries after `d` milliseconds - the restarted instance or another that is not at
   the job - starts it exactly when the dead run's lease has ended.
   */
  lemma CrashDelaysUntilLeaseEnds(steps: seq<Step>, r: nat, d: nat, who: Inst, ttl: nat)
    requires r < |Reached(steps).runs| && Reached(steps).runs[r].phase.Running?
    requires Reached(steps).clock <= Reached(steps).runs[r].phase.until
    requires var run := Reached(steps).runs[r]; who == run.inst || (who, run.job) !in Reached(steps).inFlight
    ensures var run := Reached(steps).runs[r]; var late := Reached(steps + [Crash(run.inst)] + [Tick(d)]); var n := |late.runs|;
            && late.clock == Reached(steps).clock + d
            && (IsRunning(Exec(Exec(late, Fire(who, run.job, ttl)), Moves(n, Upsert)), n, run.job) <==> run.phase.until < late.clock)
  {
    var s := Reached(steps);
    var run := s.runs[r];
    RunSafe(steps);
    assert Holds(s, r);
    ReachedSnoc(steps, Crash(run.inst));
    ReachedSnoc(steps + [Crash(run.inst)], Tick(d));
    ExpiredCanBeTaken(steps + [Crash(run.inst)] + [Tick(d)], who, run.job, ttl);
  }
}

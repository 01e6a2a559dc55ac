/**
 One-time codes under concurrent guesses: a guess reads the latest code of the
 phone, claims one of its five attempts, checks the hash, and consumes the code.
 Each of these is its own step; the hash check is an arbitrary answer.
 */
module Otp {
  import opened Prelude

  const MAX_ATTEMPTS := 5
  const BLOCK_MS := 15 * 60_000
  const TTL_MS := 600 * 1000

  datatype Code = Code(phone: string, createdAt: int, expiresAt: int, attempts: nat, usedAt: Option<int>)

  datatype Reason = Wrong | TooMany | Expired

  // ---------------------------------------------------------------- the rows

  /** The latest code of a phone. */
  function Latest(rows: seq<Code>, phone: string): (r: Option<nat>)
    ensures r.Some? ==> r.value < |rows| && rows[r.value].phone == phone
    ensures r.Some? ==> forall i :: r.value < i < |rows| ==> rows[i].phone != phone
    ensures r.None? ==> forall i :: 0 <= i < |rows| ==> rows[i].phone != phone
  {
    if rows == [] then None
    else if rows[|rows| - 1].phone == phone then Some(|rows| - 1)
    else Latest(rows[..|rows| - 1], phone)
  }

  /** Why a code as read is not even tried. */
  function Refusal(code: Code, now: int): Option<Reason> {
    if code.attempts >= MAX_ATTEMPTS && now - code.createdAt < BLOCK_MS then Some(TooMany)
    else if code.usedAt.Some? then Some(Wrong)
    else if code.expiresAt <= now then Some(Expired)
    else None
  }

  predicate Claimable(code: Code) { code.usedAt.None? && code.attempts < MAX_ATTEMPTS }

  // ---------------------------------------------------------------- one guess, alone

  /** The outcome of a guess that nothing interleaves with; None is success. */
  function Consumed(rows: seq<Code>, phone: string, now: int, good: bool): (seq<Code>, Option<Reason>) {
    var l := Latest(rows, phone);
    if l.None? then (rows, Some(Wrong))
    else
      var code := rows[l.value];
      if Refusal(code, now).Some? then (rows, Refusal(code, now))
      else if !Claimable(code) then (rows, Some(TooMany))
      else if !good then (rows[l.value := code.(attempts := code.attempts + 1)], Some(Wrong))
      else (rows[l.value := code.(attempts := code.attempts + 1, usedAt := Some(now))], None)
  }

  class OtpTable {
    var rows: seq<Code>

    constructor ()
      ensures rows == []
    {
      rows := [];
    }

    method Create(phone: string, now: int)
      modifies this
      ensures rows == old(rows) + [Code(phone, now, now + 600_000, 0, None)]
    {
      rows := rows + [Code(phone, now, now + TTL_MS, 0, None)];
    }

    method FindLatest(phone: string) returns (found: Option<nat>)
      ensures found == Latest(rows, phone)
    {
      found := Latest(rows, phone);
    }

    /** Conditional update: one more attempt on an unused code with attempts left. */
    method Claim(id: nat) returns (count: nat)
      requires id < |rows|
      modifies this
      ensures count == (if Claimable(old(rows)[id]) then 1 else 0)
      ensures rows == if count == 1 then old(rows)[id := old(rows)[id].(attempts := old(rows)[id].attempts + 1)] else old(rows)
    {
      count := 0;
      if rows[id].usedAt.None? && rows[id].attempts < MAX_ATTEMPTS {
        rows := rows[id := rows[id].(attempts := rows[id].attempts + 1)];
        count := 1;
      }
    }

    /** Conditional update: an unused code becomes used. */
    method MarkUsed(id: nat, now: int) returns (count: nat)
      requires id < |rows|
      modifies this
      ensures count == (if old(rows)[id].usedAt.None? then 1 else 0)
      ensures rows == if count == 1 then old(rows)[id := old(rows)[id].(usedAt := Some(now))] else old(rows)
    {
      count := 0;
      if rows[id].usedAt.None? {
        rows := rows[id := rows[id].(usedAt := Some(now))];
        count := 1;
      }
    }

    /** A guess that nothing interleaves with. */
    method ConsumeOtp(phone: string, now: int, good: bool) returns (refused: Option<Reason>)
      modifies this
      ensures (rows, refused) == Consumed(old(rows), phone, now, good)
    {
      var recent := FindLatest(phone);
      if recent.None? { return Some(Wrong); }
      var code := rows[recent.value];
      if code.attempts >= MAX_ATTEMPTS && now - code.createdAt < BLOCK_MS { return Some(TooMany); }
      if code.usedAt.Some? { return Some(Wrong); }
      if code.expiresAt <= now { return Some(Expired); }
      var claimed := Claim(recent.value);
      if claimed != 1 { return Some(TooMany); }
      if !good { return Some(Wrong); }
      var used := MarkUsed(recent.value, now);
      if used != 1 { return Some(Wrong); }
      assert rows == old(rows)[recent.value := code.(attempts := code.attempts + 1, usedAt := Some(now))];
      refused := None;
    }
  }

  // ---------------------------------------------------------------- many guesses, interleaved

  datatype Phase =
    | Reading(now: int)
    | Found(now: int, row: nat)
    | Claimed(now: int, row: nat)
    | Matched(now: int, row: nat)
    | Won(row: nat)
    | Refused(reason: Reason)

  datatype Guess = Guess(phone: string, phase: Phase)

  /** What has happened to one code: who claimed an attempt, who checked the hash and how often that ran, who won. */
  datatype Marks = Marks(claimed: set<nat>, checked: set<nat>, checks: nat, won: set<nat>)

  datatype System = System(clock: int, rows: seq<Code>, guesses: seq<Guess>, marks: seq<Marks>)

  datatype Move = Read | Claim | Verify(good: bool) | Use

  datatype Step = Tick(d: nat) | Send(phone: string) | Begin(phone: string) | Moves(g: nat, move: Move)

  function To(s: System, g: nat, phase: Phase): System
    requires g < |s.guesses|
  {
    s.(guesses := s.guesses[g := s.guesses[g].(phase := phase)])
  }

  function Row(s: System, r: nat, code: Code, marks: Marks): System
    requires r < |s.rows| && r < |s.marks|
  {
    s.(rows := s.rows[r := code], marks := s.marks[r := marks])
  }

  function ExecMove(s: System, g: nat, move: Move): System
    requires g < |s.guesses|
  {
    match (s.guesses[g].phase, move)
    case (Reading(now), Read) =>
      var l := Latest(s.rows, s.guesses[g].phone);
      if l.None? then To(s, g, Refused(Wrong))
      else if Refusal(s.rows[l.value], now).Some? then To(s, g, Refused(Refusal(s.rows[l.value], now).value))
      else To(s, g, Found(now, l.value))
    case (Found(now, r), Claim) =>
      if r >= |s.rows| || r >= |s.marks| then s
      else if !Claimable(s.rows[r]) then To(s, g, Refused(TooMany))
      else
        var m := s.marks[r];
        Row(To(s, g, Claimed(now, r)), r, s.rows[r].(attempts := s.rows[r].attempts + 1), m.(claimed := m.claimed + {g}))
    case (Claimed(now, r), Verify(good)) =>
      if r >= |s.rows| || r >= |s.marks| then s
      else
        var m := s.marks[r];
        Row(To(s, g, if good then Matched(now, r) else Refused(Wrong)), r, s.rows[r],
            m.(checked := m.checked + {g}, checks := m.checks + 1))
    case (Matched(now, r), Use) =>
      if r >= |s.rows| || r >= |s.marks| then s
      else if s.rows[r].usedAt.Some? then To(s, g, Refused(Wrong))
      else
        var m := s.marks[r];
        Row(To(s, g, Won(r)), r, s.rows[r].(usedAt := Some(now)), m.(won := m.won + {g}))
    case _ => s
  }

  function Exec(s: System, step: Step): System {
    match step
    case Tick(d) => s.(clock := s.clock + d)
    case Send(phone) =>
      s.(rows := s.rows + [Code(phone, s.clock, s.clock + TTL_MS, 0, None)], marks := s.marks + [Marks({}, {}, 0, {})])
    case Begin(phone) => s.(guesses := s.guesses + [Guess(phone, Reading(s.clock))])
    case Moves(g, move) => if g < |s.guesses| then ExecMove(s, g, move) else s
  }

  function Run(s: System, steps: seq<Step>): System
    decreases |steps|
  {
    if steps == [] then s else Exec(Run(s, steps[..|steps| - 1]), steps[|steps| - 1])
  }

  function Reached(steps: seq<Step>): System { Run(System(0, [], [], []), steps) }

  // ---------------------------------------------------------------- the invariant

  /** One code: every hash check has its own claimed attempt, at most one guess wins. */
  ghost predicate RowOk(code: Code, m: Marks) {
    && |m.claimed| == code.attempts <= MAX_ATTEMPTS
    && m.checked <= m.claimed && |m.checked| == m.checks
    && m.won <= m.checked && |m.won| <= 1
    && (m.won == {} <==> code.usedAt.None?)
  }

  function RowOf(phase: Phase): Option<nat> {
    match phase
    case Found(now, row) => Some(row)
    case Claimed(now, row) => Some(row)
    case Matched(now, row) => Some(row)
    case Won(row) => Some(row)
    case _ => None
  }

  /** A guess works on an existing code of its own phone. */
  ghost predicate Pointed(s: System, g: nat)
    requires g < |s.guesses|
  {
    var r := RowOf(s.guesses[g].phase); r.Some? ==> r.value < |s.rows| && s.rows[r.value].phone == s.guesses[g].phone
  }

  /** One guess and one code: what the code remembers of the guess. */
  ghost predicate GuessOk(phase: Phase, g: nat, r: nat, m: Marks) {
    match phase
    case Reading(now) => g !in m.claimed
    case Found(now, row) => g !in m.claimed
    case Claimed(now, row) => row == r ==> g in m.claimed && g !in m.checked
    case Matched(now, row) => row == r ==> g in m.checked && g !in m.won
    case Won(row) => row == r ==> g in m.won
    case Refused(reason) => true
  }

  /** A code's marks name existing guesses only. */
  ghost predicate Known(m: Marks, n: nat) { forall g :: g in m.claimed ==> g < n }

  ghost predicate Ok(s: System) {
    && |s.rows| == |s.marks|
    && (forall r :: 0 <= r < |s.rows| ==> RowOk(s.rows[r], s.marks[r]))
    && (forall r :: 0 <= r < |s.rows| ==> Known(s.marks[r], |s.guesses|))
    && (forall g :: 0 <= g < |s.guesses| ==> Pointed(s, g))
    && (forall g, r :: 0 <= g < |s.guesses| && 0 <= r < |s.rows| ==> GuessOk(s.guesses[g].phase, g, r, s.marks[r]))
  }

  lemma SetGrows(a: set<nat>, x: nat)
    ensures |a + {x}| == |a| + (if x in a then 0 else 1)
  {
    if x in a { assert a + {x} == a; }
  }

  lemma ClaimRow(code: Code, m: Marks, g: nat)
    requires RowOk(code, m) && Claimable(code) && g !in m.claimed
    ensures RowOk(code.(attempts := code.attempts + 1), m.(claimed := m.claimed + {g}))
  {
    SetGrows(m.claimed, g);
  }

  lemma VerifyRow(code: Code, m: Marks, g: nat)
    requires RowOk(code, m) && g in m.claimed && g !in m.checked
    ensures RowOk(code, m.(checked := m.checked + {g}, checks := m.checks + 1))
  {
    SetGrows(m.checked, g);
  }

  lemma UseRow(code: Code, m: Marks, g: nat, now: int)
    requires RowOk(code, m) && code.usedAt.None? && g in m.checked
    ensures RowOk(code.(usedAt := Some(now)), m.(won := m.won + {g}))
  {
    SetGrows(m.won, g);
  }

  ghost predicate RowsOk(s: System) {
    |s.rows| == |s.marks| && forall r :: 0 <= r < |s.rows| ==> RowOk(s.rows[r], s.marks[r])
  }

  lemma RowsKept(s: System, g: nat, move: Move)
    requires RowsOk(s) && g < |s.guesses| && Pointed(s, g)
    requires var r := RowOf(s.guesses[g].phase); r.Some? ==> GuessOk(s.guesses[g].phase, g, r.value, s.marks[r.value])
    ensures RowsOk(ExecMove(s, g, move))
  {
    match s.guesses[g].phase
    case Found(now, r) => if Claimable(s.rows[r]) { ClaimRow(s.rows[r], s.marks[r], g); }
    case Claimed(now, r) => VerifyRow(s.rows[r], s.marks[r], g);
    case Matched(now, r) => if s.rows[r].usedAt.None? { UseRow(s.rows[r], s.marks[r], g, now); }
    case _ =>
  }

  /** A move changes one guess's phase, never a phone, and points only at the latest code of that phone. */
  lemma MoveShape(s: System, g: nat, move: Move)
    requires g < |s.guesses|
    ensures var s' := ExecMove(s, g, move); var row := RowOf(s'.guesses[g].phase);
            && |s'.rows| == |s.rows| && |s'.guesses| == |s.guesses|
            && (forall r :: 0 <= r < |s.rows| ==> s'.rows[r].phone == s.rows[r].phone)
            && s'.guesses == s.guesses[g := s.guesses[g].(phase := s'.guesses[g].phase)]
            && (row == None || row == RowOf(s.guesses[g].phase) || row == Latest(s.rows, s.guesses[g].phone))
  {
  }

  lemma PhasesPointed(s: System, g: nat, move: Move)
    requires g < |s.guesses| && forall h :: 0 <= h < |s.guesses| ==> Pointed(s, h)
    ensures forall h :: 0 <= h < |ExecMove(s, g, move).guesses| ==> Pointed(ExecMove(s, g, move), h)
  {
    var s' := ExecMove(s, g, move);
    MoveShape(s, g, move);
    forall h | 0 <= h < |s'.guesses| ensures Pointed(s', h) { assert Pointed(s, h); }
  }

  lemma KnownKept(s: System, g: nat, move: Move)
    requires |s.rows| == |s.marks| && g < |s.guesses|
    requires forall r :: 0 <= r < |s.rows| ==> Known(s.marks[r], |s.guesses|)
    ensures var s' := ExecMove(s, g, move);
            |s'.marks| == |s.rows| && forall r :: 0 <= r < |s'.marks| ==> Known(s'.marks[r], |s'.guesses|)
  {
    var s' := ExecMove(s, g, move);
    forall r | 0 <= r < |s'.marks| ensures Known(s'.marks[r], |s'.guesses|) { assert Known(s.marks[r], |s.guesses|); }
  }

  /** The moving guess's own account stays right. */
  lemma MoverKept(s: System, g: nat, move: Move, r: nat)
    requires RowsOk(s) && g < |s.guesses| && r < |s.rows| && GuessOk(s.guesses[g].phase, g, r, s.marks[r])
    ensures var s' := ExecMove(s, g, move);
            |s'.rows| == |s.rows| == |s'.marks| && |s'.guesses| == |s.guesses| && GuessOk(s'.guesses[g].phase, g, r, s'.marks[r])
  {
    assert RowOk(s.rows[r], s.marks[r]);
  }

  /** The others' too: a move marks nobody but the mover. */
  lemma OtherKept(s: System, g: nat, move: Move, h: nat, r: nat)
    requires |s.rows| == |s.marks| && g < |s.guesses| && h < |s.guesses| && h != g && r < |s.rows|
    requires GuessOk(s.guesses[h].phase, h, r, s.marks[r])
    ensures var s' := ExecMove(s, g, move);
            |s'.rows| == |s.rows| == |s'.marks| && |s'.guesses| == |s.guesses| && GuessOk(s'.guesses[h].phase, h, r, s'.marks[r])
  {
  }

  lemma GuessesKept(s: System, g: nat, move: Move)
    requires Ok(s) && g < |s.guesses|
    ensures var s' := ExecMove(s, g, move);
            && |s'.rows| == |s'.marks|
            && forall h, r :: 0 <= h < |s'.guesses| && 0 <= r < |s'.rows| ==> GuessOk(s'.guesses[h].phase, h, r, s'.marks[r])
  {
    var s' := ExecMove(s, g, move);
    MoveShape(s, g, move);
    assert RowsOk(s);
    forall h, r | 0 <= h < |s'.guesses| && 0 <= r < |s'.rows|
      ensures |s'.rows| == |s'.marks| && GuessOk(s'.guesses[h].phase, h, r, s'.marks[r])
    {
      if h == g { MoverKept(s, g, move, r); } else { OtherKept(s, g, move, h, r); }
    }
    KnownKept(s, g, move);
  }

  lemma StepKeeps(s: System, step: Step)
    requires Ok(s)
    ensures Ok(Exec(s, step))
  {
    var s' := Exec(s, step);
    match step
    case Moves(g, move) => if g < |s.guesses| { MoveKeeps(s, g, move); }
    case Tick(d) => forall g | 0 <= g < |s'.guesses| ensures Pointed(s', g) { assert Pointed(s, g); }
    case Send(phone) => SendKeeps(s, phone);
    case Begin(phone) => BeginKeeps(s, phone);
  }

  lemma MoveKeeps(s: System, g: nat, move: Move)
    requires Ok(s) && g < |s.guesses|
    ensures Ok(ExecMove(s, g, move))
  {
    assert Pointed(s, g) && RowsOk(s);
    RowsKept(s, g, move);
    PhasesPointed(s, g, move);
    KnownKept(s, g, move);
    GuessesKept(s, g, move);
  }

  lemma SendKeeps(s: System, phone: string)
    requires Ok(s)
    ensures Ok(Exec(s, Send(phone)))
  {
    var s' := Exec(s, Send(phone));
    forall g | 0 <= g < |s'.guesses| ensures Pointed(s', g) { assert Pointed(s, g); }
    forall g, r | 0 <= g < |s'.guesses| && 0 <= r < |s'.rows| ensures GuessOk(s'.guesses[g].phase, g, r, s'.marks[r]) {
      assert Pointed(s, g);
    }
  }

  lemma BeginKeeps(s: System, phone: string)
    requires Ok(s)
    ensures Ok(Exec(s, Begin(phone)))
  {
    var s' := Exec(s, Begin(phone));
    forall g | 0 <= g < |s'.guesses| ensures Pointed(s', g) { if g < |s.guesses| { assert Pointed(s, g); } }
    forall r | 0 <= r < |s'.rows| ensures Known(s'.marks[r], |s'.guesses|) { assert Known(s.marks[r], |s.guesses|); }
  }

  lemma {:induction false} RunSafe(steps: seq<Step>)
    ensures Ok(Reached(steps))
    decreases |steps|
  {
    if steps != [] {
      RunSafe(steps[..|steps| - 1]);
      StepKeeps(Reached(steps[..|steps| - 1]), steps[|steps| - 1]);
    }
  }

  lemma SubsetSize(a: set<nat>, b: set<nat>)
    requires a <= b
    ensures |a| <= |b|
  {
    if a != {} {
      var x :| x in a;
      SubsetSize(a - {x}, b - {x});
    }
  }

  // ---------------------------------------------------------------- the bounds

  /** MAIN. However the guesses interleave, a code takes five attempts and five hash checks at most. */
  lemma FiveChecksAtMost(steps: seq<Step>, r: nat)
    requires r < |Reached(steps).rows|
    ensures var s := Reached(steps);
            |s.marks| == |s.rows| && s.marks[r].checks <= s.rows[r].attempts <= 5
  {
    var s := Reached(steps);
    RunSafe(steps);
    assert RowOk(s.rows[r], s.marks[r]);
    SubsetSize(s.marks[r].checked, s.marks[r].claimed);
  }

  lemma OneElement(a: set<nat>, x: nat, y: nat)
    requires |a| <= 1 && x in a && y in a
    ensures x == y
  {
    if x != y { SubsetSize({x, y}, a); }
  }

  /** MAIN. At most one guess succeeds on a code, and a code with a winner is used. */
  lemma OneWinnerPerCode(steps: seq<Step>, g: nat, h: nat, r: nat)
    requires var s := Reached(steps); g < |s.guesses| && h < |s.guesses| && r < |s.rows|
    requires Reached(steps).guesses[g].phase == Won(r) && Reached(steps).guesses[h].phase == Won(r)
    ensures g == h && Reached(steps).rows[r].usedAt.Some?
  {
    var s := Reached(steps);
    RunSafe(steps);
    assert RowOk(s.rows[r], s.marks[r]) && GuessOk(s.guesses[g].phase, g, r, s.marks[r]);
    assert GuessOk(s.guesses[h].phase, h, r, s.marks[r]);
    OneElement(s.marks[r].won, g, h);
  }

  /** One step leaves a used code, and who claimed and won it, as they are. */
  lemma UsedStays(s: System, step: Step, r: nat)
    requires r < |s.rows| == |s.marks| && s.rows[r].usedAt.Some?
    ensures var s' := Exec(s, step);
            && r < |s'.rows| == |s'.marks| && s'.rows[r] == s.rows[r]
            && s'.marks[r].claimed == s.marks[r].claimed && s'.marks[r].won == s.marks[r].won
  {
  }

  /** One step claims nothing on a code whose attempts are used up. */
  lemma ExhaustedStays(s: System, step: Step, r: nat)
    requires r < |s.rows| == |s.marks| && s.rows[r].attempts >= 5
    ensures var s' := Exec(s, step);
            && r < |s'.rows| == |s'.marks| && s'.rows[r].attempts == s.rows[r].attempts
            && s'.marks[r].claimed == s.marks[r].claimed
  {
  }

  /** MAIN. After a success nothing can be claimed any more: in every later run the code, its claims and its winner stay. */
  lemma {:induction false} UsedIsFinal(s: System, later: seq<Step>, r: nat)
    requires r < |s.rows| == |s.marks| && s.rows[r].usedAt.Some?
    ensures var s' := Run(s, later);
            && r < |s'.rows| == |s'.marks| && s'.rows[r] == s.rows[r]
            && s'.marks[r].claimed == s.marks[r].claimed && s'.marks[r].won == s.marks[r].won
    decreases |later|
  {
    if later != [] {
      UsedIsFinal(s, later[..|later| - 1], r);
      UsedStays(Run(s, later[..|later| - 1]), later[|later| - 1], r);
    }
  }

  /** MAIN. An exhausted code takes no further claim in any later run. */
  lemma {:induction false} ExhaustedIsFinal(s: System, later: seq<Step>, r: nat)
    requires r < |s.rows| == |s.marks| && s.rows[r].attempts >= 5
    ensures var s' := Run(s, later);
            && r < |s'.rows| == |s'.marks| && s'.rows[r].attempts == s.rows[r].attempts
            && s'.marks[r].claimed == s.marks[r].claimed
    decreases |later|
  {
    if later != [] {
      ExhaustedIsFinal(s, later[..|later| - 1], r);
      ExhaustedStays(Run(s, later[..|later| - 1]), later[|later| - 1], r);
    }
  }

  // ---------------------------------------------------------------- a guess alone

  /** The steps of one guess run without interleaving. */
  function Alone(s: System, phone: string, good: bool): System {
    var g := |s.guesses|;
    Exec(Exec(Exec(Exec(Exec(s, Begin(phone)), Moves(g, Read)), Moves(g, Claim)), Moves(g, Verify(good))), Moves(g, Use))
  }

  /** MAIN. The stepwise protocol, run alone, does what the sequential call does. */
  lemma AloneIsConsumed(s: System, phone: string, good: bool)
    requires |s.rows| == |s.marks|
    ensures var s' := Alone(s, phone, good); var g := |s.guesses|;
            var (rows, refused) := Consumed(s.rows, phone, s.clock, good);
            && s'.rows == rows && |s'.guesses| == g + 1
            && (refused.None? ==> s'.guesses[g].phase.Won?)
            && (refused.Some? ==> s'.guesses[g].phase == Refused(refused.value))
  {
    var g, l := |s.guesses|, Latest(s.rows, phone);
    var s2 := Exec(Exec(s, Begin(phone)), Moves(g, Read));
    assert s2.rows == s.rows && s2.marks == s.marks;
    if l.Some? && Refusal(s.rows[l.value], s.clock).None? {
      assert s2.guesses[g].phase == Found(s.clock, l.value);
      AloneFromFound(s2, g, l.value, s.clock, good);
    }
  }

  lemma AloneFromFound(s: System, g: nat, r: nat, now: int, good: bool)
    requires g < |s.guesses| && r < |s.rows| == |s.marks| && s.guesses[g].phase == Found(now, r)
    ensures var s' := Exec(Exec(Exec(s, Moves(g, Claim)), Moves(g, Verify(good))), Moves(g, Use));
            var code := s.rows[r].(attempts := s.rows[r].attempts + 1);
            && |s'.guesses| == |s.guesses|
            && (!Claimable(s.rows[r]) ==> s'.rows == s.rows && s'.guesses[g].phase == Refused(TooMany))
            && (Claimable(s.rows[r]) && !good ==> s'.rows == s.rows[r := code] && s'.guesses[g].phase == Refused(Wrong))
            && (Claimable(s.rows[r]) && good ==> s'.rows == s.rows[r := code.(usedAt := Some(now))] && s'.guesses[g].phase == Won(r))
  {
    var s3 := Exec(s, Moves(g, Claim));
    if Claimable(s.rows[r]) { assert s3.guesses[g].phase == Claimed(now, r); }
  }

  /** MAIN. A guess alone succeeds exactly on the right code of an unused, unexpired latest row with attempts left. */
  lemma SucceedsExactly(rows: seq<Code>, phone: string, now: int, good: bool)
    ensures var l := Latest(rows, phone);
            Consumed(rows, phone, now, good).1.None? <==>
              && good && l.Some?
              && rows[l.value].usedAt.None? && now < rows[l.value].expiresAt && rows[l.value].attempts < 5
  {
  }

  /**
   MAIN. Every answer a guess alone can get, and exactly when; a guess that reaches the
   hash check counts one attempt on that code, and nothing else ever changes a row.
   */
  lemma GuessAnswersExactly(rows: seq<Code>, phone: string, now: int, good: bool)
    requires Latest(rows, phone).Some?
    ensures var l := Latest(rows, phone).value; var code := rows[l]; var (rows', r) := Consumed(rows, phone, now, good);
            var blocked := code.attempts >= 5 && now < code.createdAt + 900_000;
            var checked := code.attempts < 5 && code.usedAt == None && now < code.expiresAt;
            && (r == Some(TooMany) <==> blocked || (code.attempts >= 5 && code.usedAt == None && now < code.expiresAt))
            && (r == Some(Expired) <==> !blocked && code.usedAt == None && code.expiresAt <= now)
            && (r == Some(Wrong) <==> (!blocked && code.usedAt.Some?) || (checked && !good))
            && rows' == if checked then rows[l := code.(attempts := code.attempts + 1, usedAt := if good then Some(now) else None)] else rows
  {
  }

  // ---------------------------------------------------------------- the block

  /** A code was created in the past, with the fixed life time. */
  ghost predicate Timed(code: Code, clock: int) { code.createdAt <= clock && code.expiresAt == code.createdAt + 600_000 }

  /** Codes are created in time order, so the last row of a phone is its newest. */
  ghost predicate InOrder(s: System) {
    && (forall i :: 0 <= i < |s.rows| ==> Timed(s.rows[i], s.clock))
    && (forall i, j :: 0 <= i <= j < |s.rows| ==> s.rows[i].createdAt <= s.rows[j].createdAt)
  }

  lemma MoveKeepsTimes(s: System, g: nat, move: Move)
    requires g < |s.guesses|
    ensures var s' := ExecMove(s, g, move);
            && s'.clock == s.clock && |s'.rows| == |s.rows|
            && forall i :: 0 <= i < |s.rows| ==>
                 s'.rows[i].createdAt == s.rows[i].createdAt && s'.rows[i].expiresAt == s.rows[i].expiresAt
  {
  }

  lemma StepInOrder(s: System, step: Step)
    requires InOrder(s)
    ensures InOrder(Exec(s, step))
  {
    var s' := Exec(s, step);
    if step.Moves? && step.g < |s.guesses| { MoveKeepsTimes(s, step.g, step.move); }
    forall i | 0 <= i < |s'.rows| ensures Timed(s'.rows[i], s'.clock) { if i < |s.rows| { assert Timed(s.rows[i], s.clock); } }
    forall i, j | 0 <= i <= j < |s'.rows| ensures s'.rows[i].createdAt <= s'.rows[j].createdAt {
      if j < |s.rows| { assert s.rows[i].createdAt <= s.rows[j].createdAt; } else { assert Timed(s'.rows[i], s'.clock); }
    }
  }

  lemma {:induction false} RowsInOrder(steps: seq<Step>)
    ensures InOrder(Reached(steps))
    decreases |steps|
  {
    if steps != [] {
      RowsInOrder(steps[..|steps| - 1]);
      StepInOrder(Reached(steps[..|steps| - 1]), steps[|steps| - 1]);
    }
  }

  /**
   MAIN. After five attempts a code is dead for good: the block outlasts the code's
   life, so every later guess at it is refused, as blocked for fifteen minutes and
   as used or expired after that.
   */
  lemma BlockOutlastsCode(steps: seq<Step>, phone: string, now: int, good: bool)
    requires Reached(steps).clock <= now && Latest(Reached(steps).rows, phone).Some?
    requires Reached(steps).rows[Latest(Reached(steps).rows, phone).value].attempts >= 5
    ensures var s := Reached(steps); var code := s.rows[Latest(s.rows, phone).value];
            var (rows, refused) := Consumed(s.rows, phone, now, good);
            && rows == s.rows
            && refused == Some(if now - code.createdAt < 900_000 then TooMany else if code.usedAt.Some? then Wrong else Expired)
            && forall i :: 0 <= i < |s.rows| && s.rows[i].phone == phone ==> s.rows[i].createdAt <= code.createdAt
  {
    RowsInOrder(steps);
    var s := Reached(steps);
    assert Timed(s.rows[Latest(s.rows, phone).value], s.clock);
  }
}
